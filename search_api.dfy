/**
 * The query side of the "Liz" article search service (app/backend/main.py):
 * validating the question, clamping `top_k`, turning vector-index hits into
 * `SearchItem`s, dropping items with neither id nor title on `/search`, and
 * `formatar_resposta_liz`, which short-circuits on an empty list and
 * otherwise sends an "- id — titulo" listing to a chat model.
 *
 * The embedding model, the vector-index search and the chat model are
 * parameters (`embed`, `search`, `chat`): total functions the model cannot
 * see into. Each endpoint returns, beside its response, the sequence of
 * calls it made to them, so that "no call was made" can be stated.
 */
module SearchApi {
  import opened Wrappers
  import opened PyStr
  import opened Seqs
  import opened Embedding

  /** `TOP_K_DEFAULT`. */
  const TopKDefault: int := 10
  /** The upper bound both endpoints write in their `limit=` expression. */
  const TopKMax: int := 25

  const EmptyQueryDetail: string := "Pergunta vazia."
  const NoResultsMessage: string :=
    "Não encontrei artigos relevantes para essa busca. Tente reformular com termos mais específicos."
  const SystemPrompt: string :=
    "Você é a Liz, assistente precisa e educada da OCESP. " +
    "Responda em português do Brasil. " +
    "Liste os artigos encontrados com ID e Título, em ordem de relevância. " +
    "Se nada for encontrado, sugira reformular a pergunta de forma clara."

  /** A hit's payload: the point's stored fields, as strings. This is the
      read side of the store the ingestion script writes (`Ingest.Payload`):
      a map, because a hit may lack a key or the payload altogether. */
  type Payload = map<string, string>

  /** The request body: `q` and the optional `top_k`. */
  datatype SearchRequest = SearchRequest(q: string, topK: Option<int>)

  /** A raw hit from the vector index: payload and score are both optional. */
  datatype Hit = Hit(payload: Option<Payload>, score: Option<real>)

  datatype SearchItem = SearchItem(id: string, titulo: string, score: real)

  /** The `/search` response. */
  datatype SearchResponse = SearchResponse(totalEncontrados: int, resultados: seq<SearchItem>, pergunta: string)

  /** The `/search_liz` response. */
  datatype LizResponse = LizResponse(resposta: string, itens: seq<SearchItem>, pergunta: string)

  /** The `HTTPException` raised for an invalid request. */
  datatype HttpError = HttpError(statusCode: int, detail: string)

  /** A call to one of the external collaborators. */
  datatype Call =
    | EmbedCall(text: string)
    | SearchCall(vector: Vector, limit: int)
    | ChatCall(system: string, user: string)

  /** What `formatar_resposta_liz` returns, with the calls it made. */
  datatype Answer = Answer(text: string, calls: seq<Call>)

  function Min(a: int, b: int): int { if a <= b then a else b }
  function Max(a: int, b: int): int { if a >= b then a else b }

  /** `max(1, min(req.top_k or TOP_K_DEFAULT, 25))`: Python's `or` replaces
      both `None` and `0` by the default. */
  function SearchLimit(topK: Option<int>): (k: int)
    ensures 1 <= k <= TopKMax
    ensures topK == None || topK == Some(0) ==> k == TopKDefault
    ensures topK.Some? && 1 <= topK.value <= TopKMax ==> k == topK.value
    ensures topK.Some? && topK.value > TopKMax ==> k == TopKMax
    ensures topK.Some? && topK.value < 0 ==> k == 1
  {
    var requested := if topK == None || topK == Some(0) then TopKDefault else topK.value;
    Max(1, Min(requested, TopKMax))
  }

  /** `q = req.q.strip()` followed by `if not q: raise HTTPException(400, ...)`. */
  function ValidateQuery(raw: string): (r: Result<string, HttpError>)
    ensures r.Err? <==> IsBlank(raw)
    ensures r.Err? ==> r.error == HttpError(400, EmptyQueryDetail)
    ensures r.Ok? ==> r.value != [] && r.value == Strip(raw)
  {
    StripSpec(raw);
    var q := Strip(raw);
    if q == [] then Err(HttpError(400, EmptyQueryDetail)) else Ok(q)
  }

  /** `str((h.payload or {}).get(key, ""))`. */
  function Field(payload: Option<Payload>, key: string): string {
    if payload.Some? && key in payload.value then payload.value[key] else ""
  }

  /** The `SearchItem` built from one hit. */
  function ToItem(h: Hit): (it: SearchItem)
    ensures it.id == (if h.payload.Some? && "id" in h.payload.value then h.payload.value["id"] else "")
    ensures it.titulo == (if h.payload.Some? && "titulo" in h.payload.value then h.payload.value["titulo"] else "")
    ensures it.score == (if h.score.Some? then h.score.value else 0.0)
  {
    SearchItem(Field(h.payload, "id"), Field(h.payload, "titulo"),
               if h.score.Some? then h.score.value else 0.0)
  }

  /** The items of a hit list, one per hit, in hit order. */
  function Items(hits: seq<Hit>): (items: seq<SearchItem>)
    ensures |items| == |hits|
  {
    seq(|hits|, i requires 0 <= i < |hits| => ToItem(hits[i]))
  }

  /** The loop `for h in hits: resultados.append(SearchItem(...))`. */
  method MapHits(hits: seq<Hit>) returns (resultados: seq<SearchItem>)
    ensures |resultados| == |hits|
    ensures forall i :: 0 <= i < |hits| ==> resultados[i] == ToItem(hits[i])
  {
    resultados := [];
    for i := 0 to |hits|
      invariant |resultados| == i
      invariant forall j :: 0 <= j < i ==> resultados[j] == ToItem(hits[j])
    {
      resultados := resultados + [ToItem(hits[i])];
    }
  }

  /** The test `(r.id or r.titulo)` of `/search`'s filter. */
  predicate Informative(it: SearchItem) {
    it.id != "" || it.titulo != ""
  }

  /** `f"- {it.id} — {it.titulo}"`. */
  function Line(it: SearchItem): string {
    "- " + it.id + " — " + it.titulo
  }

  function Lines(itens: seq<SearchItem>): (lines: seq<string>)
    ensures |lines| == |itens|
  {
    seq(|itens|, i requires 0 <= i < |itens| => Line(itens[i]))
  }

  /** `"\n".join([f"- {it.id} — {it.titulo}" for it in itens])`. */
  function Listing(itens: seq<SearchItem>): string {
    Join(Lines(itens), "\n")
  }

  /** The user message sent to the chat model. */
  function UserPrompt(pergunta: string, lista: string): string {
    "Pergunta do usuário: " + pergunta + "\n" +
    "Artigos encontrados (ID — Título):\n" + lista + "\n\n" +
    "Formate uma resposta breve no seu tom, sem inventar nada além do que está na lista."
  }

  /** `formatar_resposta_liz`: the fixed message and no chat call for an
      empty list; otherwise exactly one chat call, with the listing in the
      user message, and the model's stripped reply. */
  function FormatarResposta(pergunta: string, itens: seq<SearchItem>, chat: (string, string) -> string): (a: Answer)
    ensures a.calls == [] <==> itens == []
    ensures itens == [] ==> a.text == NoResultsMessage
    ensures itens != [] ==> a.calls == [ChatCall(SystemPrompt, UserPrompt(pergunta, Listing(itens)))]
    ensures itens != [] ==> a.text == Strip(chat(SystemPrompt, UserPrompt(pergunta, Listing(itens))))
  {
    if itens == [] then Answer(NoResultsMessage, [])
    else
      var user := UserPrompt(pergunta, Listing(itens));
      Answer(Strip(chat(SystemPrompt, user)), [ChatCall(SystemPrompt, user)])
  }

  /** The listing has one line per item, in item order, as long as no id or
      title itself holds a line break. */
  lemma ListingLines(itens: seq<SearchItem>)
    requires itens != []
    requires forall i :: 0 <= i < |itens| ==> '\n' !in itens[i].id && '\n' !in itens[i].titulo
    ensures Split(Listing(itens), '\n') == Lines(itens)
    ensures |Split(Listing(itens), '\n')| == |itens|
  {
    var lines := Lines(itens);
    forall i | 0 <= i < |lines| ensures '\n' !in lines[i] {
      assert lines[i] == "- " + itens[i].id + " — " + itens[i].titulo;
    }
    assert "\n" == ['\n'];
    SplitJoin(lines, '\n');
  }

  /** The `/search` endpoint. A blank question is rejected with 400 before
      any call; otherwise the question is embedded, the index is searched
      with the clamped limit, the informative items are kept in hit order,
      and the (discarded) answer is still formatted. */
  method Search(req: SearchRequest, embed: string -> Vector, search: (Vector, int) -> seq<Hit>,
                chat: (string, string) -> string)
    returns (r: Result<SearchResponse, HttpError>, calls: seq<Call>)
    ensures r.Err? <==> IsBlank(req.q)
    ensures r.Err? ==> r.error == HttpError(400, EmptyQueryDetail) && calls == []
    ensures r.Ok? ==>
      var q := Strip(req.q);
      var v := embed(q);
      var k := SearchLimit(req.topK);
      var kept := Filter(Items(search(v, k)), Informative);
      && r.value == SearchResponse(|kept|, kept, q)
      && calls == [EmbedCall(q), SearchCall(v, k)] + FormatarResposta(q, kept, chat).calls
  {
    var valid := ValidateQuery(req.q);
    if valid.Err? {
      return Err(valid.error), [];
    }
    var q := valid.value;
    var queryVec := embed(q);
    var limit := SearchLimit(req.topK);
    var hits := search(queryVec, limit);
    var resultados := MapHits(hits);
    assert resultados == Items(hits);
    resultados := Filter(resultados, Informative);
    var respostaLiz := FormatarResposta(q, resultados, chat);
    r := Ok(SearchResponse(|resultados|, resultados, q));
    calls := [EmbedCall(q), SearchCall(queryVec, limit)] + respostaLiz.calls;
  }

  /** The `/search_liz` endpoint: like `/search` but without the filter, and
      the formatted answer is returned beside every item. */
  method SearchLiz(req: SearchRequest, embed: string -> Vector, search: (Vector, int) -> seq<Hit>,
                   chat: (string, string) -> string)
    returns (r: Result<LizResponse, HttpError>, calls: seq<Call>)
    ensures r.Err? <==> IsBlank(req.q)
    ensures r.Err? ==> r.error == HttpError(400, EmptyQueryDetail) && calls == []
    ensures r.Ok? ==>
      var q := Strip(req.q);
      var v := embed(q);
      var k := SearchLimit(req.topK);
      var itens := Items(search(v, k));
      var answer := FormatarResposta(q, itens, chat);
      && r.value == LizResponse(answer.text, itens, q)
      && calls == [EmbedCall(q), SearchCall(v, k)] + answer.calls
  {
    var valid := ValidateQuery(req.q);
    if valid.Err? {
      return Err(valid.error), [];
    }
    var q := valid.value;
    var queryVec := embed(q);
    var limit := SearchLimit(req.topK);
    var hits := search(queryVec, limit);
    var resultados := MapHits(hits);
    assert resultados == Items(hits);
    var texto := FormatarResposta(q, resultados, chat);
    r := Ok(LizResponse(texto.text, resultados, q));
    calls := [EmbedCall(q), SearchCall(queryVec, limit)] + texto.calls;
  }

  /** A hit with no payload yields an item with neither id nor title: `/search`
      drops it and skips the chat call, while `/search_liz` keeps it and
      makes the call. */
  lemma UninformativeHitOnlyReachesChatOnSearchLiz(pergunta: string, chat: (string, string) -> string)
    ensures var itens := Items([Hit(None, None)]);
      && itens == [SearchItem("", "", 0.0)]
      && Filter(itens, Informative) == []
      && FormatarResposta(pergunta, Filter(itens, Informative), chat).calls == []
      && |FormatarResposta(pergunta, itens, chat).calls| == 1
  {
    var itens := Items([Hit(None, None)]);
    assert itens[0] == SearchItem("", "", 0.0);
    assert Filter(itens, Informative) == [] + Filter(itens[1..], Informative);
  }
}
