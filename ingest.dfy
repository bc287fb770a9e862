/**
 * The ingestion script (app/backend/ingest_embeddings.py): it loads the
 * optional metadata table into `meta` (keyed by file name, last row
 * winning), walks the sorted `.txt` paths, skips documents that are blank
 * after `strip()`, resolves each document's (id, titulo) from `meta` or from
 * its file name, embeds the text, numbers the points 0, 1, 2, ... and sends
 * them to the vector index in batches of 128, flushing the remainder at the
 * end.
 *
 * The script's module-level state (`points`, `ids_counter`) is the class
 * `Ingestor`. The embedding model is the function `embed`; each
 * `qdrant.upsert` call appends its batch to the ghost log `upserts`, and
 * each embedding request appends its text to the ghost log `embedded`.
 */
module Ingest {
  import opened Wrappers
  import opened PyStr
  import opened Seqs
  import opened Embedding
  import PyPath

  /** The flush threshold of the batch buffer. */
  const BatchSize: nat := 128

  /** A document as the loop sees it: its path and the file's contents. */
  datatype Doc = Doc(path: string, contents: string)

  /** A row of the metadata table, by column name. */
  datatype MetaRow = MetaRow(id: string, titulo: string, arquivo: string)

  /** A document's resolved identity. */
  datatype Identity = Identity(id: string, titulo: string)

  /** `{"id": id_doc, "titulo": titulo_doc, "arquivo": nome}`: the write
      side of the store, always with all three keys. The back end reads the
      same payloads back as `SearchApi.Payload`. */
  datatype Payload = Payload(id: string, titulo: string, arquivo: string)

  /** `models.PointStruct(id=..., vector=..., payload=...)`. */
  datatype Point = Point(id: nat, vector: Vector, payload: Payload)

  /** `os.path.splitext(os.path.basename(filename))[0]`. */
  function Stem(filename: string): string {
    PyPath.SplitExt(PyPath.Basename(filename)).0
  }

  /** `infer_from_filename`: the text of the stem before its first `_` is
      the id and the rest, dashes turned into spaces, the title; a stem
      without `_` gives an empty id and the whole stem as the title. */
  function InferFromFilename(filename: string): Identity {
    var base := Stem(filename);
    match SplitOnce(base, '_')
    case Some(parts) => Identity(parts.0, ReplaceChar(parts.1, '-', ' '))
    case None => Identity("", ReplaceChar(base, '-', ' '))
  }

  /** What inference yields, in terms of the stem: with an `_` the id is the
      prefix before the first one and the title the rest with every `-` read
      as a space; without one the id is empty. The id never holds an `_`. */
  lemma InferFromFilenameSpec(filename: string)
    ensures var r := InferFromFilename(filename);
      var base := Stem(filename);
      && '_' !in r.id
      && ('_' in base ==>
        && |r.id| < |base| && base[..|r.id|] == r.id && base[|r.id|] == '_'
        && r.titulo == ReplaceChar(base[|r.id| + 1..], '-', ' '))
      && ('_' !in base ==> r.id == "" && r.titulo == ReplaceChar(base, '-', ' '))
  {
    var base := Stem(filename);
    match SplitOnce(base, '_')
    case Some(parts) =>
      assert base[..|parts.0|] == parts.0 && base[|parts.0| + 1..] == parts.1;
    case None =>
  }

  /** The stem of a plain name with an extension is the name without it. */
  lemma StemPlain(root: string, ext: string)
    requires root != [] && root[0] != '.' && '/' !in root && '.' !in root
    requires ext != [] && ext[0] == '.' && '/' !in ext && '.' !in ext[1..]
    ensures Stem(root + ext) == root
  {
    PyPath.SplitExtPlain(root, ext);
    PyPath.BasenameSpec(root + ext);
  }

  /** A stem with an underscore: the id is what precedes the first one. */
  lemma InferWithId(filename: string, id: string, rest: string)
    requires Stem(filename) == id + ['_'] + rest && '_' !in id
    ensures InferFromFilename(filename) == Identity(id, ReplaceChar(rest, '-', ' '))
  {
    SplitOnceAt(id, '_', rest);
  }

  /** A stem without an underscore: the id is empty. */
  lemma InferWithoutId(filename: string)
    requires '_' !in Stem(filename)
    ensures InferFromFilename(filename) == Identity("", ReplaceChar(Stem(filename), '-', ' '))
  {
  }

  /** `123_Some-Title.txt` gives id `123` and title `Some Title`. */
  lemma InferExampleWithId()
    ensures InferFromFilename("123_Some-Title.txt") == Identity("123", "Some Title")
  {
    var root, ext := "123_Some-Title", ".txt";
    assert '/' !in root && '.' !in root && '.' !in ext[1..] && '/' !in ext;
    assert root == "123" + ['_'] + "Some-Title" && '_' !in "123";
    assert "Some-Title" == "Some" + ['-'] + "Title" && '-' !in "Some" && '-' !in "Title";
    assert "Some" + [' '] + "Title" == "Some Title";
    assert "123_Some-Title.txt" == root + ext;
    StemPlain(root, ext);
    InferWithId(root + ext, "123", "Some-Title");
    ReplaceCharOnce("Some", '-', ' ', "Title");
  }

  /** `NoUnderscore.txt` gives an empty id and the title `NoUnderscore`. */
  lemma InferExampleWithoutId()
    ensures InferFromFilename("NoUnderscore.txt") == Identity("", "NoUnderscore")
  {
    var root, ext := "NoUnderscore", ".txt";
    assert '/' !in root && '.' !in root && '.' !in ext[1..] && '/' !in ext;
    assert '_' !in root && '-' !in root;
    assert "NoUnderscore.txt" == root + ext;
    StemPlain(root, ext);
    InferWithoutId(root + ext);
    ReplaceCharAbsent(root, '-', ' ');
  }

  /** The `meta` dictionary the rows produce: `meta[row["arquivo"]] = row`
      for each row in turn. */
  function MetaOf(rows: seq<MetaRow>): map<string, MetaRow> {
    if rows == [] then map[]
    else
      var last := rows[|rows| - 1];
      MetaOf(rows[..|rows| - 1])[last.arquivo := last]
  }

  /** The loop that fills `meta` from the metadata table. */
  method LoadMeta(rows: seq<MetaRow>) returns (meta: map<string, MetaRow>)
    ensures meta == MetaOf(rows)
  {
    meta := map[];
    for i := 0 to |rows|
      invariant meta == MetaOf(rows[..i])
    {
      assert rows[..i + 1][..i] == rows[..i];
      meta := meta[rows[i].arquivo := rows[i]];
    }
    assert rows[..|rows|] == rows;
  }

  /** The keys of `meta` are exactly the file names listed in the table. */
  lemma {:induction false} MetaKeys(rows: seq<MetaRow>)
    ensures MetaOf(rows).Keys == set i | 0 <= i < |rows| :: rows[i].arquivo
  {
    if rows != [] {
      var init := rows[..|rows| - 1];
      MetaKeys(init);
      assert (set i | 0 <= i < |rows| :: rows[i].arquivo)
          == (set i | 0 <= i < |init| :: init[i].arquivo) + {rows[|rows| - 1].arquivo} by {
        forall i | 0 <= i < |init| ensures init[i] == rows[i] { }
      }
    }
  }

  /** For a file name listed more than once, the last row wins. */
  lemma {:induction false} MetaLastWins(rows: seq<MetaRow>, i: int)
    requires 0 <= i < |rows|
    requires forall j :: i < j < |rows| ==> rows[j].arquivo != rows[i].arquivo
    ensures rows[i].arquivo in MetaOf(rows) && MetaOf(rows)[rows[i].arquivo] == rows[i]
  {
    if i < |rows| - 1 {
      var init := rows[..|rows| - 1];
      MetaLastWins(init, i);
    }
  }

  /** Every entry of `meta` is a row of the table, stored under its own file name. */
  lemma {:induction false} MetaEntries(rows: seq<MetaRow>, nome: string)
    requires nome in MetaOf(rows)
    ensures MetaOf(rows)[nome] in rows && MetaOf(rows)[nome].arquivo == nome
  {
    var last := rows[|rows| - 1];
    if nome != last.arquivo {
      MetaEntries(rows[..|rows| - 1], nome);
    }
  }

  /** Lines 63-67: the table's (id, titulo) verbatim when the name is a key
      of `meta`, inference from the name otherwise. */
  function Resolve(nome: string, meta: map<string, MetaRow>): Identity {
    if nome in meta then Identity(meta[nome].id, meta[nome].titulo)
    else InferFromFilename(nome)
  }

  /** Resolution against a table: the last row naming the file decides, and
      filename inference applies only when no row names it. */
  lemma ResolveAgainstTable(rows: seq<MetaRow>, nome: string)
    ensures (exists i :: 0 <= i < |rows| && rows[i].arquivo == nome) ==>
      exists i :: 0 <= i < |rows| && rows[i].arquivo == nome &&
        (forall j :: i < j < |rows| ==> rows[j].arquivo != nome) &&
        Resolve(nome, MetaOf(rows)) == Identity(rows[i].id, rows[i].titulo)
    ensures (forall i :: 0 <= i < |rows| ==> rows[i].arquivo != nome) ==>
      Resolve(nome, MetaOf(rows)) == InferFromFilename(nome)
  {
    MetaKeys(rows);
    if exists i :: 0 <= i < |rows| && rows[i].arquivo == nome {
      var i := LastRowNaming(rows, nome);
      MetaLastWins(rows, i);
    }
  }

  /** The index of the last row that names `nome`. */
  lemma {:induction false} LastRowNaming(rows: seq<MetaRow>, nome: string) returns (i: int)
    requires exists k :: 0 <= k < |rows| && rows[k].arquivo == nome
    ensures 0 <= i < |rows| && rows[i].arquivo == nome
    ensures forall j :: i < j < |rows| ==> rows[j].arquivo != nome
  {
    if rows[|rows| - 1].arquivo == nome {
      i := |rows| - 1;
    } else {
      var k :| 0 <= k < |rows| && rows[k].arquivo == nome;
      assert rows[..|rows| - 1][k] == rows[k];
      i := LastRowNaming(rows[..|rows| - 1], nome);
    }
  }

  /** `texto = f.read().strip()` is not empty. */
  predicate HasText(d: Doc) {
    Strip(d.contents) != []
  }

  /** The documents that yield a point, in path order. */
  function NonBlank(docs: seq<Doc>): seq<Doc> {
    Filter(docs, HasText)
  }

  /** The point built for document `d` when the counter stands at `counter`. */
  function MakePoint(d: Doc, counter: nat, meta: map<string, MetaRow>, embed: string -> Vector): Point {
    var nome := PyPath.Basename(d.path);
    var ident := Resolve(nome, meta);
    Point(counter, embed(Strip(d.contents)), Payload(ident.id, ident.titulo, nome))
  }

  /** The points a run over `docs` constructs, document by document: a
      non-blank one adds its point, numbered by the points so far. */
  function Planned(docs: seq<Doc>, meta: map<string, MetaRow>, embed: string -> Vector): seq<Point>
    decreases |docs|
  {
    if docs == [] then []
    else
      var init := Planned(docs[..|docs| - 1], meta, embed);
      var d := docs[|docs| - 1];
      if HasText(d) then init + [MakePoint(d, |init|, meta, embed)] else init
  }

  /** The texts a run sends to the embedding model, in order. */
  function EmbeddedTexts(docs: seq<Doc>): seq<string>
    decreases |docs|
  {
    if docs == [] then []
    else
      var init := EmbeddedTexts(docs[..|docs| - 1]);
      var d := docs[|docs| - 1];
      if HasText(d) then init + [Strip(d.contents)] else init
  }

  /** A run constructs one point per non-blank document. */
  lemma {:induction false} PlannedLength(docs: seq<Doc>, meta: map<string, MetaRow>, embed: string -> Vector)
    ensures |Planned(docs, meta, embed)| == |NonBlank(docs)|
    decreases |docs|
  {
    if docs != [] {
      var init, d := docs[..|docs| - 1], docs[|docs| - 1];
      DropLastSnoc(docs);
      PlannedLength(init, meta, embed);
      NonBlankSnoc(init, d);
    }
  }

  /** The points of a run, one by one: the k-th non-blank document becomes
      the point numbered k. */
  lemma {:induction false} PlannedPoints(docs: seq<Doc>, meta: map<string, MetaRow>, embed: string -> Vector)
    ensures |Planned(docs, meta, embed)| == |NonBlank(docs)|
    ensures forall k :: 0 <= k < |NonBlank(docs)| ==> Planned(docs, meta, embed)[k] == MakePoint(NonBlank(docs)[k], k, meta, embed)
    decreases |docs|
  {
    PlannedLength(docs, meta, embed);
    if docs != [] {
      var init, d := docs[..|docs| - 1], docs[|docs| - 1];
      DropLastSnoc(docs);
      PlannedPoints(init, meta, embed);
      NonBlankSnoc(init, d);
      PlannedSnoc(init, d, meta, embed);
      var pi, nbi := Planned(init, meta, embed), NonBlank(init);
      if HasText(d) {
        PointsSnoc(pi, nbi, d, meta, embed);
      }
    }
  }

  /** Appending a document's point to the points of the documents before it
      keeps point k the point of document k. */
  lemma PointsSnoc(ps: seq<Point>, nb: seq<Doc>, d: Doc, meta: map<string, MetaRow>, embed: string -> Vector)
    requires |ps| == |nb|
    requires forall k :: 0 <= k < |nb| ==> ps[k] == MakePoint(nb[k], k, meta, embed)
    ensures forall k :: 0 <= k < |nb| + 1 ==>
      (ps + [MakePoint(d, |nb|, meta, embed)])[k] == MakePoint((nb + [d])[k], k, meta, embed)
  {
    var p := MakePoint(d, |nb|, meta, embed);
    forall k | 0 <= k < |nb| + 1 ensures (ps + [p])[k] == MakePoint((nb + [d])[k], k, meta, embed) {
      if k < |nb| {
        assert (ps + [p])[k] == ps[k] && (nb + [d])[k] == nb[k];
      } else {
        assert (ps + [p])[k] == p && (nb + [d])[k] == d;
      }
    }
  }

  /** Point k carries the id k: the ids of a run are 0, 1, 2, ... */
  lemma {:induction false} PlannedIds(docs: seq<Doc>, meta: map<string, MetaRow>, embed: string -> Vector)
    ensures forall k :: 0 <= k < |Planned(docs, meta, embed)| ==> Planned(docs, meta, embed)[k].id == k
    decreases |docs|
  {
    if docs != [] {
      var init, d := docs[..|docs| - 1], docs[|docs| - 1];
      PlannedIds(init, meta, embed);
      var ps, pi := Planned(docs, meta, embed), Planned(init, meta, embed);
      forall k | 0 <= k < |ps| ensures ps[k].id == k {
        if k < |pi| {
          assert ps[k] == pi[k];
        }
      }
    }
  }

  /** A point's id is its number, its vector the embedding of the document's
      stripped text, and its payload the resolved identity and the base name. */
  lemma MakePointFields(d: Doc, counter: nat, meta: map<string, MetaRow>, embed: string -> Vector)
    ensures var p := MakePoint(d, counter, meta, embed);
      && p.id == counter
      && p.vector == embed(Strip(d.contents))
      && p.payload.arquivo == PyPath.Basename(d.path)
      && Identity(p.payload.id, p.payload.titulo) == Resolve(PyPath.Basename(d.path), meta)
  {
  }

  /** The embedding requests of a run: the stripped text of each non-blank
      document, in order, and nothing for a blank one. */
  lemma {:induction false} EmbeddedTextsAre(docs: seq<Doc>)
    ensures |EmbeddedTexts(docs)| == |NonBlank(docs)|
    ensures forall k :: 0 <= k < |NonBlank(docs)| ==> EmbeddedTexts(docs)[k] == Strip(NonBlank(docs)[k].contents)
    decreases |docs|
  {
    if docs != [] {
      var init, d := docs[..|docs| - 1], docs[|docs| - 1];
      DropLastSnoc(docs);
      EmbeddedTextsAre(init);
      NonBlankSnoc(init, d);
    }
  }

  /** Every point's document is non-blank and comes from the input; blank
      documents contribute none. */
  lemma PlannedSources(docs: seq<Doc>, k: int)
    requires 0 <= k < |NonBlank(docs)|
    ensures NonBlank(docs)[k] in docs && HasText(NonBlank(docs)[k])
  {
    assert NonBlank(docs)[k] in NonBlank(docs);
  }

  /** One more document adds itself to the non-blank ones, or nothing. */
  lemma NonBlankSnoc(docs: seq<Doc>, d: Doc)
    ensures HasText(d) ==> NonBlank(docs + [d]) == NonBlank(docs) + [d]
    ensures !HasText(d) ==> NonBlank(docs + [d]) == NonBlank(docs)
  {
    FilterAppend(docs, [d], HasText);
    assert Filter([d], HasText) == (if HasText(d) then [d] else []) + Filter([], HasText);
  }

  /** One more document adds one point, numbered by the current count, or none. */
  lemma PlannedSnoc(docs: seq<Doc>, d: Doc, meta: map<string, MetaRow>, embed: string -> Vector)
    ensures HasText(d) ==>
      Planned(docs + [d], meta, embed) == Planned(docs, meta, embed) + [MakePoint(d, |NonBlank(docs)|, meta, embed)]
    ensures !HasText(d) ==> Planned(docs + [d], meta, embed) == Planned(docs, meta, embed)
  {
    assert (docs + [d])[..|docs|] == docs;
    PlannedLength(docs, meta, embed);
  }

  /** One more document adds its stripped text to the embedding requests, or nothing. */
  lemma EmbeddedSnoc(docs: seq<Doc>, d: Doc)
    ensures HasText(d) ==> EmbeddedTexts(docs + [d]) == EmbeddedTexts(docs) + [Strip(d.contents)]
    ensures !HasText(d) ==> EmbeddedTexts(docs + [d]) == EmbeddedTexts(docs)
  {
    assert (docs + [d])[..|docs|] == docs;
  }

  /** Every batch holds exactly `BatchSize` elements. */
  predicate AllFull<T>(bs: seq<seq<T>>) {
    bs == [] || (|bs[0]| == BatchSize && AllFull(bs[1..]))
  }

  /** One more full batch keeps every batch full. */
  lemma {:induction false} AllFullSnoc<T>(bs: seq<seq<T>>, b: seq<T>)
    requires AllFull(bs) && |b| == BatchSize
    ensures AllFull(bs + [b])
  {
    if bs != [] {
      AllFullSnoc(bs[1..], b);
      assert (bs + [b])[1..] == bs[1..] + [b];
    }
  }

  /** Sending the buffer as one more batch moves it from the buffer to the log. */
  lemma BufferFlush<T>(sent: seq<seq<T>>, buffer: seq<T>)
    ensures Flatten(sent + [buffer]) == Flatten(sent) + buffer
  {
    FlattenAppend(sent, [buffer]);
    assert Flatten([buffer]) == buffer + Flatten([]);
  }

  /** Splits a sequence into consecutive batches of `BatchSize`, the last
      one possibly shorter. */
  function Chunks<T>(s: seq<T>): seq<seq<T>>
    decreases |s|
  {
    if s == [] then []
    else if |s| <= BatchSize then [s]
    else [s[..BatchSize]] + Chunks(s[BatchSize..])
  }

  /** The batches, concatenated, are the sequence itself. */
  lemma {:induction false} ChunksFlatten<T>(s: seq<T>)
    ensures Flatten(Chunks(s)) == s
    decreases |s|
  {
    if |s| > BatchSize {
      ChunksFlatten(s[BatchSize..]);
      assert Chunks(s)[1..] == Chunks(s[BatchSize..]);
      assert s[..BatchSize] + s[BatchSize..] == s;
    } else if s != [] {
      assert Chunks(s)[1..] == [];
    }
  }

  /** Every batch but the last is full, the last holds 1 to `BatchSize`
      elements, and there are ceil(|s| / BatchSize) of them. */
  lemma {:induction false} ChunksSizes<T>(s: seq<T>)
    ensures |Chunks(s)| == (|s| + BatchSize - 1) / BatchSize
    ensures forall i :: 0 <= i < |Chunks(s)| - 1 ==> |Chunks(s)[i]| == BatchSize
    ensures Chunks(s) != [] ==> 1 <= |Chunks(s)[|Chunks(s)| - 1]| <= BatchSize
    ensures forall i :: 0 <= i < |Chunks(s)| ==> Chunks(s)[i] != []
    decreases |s|
  {
    if |s| > BatchSize {
      var rest := s[BatchSize..];
      ChunksSizes(rest);
      assert Chunks(s) == [s[..BatchSize]] + Chunks(rest);
      forall i | 0 < i < |Chunks(s)| ensures Chunks(s)[i] == Chunks(rest)[i - 1] { }
    }
  }

  /** Full batches followed by a short remainder are exactly the batching of
      their concatenation. */
  lemma {:induction false} ChunksOfFullBatches<T>(bs: seq<seq<T>>, rest: seq<T>)
    requires AllFull(bs)
    requires |rest| < BatchSize
    ensures rest == [] ==> Chunks(Flatten(bs) + rest) == bs
    ensures rest != [] ==> Chunks(Flatten(bs) + rest) == bs + [rest]
  {
    if bs != [] {
      ChunksOfFullBatches(bs[1..], rest);
      var s := Flatten(bs) + rest;
      assert s == bs[0] + (Flatten(bs[1..]) + rest);
      assert s[..BatchSize] == bs[0] && s[BatchSize..] == Flatten(bs[1..]) + rest;
      assert [bs[0]] + bs[1..] == bs;
    } else {
      assert Flatten(bs) + rest == rest;
    }
  }

  /** 300 points go out as batches of 128, 128 and 44. */
  lemma ThreeHundredPoints<T>(s: seq<T>)
    requires |s| == 300
    ensures |Chunks(s)| == 3
    ensures |Chunks(s)[0]| == 128 && |Chunks(s)[1]| == 128 && |Chunks(s)[2]| == 44
  {
    assert Chunks(s) == [s[..128]] + Chunks(s[128..]);
    assert Chunks(s[128..]) == [s[128..][..128]] + Chunks(s[128..][128..]);
    assert Chunks(s[128..][128..]) == [s[128..][128..]];
  }

  /** The constructed points, the counter and the embedding requests are
      those the documents `docs` yield. */
  ghost predicate Tracks(planned: seq<Point>, counter: nat, embedded: seq<string>,
                         docs: seq<Doc>, meta: map<string, MetaRow>, embed: string -> Vector)
  {
    && planned == Planned(docs, meta, embed)
    && counter == |NonBlank(docs)|
    && embedded == EmbeddedTexts(docs)
  }

  /** A non-blank document adds its point and its text. */
  lemma TracksText(planned: seq<Point>, counter: nat, embedded: seq<string>, docs: seq<Doc>, d: Doc,
                   meta: map<string, MetaRow>, embed: string -> Vector)
    requires Tracks(planned, counter, embedded, docs, meta, embed) && HasText(d)
    ensures Tracks(planned + [MakePoint(d, counter, meta, embed)], counter + 1, embedded + [Strip(d.contents)],
                   docs + [d], meta, embed)
  {
    NonBlankSnoc(docs, d);
    PlannedSnoc(docs, d, meta, embed);
    EmbeddedSnoc(docs, d);
  }

  /** A blank document adds nothing. */
  lemma TracksBlank(planned: seq<Point>, counter: nat, embedded: seq<string>, docs: seq<Doc>, d: Doc,
                    meta: map<string, MetaRow>, embed: string -> Vector)
    requires Tracks(planned, counter, embedded, docs, meta, embed) && !HasText(d)
    ensures Tracks(planned, counter, embedded, docs + [d], meta, embed)
  {
    NonBlankSnoc(docs, d);
    PlannedSnoc(docs, d, meta, embed);
    EmbeddedSnoc(docs, d);
  }

  /** The state the script keeps between documents. */
  class Ingestor {
    /** `meta`, read once before the loop. */
    const meta: map<string, MetaRow>
    /** The embedding model. */
    const embed: string -> Vector
    /** The batch buffer `points`. */
    var points: seq<Point>
    var idsCounter: nat
    /** Every batch sent with `qdrant.upsert`, in order. */
    ghost var upserts: seq<seq<Point>>
    /** Every point constructed so far, in order. */
    ghost var planned: seq<Point>
    /** Every text sent to the embedding model, in order. */
    ghost var embedded: seq<string>
    /** The documents the loop has gone through. */
    ghost var processed: seq<Doc>

    /** Between documents: the points sent followed by the buffer are the
        points constructed so far, the counter counts them, every batch sent
        is full and the buffer is not. */
    ghost predicate Valid()
      reads this
    {
      && Flatten(upserts) + points == planned
      && idsCounter == |planned|
      && |points| < BatchSize
      && AllFull(upserts)
    }

    /** The points constructed and the texts embedded are those the
        documents gone through yield. */
    ghost predicate TracksProcessed()
      reads this
    {
      Tracks(planned, idsCounter, embedded, processed, meta, embed)
    }

    /** `points = []`, `ids_counter = 0`. */
    constructor (meta: map<string, MetaRow>, embed: string -> Vector)
      ensures Valid() && TracksProcessed()
      ensures this.meta == meta && this.embed == embed
      ensures points == [] && idsCounter == 0
      ensures upserts == [] && planned == [] && embedded == [] && processed == []
    {
      this.meta := meta;
      this.embed := embed;
      points := [];
      idsCounter := 0;
      upserts := [];
      planned := [];
      embedded := [];
      processed := [];
    }

    /** One iteration of `for path in arquivos`. A blank document changes
        nothing; any other is embedded and becomes the point numbered by the
        counter, appended to the buffer, and the buffer is sent once it
        holds 128 points. */
    method Process(doc: Doc)
      requires Valid() && TracksProcessed()
      modifies this
      ensures Valid() && TracksProcessed()
      ensures processed == old(processed) + [doc]
      ensures !HasText(doc) ==>
        && points == old(points) && idsCounter == old(idsCounter)
        && upserts == old(upserts) && planned == old(planned) && embedded == old(embedded)
      ensures HasText(doc) ==>
        var p := MakePoint(doc, old(idsCounter), meta, embed);
        && planned == old(planned) + [p]
        && idsCounter == old(idsCounter) + 1
        && embedded == old(embedded) + [Strip(doc.contents)]
        && (|old(points)| + 1 == BatchSize ==> upserts == old(upserts) + [old(points) + [p]] && points == [])
        && (|old(points)| + 1 < BatchSize ==> upserts == old(upserts) && points == old(points) + [p])
    {
      var nome := PyPath.Basename(doc.path);
      var texto := Strip(doc.contents);
      if texto == [] {
        TracksBlank(planned, idsCounter, embedded, processed, doc, meta, embed);
        processed := processed + [doc];
        return;
      }
      TracksText(planned, idsCounter, embedded, processed, doc, meta, embed);
      processed := processed + [doc];
      var ident := Resolve(nome, meta);
      var emb := embed(texto);
      embedded := embedded + [texto];
      var point := Point(idsCounter, emb, Payload(ident.id, ident.titulo, nome));
      assert point == MakePoint(doc, idsCounter, meta, embed);
      Append(point);
    }

    /** `points.append(...)`, `ids_counter += 1`, and the upsert of the
        buffer once it holds 128 points. */
    method Append(point: Point)
      requires Valid()
      modifies this
      ensures Valid()
      ensures planned == old(planned) + [point] && idsCounter == old(idsCounter) + 1
      ensures embedded == old(embedded) && processed == old(processed)
      ensures |old(points)| + 1 == BatchSize ==> upserts == old(upserts) + [old(points) + [point]] && points == []
      ensures |old(points)| + 1 < BatchSize ==> upserts == old(upserts) && points == old(points) + [point]
    {
      AppendAssoc(Flatten(upserts), points, [point]);
      planned := planned + [point];
      points := points + [point];
      idsCounter := idsCounter + 1;
      if |points| >= BatchSize {
        BufferFlush(upserts, points);
        AllFullSnoc(upserts, points);
        upserts := upserts + [points];
        points := [];
      }
    }

    /** `if points: qdrant.upsert(...)` after the loop. Afterwards the log
        is exactly the batching of every point constructed. */
    method Finish()
      requires Valid()
      modifies this
      ensures points == [] && idsCounter == old(idsCounter)
      ensures planned == old(planned) && embedded == old(embedded) && processed == old(processed)
      ensures old(points) == [] ==> upserts == old(upserts)
      ensures old(points) != [] ==> upserts == old(upserts) + [old(points)]
      ensures upserts == Chunks(planned)
    {
      ChunksOfFullBatches(upserts, points);
      if points != [] {
        upserts := upserts + [points];
        points := [];
      }
    }
  }

  /** The whole script: load `meta`, process every path in order, flush.
      The points are those the documents yield, sent in batches of 128. */
  method RunIngestion(rows: seq<MetaRow>, docs: seq<Doc>, embed: string -> Vector) returns (ing: Ingestor)
    ensures fresh(ing)
    ensures ing.meta == MetaOf(rows) && ing.embed == embed
    ensures ing.points == [] && ing.idsCounter == |NonBlank(docs)|
    ensures ing.planned == Planned(docs, MetaOf(rows), embed)
    ensures ing.embedded == EmbeddedTexts(docs)
    ensures ing.upserts == Chunks(Planned(docs, MetaOf(rows), embed))
  {
    var meta := LoadMeta(rows);
    ing := new Ingestor(meta, embed);
    for i := 0 to |docs|
      invariant ing.Valid() && ing.TracksProcessed() && ing.meta == meta && ing.embed == embed
      invariant ing.processed == docs[..i]
    {
      PrefixSnoc(docs, i);
      ing.Process(docs[i]);
    }
    assert docs[..|docs|] == docs;
    ing.Finish();
  }

  /** Qdrant's upsert: each point is stored under its id, replacing any
      point already there. */
  function Upsert(store: map<nat, Point>, batch: seq<Point>): map<nat, Point>
    decreases |batch|
  {
    if batch == [] then store else Upsert(store[batch[0].id := batch[0]], batch[1..])
  }

  /** The store after a sequence of upsert calls. */
  function ApplyUpserts(store: map<nat, Point>, batches: seq<seq<Point>>): map<nat, Point>
    decreases |batches|
  {
    if batches == [] then store else ApplyUpserts(Upsert(store, batches[0]), batches[1..])
  }

  /** The points a batch writes, by id, later points replacing earlier ones. */
  function Written(batch: seq<Point>): map<nat, Point> {
    if batch == [] then map[] else map[batch[0].id := batch[0]] + Written(batch[1..])
  }

  /** Map union is associative. */
  lemma MapUnionAssoc<K, V>(a: map<K, V>, b: map<K, V>, c: map<K, V>)
    ensures (a + b) + c == a + (b + c)
  {
  }

  /** The empty map is a left unit of union. */
  lemma MapUnionEmpty<K, V>(m: map<K, V>)
    ensures map[] + m == m
  {
  }

  /** An upsert is the union of the store with the points the batch writes. */
  lemma {:induction false} UpsertIsUnion(store: map<nat, Point>, batch: seq<Point>)
    ensures Upsert(store, batch) == store + Written(batch)
    decreases |batch|
  {
    if batch != [] {
      var p := batch[0];
      UpsertIsUnion(store[p.id := p], batch[1..]);
      assert store[p.id := p] == store + map[p.id := p];
      MapUnionAssoc(store, map[p.id := p], Written(batch[1..]));
    }
  }

  /** Upserting batch after batch is upserting their concatenation. */
  lemma {:induction false} ApplyIsUpsertOfFlatten(store: map<nat, Point>, batches: seq<seq<Point>>)
    ensures ApplyUpserts(store, batches) == Upsert(store, Flatten(batches))
    decreases |batches|
  {
    if batches != [] {
      var first, rest := batches[0], Flatten(batches[1..]);
      ApplyIsUpsertOfFlatten(Upsert(store, first), batches[1..]);
      calc {
        ApplyUpserts(store, batches);
        Upsert(Upsert(store, first), rest);
        { UpsertIsUnion(Upsert(store, first), rest); UpsertIsUnion(store, first); }
        (store + Written(first)) + Written(rest);
        { MapUnionAssoc(store, Written(first), Written(rest)); }
        store + (Written(first) + Written(rest));
        { WrittenAppend(first, rest); }
        store + Written(first + rest);
        { UpsertIsUnion(store, first + rest); }
        Upsert(store, first + rest);
      }
    }
  }

  /** What a concatenation writes is what its first part writes, updated by
      what its second part writes. */
  lemma {:induction false} WrittenAppend(a: seq<Point>, b: seq<Point>)
    ensures Written(a + b) == Written(a) + Written(b)
  {
    if a == [] {
      assert a + b == b;
    } else {
      assert (a + b)[1..] == a[1..] + b;
      WrittenAppend(a[1..], b);
      MapUnionAssoc(map[a[0].id := a[0]], Written(a[1..]), Written(b));
    }
  }

  /** The points of `ps`, numbered `first`, `first + 1`, ..., are written
      each under its own id. */
  lemma {:induction false} WrittenNumbered(ps: seq<Point>, first: nat)
    requires forall k :: 0 <= k < |ps| ==> ps[k].id == first + k
    ensures forall n :: n in Written(ps) <==> first <= n < first + |ps|
    ensures forall k :: 0 <= k < |ps| ==> Written(ps)[first + k] == ps[k]
  {
    if ps != [] {
      WrittenNumbered(ps[1..], first + 1);
    }
  }

  /** Sending the same batches a second time leaves the store as the first
      time left it. */
  lemma ResendIsIdempotent(store: map<nat, Point>, ps: seq<Point>)
    ensures ApplyUpserts(ApplyUpserts(store, Chunks(ps)), Chunks(ps)) == ApplyUpserts(store, Chunks(ps))
  {
    var log := Chunks(ps);
    ChunksFlatten(ps);
    ApplyIsUpsertOfFlatten(store, log);
    ApplyIsUpsertOfFlatten(ApplyUpserts(store, log), log);
    UpsertIsUnion(store, ps);
    UpsertIsUnion(store + Written(ps), ps);
    MapUnionAssoc(store, Written(ps), Written(ps));
    assert Written(ps) + Written(ps) == Written(ps);
  }

  /** Batches sent to an empty store leave exactly what writing their points
      in order leaves. */
  lemma FreshIsWritten(ps: seq<Point>)
    ensures ApplyUpserts(map[], Chunks(ps)) == Written(ps)
  {
    ChunksFlatten(ps);
    ApplyIsUpsertOfFlatten(map[], Chunks(ps));
    UpsertIsUnion(map[], ps);
    MapUnionEmpty(Written(ps));
  }

  /** Points numbered 0, 1, 2, ... written in order leave point k under id k,
      for exactly the ids 0 to n - 1. */
  lemma WrittenFromZero(ps: seq<Point>)
    requires forall k :: 0 <= k < |ps| ==> ps[k].id == k
    ensures forall n :: n in Written(ps) <==> 0 <= n < |ps|
    ensures forall k :: 0 <= k < |ps| ==> Written(ps)[k] == ps[k]
  {
    WrittenNumbered(ps, 0);
    forall k | 0 <= k < |ps| ensures Written(ps)[k] == ps[k] {
      assert Written(ps)[0 + k] == ps[k];
    }
  }

  /** Batches of points numbered 0, 1, 2, ... sent to an empty store leave
      point k under id k, for exactly the ids 0 to n - 1. */
  lemma FreshStore(ps: seq<Point>)
    requires forall k :: 0 <= k < |ps| ==> ps[k].id == k
    ensures var after := ApplyUpserts(map[], Chunks(ps));
      && (forall n :: n in after <==> 0 <= n < |ps|)
      && (forall k :: 0 <= k < |ps| ==> after[k] == ps[k])
  {
    FreshIsWritten(ps);
    WrittenFromZero(ps);
  }

  /** Sending the batches of `ps` updates the store by what `ps` writes. */
  lemma RunWrites(store: map<nat, Point>, ps: seq<Point>)
    ensures ApplyUpserts(store, Chunks(ps)) == store + Written(ps)
  {
    ChunksFlatten(ps);
    ApplyIsUpsertOfFlatten(store, Chunks(ps));
    UpsertIsUnion(store, ps);
  }

  /** Running the ingestion a second time over the same corpus, with an
      embedding model that may answer differently (`e2` beside `e1`): the
      counter restarts at 0, so both runs number their points 0..n-1 with
      the same n. The second run replaces the first run's points under
      those ids, leaves every other stored id as it was, and adds no id.
      A first run on an empty store leaves point k under id k, for exactly
      the ids 0..n-1. */
  lemma RerunOverwrites(store: map<nat, Point>, docs: seq<Doc>, meta: map<string, MetaRow>,
                        e1: string -> Vector, e2: string -> Vector)
    ensures var p1, p2 := Planned(docs, meta, e1), Planned(docs, meta, e2);
      var s1 := ApplyUpserts(store, Chunks(p1));
      var s2 := ApplyUpserts(s1, Chunks(p2));
      && |p1| == |p2|
      && s2.Keys == s1.Keys
      && (forall k :: 0 <= k < |p1| ==> k in s1 && s1[k] == p1[k] && s2[k] == p2[k])
      && (forall n :: n in s1 && !(0 <= n < |p1|) ==> s2[n] == s1[n])
    ensures var p1 := Planned(docs, meta, e1);
      var after := ApplyUpserts(map[], Chunks(p1));
      && (forall n :: n in after <==> 0 <= n < |p1|)
      && (forall k :: 0 <= k < |p1| ==> after[k] == p1[k])
  {
    var p1, p2 := Planned(docs, meta, e1), Planned(docs, meta, e2);
    PlannedLength(docs, meta, e1);
    PlannedLength(docs, meta, e2);
    PlannedIds(docs, meta, e1);
    PlannedIds(docs, meta, e2);
    var s1 := ApplyUpserts(store, Chunks(p1));
    RunWrites(store, p1);
    RunWrites(s1, p2);
    WrittenFromZero(p1);
    WrittenFromZero(p2);
    FreshStore(p1);
  }
}
