/**
 * The metadata generator (gerar_metadata.py): for every name in the
 * directory listing whose lower-cased form ends in `.txt`, it splits the
 * name without its extension into an id (before the first `_`) and a title
 * (the rest, dashes read as spaces), collects `[id, titulo, nome_arquivo]`
 * rows in listing order, and writes them after the header
 * `["id", "titulo", "arquivo"]`, reporting how many rows it wrote.
 *
 * The listing is an input (`os.listdir` is not modelled); the written file
 * is the table of records, before `csv.writer` quotes it.
 */
module MetadataGen {
  import opened PyStr
  import opened Seqs
  import PyPath

  /** The header row the generator writes first. */
  const Header: seq<string> := ["id", "titulo", "arquivo"]

  /** `nome_arquivo.lower().endswith(".txt")`. */
  predicate IsTxtName(nome: string) {
    EndsWith(Lower(nome), ".txt")
  }

  /** The test ignores case: `A.TXT` qualifies as `a.txt` does, and `a.md` does not. */
  lemma IsTxtNameExamples()
    ensures IsTxtName("A.TXT") && IsTxtName("a.txt") && !IsTxtName("a.md")
  {
    var up, low, md := "A.TXT", "a.txt", "a.md";
    assert Lower(up)[1..] == ".txt";
    assert Lower(low)[1..] == ".txt";
    assert Lower(md)[0] == 'a' && Lower(md)[0..][0] == 'a';
  }

  /** The test looks at the last four characters only: a dot, then `t`,
      `x` and `t` in either case. No other character lower-cases to any of
      these four. */
  lemma IsTxtNameChars(nome: string)
    ensures IsTxtName(nome) <==>
      && |nome| >= 4 && nome[|nome| - 4] == '.'
      && nome[|nome| - 3] in "tT" && nome[|nome| - 2] in "xX" && nome[|nome| - 1] in "tT"
  {
    var n := |nome|;
    if n >= 4 {
      var tail := Lower(nome)[n - 4..];
      assert tail == [LowerChar(nome[n - 4]), LowerChar(nome[n - 3]), LowerChar(nome[n - 2]), LowerChar(nome[n - 1])];
      assert tail == ".txt" <==> tail[0] == '.' && tail[1] == 't' && tail[2] == 'x' && tail[3] == 't';
    }
  }

  /** Lines 15-26: the id and title of a listed name. */
  function ParseName(nome: string): (string, string) {
    var semExtensao := PyPath.SplitExt(nome).0;
    match SplitOnce(semExtensao, '_')
    case Some(partes) => (partes.0, ReplaceChar(partes.1, '-', ' '))
    case None => ("", ReplaceChar(semExtensao, '-', ' '))
  }

  /** The row written for a listed name: its id, its title and the name itself. */
  function RowFor(nome: string): (row: seq<string>)
    ensures |row| == 3 && row[2] == nome
  {
    var parsed := ParseName(nome);
    [parsed.0, parsed.1, nome]
  }

  /** The rows the loop collects from a listing, name by name. */
  function Rows(listing: seq<string>): seq<seq<string>>
    decreases |listing|
  {
    if listing == [] then []
    else
      var init := Rows(listing[..|listing| - 1]);
      var nome := listing[|listing| - 1];
      if IsTxtName(nome) then init + [RowFor(nome)] else init
  }

  /** Lines 12-29: the loop over the listing that appends the rows. */
  method CollectRows(listing: seq<string>) returns (linhas: seq<seq<string>>)
    ensures linhas == Rows(listing)
  {
    linhas := [];
    for i := 0 to |listing|
      invariant linhas == Rows(listing[..i])
    {
      PrefixSnoc(listing, i);
      assert listing[..i + 1][..i] == listing[..i];
      if IsTxtName(listing[i]) {
        linhas := linhas + [RowFor(listing[i])];
      }
    }
    assert listing[..|listing|] == listing;
  }

  /** The whole script: the written table, the header first, and the row
      count it prints. */
  method Generate(listing: seq<string>) returns (table: seq<seq<string>>, count: nat)
    ensures table == [Header] + Rows(listing)
    ensures count == |Rows(listing)| == |table| - 1
  {
    var linhas := CollectRows(listing);
    table := [Header] + linhas;
    count := |linhas|;
  }

  /** One row per `.txt` name, in listing order: row k is the row of the
      k-th such name. */
  lemma {:induction false} RowsAreTxtNames(listing: seq<string>)
    ensures |Rows(listing)| == |Filter(listing, IsTxtName)|
    ensures forall k :: 0 <= k < |Rows(listing)| ==> Rows(listing)[k] == RowFor(Filter(listing, IsTxtName)[k])
    decreases |listing|
  {
    if listing != [] {
      var init, nome := listing[..|listing| - 1], listing[|listing| - 1];
      DropLastSnoc(listing);
      RowsAreTxtNames(init);
      FilterAppend(init, [nome], IsTxtName);
      assert Filter([nome], IsTxtName) == (if IsTxtName(nome) then [nome] else []) + Filter([nome][1..], IsTxtName);
      if IsTxtName(nome) {
        RowsSnoc(Rows(init), Filter(init, IsTxtName), nome);
      }
    }
  }

  /** Appending the row of one more name keeps row k the row of name k. */
  lemma RowsSnoc(rows: seq<seq<string>>, names: seq<string>, nome: string)
    requires |rows| == |names|
    requires forall k :: 0 <= k < |rows| ==> rows[k] == RowFor(names[k])
    ensures forall k :: 0 <= k < |rows| + 1 ==> (rows + [RowFor(nome)])[k] == RowFor((names + [nome])[k])
  {
    forall k | 0 <= k < |rows| + 1 ensures (rows + [RowFor(nome)])[k] == RowFor((names + [nome])[k]) {
      if k < |rows| {
        assert (rows + [RowFor(nome)])[k] == rows[k] && (names + [nome])[k] == names[k];
      }
    }
  }

  /** Every row has three fields and names a `.txt` file of the listing in
      its third. */
  lemma RowsNameTxtFiles(listing: seq<string>)
    ensures forall k :: 0 <= k < |Rows(listing)| ==>
      |Rows(listing)[k]| == 3 && Rows(listing)[k][2] in listing && IsTxtName(Rows(listing)[k][2])
  {
    RowsAreTxtNames(listing);
    forall k | 0 <= k < |Rows(listing)|
      ensures |Rows(listing)[k]| == 3 && Rows(listing)[k][2] in listing && IsTxtName(Rows(listing)[k][2])
    {
      var nome := Filter(listing, IsTxtName)[k];
      assert nome in Filter(listing, IsTxtName);
    }
  }

  /** A listing without `.txt` names yields a table with the header alone. */
  lemma {:induction false} NoTxtNoRows(listing: seq<string>)
    requires forall k :: 0 <= k < |listing| ==> !IsTxtName(listing[k])
    ensures Rows(listing) == []
    decreases |listing|
  {
    if listing != [] {
      NoTxtNoRows(listing[..|listing| - 1]);
    }
  }
}
