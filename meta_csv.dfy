/**
 * How the ingestion script reads its metadata table (lines 36-39 of
 * app/backend/ingest_embeddings.py): a missing file gives no rows; otherwise
 * `csv.DictReader` takes the first record as the header, skips blank
 * records, and turns each other record into a dictionary from which the
 * script takes `id`, `titulo` and `arquivo`.
 *
 * A file is given as its records, each a sequence of fields: the quoting
 * rules of the `csv` module are not part of this model.
 */
module MetaCsv {
  import opened Wrappers
  import Ingest
  import PyPath

  /** A CSV file, record by record. */
  type Table = seq<seq<string>>

  datatype CsvError =
    /** `row[name]` raised `KeyError`: the header has no such column. */
    | MissingColumn(name: string)
    /** A non-blank record stops before the column the script reads. */
    | ShortRecord(record: seq<string>)

  /** `row[name]` for one record. The column is the last header field equal
      to `name`, since `dict(zip(header, record))` keeps the last of repeated
      keys. */
  function Cell(header: seq<string>, record: seq<string>, name: string): Result<string, CsvError> {
    var c := PyPath.RFind(header, name);
    if c < 0 then Err(MissingColumn(name))
    else if c >= |record| then Err(ShortRecord(record))
    else Ok(record[c])
  }

  /** `{"id": row["id"], "titulo": row["titulo"], "arquivo": row["arquivo"]}`,
      the keys read in that order. */
  function ToRow(header: seq<string>, record: seq<string>): Result<Ingest.MetaRow, CsvError> {
    match Cell(header, record, "id")
    case Err(e) => Err(e)
    case Ok(id) =>
      match Cell(header, record, "titulo")
      case Err(e) => Err(e)
      case Ok(titulo) =>
        match Cell(header, record, "arquivo")
        case Err(e) => Err(e)
        case Ok(arquivo) => Ok(Ingest.MetaRow(id, titulo, arquivo))
  }

  /** The records after the header, blank ones skipped, the first failing
      record ending the read. */
  function ReadRecords(header: seq<string>, records: Table): Result<seq<Ingest.MetaRow>, CsvError> {
    if records == [] then Ok([])
    else if records[0] == [] then ReadRecords(header, records[1..])
    else
      match ToRow(header, records[0])
      case Err(e) => Err(e)
      case Ok(row) =>
        match ReadRecords(header, records[1..])
        case Err(e) => Err(e)
        case Ok(rows) => Ok([row] + rows)
  }

  /** `if os.path.exists(META_CSV): ... csv.DictReader(f)`: `None` stands for
      a missing file, and an empty file has no header and no rows. */
  function ReadMeta(file: Option<Table>): Result<seq<Ingest.MetaRow>, CsvError> {
    if file.None? || file.value == [] then Ok([])
    else ReadRecords(file.value[0], file.value[1..])
  }

  /** The read fails exactly when some non-blank record fails. */
  lemma {:induction false} ReadRecordsFails(header: seq<string>, records: Table)
    ensures ReadRecords(header, records).Err? <==>
      exists k :: 0 <= k < |records| && records[k] != [] && ToRow(header, records[k]).Err?
  {
    if records != [] {
      ReadRecordsFails(header, records[1..]);
      if exists k :: 0 <= k < |records[1..]| && records[1..][k] != [] && ToRow(header, records[1..][k]).Err? {
        var k :| 0 <= k < |records[1..]| && records[1..][k] != [] && ToRow(header, records[1..][k]).Err?;
        assert records[k + 1] == records[1..][k];
      }
      if exists k :: 0 <= k < |records| && records[k] != [] && ToRow(header, records[k]).Err? {
        var k :| 0 <= k < |records| && records[k] != [] && ToRow(header, records[k]).Err?;
        if k > 0 {
          assert records[1..][k - 1] == records[k];
        }
      }
    }
  }

  /** A header with the three columns at `ci`, `ct` and `ca`, over records
      that are all long enough and none blank, reads into one row per record,
      in record order, with each field taken from its column. */
  lemma {:induction false} ReadRecordsFields(header: seq<string>, records: Table, ci: nat, ct: nat, ca: nat)
    requires PyPath.RFind(header, "id") == ci && PyPath.RFind(header, "titulo") == ct && PyPath.RFind(header, "arquivo") == ca
    requires forall k :: 0 <= k < |records| ==> records[k] != [] && ci < |records[k]| && ct < |records[k]| && ca < |records[k]|
    ensures var r := ReadRecords(header, records);
      && r.Ok? && |r.value| == |records|
      && forall k :: 0 <= k < |records| ==>
           r.value[k] == Ingest.MetaRow(records[k][ci], records[k][ct], records[k][ca])
  {
    if records != [] {
      ReadRecordsFields(header, records[1..], ci, ct, ca);
      var rows := ReadRecords(header, records[1..]).value;
      var row := Ingest.MetaRow(records[0][ci], records[0][ct], records[0][ca]);
      assert ToRow(header, records[0]) == Ok(row);
      assert ReadRecords(header, records).value == [row] + rows;
      forall k | 1 <= k < |records|
        ensures ([row] + rows)[k] == Ingest.MetaRow(records[k][ci], records[k][ct], records[k][ca])
      {
        assert records[1..][k - 1] == records[k];
      }
    }
  }

  /** Without the file, `meta` stays empty. */
  lemma MissingFileGivesNoRows()
    ensures ReadMeta(None) == Ok([])
  {
  }

  /** A header without `arquivo` makes the read fail as soon as the file
      holds one non-blank record, wherever it stands. */
  lemma NoArquivoColumnFails(header: seq<string>, records: Table)
    requires "arquivo" !in header
    requires exists k :: 0 <= k < |records| && records[k] != []
    ensures ReadMeta(Some([header] + records)).Err?
  {
    PyPath.RFindAbsent(header, "arquivo");
    var k :| 0 <= k < |records| && records[k] != [];
    assert ToRow(header, records[k]).Err?;
    ReadRecordsFails(header, records);
    assert ([header] + records)[1..] == records;
  }

  /** A header without `arquivo` fails on the first non-blank record, which
      names both other columns and is long enough for them. */
  lemma MissingArquivoFails(header: seq<string>, record: seq<string>)
    requires "arquivo" !in header && record != []
    requires PyPath.RFind(header, "id") >= 0 && PyPath.RFind(header, "id") < |record|
    requires PyPath.RFind(header, "titulo") >= 0 && PyPath.RFind(header, "titulo") < |record|
    ensures ReadMeta(Some([header, record])) == Err(MissingColumn("arquivo"))
  {
    PyPath.RFindAbsent(header, "arquivo");
    assert [header, record][1..] == [record];
    assert [record][1..] == [];
  }
}
