/**
 * How the metadata generator (gerar_metadata.py) and the ingestion script
 * (app/backend/ingest_embeddings.py) fit together: the generator's parse of
 * a file name is the ingestion script's `infer_from_filename`, so the table
 * it writes, read back by the ingestion script, resolves every file name to
 * the identity inference would have given, and an ingestion run with that
 * table builds the same points as a run without one.
 */
module Consistency {
  import opened Wrappers
  import opened Seqs
  import PyPath
  import Embedding
  import Ingest
  import MetaCsv
  import MetadataGen

  /** For a name without `/` (every name `os.listdir` returns), the
      generator's id and title are those `infer_from_filename` gives. */
  lemma ParseAgrees(nome: string)
    requires '/' !in nome
    ensures MetadataGen.ParseName(nome) == (Ingest.InferFromFilename(nome).id, Ingest.InferFromFilename(nome).titulo)
  {
    PyPath.BasenameSpec(nome);
  }

  /** The rows the generator's table reads back into: one per `.txt` name of
      the listing, in listing order, holding the generator's parse of the
      name and the name itself. */
  lemma ReadGenerated(listing: seq<string>)
    ensures var r := MetaCsv.ReadMeta(Some([MetadataGen.Header] + MetadataGen.Rows(listing)));
      var names := Filter(listing, MetadataGen.IsTxtName);
      && r.Ok? && |r.value| == |names|
      && forall k :: 0 <= k < |names| ==>
           r.value[k] == Ingest.MetaRow(MetadataGen.ParseName(names[k]).0, MetadataGen.ParseName(names[k]).1, names[k])
  {
    var h := MetadataGen.Header;
    var rows := MetadataGen.Rows(listing);
    assert h[..2][..1] == ["id"];
    assert PyPath.RFind(h, "arquivo") == 2;
    assert PyPath.RFind(h, "titulo") == 1 by { assert h[..2] == ["id", "titulo"]; }
    assert PyPath.RFind(h, "id") == 0 by { assert h[..2] == ["id", "titulo"] && h[..2][..1] == ["id"]; }
    MetadataGen.RowsNameTxtFiles(listing);
    MetadataGen.RowsAreTxtNames(listing);
    assert ([h] + rows)[1..] == rows;
    MetaCsv.ReadRecordsFields(h, rows, 0, 1, 2);
  }

  /** Read back by the ingestion script, the generated table resolves every
      name without `/` to the identity `infer_from_filename` gives for it,
      whether or not the table lists the name. */
  lemma GeneratedMetaResolves(listing: seq<string>, nome: string)
    requires '/' !in nome
    ensures var r := MetaCsv.ReadMeta(Some([MetadataGen.Header] + MetadataGen.Rows(listing)));
      r.Ok? && Ingest.Resolve(nome, Ingest.MetaOf(r.value)) == Ingest.InferFromFilename(nome)
  {
    ReadGenerated(listing);
    var rows := MetaCsv.ReadMeta(Some([MetadataGen.Header] + MetadataGen.Rows(listing))).value;
    var names := Filter(listing, MetadataGen.IsTxtName);
    Ingest.ResolveAgainstTable(rows, nome);
    if exists i :: 0 <= i < |rows| && rows[i].arquivo == nome {
      var i :| 0 <= i < |rows| && rows[i].arquivo == nome
        && Ingest.Resolve(nome, Ingest.MetaOf(rows)) == Ingest.Identity(rows[i].id, rows[i].titulo);
      assert names[i] == nome;
      ParseAgrees(nome);
    }
  }

  /** An ingestion run with the generated table builds exactly the points a
      run without any table builds. */
  lemma GeneratedMetaChangesNothing(listing: seq<string>, docs: seq<Ingest.Doc>, embed: string -> Embedding.Vector)
    ensures var r := MetaCsv.ReadMeta(Some([MetadataGen.Header] + MetadataGen.Rows(listing)));
      r.Ok? && Ingest.Planned(docs, Ingest.MetaOf(r.value), embed) == Ingest.Planned(docs, map[], embed)
  {
    ReadGenerated(listing);
    var meta := Ingest.MetaOf(MetaCsv.ReadMeta(Some([MetadataGen.Header] + MetadataGen.Rows(listing))).value);
    var nb := Ingest.NonBlank(docs);
    Ingest.PlannedPoints(docs, meta, embed);
    Ingest.PlannedPoints(docs, map[], embed);
    var withTable, without := Ingest.Planned(docs, meta, embed), Ingest.Planned(docs, map[], embed);
    forall k | 0 <= k < |nb| ensures withTable[k] == without[k] {
      var nome := PyPath.Basename(nb[k].path);
      PyPath.BasenameSpec(nb[k].path);
      GeneratedMetaResolves(listing, nome);
      assert Ingest.Resolve(nome, meta) == Ingest.Resolve(nome, map[]);
    }
  }
}
