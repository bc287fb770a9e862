# EmbedLiz in Dafny

EmbedLiz is a small semantic-search service over a corpus of articles. It
has three parts:

- a metadata generator (`gerar_metadata.py`) that turns the names of the
  `.txt` files into an `id, titulo, arquivo` table;
- an ingestion script (`app/backend/ingest_embeddings.py`) that reads that
  table, embeds every non-blank document and sends the points to a vector
  index in batches of 128;
- a FastAPI back end (`app/backend/main.py`) whose `/search` and
  `/search_liz` endpoints validate a question, clamp `top_k`, turn
  index hits into items and hand them to "Liz", a chat model that
  formats the answer.

This project models the deterministic logic between the calls to the
embedding model, the chat model and the vector index, and proves what
that logic promises. The calls themselves are parameters of the model.

Modules, one per file:

| module | file | models |
|---|---|---|
| `Wrappers` | wrappers.dfy | `Option`, `Result` |
| `Embedding` | embedding.dfy | the embedding vectors both scripts pass along |
| `PyStr` | pystr.dfy | `str.strip`, `split(c, 1)`, `join`, `replace`, `lower`, `endswith`; `Split` is a specification helper, the inverse of the join at app/backend/main.py:67 |
| `PyPath` | pypath.dfy | `rfind`, POSIX `os.path.basename` and `os.path.splitext` |
| `Seqs` | seqs.dfy | list comprehensions with `if` (`Filter`); `Flatten`, a specification helper that concatenates the upsert log |
| `SearchApi` | search_api.dfy | app/backend/main.py |
| `Ingest` | ingest.dfy | app/backend/ingest_embeddings.py: filename inference, `meta`, the main loop as the class `Ingestor`, the vector store |
| `MetaCsv` | meta_csv.dfy | the `csv.DictReader` read of the metadata table in app/backend/ingest_embeddings.py |
| `MetadataGen` | metadata_gen.dfy | gerar_metadata.py |
| `Consistency` | consistency.dfy | how the generator's table and the ingestion script agree |

Inputs the model cannot compute are parameters:

- the embedding model is `embed: string -> Vector`;
- the index search is `search: (Vector, int) -> seq<Hit>`;
- the chat model is `chat: (string, string) -> string`;
- the sorted list of `.txt` paths and their contents are a `seq<Doc>`;
- the directory listing is a `seq<string>`;
- the metadata file is an `Option` of its records.

The endpoints return the sequence of calls they made beside their result,
so "no call was made" can be stated. Each `qdrant.upsert` call and each
embedding request of the ingestion loop is appended to a ghost log of
`Ingestor`.

Behaviour of the code worth knowing:

- **`top_k` of 0.** `req.top_k or TOP_K_DEFAULT` treats 0 like a missing
  value, so `top_k = 0` searches for 10 hits, not 1 (`SearchApi.SearchLimit`).
- **Re-running ingestion.** `ids_counter` restarts at 0 and the index stores
  points by id, so a second run over the same corpus reuses the ids 0, 1, …
  and overwrites the points stored under them, with whatever vectors its own
  embedding calls return; it adds no id (`Ingest.RerunOverwrites`).
- **No filter on `/search_liz`.** Only `/search` drops items with neither
  id nor title. `/search_liz` keeps them and still calls the chat model for
  a list made only of such items
  (`SearchApi.UninformativeHitOnlyReachesChatOnSearchLiz`).
- **The formatted answer on `/search`.** `/search` builds Liz's answer and
  then discards it; its chat call still happens (`SearchApi.Search`).
- **Case of `.txt`.** The generator accepts `A.TXT` (`lower()`), but the
  ingestion glob `*.txt` is case-sensitive and never reads such a file.
- **Directory depth.** The generator lists one directory, while the
  ingestion glob is recursive.

## Model

| member | source | states |
|---|---|---|
| SearchApi.SearchLimit | app/backend/main.py:102 | the limit is in [1, 25]; `None` and 0 give 10; 1..25 are kept; larger values give 25; negative values give 1 |
| SearchApi.ValidateQuery | app/backend/main.py:91-93 | an error exactly when the question is blank, and then status 400 with "Pergunta vazia."; otherwise the stripped, non-empty question |
| PyStr.Strip | app/backend/main.py:91 | `str.strip()`, the right trim `PyStr.TrimEnd` of the left trim `PyStr.TrimStart`, both removing the characters `PyStr.IsSpace` names (Python's `str.isspace` set); specified by `PyStr.StripSpec`, `PyStr.TrimStartSpec` and `PyStr.TrimEndSpec` |
| PyStr.StripSpec | app/backend/main.py:91 | `strip()` returns a middle slice with only white space around it; it is empty exactly for a blank string and otherwise starts and ends with a non-space |
| PyStr.StripIdempotent | app/backend/main.py:91 | stripping twice is stripping once |
| PyStr.TrimStartSpec | app/backend/ingest_embeddings.py:57 | the left trim is a suffix whose dropped prefix is blank and which does not start with white space |
| PyStr.TrimEndSpec | app/backend/ingest_embeddings.py:57 | the right trim is a prefix whose dropped suffix is blank and which does not end with white space |
| SearchApi.ToItem | app/backend/main.py:109-115 | id and titulo are the payload's values, or "" when the payload or the key is missing; the score is the hit's, or 0.0 |
| SearchApi.Items | app/backend/main.py:107-116 | one item per hit |
| SearchApi.MapHits | app/backend/main.py:107-116 | the loop yields one item per hit, item i being the item of hit i |
| SearchApi.Field | app/backend/main.py:109-115 | `(h.payload or {}).get(key, "")`; specified by `SearchApi.ToItem` |
| SearchApi.FormatarResposta | app/backend/main.py:54-81 | no chat call exactly when the list is empty, and then the fixed "Não encontrei…" message; otherwise exactly one call, with the system prompt and the listing in the user message, and the stripped reply |
| SearchApi.Lines | app/backend/main.py:67 | one listing line per item |
| SearchApi.ListingLines | app/backend/main.py:67 | when no id or title has a line break, splitting the listing at `\n` gives back the lines `- id — titulo`, one per item, in item order |
| SearchApi.Line | app/backend/main.py:67 | one `- id — titulo` line; specified by `SearchApi.Lines` and `SearchApi.ListingLines` |
| SearchApi.Listing | app/backend/main.py:67 | the lines joined with `\n`; specified by `SearchApi.ListingLines` |
| SearchApi.UserPrompt | app/backend/main.py:69-73 | the user message around the question and the listing; its use is stated by `SearchApi.FormatarResposta` |
| SearchApi.Search | app/backend/main.py:89-128 | a blank question gives the 400 error and no call at all; otherwise one embedding call, one search with the clamped limit, then exactly the informative items in hit order, their count, and the stripped question |
| SearchApi.SearchLiz | app/backend/main.py:130-157 | the same validation; every hit becomes an item, unfiltered, and the response carries Liz's answer for all of them |
| SearchApi.UninformativeHitOnlyReachesChatOnSearchLiz | app/backend/main.py:119 | a hit without payload is dropped by `/search`, which then makes no chat call, but kept by `/search_liz`, which makes one |
| SearchApi.Informative | app/backend/main.py:119 | `r.id or r.titulo`: an item is kept when its id or its title is non-empty; its use is stated by `SearchApi.Search` |
| Seqs.Filter | app/backend/main.py:119 | a filter keeps only elements of the input that pass, and is no longer than it |
| Seqs.FilterAppend | app/backend/main.py:119 | the filter keeps the relative order: filtering a concatenation concatenates the filtered parts |
| Seqs.FilterCount | app/backend/main.py:119 | every occurrence of a passing value is kept, and none of the others |
| Seqs.FilterKeepsAll | app/backend/main.py:119 | a list whose every element passes is unchanged |
| Seqs.FilterIdempotent | app/backend/main.py:119 | filtering twice is filtering once |
| PyStr.SplitOnce | app/backend/ingest_embeddings.py:49-50 | `None` exactly when the separator is absent; otherwise the text before its first occurrence, the separator and the rest make up the string |
| PyStr.SplitOnceAt | app/backend/ingest_embeddings.py:49-50 | the split happens at the first occurrence |
| PyStr.ReplaceChar | app/backend/ingest_embeddings.py:51 | same length; each `from` becomes `to`, every other character stays |
| PyStr.ReplaceCharAbsent | app/backend/ingest_embeddings.py:52 | a string without `from` is unchanged |
| PyStr.ReplaceCharAppend | app/backend/ingest_embeddings.py:51 | replacing works piece by piece |
| PyStr.ReplaceCharOnce | app/backend/ingest_embeddings.py:51 | the one `-` between two dash-free pieces becomes a space |
| PyStr.Split | app/backend/main.py:67 | inverse of the join at main.py:67: at least one piece, none holding the separator |
| PyStr.SplitJoin | app/backend/main.py:67 | splitting a joined list of separator-free pieces gives the list back |
| PyStr.JoinSplit | app/backend/main.py:67 | joining the pieces of a split gives the string back |
| PyStr.Join | app/backend/main.py:67 | `sep.join(parts)`; specified by `PyStr.SplitJoin` and `PyStr.JoinSplit` |
| PyStr.Lower | gerar_metadata.py:13 | lower-casing keeps the length |
| PyStr.EndsWith | gerar_metadata.py:13 | `s.endswith(suffix)`; its use is stated by `MetadataGen.IsTxtNameChars` |
| PyPath.RFind | app/backend/ingest_embeddings.py:55 | the result is -1 or an index of the sequence |
| PyPath.RFindSpec | app/backend/ingest_embeddings.py:55 | -1 exactly when the element is absent; otherwise an index holding it with none after it (also the column a CSV header gives a key, the last of repeated names) |
| PyPath.RFindIsLast | app/backend/ingest_embeddings.py:55 | no occurrence lies after the reported one |
| PyPath.RFindAt | app/backend/ingest_embeddings.py:55 | the last occurrence is the one reported |
| PyPath.Basename | app/backend/ingest_embeddings.py:55 | `os.path.basename`; specified by `PyPath.BasenameSpec` |
| PyPath.BasenameSpec | app/backend/ingest_embeddings.py:55 | `basename` is the longest `/`-free suffix: preceded by `/` when shorter than the path, the whole path when it holds no `/` |
| PyPath.SplitExt | app/backend/ingest_embeddings.py:48 | root and extension make up the path; an extension starts with `.` and holds no other `.` and no `/` |
| PyPath.ExtensionShape | app/backend/ingest_embeddings.py:48 | the text from the last dot on, after the last slash, is a well-formed extension |
| PyPath.SplitExtFindsExt | app/backend/ingest_embeddings.py:48 | an extension is found exactly when the base name has a dot after a character that is not a dot, so `.bashrc` has none |
| PyPath.SplitExtPlain | gerar_metadata.py:15 | a plain name followed by an extension splits into the two |
| PyPath.SplitExtExamples | app/backend/ingest_embeddings.py:48 | `123_Some-Title.txt` splits as `123_Some-Title` and `.txt`; `.bashrc` has no extension |
| Ingest.InferFromFilenameSpec | app/backend/ingest_embeddings.py:47-52 | with `_` in the stem, the id is the text before the first `_` and the title the rest with dashes read as spaces; without `_`, the id is "" and the title the whole stem with dashes read as spaces; the id never holds `_` |
| Ingest.InferFromFilename | app/backend/ingest_embeddings.py:47-52 | `infer_from_filename`; specified by `Ingest.InferFromFilenameSpec` |
| Ingest.Stem | app/backend/ingest_embeddings.py:48 | `os.path.splitext(os.path.basename(filename))[0]`; specified by `Ingest.StemPlain` |
| Ingest.StemPlain | app/backend/ingest_embeddings.py:48 | the stem of a plain name with an extension is the name without it |
| Ingest.InferWithId | app/backend/ingest_embeddings.py:49-51 | a stem `id_rest` with `_`-free `id` gives `id` and `rest` with dashes read as spaces |
| Ingest.InferWithoutId | app/backend/ingest_embeddings.py:52 | a stem without `_` gives an empty id |
| Ingest.InferExampleWithId | app/backend/ingest_embeddings.py:47-51 | `123_Some-Title.txt` gives id `123` and title `Some Title` |
| Ingest.InferExampleWithoutId | app/backend/ingest_embeddings.py:52 | `NoUnderscore.txt` gives id "" and title `NoUnderscore` |
| Ingest.LoadMeta | app/backend/ingest_embeddings.py:35-39 | the loop builds the `meta` of the rows, row by row |
| Ingest.MetaOf | app/backend/ingest_embeddings.py:38-39 | `meta` after the loop over the rows; specified by `Ingest.MetaKeys`, `Ingest.MetaLastWins` and `Ingest.MetaEntries` |
| Ingest.MetaKeys | app/backend/ingest_embeddings.py:38-39 | the keys of `meta` are exactly the `arquivo` fields of the rows |
| Ingest.MetaLastWins | app/backend/ingest_embeddings.py:39 | when a file is named more than once, the last row naming it is stored |
| Ingest.MetaEntries | app/backend/ingest_embeddings.py:39 | every entry is a row of the table, stored under its own `arquivo` |
| Ingest.LastRowNaming | app/backend/ingest_embeddings.py:39 | a file named in the table has a last row naming it |
| Ingest.ResolveAgainstTable | app/backend/ingest_embeddings.py:63-67 | a file named in the table takes the id and title of the last row naming it, verbatim; any other file takes the inferred identity |
| Ingest.Resolve | app/backend/ingest_embeddings.py:63-67 | the identity of a file, from `meta` or by inference; specified by `Ingest.ResolveAgainstTable` |
| Ingest.NonBlank | app/backend/ingest_embeddings.py:57-60 | the documents that are not blank after `strip()` (the test `Ingest.HasText`, `if not texto`); specified by `Ingest.NonBlankSnoc` and `Ingest.PlannedSources` |
| Ingest.MakePoint | app/backend/ingest_embeddings.py:70-78 | the point of one document; specified by `Ingest.MakePointFields` |
| Ingest.Planned | app/backend/ingest_embeddings.py:54-79 | the points a run constructs; specified by `Ingest.PlannedLength`, `Ingest.PlannedPoints` and `Ingest.PlannedIds` |
| Ingest.EmbeddedTexts | app/backend/ingest_embeddings.py:57-70 | the texts a run embeds; specified by `Ingest.EmbeddedTextsAre` |
| Ingest.PlannedLength | app/backend/ingest_embeddings.py:59-60 | a run builds one point per non-blank document |
| Ingest.PlannedPoints | app/backend/ingest_embeddings.py:54-79 | point k is the point of the k-th non-blank document, numbered k |
| Ingest.PointsSnoc | app/backend/ingest_embeddings.py:74-79 | appending the next document's point keeps point k that of document k |
| Ingest.PlannedIds | app/backend/ingest_embeddings.py:45 | the ids of a run are 0, 1, 2, … in order |
| Ingest.MakePointFields | app/backend/ingest_embeddings.py:73-78 | a point's id is the counter, its vector the embedding of the stripped text, its `arquivo` the base name of the path, its id and title the resolved identity |
| Ingest.EmbeddedTextsAre | app/backend/ingest_embeddings.py:57-70 | the embedding requests are the stripped texts of the non-blank documents, in order; blank ones cause none |
| Ingest.PlannedSources | app/backend/ingest_embeddings.py:59-60 | every point's document is an input document that is not blank |
| Ingest.NonBlankSnoc | app/backend/ingest_embeddings.py:59-60 | one more document adds itself to the non-blank ones, or nothing |
| Ingest.PlannedSnoc | app/backend/ingest_embeddings.py:74-79 | one more document adds one point numbered by the count so far, or none |
| Ingest.EmbeddedSnoc | app/backend/ingest_embeddings.py:70 | one more document adds its stripped text to the requests, or nothing |
| Ingest.AllFullSnoc | app/backend/ingest_embeddings.py:82-84 | sending a full buffer keeps every sent batch full |
| Ingest.BufferFlush | app/backend/ingest_embeddings.py:83-84 | sending the buffer moves its points from the buffer to the log |
| Ingest.Chunks | app/backend/ingest_embeddings.py:82-88 | the batches of 128 the loop sends; specified by `Ingest.ChunksFlatten` and `Ingest.ChunksSizes` |
| Ingest.ChunksFlatten | app/backend/ingest_embeddings.py:82-88 | the batches, concatenated, are the points, each exactly once, in order |
| Ingest.ChunksSizes | app/backend/ingest_embeddings.py:82-88 | ceil(n / 128) batches; all but the last hold 128 points; the last holds 1 to 128; none is empty |
| Ingest.ChunksOfFullBatches | app/backend/ingest_embeddings.py:82-88 | full batches sent, plus a remainder under 128, are the batching of their concatenation, the remainder last unless it is empty |
| Ingest.ThreeHundredPoints | app/backend/ingest_embeddings.py:82-88 | 300 points go out as batches of 128, 128 and 44 |
| Ingest.TracksText | app/backend/ingest_embeddings.py:57-79 | a non-blank document adds its point, one to the counter and its text to the requests |
| Ingest.TracksBlank | app/backend/ingest_embeddings.py:59-60 | a blank document changes neither points, nor counter, nor requests |
| Ingest.Ingestor.constructor | app/backend/ingest_embeddings.py:44-45 | the buffer and the logs start empty and the counter at 0 |
| Ingest.Ingestor.Process | app/backend/ingest_embeddings.py:54-84 | a blank document changes nothing; otherwise the point numbered by the counter is built, the counter advances, the text is embedded, and the buffer is sent exactly when it reaches 128 |
| Ingest.Ingestor.Append | app/backend/ingest_embeddings.py:74-84 | append to the buffer, advance the counter, send the buffer once it holds 128 points and empty it |
| Ingest.Ingestor.Finish | app/backend/ingest_embeddings.py:87-88 | a non-empty buffer is sent once more and no empty batch is sent; afterwards the batches sent are exactly the batching of all points built |
| Ingest.RunIngestion | app/backend/ingest_embeddings.py:35-88 | after the run the buffer is empty, the counter is the number of non-blank documents, the points are those the documents yield, and the batches sent are their batching into 128s |
| Ingest.Upsert | app/backend/ingest_embeddings.py:83 | one `qdrant.upsert` on the store; specified by `Ingest.UpsertIsUnion` |
| Ingest.ApplyUpserts | app/backend/ingest_embeddings.py:83-88 | the store after a sequence of upserts; specified by `Ingest.ApplyIsUpsertOfFlatten` |
| Ingest.Written | app/backend/ingest_embeddings.py:83 | what a list of points writes; specified by `Ingest.WrittenAppend` and `Ingest.WrittenNumbered` |
| Ingest.UpsertIsUnion | app/backend/ingest_embeddings.py:83 | an upsert stores each point under its id, replacing what was there |
| Ingest.ApplyIsUpsertOfFlatten | app/backend/ingest_embeddings.py:83-88 | upserting batches one after the other is upserting their concatenation |
| Ingest.WrittenAppend | app/backend/ingest_embeddings.py:83 | what a concatenation writes is what its first part writes, updated by its second part |
| Ingest.WrittenNumbered | app/backend/ingest_embeddings.py:76 | consecutively numbered points are stored under exactly their ids |
| Ingest.ResendIsIdempotent | app/backend/ingest_embeddings.py:83-88 | sending the same batches twice leaves the store as sending them once |
| Ingest.FreshIsWritten | app/backend/ingest_embeddings.py:83-88 | on an empty store the batches leave exactly what their points write |
| Ingest.WrittenFromZero | app/backend/ingest_embeddings.py:45 | points numbered from 0 leave point k under id k, for exactly the ids 0 to n - 1 |
| Ingest.FreshStore | app/backend/ingest_embeddings.py:45-88 | the batches of points numbered from 0, sent to an empty store, leave point k under id k for exactly the ids 0 to n - 1 |
| Ingest.RerunOverwrites | app/backend/ingest_embeddings.py:45-88 | a second run over the same corpus, whatever vectors its embedding calls return, writes the same ids 0..n-1 and replaces the first run's points under them; every other stored id keeps its point and the set of stored ids does not change; after one run on an empty store, point k is under id k for exactly the ids 0..n-1 |
| MetaCsv.Cell | app/backend/ingest_embeddings.py:39 | `row[name]`; a missing column is `KeyError`; its use is stated by `MetaCsv.MissingArquivoFails` and `MetaCsv.ReadRecordsFields` |
| MetaCsv.ToRow | app/backend/ingest_embeddings.py:39 | the three look-ups `id`, `titulo`, `arquivo`, in that order; its use is stated by `MetaCsv.MissingArquivoFails` |
| MetaCsv.ReadRecords | app/backend/ingest_embeddings.py:38-39 | the records after the header, blank ones skipped; specified by `MetaCsv.ReadRecordsFails` and `MetaCsv.ReadRecordsFields` |
| MetaCsv.ReadMeta | app/backend/ingest_embeddings.py:36-39 | the rows read from the file, none when it is missing; specified by `MetaCsv.MissingFileGivesNoRows`, `MetaCsv.NoArquivoColumnFails` and `MetaCsv.MissingArquivoFails` |
| MetaCsv.MissingFileGivesNoRows | app/backend/ingest_embeddings.py:36 | without the file, there are no rows |
| MetaCsv.ReadRecordsFails | app/backend/ingest_embeddings.py:38-39 | reading fails exactly when some non-blank record fails |
| MetaCsv.ReadRecordsFields | app/backend/ingest_embeddings.py:38-39 | records long enough for the three columns read into one row per record, in order, each field taken from its column |
| MetaCsv.NoArquivoColumnFails | app/backend/ingest_embeddings.py:38-39 | a header without `arquivo` makes the read fail whenever the file holds a non-blank record, wherever it stands |
| MetaCsv.MissingArquivoFails | app/backend/ingest_embeddings.py:38-39 | a header without `arquivo` and one record holding `id` and `titulo` gives `KeyError('arquivo')` |
| MetadataGen.IsTxtName | gerar_metadata.py:13 | `nome_arquivo.lower().endswith(".txt")`; specified by `MetadataGen.IsTxtNameChars` |
| MetadataGen.IsTxtNameChars | gerar_metadata.py:13 | a name passes exactly when it has at least four characters and ends in a dot followed by `t`, `x`, `t`, each in either case |
| MetadataGen.ParseName | gerar_metadata.py:15-26 | the id and title of a listed name; specified by `Consistency.ParseAgrees` |
| MetadataGen.Rows | gerar_metadata.py:12-29 | the rows the loop collects; specified by `MetadataGen.RowsAreTxtNames` and `MetadataGen.RowsNameTxtFiles` |
| MetadataGen.IsTxtNameExamples | gerar_metadata.py:13 | the suffix test ignores case: `A.TXT` and `a.txt` pass, `a.md` does not |
| MetadataGen.RowFor | gerar_metadata.py:29 | a row has three fields, the full file name, extension included, in the third |
| MetadataGen.CollectRows | gerar_metadata.py:12-29 | the loop collects the rows of the listing, name by name |
| MetadataGen.Generate | gerar_metadata.py:31-37 | the table is the header followed by the rows; the printed count is the number of rows |
| MetadataGen.RowsAreTxtNames | gerar_metadata.py:12-29 | one row per name whose lower-cased form ends in `.txt`, in listing order |
| MetadataGen.RowsSnoc | gerar_metadata.py:29 | appending the next name's row keeps row k that of name k |
| MetadataGen.RowsNameTxtFiles | gerar_metadata.py:13 | every row names, in its third field, a `.txt` file of the listing |
| MetadataGen.NoTxtNoRows | gerar_metadata.py:13 | a listing without `.txt` names yields no rows |
| Consistency.ParseAgrees | gerar_metadata.py:15-26 | for a name without `/`, the generator's id and title are those `infer_from_filename` gives |
| Consistency.ReadGenerated | gerar_metadata.py:34-35 | the generated table reads back without error into one row per `.txt` name, in listing order, with the generator's parse and the name |
| Consistency.GeneratedMetaResolves | app/backend/ingest_embeddings.py:63-67 | with the generated table, every base name resolves to the identity inference gives it |
| Consistency.GeneratedMetaChangesNothing | app/backend/ingest_embeddings.py:54-79 | an ingestion run with the generated table builds the same points as a run without any table |

## Left out

- The OpenAI embedding and chat-completion calls are uninterpreted functions. Model names, temperature and the generated prose are not modelled.
- Qdrant is left out: collection creation and re-creation, the bare `except` around `get_collection`, and search internals. Search is a function from vector and limit to hits. Upsert is a write into a map from id to point, plus a ghost log of batches.
- `.env` loading, the credential check and the `/health` endpoint are configuration and framework code.
- FastAPI routing and pydantic validation are framework code. Requests arrive as values; a 400 error is a `Result` error.
- `str(...)` and `float(...)` coercions: payload values are strings and the score is a `real` that is only copied.
- Vector dimensions (3072) and the cosine distance are not modelled; vectors are opaque sequences.
- File reading, `glob` and `os.listdir` are I/O; the sorted path list, the file contents and the listing are inputs. The sort by `sorted` and the recursive glob are taken as given.
- `csv` quoting and parsing: files are given as their records, fields already unquoted, and writer then reader are taken to give back the same fields.
- `PyStr.Lower`: lower-cases ASCII and the Latin-1 capitals only, not the whole of Unicode; its contract states only the length. The `.txt` test does not depend on this: `MetadataGen.IsTxtNameChars` shows it looks only at the last four characters, and no other character lower-cases to `.`, `t` or `x`.
- `MetaCsv.Cell`: a non-blank record shorter than the header gives `None` values in the source, with no error; the model reports it as `ShortRecord`, because its row fields are strings.
- `MetaCsv.ReadRecords`: a record longer than the header puts its extra fields under the key `None` in the source; the model ignores them, as the script never reads that key.
- Exceptions not named above: I/O errors, network errors and a failed embedding call are not modelled.
- The `print` statements and the formatting of their messages.
- `Ingest.Ingestor.Append` is a split of the loop body's lines 74-84, made so that each method's proof stays small; the source has a single loop body.

Models of Python's `str` and `os.path` functions cover only the arguments the code passes: one-character separators for `split` and `replace`, `strip()` without an argument, and POSIX paths.
