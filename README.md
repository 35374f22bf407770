# ReportIQ core in Dafny

ReportIQ is a Streamlit application that turns a zipped Power BI project
(its `.Report` and `.SemanticModel` folders) into documentation generated
by a chat-completion model. This project models the parts of it that
carry logic, and proves what they promise:

- **Schema extraction** (`tmdl_to_er.py`, class `ERDiagramFromTMDL`),
  modules `TmdlToEr` and `TmdlProperties`. The table pass reads a table
  name (bare word or `'quoted span'`, quotes kept) and its `column` lines
  from every TMDL block into the insertion-ordered dictionary
  `table_columns`. The relationship pass walks the lines of the first
  block, pairs each `fromColumn:` with the next `toColumn:`, skips pairs
  that reference `LocalDate` and appends `(table, column, table, column)`
  to `foreign_keys`. `generate_table_node` builds the HTML-like label of a
  table, and `generate_er_diagram` produces one node per table and one
  `table:column` edge per foreign key. The class keeps its two fields and
  its methods update them in place. The lemmas prove:
  - the round trips from TMDL text to tables and edges;
  - last-write-wins and idempotence of the table pass;
  - the `LocalDate` exclusion;
  - that a node label determines its table.
- **Streaming decoder** (`CompletionModel.generate_documentation`, the
  same loop in the three application variants), modules `StreamDecoder`
  and `StreamProperties`. The response is a sequence of byte chunks and
  each chunk is split into lines. A line starting with `data: ` carries
  one JSON frame whose `choices[0].delta.content` is yielded, and
  `[DONE]` ends the line loop of its chunk. An exception drops the rest
  of its chunk only, with one warning. The caller joins the fragments. The
  frame syntax is the `data:` field of Server-Sent Events (section 9.2 of
  the WHATWG HTML Living Standard), read within one chunk: nothing is
  carried between chunks, and the model proves that chunk boundaries can
  change the result.
- **Application selectors**, modules `Upload`, `ReportIqApp` (`app.py`),
  `AppSupported` (`app_supported.py`) and `AppWithStreaming`
  (`app_with_streaming.py`). They cover:
  - the archive entry loop and each variant's entry filter;
  - the processors;
  - the two factories keyed on `"Power BI"`;
  - the system prompt with its optional user-context paragraph;
  - the download file stem;
  - the upload instructions.
- **Payment-intent ledger** (`something.py`), module `Ledger`. The class
  `PaymentIntent` updates its merchant list and payment-intent list in
  place through its seven operations. `main` collects command lines and
  dispatches each on its first word. Balances are specified by the
  amounts the matching intents owe each merchant.

Python's string operations are written out in module `Text` over
`seq<char>`: `strip` (with Python's full whitespace set), `split(sep)`,
`split()`, `find`, `startswith`, `endswith` and `in`. A Python exception
becomes an `Option`/`Result` value or a `false` flag, and a result
records what had already happened before the exception. Some calls into
library code are parameters of the operations that use them:

- `json.loads` is `parse: string -> Option<Json>`;
- `int(...)` is `parseInt: string -> Option<int>`;
- Python's rendering of the list of blocks inside the prompt f-string is
  `render: seq<string> -> string`.

The bytes of a chunk or archive member are given already decoded, as
`Decoded(text)`, or as `Undecodable` where `decode('utf-8')` raises.

## Model

| member | source | states |
|---|---|---|
| Text.FirstToken | reportiq_codebase/reportiq_dev/ACOE.ACOE_SANDBOX/my_galaxy_streamlitapps/reportIQ/tmdl_to_er.py:24 | `word.split()[0]` is a non-empty whitespace-free token, and is missing (IndexError) exactly when the word is all whitespace |
| Text.Words | reportiq_codebase/something.py:54 | `command.split()` gives non-empty whitespace-free words, and no word exactly when the command is all whitespace |
| Text.WordsSkipSpace | reportiq_codebase/something.py:54 | leading whitespace adds no word to `split()` |
| Text.WordsCons | reportiq_codebase/something.py:54 | whitespace, a word, and a rest that is empty or starts with whitespace split into that word followed by the words of the rest |
| Text.WordsOfJoin | reportiq_codebase/something.py:54 | `split()` gives back the non-empty whitespace-free words that `" ".join` put together |
| Text.BeforeFirst | reportiq_codebase/reportiq_dev/ACOE.ACOE_SANDBOX/my_galaxy_streamlitapps/reportIQ/app.py:288 | `name.split(sep)[0]` is a prefix of the name that stops at the first `sep`, or the whole name when `sep` does not occur |
| Text.SplitJoin | reportiq_codebase/reportiq_dev/ACOE.ACOE_SANDBOX/my_galaxy_streamlitapps/reportIQ/tmdl_to_er.py:26 | joining the pieces of `split('\n')` with the separator gives back the block: no character is lost or added |
| TmdlToEr.Store | reportiq_codebase/reportiq_dev/ACOE.ACOE_SANDBOX/my_galaxy_streamlitapps/reportIQ/tmdl_to_er.py:40 | `table_columns[name] = columns` maps the name to the new list and keeps the dictionary's keys distinct and in insertion order |
| TmdlToEr.QuotedSpan | reportiq_codebase/reportiq_dev/ACOE.ACOE_SANDBOX/my_galaxy_streamlitapps/reportIQ/tmdl_to_er.py:20-22 | the quoted name runs from the block's first quote to the next one, both quotes kept and none inside, and is cut from the text where that first quote stands; empty when the quote is never closed |
| TmdlToEr.ParseBlock | reportiq_codebase/reportiq_dev/ACOE.ACOE_SANDBOX/my_galaxy_streamlitapps/reportIQ/tmdl_to_er.py:16 | a block adds no table exactly when it is empty or starts with `relationship` |
| TmdlToEr.SplitReferenceParts | reportiq_codebase/reportiq_dev/ACOE.ACOE_SANDBOX/my_galaxy_streamlitapps/reportIQ/tmdl_to_er.py:54-55 | a reference that unpacks is its table, a dot and its column, with no dot in either part |
| TmdlToEr.ReadColumns | reportiq_codebase/reportiq_dev/ACOE.ACOE_SANDBOX/my_galaxy_streamlitapps/reportIQ/tmdl_to_er.py:26-39 | the column loop collects the declared columns in line order with repeats kept, and fails exactly where a `column` line has no second word |
| TmdlToEr.ERDiagramFromTMDL.constructor | reportiq_codebase/reportiq_dev/ACOE.ACOE_SANDBOX/my_galaxy_streamlitapps/reportIQ/tmdl_to_er.py:5-8 | a fresh object holds the model's blocks, an empty table dictionary and no foreign keys |
| TmdlToEr.ERDiagramFromTMDL.ParseTmdlFiles | reportiq_codebase/reportiq_dev/ACOE.ACOE_SANDBOX/my_galaxy_streamlitapps/reportIQ/tmdl_to_er.py:13-40 | the table pass leaves in `table_columns` the dictionary the block-by-block definition gives, and reports the IndexError that aborts it |
| TmdlToEr.ERDiagramFromTMDL.ParseRelationships | reportiq_codebase/reportiq_dev/ACOE.ACOE_SANDBOX/my_galaxy_streamlitapps/reportIQ/tmdl_to_er.py:42-57 | only the first block is scanned; the edges found are appended after those already held, and an empty model or a bad reference is reported as the exception |
| TmdlToEr.ERDiagramFromTMDL.PairRelationships | reportiq_codebase/reportiq_dev/ACOE.ACOE_SANDBOX/my_galaxy_streamlitapps/reportIQ/tmdl_to_er.py:44-57 | the line loop appends the emitted edges in line order, keeping those found before a ValueError |
| TmdlToEr.ERDiagramFromTMDL.CollectEdges | reportiq_codebase/reportiq_dev/ACOE.ACOE_SANDBOX/my_galaxy_streamlitapps/reportIQ/tmdl_to_er.py:44-57 | threading `from_col` through the lines yields exactly the edges and outcome of the line-by-line definition |
| TmdlToEr.ERDiagramFromTMDL.GenerateTableNode | reportiq_codebase/reportiq_dev/ACOE.ACOE_SANDBOX/my_galaxy_streamlitapps/reportIQ/tmdl_to_er.py:59-67 | the label is the header with the table name, one row per column in order, and the closing tag |
| TmdlToEr.ERDiagramFromTMDL.GenerateErDiagram | reportiq_codebase/reportiq_dev/ACOE.ACOE_SANDBOX/my_galaxy_streamlitapps/reportIQ/tmdl_to_er.py:70-84 | each call re-runs both passes: `table_columns` becomes the pass's dictionary, `foreign_keys` grows by the edges found, and the diagram has one node per table and one edge per held key, or is missing when a pass raises |
| TmdlToEr.ERDiagramFromTMDL.AssembleDiagram | reportiq_codebase/reportiq_dev/ACOE.ACOE_SANDBOX/my_galaxy_streamlitapps/reportIQ/tmdl_to_er.py:77-84 | one node per table in dictionary order, labelled by its table node, and one `table:column` edge per foreign key in list order |
| TmdlProperties.ParseTablesFold | reportiq_codebase/reportiq_dev/ACOE.ACOE_SANDBOX/my_galaxy_streamlitapps/reportIQ/tmdl_to_er.py:14-40 | the table pass is the sequence of stores of the tables the blocks define, and fails exactly when some block raises |
| TmdlProperties.StoreAllColumns | reportiq_codebase/reportiq_dev/ACOE.ACOE_SANDBOX/my_galaxy_streamlitapps/reportIQ/tmdl_to_er.py:40 | after the stores, each stored name holds its last column list and every other name is as before |
| TmdlProperties.ParseTablesColumns | reportiq_codebase/reportiq_dev/ACOE.ACOE_SANDBOX/my_galaxy_streamlitapps/reportIQ/tmdl_to_er.py:14-40 | after the pass every table defined before an IndexError holds the columns of its last block |
| TmdlProperties.ParseTablesIdempotent | reportiq_codebase/reportiq_dev/ACOE.ACOE_SANDBOX/my_galaxy_streamlitapps/reportIQ/tmdl_to_er.py:74 | re-running the table pass on its own result changes neither the dictionary nor the key order nor the outcome |
| TmdlProperties.ParseTablesAppend | reportiq_codebase/reportiq_dev/ACOE.ACOE_SANDBOX/my_galaxy_streamlitapps/reportIQ/tmdl_to_er.py:14-40 | the pass over two runs of blocks is the pass over the first, then, unless it raised, over the second from there |
| TmdlProperties.LaterBlockReplaces | reportiq_codebase/reportiq_dev/ACOE.ACOE_SANDBOX/my_galaxy_streamlitapps/reportIQ/tmdl_to_er.py:40 | a later block for a table replaces its column list, other tables keep theirs, and a known table keeps its place |
| TmdlProperties.StoreAllKeepsKeys | reportiq_codebase/reportiq_dev/ACOE.ACOE_SANDBOX/my_galaxy_streamlitapps/reportIQ/tmdl_to_er.py:40 | re-storing names already present leaves the key order as it was |
| TmdlProperties.QuotedSpanAfter | reportiq_codebase/reportiq_dev/ACOE.ACOE_SANDBOX/my_galaxy_streamlitapps/reportIQ/tmdl_to_er.py:21-22 | when the first quote of a text opens a quoted name, the quoted span is exactly that name, quotes included |
| TmdlProperties.ColumnRowParses | reportiq_codebase/reportiq_dev/ACOE.ACOE_SANDBOX/my_galaxy_streamlitapps/reportIQ/tmdl_to_er.py:29-38 | a tab-indented `column` line declares exactly its name, quotes kept |
| TmdlProperties.ScanColumnRows | reportiq_codebase/reportiq_dev/ACOE.ACOE_SANDBOX/my_galaxy_streamlitapps/reportIQ/tmdl_to_er.py:26-39 | the column lines of a block declare its columns in order and with repeats |
| TmdlProperties.SpaceIndentedLineIsNoColumn | reportiq_codebase/reportiq_dev/ACOE.ACOE_SANDBOX/my_galaxy_streamlitapps/reportIQ/tmdl_to_er.py:29-32 | a line indented with spaces has an empty first word and never declares a column |
| TmdlProperties.TableLineIsNoColumn | reportiq_codebase/reportiq_dev/ACOE.ACOE_SANDBOX/my_galaxy_streamlitapps/reportIQ/tmdl_to_er.py:32 | the `table` line of a block declares no column |
| TmdlProperties.TableNameOf | reportiq_codebase/reportiq_dev/ACOE.ACOE_SANDBOX/my_galaxy_streamlitapps/reportIQ/tmdl_to_er.py:19-24 | the name read from a table block is the name it was written with, bare or quoted |
| TmdlProperties.TableBlockRoundTrip | reportiq_codebase/reportiq_dev/ACOE.ACOE_SANDBOX/my_galaxy_streamlitapps/reportIQ/tmdl_to_er.py:16-40 | a table block parses to its table: the name as written and one column per `column` line, in order |
| TmdlProperties.ReferenceText | reportiq_codebase/reportiq_dev/ACOE.ACOE_SANDBOX/my_galaxy_streamlitapps/reportIQ/tmdl_to_er.py:54-55 | a `table.column` reference is one colon- and whitespace-free word that unpacks to its table and column |
| TmdlProperties.MarkerValueOf | reportiq_codebase/reportiq_dev/ACOE.ACOE_SANDBOX/my_galaxy_streamlitapps/reportIQ/tmdl_to_er.py:47-50 | the value read from a `fromColumn:`/`toColumn:` line is the text after the marker and its blank |
| TmdlProperties.FromLineReads | reportiq_codebase/reportiq_dev/ACOE.ACOE_SANDBOX/my_galaxy_streamlitapps/reportIQ/tmdl_to_er.py:46-48 | a `fromColumn:` line makes its reference the pending one, whatever was pending |
| TmdlProperties.PairStepEmits | reportiq_codebase/reportiq_dev/ACOE.ACOE_SANDBOX/my_galaxy_streamlitapps/reportIQ/tmdl_to_er.py:51-56 | two references of a relationship without `LocalDate` tables pair into that relationship |
| TmdlProperties.ToLineEmits | reportiq_codebase/reportiq_dev/ACOE.ACOE_SANDBOX/my_galaxy_streamlitapps/reportIQ/tmdl_to_er.py:49-56 | a `toColumn:` line after its `fromColumn:` line emits the relationship |
| TmdlProperties.PairStepLocalDate | reportiq_codebase/reportiq_dev/ACOE.ACOE_SANDBOX/my_galaxy_streamlitapps/reportIQ/tmdl_to_er.py:52-53 | with a reference pending, a `LocalDate` table on either side of the pair emits nothing and clears nothing |
| TmdlProperties.LocalDateLineKeepsPending | reportiq_codebase/reportiq_dev/ACOE.ACOE_SANDBOX/my_galaxy_streamlitapps/reportIQ/tmdl_to_er.py:49-53 | a `toColumn:` line naming a `LocalDate` table keeps the pending `fromColumn` reference |
| TmdlProperties.LocalDatePairKeepsPending | reportiq_codebase/reportiq_dev/ACOE.ACOE_SANDBOX/my_galaxy_streamlitapps/reportIQ/tmdl_to_er.py:47-57 | after a skipped `LocalDate` line, the next `toColumn:` line still pairs with the earlier `fromColumn:` line |
| TmdlProperties.RelationshipRowsRoundTrip | reportiq_codebase/reportiq_dev/ACOE.ACOE_SANDBOX/my_galaxy_streamlitapps/reportIQ/tmdl_to_er.py:45-57 | the line pairs of a list of relationships yield exactly that list, in order, without error |
| TmdlProperties.RelationshipBlockRoundTrip | reportiq_codebase/reportiq_dev/ACOE.ACOE_SANDBOX/my_galaxy_streamlitapps/reportIQ/tmdl_to_er.py:43-57 | a model whose first block holds relationship line pairs yields exactly those edges, whatever the other blocks hold |
| TmdlProperties.PairStepAvoidsLocalDate | reportiq_codebase/reportiq_dev/ACOE.ACOE_SANDBOX/my_galaxy_streamlitapps/reportIQ/tmdl_to_er.py:52-56 | an emitted pair never has a table that starts with `LocalDate` |
| TmdlProperties.EmitAvoidsLocalDate | reportiq_codebase/reportiq_dev/ACOE.ACOE_SANDBOX/my_galaxy_streamlitapps/reportIQ/tmdl_to_er.py:46-56 | no line emits an edge with a `LocalDate` table |
| TmdlProperties.EdgesAvoidLocalDate | reportiq_codebase/reportiq_dev/ACOE.ACOE_SANDBOX/my_galaxy_streamlitapps/reportIQ/tmdl_to_er.py:45-57 | no edge of the relationship pass has a table that starts with `LocalDate` |
| TmdlProperties.RowsInjective | reportiq_codebase/reportiq_dev/ACOE.ACOE_SANDBOX/my_galaxy_streamlitapps/reportIQ/tmdl_to_er.py:63-64 | the rows of quote-free columns determine the columns, in order and with repeats |
| TmdlProperties.TableLabelInjective | reportiq_codebase/reportiq_dev/ACOE.ACOE_SANDBOX/my_galaxy_streamlitapps/reportIQ/tmdl_to_er.py:59-67 | a node label determines its table name and column list (names without `<`, columns without `"`) |
| StreamDecoder.PyIn | reportiq_codebase/reportiq_dev/ACOE.ACOE_SANDBOX/my_galaxy_streamlitapps/reportIQ/app.py:209-211 | Python's `in` on a JSON value raises exactly for a number, a boolean or null |
| StreamDecoder.Documentation | reportiq_codebase/reportiq_dev/ACOE.ACOE_SANDBOX/my_galaxy_streamlitapps/reportIQ/app.py:283 | joining the fragments (the separator `documentation` is still empty there) succeeds exactly when every fragment is a string; the same holds for the join at app_supported.py:322 and for `documentation += ...` at app_with_streaming.py:221 |
| StreamDecoder.GenerateDocumentation | reportiq_codebase/reportiq_dev/ACOE.ACOE_SANDBOX/my_galaxy_streamlitapps/reportIQ/app.py:159-217 | the chunk loop yields the fragments of each chunk in chunk order and warns once per chunk that ends in an exception (the same loop is at app_supported.py:176-234 and app_with_streaming.py:121-179) |
| StreamDecoder.ScanChunk | reportiq_codebase/reportiq_dev/ACOE.ACOE_SANDBOX/my_galaxy_streamlitapps/reportIQ/app.py:203-212 | the line loop of a chunk yields in line order and stops at `[DONE]` or at the first exception |
| StreamProperties.FrameContentIff | reportiq_codebase/reportiq_dev/ACOE.ACOE_SANDBOX/my_galaxy_streamlitapps/reportIQ/app.py:209-212 | a frame yields `v` exactly when `choices[0].delta.content` is `v`, along objects and a non-empty list |
| StreamProperties.EmptyChoicesYieldNothing | reportiq_codebase/reportiq_dev/ACOE.ACOE_SANDBOX/my_galaxy_streamlitapps/reportIQ/app.py:209 | a frame with an empty `choices` list, such as a usage frame, yields nothing and raises nothing |
| StreamProperties.ScanAppend | reportiq_codebase/reportiq_dev/ACOE.ACOE_SANDBOX/my_galaxy_streamlitapps/reportIQ/app.py:203-212 | the loop goes on into later lines only when the earlier ones neither broke nor raised |
| StreamProperties.DataLines | reportiq_codebase/reportiq_dev/ACOE.ACOE_SANDBOX/my_galaxy_streamlitapps/reportIQ/app.py:204 | the lines kept all start with `data: ` |
| StreamProperties.OnlyDataLinesCount | reportiq_codebase/reportiq_dev/ACOE.ACOE_SANDBOX/my_galaxy_streamlitapps/reportIQ/app.py:203-204 | lines that do not start with `data: ` change nothing |
| StreamProperties.DoneEndsChunk | reportiq_codebase/reportiq_dev/ACOE.ACOE_SANDBOX/my_galaxy_streamlitapps/reportIQ/app.py:205-207 | a stripped `[DONE]` payload ends the chunk's line loop; later lines of the chunk are not read |
| StreamProperties.DoneLine | reportiq_codebase/reportiq_dev/ACOE.ACOE_SANDBOX/my_galaxy_streamlitapps/reportIQ/app.py:205-206 | `data: ` followed by whitespace and `[DONE]` is the sentinel |
| StreamProperties.RaiseEndsChunk | reportiq_codebase/reportiq_dev/ACOE.ACOE_SANDBOX/my_galaxy_streamlitapps/reportIQ/app.py:208-217 | a line that raises abandons the rest of its chunk; what was yielded before it stands |
| StreamProperties.DecodeStreamAppend | reportiq_codebase/reportiq_dev/ACOE.ACOE_SANDBOX/my_galaxy_streamlitapps/reportIQ/app.py:159 | chunks are decoded one after another, each on its own |
| StreamProperties.WarningsAppend | reportiq_codebase/reportiq_dev/ACOE.ACOE_SANDBOX/my_galaxy_streamlitapps/reportIQ/app.py:214-217 | warnings add up over chunks |
| StreamProperties.DoneChunkDoesNotHalt | reportiq_codebase/reportiq_dev/ACOE.ACOE_SANDBOX/my_galaxy_streamlitapps/reportIQ/app.py:159-207 | a chunk holding only `[DONE]` does not stop the chunks after it |
| StreamProperties.DoneChunk | reportiq_codebase/reportiq_dev/ACOE.ACOE_SANDBOX/my_galaxy_streamlitapps/reportIQ/app.py:206-207 | a one-line chunk whose line is the sentinel yields nothing |
| StreamProperties.UndecodableChunkSkipped | reportiq_codebase/reportiq_dev/ACOE.ACOE_SANDBOX/my_galaxy_streamlitapps/reportIQ/app.py:160-217 | a chunk that is not UTF-8 yields nothing, warns once, and the chunks after it are decoded as usual |
| StreamProperties.ChunkBoundariesMatter | reportiq_codebase/reportiq_dev/ACOE.ACOE_SANDBOX/my_galaxy_streamlitapps/reportIQ/app.py:159-205 | no partial line is carried between chunks: the same bytes yield a fragment in one chunk and nothing when split inside `data: ` |
| StreamProperties.ContentLine | reportiq_codebase/reportiq_dev/ACOE.ACOE_SANDBOX/my_galaxy_streamlitapps/reportIQ/app.py:204-212 | a `data: ` line whose payload parses to a content frame yields its content |
| StreamProperties.IgnoredChunk | reportiq_codebase/reportiq_dev/ACOE.ACOE_SANDBOX/my_galaxy_streamlitapps/reportIQ/app.py:203-204 | a one-line chunk that does not start with `data: ` yields nothing |
| StreamProperties.DocumentationAppend | reportiq_codebase/reportiq_dev/ACOE.ACOE_SANDBOX/my_galaxy_streamlitapps/reportIQ/app.py:283 | the join of two stretches of fragments is the concatenation of their joins |
| StreamProperties.StreamDocumentation | reportiq_codebase/reportiq_dev/ACOE.ACOE_SANDBOX/my_galaxy_streamlitapps/reportIQ/app.py:283 | the documentation of a stream is the documentation of its chunks concatenated in chunk order, with no separator |
| Upload.ReadArchive | reportiq_codebase/reportiq_dev/ACOE.ACOE_SANDBOX/my_galaxy_streamlitapps/reportIQ/app.py:37-47 | the entry loop ends with the report and blocks of the member-by-member definition, stopping at the first unreadable member it reads |
| Upload.ExtractStops | reportiq_codebase/reportiq_dev/ACOE.ACOE_SANDBOX/my_galaxy_streamlitapps/reportIQ/app.py:36-52 | once a member has raised, the later members change nothing |
| Upload.ExtractAllDecodable | reportiq_codebase/reportiq_dev/ACOE.ACOE_SANDBOX/my_galaxy_streamlitapps/reportIQ/app.py:38-47 | when every member can be read, the blocks are the selected texts in archive order and the report is the last `report.json` |
| Upload.ExtractIncomplete | reportiq_codebase/reportiq_dev/ACOE.ACOE_SANDBOX/my_galaxy_streamlitapps/reportIQ/app.py:36-52 | the loop stops early only at a member it reads that is not UTF-8, and never keeps more blocks than members |
| Upload.ExtractAgree | reportiq_codebase/reportiq_test/ACOE.ACOE_SANDBOX/app_supported.py:62 | two filters that agree on every member name read the archive alike |
| ReportIqApp.PowerBIProcessor.Process | reportiq_codebase/reportiq_dev/ACOE.ACOE_SANDBOX/my_galaxy_streamlitapps/reportIQ/app.py:31-62 | the report and blocks the entry loop reads with this filter, and the ER diagram of those blocks, or none where drawing it raises |
| ReportIqApp.GetFileProcessor | reportiq_codebase/reportiq_dev/ACOE.ACOE_SANDBOX/my_galaxy_streamlitapps/reportIQ/app.py:65-75 | a processor for the upload exactly for `Power BI`, otherwise the ValueError |
| ReportIqApp.PowerBIContext.SetContext | reportiq_codebase/reportiq_dev/ACOE.ACOE_SANDBOX/my_galaxy_streamlitapps/reportIQ/app.py:85-102 | the system prompt starts with the base prompt and grows exactly when the user context is non-empty, ending in the context paragraph, and then is exactly as long as the two together, so it is the base prompt followed by the paragraph; the user prompt is fixed |
| ReportIqApp.GetContext | reportiq_codebase/reportiq_dev/ACOE.ACOE_SANDBOX/my_galaxy_streamlitapps/reportIQ/app.py:105-115 | a context over the processed contents exactly for `Power BI`, otherwise the ValueError |
| ReportIqApp.ContextRecoverable | reportiq_codebase/reportiq_dev/ACOE.ACOE_SANDBOX/my_galaxy_streamlitapps/reportIQ/app.py:94-96 | for the same contents, equal system prompts mean equal user contexts |
| ReportIqApp.DownloadStem | reportiq_codebase/reportiq_dev/ACOE.ACOE_SANDBOX/my_galaxy_streamlitapps/reportIQ/app.py:288 | the stem is a prefix of the file name holding no `.zip`; it is the whole name when the name holds no `.zip`, and otherwise ends right before an occurrence of `.Report.zip`, `.SemanticModel.zip` or `.zip` |
| ReportIqApp.StemOfZippedFolder | reportiq_codebase/reportiq_dev/ACOE.ACOE_SANDBOX/my_galaxy_streamlitapps/reportIQ/app.py:288 | the stem of `<name>.Report.zip`, `<name>.SemanticModel.zip` or `<name>.zip` is the project name, for any name free of `.zip` (and, for a plain `.zip`, not itself ending in `.Report` or `.SemanticModel`) |
| AppSupported.FilterDifference | reportiq_codebase/reportiq_test/ACOE.ACOE_SANDBOX/app_supported.py:62 | this filter keeps exactly the members the `app.py` filter (app.py:45) keeps, plus the `/DateTableTemplate` ones |
| AppSupported.SameBlocksWithoutTemplates | reportiq_codebase/reportiq_test/ACOE.ACOE_SANDBOX/app_supported.py:55-65 | for an archive without date-table templates both variants read the same report and blocks |
| AppSupported.PowerBIProcessor.Process | reportiq_codebase/reportiq_test/ACOE.ACOE_SANDBOX/app_supported.py:48-77 | the report and blocks the entry loop reads with this variant's filter, and the diagram file name |
| AppSupported.DiagramNameInjective | reportiq_codebase/reportiq_test/ACOE.ACOE_SANDBOX/app_supported.py:73 | uploads with different names get different diagram file names |
| AppSupported.GetFileProcessor | reportiq_codebase/reportiq_test/ACOE.ACOE_SANDBOX/app_supported.py:80-90 | a processor for the upload exactly for `Power BI`, otherwise the ValueError |
| AppSupported.PowerBIContext.SetContext | reportiq_codebase/reportiq_test/ACOE.ACOE_SANDBOX/app_supported.py:100-118 | the system prompt starts with this variant's base prompt and grows exactly when the user context is non-empty, ending in the context paragraph, and then is exactly as long as the two together |
| AppSupported.GetContext | reportiq_codebase/reportiq_test/ACOE.ACOE_SANDBOX/app_supported.py:121-131 | a context over the processed contents exactly for `Power BI`, otherwise the ValueError |
| AppSupported.InfoAndUploader | reportiq_codebase/reportiq_test/ACOE.ACOE_SANDBOX/app_supported.py:238-257 | the Power BI instructions and zip uploader label exactly for `Power BI`, the generic pair exactly otherwise |
| AppWithStreaming.ReportNeverTmdl | reportiq_codebase/reportiq_test/ACOE.ACOE_SANDBOX/app_with_streaming.py:24-27 | a `report.json` member is never taken into the semantic model |
| AppWithStreaming.PowerBIProcessor.Process | reportiq_codebase/reportiq_test/ACOE.ACOE_SANDBOX/app_with_streaming.py:18-33 | the report and the `+=` concatenation of the selected `.tmdl` texts, or the exception where the upload is not a zip or a member read is not UTF-8 |
| AppWithStreaming.ProcessReadable | reportiq_codebase/reportiq_test/ACOE.ACOE_SANDBOX/app_with_streaming.py:20-29 | when every member can be read, the semantic model is the selected `.tmdl` texts in archive order and the report is the last `report.json` |
| AppWithStreaming.GetFileProcessor | reportiq_codebase/reportiq_test/ACOE.ACOE_SANDBOX/app_with_streaming.py:36-44 | a processor exactly for `Power BI`, otherwise `None` and no error |
| AppWithStreaming.PowerBIContext.SetContext | reportiq_codebase/reportiq_test/ACOE.ACOE_SANDBOX/app_with_streaming.py:56-72 | the semantic-model string enters the base prompt as it is; the context paragraph is appended exactly for a non-empty user context, and the prompt is then exactly the base prompt followed by it |
| AppWithStreaming.GetContext | reportiq_codebase/reportiq_test/ACOE.ACOE_SANDBOX/app_with_streaming.py:75-83 | a context exactly for `Power BI`, otherwise the ValueError |
| Ledger.PaymentIntent.constructor | reportiq_codebase/something.py:2-5 | the object holds the two lists and the state names it was given |
| Ledger.PaymentIntent.Init | reportiq_codebase/something.py:6-10 | one merchant entry appended, even for a known id; the intents are untouched |
| Ledger.PaymentIntent.Create | reportiq_codebase/something.py:11-12 | one intent appended in `states[0]`; the merchants are untouched |
| Ledger.PaymentIntent.Attempt | reportiq_codebase/something.py:13-19 | matching intents move to `states[1]` and each merchant entry is credited with what they owe it |
| Ledger.PaymentIntent.Succeed | reportiq_codebase/something.py:20-23 | matching intents move to `states[2]`; balances are untouched |
| Ledger.PaymentIntent.Update | reportiq_codebase/something.py:24-27 | matching intents get the new amount; balances are untouched |
| Ledger.PaymentIntent.Fail | reportiq_codebase/something.py:28-31 | matching intents move back to `states[0]`; balances are untouched |
| Ledger.PaymentIntent.Refund | reportiq_codebase/something.py:32-38 | matching intents move back to `states[0]` and each merchant entry is debited with what they owe it |
| Ledger.PaymentIntent.Mark | reportiq_codebase/something.py:20-31 | the state loop changes only the state of the matching intents |
| Ledger.PaymentIntent.Transfer | reportiq_codebase/something.py:13-38 | the nested loops of `attempt` (and of `refund`, with the opposite sign) set the state and move each merchant entry by the total of the matching intents' amounts |
| Ledger.PaymentIntent.Credit | reportiq_codebase/something.py:17-19 | the inner loop moves every merchant entry with this id, and only those |
| Ledger.PaymentIntent.Execute | reportiq_codebase/something.py:53-70 | one dispatch step: the ledger after the command, or the exception of a missing word or a bad integer, with the ledger unchanged |
| Ledger.SameCharges | reportiq_codebase/something.py:14-19 | what is owed depends on the intents' ids, merchants and amounts, not on their states |
| Ledger.AttemptThenRefund | reportiq_codebase/something.py:13-38 | `attempt` then `refund` of the same id restores every balance and leaves the matching intents in `states[0]` |
| Ledger.AttemptTwice | reportiq_codebase/something.py:13-19 | with no state guard, a second `attempt` credits the amounts again |
| Ledger.NoMatchNoChange | reportiq_codebase/something.py:13-38 | an operation on an id no intent carries changes nothing |
| Ledger.IntentFieldsOnly | reportiq_codebase/something.py:20-31 | `succeed`, `update` and `fail` leave balances alone and change one field of matching intents only |
| Ledger.InitAlwaysAppends | reportiq_codebase/something.py:6-10 | `init` adds one more entry for the id even when one exists |
| Ledger.IdCommand | reportiq_codebase/something.py:53-68 | `ATTEMPT`, `SUCCEED`, `FAIL` or `REFUND` followed by an id runs that operation on that id |
| Ledger.AmountCommand | reportiq_codebase/something.py:53-64 | `INIT merchant balance` and `UPDATE id amount` run their operation on the parsed number, and raise where `int()` does |
| Ledger.CreateCommand | reportiq_codebase/something.py:53-58 | `CREATE id merchant amount` creates that intent for the parsed amount, and raises where `int()` does |
| Ledger.MissingArgument | reportiq_codebase/something.py:53-68 | an operation name with no arguments raises IndexError |
| Ledger.UnknownCommand | reportiq_codebase/something.py:69-70 | a command whose first word names no operation leaves both lists as they were |
| Ledger.CommandTouchesOneList | reportiq_codebase/something.py:53-68 | each command changes only the list its operation touches |
| Ledger.CollectCommands | reportiq_codebase/something.py:46-52 | the input loop collects stripped lines up to an empty line or `DONE`, and fails where the input ends first |
| Ledger.RunCommands | reportiq_codebase/something.py:53-70 | the dispatch loop runs the commands in order on a fresh ledger and stops at the first exception |
| Ledger.Run | reportiq_codebase/something.py:40-70 | `main` is the input loop followed by the dispatch loop |
| Ledger.CommandsHaveWords | reportiq_codebase/something.py:47-55 | every collected command has a first word, so `j[0]` never raises |
| Ledger.NewlineNeverSeen | reportiq_codebase/something.py:47-49 | a stripped line is never a newline, so the first test of the loop never holds |
| Ledger.SessionAppend | reportiq_codebase/something.py:53-70 | running two lists of commands is running the first, then the second from where it stopped |

## Left out

- Streamlit UI (`st.*` calls, page layout, buttons, spinners, toggles), logging, `print`, the profiling wrapper and `time.sleep`: presentation only, no effect on the values modelled.
- The HTTP request to the completion endpoint, its headers and `raise_for_status`: network I/O. The response is the given sequence of chunks. When the request itself fails, `response` is unbound and the loop raises NameError; that path is not modelled. In `app_supported.py` the `response.json()` before `raise_for_status()` reads the whole body first, so the loop over `iter_content(chunk_size=None)` sees it as one chunk, and an event-stream body makes `.json()` raise, so `raise_for_status()` is skipped; both are network-layer effects on which chunk sequence arrives, and that sequence is already a parameter.
- Reading the zip format: an upload is a file name with its members in archive order, or no archive where `zipfile.ZipFile` raises. A member's bytes are given decoded or undecodable.
- `json.loads`, `int(...)` and Python's `repr` of a list inside an f-string are library code. They are parameters, so no property depends on how they parse or render.
- Graphviz (`Digraph`, `dot.attr`, `dot.node`/`dot.edge` styling, `dot.pipe`): rendering. The model stops at the node labels and the `table:column` edge endpoints and labels handed to it.
- `st.write_stream`: it is taken to return the concatenation of the yielded fragments when all are strings, and otherwise a list, on which `"".join` and `+=` raise TypeError. Either way the caller gets documentation exactly when every fragment is a string, which is what `StreamDecoder.Documentation` states.
- AppSupported.PowerBIProcessor.Process: does not model the call `generate_er_diagram(er_filename)` or its `os.path.exists` check. That call targets another version of `tmdl_to_er.py`, which is not part of this model, and it touches the filesystem; whether it raises is not captured.
- `info_and_uploader` is modelled once, as `AppSupported.InfoAndUploader`. The copies in `app.py` and `app_with_streaming.py` are identical.
- Ledger: the final `merchants.sort()` and the printing of both lists in `main` are output formatting and are not modelled.
- Ledger.Run: the input loop reads a given sequence of lines instead of calling `input()`. Running out of lines stands for the EOFError.
- ReportIqApp.StemOfZippedFolder: proved only for project names that hold no `.zip` of their own. A name that holds one is cut earlier, right before an occurrence of one of the suffixes, as the contract of `DownloadStem` states. For a plain `.zip` the name must also not end in `.Report` or `.SemanticModel`, because `X.Report` + `.zip` is read as the zipped report folder of `X`.
- TmdlToEr.ERDiagramFromTMDL.PairRelationships: appends the edges of the line loop to `foreign_keys` in one step after the loop, not one by one. The final field and outcome are the same, including after a ValueError.
- Floating-point request parameters (`temperature`, `top_p`, penalties) are constants of the HTTP body and are not modelled.
