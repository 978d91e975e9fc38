# Observation store: a verified model

The repository stores multi-dimensional observation cubes: a payload names dimensions and categories in its own order and
addresses cells by a flattened row-major index; the store keeps one canonical form; readers select any Cartesian subset in
any order and get the cells back renumbered. This project models that path in Dafny and proves that its pieces agree.

* `Index`, `Ordering`, `Naming` - overflow-checked mixed-radix arithmetic, bytewise key order, and the *name* of a cell: the
  category key it has on every dimension key. Two orders of one cube agree when a cell keeps its name, and names determine
  indexes; nearly every result about moving cells is stated that way.
* `Basics`, `Utf8` - byte strings, and which of them are UTF-8.
* `Model`, `Decimal`, `Structure`, `Channels`, `Payload`, `PayloadLaws` - parsing: structure, channels, the merge, the counts.
* `Acceptance` - what is accepted and what it means, without the parsers: the bodies that spell a cube and its cells.
* `Remap`, `Selection`, `CubeLaws`, `Query` - the stored form, the selection, and the laws between them.
* `Presentation`, `ExportImport`, `Jsonx` - dense, sparse and scalar encodings, export followed by import, repeated names.
* `Database`, `Protocol`, `Invariant`, `Statements`, `Commit`, `Safety`, `Liveness`, `History`, `Snapshot` - the write
  protocol. `Protocol.Run` is any interleaving of arrivals, single statements of `Replace` and `Delete`, and aborts between
  any two statements. A statement sees the committed rows under its transaction's own writes; an advisory lock is held by one
  transaction, under a key that is an arbitrary function of the identity; a statement that touches rows or a unique key in
  another transaction's hands waits; a violated constraint, a missing row, a text that is not UTF-8 or has a byte 0, or a
  stamp that jsonb does not hold is an error that rolls the transaction back; values of identity columns are never handed
  out twice. Everything else is proved: a statement fails for such a text or stamp and for nothing else, row locks never
  make anybody wait, and committed states are what the answered operations do one at a time.
* `Answers` - what is answered, read off the history: existing, created or replaced, removed, and every summary field.
* `Refusal` - which operations PostgreSQL refuses although the parsers accept them.

Go methods that fill containers in loops are methods with loops here, proved against specification functions; Go map
iteration is a loop that picks any remaining key, so results hold for every visiting order. Go strings are byte sequences,
int64 arithmetic is `Wrap64`, and error returns that the surrounding contracts make unreachable are `assert false`.

One property one would expect does not hold of the code: an accepted request need not be storable. There are two inputs.
`"value": {}, "text": {"0": "\u0000"}` passes the JSON pass and the channel parsers, and a PostgreSQL text column holds no
byte 0, so the copy at internal/store/postgres.go:316-326 fails every time (`Refusal.NulAccepted`, `Refusal.NulRefused`).
And a path code such as `%FF` is not UTF-8: only the body is checked (internal/jsonx/json.go:12), NormalizeCode keeps the
byte, and PostgreSQL takes no such parameter, so every statement that sends it fails (`Refusal.StrayDeletion`,
`Refusal.StrayAccepted`, `Refusal.StrayRefused`). `Refusal.NeverRefusedIff` gives the exact condition, over all runs: every
text that the operation can send is valid UTF-8 without byte 0, and jsonb holds the stamp.

Two places where the code and its comments differ, and the model follows the code. The comment on `storage.observations`
(internal/migrations/sql/001_initial.sql:138-144) credits an advisory lock and a `for update` lock on the dataset row in both
Replace and Delete; Delete takes no `for update` lock. `Liveness.WaitsOnlyForProvider` and `History.OneReplacement` show that
the advisory lock alone carries the guarantee. And internal/domain/payload.go:448-453 calls the fused loop equivalent to
Coordinates followed by CellIndex; what it computes has the permutation of dimensions and categories in between, as
`Remap.RemapIsRecomposition` states.

## Model

| member | source | states |
|---|---|---|
| Index.CheckedProduct | internal/domain/index.go:12-30 | succeeds exactly on a non-empty list of positive sizes whose exact product is within the limit and int64; no step overflows; the error says what the first offending size does wrong |
| Index.Strides | internal/domain/index.go:32-40 | when the product fits an int64, no stride wraps and each is the product of the later sizes |
| Index.Coordinates | internal/domain/index.go:42-59 | with row-major strides, success exactly for 0 <= index < product, with the coordinates that Flatten inverts |
| Index.CellIndex | internal/domain/index.go:61-73 | success exactly on a tuple inside the cube; the int64 sum is the exact position |
| Index.UnflattenOfFlatten | internal/domain/index.go:42-73 | coordinates of the position of a tuple are that tuple |
| Index.FlattenOfUnflatten | internal/domain/index.go:42-73 | position of the coordinates of an index is that index, and the coordinates are inside the cube |
| Index.FlattenIsRowMajor | internal/domain/index.go:61-73 | of two tuples the lexicographically earlier one has the smaller position |
| Decimal.PrintIsCanonical | internal/presentation/presentation.go:113 | the printed form of an index in int64 range is a canonical decimal string that reads back as that index |
| Decimal.CanonicalIsPrint | internal/domain/payload.go:364-378 | every canonical decimal string is the printed form of its value |
| Decimal.PrintAppends | internal/presentation/presentation.go:113 | decimal notation in ASCII: appending a digit is ten times the number plus the digit |
| Decimal.PrintInjective | internal/domain/payload.go:364-378 | different indexes have different keys |
| Decimal.ParseSparseIndex | internal/domain/payload.go:364-378 | succeeds with i exactly when 0 <= i < count and the key is the canonical printing of i |
| Structure.SlotsFilled | internal/domain/payload.go:212-235 | an index that permutes 0..n-1 fills every slot (pigeonhole) |
| Structure.ParseCategories | internal/domain/payload.go:212-235 | for every visiting order: accepted exactly when the codes normalize to different keys and the positions permute 0..n-1, and then with the code of every position |
| Structure.AcceptedIsWellFormed | internal/domain/payload.go:157-210 | an accepted structure has pairwise different keys on both levels, no empty dimension, and codes that carry their normalized key |
| Structure.NamesAgreeByCounting | internal/domain/payload.go:157-199 | comparing two lengths and looking up one way is enough for `id` and `dimension` to name the same keys |
| Structure.ParseRequestDimensions | internal/domain/payload.go:157-210 | for every visiting order: accepted exactly when counts are in bounds, both sides name the same duplicate-free keys, every category index is acceptable and the product fits; the result is one function of the input |
| Channels.ParseDense | internal/domain/payload.go:245-262 | a list is accepted exactly when its length is the cell count and no entry is malformed; null entries denote nothing |
| Channels.ParseSparse | internal/domain/payload.go:264-282 | a table is accepted exactly when every key is a canonical in-range index and every entry a proper value; two keys never address one cell |
| Channels.ParseNumericChannel | internal/domain/payload.go:237-286 | what the numeric channel accepts and which cells it gives which number |
| Channels.ParseStringChannel | internal/domain/payload.go:288-335 | the same for texts, which must be as dense or sparse as the numbers |
| Channels.ParseStatusChannel | internal/domain/payload.go:337-358 | the same for statuses, where one string stands for every logical cell |
| Payload.AddText | internal/domain/payload.go:96-105 | refuses exactly when some cell would have a number and a text |
| Payload.AddScalar | internal/domain/payload.go:113-121 | a scalar status makes a row of every logical cell |
| Payload.MergeUnique | internal/domain/payload.go:88-121 | the merged cells do not depend on the order in which the channels are visited |
| Payload.MergeChannels | internal/domain/payload.go:75-121 | accepted exactly when every channel is and no cell has a number and a text; the result is the union of the channels |
| Payload.ParseReplacement | internal/domain/payload.go:50-139 | accepts exactly what Accepted describes and returns its stored form and counts; the remap cannot fail |
| Acceptance.StructureIff | internal/domain/payload.go:157-235 | a structure is accepted exactly when `id` and `dimension` spell one list of at most 64 dimensions with different keys, each with different categories at positions 0..n-1 |
| Acceptance.SpelledParses | internal/domain/payload.go:157-235 | and it parses to those dimensions in `id` order, spelled as in `dimension` |
| Acceptance.NumericMeans | internal/domain/payload.go:237-286 | a numeric channel is accepted with given numbers exactly when it is the array with null elsewhere, or the object under printed indexes, that spells them |
| Acceptance.TextMeans | internal/domain/payload.go:288-335 | the same for texts, which may be absent and must not mix representations with the numbers |
| Acceptance.StatusMeans | internal/domain/payload.go:337-358 | the same for statuses, where one string spells that status on every cell |
| Acceptance.SpelledMeans | internal/domain/payload.go:88-121 | the parsed cells, field by field: a cell for every index that has a number, a text or a status, holding exactly those |
| Acceptance.AcceptedIffSpellable | internal/domain/payload.go:50-139 | a payload is accepted exactly when its codes normalize, it has a stamp, and it spells a cube within the limit with numbers, texts and statuses of which no cell has a number and a text |
| Query.ParseSelection | internal/domain/payload.go:141-155 | a selection is parsed like a payload's structure, without a cell limit |
| PayloadLaws.MoveConserves | internal/domain/payload.go:431-444 | for every property of a content, remapping keeps the number of cells that have it |
| PayloadLaws.ValuedCountConserved | internal/domain/payload.go:127-138 | the valued count is numeric entries plus text entries, at most the cell count |
| PayloadLaws.StoredContents | internal/domain/payload.go:88-138 | every stored cell is inside the cube, has some content and not both a number and a text |
| PayloadLaws.StoredCount | internal/domain/payload.go:88-138 | every mentioned cell is stored once; a scalar status stores every logical cell |
| PayloadLaws.AcceptedIsStorable | internal/domain/payload.go:50-139 | an accepted payload becomes a canonical, correctly counted replacement within the cell limit whose codes all carry their normalized keys; whether its texts can be stored is `Refusal.NeverRefusedIff` |
| Ordering.LessIffEarlier | internal/domain/payload.go:403-409 | the recursive order is Go's: a proper prefix, or the smaller byte at the first difference, comes first |
| Ordering.FirstDifference | internal/domain/payload.go:403-409 | the first different byte decides whatever comes before and after it |
| Ordering.PrefixFirst | internal/domain/payload.go:403-409 | a proper prefix comes first |
| Remap.SortedAscends | internal/domain/payload.go:398-412 | in a sorted structure dimension keys and category keys ascend by first differing byte |
| Remap.SortedUnique | internal/domain/payload.go:398-428 | a cube has one key-sorted structure |
| Remap.StoredIsCanonical | internal/domain/payload.go:398-428 | the stored structure is key-sorted, ascending by first differing byte on both levels, positions say where things stand, and it is the payload's cube |
| Remap.SumGrows | internal/domain/payload.go:454-483 | one pass of the fused loop adds exactly the share of the next coordinate and stays inside the cube |
| Remap.RemapCellIndex | internal/domain/payload.go:454-483 | fails exactly outside the payload's cube; otherwise the index of the cell with the same name in the stored cube; no int64 step wraps |
| Remap.RemapIsRecomposition | internal/domain/payload.go:448-483 | the fused loop's result is CellIndex of the permuted Coordinates: same category on every dimension |
| Remap.RemapIsBijection | internal/domain/payload.go:429-483 | the remap and its reverse undo each other and both cubes have the same size |
| Remap.RemapReplacement | internal/domain/payload.go:398-446 | canonical structure; cells strictly ascending, each holding what the payload's cell of the same name held |
| Selection.AcceptedIffChosen | internal/domain/selection.go:5-56 | a selection is accepted exactly when it names every stored dimension once, chooses at least one of its categories and none twice, in any order, and has no more cells than the limit: partial selections are accepted |
| Selection.ResolveCategories | internal/domain/selection.go:36-50 | accepted exactly when the requested categories are different and all stored; their stored positions in requested order |
| Selection.ResolveDimensions | internal/domain/selection.go:5-50 | accepted exactly when the requested dimensions are different stored ones, each with a duplicate-free choice of its stored categories; answers their spellings and positions in requested order |
| Selection.ResolveIndex | internal/domain/selection.go:57-73 | an output index resolves to the stored index of the same name; Coordinates and CellIndex take no error return |
| Selection.ResolveSelection | internal/domain/selection.go:5-75 | accepted exactly when every stored dimension is named and the selected product is within the limit; lists the stored index of every output position; a size error says which limit the product breaks |
| CubeLaws.SelectionIsExact | internal/domain/selection.go:52-73 | a selection lists exactly the requested Cartesian product, inside the stored cube, without repetition, each index naming the categories of its output position |
| CubeLaws.SelectionIsRowMajor | internal/domain/selection.go:52-73 | of two listed positions the smaller has the lexicographically earlier coordinates, and each holds the stored index of the cell that its coordinates name |
| CubeLaws.FullSelectionPermutes | internal/domain/selection.go:52-73 | selecting every category gives a permutation of 0..N-1 |
| CubeLaws.AnswerIsSelection | internal/domain/selection.go:21-50 | the answered dimensions have the requested keys in requested order and the stored spellings on both levels, and can serve as a stored structure |
| CubeLaws.SelectionsCompose | internal/domain/selection.go:17-73 | selecting from a selection is selecting from the original: indices = indices1[indices2] |
| CubeLaws.StoredFormIsCanonical | internal/domain/payload.go:398-446 | payloads that give every named cell the same content, in any dimension and category order, store the same keys, positions and cells |
| Query.FetchCells | internal/store/postgres.go:190-214 | for any positive batch size every selected index is asked for exactly once and the rows found are those of one single query |
| Query.Reindex | internal/store/postgres.go:215-221 | the loop computes Reindexed |
| Query.ReindexedRenumbers | internal/store/postgres.go:215-221 | one output cell for exactly the populated selected positions, with that cell's content, ascending |
| Query.Query | internal/store/postgres.go:168-226 | resolve, fetch, renumber: accepted exactly when the selection is; answers the requested structure and the renumbered cells; the cell limit is the error exactly when the names fit and the product exceeds it. Summary and not found are `Snapshot.Fetch` |
| Query.OverLimitIff | internal/store/postgres.go:182-189 | such a choice is answered with the cell limit exactly when it has more cells |
| Query.ReplaceThenQuery | internal/store/postgres.go:168-226 | round trip: querying a stored payload with its own dimension and category order returns exactly its populated cells at their original indexes |
| Presentation.DenseChannels | internal/presentation/presentation.go:68-104 | fails exactly on a cell outside the cube; the arrays hold what the cells hold, absent where nothing is held |
| Presentation.SparseChannels | internal/presentation/presentation.go:106-133 | the same for the sparse tables |
| Presentation.SharedStatus | internal/presentation/presentation.go:157-173 | what the length comparison and the single pass find |
| Presentation.SharedMeansAll | internal/presentation/presentation.go:157-173 | on different in-range cells that is exactly one status carried by every logical cell (pigeonhole) |
| Presentation.BuildStructure | internal/presentation/presentation.go:138-155 | identifiers in view order; each category index maps the spellings to their positions and has nothing else |
| Presentation.EncodingPresents | internal/presentation/presentation.go:68-133 | dense and sparse encodings, with or without a scalar status, denote the same cube |
| Presentation.DataResponse | internal/presentation/presentation.go:49-134 | fails exactly on an empty or too large structure or a cell outside the cube; otherwise parsing its channels gives back the cells of the view; every channel that is no scalar, the status too, has the form that was asked for |
| ExportImport.StructureReparsed | internal/domain/payload.go:157-235 | the exported structure is accepted and parses to the stored dimensions in stored order |
| ExportImport.RemapIdentity | internal/domain/payload.go:429-446 | on a stored structure the remap moves nothing |
| ExportImport.ExportThenImport | internal/presentation/presentation.go:49-155 | a full response, dense or sparse, is an acceptable replacement that parses to the same dimensions, cells and counts |
| ExportImport.ViewSpellingsDiffer | internal/presentation/presentation.go:138-155 | in a stored view no two dimensions, and no two categories of one dimension, have one spelling, so exported identifiers never collide |
| ExportImport.AcceptedIsStoredView | internal/domain/payload.go:50-139 | what an accepted payload stores is such a view, so it can be exported and imported forever |
| Jsonx.ValueDecided | internal/jsonx/json.go:36-89 | on the tokens of any tree followed by anything: accepts exactly when no object at any depth repeats a name, and consumes exactly the value |
| Jsonx.ValueParsed | internal/jsonx/json.go:36-89 | whatever token sequence is accepted is the tokens of one tree without repeated names |
| Jsonx.FineIff | internal/jsonx/json.go:36-89 | no repeated name at any depth, in other words: every object anywhere inside has different names |
| Jsonx.Decoder.Next | internal/jsonx/json.go:37-40 | the token cursor: the next token, or an error at the end that consumes nothing |
| Jsonx.ValidateValue | internal/jsonx/json.go:36-89 | the recursive pass accepts exactly where ValueEnd says and leaves the cursor there |
| Jsonx.CheckDocument | internal/jsonx/json.go:11-25 | accepts exactly when the bytes are valid UTF-8 and the tokens are one value with nothing behind it |
| Jsonx.DocumentsAreUnique | internal/jsonx/json.go:11-25 | an input passes exactly when it is the tokens of one tree in which no object repeats a name (section 4 of RFC 8259) |
| Utf8.ValidIffEncoded | internal/jsonx/json.go:12-14 | the byte ranges that utf8.Valid tests are exactly the encodings of sequences of Unicode scalar values (sections 3 and 4 of RFC 3629) |
| Utf8.EveryScalar | internal/jsonx/json.go:12-14 | every Unicode scalar value has an encoding of one to four bytes, and byte order is the order of the values (section 1 of RFC 3629) |
| Database.PutRowsSeen | internal/store/postgres.go:292-326 | a copy adds its rows to what the transaction sees of the dataset |
| Database.DeleteRowsSeen | internal/store/postgres.go:281-287 | after a delete the transaction sees no row of the dataset |
| Invariant.FindCurrent | internal/store/postgres.go:252-261 | looking a dataset up by provider id and key finds the current dataset of that identity and nothing else |
| Invariant.InsertProviderOk | internal/store/postgres.go:237-243 | given a code that the columns hold, after the insert the provider is committed or this transaction's own |
| Invariant.SelectProviderOk | internal/store/postgres.go:244-249 | the provider row is always found |
| Invariant.SelectDatasetOk | internal/store/postgres.go:251-263 | given a key that can be sent, finds and locks the dataset exactly when the identity exists |
| Invariant.InsertDatasetOk | internal/store/postgres.go:268-280 | given texts that the columns hold, no unique, foreign key, count or code-length constraint fails, and no table has rows of the new id |
| Invariant.DeleteObservationsOk | internal/store/postgres.go:281-284 | the old observations are gone, the rest of the old version is still there |
| Invariant.DeleteDimensionsOk | internal/store/postgres.go:285-287 | nothing of the old version is left |
| Invariant.InsertDimensionOk | internal/store/postgres.go:292-300 | position and key are free and the code's length allowed; the rows are the first i dimensions and the new one without categories |
| Invariant.CopyCategoriesOk | internal/store/postgres.go:301-311 | positions and keys are free and code lengths allowed; the rows are the first i + 1 dimensions |
| Invariant.CopyCellsOk | internal/store/postgres.go:316-326 | given texts and statuses that the columns hold, no observations constraint fails; the rows are exactly the replacement's cells |
| Invariant.UpdateDatasetOk | internal/store/postgres.go:327-342 | the row is there, and the answer is the one the serial history gives |
| Invariant.EraseObservationsOk | internal/store/postgres.go:367-378 | given keys that can be sent, the observations of the identity's dataset, if there is one, are gone |
| Invariant.EraseDatasetOk | internal/store/postgres.go:379-387 | given keys that can be sent, the dataset and its dimensions are gone; a missing dataset is no error |
| Statements.StatementOk | internal/store/postgres.go:228-389 | a statement of a running transaction leaves it in a state that satisfies its invariant, or ends it with the answer of the serial history, or is refused; it is refused only if something the operation sends is a text that is not UTF-8 or has a byte 0, or a stamp that jsonb does not hold |
| Commit.ReplaceCommits | internal/store/postgres.go:348-351 | committing a replacement leaves every dataset with the rows of exactly one replacement |
| Commit.DeleteCommits | internal/store/postgres.go:354-388 | committing a deletion leaves no row of its dataset in any table and every other dataset whole |
| Commit.OwnStays | internal/store/postgres.go:228-389 | what a running transaction has seen stays true when another identity's transaction commits |
| Safety.RunOk | internal/store/postgres.go:228-389 | every interleaving keeps the invariant, whatever lock keys collide |
| Liveness.WaitsOnlyForProvider | internal/migrations/sql/001_initial.sql:138-144 | past the advisory lock, row locks and the dataset identity constraint never make a transaction wait; only a new provider can |
| Liveness.BlockedOnlyTwice | internal/store/postgres.go:234-259 | a transaction in flight that cannot take its step waits, for the advisory lock or a new provider |
| Liveness.NoDeadlock | internal/store/postgres.go:234-259 | while anything is in flight, some transaction can take its next step |
| Liveness.EverybodyCanFinish | internal/store/postgres.go:228-389 | from every reachable state some schedule without aborts answers or refuses every operation in flight; if every text in flight is valid UTF-8 without byte 0 and jsonb holds every stamp, it answers all of them |
| Liveness.AdvanceSteps | internal/store/postgres.go:228-389 | a step of one transaction changes no other, and either leaves its operation in flight, adds its answer to the history, or records a refusal of something that could not be held |
| Liveness.NextDescends | internal/store/postgres.go:228-389 | every statement and every abort lowers the number of steps left |
| Liveness.RunsEnd | internal/store/postgres.go:228-389 | a run without arrivals is no longer than the steps its transactions have left |
| Refusal.AnsweredOrRefused | internal/store/postgres.go:228-389 | in every run, whatever was answered could be held at its place in the history and whatever was refused could not |
| Refusal.NeverStored | internal/store/postgres.go:268-342 | a replacement with a code, text or status in its contents that is not UTF-8 or has a byte 0, or with a stamp that jsonb does not hold, is never stored: its only possible answer is that the dataset exists |
| Refusal.NeverAnswered | internal/store/postgres.go:237-261 | an operation whose provider code or dataset key is not UTF-8 or has a byte 0 is answered in no run |
| Refusal.NeverRefusedIff | internal/store/postgres.go:228-389 | a submitted operation is refused in no run at all exactly when every text it carries (code, key, value or status) is the UTF-8 encoding of characters other than U+0000 and jsonb holds its stamp |
| Refusal.NulAccepted | internal/domain/payload.go:288-335 | a payload whose one text is a byte 0 is accepted |
| Refusal.NulRefused | internal/store/postgres.go:316-326 | what it parses to is refused on an empty store |
| Refusal.StrayDeletion | internal/httpapi/server.go:590-611 | a deletion under the path code `%FF` is submitted and refused |
| Refusal.StrayAccepted | internal/httpapi/server.go:276-286 | ParseReplacement accepts a payload under that path code when NormalizeCode keeps it |
| Refusal.StrayRefused | internal/store/postgres.go:237-243 | whatever the payload, it is refused on an empty store and answered in no run |
| History.HeldIsLastWrite | internal/store/postgres.go:330-351 | a dataset holds the last replacement answered with success since its creation |
| History.OneReplacement | internal/migrations/sql/001_initial.sql:138-144 | in every reachable state a dataset id has no row in any table, or exactly the rows and counts of one replacement: no orphans, no mixture, every index below cell_count = product of category counts |
| History.Serializable | internal/store/postgres.go:228-389 | committed tables are what the finished operations do one at a time in the order they ended, each answered (created, replaced, exists, deleted) as that order says |
| Answers.AnsweredAsHistorySays | internal/store/postgres.go:251-269 | in every run, by the history alone: a deletion is answered as done; a replacement as existing exactly when its dataset was stored and not deleted since and it may not replace; otherwise as stored, created exactly when it was not standing |
| Answers.AnswerTells | internal/store/postgres.go:327-351 | the summary of a stored replacement, field by field: the provider's first spelling, the dataset's at its creation, the stamp as jsonb spells it, the product of the category counts, the indexes with a number or a text, those with neither |
| Answers.SummaryTells | internal/migrations/sql/001_initial.sql:30-34 | the three counts of a stored row are those three numbers |
| Answers.ProviderSpelledFirst | internal/migrations/sql/001_initial.sql:20-21 | a provider is spelled as in the first replacement stored for it |
| Answers.DatasetSpelledAtCreation | internal/migrations/sql/001_initial.sql:49-50 | a dataset is spelled, and has the id, as at its creation |
| History.ProviderFixed | internal/migrations/sql/001_initial.sql:20-21 | a provider keeps the spelling of its first commit |
| History.DatasetFixed | internal/migrations/sql/001_initial.sql:49-50 | a dataset keeps its id and spelling from creation until deletion |
| History.SpellingsFixed | internal/store/postgres.go:237-288 | the same for the committed rows of any two states of a run |
| Snapshot.InOrder | internal/store/postgres.go:436-442 | `order by` a unique integer column: ascending, every key once |
| Snapshot.LoadStructure | internal/store/postgres.go:436-491 | two queries over dimension rows and category rows that refer to dimension ids: dimensions by position, each with exactly its own categories by position; no category refers to an unloaded dimension |
| Snapshot.TablesExist | internal/migrations/sql/001_initial.sql:64-108 | in every reachable state there are dimension rows with different ids, and category rows that refer to them, that hold exactly what was written, so what the readers assume of these tables can be met |
| Snapshot.LoadAllCells | internal/store/postgres.go:493-513 | ascending cells that hold exactly the observation rows |
| Snapshot.StructureReadBack | internal/store/postgres.go:436-491 | a list by position of the rows written for a structure is that structure |
| Snapshot.LoadDimensions | internal/store/postgres.go:436-462 | the dimensions in position order without categories, and for every id where its dimension is |
| Snapshot.GetSummaryAndId | internal/store/postgres.go:414-434 | a key that is not UTF-8 or has a byte 0 is a statement error; not found exactly when no row has both keys; otherwise the summary and id of that row |
| Snapshot.GetData | internal/store/postgres.go:144-166 | an error exactly for a key that is not UTF-8 or has a byte 0, not found exactly when the identity has no row; otherwise summary, structure and cells of one row |
| Snapshot.ViewIsOneReplacement | internal/store/postgres.go:144-166 | a view of any reachable state is exactly the replacement in force, with a summary that tells its spellings, stamp and counts field by field |
| Snapshot.StoredFits | internal/store/postgres.go:168-182 | what is in force has ascending keys and meets what Query requires and what DataResponse needs to succeed |
| Snapshot.Download | internal/presentation/presentation.go:49-77 | in any reachable state: no response exactly when the dataset does not exist; otherwise, never an error, identifiers, dimension indexes, channels and summary of the replacement in force |
| Snapshot.DownloadAndParse | internal/presentation/presentation.go:49-155 | the whole circle in any reachable state: a download is accepted as a replacement and parses to the identity, structure, cells and counts in force with a stamp that is the same jsonb value, and what it parses to is refused in no run |
| Snapshot.RestoredIsUnchanged | internal/store/postgres.go:228-351 | storing that again changes no row but the time: same id, spellings, stamp as jsonb spells it, counts, structure and cells, and the answer is the summary that was downloaded |
| Snapshot.FetchPayload | internal/store/postgres.go:168-226 | round trip in any reachable state: while a payload is in force, a query with its own structure is answered with exactly its populated cells at their original indexes |
| Snapshot.Fetch | internal/store/postgres.go:168-226 | a query in any reachable state: not found exactly when the dataset does not exist; otherwise decided by the selection and the limit alone, and answered with the summary and the renumbered cells of the replacement in force |

## Left out

- HTTP routing, authorization, headers, logging, timeouts, configuration: branch facts without state.
- Unicode trimming, NFKC and case folding (internal/domain/normalize.go): `Normalizer` is an arbitrary fixed partial function from spellings to keys of 1 to 256 bytes, which is what its length tests leave.
- JSON lexing, struct decoding and float parsing or printing: channels arrive as values; `Number` is an opaque equality type, so the finite-number checks of the parser and the schema are outside, as are signed zeros.
- The decoder's own errors and depth limit: the pass over tokens ends only at the end of the input. The tokens of a document are given beside its bytes.
- SHA-256 in `advisoryKey`: the lock key is an arbitrary function, so the results hold under collisions.
- SQL text, connection pools, hash partitions, `clock_timestamp` and `updatedAt`.
- What jsonb does inside: it is an arbitrary partial function from JSON texts to its own spelling of them that leaves its own spelling alone. How encoding/json spaces a stamp in a response is any respelling of the same jsonb value.
- A commit whose outcome the client does not learn: an abort here is an abort.
- Drawing dimension ids: on the write side a dimension row holds its categories, which arrive and go with it; the read side has dimension rows with any different ids and category rows that refer to them.
- `ListProviders`, `ListDatasets`, `GetSummary`, `GetStructure`: single statements, or parts of `GetData`.
- `SelectionDimension` and `requestDimension` are one datatype, `RequestDimension`.
- Replace and Delete are a transition system over values rather than methods: their interleaving is the point, and a step of theirs changes shared tables between steps of others.
- Local Go slices are sequences that are assigned by index, except in Strides and Coordinates; aliasing of slices is not modelled. `sort.Slice` is the insertion sort `Ordering.Sort`; on keys without ties every sort gives the same list.
- Statement errors other than those of the modelled constraints and column types (disk full, out of memory), cancellations and failed checkpoints are the abort event, which is possible between any two statements but does not say which one failed.
