# ThrusterDB bulk ingestion, `Component` and dataset converters, in Dafny

This project models three parts of the ThrusterDB JavaScript driver's repository:

- **The bulk-ingestion pipeline** of the two experiment scripts
  `experiments/pokec/pokec-graph-bulk-edges.js` and
  `experiments/twitter/twitter-graph-populate-edges.js`.
  - Each edge key of a data file becomes a `KNOWS` operation whose id is `parseInt(key) + offset`.
  - Operations are buffered with `pushOperation`.
  - `_bulk` turns the buffer into the wire array of `buildBulkOperations` and sends it through `bulkESRequest`. The request travels over a socket whose only resolver slot is `bulk1`.
  - `insertDeleteVertices` drains the keys in slices of 500.
  - `doLoop` processes the input files one after the other.
  - The two scripts are modelled once, parameterised by a `Flavor`, since they differ in exactly two places: what `_bulk` does with a refused id, and how the offset is read.
- **`lib/core/data_structures/component.js`**, the base class of graphs, vertices and edges. The model covers:
  - the constructor defaults;
  - the property, computed and meta maps;
  - the two validators;
  - the object `persist` serialises;
  - the payload `destroy` chooses;
  - the short-cut taken when the connection's bulk area is open.
- **The three dataset converters** under `experiments/biogrid` and `experiments/movies`.
  - They intern names or `*Id` keys to consecutive vertex numbers.
  - They resolve edge endpoints through those numbers.

Module layout:

| module | file | contents |
|---|---|---|
| `Wrappers` | `wrappers.dfy` | `Option`, `Result` |
| `Decimal` | `decimal.dfy` | `Number.prototype.toString` on safe integers (plain digits), with an independent parser |
| `BulkOps` | `bulk_ops.dfy` | key to operation, wire tuples, `buildBulkOperations` |
| `Router` | `router.dfy` | `bulkESRequest` with the `limit` counter, and the `message` handler |
| `DrainLoop` | `drain.dfy` | `_bulk` and `insertDeleteVertices` as functions over a channel state |
| `DrainLemmas` | `drain_lemmas.dfy` | properties of the drain |
| `SourceLemmas` | `source_lemmas.dfy` | properties of the drain of one source |
| `FileLoop` | `file_loop.dfy` | `doProcess` and `doLoop` |
| `LoopLemmas` | `file_loop_lemmas.dfy` | properties of the loop |
| `Components` | `component.dfy` | `Component` |
| `ComponentLemmas` | `component_lemmas.dfy` | properties of `Component` |
| `Interning` | `interning.dfy` | the name table the two biogrid converters share |
| `Biogrid` | `biogrid.dfy` | the first biogrid converter |
| `Biogrid2` | `biogrid2.dfy` | the second biogrid converter |
| `Movies` | `movies.dfy` | the movies converter |
| `MoviesLemmas` | `movies_lemmas.dfy` | properties of the movies converter |

**How the pipeline is modelled:**

- The channel is the state the scripts keep in module variables:
  - the buffer `bulkOperations`;
  - the counter `current`;
  - the router, holding `counter` and the single callback slot;
  - the envelopes written to the socket;
  - the replies the socket will deliver.
- A reply is the oracle that decides whether a sent request is ever answered:
  - a frame with a callback index;
  - or silence, which means the request stalls;
  - or an index with no callback and no inherited `Object.prototype` method of that name, whose `callbacks[...]()` throws and ends the process.
- `bulkESRequest` never rejects in the code, so a send either resolves or never settles.

**Behaviour of the scripts the model follows:**

- The buffer is cleared only after a flush resolves. While the flush waits for its reply, the buffer still holds the operations sent.
- A twitter flush refused for a non-integer id keeps the buffer. So once a bad operation is buffered, every later flush of that source rejects as well.
- pokec's `_bulk` calls `buildBulkOperations` without a reject callback, so a bad id throws `TypeError`.
  - When this happens in the first slice, the throw is inside `doProcess`'s promise executor, and the source rejects.
  - In a later slice, the throw is inside a `then` callback, and the source never settles.
- `doLoop` advances only when a source resolves. A rejected source halts the remaining inputs.
- Every request uses the fixed callback index `bulk1`, so a later request takes over the slot of an earlier one.
  - A frame whose index is neither `bulk1` nor the name of an inherited `Object.prototype` method calls `undefined`, which throws and ends the process.
  - A request past `limit` (10,000,000) is never written and never settles.
- `current` counts keys as they are pushed, and it is never reset between files.
- A file with no keys still makes one flush. That flush resolves at once without sending anything, so `ceil(N / 500)` counts the flushes only for `N > 0`.

## Model

| member | source | states |
|---|---|---|
| Decimal.RoundTrip | experiments/biogrid/biogrid2-generate-vertices-edges.js:38 | the decimal text an integer id is sent as parses back to that integer, so the text loses nothing |
| Decimal.Injective | experiments/biogrid/biogrid2-generate-vertices-edges.js:37-38 | different integers render as different texts, so no two vertex numbers share a key of `verticesJSON` |
| BulkOps.AddOffset | experiments/pokec/pokec-graph-bulk-edges.js:145 | `parseInt(key) + offset` is an integer exactly when the key parses and the offset is a number, and then equals their sum; otherwise it is NaN or a string concatenation |
| BulkOps.EntryToOp | experiments/pokec/pokec-graph-bulk-edges.js:139-163 | each key pushes one operation into the configured graph and type, `ex_persist` for persist and `ex_destroy` otherwise, labelled `KNOWS`, with `source`/`target` from the edge and the offset id |
| BulkOps.SliceOpsAt | experiments/pokec/pokec-graph-bulk-edges.js:139-165 | the i-th key of a slice pushes the i-th operation, one per key |
| BulkOps.SliceOpsConcat | experiments/pokec/pokec-graph-bulk-edges.js:139-165 | pushing two slices in turn buffers the operations of their concatenation |
| BulkOps.TupleOf | experiments/twitter/twitter-graph-populate-edges.js:191-237 | a persist with an integer id becomes an `index` tuple, a destroy becomes a `delete` tuple whatever its id, and a refused persist or any other operation contributes nothing |
| BulkOps.BuildRefusal | experiments/twitter/twitter-graph-populate-edges.js:200-210 | `buildBulkOperations` reports a refusal exactly when some persist has a non-integer id, and the reported id is that of the last such persist |
| BulkOps.BuildConcat | experiments/pokec/pokec-graph-bulk-edges.js:208-253 | the wire array of a concatenation is the concatenation of the wire arrays: order is preserved |
| BulkOps.IndexIdRoundTrip | experiments/pokec/pokec-graph-bulk-edges.js:233-234 | the id text of an `index` tuple reads back as the operation's integer id |
| BulkOps.BuildAllValid | experiments/pokec/pokec-graph-bulk-edges.js:208-253 | with no refused persist, there is exactly one tuple per operation, in order, and no refusal |
| Router.RequestsInOrder | experiments/pokec/pokec-graph-bulk-edges.js:95-121 | a run of requests within `limit` writes one `bulk1` envelope per request, carrying that request's operations, in call order after what was already written; the counter advances by one per request, and a `bulk1` frame then resolves the last request |
| Router.SecondRequestShadowsFirst | experiments/pokec/pokec-graph-bulk-edges.js:114-117 | after a second request, every `bulk1` frame resolves the second, so the first never settles |
| Router.OverLimitNeverSettles | experiments/pokec/pokec-graph-bulk-edges.js:98-118 | a request past the limit writes nothing, and no frame can resolve it |
| DrainLoop.Flush | experiments/twitter/twitter-graph-populate-edges.js:243-292 | `_bulk` keeps `current`; an empty buffer resolves at once without sending; the buffer is emptied only when the flush resolves and is kept otherwise |
| DrainLoop.PushAppends | experiments/pokec/pokec-graph-bulk-edges.js:128-165 | after a slice the buffer is the old buffer followed by one operation per key, the i-th built from the i-th key |
| DrainLoop.FlushRefuses | experiments/twitter/twitter-graph-populate-edges.js:245-257 | a flush refuses exactly when the buffer holds a refused persist: twitter rejects and pokec throws, and either way nothing is written or changed |
| DrainLoop.FlushSends | experiments/pokec/pokec-graph-bulk-edges.js:259-296 | a flush writes at most one envelope, carrying the buffer's wire array, and empties a non-empty buffer only after that envelope was answered |
| FileLoop.DoLoop | experiments/pokec/pokec-graph-bulk-edges.js:333-345 | no input means no run; otherwise between one and all inputs are processed |
| DrainLemmas.DrainOutcome | experiments/pokec/pokec-graph-bulk-edges.js:168-198 | the source settles exactly as its last flush did |
| DrainLemmas.DrainContinues | experiments/twitter/twitter-graph-populate-edges.js:151-181 | a failed batch does not stop the drain: every flush before the last one settled, resolved or rejected |
| DrainLemmas.DrainCoversAll | experiments/pokec/pokec-graph-bulk-edges.js:180-192 | when every flush settles, the slices pushed concatenate back to the keys, in order |
| DrainLemmas.DrainCovers | experiments/pokec/pokec-graph-bulk-edges.js:139-192 | the pushed slices are a prefix of the keys, all of them once the source settles, and `current` grows by one per pushed key |
| DrainLemmas.DrainSlices | experiments/pokec/pokec-graph-bulk-edges.js:180-192 | every slice after the first holds 1 to 500 keys, and all but the last hold exactly 500 |
| DrainLemmas.DrainCount | experiments/twitter/twitter-graph-populate-edges.js:151-181 | when every flush settles, there is one flush for the first slice and one per 500 keys of the rest, rounded up |
| DrainLemmas.FlushPoisoned | experiments/twitter/twitter-graph-populate-edges.js:245-257 | twitter: a buffer holding a refused persist makes the flush reject and changes nothing |
| DrainLemmas.DrainResolvedEmpties | experiments/pokec/pokec-graph-bulk-edges.js:280-290 | a drain that resolves ends with an empty buffer |
| DrainLemmas.DrainPoisoned | experiments/twitter/twitter-graph-populate-edges.js:170-181 | twitter: once a refused persist is buffered, every later flush of the source rejects and the source rejects |
| DrainLemmas.DrainPoisonedKeepsBuffer | experiments/twitter/twitter-graph-populate-edges.js:170-181 | twitter: after a refused id nothing more is sent, and the buffer ends holding every operation of the source, the refused one included |
| DrainLemmas.DrainPokecThrows | experiments/pokec/pokec-graph-bulk-edges.js:218-224 | pokec: a refused persist makes `_bulk` throw; the source rejects when this happens in the first slice and never settles otherwise, with nothing sent and the buffer kept |
| DrainLemmas.FlushAnswered | experiments/pokec/pokec-graph-bulk-edges.js:276-290 | a non-empty buffer with no refused persist, within the limit and answered, is sent as one envelope and emptied |
| DrainLemmas.StepAnswered | experiments/pokec/pokec-graph-bulk-edges.js:136-198 | one pass over valid keys from an empty buffer, when answered, sends one envelope, resolves and empties the buffer |
| DrainLemmas.DrainAllAnswered | experiments/pokec/pokec-graph-bulk-edges.js:136-198 | with valid keys and every envelope answered, every flush resolves and the source resolves with an empty buffer, drawing one request number per flush |
| DrainLemmas.DrainAnsweredSends | experiments/pokec/pokec-graph-bulk-edges.js:95-121 | under the same conditions, one envelope per slice is written, in order, each carrying exactly that slice's operations |
| SourceLemmas.SourceSettlesAsLastFlush | experiments/pokec/pokec-graph-bulk-edges.js:310-328 | the source settles as its last flush did; only a throw in the very first flush rejects it with the TypeError |
| SourceLemmas.SourceSlices | experiments/pokec/pokec-graph-bulk-edges.js:303 | keys are pushed in slices of at most 500, all but the last full and none empty unless the file has no key |
| SourceLemmas.SourceCovers | experiments/pokec/pokec-graph-bulk-edges.js:318 | the pushed slices are a prefix of `Object.keys`, all of it when the last flush settled, and `current` grows by one per pushed key |
| SourceLemmas.SourceFlushCount | experiments/twitter/twitter-graph-populate-edges.js:151-181 | when every flush settles, N keys make `ceil(N / 500)` flushes, and an empty file makes one |
| SourceLemmas.EmptySource | experiments/twitter/twitter-graph-populate-edges.js:259-270 | an empty file with an empty buffer resolves at once, with nothing sent and nothing changed |
| SourceLemmas.SourceAllAnswered | experiments/pokec/pokec-graph-bulk-edges.js:310-328 | with valid keys and every envelope answered, every flush resolves, the source resolves with an empty buffer, and its envelopes are one per slice, in order, each carrying that slice's wire array |
| SourceLemmas.EnvelopesAt | experiments/pokec/pokec-graph-bulk-edges.js:95-121 | the i-th envelope belongs to the i-th slice |
| SourceLemmas.EnvelopeCarriesSlice | experiments/pokec/pokec-graph-bulk-edges.js:208-253 | the envelope of a slice of valid keys carries one tuple per key, in order: an `index` tuple with the key's id as decimal text for a persist, a `delete` tuple for a destroy |
| SourceLemmas.TwitterNaNOffset | experiments/twitter/twitter-graph-populate-edges.js:311 | twitter with an offset `parseInt` cannot read: every persist id is NaN, every flush rejects, the source rejects, and nothing is ever sent |
| SourceLemmas.SourceResolvedAll | experiments/twitter/twitter-graph-populate-edges.js:151-169 | a resolved source pushed and counted every key and left the buffer empty for the next file |
| FileLoop.ResolveOffset | experiments/twitter/twitter-graph-populate-edges.js:311 | pokec keeps `data.offset` as given; twitter's offset is always a number or NaN: the number `parseInt` reads from the text, and NaN when it reads nothing or the offset is absent |
| LoopLemmas.LoopRunsInOrder | experiments/pokec/pokec-graph-bulk-edges.js:333-345 | the i-th source processed is the i-th input, started from the channel the previous one left, and every source but the last resolved |
| LoopLemmas.LoopStatusIsLastOutcome | experiments/twitter/twitter-graph-populate-edges.js:329-345 | the loop finishes exactly when every input was processed and the last resolved; it halts on a rejected source, waits on one that never settles, and dies with the process |
| LoopLemmas.LoopStartsEmpty | experiments/pokec/pokec-graph-bulk-edges.js:280-290 | every source after the first starts with an empty buffer |
| LoopLemmas.LoopCountsAllKeys | experiments/pokec/pokec-graph-bulk-edges.js:75 | `current` is never reset: after every input it has grown by the total number of keys |
| LoopLemmas.PokecTable | experiments/pokec/pokec-graph-bulk-edges.js:43-60 | sixteen files with offsets `2000000 * i`, so every key `parseInt` reads gets an integer id |
| LoopLemmas.TwitterOffsetIsNumberOrNaN | experiments/twitter/twitter-graph-populate-edges.js:128 | the twitter offset is never a string, so `parseInt(key) + offset` is never a concatenation |
| Components.New | lib/core/data_structures/component.js:24-45 | a falsy `id` or `label` (0 and "" included) becomes `null` and a truthy one is kept; a given `prop`, `computed` or `meta` map is kept and an absent one becomes empty; `debug` is copied; the parent is the given graph, or the component itself |
| Components.ValidatePropAndVal | lib/core/data_structures/component.js:200-210 | accepts exactly a string name with a boolean, number, string, date, array or object value; a non-string name is reported before the value |
| Components.ValidateAlgoType | lib/core/data_structures/component.js:194-198 | accepts exactly a string algorithm name |
| Components.SetProperty | lib/core/data_structures/component.js:96-102 | succeeds exactly when the name and value validate, and then sets that one entry and changes nothing else |
| Components.GetProperty | lib/core/data_structures/component.js:104-109 | throws exactly for a non-string name |
| Components.RemoveProperty | lib/core/data_structures/component.js:111-117 | throws exactly for a non-string name, and otherwise removes only that entry |
| Components.SetComputed | lib/core/data_structures/component.js:127-140 | succeeds exactly when the algorithm, name and value validate, the algorithm being checked first; adds at most the algorithm's bucket and changes nothing but `computed` |
| Components.GetComputed | lib/core/data_structures/component.js:142-159 | returns a value exactly when both names are strings, the bucket exists and the stored value is truthy, and then it returns the stored value |
| Components.RemoveComputed | lib/core/data_structures/component.js:161-176 | succeeds exactly when `getComputed` would; deletes that one entry and keeps the bucket; every other bucket, and every other entry of this one, keeps its value |
| Components.GetMeta | lib/core/data_structures/component.js:184-190 | throws exactly for a non-string name, and otherwise returns the stored value or `undefined` |
| Components.Dispatch | lib/core/data_structures/component.js:253-267 | pushes into the bulk area exactly when it is open, otherwise calls the RPC, and throws when there is no connection to ask |
| Components.Persist | lib/core/data_structures/component.js:216-229 | throws when the parent graph has no label; for a graph the id becomes the label; no other field changes |
| Components.Destroy | lib/core/data_structures/component.js:276-334 | a graph given a valid component type destroys by lowered type and filter; otherwise a component with an id destroys itself; otherwise it throws |
| ComponentLemmas.SetThenGetProperty | lib/core/data_structures/component.js:96-109 | after `setProperty(p, v)`, `getProperty(p)` returns `v`, and every other name reads as before |
| ComponentLemmas.RemoveThenGetProperty | lib/core/data_structures/component.js:104-117 | after `removeProperty(p)`, `getProperty(p)` is `undefined`, and every other name reads as before |
| ComponentLemmas.SetThenGetComputed | lib/core/data_structures/component.js:127-159 | a computed value reads back exactly when it is truthy; a stored 0, false, "" or NaN reads as not present |
| ComponentLemmas.SetComputedFrame | lib/core/data_structures/component.js:127-140 | `setComputed` changes no other entry, and a bucket it creates holds only the new entry |
| ComponentLemmas.GetComputedErrors | lib/core/data_structures/component.js:142-159 | "algorithm not present" is thrown exactly for an algorithm without a bucket, and "property not present" for a missing or falsy entry of an existing bucket |
| ComponentLemmas.RemoveComputedFrame | lib/core/data_structures/component.js:161-176 | after `removeComputed(a, p)`, `getComputed` on any other algorithm and property returns or throws as before |
| ComponentLemmas.RemoveComputedKeepsBucket | lib/core/data_structures/component.js:161-176 | after `removeComputed`, the bucket remains and `getComputed` reports the property, not the algorithm, as missing |
| ComponentLemmas.HasDoubleUnderscoreAt | lib/core/data_structures/component.js:234 | `includes('__')` holds exactly when two adjacent underscores occur |
| ComponentLemmas.SerializeKeys | lib/core/data_structures/component.js:232-237 | a name is in the object exactly when some field without `__` renames to it by dropping its first character |
| ComponentLemmas.SerializeLastWins | lib/core/data_structures/component.js:232-237 | the value under a name is that of the last field renaming to it |
| ComponentLemmas.SerializeComponent | lib/core/data_structures/component.js:232-237 | a component serialises to exactly `id`, `label`, `prop`, `computed` and `meta`, from `_id`, `_label`, `_prop`, `_computed` and `_meta`; the `__` fields are left out |
| ComponentLemmas.PersistPayload | lib/core/data_structures/component.js:216-268 | with a label, `persist` sends the serialised component to `ex_persist` under the graph's label and the component's type, pushing and returning nothing when the bulk area is open |
| ComponentLemmas.DestroyBulkOpen | lib/core/data_structures/component.js:320-324 | with the bulk area open, `destroy` pushes its message and returns nothing, and a missing id still throws because the payload is chosen first |
| ComponentLemmas.DestroyByTypeFilter | lib/core/data_structures/component.js:286-300 | a graph destroying by type passes the filter `getFilters` extracts, or the falsy filter as given |
| ComponentLemmas.LowerAt | lib/core/data_structures/component.js:298 | `toLowerCase` maps each character on its own |
| ComponentLemmas.LowerIdempotent | lib/core/data_structures/component.js:298 | a lowered type has no upper-case letter left, and lowering it again changes nothing |
| ComponentLemmas.NewIsOwnParent | lib/core/data_structures/component.js:31 | a component built without a graph is its own parent, so its own label is the one `persist` checks and sends |
| Interning.Intern | experiments/biogrid/biogrid-generate-vertices-edges.js:26-36 | a known name keeps its number and changes nothing; a new name gets the counter's value and the counter advances; no other entry changes |
| Interning.InternKeeps | experiments/biogrid/biogrid-generate-vertices-edges.js:26-48 | a lookup keeps the table numbering the names by first appearance, and the name is new exactly when it had not appeared |
| Interning.InternsNumbering | experiments/biogrid/biogrid-generate-vertices-edges.js:30-35 | such a table gives distinct names distinct numbers in `1 .. current - 1`, each number leading back to its name |
| Interning.OrderOfMembers | experiments/biogrid/biogrid-generate-vertices-edges.js:24-48 | the names in order of first appearance are exactly the names some record mentions |
| Interning.NumberedAdd | experiments/biogrid/biogrid-generate-vertices-edges.js:32-33 | storing under the next number's text overwrites no earlier vertex |
| Biogrid.Visit | experiments/biogrid/biogrid-generate-vertices-edges.js:24-57 | one record appends one edge between the numbers of its names and keeps every existing number; a record of known names adds no vertex and changes none |
| Biogrid.ConvertCorrect | experiments/biogrid/biogrid-generate-vertices-edges.js:24-57 | after the whole input the table numbers names by first appearance, `verticesJSON` labels each number with its name, and there is one edge per record |
| Biogrid.NumberingByFirstAppearance | experiments/biogrid/biogrid-generate-vertices-edges.js:24-48 | the names in order of first appearance, source before destination, are numbered 1, 2, 3, ...; the table holds exactly the input's names and is injective |
| Biogrid.VerticesLabelled | experiments/biogrid/biogrid-generate-vertices-edges.js:30-34 | `verticesJSON` holds each name's vertex under its number's text, labelled with the name |
| Biogrid.EdgesFollowRecords | experiments/biogrid/biogrid-generate-vertices-edges.js:50-55 | one edge per record, in order, between the numbers of its names, labelled with the interaction |
| Biogrid.CountersOverstateByOne | experiments/biogrid/biogrid-generate-vertices-edges.js:59-60 | the logged totals are the number of distinct names plus one and the number of records plus one |
| Biogrid.SelfLoop | experiments/biogrid/biogrid-generate-vertices-edges.js:26-48 | a record whose names are equal creates at most one vertex, and its edge is a self-loop |
| Biogrid2.AddVertex | experiments/biogrid/biogrid2-generate-vertices-edges.js:31-44 | a lookup keeps every number, only appends to the vertex array, and changes nothing for a known name |
| Biogrid2.Visit | experiments/biogrid/biogrid2-generate-vertices-edges.js:29-68 | one record appends one edge labelled with its detection method between the numbers of its names, keeping earlier numbers and vertices |
| Biogrid2.FirstLabelKept | experiments/biogrid/biogrid2-generate-vertices-edges.js:31-33 | a later record never changes the label of a name already seen |
| Biogrid2.ConvertCorrect | experiments/biogrid/biogrid2-generate-vertices-edges.js:29-68 | after the whole input, table, vertex array, vertex object and edges are all built as the records say |
| Biogrid2.NumberingByFirstAppearance | experiments/biogrid/biogrid2-generate-vertices-edges.js:29-59 | numbering is as in the first converter: consecutive from 1, first appearance, source before destination, injective |
| Biogrid2.VertexRecords | experiments/biogrid/biogrid2-generate-vertices-edges.js:37-41 | a name's vertex has its number's text as `id`, the name, and the interactor type of the first record mentioning it; `arrVerticesNeo4jJSON` lists one vertex per name in number order, and `verticesJSON` holds each under its `id` |
| Biogrid2.EdgesFollowRecords | experiments/biogrid/biogrid2-generate-vertices-edges.js:61-66 | one edge per record, in order, between the numbers of its names, labelled with the detection method |
| Biogrid2.CountersOverstateByOne | experiments/biogrid/biogrid2-generate-vertices-edges.js:70-71 | the logged totals are the counts plus one |
| Movies.VertexOf | experiments/movies/movies-generate-vertices-edges.js:46-52 | a vertex holds every field of its item; `id` and `label` are the number and the file's label unless the item has fields of those names |
| Movies.AddItem | experiments/movies/movies-generate-vertices-edges.js:44-56 | an item is added exactly when each of its `Id` fields names an existing index, and the vertex counter advances by one |
| Movies.LoadFile | experiments/movies/movies-generate-vertices-edges.js:36-58 | a file adds its id field's index and one vertex per item |
| Movies.AddEdge | experiments/movies/movies-generate-vertices-edges.js:70-77 | an edge is added exactly when both named indexes exist, under the next number, changing no other edge, vertex or index |
| MoviesLemmas.AddItemIndexed | experiments/movies/movies-generate-vertices-edges.js:53-55 | one item keeps every index pointing at the last vertex, since the index's reset, whose field has the key |
| MoviesLemmas.GetNodesBuilt | experiments/movies/movies-generate-vertices-edges.js:34-60 | the node files build one vertex per item, numbered across the files in order, and indexes holding what was written since each field's last reset |
| MoviesLemmas.GetNodesOk | experiments/movies/movies-generate-vertices-edges.js:39-54 | `getNodes` runs to the end exactly when every `Id` field of every item is the id field of its own file or an earlier one, and otherwise throws `TypeError` |
| MoviesLemmas.GetEdgesOk | experiments/movies/movies-generate-vertices-edges.js:62-80 | `getEdges` runs to the end exactly when every relationship file with items names two existing indexes |
| MoviesLemmas.RunOk | experiments/movies/movies-generate-vertices-edges.js:91-94 | the script runs to the end exactly when the node items' `Id` fields are initialised and every non-empty relationship file names configured id fields; otherwise it throws `TypeError` |
| MoviesLemmas.Totals | experiments/movies/movies-generate-vertices-edges.js:101-102 | the logged totals equal the counts exactly: vertices `1 .. currentVertex` one per node item, edges `1 .. currentEdge` one per relationship item |
| MoviesLemmas.VertexContents | experiments/movies/movies-generate-vertices-edges.js:45-56 | vertex k is made from the k-th node item across the files |
| MoviesLemmas.IndexLookup | experiments/movies/movies-generate-vertices-edges.js:74-75 | an index lookup finds the last vertex since the reset whose field has that key, or `undefined` when there is none |
| MoviesLemmas.EdgeEndpoints | experiments/movies/movies-generate-vertices-edges.js:70-77 | edge k is made from the k-th relationship item: its label is the relationship's, and each endpoint is the last matching vertex since that index's reset, or `undefined` |
| MoviesLemmas.ConfiguredListing | experiments/movies/movies-generate-vertices-edges.js:16-20 | with the configured files, vertices are numbered through genres, then films, then directors |
| MoviesLemmas.ConfiguredRelListing | experiments/movies/movies-generate-vertices-edges.js:21-24 | with the configured files, edges are numbered through director-film pairs, then film-genre pairs |
| MoviesLemmas.ConfiguredRunOk | experiments/movies/movies-generate-vertices-edges.js:16-24 | with the configured files, the script throws exactly when a genre has an `Id` field other than `genreId`, a film one other than `genreId`/`filmId`, or a director one outside the three |

## Left out

- The WebSocket transport (`uws`, `ws.send`, the open, error and close handlers) is not modelled. A send is an envelope appended to a list, and each reply is a value of an oracle sequence.
- `JSON.stringify` and `JSON.parse` are not modelled. Envelopes, tuple bodies and frames are datatypes.
- The progress tick (`Math.floor(current / total * 100)`, floating point), `total`, the commented-out progress bar, `console` logging and timing, and `process.exit` are observational only. A loop that has processed every input ends with the status "all done".
- Loading data files with `require`, `Object.keys` ordering, and writing results with `fs.writeFile` are file I/O. The keys and items are parameters, in the order the script would see them.
- The twitter command-line override of the input table (experiments/twitter/twitter-graph-populate-edges.js:351-361) is argument handling. The input table is a parameter of `DoLoop`.
- `parseInt` is a parameter: a partial function from text to integer. JavaScript's conversion of a value to a property name is a parameter of the movies converter.
- `Message.buildMessage`, `_rpc.call` and what its reply does (the asynchronous `setId`), `uuid.v1` (a parameter), Joi validation in `validate` and the trivial getters and setters are foreign calls or have no logic to state. The model records which message is built and where it is sent.
- Components.SetProperty, Components.RemoveProperty and Components.SetComputed: `properties()` and `computed()` call `Object.freeze` on `_prop` and `_computed` in place (lib/core/data_structures/component.js:91-93, 121-123), and the file is strict code. After such a call, `setProperty`, `removeProperty` and a `setComputed` that creates a bucket throw `TypeError`. The model has no frozen state, so these operations succeed there as they would before any freeze. `getMeta` likewise freezes the object value it returns, which the model does not track either.
- `_validateCmp` and `getFilters` are not defined in `component.js`. They are parameters of `Destroy`.
- The biogrid object `edgesJSON` holds the same edges as `arrEdgesJSON`, keyed by their number. Only the array is modelled.
- `__proto__`, `constructor` and other inherited property names, which make `hasOwnProperty`, `keys[...]` and `callbacks[...]` behave differently, are not modelled. Neither are non-integer numbers as ids.
- Router.Deliver: a frame whose index names an inherited `Object.prototype` method (`toString`, `valueOf`, `hasOwnProperty`, `constructor`, ...) calls that method, which does not throw, so the script ignores the frame and the request keeps waiting; the model, and the crashed branch of `DrainLoop.Flush`, treat every index other than `bulk1` as one that ends the process.
- BulkOps.IndexIdRoundTrip: ids are exact integers, and so are `BulkOps.AddOffset`'s sum and `Decimal.IntToDecimal`'s text. This agrees with JavaScript's doubles only for safe integers (magnitude below 2^53). Above that, `parseInt(key) + offset` rounds, and from 10^21 up `toString` prints exponent form (`1e+21`), so the id text would not read back as the sum.
- Components.ValidatePropAndVal: every object value is accepted, including one made with a null prototype, which `instanceof Object` rejects; prototypes are not modelled.
- Biogrid.Visit and Biogrid2.Visit: interactor names are strings. A name the JSON gives as a number shares the key of `h` with its decimal text but is stored as that number in the vertex's `label` or `name`; as with the movies converter's property names, this conversion is not modelled.
- `experiments/compute-neo4j-rest.js`, `experiments/graph-compute.js`, `experiments/biogrid/biogrid3/biogrid-graph-delete.js` and `lib/core/data_structures/enums.js` are not part of this model: HTTP polling, thin drivers over code not shown, and a constant table.
- Components.Lower: models `toLowerCase` on ASCII letters only; other Unicode case mappings are not modelled.
- Movies.AddItem: the `TypeError` text of the model is a fixed message, not the engine's wording; and `vertices` and `edges` are keyed by their numbers rather than by the numbers' decimal text, which is equivalent because `Decimal.Injective` holds.
- Movies.Run: the fields of an item are taken as a map, so the order `for...in` visits them is not modelled; within one item the fields have different names, so the result does not depend on that order.
