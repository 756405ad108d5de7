# tauri-rustdocs-candle: the documentation semantic index, in Dafny

This project models the core of a desktop application and MCP server that indexes Rust crate
documentation for semantic search. It covers four parts:

- **The rustdoc normaliser** (`rustdoc_processor.dfy`, module `Rustdoc`). It turns the rustdoc
  JSON tree into a flat catalog of `DocItem`s keyed by their `::`-joined full path. A module
  whose path already ends in its own name does not repeat the name. Records without a string
  `name` are dropped. The module also derives the crate name used for the output file.
- **Ingestion and the project map** (`index.dfy`, module `Index`). `ComputeEmbeddings` selects
  the items whose description is not blank, sends one text per item to the embedder in one batch,
  and zips the vectors with the item paths. It is best effort: a missing embedder or a failed
  batch gives an empty map. The `AppState` class holds the map of processed projects, keyed by
  the caller's path string, and `Upsert` is last-write-wins. The same module holds the raw item
  lookup and the query engine:
  - a filter on the project key;
  - scoring of every embedded key that has a catalog entry;
  - a stable descending sort;
  - truncation to `num_results`.
- **The two front ends.**
  - `mcp_server.dfy` (module `McpServer`) is the MCP tool handler: dispatch on the tool name,
    the `[DOCS]` embedding template, and a 150-character snippet followed by `...`.
  - `commands.dfy` (module `Commands`) holds the desktop commands: the
    `Crate:/Item:/Type:/Docs:` template, a 300-character snippet with no ellipsis, and the
    project list.
- **The embedder** (`embedder.dfy`, module `Embedding`). It covers:
  - `embed_batch`, including its empty-batch short cut and its per-input loop;
  - `embed_sentence`, a one-element batch;
  - the process-wide `Option<Embedder>` slot (class `EmbedderSlot`), whose initialisation is
    idempotent;
  - the set of sharded weight file names read from `weight_map`.

Supporting modules:

- `json.dfy`: the parsed JSON value tree.
- `text.dfy`: `trim`.
- `similarity.dfy`: the guarded cosine similarity on `seq<real>`, with the square root as a
  parameter.
- `ranking.dfy`: a stable insertion sort by descending key, `take` (on hits and on characters), and top-k lemmas.
- `collections.dfy`: two cardinality facts about maps and sets.
- `wrappers.dfy`: `Option` and `Result`.

The outside world is made into parameters:

- `Index.Environment` gives the directory check (`exists() && is_dir()`) and the outcome of
  running rustdoc and reading its JSON. The outcome is generation failure, read failure, or the
  parsed tree. A read failure stands both for a file that cannot be read and for text that is
  not JSON (`serde_json::from_str`, `rustdoc_processor.rs:183-184`): both end in the same
  parsing error.
- `Embedding.Embedder` holds an opaque tokenizer and an opaque forward pass.
- `EmbedderSlot.Init` receives the outcome of `Embedder::new()`.
- The square root used by the similarity is a function parameter.

Both front ends run the same `Index.Ingest` and `Index.RankHits`. The source repeats that logic
in `mcp_server.rs` and `commands.rs`; the model states it once and gives each front end its own
template, snippet rule and error values. The cosine similarity likewise appears twice in the
source (`mcp_server.rs:72-88` and `commands.rs:111-117`, with the same behaviour) and once in the
model, as `Similarity.Cosine`.

`QueryDocResultItem` is defined once, in `Index`. The two front ends fill it differently:
- `McpServer.ResultOf` reports the catalog entry's `full_path_str` and the 150-character snippet
  with `...`;
- `Commands.ResultOf` reports the embedding key and the 300-character snippet.

## Model

| member | source | states |
|---|---|---|
| Rustdoc.ReplaceHyphensPointwise | src-tauri/src/rustdoc_processor.rs:101 | `replace("-", "_")` keeps the length, leaves no hyphen, turns each hyphen into `_` and keeps every other character in place |
| Rustdoc.ReplaceHyphensIdempotent | src-tauri/src/rustdoc_processor.rs:101 | replacing hyphens twice gives the same name as replacing them once |
| Rustdoc.OutputFileName | src-tauri/src/rustdoc_processor.rs:97-103 | the output file name is the determined crate name, which has no hyphen, followed by `.json` |
| Rustdoc.DetermineCrateName | src-tauri/src/rustdoc_processor.rs:97-101 | the crate name comes from `package.name` when that is a string, else from the directory name; it contains no hyphen and differs from that source only where a `-` became `_` |
| Rustdoc.FullPathShape | src-tauri/src/rustdoc_processor.rs:217-233 | the full path is `crate::path::name`, or `crate::path` (name not appended) exactly when the kind is `module` and the path's last segment is the name |
| Rustdoc.FullPathEnds | src-tauri/src/rustdoc_processor.rs:217-233 | every full path starts with the crate name and ends with the item's own name |
| Rustdoc.FullPathExamples | src-tauri/src/rustdoc_processor.rs:224-226 | the worked cases: a function under `[a, b]`, a module under its own name, a module under another module |
| Rustdoc.Strings | src-tauri/src/rustdoc_processor.rs:214 | `filter_map(as_str)` keeps exactly the string elements and never lengthens the array; an array of strings only is kept whole, element by element, in order |
| Rustdoc.StringsAppend | src-tauri/src/rustdoc_processor.rs:214 | `filter_map` keeps order: the strings of a concatenation are the strings of the first part followed by those of the second |
| Rustdoc.PathOf | src-tauri/src/rustdoc_processor.rs:210-215 | the module path is empty unless `paths` has an entry for the id with a `path` array; its segments are then exactly that array's strings, and an array of strings only is kept whole, in order |
| Rustdoc.ItemOfFields | src-tauri/src/rustdoc_processor.rs:202-256 | a record yields an entry iff it has a string `name`; the entry has the record's id, the crate name, that name, `docs` as description, the string `kind` when there is one and `unknown` otherwise, the module path of the id (empty when `paths` has no entry), and the full path built from these |
| Rustdoc.ItemOfReadsOnlyNameDocsKind | src-tauri/src/rustdoc_processor.rs:202-204 | two records that agree on `name`, `docs` and `kind` yield the same entry |
| Rustdoc.StrippedItemsKept | src-tauri/src/rustdoc_processor.rs:239-245 | setting `inner.is_stripped` to either value leaves the entry unchanged, so stripped items are kept |
| Rustdoc.UnnamedRecordsDropped | src-tauri/src/rustdoc_processor.rs:236-257 | every catalog entry comes from a record with a string `name` and carries the crate name |
| Rustdoc.NormaliseRecord | src-tauri/src/rustdoc_processor.rs:202-256 | the loop body, which builds `full_path_parts` with `extend` and `push`, computes exactly the record's entry |
| Rustdoc.CollectItems | src-tauri/src/rustdoc_processor.rs:199-259 | the `items_map` loop gives a catalog: each entry sits under its own full path and comes from some record, every named record's full path is present, and there are at most as many entries as records |
| Rustdoc.ParseCheck | src-tauri/src/rustdoc_processor.rs:192-196 | the tree passes the checks exactly when `index` and `paths` are objects, `root` is a string and `root` names a record of `index` |
| Rustdoc.ParseRustdocJson | src-tauri/src/rustdoc_processor.rs:192-266 | missing `index`, missing `paths`, missing `root` and a root absent from `index` are errors, checked in that order; otherwise the crate name is the root record's name or `unknown_crate`, and the items are a catalog of `index` |
| Text.TrimStart | src-tauri/src/mcp_server.rs:170 | the result is a suffix of the input and does not start with whitespace |
| Text.TrimStartDropsWhitespace | src-tauri/src/mcp_server.rs:170 | what `trim_start` drops is white space only |
| Text.TrimEnd | src-tauri/src/mcp_server.rs:170 | the result is a prefix of the input and does not end with whitespace |
| Text.TrimEndDropsWhitespace | src-tauri/src/mcp_server.rs:170 | what `trim_end` drops is white space only |
| Text.Trim | src-tauri/src/mcp_server.rs:170 | the trimmed string is no longer than the input and neither starts nor ends with white space |
| Text.TrimIsSlice | src-tauri/src/commands.rs:53 | the input is a white-space prefix, then the trimmed string, then a white-space suffix |
| Text.TrimEmptyIffAllWhitespace | src-tauri/src/mcp_server.rs:170 | `trim().is_empty()` holds exactly when every character is whitespace |
| Similarity.Cosine | src-tauri/src/mcp_server.rs:72-88 | an empty vector, vectors of different lengths or a zero norm score 0, whatever the square root |
| Similarity.CosineSymmetric | src-tauri/src/commands.rs:111-117 | the score does not depend on the order of the two vectors |
| Similarity.DotCommutes | src-tauri/src/mcp_server.rs:78 | the zipped dot product is symmetric |
| Similarity.DotSelf | src-tauri/src/mcp_server.rs:78-80 | a vector's dot product with itself is its sum of squares |
| Similarity.SumSqNonNegative | src-tauri/src/mcp_server.rs:79 | a sum of squares is never negative |
| Similarity.ZeroVectorScoresZero | src-tauri/src/mcp_server.rs:82-84 | an all-zero vector scores 0 against anything |
| Similarity.SelfSimilarity | src-tauri/src/mcp_server.rs:86 | with a true square root, a vector of non-zero norm scores exactly 1 against itself |
| Similarity.CauchySchwarz | src-tauri/src/mcp_server.rs:77-79 | the squared zipped dot product of two vectors of equal length is at most the product of their sums of squares |
| Similarity.CosineBounded | src-tauri/src/mcp_server.rs:81-86 | with a true square root, every score lies in `[-1, 1]` |
| Similarity.UnitVectorsScoreDot | src-tauri/src/mcp_server.rs:86 | on two unit vectors of equal length, which the embedder's L2 normalisation produces, the score is the plain dot product |
| Ranking.InsertDesc | src-tauri/src/mcp_server.rs:251 | inserting one element adds exactly that element to the multiset |
| Ranking.InsertDescSorted | src-tauri/src/mcp_server.rs:251 | inserting into a list sorted by descending key keeps it sorted |
| Ranking.SortDesc | src-tauri/src/mcp_server.rs:251 | the sort by descending key is a permutation of its input, of the same length, in non-increasing key order |
| Ranking.Take | src-tauri/src/mcp_server.rs:255-260 | `take(n)` on the hits and `chars().take(n)` on a description are the prefix of length `min(n, len)` |
| Ranking.SortAndTake | src-tauri/src/mcp_server.rs:251-255 | `sort_by` then `take(n)` keeps a sorted selection of `min(n, len)` of the scored items, and every item it drops scores no higher than every item it keeps |
| Ranking.PrefixOfSorted | src-tauri/src/mcp_server.rs:255 | a prefix of a sorted list is sorted, and what follows it ranks no higher than any of its elements |
| Ranking.DistinctSubMultiset | src-tauri/src/mcp_server.rs:251-255 | a sub-multiset of a list without repeats has no repeats either |
| Embedding.EncodeBatch | src-tauri/src/embedder.rs:120-123 | `encode_batch` succeeds iff every text tokenizes; it then gives one encoding per text, in order |
| Embedding.EmbedBatch | src-tauri/src/embedder.rs:115-152 | `[]` gives `Ok([])`; the result is `Ok` iff every text embeds, and then holds one vector per input in input order; a tokenizer failure is reported as such, otherwise a forward-pass failure |
| Embedding.EmbedSentence | src-tauri/src/embedder.rs:154-158 | the result is the sentence's vector when it embeds, otherwise the batch's error (tokenizer or forward pass) |
| Embedding.InitIdempotent | src-tauri/src/embedder.rs:164-183 | an initialisation succeeds iff the slot was full or the constructor succeeded; after a success the slot is full and every later call succeeds without changing it; after a failure it stays empty |
| Embedding.EmbedderSlot.constructor | src-tauri/src/embedder.rs:162 | the slot starts empty |
| Embedding.EmbedderSlot.Init | src-tauri/src/embedder.rs:164-183 | empty slot and a successful constructor: the slot is filled and the call returns `Ok`; empty slot and a failing constructor: it stays empty and the error is returned; full slot: `Ok`, and nothing changes |
| Embedding.ShardedWeightFiles | src-tauri/src/embedder.rs:56-73 | a missing or non-object `weight_map` is an error; otherwise the file names are exactly the distinct string values, non-strings are skipped, and an empty set is an error |
| Index.EmbeddableIffNotBlank | src-tauri/src/mcp_server.rs:169-170 | an item is embedded exactly when it has a description with some character that is not white space |
| Index.SelectForEmbedding | src-tauri/src/mcp_server.rs:166-175 | the paths are exactly the items whose description is `Some` and not blank after trimming, each once; text `i` is the template applied to the item under path `i` |
| Index.ZipEmbeddings | src-tauri/src/mcp_server.rs:180-182 | the keys are the paths that have a vector, and each key holds the vector of its last occurrence |
| Index.ExpectedEmbeddingsWithinCatalog | src-tauri/src/mcp_server.rs:163-189 | stored embeddings cover only embeddable catalog entries, are empty without an embedder, and number at most the catalog's size |
| Index.SelectionEmbedsIff | src-tauri/src/mcp_server.rs:166-178 | every selected text embeds iff the text of every embeddable item embeds |
| Index.ZipIsExpected | src-tauri/src/mcp_server.rs:176-186 | zipping the selection with a successful batch stores each embeddable item's own vector under its key |
| Index.ZipKeys | src-tauri/src/mcp_server.rs:180-182 | the zipped keys are exactly the embeddable catalog keys |
| Index.ZipValues | src-tauri/src/mcp_server.rs:180-182 | each zipped key holds the vector of its own item's text |
| Index.ComputeEmbeddings | src-tauri/src/mcp_server.rs:163-189 | with an embedder that embeds every selected text, each embeddable item's vector is stored under its key; without an embedder or on a batch error, nothing is stored |
| Index.AppState.constructor | src-tauri/src/mcp_server.rs:99-108 | no project is processed at first, and the map is valid |
| Index.AppState.Upsert | src-tauri/src/mcp_server.rs:189-193 | the new entry replaces any entry under the key and nothing else changes; the reply reports the entry's embedding count and the map's new size; a valid entry keeps the map valid |
| Index.AppState.ProjectList | src-tauri/src/commands.rs:172-179 | the map's keys, each exactly once |
| Index.GetRawDocumentation | src-tauri/src/mcp_server.rs:204-223 | a project-not-found error iff the project is absent, an item-not-found error iff the project is present but the item is absent, and otherwise exactly the stored `DocItem`, whose full path is the key asked for |
| Index.LookupAfterUpsert | src-tauri/src/mcp_server.rs:190-223 | after an upsert, lookups in that project see the new catalog, and lookups in other projects are unchanged |
| Index.ProjectHitStep | src-tauri/src/mcp_server.rs:242-247 | one inner-loop step scores an embedding key that has a catalog entry and skips one that does not |
| Index.ScoreProject | src-tauri/src/mcp_server.rs:242-247 | one project's hits are exactly its embedded catalog keys, each once, each with its cosine score |
| Index.HitListStep | src-tauri/src/mcp_server.rs:238-248 | one outer-loop step appends a matching project's hits and adds nothing for a project the filter excludes |
| Index.CollectHits | src-tauri/src/mcp_server.rs:236-248 | `scored_items` lists, once each and with its score, every embedded catalog key of every project that passes the filter, and nothing else |
| Index.RankingOfTop | src-tauri/src/mcp_server.rs:250-255 | a sorted subset of the hits of size `min(n, len)` that outranks everything it leaves out is a ranking |
| Index.SubListOfHits | src-tauri/src/mcp_server.rs:255 | entries drawn from a hit list are scored candidates and name distinct project and key pairs |
| Index.LeftOutRankLower | src-tauri/src/mcp_server.rs:251-255 | a candidate missing from the top `n` means `n` entries are there and none of them scores lower |
| Index.RankHits | src-tauri/src/mcp_server.rs:236-255 | the result is a ranking: candidates only, each once with its score, in non-increasing score order, at most `n`, and a candidate is left out only when `n` entries outrank it |
| Index.Ingest | src-tauri/src/mcp_server.rs:150-193 | not a directory, generation failure, read failure and each parse error give their own error and leave the map untouched; a well-formed tree upserts a normalisation of it with the expected embeddings and reports the counts |
| Index.IngestionCounts | src-tauri/src/mcp_server.rs:190-193 | the reported total grows by one exactly when the path is new, the embedded count is at most the catalog size, and other projects are unchanged |
| Index.IngestedItemsFindable | src-tauri/src/rustdoc_processor.rs:236-257 | after ingestion, every named record of the tree can be looked up by its full path |
| McpServer.EmbeddingText | src-tauri/src/mcp_server.rs:171 | the embedded text is `crate::`, then the item's name, then ` [DOCS]: ` and the whole description, and nothing else |
| McpServer.Snippet | src-tauri/src/mcp_server.rs:260 | the first 150 characters of the description followed by `...`, and `None` without a description |
| McpServer.ProcessRustProject | src-tauri/src/mcp_server.rs:147-199 | a path that is not a directory is an invalid-arguments error; generation and parse failures are internal errors; all leave the map untouched; success is an ingestion with the `[DOCS]` template |
| McpServer.GetRawDocumentation | src-tauri/src/mcp_server.rs:201-224 | the two not-found cases become distinct resource-not-found errors; otherwise the stored item |
| McpServer.QueryDocumentation | src-tauri/src/mcp_server.rs:225-268 | a missing embedder is an internal error, and so is a failed query embedding (tokenizer or forward pass); otherwise the results are a ranking of the candidates for the filter at `num_results` (default 5) |
| McpServer.QueryResultsShape | src-tauri/src/mcp_server.rs:250-263 | at most `n` results in non-increasing score order, each from a matching project, naming an embedded catalog entry with that entry's type and its snippet |
| McpServer.HandleCallToolRequest | src-tauri/src/mcp_server.rs:146-270 | an unknown tool name is an error; arguments of the wrong shape are invalid; an error or any arm but processing leaves the map untouched; the process arm reports a non-directory, a rustdoc failure, a read failure and each parse error as its own error and is an ingestion on a well-formed tree; the raw-documentation arm is the lookup; the query arm reports a missing embedder and each query-embedding failure, and otherwise returns the results of a ranking at `num_results` (default 5) |
| Commands.EmbeddingText | src-tauri/src/commands.rs:55 | the embedded text is `Crate: ` and the crate name, then `, Item: ` and the name, `, Type: ` and the kind, then `, Docs: ` and the whole description |
| Commands.Snippet | src-tauri/src/commands.rs:157 | the first 300 characters of the description, with no ellipsis, and `None` without a description |
| Commands.InvokeProcessRustProject | src-tauri/src/commands.rs:24-108 | not a directory, generation and parse failures are errors and leave the map untouched; success is an ingestion with the `Crate:/Item:/Type:/Docs:` template |
| Commands.InvokeQueryDocumentation | src-tauri/src/commands.rs:119-170 | `Embedder not initialized` without an embedder, an error on a failed query embedding, otherwise a ranking at `num_results` (default 5) |
| Commands.QueryResultsShape | src-tauri/src/commands.rs:146-166 | at most `n` results in non-increasing score order, each naming an embedded catalog key of a matching project, with its type and its 300-character snippet |
| Commands.GetProcessedProjectList | src-tauri/src/commands.rs:172-179 | always `Ok`, exactly the processed project keys, each once, and nothing changes |

## Left out

- Running `cargo +nightly rustdoc`, reading `Cargo.toml`, renaming files and creating
  directories are OS and process I/O. Their outcome is the `Index.Environment` parameter; only the
  crate-name string logic is modelled.
- JSON and TOML text parsing (serde, toml) is library code. The model starts from the parsed
  value tree, `Json.Value`, which is used for the TOML manifest too.
- `Embedder::new` is left out: the hub download, safetensors loading, device choice and weight
  loading are foreign and network code. Its outcome is the argument of `EmbedderSlot.Init`. Only
  the `weight_map` file-name set is modelled, as `Embedding.ShardedWeightFiles`.
- Tokenisation, the tensor forward pass, CLS pooling and L2 normalisation are foreign numerics.
  They are the opaque functions `tokenize` and `forward` of `Embedding.Embedder`.
- `f32` arithmetic, including rounding, NaN, and `partial_cmp(..).unwrap_or(Equal)`, is left out.
  Scores and vectors are reals, and the square root is a parameter.
- Similarity.SelfSimilarity: assumes a true square root (`IsSqrt`), because `f32` `sqrt` is not
  exact.
- Similarity.UnitVectorsScoreDot: assumes `sqrt(1) == 1`, because `f32` `sqrt` is not exact.
- Similarity.ZeroVectorScoresZero: assumes `sqrt(0) == 0`, because `f32` `sqrt` is not exact.
- Similarity.CosineBounded: assumes a true square root (`IsSqrt`); with `f32` rounding the computed
  score can fall slightly outside `[-1, 1]`, which the model does not capture.
- Mutexes, lock-poisoning errors, `async`/`await` and `tokio::spawn` are concurrency
  concerns. The state is sequential class fields.
- The MCP transport is left out: tool schemas, server start-up, `HyperServer` options, the
  `reqwest` client and `rustdoc_output_dir` in `AppState::new`, and the Tauri `State`
  plumbing. Tool arguments arrive already decoded (`McpServer.ToolArguments`); arguments of the
  wrong shape give `InvalidArguments(ArgumentsMismatch)`.
- Serialisation of the `DocItem` and of the results (`serde_json::to_value`) cannot fail on
  these types, so its error path is not modelled.
- Reply and error messages are records (`IngestSummary`, the error datatypes) rather than
  formatted strings.
- All of `lib.rs` is left out (logger, cache directories, Tauri builder, `greet`), and so is
  logging everywhere.
- Hash-map iteration order is left open. Each loop takes any remaining key. So the contracts do
  not fix two things, and both are stated existentially:
  - which record wins when two records share a full path;
  - the relative order of equal scores.
- Ranking.SortDesc: the standard library's `sort_by` is modelled as a pure stable insertion sort
  on `seq`, not an in-place sort on the vector. Its contract states permutation and order only,
  and no stability lemma is stated, since tie order is left open.
- The `EmptyBatchResult` branch of `embed_sentence` cannot be reached, since a one-element batch
  that succeeds holds one vector. The model keeps the branch, and `Embedding.EmbedSentence`
  shows that it is never taken.
- The `inner.is_stripped` flag is read but has no effect in the source. The model does not read
  it; `Rustdoc.StrippedItemsKept` states that it changes nothing.
