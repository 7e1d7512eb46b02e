# LLM-Fashion-Recommender, decision logic in Dafny

This project models the decision logic of LLM-Fashion-Recommender, a product recommender:
- A query is screened by a topic classifier.
- A structured (self-query) retriever runs against a vector store. When it finds nothing, the run falls back to a hybrid retriever plus a cross-encoder reranker.
- A generator writes the final recommendation from the retrieved products.

The model covers:

- **the orchestration graph** (`graph.dfy`):
  - the langgraph builder, as a class whose methods add nodes, edges, an entry point and conditional edges;
  - the compiled transition table;
  - a pure specification `RunFrom` of a run;
  - the imperative `Invoke` loop, which runs the node functions on the state object in place and is proved to follow `RunFrom`.
- **the shared state** (`state.dfy`): the `RecState` dictionary.
  - Each of its keys may be absent, and reading an absent key raises `KeyError`.
  - Every node updates this object in place and returns it. Each node is a method proved against a pure update function on a `Fields` snapshot.
- **the four nodes**: `topic_classifier`, `self_query_retrieve`, `ranker_node`/`build_ranker` and `rag_recommender`, plus the shared `format_docs` (`documents.dfy`).
- **the filter translator and metadata schema** (`utils.dfy`):
  - `CustomChromaTranslator`, which adds `LIKE` and rewrites it to `$in`;
  - the attribute schema;
  - the prompt's input variables.
- **indexing-time data cleaning** (`embedding.dfy`):
  - column renaming and projection;
  - `dropna`;
  - the sampling rule;
  - `convert_sizes`;
  - the read-back of the processed file;
  - one document per row.
- **Python string built-ins** (`text.dfy`): the built-ins that `convert_sizes` and `format_docs` rely on (`split`, `join`, `strip`, `lower`, `replace`).

All model, vector-store and reranker calls are opaque function parameters: the classifier's score, the documents the two retrievers return, and the generator's text. The same goes for `json.dumps` and the price conversion.

The source's two quirks are kept as they are:

- `on_topic` holds the classifier's string ("Yes"/"No"), although the state type declares it `bool`.
- Sizes are indexed as one comma-joined string, while `LIKE` is translated into `$in`. Chroma evaluates `$in` on a scalar value as equality with one of the listed values. `LikeMissesJoinedSizes` proves the consequence: for a product with two or more sizes, a `LIKE` on a single size never matches.

Two behaviours of the code are worth stating plainly:

- **Malformed classifier output is not failed closed.** Any score other than "Yes" or "No" has no route out of `check_topic`. langgraph raises when it finds no entry for the tag in the path map, so the run ends with an error rather than a refusal (`UnknownTopicUnrouted`, `QueryRun`). The HTTP API turns that error into a status 500 response. Only the exact string "No" writes the refusal.
- **A finished run's recommendation may be empty.** The code stores whatever the generator returns, and the ranker's text may be empty too. The model therefore proves that `recommendation` is set (`RunOutcome`, `QueryRun`), not that it is non-empty.

## Model

| member | source | states |
|---|---|---|
| `Documents.FormatDocs` | LLM-Fashion-Recommender/src/recommender/self_query_node.py:102-103 | the text is empty exactly when there are no documents, and otherwise starts with the first document's `- ` bullet |
| `Documents.FormatDocsSingle` | LLM-Fashion-Recommender/src/recommender/ranker_node.py:40-41 | one document formats as `- ` followed by its content |
| `Documents.FormatDocsConcat` | LLM-Fashion-Recommender/src/recommender/ranker_node.py:40-41 | formatting two non-empty lists is formatting each and joining them with a blank line |
| `Documents.FormatDocsAppend` | LLM-Fashion-Recommender/src/recommender/self_query_node.py:102-103 | appending a document adds a blank line, `- ` and its content to the text |
| `CheckTopicNode.ApplyScore` | LLM-Fashion-Recommender/src/recommender/check_topic_node.py:74-78 | `on_topic` becomes the score verbatim; the refusal is written when the score is exactly "No"; otherwise `recommendation` is kept; `query`, `products` and `self_query_state` are unchanged |
| `CheckTopicNode.LowerCaseNoDoesNotRefuse` | LLM-Fashion-Recommender/src/recommender/check_topic_node.py:75 | the comparison with "No" is case-sensitive, so the score "no" does not refuse |
| `CheckTopicNode.TopicClassifierUpdate` | LLM-Fashion-Recommender/src/recommender/check_topic_node.py:28-79 | raises `KeyError("query")` exactly when `query` is absent; otherwise the classifier's score for that query is recorded as above |
| `CheckTopicNode.TopicClassifier` | LLM-Fashion-Recommender/src/recommender/check_topic_node.py:24-79 | the node returns the very state object it was given, updated in place as `TopicClassifierUpdate` says; on a `KeyError` nothing is written |
| `SelfQueryNode.RecordResults` | LLM-Fashion-Recommender/src/recommender/self_query_node.py:111-116 | no result tags "empty" and leaves `products` alone; one or more tag "success" and store the formatted results; the tag is always one of the two; the other keys are unchanged |
| `SelfQueryNode.SuccessStoresText` | LLM-Fashion-Recommender/src/recommender/self_query_node.py:114-116 | on success the stored products are non-empty text |
| `SelfQueryNode.SelfQueryRetrieveUpdate` | LLM-Fashion-Recommender/src/recommender/self_query_node.py:105-117 | raises `KeyError("query")` exactly when `query` is absent; otherwise records the retriever's results for that query |
| `SelfQueryNode.SelfQueryRetrieve` | LLM-Fashion-Recommender/src/recommender/self_query_node.py:94-117 | updates the given object in place as `SelfQueryRetrieveUpdate` says and returns it |
| `RankerNode.BuildRanker` | LLM-Fashion-Recommender/src/recommender/ranker_node.py:34-47 | the text is `format_docs` of the reranker's documents for exactly this query, so it is empty exactly when the reranker returns nothing and otherwise starts with the first document's bullet |
| `RankerNode.RankerUpdate` | LLM-Fashion-Recommender/src/recommender/ranker_node.py:54-57 | raises `KeyError("query")` exactly when `query` is absent; otherwise `products` is overwritten with the ranker's text, even an empty one, and nothing else changes |
| `RankerNode.Ranker` | LLM-Fashion-Recommender/src/recommender/ranker_node.py:50-57 | updates the given object in place as `RankerUpdate` says and returns it |
| `RagNode.RagChainInput` | LLM-Fashion-Recommender/src/recommender/rag_node.py:46-51 | the chain's input keeps `docs` and `query` unchanged, and its keys are exactly the prompt's input variables |
| `RagNode.RagRecommenderUpdate` | LLM-Fashion-Recommender/src/recommender/rag_node.py:65-69 | a missing `query`, then a missing `products`, raises that key; otherwise `recommendation` becomes the generator's text for the two values, and nothing else changes |
| `RagNode.RagRecommender` | LLM-Fashion-Recommender/src/recommender/rag_node.py:60-70 | updates the given object in place as `RagRecommenderUpdate` says and returns it |
| `RecommenderUtils.WithLike` | LLM-Fashion-Recommender/src/recommender/utils.py:16-20 | the new comparator list holds exactly the base comparators and `LIKE`, each once; a missing base list gives `[LIKE]` |
| `RecommenderUtils.CustomChromaTranslator.constructor` | LLM-Fashion-Recommender/src/recommender/utils.py:13-20 | the translator's allowed comparators are those of `WithLike` |
| `RecommenderUtils.CustomChromaTranslator.VisitComparison` | LLM-Fashion-Recommender/src/recommender/utils.py:22-33 | `LIKE(attr, v)` becomes `{attr: {"$in": [v]}}`, a filter on `attr` alone; every other comparator is the base translator's result |
| `RecommenderUtils.LikeIsExactEquality` | LLM-Fashion-Recommender/src/recommender/utils.py:25-31 | the store's evaluation (`Matches`) of the filter the translator emits for `LIKE(attr, v)` accepts a document exactly when its `attr` holds `v` as a whole string |
| `RecommenderUtils.LikeMissesJoinedSizes` | LLM-Fashion-Recommender/src/recommender/utils.py:24-31 | for a product with two or more sizes, stored joined by commas, the translated `LIKE` on the sizes attribute with a comma-free value matches no document |
| `RecommenderUtils.AttributeNames` | LLM-Fashion-Recommender/src/recommender/utils.py:36-57 | the schema declares, in order, exactly the four columns kept at indexing time, all distinct |
| `RecommenderUtils.AttributesAreDocumentKeys` | LLM-Fashion-Recommender/src/indexing/embedding.py:52-117 | when the renamed raw columns are distinct and include every attribute, the saved header has no repeats and every generated document's metadata keys are exactly the declared attribute names |
| `RecommenderUtils.ProjectedColumns` | LLM-Fashion-Recommender/src/indexing/embedding.py:55-61 | under the same condition the projected columns are the attribute names, each once |
| `RecommenderUtils.GetMetadataInfo` | LLM-Fashion-Recommender/src/recommender/utils.py:62-63 | returns exactly `ATTRIBUTE_INFO`, whose names are the indexed columns, and `DOC_CONTENT` |
| `Text.Join` | LLM-Fashion-Recommender/src/indexing/embedding.py:97 | joining nothing gives ""; otherwise the result starts with the first part (with `JoinConcat` and `SplitJoin` as its partners) |
| `Text.JoinConcat` | LLM-Fashion-Recommender/src/recommender/ranker_node.py:41 | joining a concatenation of two non-empty lists is joining each, with the separator between them |
| `Text.LowerChar` | LLM-Fashion-Recommender/src/indexing/embedding.py:98 | a capital `A`-`Z` becomes the small letter the same distance from `a`; any other character is kept; the result is never a capital, and whitespace and the comma are kept |
| `Text.Lower` | LLM-Fashion-Recommender/src/indexing/embedding.py:98 | lower-casing keeps the length and lower-cases each character in its place, as `LowerChar` states, so no capital is left (with `LowerIdempotent` and `StripLower` as its partners) |
| `Text.Strip` | LLM-Fashion-Recommender/src/indexing/embedding.py:98 | the result is no longer than the input and neither starts nor ends with whitespace |
| `Text.StripNoSpace` | LLM-Fashion-Recommender/src/indexing/embedding.py:98 | a string without whitespace strips to itself |
| `Text.StripAllSpace` | LLM-Fashion-Recommender/src/indexing/embedding.py:98 | a string of whitespace only strips to "" |
| `Text.RemoveAll` | LLM-Fashion-Recommender/src/indexing/embedding.py:98 | `replace(pat, "")` never lengthens the string (with `RemoveAllPrefix`, `RemoveAllFirst`, `RemoveAllAbsent` and `RemoveAllKeepsCount` as its partners) |
| `Text.RemoveAllPrefix` | LLM-Fashion-Recommender/src/indexing/embedding.py:98 | an occurrence of the pattern at the start is removed |
| `Text.RemoveAllFirst` | LLM-Fashion-Recommender/src/indexing/embedding.py:98 | the first occurrence, behind a stretch in which no occurrence can start, is removed, the stretch kept and the rest processed the same way |
| `Text.RemoveAllAbsent` | LLM-Fashion-Recommender/src/indexing/embedding.py:98 | a string without the pattern's first character is left unchanged |
| `Text.Split` | LLM-Fashion-Recommender/src/indexing/embedding.py:98 | `split` gives one more piece than there are separators, and no piece holds the separator |
| `Text.SplitJoin` | LLM-Fashion-Recommender/src/indexing/embedding.py:98 | joining the pieces of a split with the separator gives back the string |
| `Text.StripIdempotent` | LLM-Fashion-Recommender/src/indexing/embedding.py:98 | stripping twice is stripping once |
| `Text.StripLower` | LLM-Fashion-Recommender/src/indexing/embedding.py:98 | stripping and lower-casing commute |
| `Text.LowerIdempotent` | LLM-Fashion-Recommender/src/indexing/embedding.py:98 | lower-casing twice is lower-casing once |
| `Text.RemoveAllKeepsCount` | LLM-Fashion-Recommender/src/indexing/embedding.py:98 | removing a pattern that does not contain the comma keeps the number of commas |
| `Embedding.RenameFor` | LLM-Fashion-Recommender/src/indexing/embedding.py:38 | the renaming maps exactly the listed columns the frame has, each to its listed new name |
| `Embedding.CleanColumnNames` | LLM-Fashion-Recommender/src/indexing/embedding.py:30-38 | each listed source column takes its new name; every other column keeps its name; the order and number of columns stay |
| `Embedding.SelectedNames` | LLM-Fashion-Recommender/src/indexing/embedding.py:55-61 | the kept names are exactly the valid columns the frame has, in the valid columns' order, without repeats |
| `Embedding.Selection` | LLM-Fashion-Recommender/src/indexing/embedding.py:61 | `df[names]` selects every position whose column carries one of the names, and only those |
| `Embedding.Projection` | LLM-Fashion-Recommender/src/indexing/embedding.py:61 | the projection keeps exactly the positions whose column is a valid column |
| `Embedding.ProjectionOfDistinct` | LLM-Fashion-Recommender/src/indexing/embedding.py:54-61 | with distinct column names, the projected columns are exactly the selected names, in order |
| `Embedding.DropIncomplete` | LLM-Fashion-Recommender/src/indexing/embedding.py:63 | every surviving row is a complete row of the input, and every complete row survives |
| `Embedding.DropIncompleteConcat` | LLM-Fashion-Recommender/src/indexing/embedding.py:63 | dropping from a concatenation is dropping from each part, so survivors keep the input's order and multiplicity |
| `Embedding.DropIncompleteSingle` | LLM-Fashion-Recommender/src/indexing/embedding.py:63 | a single row survives exactly when it is complete |
| `Embedding.Frame.DropNa` | LLM-Fashion-Recommender/src/indexing/embedding.py:63 | in place: the rows become the complete rows, and the columns are unchanged |
| `Embedding.SampleCount` | LLM-Fashion-Recommender/src/indexing/embedding.py:65-66 | the frame is sampled only for a non-zero count below the row count; a negative such count is refused; otherwise all rows stay |
| `Embedding.Sample` | LLM-Fashion-Recommender/src/indexing/embedding.py:66 | `n` of the frame's rows, with its columns; rows with distinct labels stay distinct |
| `Embedding.LoadAndPreprocessData` | LLM-Fashion-Recommender/src/indexing/embedding.py:41-72 | rename, project, drop incomplete rows, sample; fails exactly when sampling is refused; the row count is `SampleCount`'s; every row is a complete projected row; without sampling the rows are all the complete rows, in order |
| `Embedding.Frame.Apply` | LLM-Fashion-Recommender/src/indexing/embedding.py:104 | in place: the column's cells go through the function, and nothing else changes |
| `Embedding.MapColumn` | LLM-Fashion-Recommender/src/indexing/embedding.py:102-108 | a cell changes exactly when its column carries the name; labels and widths are kept |
| `Embedding.MapColumnAbsent` | LLM-Fashion-Recommender/src/indexing/embedding.py:103-107 | converting a column the frame lacks changes nothing |
| `Embedding.Normalize` | LLM-Fashion-Recommender/src/indexing/embedding.py:98 | each piece is stripped, then lower-cased, with the number of pieces kept |
| `Embedding.NormalizeNoComma` | LLM-Fashion-Recommender/src/indexing/embedding.py:98 | normalising comma-free pieces leaves them comma-free |
| `Embedding.SizePieces` | LLM-Fashion-Recommender/src/indexing/embedding.py:97-98 | one piece more than the input has commas, and none holds a comma |
| `Embedding.ConvertSizes` | LLM-Fashion-Recommender/src/indexing/embedding.py:93-99 | a missing or non-string value gives ""; a string keeps its number of commas |
| `Embedding.ConvertSizesPieces` | LLM-Fashion-Recommender/src/indexing/embedding.py:97-99 | the converted string splits back into as many pieces as the input had, each trimmed to the normalised input piece |
| `Embedding.PiecesIdempotent` | LLM-Fashion-Recommender/src/indexing/embedding.py:97-99 | normalising the joined pieces again gives the same pieces |
| `Embedding.ConvertSizesDropsLabel` | LLM-Fashion-Recommender/src/indexing/embedding.py:98 | a leading "Size:" label makes no difference to the converted sizes |
| `Embedding.ConvertSizesIdempotent` | LLM-Fashion-Recommender/src/indexing/embedding.py:93-99 | `convert_sizes` applied to its own output changes nothing |
| `Embedding.RowDict` | LLM-Fashion-Recommender/src/indexing/embedding.py:113 | `row.to_dict()` has one key per column name |
| `Embedding.RowDictAt` | LLM-Fashion-Recommender/src/indexing/embedding.py:113 | for a repeated column name the rightmost cell wins |
| `Embedding.ToDocuments` | LLM-Fashion-Recommender/src/indexing/embedding.py:110-117 | one document per row, in order; the id is the row's label, the metadata keys are the columns, and the text is the serialised metadata |
| `Embedding.RowDocument` | LLM-Fashion-Recommender/src/indexing/embedding.py:111-115 | the row's document has the row's label as id, one metadata key per column, and the serialised metadata as text |
| `Embedding.DocumentCell` | LLM-Fashion-Recommender/src/indexing/embedding.py:113 | a document's metadata holds the row's cell under its column name |
| `Embedding.ReadProcessed` | LLM-Fashion-Recommender/src/indexing/embedding.py:69-101 | saving without the index and reading back keeps the cells row by row and relabels the rows 0, 1, 2, ...; the header is taken back unchanged, which is faithful when it has no repeated name |
| `Embedding.GenerateDocuments` | LLM-Fashion-Recommender/src/indexing/embedding.py:75-119 | reads the saved frame back, converts sizes and then prices where those columns exist, and builds the documents of the result |
| `Embedding.DocumentIdsArePositions` | LLM-Fashion-Recommender/src/indexing/embedding.py:101-116 | document ids are the positions 0, 1, 2, ..., so distinct whatever the sampled labels were |
| `Embedding.SizesStoredAsOneString` | LLM-Fashion-Recommender/src/indexing/embedding.py:97-113 | with distinct columns, the sizes metadata of each document `generate_documents` builds is the single string `convert_sizes` made of the saved row's cell; the price conversion does not touch it |
| `Graph.StateGraph.AddNode` | LLM-Fashion-Recommender/src/recommender/graph.py:22-25 | registers the node under its name, and nothing else changes |
| `Graph.StateGraph.AddEdge` | LLM-Fashion-Recommender/src/recommender/graph.py:27-28 | registers the fixed edge, and nothing else changes |
| `Graph.StateGraph.SetEntryPoint` | LLM-Fashion-Recommender/src/recommender/graph.py:30 | sets the entry point, and nothing else changes |
| `Graph.StateGraph.AddConditionalEdges` | LLM-Fashion-Recommender/src/recommender/graph.py:31-41 | registers the router and its path map for the source node, and nothing else changes |
| `Graph.StateGraph.Compile` | LLM-Fashion-Recommender/src/recommender/graph.py:42 | gives the collected graph exactly when the structural checks pass; a definition whose partners are `RecommenderGraphWellFormed` and `CreateRecommenderGraph` |
| `Graph.RecommenderGraphWellFormed` | LLM-Fashion-Recommender/src/recommender/graph.py:22-41 | the recommender's graph passes those checks |
| `Graph.CreateRecommenderGraph` | LLM-Fashion-Recommender/src/recommender/graph.py:19-42 | the builder calls compile to exactly the recommender's transition table |
| `Graph.Exec` | LLM-Fashion-Recommender/src/recommender/graph.py:22-25 | a node raises exactly when a key it reads is absent (`query`, and `products` for `rag_recommender`); no node changes `query`; only `check_topic` writes `on_topic`, and it writes the classifier's score |
| `Graph.Route` | LLM-Fashion-Recommender/src/recommender/graph.py:33-39 | each router reads its key, raising when the key is absent; a definition whose partners are `TopicRoutes` and `SelfQueryRoutes` |
| `Graph.Successor` | LLM-Fashion-Recommender/src/recommender/graph.py:27-41 | a fixed edge wins; otherwise the router's tag is looked up in the path map; an unmapped tag has no route; `END` stops; a definition whose partners are `SuccessorDescends`, `TopicRoutes`, `SelfQueryRoutes` and `RagLeadsToEnd` |
| `Graph.SuccessorDescends` | LLM-Fashion-Recommender/src/recommender/graph.py:22-41 | every hop goes to a node of lower rank, so the graph has no cycle |
| `Graph.RagLeadsToEnd` | LLM-Fashion-Recommender/src/recommender/graph.py:28 | `rag_recommender` always leads to `END` |
| `Graph.TopicRoutes` | LLM-Fashion-Recommender/src/recommender/graph.py:31-35 | "Yes" leads to `self_query_retrieve`, and only "Yes" does; "No" leads to `END`, and only "No" does; any other tag has no route |
| `Graph.SelfQueryRoutes` | LLM-Fashion-Recommender/src/recommender/graph.py:37-41 | "success" leads to `rag_recommender`, and only "success" does; "empty" leads to `ranker`, and only "empty" does; any other tag has no route |
| `Graph.RunFrom` | LLM-Fashion-Recommender/src/recommender/graph.py:22-41 | a run from a node starts there, visits only nodes, at most rank + 1 of them, with rank strictly falling, so it terminates |
| `Graph.Run` | LLM-Fashion-Recommender/src/recommender/graph.py:50 | `app.invoke` starts at `check_topic` and visits between one and four nodes, all of them registered |
| `Graph.RunKeepsQuery` | LLM-Fashion-Recommender/src/recommender/graph.py:22-41 | no run changes `query`, and no run from a node after `check_topic` changes `on_topic` |
| `Graph.QueryRun` | LLM-Fashion-Recommender/src/api/routers/recommender.py:45-48 | a request `invoke({"query": q})` finishes exactly when the classifier answers "Yes" or "No", and then has a recommendation, so the API's "No recommendation found" default never applies; any other answer ends unrouted with that tag; the final state keeps `q` and holds the score as `on_topic` |
| `Graph.QueryOffTopic` | LLM-Fashion-Recommender/src/recommender/graph.py:49-50 | an off-topic request ends with exactly `query`, "No" and the refusal set, and `products` and `self_query_state` never written |
| `Graph.RunStartsAtEntry` | LLM-Fashion-Recommender/src/recommender/graph.py:30 | every run starts at `check_topic` and visits at most four nodes, none twice |
| `Graph.MissingQueryRaises` | LLM-Fashion-Recommender/src/recommender/check_topic_node.py:28 | without `query` the run raises at the first node, and nothing is written |
| `Graph.OffTopicRefuses` | LLM-Fashion-Recommender/src/recommender/graph.py:31-35 | a "No" ends the run after `check_topic` alone, with the refusal: no retrieval, ranking or generation |
| `Graph.UnknownTopicUnrouted` | LLM-Fashion-Recommender/src/recommender/graph.py:34 | a score other than "Yes" or "No" stops the run after `check_topic`, unrouted |
| `Graph.RagRun` | LLM-Fashion-Recommender/src/recommender/graph.py:28 | from `rag_recommender` with `query` and `products` set, the run generates and finishes |
| `Graph.RankerRun` | LLM-Fashion-Recommender/src/recommender/graph.py:27-28 | from `ranker`, the run ranks, generates on the ranker's text and finishes |
| `Graph.SuccessPath` | LLM-Fashion-Recommender/src/recommender/graph.py:37-41 | "Yes" with results visits `check_topic`, `self_query_retrieve`, `rag_recommender` and never the ranker; the generator gets the formatted results |
| `Graph.EmptyPath` | LLM-Fashion-Recommender/src/recommender/graph.py:27-41 | "Yes" without results visits all four nodes in order; the generator gets the ranker's text |
| `Graph.RunOutcome` | LLM-Fashion-Recommender/src/recommender/graph.py:31-41 | a run finishes exactly when `query` is present and the score is "Yes" or "No"; a finished run has `recommendation` set; with `query` present nothing raises, so `products` is always written before `rag_recommender` reads it |
| `Graph.ExecNode` | LLM-Fashion-Recommender/src/recommender/graph.py:22-25 | runs the registered node function on the state object, as its update says |
| `Graph.Step` | LLM-Fashion-Recommender/src/recommender/graph.py:22-41 | one node executed in place is the first step of the run from that node; the next node has lower rank |
| `Graph.Invoke` | LLM-Fashion-Recommender/src/recommender/graph.py:50 | the run loop on the state object ends with the status, the visited nodes and the final state of `Run` |

## Left out

- **The node functions' own services.** The node functions' prompts and models, plus the vector store, the BM25 and hybrid retrievers and the cross-encoder, are opaque function parameters: their behaviour is not part of this model.
- **Failures of those services.** Network or model failures are out of scope. So are the exceptions the factories and loaders raise, and their retry and caching behaviour.
- **langgraph's runtime.**
  - langgraph keeps the state in channels and merges each node's returned dictionary. Because every node here returns the very dictionary it received, updated in place, the model threads one object through the nodes; the merge is not modelled.
  - The tracing and debug switches are not modelled.
  - Running several nodes in one superstep is not modelled.
- **Compile-time validation.**
  - `Graph.StateGraph.Compile` checks only that the entry is a node and that edges leave from and lead to known nodes or `END`. langgraph's other checks, such as for unreachable nodes, are not modelled.
  - When a node has both a fixed and a conditional edge, the model follows only the fixed one. This never happens in the recommender's graph.
- **`Text.Lower`** models only ASCII upper-case letters; Python's full Unicode case mapping is not modelled.
- **`Text.IsSpace`** lists Python's whitespace characters explicitly.
- **Price conversion and serialisation.** `convert_price` (a float parse) and `json.dumps` are parameters, because floating point and JSON formatting are outside the model.
- **The CSV round trip.** `Embedding.ReadProcessed` models it by its effect on labels only.
  - The type inference of `read_csv` is not modelled: a number written out and read back stays the same cell.
  - `read_csv` renames a repeated header name `X` to `X.1`, `X.2`, .... This is not modelled: the model reads the header back unchanged.
  - A raw file with both "Sizes" and "Available Sizes", say, has two "Available Sizes" columns after renaming. The source then converts only the first and gives every document both keys. The model converts both and keeps one key.
  - `RecommenderUtils.AttributesAreDocumentKeys` and `Embedding.SizesStoredAsOneString` are stated for distinct column names, where no renaming happens.
  - `read_csv` reads an empty string cell back as NaN. A row that was complete when saved, with an empty name, say, can then come back with a missing cell. The model reads every cell back as it was written.
- **The file system.** Downloading, existence checks and file writes are not modelled. `LoadAndPreprocessData` takes the raw frame as a parameter.
- **The `CSVLoader` branch** of `generate_documents` (`use_csv_loader=True`) is library code and is not modelled.
- **Pandas column selection.** It is modelled on the positions it selects. `Embedding.ProjectionOfDistinct` states its order only for distinct column names.
- **`Embedding.Sample`** does not fix which rows pandas' seeded generator picks, or in what order. The model picks any `n` distinct positions.
- **The base `ChromaTranslator`.** Its comparator list is a parameter. Its translation of comparisons other than `LIKE` is an opaque parameter.
- **The HTTP API** is modelled only through the state it passes to `invoke` (`Graph.QueryRun`). Its startup hook, response format and error-to-500 handling are not modelled.
- **The rest of the repository.** The index builders (FAISS, BM25, Chroma), the hybrid retriever, the configuration, the data loader, the user interface and the outfit suggester are not part of this model.
- **Chroma's other filter operators.** `RecommenderUtils.Matches` evaluates `$in` itself and takes the other operators as a parameter.
