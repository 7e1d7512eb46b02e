/**
 * `ranker_node` and `build_ranker`: the fallback path. The pickled
 * hybrid retriever with cross-encoder reranking is an opaque function from
 * the query to its ranked documents.
 */
module RankerNode {
  import opened Common
  import opened State
  import opened Documents

  /**
   * `build_ranker(query)`: the reranker's documents for exactly this query,
   * formatted; an empty reranker output gives the empty string.
   */
  function BuildRanker(query: string, rerank: string -> seq<Document>): (products: string)
    ensures products == FormatDocs(rerank(query))
    ensures products == "" <==> |rerank(query)| == 0
    ensures |rerank(query)| > 0 ==> Bullet(rerank(query)[0]) <= products
  {
    FormatDocs(rerank(query))
  }

  /**
   * The node as an update of the state value: `products` is overwritten with
   * the ranker's text for the state's query, even when that text is empty;
   * no other key changes.
   */
  function RankerUpdate(f: Fields, rerank: string -> seq<Document>): (r: Raised<Fields>)
    ensures f.query.None? <==> r == KeyError("query")
    ensures f.query.Some? ==> r.Ok? && r.value.products == Some(BuildRanker(f.query.value, rerank))
    ensures r.Ok? ==> (r.value.query == f.query && r.value.onTopic == f.onTopic
      && r.value.selfQueryState == f.selfQueryState && r.value.recommendation == f.recommendation)
  {
    match f.query
    case None => KeyError("query")
    case Some(q) => Ok(f.(products := Some(BuildRanker(q, rerank))))
  }

  /** `ranker_node(state)`: updates `state` in place and returns it. */
  method Ranker(state: RecState, rerank: string -> seq<Document>) returns (r: Raised<RecState>)
    modifies state
    ensures Reflects(r, state, RankerUpdate(old(state.View()), rerank), old(state.View()))
  {
    if state.query.None? {
      return KeyError("query");
    }
    var productList := BuildRanker(state.query.value, rerank);
    state.products := Some(productList);
    return Ok(state);
  }
}
