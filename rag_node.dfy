/**
 * `rag_recommender`: hands the retrieved products and the query to the
 * generation chain and stores its text as the recommendation. The prompt,
 * model and parser behind the chain are one opaque function from the
 * chain's input dictionary to the generated text.
 */
module RagNode {
  import opened Common
  import opened State
  import RecommenderUtils

  /**
   * The dictionary the chain's first stage passes on: `docs` and `query`
   * carried through unchanged, and exactly the prompt template's input
   * variables as its keys.
   */
  function RagChainInput(docs: string, query: string): (m: map<string, string>)
    ensures m.Keys == set v | v in RecommenderUtils.RagInputVariables
    ensures m["docs"] == docs && m["query"] == query
  {
    map["docs" := docs, "query" := query]
  }

  /**
   * The node as an update of the state value. `query` and then `products`
   * are looked up (a `KeyError` for the first absent one); the
   * recommendation becomes the generator's text for those two values, and no
   * other key changes.
   */
  function RagRecommenderUpdate(f: Fields, generate: map<string, string> -> string): (r: Raised<Fields>)
    ensures f.query.None? ==> r == KeyError("query")
    ensures f.query.Some? && f.products.None? ==> r == KeyError("products")
    ensures r.Ok? <==> f.query.Some? && f.products.Some?
    ensures r.Ok? ==> r.value.recommendation == Some(generate(RagChainInput(f.products.value, f.query.value)))
    ensures r.Ok? ==> (r.value.query == f.query && r.value.products == f.products
      && r.value.onTopic == f.onTopic && r.value.selfQueryState == f.selfQueryState)
  {
    match f.query
    case None => KeyError("query")
    case Some(q) =>
      match f.products
      case None => KeyError("products")
      case Some(docs) => Ok(f.(recommendation := Some(generate(RagChainInput(docs, q)))))
  }

  /** `rag_recommender(state)`: updates `state` in place and returns it. */
  method RagRecommender(state: RecState, generate: map<string, string> -> string) returns (r: Raised<RecState>)
    modifies state
    ensures Reflects(r, state, RagRecommenderUpdate(old(state.View()), generate), old(state.View()))
  {
    if state.query.None? {
      return KeyError("query");
    }
    var query := state.query.value;
    if state.products.None? {
      return KeyError("products");
    }
    var docs := state.products.value;
    var output := generate(RagChainInput(docs, query));
    state.recommendation := Some(output);
    return Ok(state);
  }
}
