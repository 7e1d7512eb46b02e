/**
 * `self_query_retrieve`: runs the structured (self-query) retriever on the
 * query and tags the outcome. The retriever is an opaque function from the
 * query to the list of documents it found.
 */
module SelfQueryNode {
  import opened Common
  import opened State
  import opened Documents

  const Success: string := "success"
  const Empty: string := "empty"

  /**
   * The writes of the node for the retrieved `results`: no result tags the
   * state "empty" and leaves `products` as it was; one or more tag it
   * "success" and store the formatted documents. Either way the tag is one
   * of the two, and `query`, `on_topic` and `recommendation` are untouched.
   */
  function RecordResults(f: Fields, results: seq<Document>): (g: Fields)
    ensures |results| == 0 ==> g.selfQueryState == Some(Empty) && g.products == f.products
    ensures |results| > 0 ==> g.selfQueryState == Some(Success) && g.products == Some(FormatDocs(results))
    ensures g.selfQueryState == Some(Success) || g.selfQueryState == Some(Empty)
    ensures g.query == f.query && g.onTopic == f.onTopic && g.recommendation == f.recommendation
  {
    if |results| == 0 then f.(selfQueryState := Some(Empty))
    else f.(selfQueryState := Some(Success), products := Some(FormatDocs(results)))
  }

  /** With at least one result the stored products are non-empty text. */
  lemma SuccessStoresText(f: Fields, results: seq<Document>)
    requires |results| > 0
    ensures RecordResults(f, results).products.Some?
    ensures RecordResults(f, results).products.value != ""
  {
  }

  /** The node as an update of the state value: read `query` (a `KeyError` when absent), retrieve, record. */
  function SelfQueryRetrieveUpdate(f: Fields, retrieve: string -> seq<Document>): (r: Raised<Fields>)
    ensures f.query.None? <==> r == KeyError("query")
    ensures f.query.Some? ==> r == Ok(RecordResults(f, retrieve(f.query.value)))
  {
    match f.query
    case None => KeyError("query")
    case Some(q) => Ok(RecordResults(f, retrieve(q)))
  }

  /** `self_query_retrieve(state)`: updates `state` in place and returns it. */
  method SelfQueryRetrieve(state: RecState, retrieve: string -> seq<Document>) returns (r: Raised<RecState>)
    modifies state
    ensures Reflects(r, state, SelfQueryRetrieveUpdate(old(state.View()), retrieve), old(state.View()))
  {
    if state.query.None? {
      return KeyError("query");
    }
    var results := retrieve(state.query.value);
    if |results| == 0 {
      state.selfQueryState := Some(Empty);
    } else {
      state.selfQueryState := Some(Success);
      state.products := Some(FormatDocs(results));
    }
    return Ok(state);
  }
}
