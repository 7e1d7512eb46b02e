/**
 * The pipeline state `RecState`: a dictionary threaded through the graph and
 * updated in place by every node. Each of its five keys may be absent (the
 * graph is invoked with only `query` set), so each field is an `Option`.
 */
module State {
  import opened Common

  /**
   * A snapshot of the state's keys. `onTopic` is declared `bool` in the
   * source's type but holds the classifier's string answer ("Yes"/"No"),
   * so it is a string here.
   */
  datatype Fields = Fields(
    query: Option<string>,
    onTopic: Option<string>,
    recommendation: Option<string>,
    products: Option<string>,
    selfQueryState: Option<string>)

  /** The state a run starts from: `{"query": q}`. */
  function Initial(q: string): (f: Fields)
    ensures f.query == Some(q)
    ensures f.onTopic.None? && f.recommendation.None? && f.products.None? && f.selfQueryState.None?
  {
    Fields(Some(q), None, None, None, None)
  }

  /** What a node returns: the (same) state, or the `KeyError` of a lookup of an absent key. */
  datatype Raised<T> = Ok(value: T) | KeyError(key: string)

  /** The mutable state dictionary. */
  class RecState {
    var query: Option<string>
    var onTopic: Option<string>
    var recommendation: Option<string>
    var products: Option<string>
    var selfQueryState: Option<string>

    constructor (f: Fields)
      ensures View() == f
    {
      query := f.query;
      onTopic := f.onTopic;
      recommendation := f.recommendation;
      products := f.products;
      selfQueryState := f.selfQueryState;
    }

    /** The current contents of the dictionary, as a value. */
    function View(): Fields
      reads this
    {
      Fields(query, onTopic, recommendation, products, selfQueryState)
    }
  }

  /**
   * A node's return value and the new state agree with the node's pure
   * update `spec` of the state `before`: on success the node hands back the
   * very object it was given, now holding the updated fields; on a
   * `KeyError` nothing was written.
   */
  ghost predicate Reflects(r: Raised<RecState>, state: RecState, spec: Raised<Fields>, before: Fields)
    reads state
  {
    match spec
    case Ok(g) => r == Ok(state) && state.View() == g
    case KeyError(k) => r == KeyError(k) && state.View() == before
  }
}
