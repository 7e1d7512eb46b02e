/**
 * `topic_classifier`: asks the classifier whether the query is about
 * fashion products and records the answer in the state; a "No" also writes
 * the refusal message. The classifier is an opaque function from the query
 * to its `score` string.
 */
module CheckTopicNode {
  import opened Common
  import opened State

  /** The fixed refusal written for an off-topic query. */
  const Refusal: string :=
    "I'm sorry, I can't help with that. Please ask a query related to product recommendations."

  /**
   * The writes of the node once the classifier has answered `score`:
   * `on_topic` is the score verbatim; the refusal is written exactly when the
   * score is the string "No" (case-sensitive), and otherwise the old
   * recommendation stays; no other key changes.
   */
  function ApplyScore(f: Fields, score: string): (g: Fields)
    ensures g.onTopic == Some(score)
    ensures score == "No" ==> g.recommendation == Some(Refusal)
    ensures score != "No" ==> g.recommendation == f.recommendation
    ensures g.query == f.query && g.products == f.products && g.selfQueryState == f.selfQueryState
  {
    var g := f.(onTopic := Some(score));
    if score == "No" then g.(recommendation := Some(Refusal)) else g
  }

  /** Only the exact string "No" refuses: a lower-case "no" leaves the recommendation alone. */
  lemma LowerCaseNoDoesNotRefuse(f: Fields)
    requires f.recommendation != Some(Refusal)
    ensures ApplyScore(f, "no").recommendation != Some(Refusal)
  {
  }

  /** The node as an update of the state value: read `query` (a `KeyError` when absent), classify it, record the score. */
  function TopicClassifierUpdate(f: Fields, classify: string -> string): (r: Raised<Fields>)
    ensures f.query.None? <==> r == KeyError("query")
    ensures f.query.Some? ==> r == Ok(ApplyScore(f, classify(f.query.value)))
  {
    match f.query
    case None => KeyError("query")
    case Some(q) => Ok(ApplyScore(f, classify(q)))
  }

  /** `topic_classifier(state)`: updates `state` in place and returns it. */
  method TopicClassifier(state: RecState, classify: string -> string) returns (r: Raised<RecState>)
    modifies state
    ensures Reflects(r, state, TopicClassifierUpdate(old(state.View()), classify), old(state.View()))
  {
    if state.query.None? {
      return KeyError("query");
    }
    var score := classify(state.query.value);
    state.onTopic := Some(score);
    if score == "No" {
      state.recommendation := Some(Refusal);
    }
    return Ok(state);
  }
}
