/**
 * `create_recommendaer_graph` and the compiled graph's `invoke`: a builder
 * that collects named nodes, fixed edges, an entry point and conditional
 * edges, the transition table it compiles to, and a run that threads the
 * state through the nodes until `END`.
 */
module Graph {
  import opened Common
  import opened State
  import opened Documents
  import CheckTopicNode
  import SelfQueryNode
  import RankerNode
  import RagNode

  /** langgraph's `END` marker. */
  const End: string := "__end__"

  /** The node functions the graph can call. */
  datatype Action = TopicClassifier | SelfQueryRetrieve | Ranker | RagRecommender

  /** The two routing lambdas: `state["on_topic"]` and `state["self_query_state"]`. */
  datatype Router = OnTopicTag | SelfQueryStateTag

  /** A conditional edge: a router and the map from its tags to targets. */
  datatype Branch = Branch(router: Router, paths: map<string, string>)

  /** A compiled graph: named nodes, fixed edges, conditional edges, entry point. */
  datatype Graph = Graph(
    nodes: map<string, Action>,
    edges: map<string, string>,
    branches: map<string, Branch>,
    entry: Option<string>)

  /** A target is a declared node or `END`. */
  predicate KnownTarget(g: Graph, t: string)
  {
    t in g.nodes || t == End
  }

  /**
   * The structural checks of compilation: an entry point that is a node,
   * edges and conditional edges leaving declared nodes, and every target
   * a node or `END`.
   */
  predicate WellFormed(g: Graph)
  {
    && g.entry.Some? && g.entry.value in g.nodes
    && (forall s :: s in g.edges ==> s in g.nodes && KnownTarget(g, g.edges[s]))
    && (forall s :: s in g.branches ==> s in g.nodes)
    && (forall s, tag :: s in g.branches && tag in g.branches[s].paths ==> KnownTarget(g, g.branches[s].paths[tag]))
  }

  /** `StateGraph(RecState)`: the builder, filled in step by step. */
  class StateGraph {
    var nodes: map<string, Action>
    var edges: map<string, string>
    var branches: map<string, Branch>
    var entry: Option<string>

    constructor ()
      ensures nodes == map[] && edges == map[] && branches == map[] && entry == None
    {
      nodes := map[];
      edges := map[];
      branches := map[];
      entry := None;
    }

    /** `add_node(name, action)`. */
    method AddNode(name: string, action: Action)
      modifies this
      ensures nodes == old(nodes)[name := action]
      ensures edges == old(edges) && branches == old(branches) && entry == old(entry)
    {
      nodes := nodes[name := action];
    }

    /** `add_edge(source, target)`. */
    method AddEdge(source: string, target: string)
      modifies this
      ensures edges == old(edges)[source := target]
      ensures nodes == old(nodes) && branches == old(branches) && entry == old(entry)
    {
      edges := edges[source := target];
    }

    /** `set_entry_point(name)`. */
    method SetEntryPoint(name: string)
      modifies this
      ensures entry == Some(name)
      ensures nodes == old(nodes) && edges == old(edges) && branches == old(branches)
    {
      entry := Some(name);
    }

    /** `add_conditional_edges(source, router, paths)`. */
    method AddConditionalEdges(source: string, router: Router, paths: map<string, string>)
      modifies this
      ensures branches == old(branches)[source := Branch(router, paths)]
      ensures nodes == old(nodes) && edges == old(edges) && entry == old(entry)
    {
      branches := branches[source := Branch(router, paths)];
    }

    /** `compile()`: the collected graph, or `None` when a structural check fails. */
    function Compile(): (r: Option<Graph>)
      reads this
      ensures r.Some? <==> WellFormed(Graph(nodes, edges, branches, entry))
      ensures r.Some? ==> r.value.nodes == nodes && r.value.edges == edges
      ensures r.Some? ==> r.value.branches == branches && r.value.entry == entry
    {
      var g := Graph(nodes, edges, branches, entry);
      if WellFormed(g) then Some(g) else None
    }
  }

  /** The recommender's compiled graph. */
  const RecommenderGraph: Graph := Graph(
    map["self_query_retrieve" := SelfQueryRetrieve, "rag_recommender" := RagRecommender,
        "ranker" := Ranker, "check_topic" := TopicClassifier],
    map["ranker" := "rag_recommender", "rag_recommender" := End],
    map["check_topic" := Branch(OnTopicTag, map["Yes" := "self_query_retrieve", "No" := End]),
        "self_query_retrieve" := Branch(SelfQueryStateTag, map["success" := "rag_recommender", "empty" := "ranker"])],
    Some("check_topic"))

  /** The recommender's graph passes compilation. */
  lemma RecommenderGraphWellFormed()
    ensures WellFormed(RecommenderGraph)
  {
    var g := RecommenderGraph;
    assert g.branches["check_topic"].paths.Keys == {"Yes", "No"};
    assert g.branches["self_query_retrieve"].paths.Keys == {"success", "empty"};
  }

  /** `create_recommendaer_graph()`: builds the four nodes, the edges and the entry point, then compiles. */
  method CreateRecommenderGraph() returns (app: Option<Graph>)
    ensures app == Some(RecommenderGraph)
  {
    var workflow := new StateGraph();
    workflow.AddNode("self_query_retrieve", SelfQueryRetrieve);
    workflow.AddNode("rag_recommender", RagRecommender);
    workflow.AddNode("ranker", Ranker);
    workflow.AddNode("check_topic", TopicClassifier);
    workflow.AddEdge("ranker", "rag_recommender");
    workflow.AddEdge("rag_recommender", End);
    workflow.SetEntryPoint("check_topic");
    workflow.AddConditionalEdges("check_topic", OnTopicTag, map["Yes" := "self_query_retrieve", "No" := End]);
    workflow.AddConditionalEdges("self_query_retrieve", SelfQueryStateTag,
      map["success" := "rag_recommender", "empty" := "ranker"]);
    RecommenderGraphWellFormed();
    app := workflow.Compile();
  }

  // ---------------------------------------------------------------------
  // running the graph

  /** The external services the nodes call. */
  datatype Env = Env(
    classify: string -> string,
    retrieve: string -> seq<Document>,
    rerank: string -> seq<Document>,
    generate: map<string, string> -> string)

  /**
   * The state update a node performs. A node raises exactly when a key it
   * reads is absent (`query` for every node, and `products` for
   * `rag_recommender`); no node changes `query`.
   */
  function Exec(a: Action, f: Fields, env: Env): (r: Raised<Fields>)
    ensures r.KeyError? <==> f.query.None? || (a == RagRecommender && f.products.None?)
    ensures f.query.None? ==> r == KeyError("query")
    ensures r.Ok? ==> r.value.query == f.query
    ensures r.Ok? && a == TopicClassifier ==> r.value.onTopic == Some(env.classify(f.query.value))
    ensures r.Ok? && a != TopicClassifier ==> r.value.onTopic == f.onTopic
  {
    match a
    case TopicClassifier => CheckTopicNode.TopicClassifierUpdate(f, env.classify)
    case SelfQueryRetrieve => SelfQueryNode.SelfQueryRetrieveUpdate(f, env.retrieve)
    case Ranker => RankerNode.RankerUpdate(f, env.rerank)
    case RagRecommender => RagNode.RagRecommenderUpdate(f, env.generate)
  }

  /** The tag a router reads from the state; reading an absent key raises. */
  function Route(router: Router, f: Fields): (r: Raised<string>)
    ensures router == OnTopicTag ==> (f.onTopic.None? <==> r == KeyError("on_topic"))
    ensures router == OnTopicTag && f.onTopic.Some? ==> r == Ok(f.onTopic.value)
    ensures router == SelfQueryStateTag ==> (f.selfQueryState.None? <==> r == KeyError("self_query_state"))
    ensures router == SelfQueryStateTag && f.selfQueryState.Some? ==> r == Ok(f.selfQueryState.value)
  {
    match router
    case OnTopicTag => if f.onTopic.None? then KeyError("on_topic") else Ok(f.onTopic.value)
    case SelfQueryStateTag =>
      if f.selfQueryState.None? then KeyError("self_query_state") else Ok(f.selfQueryState.value)
  }

  /** Where a run goes after a node. */
  datatype Hop = Next(name: string) | Stop | RouteKeyError(key: string) | NoRoute(tag: string) | NoEdge

  /** A target as a hop: `END` stops the run. */
  function HopTo(target: string): (h: Hop)
    ensures target == End <==> h == Stop
    ensures target != End <==> h == Next(target)
  {
    if target == End then Stop else Next(target)
  }

  /**
   * The hop after node `name` with state `f`: its fixed edge, or else its
   * router's tag looked up in the path map (an unmapped tag has no route).
   */
  function Successor(g: Graph, name: string, f: Fields): (h: Hop)
    ensures name in g.edges ==> h == HopTo(g.edges[name])
    ensures name !in g.edges && name !in g.branches ==> h == NoEdge
    ensures name !in g.edges && name in g.branches ==>
      match Route(g.branches[name].router, f)
      case KeyError(k) => h == RouteKeyError(k)
      case Ok(tag) => h == (if tag in g.branches[name].paths then HopTo(g.branches[name].paths[tag]) else NoRoute(tag))
  {
    if name in g.edges then HopTo(g.edges[name])
    else if name in g.branches then
      match Route(g.branches[name].router, f)
      case KeyError(k) => RouteKeyError(k)
      case Ok(tag) =>
        var paths := g.branches[name].paths;
        if tag in paths then HopTo(paths[tag]) else NoRoute(tag)
    else NoEdge
  }

  /** How a run ends. */
  datatype Status = Finished | Raised(key: string) | Unrouted(tag: string) | Stuck

  /** A run: how it ended, the nodes it executed in order, and the final state. */
  datatype Trace = Trace(status: Status, visited: seq<string>, final: Fields)

  /** Distance to `END` in the recommender's graph: every hop lowers it. */
  function Rank(name: string): nat
  {
    if name == "check_topic" then 3
    else if name == "self_query_retrieve" then 2
    else if name == "ranker" then 1
    else 0
  }

  /** The recommender's graph is acyclic: each hop goes to a node of lower rank. */
  lemma SuccessorDescends(name: string, f: Fields)
    requires name in RecommenderGraph.nodes
    ensures Successor(RecommenderGraph, name, f).Next? ==>
      Successor(RecommenderGraph, name, f).name in RecommenderGraph.nodes
      && Rank(Successor(RecommenderGraph, name, f).name) < Rank(name)
  {
  }

  /** `rag_recommender` always leads to `END`, whatever the state. */
  lemma RagLeadsToEnd(f: Fields)
    ensures Successor(RecommenderGraph, "rag_recommender", f) == Stop
  {
  }

  /**
   * The topic router has a successor exactly for the tags "Yes" and "No";
   * any other value of `on_topic` has no route.
   */
  lemma TopicRoutes(f: Fields)
    ensures Successor(RecommenderGraph, "check_topic", f) == Next("self_query_retrieve")
      <==> f.onTopic == Some("Yes")
    ensures Successor(RecommenderGraph, "check_topic", f) == Stop <==> f.onTopic == Some("No")
    ensures f.onTopic.Some? && f.onTopic.value != "Yes" && f.onTopic.value != "No" ==>
      Successor(RecommenderGraph, "check_topic", f) == NoRoute(f.onTopic.value)
  {
    var paths := RecommenderGraph.branches["check_topic"].paths;
    assert paths.Keys == {"Yes", "No"};
  }

  /**
   * The self-query router goes to the generator on "success", to the
   * ranker on "empty", and has no route for any other value.
   */
  lemma SelfQueryRoutes(f: Fields)
    ensures Successor(RecommenderGraph, "self_query_retrieve", f) == Next("rag_recommender")
      <==> f.selfQueryState == Some("success")
    ensures Successor(RecommenderGraph, "self_query_retrieve", f) == Next("ranker")
      <==> f.selfQueryState == Some("empty")
    ensures f.selfQueryState.Some? && f.selfQueryState.value != "success" && f.selfQueryState.value != "empty" ==>
      Successor(RecommenderGraph, "self_query_retrieve", f) == NoRoute(f.selfQueryState.value)
  {
    var paths := RecommenderGraph.branches["self_query_retrieve"].paths;
    assert paths.Keys == {"success", "empty"};
  }

  /** Rank strictly falls along a sequence of nodes. */
  predicate Descending(s: seq<string>)
  {
    forall i, j :: 0 <= i < j < |s| ==> Rank(s[i]) > Rank(s[j])
  }

  /** How a run ends at a hop that goes nowhere. */
  function Halt(h: Hop): (s: Status)
    requires !h.Next?
    ensures h == Stop <==> s == Finished
    ensures h.RouteKeyError? ==> s == Raised(h.key)
    ensures h.NoRoute? ==> s == Unrouted(h.tag)
    ensures h == NoEdge <==> s == Stuck
  {
    match h
    case Stop => Finished
    case RouteKeyError(k) => Raised(k)
    case NoRoute(tag) => Unrouted(tag)
    case NoEdge => Stuck
  }

  /** The trace `t` preceded by the nodes `prefix`. */
  function Prefixed(prefix: seq<string>, t: Trace): Trace
  {
    Trace(t.status, prefix + t.visited, t.final)
  }

  /**
   * The run of the recommender's graph from node `name` with state `f`.
   * It begins at `name`, visits only nodes, at most `Rank(name) + 1` of
   * them, each of lower rank than the one before, so none twice.
   */
  function RunFrom(name: string, f: Fields, env: Env): (t: Trace)
    requires name in RecommenderGraph.nodes
    ensures 1 <= |t.visited| <= Rank(name) + 1
    ensures t.visited[0] == name
    ensures forall i :: 0 <= i < |t.visited| ==> t.visited[i] in RecommenderGraph.nodes
    ensures Descending(t.visited)
    decreases Rank(name)
  {
    match Exec(RecommenderGraph.nodes[name], f, env)
    case KeyError(k) => Trace(Raised(k), [name], f)
    case Ok(g) =>
      var h := Successor(RecommenderGraph, name, g);
      if h.Next? then
        SuccessorDescends(name, g);
        Prefixed([name], RunFrom(h.name, g, env))
      else Trace(Halt(h), [name], g)
  }

  /** `app.invoke(state)`: the run from the entry point, which visits at most four nodes. */
  function Run(f: Fields, env: Env): (t: Trace)
    ensures 1 <= |t.visited| <= 4 && t.visited[0] == "check_topic"
    ensures forall i :: 0 <= i < |t.visited| ==> t.visited[i] in RecommenderGraph.nodes
  {
    RunFrom("check_topic", f, env)
  }

  /** Every run starts at `check_topic`, the entry point, and visits at most four nodes, none twice. */
  lemma RunStartsAtEntry(f: Fields, env: Env)
    ensures RecommenderGraph.entry == Some(Run(f, env).visited[0])
    ensures |Run(f, env).visited| <= 4
    ensures NoDuplicates(Run(f, env).visited)
  {
    var v := Run(f, env).visited;
    assert forall i, j :: 0 <= i < j < |v| ==> Rank(v[i]) > Rank(v[j]);
  }

  /** A state without `query` fails at the first node, with nothing written. */
  lemma MissingQueryRaises(f: Fields, env: Env)
    requires f.query.None?
    ensures Run(f, env) == Trace(Raised("query"), ["check_topic"], f)
  {
  }

  /**
   * An off-topic query ("No") ends right after `check_topic` with the
   * refusal: no retrieval, ranking or generation takes place.
   */
  lemma OffTopicRefuses(f: Fields, env: Env)
    requires f.query.Some? && env.classify(f.query.value) == "No"
    ensures Run(f, env).status == Finished
    ensures Run(f, env).visited == ["check_topic"]
    ensures Run(f, env).final == f.(onTopic := Some("No"), recommendation := Some(CheckTopicNode.Refusal))
  {
    var g := f.(onTopic := Some("No"), recommendation := Some(CheckTopicNode.Refusal));
    assert Exec(TopicClassifier, f, env) == Ok(g);
    TopicRoutes(g);
  }

  /** A topic tag other than "Yes" or "No" stops the run right after `check_topic` with no route. */
  lemma UnknownTopicUnrouted(f: Fields, env: Env)
    requires f.query.Some?
    requires env.classify(f.query.value) != "Yes" && env.classify(f.query.value) != "No"
    ensures Run(f, env).status == Unrouted(env.classify(f.query.value))
    ensures Run(f, env).visited == ["check_topic"]
  {
    var g := CheckTopicNode.ApplyScore(f, env.classify(f.query.value));
    TopicRoutes(g);
  }

  /** From `rag_recommender` with a query and products: generate, then `END`. */
  lemma RagRun(g: Fields, env: Env)
    requires g.query.Some? && g.products.Some?
    ensures RunFrom("rag_recommender", g, env) == Trace(Finished, ["rag_recommender"],
      g.(recommendation := Some(env.generate(RagNode.RagChainInput(g.products.value, g.query.value)))))
  {
    var h := g.(recommendation := Some(env.generate(RagNode.RagChainInput(g.products.value, g.query.value))));
    assert Exec(RagRecommender, g, env) == Ok(h);
    RagLeadsToEnd(h);
  }

  /** From `ranker` with a query: rank, then generate on the ranker's text, then `END`. */
  lemma RankerRun(g: Fields, env: Env)
    requires g.query.Some?
    ensures var products := RankerNode.BuildRanker(g.query.value, env.rerank);
      RunFrom("ranker", g, env) == Trace(Finished, ["ranker", "rag_recommender"],
        g.(products := Some(products),
           recommendation := Some(env.generate(RagNode.RagChainInput(products, g.query.value)))))
  {
    var h := g.(products := Some(RankerNode.BuildRanker(g.query.value, env.rerank)));
    assert Exec(Ranker, g, env) == Ok(h);
    RagRun(h, env);
  }

  /**
   * On-topic with results: the generator runs on the formatted results and
   * the ranker is never visited.
   */
  lemma SuccessPath(f: Fields, env: Env)
    requires f.query.Some? && env.classify(f.query.value) == "Yes"
    requires |env.retrieve(f.query.value)| > 0
    ensures Run(f, env).status == Finished
    ensures Run(f, env).visited == ["check_topic", "self_query_retrieve", "rag_recommender"]
    ensures Run(f, env).final.products == Some(FormatDocs(env.retrieve(f.query.value)))
    ensures Run(f, env).final.recommendation
      == Some(env.generate(RagNode.RagChainInput(FormatDocs(env.retrieve(f.query.value)), f.query.value)))
  {
    var q := f.query.value;
    var g1 := CheckTopicNode.ApplyScore(f, "Yes");
    TopicRoutes(g1);
    var g2 := SelfQueryNode.RecordResults(g1, env.retrieve(q));
    assert Exec(SelfQueryRetrieve, g1, env) == Ok(g2);
    SelfQueryRoutes(g2);
    RagRun(g2, env);
  }

  /**
   * On-topic without results: the run falls back to the ranker, whose text
   * (even if empty) is what the generator receives.
   */
  lemma EmptyPath(f: Fields, env: Env)
    requires f.query.Some? && env.classify(f.query.value) == "Yes"
    requires |env.retrieve(f.query.value)| == 0
    ensures Run(f, env).status == Finished
    ensures Run(f, env).visited == ["check_topic", "self_query_retrieve", "ranker", "rag_recommender"]
    ensures Run(f, env).final.selfQueryState == Some(SelfQueryNode.Empty)
    ensures Run(f, env).final.products == Some(RankerNode.BuildRanker(f.query.value, env.rerank))
    ensures Run(f, env).final.recommendation
      == Some(env.generate(RagNode.RagChainInput(RankerNode.BuildRanker(f.query.value, env.rerank), f.query.value)))
  {
    var q := f.query.value;
    var g1 := CheckTopicNode.ApplyScore(f, "Yes");
    TopicRoutes(g1);
    var g2 := SelfQueryNode.RecordResults(g1, env.retrieve(q));
    assert Exec(SelfQueryRetrieve, g1, env) == Ok(g2);
    SelfQueryRoutes(g2);
    RankerRun(g2, env);
  }

  /**
   * A run finishes exactly when the query is present and the classifier
   * answers "Yes" or "No"; then a recommendation is set. With a query
   * present nothing raises: `products` is always written before
   * `rag_recommender` reads it.
   */
  lemma RunOutcome(f: Fields, env: Env)
    ensures Run(f, env).status == Finished
      <==> f.query.Some? && (env.classify(f.query.value) == "Yes" || env.classify(f.query.value) == "No")
    ensures Run(f, env).status == Finished ==> Run(f, env).final.recommendation.Some?
    ensures f.query.Some? ==> !Run(f, env).status.Raised?
    ensures !Run(f, env).status.Stuck?
  {
    if f.query.None? {
      MissingQueryRaises(f, env);
    } else {
      var score := env.classify(f.query.value);
      if score == "No" {
        OffTopicRefuses(f, env);
      } else if score == "Yes" {
        if |env.retrieve(f.query.value)| > 0 {
          SuccessPath(f, env);
        } else {
          EmptyPath(f, env);
        }
      } else {
        UnknownTopicUnrouted(f, env);
      }
    }
  }

  /**
   * A request as the API and the script issue it, `invoke({"query": q})`:
   * the run finishes exactly when the classifier answers "Yes" or "No", and
   * then carries a recommendation, so the API's "No recommendation found"
   * default is never used; any other answer leaves the run unrouted (an
   * exception in langgraph, which the API reports as an error). An off-topic
   * query ends with the refusal and without any products or retrieval tag.
   */
  lemma QueryRun(q: string, env: Env)
    ensures var t := Run(Initial(q), env);
      && (t.status == Finished <==> env.classify(q) == "Yes" || env.classify(q) == "No")
      && (t.status == Finished ==> t.final.recommendation.Some?)
      && (t.status != Finished ==> t.status == Unrouted(env.classify(q)))
      && t.final.query == Some(q)
      && t.final.onTopic == Some(env.classify(q))
  {
    var f := Initial(q);
    RunOutcome(f, env);
    var score := env.classify(q);
    if score != "Yes" && score != "No" {
      UnknownTopicUnrouted(f, env);
    }
    RunKeepsQuery("check_topic", f, env);
    var g := CheckTopicNode.ApplyScore(f, score);
    assert Exec(TopicClassifier, f, env) == Ok(g);
    var h := Successor(RecommenderGraph, "check_topic", g);
    if h.Next? {
      SuccessorDescends("check_topic", g);
      RunKeepsQuery(h.name, g, env);
    }
  }

  /**
   * No node changes `query`, and none after `check_topic` changes
   * `on_topic`: the routing tag a run was sent on stays in its final state.
   */
  lemma RunKeepsQuery(name: string, f: Fields, env: Env)
    requires name in RecommenderGraph.nodes
    ensures RunFrom(name, f, env).final.query == f.query
    ensures name != "check_topic" ==> RunFrom(name, f, env).final.onTopic == f.onTopic
    decreases Rank(name)
  {
    match Exec(RecommenderGraph.nodes[name], f, env)
    case KeyError(_) =>
    case Ok(g) =>
      var h := Successor(RecommenderGraph, name, g);
      if h.Next? {
        SuccessorDescends(name, g);
        RunKeepsQuery(h.name, g, env);
      }
  }

  /** An off-topic request ends with exactly the refusal; `products` and `self_query_state` are never written. */
  lemma QueryOffTopic(q: string, env: Env)
    requires env.classify(q) == "No"
    ensures Run(Initial(q), env).final
      == Fields(Some(q), Some("No"), Some(CheckTopicNode.Refusal), None, None)
  {
    OffTopicRefuses(Initial(q), env);
  }

  /** Runs a node function on the state object in place. */
  method ExecNode(a: Action, state: RecState, env: Env) returns (r: Raised<RecState>)
    modifies state
    ensures Reflects(r, state, Exec(a, old(state.View()), env), old(state.View()))
  {
    match a
    case TopicClassifier => r := CheckTopicNode.TopicClassifier(state, env.classify);
    case SelfQueryRetrieve => r := SelfQueryNode.SelfQueryRetrieve(state, env.retrieve);
    case Ranker => r := RankerNode.Ranker(state, env.rerank);
    case RagRecommender => r := RagNode.RagRecommender(state, env.generate);
  }

  /** Prefixing by `prefix` after `[name]` is prefixing by `prefix + [name]`. */
  lemma PrefixedTwice(prefix: seq<string>, name: string, t: Trace)
    ensures Prefixed(prefix, Prefixed([name], t)) == Prefixed(prefix + [name], t)
  {
    assert prefix + ([name] + t.visited) == (prefix + [name]) + t.visited;
  }

  /**
   * One turn of the run loop: execute node `cur` on the state object, then
   * either hand back the next node or end with a status. Either way this
   * is the first step of the run from `cur`.
   */
  method Step(cur: string, state: RecState, env: Env) returns (next: Option<string>, status: Status)
    requires cur in RecommenderGraph.nodes
    modifies state
    ensures next.Some? ==> next.value in RecommenderGraph.nodes && Rank(next.value) < Rank(cur)
    ensures next.Some? ==>
      RunFrom(cur, old(state.View()), env) == Prefixed([cur], RunFrom(next.value, state.View(), env))
    ensures next.None? ==> RunFrom(cur, old(state.View()), env) == Trace(status, [cur], state.View())
  {
    var r := ExecNode(RecommenderGraph.nodes[cur], state, env);
    if r.KeyError? {
      return None, Raised(r.key);
    }
    var hop := Successor(RecommenderGraph, cur, state.View());
    if hop.Next? {
      SuccessorDescends(cur, state.View());
      return Some(hop.name), Stuck;
    }
    return None, Halt(hop);
  }

  /**
   * `app.invoke(state)`: starting at the entry point, run each node on the
   * state object and follow its hop until the run ends. The outcome, the
   * visited nodes and the final state are those of `Run`.
   */
  method Invoke(state: RecState, env: Env) returns (status: Status, visited: seq<string>)
    modifies state
    ensures status == Run(old(state.View()), env).status
    ensures visited == Run(old(state.View()), env).visited
    ensures state.View() == Run(old(state.View()), env).final
  {
    ghost var goal := Run(state.View(), env);
    var cur := "check_topic";
    var done := false;
    visited := [];
    status := Stuck;
    while !done
      invariant cur in RecommenderGraph.nodes
      invariant !done ==> goal == Prefixed(visited, RunFrom(cur, state.View(), env))
      invariant done ==> goal == Trace(status, visited, state.View())
      decreases if done then 0 else 1, Rank(cur)
    {
      ghost var prefix := visited;
      var next, s := Step(cur, state, env);
      visited := visited + [cur];
      if next.Some? {
        PrefixedTwice(prefix, cur, RunFrom(next.value, state.View(), env));
        cur := next.value;
      } else {
        status := s;
        done := true;
      }
    }
  }
}
