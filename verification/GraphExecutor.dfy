/** The fallback graph library of review_graph.py: a design of named nodes and edges, and the
    worklist that runs it. */
module GraphExecutor {
  import opened Text

  /** How running a node, or a whole graph, ends. An exception leaves the state reached so far. */
  datatype Outcome<S> = Done(state: S) | Raised(state: S)

  /** A conditional edge: `path` reads the state (and may raise), `targets` maps what it says to a node. */
  datatype Branch<!N(==), !S> = Branch(path: S -> Option<string>, targets: map<string, N>)

  datatype Graph<!N(==), !S> = Graph(
    start: N, end: N, nodes: map<N, S -> Outcome<S>>, edges: map<N, seq<N>>, branches: map<N, Branch<N, S>>)

  class StateGraph<N(==), S> {
    const start: N
    const end: N
    var nodes: map<N, S -> Outcome<S>>
    var edges: map<N, seq<N>>
    var branches: map<N, Branch<N, S>>

    constructor (start: N, end: N)
      ensures this.start == start && this.end == end && nodes == map[] && edges == map[] && branches == map[]
    {
      this.start, this.end := start, end;
      nodes, edges, branches := map[], map[], map[];
    }

    method AddNode(name: N, node: S -> Outcome<S>)
      modifies this
      ensures nodes == old(nodes)[name := node] && edges == old(edges) && branches == old(branches)
    {
      nodes := nodes[name := node];
    }

    method AddEdge(source: N, target: N)
      modifies this
      ensures edges == old(edges)[source := (if source in old(edges) then old(edges)[source] else []) + [target]]
      ensures nodes == old(nodes) && branches == old(branches)
    {
      if source !in edges {
        edges := edges[source := []];
      }
      edges := edges[source := edges[source] + [target]];
    }

    method AddConditionalEdges(source: N, path: S -> Option<string>, targets: map<string, N>)
      modifies this
      ensures branches == old(branches)[source := Branch(path, targets)] && nodes == old(nodes) && edges == old(edges)
    {
      branches := branches[source := Branch(path, targets)];
    }

    method Compile() returns (g: Graph<N, S>)
      ensures g == Graph(start, end, nodes, edges, branches)
    {
      g := Graph(start, end, nodes, edges, branches);
    }
  }

  function Targets<N, S>(g: Graph<N, S>, n: N): seq<N> {
    if n in g.edges then g.edges[n] else []
  }

  /** The nodes of a worklist that can run. */
  function Runnable<N(==)>(end: N, pending: seq<N>): seq<N> {
    if pending == [] then []
    else (if pending[0] == end then [] else [pending[0]]) + Runnable(end, pending[1..])
  }

  function CallNode<N, S>(g: Graph<N, S>, n: N, s: S): Outcome<S> {
    if n in g.nodes then g.nodes[n](s) else Raised(s)
  }

  /** The worklist after node n has left state s; None when the branch raises. */
  function Following<N, S>(g: Graph<N, S>, n: N, s: S): Option<seq<N>> {
    if n in g.branches then
      var said := g.branches[n].path(s);
      if said.None? || said.value !in g.branches[n].targets then None
      else Some(Runnable(g.end, [g.branches[n].targets[said.value]]))
    else Some(Runnable(g.end, Targets(g, n)))
  }

  // ---------------------------------------------------------------- walks

  /** path is what can run, to the end, from a worklist in state s: each node one of those pending
      when it runs, each worklist the edges out of the node before. A leftmost walk always takes
      the first of the pending nodes. */
  ghost predicate Walk<N, S>(g: Graph<N, S>, leftmost: bool, pending: seq<N>, s: S, path: seq<N>, finish: Outcome<S>)
    decreases path
  {
    var runnable := Runnable(g.end, pending);
    if path == [] then runnable == [] && finish == Done(s)
    else
      && path[0] in runnable
      && (leftmost ==> path[0] == runnable[0])
      && match CallNode(g, path[0], s) {
        case Raised(t) => |path| == 1 && finish == Raised(t)
        case Done(t) =>
          match Following(g, path[0], t)
          case None => |path| == 1 && finish == Raised(t)
          case Some(next) => Walk(g, leftmost, next, t, path[1..], finish)
      }
  }

  /** The rank falls along every edge that does not end the run. */
  ghost predicate Falls<N(!new), S>(g: Graph<N, S>, rank: N -> nat) {
    && (forall n, t :: n in g.edges && t in g.edges[n] && t != g.end ==> rank(t) < rank(n))
    && (forall n, k :: n in g.branches && k in g.branches[n].targets && g.branches[n].targets[k] != g.end ==>
          rank(g.branches[n].targets[k]) < rank(n))
  }

  ghost function Height<N>(rank: N -> nat, pending: seq<N>): nat {
    if pending == [] then 0
    else
      var rest := Height(rank, pending[1..]);
      if rank(pending[0]) + 1 > rest then rank(pending[0]) + 1 else rest
  }

  lemma {:induction false} HeightBelow<N>(rank: N -> nat, pending: seq<N>, bound: nat)
    requires forall n :: n in pending ==> rank(n) < bound
    ensures Height(rank, pending) <= bound
  {
    if pending != [] {
      HeightBelow(rank, pending[1..], bound);
    }
  }

  lemma {:induction false} RunnableAre<N>(end: N, pending: seq<N>)
    ensures forall n :: n in Runnable(end, pending) <==> n in pending && n != end
  {
    if pending != [] {
      RunnableAre(end, pending[1..]);
      assert pending == [pending[0]] + pending[1..];
    }
  }

  lemma {:induction false} RunnableAgain<N>(end: N, pending: seq<N>)
    ensures Runnable(end, Runnable(end, pending)) == Runnable(end, pending)
  {
    if pending != [] {
      RunnableAgain(end, pending[1..]);
      var r := Runnable(end, pending[1..]);
      if pending[0] != end {
        assert ([pending[0]] + r)[1..] == r;
      } else {
        assert [] + r == r;
      }
    }
  }

  lemma FollowingFalls<N(!new), S>(g: Graph<N, S>, rank: N -> nat, n: N, s: S)
    requires Falls(g, rank) && Following(g, n, s).Some?
    ensures Height(rank, Following(g, n, s).value) <= rank(n)
  {
    var next := Following(g, n, s).value;
    if n in g.branches {
      RunnableAre(g.end, [g.branches[n].targets[g.branches[n].path(s).value]]);
    } else {
      RunnableAre(g.end, Targets(g, n));
    }
    HeightBelow(rank, next, rank(n));
  }

  /** Whatever a walk is from the rest, putting a first node before it makes a walk of the whole. */
  ghost predicate Extends<N(!new), S(!new)>(
    g: Graph<N, S>, first: seq<N>, input: S, done: seq<N>, pending: seq<N>, s: S)
  {
    forall rest, finish :: Walk(g, true, pending, s, rest, finish) ==> Walk(g, true, first, input, done + rest, finish)
  }

  lemma ExtendsStart<N(!new), S(!new)>(g: Graph<N, S>, first: seq<N>, input: S)
    ensures Extends(g, first, input, [], first, input)
  {
    forall rest, finish | Walk(g, true, first, input, rest, finish)
      ensures Walk(g, true, first, input, [] + rest, finish)
    {
      assert [] + rest == rest;
    }
  }

  lemma ExtendsStep<N(!new), S(!new)>(
    g: Graph<N, S>, first: seq<N>, input: S, done: seq<N>, pending: seq<N>, s: S, t: S, next: seq<N>)
    requires Extends(g, first, input, done, pending, s) && pending != [] && pending[0] != g.end
    requires CallNode(g, pending[0], s) == Done(t) && Following(g, pending[0], t) == Some(next)
    ensures Extends(g, first, input, done + [pending[0]], next, t)
  {
    forall rest, finish | Walk(g, true, next, t, rest, finish)
      ensures Walk(g, true, first, input, (done + [pending[0]]) + rest, finish)
    {
      var path := [pending[0]] + rest;
      assert path[1..] == rest;
      assert Walk(g, true, pending, s, path, finish);
      assert done + path == (done + [pending[0]]) + rest;
    }
  }

  lemma ExtendsRaise<N(!new), S(!new)>(
    g: Graph<N, S>, first: seq<N>, input: S, done: seq<N>, pending: seq<N>, s: S, finish: Outcome<S>)
    requires Extends(g, first, input, done, pending, s) && pending != [] && pending[0] != g.end && finish.Raised?
    requires CallNode(g, pending[0], s) == finish
          || (CallNode(g, pending[0], s) == Done(finish.state) && Following(g, pending[0], finish.state) == None)
    ensures Walk(g, true, first, input, done + [pending[0]], finish)
  {
  }

  /** _LocalCompiledGraph.invoke. Where a rank falls along the edges it ends, and what it has run is
      the leftmost walk. */
  method Invoke<N(==, !new), S(!new)>(g: Graph<N, S>, input: S, ghost rank: N -> nat)
    returns (finish: Outcome<S>, ghost path: seq<N>)
    requires Falls(g, rank)
    ensures exists walked :: Walk(g, true, Targets(g, g.start), input, walked, finish)
    ensures Walk(g, true, Targets(g, g.start), input, path, finish)
  {
    var state := input;
    var next := Targets(g, g.start);
    path := [];
    ExtendsStart(g, next, input);
    while next != []
      invariant Extends(g, Targets(g, g.start), input, path, next, state)
      decreases Height(rank, next), |next|
    {
      var node := next[0];
      if node == g.end {
        next := next[1..];
        continue;
      }
      finish := CallNode(g, node, state);
      if finish.Raised? {
        ExtendsRaise(g, Targets(g, g.start), input, path, next, state, finish);
        path := path + [node];
        return;
      }
      var update := finish.state;
      var queue := Following(g, node, update);
      if queue.None? {
        finish := Raised(update);
        ExtendsRaise(g, Targets(g, g.start), input, path, next, state, finish);
        path := path + [node];
        return;
      }
      FollowingFalls(g, rank, node, update);
      ExtendsStep(g, Targets(g, g.start), input, path, next, state, update, queue.value);
      path := path + [node];
      state, next := update, queue.value;
    }
    finish := Done(state);
    assert Walk(g, true, next, state, [], finish);
    assert path + [] == path;
  }

  // ---------------------------------------------------------------- one path only

  ghost predicate OneChoice<N>(end: N, pending: seq<N>) {
    forall a, b :: a in pending && b in pending && a != end && b != end ==> a == b
  }

  ghost predicate Sequential<N(!new), S>(g: Graph<N, S>) {
    forall n :: n in g.edges ==> OneChoice(g.end, g.edges[n])
  }

  lemma FollowingOneChoice<N(!new), S>(g: Graph<N, S>, n: N, s: S)
    requires Sequential(g) && Following(g, n, s).Some?
    ensures OneChoice(g.end, Following(g, n, s).value)
  {
    if n in g.branches {
      RunnableAre(g.end, [g.branches[n].targets[g.branches[n].path(s).value]]);
    } else {
      RunnableAre(g.end, Targets(g, n));
    }
  }

  /** Where no node has two successors to choose from, all walks are one and the same. */
  lemma {:induction false} WalksAgree<N(!new), S>(
    g: Graph<N, S>, left1: bool, left2: bool, pending: seq<N>, s: S, path1: seq<N>, finish1: Outcome<S>, path2: seq<N>,
    finish2: Outcome<S>)
    requires Sequential(g) && OneChoice(g.end, pending)
    requires Walk(g, left1, pending, s, path1, finish1) && Walk(g, left2, pending, s, path2, finish2)
    ensures path1 == path2 && finish1 == finish2
    decreases path1
  {
    RunnableAre(g.end, pending);
    if path1 != [] {
      var n := path1[0];
      assert path2 != [] && path2[0] == n;
      if CallNode(g, n, s).Done? && Following(g, n, CallNode(g, n, s).state).Some? {
        var t := CallNode(g, n, s).state;
        FollowingOneChoice(g, n, t);
        WalksAgree(g, left1, left2, Following(g, n, t).value, t, path1[1..], finish1, path2[1..], finish2);
      }
      assert path1 == [n] + path1[1..] && path2 == [n] + path2[1..];
    }
  }

  /** With several successors to choose from, the run is still determined: it is the leftmost one. */
  lemma {:induction false} LeftmostAgree<N, S>(
    g: Graph<N, S>, pending: seq<N>, s: S, path1: seq<N>, finish1: Outcome<S>, path2: seq<N>, finish2: Outcome<S>)
    requires Walk(g, true, pending, s, path1, finish1) && Walk(g, true, pending, s, path2, finish2)
    ensures path1 == path2 && finish1 == finish2
    decreases path1
  {
    if path1 != [] {
      var n := path1[0];
      if CallNode(g, n, s).Done? && Following(g, n, CallNode(g, n, s).state).Some? {
        var t := CallNode(g, n, s).state;
        LeftmostAgree(g, Following(g, n, t).value, t, path1[1..], finish1, path2[1..], finish2);
      }
      assert path1 == [n] + path1[1..] && path2 == [n] + path2[1..];
    }
  }

  /** A walk with one node pending runs it and goes on from there. */
  lemma WalkOne<N, S>(g: Graph<N, S>, leftmost: bool, n: N, s: S, path: seq<N>, finish: Outcome<S>)
    requires n != g.end && Walk(g, leftmost, [n], s, path, finish)
    ensures path != [] && path == [n] + path[1..]
    ensures CallNode(g, n, s).Raised? ==> path == [n] && finish == CallNode(g, n, s)
  {
    assert Runnable(g.end, [n]) == [n];
  }

  lemma WalkOn<N, S>(
    g: Graph<N, S>, leftmost: bool, n: N, s: S, path: seq<N>, finish: Outcome<S>, t: S, next: seq<N>)
    requires path != [] && path[0] == n && Walk(g, leftmost, [n], s, path, finish)
    requires CallNode(g, n, s) == Done(t) && Following(g, n, t) == Some(next)
    ensures Walk(g, leftmost, next, t, path[1..], finish)
  {
  }

  lemma WalkNone<N, S>(g: Graph<N, S>, leftmost: bool, s: S, path: seq<N>, finish: Outcome<S>)
    requires Walk(g, leftmost, [], s, path, finish)
    ensures path == [] && finish == Done(s)
  {
  }
}
