/**
  `check_circular_deps` of specs/index_specs.py: a three-colour depth-first search whose
  colours, path and list of issues are shared by all the recursive calls.
  */
module CircularDeps {

  /** The dependencies of each spec; a dependency need not be a key itself. */
  type Graph = map<string, set<string>>

  datatype Color = White | Gray | Black

  type Edge = (string, string)

  // ------------------------------------------- what a cycle is

  function Deps(g: Graph, n: string): set<string> {
    if n in g then g[n] else {}
  }

  predicate Walk(g: Graph, w: seq<string>) {
    forall i :: 0 <= i < |w| - 1 ==> w[i + 1] in Deps(g, w[i])
  }

  predicate ClosedWalk(g: Graph, w: seq<string>) {
    |w| >= 2 && w[0] == w[|w| - 1] && Walk(g, w)
  }

  predicate Distinct<T(==)>(s: seq<T>) {
    forall i, j :: 0 <= i < j < |s| ==> s[i] != s[j]
  }

  /** A closed walk that meets no spec twice. */
  predicate SimpleCycle(g: Graph, w: seq<string>) {
    ClosedWalk(g, w) && Distinct(w[..|w| - 1])
  }

  ghost predicate Acyclic(g: Graph) {
    forall w :: !ClosedWalk(g, w)
  }

  function LastEdge(w: seq<string>): Edge {
    if |w| >= 2 then (w[|w| - 2], w[|w| - 1]) else ("", "")
  }

  /** The edges that closed the reported cycles. */
  function BackEdges(issues: seq<seq<string>>): set<Edge> {
    set w | w in issues :: LastEdge(w)
  }

  /** No two issues report the same edge. */
  predicate DistinctBackEdges(issues: seq<seq<string>>) {
    forall i, j :: 0 <= i < j < |issues| ==> LastEdge(issues[i]) != LastEdge(issues[j])
  }

  function WithoutEdges(g: Graph, cut: set<Edge>): Graph {
    map n | n in g :: set d | d in g[n] && (n, d) !in cut
  }

  // ------------------------------------------- orders rule out cycles

  /** Every edge that is not cut leads from a spec in `order` to an earlier one. */
  ghost predicate Topological(g: Graph, order: seq<string>, cut: set<Edge>) {
    forall i, d :: 0 <= i < |order| && d in Deps(g, order[i]) ==> d in order[..i] || (order[i], d) in cut
  }

  function IndexOf(s: seq<string>, x: string): (k: nat)
    requires x in s
    ensures k < |s| && s[k] == x && x !in s[..k]
  {
    if s[0] == x then 0 else 1 + IndexOf(s[1..], x)
  }

  lemma {:induction false} WalkDescends(g: Graph, order: seq<string>, w: seq<string>, k: nat)
    requires Topological(g, order, {}) && forall n | n in g :: n in order
    requires Walk(g, w) && 1 <= k < |w|
    ensures w[0] in order && w[k] in order && IndexOf(order, w[k]) < IndexOf(order, w[0])
  {
    assert w[k] in Deps(g, w[k - 1]);
    if k == 1 {
      StepDescends(g, order, w[0], w[1]);
    } else {
      WalkDescends(g, order, w, k - 1);
      StepDescends(g, order, w[k - 1], w[k]);
    }
  }

  lemma StepDescends(g: Graph, order: seq<string>, n: string, d: string)
    requires Topological(g, order, {}) && forall n | n in g :: n in order
    requires d in Deps(g, n)
    ensures n in order && d in order && IndexOf(order, d) < IndexOf(order, n)
  {
    var i := IndexOf(order, n);
    assert d in Deps(g, order[i]);
    assert d in order[..i];
    var k :| 0 <= k < i && order[k] == d;
    assert IndexOf(order, d) <= k by {
      assert forall j :: 0 <= j < IndexOf(order, d) ==> order[..IndexOf(order, d)][j] == order[j];
    }
  }

  lemma OrderedIsAcyclic(g: Graph, order: seq<string>)
    requires Topological(g, order, {}) && forall n | n in g :: n in order
    ensures Acyclic(g)
  {
    forall w ensures !ClosedWalk(g, w) {
      if ClosedWalk(g, w) {
        WalkDescends(g, order, w, |w| - 1);
        assert false;
      }
    }
  }

  lemma CuttingLeavesOrder(g: Graph, order: seq<string>, cut: set<Edge>)
    requires Topological(g, order, cut)
    ensures Topological(WithoutEdges(g, cut), order, {})
  {
    var h := WithoutEdges(g, cut);
    forall i, d | 0 <= i < |order| && d in Deps(h, order[i])
      ensures d in order[..i]
    {
      assert d in Deps(g, order[i]);
    }
  }

  /** An edge from the end of a path back into it closes a simple cycle. */
  lemma EndOfPathIsCycle(g: Graph, path: seq<string>, k: nat)
    requires Walk(g, path) && Distinct(path) && k < |path| && path[k] in Deps(g, path[|path| - 1])
    ensures var cycle := path[k..] + [path[k]];
      SimpleCycle(g, cycle) && LastEdge(cycle) == (path[|path| - 1], path[k])
  {
    var cycle := path[k..] + [path[k]];
    assert cycle[..|cycle| - 1] == path[k..];
  }

  lemma PopsOne(path: seq<string>)
    requires path != [] && Distinct(path)
    ensures var last := |path| - 1;
      path[last] !in path[..last] && forall n :: n in path <==> n in path[..last] || n == path[last]
  {
  }

  /** A spec whose edges are all explained can be put at the end of the order. */
  lemma FinishingKeepsOrder(g: Graph, order: seq<string>, n: string, cut: set<Edge>)
    requires Topological(g, order, cut) && Distinct(order) && n !in order
    requires forall d :: d in Deps(g, n) ==> d in order || (n, d) in cut
    ensures Topological(g, order + [n], cut) && Distinct(order + [n])
    ensures forall m :: m in order + [n] <==> m in order || m == n
  {
    assert forall i :: 0 <= i <= |order| ==> (order + [n])[..i] == order[..i];
    assert order[..|order|] == order;
  }

  // ------------------------------------------- the search

  class Search {
    const graph: Graph
    ghost const universe: set<string>
    var color: map<string, Color>
    var path: seq<string>
    var issues: seq<seq<string>>
    ghost var finished: seq<string>   // the specs in the order they turned BLACK

    function ColorOf(n: string): Color
      reads this`color
    {
      if n in color then color[n] else White
    }

    ghost predicate Valid()
      reads this
    {
      && (forall n :: n in graph ==> n in universe && graph[n] <= universe)
      && (forall n :: n in path <==> ColorOf(n) == Gray)
      && (forall n :: n in finished <==> ColorOf(n) == Black)
      && (forall n :: n in path || n in finished ==> n in universe)
      && Distinct(path) && Distinct(finished)
      && Walk(graph, path)
      && (forall w :: w in issues ==> SimpleCycle(graph, w))
      && DistinctBackEdges(issues)
      && (forall e :: e in BackEdges(issues) ==> e.0 in path || e.0 in finished)
      && Topological(graph, finished, BackEdges(issues))
    }

    /** The edge from `n` to `d` has been followed to its end, or has been reported. */
    ghost predicate Explored(n: string, d: string)
      reads this
    {
      d in finished || (n, d) in BackEdges(issues)
    }

    ghost function Unseen(): set<string>
      reads this
    {
      set n | n in universe && ColorOf(n) == White
    }

    constructor (graph: Graph)
      ensures Valid() && this.graph == graph
      ensures path == [] && issues == [] && finished == []
    {
      this.graph := graph;
      this.universe := graph.Keys + set n, d | n in graph && d in graph[n] :: d;
      color := map n | n in graph :: White;
      path, issues, finished := [], [], [];
    }

    method Enter(node: string)
      requires Valid() && ColorOf(node) == White && node in universe
      requires path != [] ==> node in Deps(graph, path[|path| - 1])
      modifies this`color, this`path
      ensures Valid() && path == old(path) + [node] && ColorOf(node) == Gray
      ensures Unseen() == old(Unseen()) - {node}
    {
      color := color[node := Gray];
      path := path + [node];
      assert node !in old(path);
    }

    /** A GRAY dependency closes a cycle with the end of the path. */
    method Report(dep: string)
      requires Valid() && path != [] && dep in path && dep in Deps(graph, path[|path| - 1])
      requires (path[|path| - 1], dep) !in BackEdges(issues)
      modifies this`issues
      ensures Valid() && |issues| == |old(issues)| + 1 && issues[..|old(issues)|] == old(issues)
      ensures LastEdge(issues[|old(issues)|]) == (path[|path| - 1], dep)
      ensures BackEdges(issues) == BackEdges(old(issues)) + {(path[|path| - 1], dep)}
    {
      var k := IndexOf(path, dep);
      var cycle := path[k..] + [dep];
      EndOfPathIsCycle(graph, path, k);
      issues := issues + [cycle];
    }

    method Leave(node: string)
      requires Valid() && path != [] && path[|path| - 1] == node
      requires forall d :: d in Deps(graph, node) ==> Explored(node, d)
      modifies this`color, this`path, this`finished
      ensures Valid() && path == old(path)[..|old(path)| - 1] && finished == old(finished) + [node]
      ensures Unseen() == old(Unseen())
    {
      var last := |path| - 1;
      PopsOne(path);
      assert node in path && node !in finished;
      FinishingKeepsOrder(graph, finished, node, BackEdges(issues));
      path := path[..last];
      color := color[node := Black];
      finished := finished + [node];
    }

    /** What every part of the search leaves in place. */
    twostate predicate Extends()
      reads this
    {
      && path == old(path)
      && old(finished) <= finished && (forall n | n in old(finished) :: n in finished)
      && old(issues) <= issues && BackEdges(old(issues)) <= BackEdges(issues)
      && Unseen() <= old(Unseen())
    }

    method Dfs(node: string)
      requires Valid() && ColorOf(node) == White && node in universe
      requires path != [] ==> node in Deps(graph, path[|path| - 1])
      modifies this
      ensures Valid() && Extends() && node in finished
      ensures forall e | e in BackEdges(issues) && e !in BackEdges(old(issues)) :: e.0 !in path
      decreases Unseen(), 0
    {
      Enter(node);
      var deps := if node in graph then graph[node] else {};
      var rest := deps;
      while rest != {}
        invariant rest <= deps
        invariant Valid() && path == old(path) + [node]
        invariant old(finished) <= finished && (forall n | n in old(finished) :: n in finished)
        invariant old(issues) <= issues && BackEdges(old(issues)) <= BackEdges(issues)
        invariant Unseen() < old(Unseen())
        invariant forall d | d in deps && d !in rest :: d in finished || (node, d) in BackEdges(issues)
        invariant forall d | (node, d) in BackEdges(issues) :: d in deps && d !in rest
        invariant forall e | e in BackEdges(issues) && e !in BackEdges(old(issues)) :: e.0 !in old(path)
        decreases rest
      {
        var dep :| dep in rest;
        Follow(dep);
        rest := rest - {dep};
      }
      Leave(node);
    }

    /** One dependency of the spec at the end of the path. */
    method Follow(dep: string)
      requires Valid() && path != [] && dep in Deps(graph, path[|path| - 1])
      requires (path[|path| - 1], dep) !in BackEdges(issues)
      modifies this
      ensures Valid() && Extends() && Explored(path[|path| - 1], dep)
      ensures forall e | e in BackEdges(issues) && e !in BackEdges(old(issues)) ::
        e.0 !in path || e == (path[|path| - 1], dep)
      decreases Unseen(), 1
    {
      if ColorOf(dep) == Gray {
        Report(dep);
      } else if ColorOf(dep) == White {
        Dfs(dep);
      }
    }
  }

  /** The whole check. `order` is the order in which the specs turned BLACK. */
  method CheckCircularDeps(g: Graph) returns (issues: seq<seq<string>>, ghost order: seq<string>)
    ensures forall w | w in issues :: SimpleCycle(g, w)
    ensures DistinctBackEdges(issues)
    ensures Distinct(order) && forall n | n in g :: n in order
    ensures Topological(g, order, BackEdges(issues))
    ensures Acyclic(WithoutEdges(g, BackEdges(issues)))
    ensures issues == [] <==> Acyclic(g)
  {
    var search := new Search(g);
    var rest := g.Keys;
    while rest != {}
      invariant rest <= g.Keys && search.graph == g && fresh(search)
      invariant search.Valid() && search.path == []
      invariant forall n | n in g && n !in rest :: n in search.finished
      decreases rest
    {
      var node :| node in rest;
      if search.ColorOf(node) == White {
        search.Dfs(node);
      }
      rest := rest - {node};
    }
    issues, order := search.issues, search.finished;
    NoIssuesIffAcyclic(g, issues, order);
  }

  lemma NoIssuesIffAcyclic(g: Graph, issues: seq<seq<string>>, order: seq<string>)
    requires forall w | w in issues :: SimpleCycle(g, w)
    requires forall n | n in g :: n in order
    requires Topological(g, order, BackEdges(issues))
    ensures Acyclic(WithoutEdges(g, BackEdges(issues)))
    ensures issues == [] <==> Acyclic(g)
  {
    CuttingLeavesOrder(g, order, BackEdges(issues));
    OrderedIsAcyclic(WithoutEdges(g, BackEdges(issues)), order);
    if issues == [] {
      assert BackEdges(issues) == {};
      OrderedIsAcyclic(g, order);
    } else {
      assert issues[0] in issues && SimpleCycle(g, issues[0]);
    }
  }
}
