/**
 The flow graph: lookup, the enabled subgraph, edge and identifier checks, and the depth-first
 cycle check with what its answer means for walks
 (apps/syslog-valve/internal/graph/graph.go and safety.go).
 */
module FlowGraph {
  import opened Common

  datatype NodeType = Source | Filter | Forward | Cache | Notify | Unknown

  datatype Node = Node(id: string, kind: NodeType, disabled: bool)

  datatype Edge = Edge(from: string, fromPort: string, to: string)

  datatype Graph = Graph(nodes: seq<Node>, edges: seq<Edge>)

  const PORT_MATCH := "match"
  const PORT_ELSE := "else"

  predicate IsSink(kind: NodeType) { kind == Forward || kind == Cache || kind == Notify }

  // ----- lookup

  /** The first node with this id. */
  function FindNode(nodes: seq<Node>, id: string): Option<Node> {
    if nodes == [] then None
    else if nodes[0].id == id then Some(nodes[0])
    else FindNode(nodes[1..], id)
  }

  function NodeOf(g: Graph, id: string): Option<Node> { FindNode(g.nodes, id) }

  lemma {:induction false} FindNodeIs(nodes: seq<Node>, id: string)
    ensures FindNode(nodes, id).Some? <==> exists n | n in nodes :: n.id == id
    ensures FindNode(nodes, id).Some? ==> FindNode(nodes, id).value in nodes && FindNode(nodes, id).value.id == id
  {
    if nodes != [] && nodes[0].id != id {
      FindNodeIs(nodes[1..], id);
      assert forall n | n in nodes :: n == nodes[0] || n in nodes[1..];
    }
  }

  ghost predicate UniqueIds(nodes: seq<Node>) {
    forall i, j | 0 <= i < j < |nodes| :: nodes[i].id != nodes[j].id
  }

  lemma FindsIt(nodes: seq<Node>, n: Node)
    requires UniqueIds(nodes) && n in nodes
    ensures FindNode(nodes, n.id) == Some(n)
  {
    FindNodeIs(nodes, n.id);
  }

  function EdgesFrom(edges: seq<Edge>, id: string): seq<Edge> {
    if edges == [] then []
    else
      var last := edges[|edges| - 1];
      EdgesFrom(edges[..|edges| - 1], id) + if last.from == id then [last] else []
  }

  lemma {:induction false} EdgesFromAre(edges: seq<Edge>, id: string)
    ensures forall e :: e in EdgesFrom(edges, id) <==> e in edges && e.from == id
  {
    if edges == [] {
    } else {
      EdgesFromAre(edges[..|edges| - 1], id);
      assert edges == edges[..|edges| - 1] + [edges[|edges| - 1]];
    }
  }

  method CollectEdgesFrom(g: Graph, id: string) returns (out: seq<Edge>)
    ensures out == EdgesFrom(g.edges, id)
  {
    out := [];
    for i := 0 to |g.edges|
      invariant out == EdgesFrom(g.edges[..i], id)
    {
      assert g.edges[..i + 1][..i] == g.edges[..i];
      if g.edges[i].from == id {
        out := out + [g.edges[i]];
      }
    }
    assert g.edges[..|g.edges|] == g.edges;
  }

  // ----- the enabled subgraph

  function EnabledNodes(nodes: seq<Node>): seq<Node> {
    if nodes == [] then []
    else
      var last := nodes[|nodes| - 1];
      EnabledNodes(nodes[..|nodes| - 1]) + if last.disabled then [] else [last]
  }

  function KeepEdges(edges: seq<Edge>, off: set<string>): seq<Edge> {
    if edges == [] then []
    else
      var last := edges[|edges| - 1];
      KeepEdges(edges[..|edges| - 1], off) + if last.from !in off && last.to !in off then [last] else []
  }

  function DisabledIds(g: Graph): set<string> { set n | n in g.nodes && n.disabled :: n.id }

  function Enabled(g: Graph): Graph {
    Graph(EnabledNodes(g.nodes), KeepEdges(g.edges, DisabledIds(g)))
  }

  method BuildEnabled(g: Graph) returns (out: Graph)
    ensures out == Enabled(g)
  {
    var off: set<string> := {};
    var nodes: seq<Node> := [];
    for i := 0 to |g.nodes|
      invariant nodes == EnabledNodes(g.nodes[..i])
      invariant off == set n | n in g.nodes[..i] && n.disabled :: n.id
    {
      assert g.nodes[..i + 1][..i] == g.nodes[..i];
      assert g.nodes[..i + 1] == g.nodes[..i] + [g.nodes[i]];
      if g.nodes[i].disabled {
        off := off + {g.nodes[i].id};
      } else {
        nodes := nodes + [g.nodes[i]];
      }
    }
    assert g.nodes[..|g.nodes|] == g.nodes;
    var edges: seq<Edge> := [];
    for i := 0 to |g.edges|
      invariant edges == KeepEdges(g.edges[..i], off)
    {
      assert g.edges[..i + 1][..i] == g.edges[..i];
      if g.edges[i].from !in off && g.edges[i].to !in off {
        edges := edges + [g.edges[i]];
      }
    }
    assert g.edges[..|g.edges|] == g.edges;
    out := Graph(nodes, edges);
  }

  lemma {:induction false} EnabledNodesAre(nodes: seq<Node>)
    ensures forall n :: n in EnabledNodes(nodes) <==> n in nodes && !n.disabled
    ensures UniqueIds(nodes) ==> UniqueIds(EnabledNodes(nodes))
  {
    if nodes == [] {
    } else {
      EnabledNodesAre(nodes[..|nodes| - 1]);
      assert nodes == nodes[..|nodes| - 1] + [nodes[|nodes| - 1]];
    }
  }

  lemma {:induction false} KeepEdgesAre(edges: seq<Edge>, off: set<string>)
    ensures forall e :: e in KeepEdges(edges, off) <==> e in edges && e.from !in off && e.to !in off
  {
    if edges == [] {
    } else {
      KeepEdgesAre(edges[..|edges| - 1], off);
      assert edges == edges[..|edges| - 1] + [edges[|edges| - 1]];
    }
  }

  /** Some node with this id is switched off. */
  ghost predicate Off(g: Graph, id: string) { exists n | n in g.nodes :: n.id == id && n.disabled }

  /** `a` is `b` without some of its elements, in the same order. */
  predicate Within<T(==)>(a: seq<T>, b: seq<T>) {
    if a == [] then true
    else if b == [] then false
    else (a[|a| - 1] == b[|b| - 1] && Within(a[..|a| - 1], b[..|b| - 1])) || Within(a, b[..|b| - 1])
  }

  lemma WithinMore<T>(a: seq<T>, b: seq<T>, x: T)
    requires Within(a, b)
    ensures Within(a, b + [x]) && Within(a + [x], b + [x])
  {
    assert (a + [x])[..|a|] == a && (b + [x])[..|b|] == b;
  }

  /** How often `x` stands in `s`. */
  function Occurrences<T(==)>(s: seq<T>, x: T): nat {
    if s == [] then 0 else Occurrences(s[..|s| - 1], x) + if s[|s| - 1] == x then 1 else 0
  }

  lemma OneMoreOccurs<T>(s: seq<T>, x: T, y: T)
    ensures Occurrences(s + [x], y) == Occurrences(s, y) + if x == y then 1 else 0
  {
    assert (s + [x])[..|s|] == s;
  }

  lemma {:induction false} EnabledNodesWithin(nodes: seq<Node>)
    ensures Within(EnabledNodes(nodes), nodes)
  {
    if nodes == [] {
    } else {
      var init, last := nodes[..|nodes| - 1], nodes[|nodes| - 1];
      EnabledNodesWithin(init);
      WithinMore(EnabledNodes(init), init, last);
      assert nodes == init + [last] && (EnabledNodes(nodes) == EnabledNodes(init) || EnabledNodes(nodes) == EnabledNodes(init) + [last]);
    }
  }

  lemma {:induction false} EnabledNodesCount(nodes: seq<Node>, n: Node)
    ensures Occurrences(EnabledNodes(nodes), n) == if n.disabled then 0 else Occurrences(nodes, n)
  {
    if nodes == [] {
    } else {
      var init, last := nodes[..|nodes| - 1], nodes[|nodes| - 1];
      EnabledNodesCount(init, n);
      OneMoreOccurs(EnabledNodes(init), last, n);
      assert EnabledNodes(init) + [] == EnabledNodes(init);
    }
  }

  lemma {:induction false} KeepEdgesWithin(edges: seq<Edge>, off: set<string>)
    ensures Within(KeepEdges(edges, off), edges)
  {
    if edges == [] {
    } else {
      var init, last := edges[..|edges| - 1], edges[|edges| - 1];
      KeepEdgesWithin(init, off);
      WithinMore(KeepEdges(init, off), init, last);
      assert edges == init + [last] && (KeepEdges(edges, off) == KeepEdges(init, off) || KeepEdges(edges, off) == KeepEdges(init, off) + [last]);
    }
  }

  lemma {:induction false} KeepEdgesCount(edges: seq<Edge>, off: set<string>, e: Edge)
    ensures Occurrences(KeepEdges(edges, off), e) == if e.from in off || e.to in off then 0 else Occurrences(edges, e)
  {
    if edges == [] {
    } else {
      var init, last := edges[..|edges| - 1], edges[|edges| - 1];
      KeepEdgesCount(init, off, e);
      OneMoreOccurs(KeepEdges(init, off), last, e);
      assert KeepEdges(init, off) + [] == KeepEdges(init, off);
    }
  }

  /**
   The enabled subgraph holds exactly the nodes that are not switched off and the edges that touch
   none that is, each as often as the graph does and in its order.
   */
  lemma EnabledIsExact(g: Graph)
    ensures Within(Enabled(g).nodes, g.nodes) && Within(Enabled(g).edges, g.edges)
    ensures forall n :: Occurrences(Enabled(g).nodes, n) == if n.disabled then 0 else Occurrences(g.nodes, n)
    ensures forall e :: Occurrences(Enabled(g).edges, e) == if Off(g, e.from) || Off(g, e.to) then 0 else Occurrences(g.edges, e)
  {
    assert forall id :: id in DisabledIds(g) <==> Off(g, id);
    forall n ensures Occurrences(Enabled(g).nodes, n) == if n.disabled then 0 else Occurrences(g.nodes, n) {
      EnabledNodesCount(g.nodes, n);
    }
    forall e ensures Occurrences(Enabled(g).edges, e) == if Off(g, e.from) || Off(g, e.to) then 0 else Occurrences(g.edges, e) {
      KeepEdgesCount(g.edges, DisabledIds(g), e);
    }
    EnabledNodesWithin(g.nodes);
    KeepEdgesWithin(g.edges, DisabledIds(g));
  }

  // ----- validation

  /** validateEdge returns nil. */
  ghost predicate EdgeOk(g: Graph, e: Edge) {
    var from, to := NodeOf(g, e.from), NodeOf(g, e.to);
    && from.Some? && to.Some?
    && (from.value.kind == Source || from.value.kind == Filter)
    && (from.value.kind == Source ==> e.fromPort == "")
    && (from.value.kind == Filter ==> e.fromPort == "" || e.fromPort == PORT_MATCH || e.fromPort == PORT_ELSE)
    && (to.value.kind == Filter || IsSink(to.value.kind))
  }

  ghost predicate EdgesOk(g: Graph) { forall e | e in g.edges :: EdgeOk(g, e) }

  ghost predicate KnownTypes(g: Graph) { forall n | n in g.nodes :: n.kind != Unknown }

  // ----- walks and cycles

  ghost predicate HasEdge(g: Graph, a: string, b: string) {
    exists e | e in g.edges :: e.from == a && e.to == b
  }

  ghost predicate IsWalk(g: Graph, p: seq<string>) {
    forall i | 0 <= i < |p| - 1 :: HasEdge(g, p[i], p[i + 1])
  }

  ghost predicate WalkFrom(g: Graph, p: seq<string>, a: string) {
    p != [] && p[0] == a && IsWalk(g, p)
  }

  function Last(p: seq<string>): string requires p != [] { p[|p| - 1] }

  /** The walk ends on a node it has already visited. */
  ghost predicate ClosesLoop(p: seq<string>) { p != [] && Last(p) in p[..|p| - 1] }

  /** Some walk from `a` runs into a cycle. */
  ghost predicate CyclicFrom(g: Graph, a: string) {
    exists p :: WalkFrom(g, p, a) && ClosesLoop(p)
  }

  ghost predicate AcyclicFromSources(g: Graph) {
    forall n | n in g.nodes && n.kind == Source :: !CyclicFrom(g, n.id)
  }

  function Targets(g: Graph): set<string> { set e | e in g.edges :: e.to }

  /** The recursive visit of checkCycles, with `stack` the ids on the current path, reports a cycle. */
  ghost predicate VisitFails(g: Graph, id: string, stack: set<string>)
    decreases |Targets(g) + {id} - stack|
  {
    id in stack || VisitSomeFails(g, id, stack, |g.edges|)
  }

  /** One of the first `n` edges out of `id` leads the visit into a cycle. */
  ghost predicate VisitSomeFails(g: Graph, id: string, stack: set<string>, n: nat)
    requires id !in stack && n <= |g.edges|
    decreases |Targets(g) + {id} - stack|, n
  {
    exists i | 0 <= i < n ::
      g.edges[i].from == id &&
      (VisitShrinks(g, id, stack, g.edges[i].to); VisitFails(g, g.edges[i].to, stack + {id}))
  }

  lemma VisitShrinks(g: Graph, id: string, stack: set<string>, to: string)
    requires id !in stack && to in Targets(g)
    ensures |Targets(g) + {to} - (stack + {id})| < |Targets(g) + {id} - stack|
  {
    var small, big := Targets(g) + {to} - (stack + {id}), Targets(g) + {id} - stack;
    assert small <= big - {id};
    SubsetSize(small, big - {id});
  }

  /** The ids on the current depth-first path, shared by the recursive visits. */
  class VisitStack {
    var ids: set<string>

    constructor ()
      ensures ids == {}
    {
      ids := {};
    }
  }

  method Visit(g: Graph, id: string, stack: VisitStack) returns (failed: bool)
    modifies stack
    ensures stack.ids == old(stack.ids)
    ensures failed == VisitFails(g, id, old(stack.ids))
    decreases |Targets(g) + {id} - stack.ids|
  {
    if id in stack.ids {
      return true;
    }
    ghost var before := stack.ids;
    stack.ids := stack.ids + {id};
    failed := false;
    var i := 0;
    while i < |g.edges| && !failed
      invariant 0 <= i <= |g.edges|
      invariant stack.ids == before + {id}
      invariant failed == VisitSomeFails(g, id, before, i)
    {
      if g.edges[i].from == id {
        VisitShrinks(g, id, before, g.edges[i].to);
        failed := Visit(g, g.edges[i].to, stack);
      }
      i := i + 1;
    }
    stack.ids := stack.ids - {id};
  }

  method CheckCycles(g: Graph) returns (ok: bool)
    ensures ok <==> AcyclicFromSources(g)
  {
    for i := 0 to |g.nodes|
      invariant forall k | 0 <= k < i && g.nodes[k].kind == Source :: !CyclicFrom(g, g.nodes[k].id)
    {
      if g.nodes[i].kind == Source {
        var stack := new VisitStack();
        var failed := Visit(g, g.nodes[i].id, stack);
        VisitFindsCycles(g, g.nodes[i].id);
        if failed {
          return false;
        }
      }
    }
    return true;
  }

  /** A failing visit exhibits a walk that ends on the stack or on itself. */
  lemma {:induction false} VisitFailsHasWalk(g: Graph, id: string, stack: set<string>) returns (p: seq<string>)
    requires VisitFails(g, id, stack)
    ensures WalkFrom(g, p, id) && (Last(p) in stack || ClosesLoop(p))
    decreases |Targets(g) + {id} - stack|
  {
    if id in stack {
      p := [id];
    } else {
      var i :| 0 <= i < |g.edges| && g.edges[i].from == id && VisitFails(g, g.edges[i].to, stack + {id});
      VisitShrinks(g, id, stack, g.edges[i].to);
      var q := VisitFailsHasWalk(g, g.edges[i].to, stack + {id});
      p := [id] + q;
      PrependWalk(g, id, q);
      assert Last(p) == Last(q);
      if Last(q) == id {
        assert p[..|p| - 1][0] == id;
      } else if ClosesLoop(q) {
        assert p[..|p| - 1] == [id] + q[..|q| - 1];
      }
    }
  }

  lemma PrependWalk(g: Graph, a: string, q: seq<string>)
    requires q != [] && IsWalk(g, q) && HasEdge(g, a, q[0])
    ensures WalkFrom(g, [a] + q, a)
  {
    var p := [a] + q;
    forall i | 0 <= i < |p| - 1 ensures HasEdge(g, p[i], p[i + 1]) {
      if i > 0 { assert p[i] == q[i - 1] && p[i + 1] == q[i]; }
    }
  }

  /** Conversely, any such walk makes the visit fail. */
  lemma {:induction false} WalkMakesVisitFail(g: Graph, id: string, stack: set<string>, p: seq<string>)
    requires WalkFrom(g, p, id) && (Last(p) in stack || ClosesLoop(p))
    ensures VisitFails(g, id, stack)
    decreases |p|
  {
    if id !in stack {
      var q := p[1..];
      assert HasEdge(g, p[0], p[1]);
      var i :| 0 <= i < |g.edges| && g.edges[i].from == p[0] && g.edges[i].to == p[1];
      assert Last(q) == Last(p);
      if ClosesLoop(p) && Last(p) != id {
        var k :| 0 <= k < |p| - 1 && p[k] == Last(p);
        assert q[..|q| - 1][k - 1] == Last(q);
      }
      forall k | 0 <= k < |q| - 1 ensures HasEdge(g, q[k], q[k + 1]) {
        assert HasEdge(g, p[k + 1], p[k + 2]);
      }
      WalkMakesVisitFail(g, p[1], stack + {id}, q);
      VisitShrinks(g, id, stack, g.edges[i].to);
    }
  }

  /** The depth-first check reports a cycle exactly when a cycle can be reached. */
  lemma VisitFindsCycles(g: Graph, id: string)
    ensures VisitFails(g, id, {}) <==> CyclicFrom(g, id)
  {
    if VisitFails(g, id, {}) {
      var p := VisitFailsHasWalk(g, id, {});
    }
    if p :| WalkFrom(g, p, id) && ClosesLoop(p) {
      WalkMakesVisitFail(g, id, {}, p);
    }
  }

  // ----- the measure that makes walking an accepted graph terminate

  ghost predicate Reaches(g: Graph, a: string, b: string) {
    exists p :: WalkFrom(g, p, a) && |p| >= 2 && Last(p) == b
  }

  /** What lies strictly ahead of a node. */
  ghost function Ahead(g: Graph, a: string): set<string> {
    set b | b in Targets(g) && Reaches(g, a, b)
  }

  /** Along every edge of an acyclic region, strictly less lies ahead. */
  lemma AheadShrinks(g: Graph, a: string, b: string)
    requires !CyclicFrom(g, a) && HasEdge(g, a, b)
    ensures !CyclicFrom(g, b)
    ensures Ahead(g, b) < Ahead(g, a) && |Ahead(g, b)| < |Ahead(g, a)|
  {
    forall p | WalkFrom(g, p, b) ensures WalkFrom(g, [a] + p, a) && Last([a] + p) == Last(p) && !ClosesLoop(p) && Last(p) != a {
      PrependWalk(g, a, p);
      var q := [a] + p;
      assert q[..|q| - 1] == [a] + p[..|p| - 1];
      assert !ClosesLoop(q);
    }
    forall c | c in Ahead(g, b) ensures c in Ahead(g, a) {
      var p :| WalkFrom(g, p, b) && |p| >= 2 && Last(p) == c;
      assert WalkFrom(g, [a] + p, a);
    }
    assert b in Targets(g);
    assert WalkFrom(g, [b], b) && WalkFrom(g, [a] + [b], a) && Last([a] + [b]) == b;
    assert b !in Ahead(g, b);
    SubsetSize(Ahead(g, b), Ahead(g, a) - {b});
  }

  // ----- the enabled subgraph inherits what the whole graph was checked for

  lemma EnabledKeepsEdges(g: Graph, e: Edge)
    requires UniqueIds(g.nodes) && EdgesOk(g) && e in Enabled(g).edges
    ensures e in g.edges && EdgeOk(Enabled(g), e)
    ensures NodeOf(Enabled(g), e.from) == NodeOf(g, e.from) && NodeOf(Enabled(g), e.to) == NodeOf(g, e.to)
  {
    KeepEdgesAre(g.edges, DisabledIds(g));
    EnabledNodesAre(g.nodes);
    assert EdgeOk(g, e);
    FindNodeIs(g.nodes, e.from);
    FindNodeIs(g.nodes, e.to);
    var from, to := NodeOf(g, e.from).value, NodeOf(g, e.to).value;
    assert !from.disabled && !to.disabled;
    FindsIt(EnabledNodes(g.nodes), from);
    FindsIt(EnabledNodes(g.nodes), to);
  }

  lemma EnabledStaysAcyclic(g: Graph, id: string)
    requires UniqueIds(g.nodes) && EdgesOk(g) && !CyclicFrom(g, id)
    ensures !CyclicFrom(Enabled(g), id)
  {
    var en := Enabled(g);
    forall p | WalkFrom(en, p, id) ensures WalkFrom(g, p, id) {
      forall i | 0 <= i < |p| - 1 ensures HasEdge(g, p[i], p[i + 1]) {
        assert HasEdge(en, p[i], p[i + 1]);
        var e :| e in en.edges && e.from == p[i] && e.to == p[i + 1];
        EnabledKeepsEdges(g, e);
      }
    }
  }

  lemma EnabledIsSound(g: Graph)
    requires UniqueIds(g.nodes) && EdgesOk(g) && AcyclicFromSources(g)
    ensures UniqueIds(Enabled(g).nodes) && EdgesOk(Enabled(g)) && AcyclicFromSources(Enabled(g))
  {
    EnabledNodesAre(g.nodes);
    forall e | e in Enabled(g).edges ensures EdgeOk(Enabled(g), e) { EnabledKeepsEdges(g, e); }
    forall n | n in Enabled(g).nodes && n.kind == Source ensures !CyclicFrom(Enabled(g), n.id) {
      EnabledStaysAcyclic(g, n.id);
    }
  }
}
