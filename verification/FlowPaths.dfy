/**
 Compiling the flow graph into a flat list of source-to-sink paths, and the proof that the flat
 list routes every message exactly as a token walking the graph would
 (apps/syslog-valve/internal/codegen/codegen.go, flowPaths).
 */
module FlowPaths {
  import opened Common
  import opened FlowGraph
  import opened Sorting

  datatype Step = Step(filter: string, negated: bool)

  datatype FlowPath = FlowPath(source: string, steps: seq<Step>, sink: string)

  // ----- the recursive walk

  /** The path so far, extended by the branch taken when leaving `id` along `e`. */
  function Extend(g: Graph, id: string, e: Edge, steps: seq<Step>): seq<Step> {
    if NodeOf(g, id).Some? && NodeOf(g, id).value.kind == Filter
    then steps + [Step(id, e.fromPort == PORT_ELSE)] else steps
  }

  ghost predicate Walkable(g: Graph, id: string) { EdgesOk(g) && !CyclicFrom(g, id) }

  ghost predicate EdgesOut(g: Graph, id: string, es: seq<Edge>) {
    forall e | e in es :: e in g.edges && e.from == id
  }

  /** The complete paths that continue from node `id`. */
  ghost function PathsFrom(g: Graph, source: string, id: string, steps: seq<Step>): seq<FlowPath>
    requires Walkable(g, id)
    decreases |Ahead(g, id)|, |g.edges| + 1
  {
    EdgesFromAre(g.edges, id);
    EdgesFromShorter(g.edges, id);
    PathsAlong(g, source, id, EdgesFrom(g.edges, id), steps)
  }

  ghost function PathsAlong(g: Graph, source: string, id: string, es: seq<Edge>, steps: seq<Step>): seq<FlowPath>
    requires Walkable(g, id) && EdgesOut(g, id, es)
    decreases |Ahead(g, id)|, |es|
  {
    if es == [] then []
    else
      var e := es[|es| - 1];
      AheadShrinks(g, id, e.to);
      assert EdgeOk(g, e);
      var kind := NodeOf(g, e.to).value.kind;
      var cur := Extend(g, id, e, steps);
      PathsAlong(g, source, id, es[..|es| - 1], steps)
      + if kind == Filter then PathsFrom(g, source, e.to, cur)
        else if IsSink(kind) then [FlowPath(source, cur, e.to)]
        else []
  }

  lemma {:induction false} EdgesFromShorter(edges: seq<Edge>, id: string)
    ensures |EdgesFrom(edges, id)| <= |edges|
  {
    if edges == [] {
    } else {
      EdgesFromShorter(edges[..|edges| - 1], id);
    }
  }

  /** What one more outgoing edge adds. */
  lemma AlongStep(g: Graph, source: string, id: string, es: seq<Edge>, i: nat, steps: seq<Step>)
    requires Walkable(g, id) && EdgesOut(g, id, es) && i < |es|
    ensures EdgeOk(g, es[i]) && Walkable(g, es[i].to)
    ensures var kind := NodeOf(g, es[i].to).value.kind;
            var cur := Extend(g, id, es[i], steps);
            PathsAlong(g, source, id, es[..i + 1], steps)
            == PathsAlong(g, source, id, es[..i], steps)
               + if kind == Filter then PathsFrom(g, source, es[i].to, cur)
                 else if IsSink(kind) then [FlowPath(source, cur, es[i].to)]
                 else []
  {
    assert es[..i + 1][..i] == es[..i];
    assert es[i] in g.edges;
    AheadShrinks(g, id, es[i].to);
  }

  method Walk(g: Graph, source: string, id: string, steps: seq<Step>, acc: seq<FlowPath>) returns (out: seq<FlowPath>)
    requires Walkable(g, id)
    ensures out == acc + PathsFrom(g, source, id, steps)
    decreases |Ahead(g, id)|
  {
    var es := CollectEdgesFrom(g, id);
    EdgesFromAre(g.edges, id);
    out := acc;
    for i := 0 to |es|
      invariant out == acc + PathsAlong(g, source, id, es[..i], steps)
    {
      var e := es[i];
      AlongStep(g, source, id, es, i, steps);
      AheadShrinks(g, id, e.to);
      FindNodeIs(g.nodes, e.to);
      var next := NodeOf(g, e.to).value;
      var cur := steps;
      if NodeOf(g, id).Some? && NodeOf(g, id).value.kind == Filter {
        cur := cur + [Step(id, e.fromPort == PORT_ELSE)];
      }
      ghost var before := PathsAlong(g, source, id, es[..i], steps);
      if next.kind == Filter {
        ghost var found := PathsFrom(g, source, next.id, cur);
        out := Walk(g, source, next.id, cur, out);
        ConcatAssociates(acc, before, found);
      } else if IsSink(next.kind) {
        out := out + [FlowPath(source, cur, next.id)];
        ConcatAssociates(acc, before, [FlowPath(source, cur, next.id)]);
      }
    }
    assert es[..|es|] == es;
  }

  ghost function PathsFromSources(g: Graph, nodes: seq<Node>): seq<FlowPath>
    requires EdgesOk(g) && forall n | n in nodes && n.kind == Source :: !CyclicFrom(g, n.id)
  {
    if nodes == [] then []
    else
      var last := nodes[|nodes| - 1];
      PathsFromSources(g, nodes[..|nodes| - 1])
      + if last.kind == Source then PathsFrom(g, last.id, last.id, []) else []
  }

  // ----- ordering the result by source, then sink

  /** String order by character code. */
  predicate Less(a: string, b: string) {
    b != [] && (a == [] || a[0] < b[0] || (a[0] == b[0] && Less(a[1..], b[1..])))
  }

  predicate Before(a: FlowPath, b: FlowPath) {
    if a.source != b.source then Less(a.source, b.source) else Less(a.sink, b.sink)
  }

  function Sort(ps: seq<FlowPath>): seq<FlowPath> { SortBy(Before, ps) }

  lemma {:induction false} LessAsymmetric(a: string, b: string)
    requires Less(a, b)
    ensures !Less(b, a)
  {
    if a != [] && a[0] == b[0] { LessAsymmetric(a[1..], b[1..]); }
  }

  ghost predicate Sorted(ps: seq<FlowPath>) {
    forall i | 0 < i < |ps| :: !Before(ps[i], ps[i - 1])
  }

  lemma SortSorts(ps: seq<FlowPath>)
    ensures Sorted(Sort(ps))
  {
    forall p: FlowPath, q: FlowPath | Before(p, q) ensures !Before(q, p) {
      if p.source != q.source { LessAsymmetric(p.source, q.source); } else { LessAsymmetric(p.sink, q.sink); }
    }
    SortOrders(Before, (p, q) => !Before(q, p), ps);
    assert forall i | 0 < i < |Sort(ps)| :: ((p, q) => !Before(q, p))(Sort(ps)[i - 1], Sort(ps)[i]);
  }

  /** flowPaths: walk from every source, then order the paths. */
  method FlowPathsOf(g: Graph) returns (out: seq<FlowPath>)
    requires EdgesOk(g) && AcyclicFromSources(g)
    ensures out == Sort(PathsFromSources(g, g.nodes))
    ensures multiset(out) == multiset(PathsFromSources(g, g.nodes)) && Sorted(out)
  {
    out := [];
    for i := 0 to |g.nodes|
      invariant out == PathsFromSources(g, g.nodes[..i])
    {
      assert g.nodes[..i + 1][..i] == g.nodes[..i];
      if g.nodes[i].kind == Source {
        out := Walk(g, g.nodes[i].id, g.nodes[i].id, [], out);
      }
    }
    assert g.nodes[..|g.nodes|] == g.nodes;
    SortKeeps(Before, out);
    SortSorts(out);
    out := Sort(out);
  }

  // ----- what the paths and the graph mean for one message

  /** For one message: does each filter node's own condition accept it? */
  type Verdict = string -> bool

  predicate StepsHold(v: Verdict, steps: seq<Step>) {
    forall st | st in steps :: v(st.filter) != st.negated
  }

  predicate Delivers(v: Verdict, p: FlowPath, source: string, sink: string) {
    p.source == source && p.sink == sink && StepsHold(v, p.steps)
  }

  /** How many of the flat paths carry the message from `source` to `sink`. */
  function CountPaths(v: Verdict, ps: seq<FlowPath>, source: string, sink: string): nat {
    if ps == [] then 0
    else CountPaths(v, ps[..|ps| - 1], source, sink) + if Delivers(v, ps[|ps| - 1], source, sink) then 1 else 0
  }

  /** A message at `id` follows `e`: from a filter only the branch its verdict selects. */
  predicate Follows(g: Graph, v: Verdict, id: string, e: Edge) {
    NodeOf(g, id).Some? && NodeOf(g, id).value.kind == Filter ==> v(id) != (e.fromPort == PORT_ELSE)
  }

  /** A token at `id` splits over the edges it follows; how many of its copies arrive at `sink`. */
  ghost function Arrivals(g: Graph, v: Verdict, id: string, sink: string): nat
    requires Walkable(g, id)
    decreases |Ahead(g, id)|, |g.edges| + 1
  {
    ArrivalsAlong(g, v, id, |g.edges|, sink)
  }

  /** The copies arriving through the first `n` edges of the graph. */
  ghost function ArrivalsAlong(g: Graph, v: Verdict, id: string, n: nat, sink: string): nat
    requires Walkable(g, id) && n <= |g.edges|
    decreases |Ahead(g, id)|, n
  {
    if n == 0 then 0
    else
      var e := g.edges[n - 1];
      ArrivalsAlong(g, v, id, n - 1, sink)
      + if e.from != id || !Follows(g, v, id, e) then 0
        else
          AheadShrinks(g, id, e.to);
          assert EdgeOk(g, e);
          var kind := NodeOf(g, e.to).value.kind;
          if kind == Filter then Arrivals(g, v, e.to, sink)
          else if IsSink(kind) && e.to == sink then 1
          else 0
  }

  lemma {:induction false} CountConcat(v: Verdict, a: seq<FlowPath>, b: seq<FlowPath>, source: string, sink: string)
    ensures CountPaths(v, a + b, source, sink) == CountPaths(v, a, source, sink) + CountPaths(v, b, source, sink)
  {
    if b == [] {
      assert a + b == a;
    } else {
      assert (a + b)[..|a + b| - 1] == a + b[..|b| - 1];
      CountConcat(v, a, b[..|b| - 1], source, sink);
    }
  }

  lemma CountWithout(v: Verdict, b: seq<FlowPath>, k: nat, source: string, sink: string)
    requires k < |b|
    ensures CountPaths(v, b, source, sink)
         == CountPaths(v, b[..k] + b[k + 1..], source, sink) + if Delivers(v, b[k], source, sink) then 1 else 0
  {
    var front, back := b[..k], b[k + 1..];
    assert b == (front + [b[k]]) + back;
    CountConcat(v, front + [b[k]], back, source, sink);
    CountConcat(v, front, back, source, sink);
    assert (front + [b[k]])[..k] == front;
  }

  lemma MultisetWithout<T>(b: seq<T>, k: nat)
    requires k < |b|
    ensures multiset(b[..k] + b[k + 1..]) == multiset(b) - multiset{b[k]}
  {
    assert b == b[..k] + [b[k]] + b[k + 1..];
  }

  /** Reordering paths does not change what they deliver. */
  lemma {:induction false} CountIgnoresOrder(v: Verdict, a: seq<FlowPath>, b: seq<FlowPath>, source: string, sink: string)
    requires multiset(a) == multiset(b)
    ensures CountPaths(v, a, source, sink) == CountPaths(v, b, source, sink)
    decreases |a|
  {
    if a == [] {
      assert |multiset(b)| == 0;
    } else {
      var n := |a| - 1;
      assert a[n] in multiset(b);
      var k :| 0 <= k < |b| && b[k] == a[n];
      MultisetWithout(a, n);
      MultisetWithout(b, k);
      assert a[..n] + a[n + 1..] == a[..n];
      CountIgnoresOrder(v, a[..n], b[..k] + b[k + 1..], source, sink);
      CountWithout(v, b, k, source, sink);
    }
  }

  /** Every path found from a node starts with the steps already taken and names the walk's source. */
  lemma {:induction false} PathsKeepPrefix(g: Graph, source: string, id: string, steps: seq<Step>)
    requires Walkable(g, id)
    ensures forall p | p in PathsFrom(g, source, id, steps) :: p.source == source && steps <= p.steps
    decreases |Ahead(g, id)|, |g.edges| + 1
  {
    EdgesFromAre(g.edges, id);
    EdgesFromShorter(g.edges, id);
    AlongKeepsPrefix(g, source, id, EdgesFrom(g.edges, id), steps);
  }

  lemma {:induction false} AlongKeepsPrefix(g: Graph, source: string, id: string, es: seq<Edge>, steps: seq<Step>)
    requires Walkable(g, id) && EdgesOut(g, id, es)
    ensures forall p | p in PathsAlong(g, source, id, es, steps) :: p.source == source && steps <= p.steps
    decreases |Ahead(g, id)|, |es|
  {
    if es == [] {
    } else {
      var e := es[|es| - 1];
      AheadShrinks(g, id, e.to);
      assert EdgeOk(g, e);
      AlongKeepsPrefix(g, source, id, es[..|es| - 1], steps);
      if NodeOf(g, e.to).value.kind == Filter {
        PathsKeepPrefix(g, source, e.to, Extend(g, id, e, steps));
      }
    }
  }

  lemma {:induction false} CountNone(v: Verdict, ps: seq<FlowPath>, source: string, sink: string)
    requires forall p | p in ps :: !Delivers(v, p, source, sink)
    ensures CountPaths(v, ps, source, sink) == 0
  {
    if ps == [] {
    } else {
      CountNone(v, ps[..|ps| - 1], source, sink);
    }
  }

  /** Below a node, and for steps the message passes, flat paths and token copies agree. */
  lemma {:induction false} WalkCounts(g: Graph, v: Verdict, source: string, id: string, steps: seq<Step>, sink: string)
    requires Walkable(g, id) && StepsHold(v, steps)
    ensures CountPaths(v, PathsFrom(g, source, id, steps), source, sink) == Arrivals(g, v, id, sink)
    decreases |Ahead(g, id)|, |g.edges| + 1
  {
    EdgesFromAre(g.edges, id);
    assert g.edges[..|g.edges|] == g.edges;
    AlongCounts(g, v, source, id, |g.edges|, steps, sink);
  }

  lemma {:induction false} AlongCounts(g: Graph, v: Verdict, source: string, id: string, n: nat, steps: seq<Step>, sink: string)
    requires Walkable(g, id) && StepsHold(v, steps) && n <= |g.edges|
    requires EdgesOut(g, id, EdgesFrom(g.edges[..n], id))
    ensures CountPaths(v, PathsAlong(g, source, id, EdgesFrom(g.edges[..n], id), steps), source, sink)
         == ArrivalsAlong(g, v, id, n, sink)
    decreases |Ahead(g, id)|, n
  {
    if n == 0 {
    } else {
      var e, before := g.edges[n - 1], EdgesFrom(g.edges[..n - 1], id);
      LastEdgeFrom(g.edges, id, n);
      LastArrival(g, v, id, n, sink);
      AlongCounts(g, v, source, id, n - 1, steps, sink);
      if e.from == id {
        EdgeAgrees(g, v, source, id, e, steps, sink);
        OneMoreEdge(g, v, source, id, before, e, steps, sink);
      }
    }
  }

  lemma {:induction false} EdgeAgrees(g: Graph, v: Verdict, source: string, id: string, e: Edge, steps: seq<Step>, sink: string)
    requires Walkable(g, id) && StepsHold(v, steps) && e in g.edges && e.from == id
    ensures CountPaths(v, PathsThrough(g, source, id, e, steps), source, sink) == ArrivalsThrough(g, v, id, e, sink)
    decreases |Ahead(g, id)|, 0
  {
    AheadShrinks(g, id, e.to);
    assert EdgeOk(g, e);
    if Follows(g, v, id, e) && NodeOf(g, e.to).value.kind == Filter {
      EdgeCounts(g, v, source, id, e, steps, sink);
      WalkCounts(g, v, source, e.to, Extend(g, id, e, steps), sink);
    }
    ThroughCounts(g, v, source, id, e, steps, sink);
  }

  lemma LastEdgeFrom(edges: seq<Edge>, id: string, n: nat)
    requires 0 < n <= |edges|
    ensures EdgesFrom(edges[..n], id)
         == if edges[n - 1].from == id then EdgesFrom(edges[..n - 1], id) + [edges[n - 1]] else EdgesFrom(edges[..n - 1], id)
  {
    assert edges[..n][..n - 1] == edges[..n - 1];
  }

  /** The copies that arrive through one edge. */
  ghost function ArrivalsThrough(g: Graph, v: Verdict, id: string, e: Edge, sink: string): nat
    requires Walkable(g, id) && e in g.edges && e.from == id
  {
    AheadShrinks(g, id, e.to);
    assert EdgeOk(g, e);
    var kind := NodeOf(g, e.to).value.kind;
    if !Follows(g, v, id, e) then 0
    else if kind == Filter then Arrivals(g, v, e.to, sink)
    else if IsSink(kind) && e.to == sink then 1
    else 0
  }

  lemma LastArrival(g: Graph, v: Verdict, id: string, n: nat, sink: string)
    requires Walkable(g, id) && 0 < n <= |g.edges|
    ensures ArrivalsAlong(g, v, id, n, sink)
         == ArrivalsAlong(g, v, id, n - 1, sink)
            + if g.edges[n - 1].from == id then ArrivalsThrough(g, v, id, g.edges[n - 1], sink) else 0
  {
  }

  lemma ThroughCounts(g: Graph, v: Verdict, source: string, id: string, e: Edge, steps: seq<Step>, sink: string)
    requires Walkable(g, id) && StepsHold(v, steps) && e in g.edges && e.from == id
    requires Walkable(g, e.to) && NodeOf(g, e.to).Some?
    requires Follows(g, v, id, e) && NodeOf(g, e.to).value.kind == Filter ==>
      CountPaths(v, PathsFrom(g, source, e.to, Extend(g, id, e, steps)), source, sink) == Arrivals(g, v, e.to, sink)
    ensures CountPaths(v, PathsThrough(g, source, id, e, steps), source, sink) == ArrivalsThrough(g, v, id, e, sink)
  {
    EdgeCounts(g, v, source, id, e, steps, sink);
  }

  /** The paths through one edge. */
  ghost function PathsThrough(g: Graph, source: string, id: string, e: Edge, steps: seq<Step>): seq<FlowPath>
    requires Walkable(g, id) && e in g.edges && e.from == id
  {
    AheadShrinks(g, id, e.to);
    assert EdgeOk(g, e);
    var kind := NodeOf(g, e.to).value.kind;
    var cur := Extend(g, id, e, steps);
    if kind == Filter then PathsFrom(g, source, e.to, cur)
    else if IsSink(kind) then [FlowPath(source, cur, e.to)]
    else []
  }

  lemma OneMoreEdge(g: Graph, v: Verdict, source: string, id: string, before: seq<Edge>, e: Edge, steps: seq<Step>, sink: string)
    requires Walkable(g, id) && e in g.edges && e.from == id && EdgesOut(g, id, before)
    ensures EdgesOut(g, id, before + [e])
    ensures CountPaths(v, PathsAlong(g, source, id, before + [e], steps), source, sink)
         == CountPaths(v, PathsAlong(g, source, id, before, steps), source, sink)
            + CountPaths(v, PathsThrough(g, source, id, e, steps), source, sink)
  {
    var es := before + [e];
    assert es[..|es| - 1] == before && es[|es| - 1] == e;
    assert PathsAlong(g, source, id, es, steps) == PathsAlong(g, source, id, before, steps) + PathsThrough(g, source, id, e, steps);
    CountConcat(v, PathsAlong(g, source, id, before, steps), PathsThrough(g, source, id, e, steps), source, sink);
  }

  /** A branch the message does not take contributes nothing; one it takes keeps the steps true. */
  lemma EdgeCounts(g: Graph, v: Verdict, source: string, id: string, e: Edge, steps: seq<Step>, sink: string)
    requires Walkable(g, id) && StepsHold(v, steps) && e in g.edges && e.from == id
    ensures StepsHold(v, Extend(g, id, e, steps)) <==> Follows(g, v, id, e)
    ensures Walkable(g, e.to)
    ensures !Follows(g, v, id, e) ==>
      CountPaths(v, PathsFrom(g, source, e.to, Extend(g, id, e, steps)), source, sink) == 0
    ensures var p := FlowPath(source, Extend(g, id, e, steps), e.to);
            CountPaths(v, [p], source, sink) == if Follows(g, v, id, e) && e.to == sink then 1 else 0
  {
    AheadShrinks(g, id, e.to);
    assert [FlowPath(source, Extend(g, id, e, steps), e.to)][..0] == [];
    var cur := Extend(g, id, e, steps);
    if !Follows(g, v, id, e) {
      assert cur[|steps|] in cur;
      PathsKeepPrefix(g, source, e.to, cur);
      var ps := PathsFrom(g, source, e.to, cur);
      forall p | p in ps ensures !Delivers(v, p, source, sink) {
        assert p.steps[|steps|] == cur[|steps|] && p.steps[|steps|] in p.steps;
      }
      CountNone(v, ps, source, sink);
    }
  }

  lemma {:induction false} SourcesCount(g: Graph, v: Verdict, nodes: seq<Node>, source: Node, sink: string)
    requires EdgesOk(g) && UniqueIds(nodes) && forall n | n in nodes && n.kind == Source :: !CyclicFrom(g, n.id)
    requires source.kind == Source && !CyclicFrom(g, source.id)
    requires forall n | n in nodes && n.id == source.id :: n == source
    ensures CountPaths(v, PathsFromSources(g, nodes), source.id, sink)
         == if source in nodes then Arrivals(g, v, source.id, sink) else 0
  {
    if nodes == [] {
    } else {
      var init, last := nodes[..|nodes| - 1], nodes[|nodes| - 1];
      assert nodes == init + [last];
      assert last in nodes;
      SourcesCount(g, v, init, source, sink);
      if last.kind == Source {
        var ps := PathsFrom(g, last.id, last.id, []);
        CountConcat(v, PathsFromSources(g, init), ps, source.id, sink);
        if last == source {
          WalkCounts(g, v, source.id, source.id, [], sink);
        } else {
          PathsKeepPrefix(g, last.id, last.id, []);
          CountNone(v, ps, source.id, sink);
        }
      } else {
        assert PathsFromSources(g, nodes) == PathsFromSources(g, init);
      }
    }
  }

  /**
   Routing is preserved: for every message, the flat paths whose steps all hold number exactly
   the copies of a token that walk from the source to the sink.
   */
  lemma RoutingPreserved(g: Graph, v: Verdict, source: Node, sink: string)
    requires UniqueIds(g.nodes) && EdgesOk(g) && AcyclicFromSources(g)
    requires source in g.nodes && source.kind == Source
    ensures CountPaths(v, Sort(PathsFromSources(g, g.nodes)), source.id, sink) == Arrivals(g, v, source.id, sink)
  {
    SourcesCount(g, v, g.nodes, source, sink);
    SortKeeps(Before, PathsFromSources(g, g.nodes));
    CountIgnoresOrder(v, Sort(PathsFromSources(g, g.nodes)), PathsFromSources(g, g.nodes), source.id, sink);
  }

  /** Edges a message really travels: each followed, filters in between, a sink at the end. */
  ghost predicate IsRoute(g: Graph, v: Verdict, id: string, es: seq<Edge>, sink: string)
    decreases |es|
  {
    && es != [] && es[0] in g.edges && es[0].from == id && Follows(g, v, id, es[0])
    && NodeOf(g, es[0].to).Some?
    && var kind := NodeOf(g, es[0].to).value.kind;
       if |es| == 1 then IsSink(kind) && es[0].to == sink
       else kind == Filter && IsRoute(g, v, es[0].to, es[1..], sink)
  }

  ghost predicate HasRoute(g: Graph, v: Verdict, id: string, sink: string) {
    exists es :: IsRoute(g, v, id, es, sink)
  }

  /** Some copy arrives exactly when the message has a route through the graph. */
  lemma ArrivesIffRoute(g: Graph, v: Verdict, id: string, sink: string)
    requires Walkable(g, id)
    ensures Arrivals(g, v, id, sink) > 0 <==> HasRoute(g, v, id, sink)
  {
    if Arrivals(g, v, id, sink) > 0 {
      var found := RouteOfArrival(g, v, id, |g.edges|, sink);
    }
    if HasRoute(g, v, id, sink) {
      var es :| IsRoute(g, v, id, es, sink);
      RouteArrives(g, v, id, es, sink);
    }
  }

  lemma {:induction false} RouteOfArrival(g: Graph, v: Verdict, id: string, n: nat, sink: string) returns (es: seq<Edge>)
    requires Walkable(g, id) && n <= |g.edges| && ArrivalsAlong(g, v, id, n, sink) > 0
    ensures IsRoute(g, v, id, es, sink)
    decreases |Ahead(g, id)|, n
  {
    var e := g.edges[n - 1];
    if ArrivalsAlong(g, v, id, n - 1, sink) > 0 {
      es := RouteOfArrival(g, v, id, n - 1, sink);
    } else {
      AheadShrinks(g, id, e.to);
      assert EdgeOk(g, e);
      if NodeOf(g, e.to).value.kind == Filter {
        var rest := RouteOfArrival(g, v, e.to, |g.edges|, sink);
        es := [e] + rest;
        assert es[1..] == rest;
      } else {
        es := [e];
      }
    }
  }

  lemma {:induction false} RouteArrives(g: Graph, v: Verdict, id: string, es: seq<Edge>, sink: string)
    requires Walkable(g, id) && IsRoute(g, v, id, es, sink)
    ensures Arrivals(g, v, id, sink) > 0
    decreases |es|
  {
    var k :| 0 <= k < |g.edges| && g.edges[k] == es[0];
    StepWalkable(g, id, es[0]);
    if |es| > 1 { RouteArrives(g, v, es[0].to, es[1..], sink); }
    assert EdgeDelivers(g, v, es[0], sink);
    EdgeArrives(g, v, id, k, sink);
    MoreEdgesMoreArrivals(g, v, id, k + 1, |g.edges|, sink);
  }

  lemma StepWalkable(g: Graph, id: string, e: Edge)
    requires Walkable(g, id) && e in g.edges && e.from == id
    ensures Walkable(g, e.to) && NodeOf(g, e.to).Some?
  {
    AheadShrinks(g, id, e.to);
    assert EdgeOk(g, e);
  }

  /** A message travelling the edge reaches the sink. */
  ghost predicate EdgeDelivers(g: Graph, v: Verdict, e: Edge, sink: string)
    requires Walkable(g, e.to) && NodeOf(g, e.to).Some?
  {
    var kind := NodeOf(g, e.to).value.kind;
    if kind == Filter then Arrivals(g, v, e.to, sink) > 0 else IsSink(kind) && e.to == sink
  }

  lemma EdgeArrives(g: Graph, v: Verdict, id: string, k: nat, sink: string)
    requires Walkable(g, id) && k < |g.edges| && g.edges[k].from == id && Follows(g, v, id, g.edges[k])
    requires Walkable(g, g.edges[k].to) && NodeOf(g, g.edges[k].to).Some? && EdgeDelivers(g, v, g.edges[k], sink)
    ensures ArrivalsAlong(g, v, id, k + 1, sink) > 0
  {
  }

  lemma {:induction false} MoreEdgesMoreArrivals(g: Graph, v: Verdict, id: string, k: nat, n: nat, sink: string)
    requires Walkable(g, id) && k <= n <= |g.edges|
    ensures ArrivalsAlong(g, v, id, k, sink) <= ArrivalsAlong(g, v, id, n, sink)
    decreases n
  {
    if k < n { MoreEdgesMoreArrivals(g, v, id, k, n - 1, sink); }
  }
}
