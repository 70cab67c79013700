/**
 What the generated configuration does with a message, read off the graph as the user drew it,
 switched-off nodes included (apps/syslog-valve/internal/graph/graph.go, codegen/codegen.go).
 */
module EnabledRouting {
  import opened Common
  import opened FlowGraph
  import opened FlowPaths
  import opened ConfigGen
  import ConfigRouting

  /** A filter passes what it accepts on every edge but its else edges, which carry exactly the rest; a source passes everything. */
  ghost predicate Taken(g: Graph, v: Verdict, id: string, e: Edge) {
    var n := NodeOf(g, id);
    n.Some? && n.value.kind == Filter ==> (v(id) <==> e.fromPort != "else")
  }

  /** A token at `id` splits over the edges it follows into nodes that are on; how many copies arrive at `sink`. */
  ghost function LiveArrivals(g: Graph, v: Verdict, id: string, sink: string): nat
    requires Walkable(g, id)
    decreases |Ahead(g, id)|, |g.edges| + 1
  {
    LiveAlong(g, v, id, |g.edges|, sink)
  }

  ghost function LiveAlong(g: Graph, v: Verdict, id: string, n: nat, sink: string): nat
    requires Walkable(g, id) && n <= |g.edges|
    decreases |Ahead(g, id)|, n
  {
    if n == 0 then 0
    else LiveAlong(g, v, id, n - 1, sink) + if g.edges[n - 1].from == id then LiveThrough(g, v, id, g.edges[n - 1], sink) else 0
  }

  ghost function LiveThrough(g: Graph, v: Verdict, id: string, e: Edge, sink: string): nat
    requires Walkable(g, id) && e in g.edges && e.from == id
    decreases |Ahead(g, id)|, 0
  {
    AheadShrinks(g, id, e.to);
    assert EdgeOk(g, e);
    var kind := NodeOf(g, e.to).value.kind;
    if !Taken(g, v, id, e) || Off(g, e.to) then 0
    else if kind == Filter then LiveArrivals(g, v, e.to, sink)
    else if IsSink(kind) && e.to == sink then 1
    else 0
  }

  lemma {:induction false} KeepEdgesPrefix(edges: seq<Edge>, off: set<string>, n: nat)
    requires n <= |edges|
    ensures KeepEdges(edges[..n], off) <= KeepEdges(edges, off)
    decreases |edges|
  {
    if n == |edges| {
      assert edges[..n] == edges;
    } else {
      var init := edges[..|edges| - 1];
      KeepEdgesPrefix(init, off, n);
      assert init[..n] == edges[..n];
    }
  }

  /** A node that is on is found in both graphs alike. */
  lemma SameNode(g: Graph, id: string)
    requires UniqueIds(g.nodes) && NodeOf(g, id).Some? && !Off(g, id)
    ensures NodeOf(Enabled(g), id) == NodeOf(g, id)
  {
    FindNodeIs(g.nodes, id);
    EnabledNodesAre(g.nodes);
    FindsIt(Enabled(g).nodes, NodeOf(g, id).value);
  }

  lemma OnWalkable(g: Graph, id: string)
    requires UniqueIds(g.nodes) && Walkable(g, id)
    ensures Walkable(Enabled(g), id)
  {
    EnabledStaysAcyclic(g, id);
    forall e | e in Enabled(g).edges ensures EdgeOk(Enabled(g), e) { EnabledKeepsEdges(g, e); }
  }

  lemma {:induction false} LiveIsEnabled(g: Graph, v: Verdict, id: string, sink: string)
    requires UniqueIds(g.nodes) && Walkable(g, id) && NodeOf(g, id).Some? && !Off(g, id)
    ensures Walkable(Enabled(g), id)
    ensures Arrivals(Enabled(g), v, id, sink) == LiveArrivals(g, v, id, sink)
    decreases |Ahead(g, id)|, |g.edges| + 1
  {
    OnWalkable(g, id);
    assert g.edges[..|g.edges|] == g.edges;
    LiveAlongIsEnabled(g, v, id, |g.edges|, sink);
  }

  lemma {:induction false} LiveAlongIsEnabled(g: Graph, v: Verdict, id: string, n: nat, sink: string)
    requires UniqueIds(g.nodes) && Walkable(g, id) && Walkable(Enabled(g), id) && NodeOf(g, id).Some? && !Off(g, id)
    requires n <= |g.edges|
    ensures var k := |KeepEdges(g.edges[..n], DisabledIds(g))|;
            k <= |Enabled(g).edges| && ArrivalsAlong(Enabled(g), v, id, k, sink) == LiveAlong(g, v, id, n, sink)
    decreases |Ahead(g, id)|, n
  {
    var off := DisabledIds(g);
    KeepEdgesPrefix(g.edges, off, n);
    if n > 0 {
      var e := g.edges[n - 1];
      var before := KeepEdges(g.edges[..n - 1], off);
      assert g.edges[..n][..n - 1] == g.edges[..n - 1];
      LiveAlongIsEnabled(g, v, id, n - 1, sink);
      if e.from !in off && e.to !in off {
        assert Enabled(g).edges[|before|] == e;
        LastArrival(Enabled(g), v, id, |before| + 1, sink);
        if e.from == id { LiveThroughIsEnabled(g, v, id, e, sink); }
      } else if e.from == id {
        assert Off(g, e.to);
      }
    }
  }

  lemma {:induction false} LiveThroughIsEnabled(g: Graph, v: Verdict, id: string, e: Edge, sink: string)
    requires UniqueIds(g.nodes) && Walkable(g, id) && Walkable(Enabled(g), id) && NodeOf(g, id).Some? && !Off(g, id)
    requires e in g.edges && e in Enabled(g).edges && e.from == id
    ensures ArrivalsThrough(Enabled(g), v, id, e, sink) == LiveThrough(g, v, id, e, sink)
    decreases |Ahead(g, id)|, 0
  {
    KeepEdgesAre(g.edges, DisabledIds(g));
    assert Off(g, e.to) <==> e.to in DisabledIds(g);
    AheadShrinks(g, id, e.to);
    assert EdgeOk(g, e);
    SameNode(g, id);
    SameNode(g, e.to);
    if NodeOf(g, e.to).value.kind == Filter { LiveIsEnabled(g, v, e.to, sink); }
  }

  lemma NodeIsOn(g: Graph, n: Node)
    requires UniqueIds(g.nodes) && n in g.nodes
    ensures NodeOf(g, n.id) == Some(n) && (Off(g, n.id) <==> n.disabled)
    ensures n in Enabled(g).nodes <==> !n.disabled
  {
    FindsIt(g.nodes, n);
    EnabledNodesAre(g.nodes);
    if m :| m in g.nodes && m.id == n.id && m.disabled { FindsIt(g.nodes, m); }
  }

  /**
   The configuration of a valid graph delivers every message from a source that is on to a sink
   exactly as often as the graph does when tokens never enter a node that is switched off.
   */
  lemma ConfigRoutesLive(g: Graph, v: Verdict, s: Node, t: Node)
    requires ValidGraph(g) && s in g.nodes && !s.disabled && s.kind == Source && t in g.nodes && IsSink(t.kind)
    ensures Walkable(g, s.id)
    ensures var cfg := Generated(g);
            Deliveries(cfg, v, cfg.logs, SourceName(s.id), DestName(t.id)) == LiveArrivals(g, v, s.id, t.id)
  {
    NodeIsOn(g, s);
    NodeIsOn(g, t);
    LiveIsEnabled(g, v, s.id, t.id);
    if t.disabled {
      OffGetsNothing(g, v, s.id, t);
      NoneArriveOff(g, v, s.id, t.id);
    } else {
      ConfigRouting.ConfigRoutesLikeGraph(g, v, s, t);
    }
  }

  /** No log block names a destination that is switched off. */
  lemma OffGetsNothing(g: Graph, v: Verdict, source: string, t: Node)
    requires ValidGraph(g) && t in g.nodes && t.disabled && IsSink(t.kind)
    ensures var cfg := Generated(g);
            DestName(t.id) !in cfg.destinations && Deliveries(cfg, v, cfg.logs, SourceName(source), DestName(t.id)) == 0
  {
    var en, cfg := Enabled(g), Generated(g);
    ConfigRouting.GeneratedPathsOk(g);
    ConfigRouting.SinkDeclsAre(en.nodes);
    ConfigRouting.TapDeclsAre(en.nodes);
    EnabledNodesAre(g.nodes);
    if DestName(t.id) in SinkDecls(en.nodes) {
      var n :| n in en.nodes && IsSink(n.kind) && DestName(t.id) == DestName(n.id);
      ConfigRouting.PrefixCancels("d_", Ident(n.id), Ident(t.id));
      ConfigRouting.SameIdentSameNode(g.nodes, n, t);
    }
    if DestName(t.id) in TapDecls(en.nodes) {
      var n :| n in en.nodes && n.kind == Source && DestName(t.id) == TapName(n.id);
      ConfigRouting.TapCollides(n.id, t.id);
    }
    ConfigRouting.EverythingDeclaredOnce(g);
    forall l | l in cfg.logs ensures l.destination != DestName(t.id) {
      assert Declared(cfg, l);
    }
    ConfigRouting.NoDeliveries(cfg, v, cfg.logs, SourceName(source), DestName(t.id));
  }

  /** No token enters a sink that is switched off. */
  lemma {:induction false} NoneArriveOff(g: Graph, v: Verdict, id: string, sink: string)
    requires Walkable(g, id) && Off(g, sink)
    ensures LiveArrivals(g, v, id, sink) == 0
    decreases |Ahead(g, id)|, |g.edges| + 1
  {
    NoneAlongOff(g, v, id, |g.edges|, sink);
  }

  lemma {:induction false} NoneAlongOff(g: Graph, v: Verdict, id: string, n: nat, sink: string)
    requires Walkable(g, id) && Off(g, sink) && n <= |g.edges|
    ensures LiveAlong(g, v, id, n, sink) == 0
    decreases |Ahead(g, id)|, n
  {
    if n == 0 {
    } else {
      var e := g.edges[n - 1];
      NoneAlongOff(g, v, id, n - 1, sink);
      if e.from == id {
        AheadShrinks(g, id, e.to);
        assert EdgeOk(g, e);
        if NodeOf(g, e.to).value.kind == Filter { NoneArriveOff(g, v, e.to, sink); }
      }
    }
  }
}
