/** The generated configuration means what the graph means: names, declarations, deliveries. */
module ConfigRouting {
  import opened Common
  import Sorting
  import opened FlowGraph
  import opened FlowPaths
  import opened ConfigGen

  // ----- names

  lemma PrefixCancels(p: string, a: string, b: string)
    requires p + a == p + b
    ensures a == b
  {
    assert a == (p + a)[|p|..] && b == (p + b)[|p|..];
  }

  lemma SuffixCancels(a: string, b: string, s: string)
    requires a + s == b + s
    ensures a == b
  {
    assert |a| == |b|;
    assert a == (a + s)[..|a|] && b == (b + s)[..|b|];
  }

  lemma ElseCancels(a: string, b: string)
    requires ElseName(a) == ElseName(b)
    ensures Ident(a) == Ident(b)
  {
    SuffixCancels("f_" + Ident(a), "f_" + Ident(b), ELSE);
    PrefixCancels("f_", Ident(a), Ident(b));
  }

  /** A node's own filter name equals another's else name only if the identifiers collide. */
  lemma ElseCollides(a: string, b: string)
    requires FilterName(b) == ElseName(a)
    ensures Ident(b) == Ident(a) + ELSE
  {
    assert ElseName(a) == "f_" + (Ident(a) + ELSE);
    PrefixCancels("f_", Ident(b), Ident(a) + ELSE);
  }

  lemma TapCollides(a: string, b: string)
    requires DestName(b) == TapName(a)
    ensures Ident(b) == TAP + Ident(a)
  {
    assert TapName(a) == "d_" + (TAP + Ident(a));
    PrefixCancels("d_", Ident(b), TAP + Ident(a));
  }

  ghost predicate NamesOk(nodes: seq<Node>) { IdentsDistinct(nodes) && DerivedFree(nodes) }

  lemma SameIdentSameNode(nodes: seq<Node>, a: Node, b: Node)
    requires NamesOk(nodes) && a in nodes && b in nodes && Ident(a.id) == Ident(b.id)
    ensures a == b
  {
    var i :| 0 <= i < |nodes| && nodes[i] == a;
    var j :| 0 <= j < |nodes| && nodes[j] == b;
  }

  lemma NamesOkInit(nodes: seq<Node>)
    requires NamesOk(nodes) && nodes != []
    ensures NamesOk(nodes[..|nodes| - 1])
    ensures forall n | n in nodes[..|nodes| - 1] :: Ident(n.id) != Ident(nodes[|nodes| - 1].id)
    ensures forall n :: n in nodes <==> n in nodes[..|nodes| - 1] || n == nodes[|nodes| - 1]
  {
    assert nodes == nodes[..|nodes| - 1] + [nodes[|nodes| - 1]];
  }

  // ----- declared destinations and filters, each once

  lemma DistinctConcat<T>(a: seq<T>, b: seq<T>)
    requires Distinct(a) && Distinct(b) && forall x | x in a :: x !in b
    ensures Distinct(a + b)
  {
    forall i, j | 0 <= i < j < |a + b| ensures (a + b)[i] != (a + b)[j] {
      if i < |a| <= j { assert a[i] in a && b[j - |a|] in b; }
    }
  }

  lemma {:induction false} SinkDeclsAre(nodes: seq<Node>)
    requires NamesOk(nodes)
    ensures forall d :: d in SinkDecls(nodes) <==> exists n | n in nodes :: IsSink(n.kind) && d == DestName(n.id)
    ensures Distinct(SinkDecls(nodes))
  {
    if nodes == [] {
    } else {
      NamesOkInit(nodes);
      SinkDeclsAre(nodes[..|nodes| - 1]);
      forall n | n in nodes[..|nodes| - 1] ensures DestName(n.id) != DestName(nodes[|nodes| - 1].id) {
        if DestName(n.id) == DestName(nodes[|nodes| - 1].id) {
          PrefixCancels("d_", Ident(n.id), Ident(nodes[|nodes| - 1].id));
        }
      }
      DistinctConcat(SinkDecls(nodes[..|nodes| - 1]), [DestName(nodes[|nodes| - 1].id)]);
    }
  }

  lemma {:induction false} TapDeclsAre(nodes: seq<Node>)
    requires NamesOk(nodes)
    ensures forall d :: d in TapDecls(nodes) <==> exists n | n in nodes :: n.kind == Source && d == TapName(n.id)
    ensures Distinct(TapDecls(nodes))
  {
    if nodes == [] {
    } else {
      NamesOkInit(nodes);
      TapDeclsAre(nodes[..|nodes| - 1]);
      forall n | n in nodes[..|nodes| - 1] ensures TapName(n.id) != TapName(nodes[|nodes| - 1].id) {
        if TapName(n.id) == TapName(nodes[|nodes| - 1].id) {
          PrefixCancels("d_" + TAP, Ident(n.id), Ident(nodes[|nodes| - 1].id));
        }
      }
      DistinctConcat(TapDecls(nodes[..|nodes| - 1]), [TapName(nodes[|nodes| - 1].id)]);
    }
  }

  lemma {:induction false} SourceDeclsAre(nodes: seq<Node>)
    requires NamesOk(nodes)
    ensures forall s :: s in SourceDecls(nodes) <==> exists n | n in nodes :: n.kind == Source && s == SourceName(n.id)
    ensures Distinct(SourceDecls(nodes))
  {
    if nodes == [] {
    } else {
      NamesOkInit(nodes);
      SourceDeclsAre(nodes[..|nodes| - 1]);
      forall n | n in nodes[..|nodes| - 1] ensures SourceName(n.id) != SourceName(nodes[|nodes| - 1].id) {
        if SourceName(n.id) == SourceName(nodes[|nodes| - 1].id) {
          PrefixCancels("s_", Ident(n.id), Ident(nodes[|nodes| - 1].id));
        }
      }
      DistinctConcat(SourceDecls(nodes[..|nodes| - 1]), [SourceName(nodes[|nodes| - 1].id)]);
    }
  }

  /** No two destinations share a name, live-tail taps included. */
  lemma DestinationsDistinct(nodes: seq<Node>)
    requires NamesOk(nodes)
    ensures Distinct(SinkDecls(nodes) + TapDecls(nodes))
  {
    SinkDeclsAre(nodes);
    TapDeclsAre(nodes);
    forall d, t | d in SinkDecls(nodes) && t in TapDecls(nodes) ensures d != t {
      var n :| n in nodes && d == DestName(n.id);
      var m :| m in nodes && m.kind == Source && t == TapName(m.id);
      if d == t { TapCollides(m.id, n.id); }
    }
    DistinctConcat(SinkDecls(nodes), TapDecls(nodes));
  }

  lemma {:induction false} FilterDeclsAre(nodes: seq<Node>, elses: set<string>)
    ensures forall d :: d in FilterDecls(nodes, elses) <==> exists n | n in nodes :: d in FilterDecl(n, elses)
  {
    if nodes == [] {
    } else {
      FilterDeclsAre(nodes[..|nodes| - 1], elses);
      assert nodes == nodes[..|nodes| - 1] + [nodes[|nodes| - 1]];
    }
  }

  lemma DefsOfTwoNodesDiffer(nodes: seq<Node>, elses: set<string>, a: Node, b: Node, d: FilterDef, e: FilterDef)
    requires NamesOk(nodes) && a in nodes && b in nodes && a != b
    requires d in FilterDecl(a, elses) && e in FilterDecl(b, elses)
    ensures d.name != e.name
  {
    if d.name == e.name {
      if d.body.Conditions? && e.body.Conditions? {
        PrefixCancels("f_", Ident(a.id), Ident(b.id));
        SameIdentSameNode(nodes, a, b);
      } else if d.body.Conditions? {
        ElseCollides(b.id, a.id);
      } else if e.body.Conditions? {
        ElseCollides(a.id, b.id);
      } else {
        ElseCancels(a.id, b.id);
        SameIdentSameNode(nodes, a, b);
      }
    }
  }

  /** No two filters share a name, else companions included. */
  lemma {:induction false} FiltersDistinct(nodes: seq<Node>, elses: set<string>)
    requires NamesOk(nodes)
    ensures DistinctDefs(FilterDecls(nodes, elses))
  {
    if nodes == [] {
    } else {
      var init, last := nodes[..|nodes| - 1], nodes[|nodes| - 1];
      NamesOkInit(nodes);
      FiltersDistinct(init, elses);
      FilterDeclsAre(init, elses);
      forall d, e | d in FilterDecls(init, elses) && e in FilterDecl(last, elses) ensures d.name != e.name {
        var n :| n in init && d in FilterDecl(n, elses);
        DefsOfTwoNodesDiffer(nodes, elses, n, last, d, e);
      }
      assert |FilterName(last.id)| < |ElseName(last.id)|;
    }
  }

  lemma {:induction false} LookupFinds(defs: seq<FilterDef>, d: FilterDef)
    requires DistinctDefs(defs) && d in defs
    ensures Lookup(defs, d.name) == Some(d.body)
  {
    if defs[0] != d {
      var k :| 0 <= k < |defs| && defs[k] == d;
      LookupFinds(defs[1..], d);
    }
  }

  /** A filter name accepts what its node accepts; its else name exactly the rest. */
  lemma NamesResolve(nodes: seq<Node>, elses: set<string>, v: Verdict, n: Node)
    requires NamesOk(nodes) && n in nodes && n.kind == Filter
    ensures var defs := FilterDecls(nodes, elses);
            && Lookup(defs, FilterName(n.id)).Some?
            && (FilterAccepts(defs, v, FilterName(n.id)) <==> v(n.id))
            && (n.id in elses ==> Lookup(defs, ElseName(n.id)).Some?
                                  && (FilterAccepts(defs, v, ElseName(n.id)) <==> !v(n.id)))
  {
    FiltersDistinct(nodes, elses);
    FilterDeclsAre(nodes, elses);
    var own := FilterDef(FilterName(n.id), Conditions(n.id));
    assert own in FilterDecl(n, elses);
    LookupFinds(FilterDecls(nodes, elses), own);
    if n.id in elses {
      var other := FilterDef(ElseName(n.id), NotFilter(FilterName(n.id)));
      assert other in FilterDecl(n, elses);
      LookupFinds(FilterDecls(nodes, elses), other);
    }
  }

  // ----- what the paths mention

  ghost predicate StepOk(g: Graph, st: Step) {
    && (exists n | n in g.nodes :: n.id == st.filter && n.kind == Filter)
    && (st.negated ==> st.filter in ElseBranches(g.edges))
  }

  ghost predicate PathOk(g: Graph, p: FlowPath) {
    && (exists n | n in g.nodes :: n.id == p.source && n.kind == Source)
    && (exists n | n in g.nodes :: n.id == p.sink && IsSink(n.kind))
    && forall st | st in p.steps :: StepOk(g, st)
  }

  ghost predicate IsSourceId(g: Graph, id: string) { exists n | n in g.nodes :: n.id == id && n.kind == Source }

  lemma {:induction false} PathsFromOk(g: Graph, source: string, id: string, steps: seq<Step>)
    requires Walkable(g, id) && IsSourceId(g, source) && forall st | st in steps :: StepOk(g, st)
    ensures forall p | p in PathsFrom(g, source, id, steps) :: PathOk(g, p)
    decreases |Ahead(g, id)|, |g.edges| + 1
  {
    EdgesFromAre(g.edges, id);
    EdgesFromShorter(g.edges, id);
    PathsAlongOk(g, source, id, EdgesFrom(g.edges, id), steps);
  }

  lemma {:induction false} PathsAlongOk(g: Graph, source: string, id: string, es: seq<Edge>, steps: seq<Step>)
    requires Walkable(g, id) && EdgesOut(g, id, es)
    requires IsSourceId(g, source) && forall st | st in steps :: StepOk(g, st)
    ensures forall p | p in PathsAlong(g, source, id, es, steps) :: PathOk(g, p)
    decreases |Ahead(g, id)|, |es|
  {
    if es == [] {
    } else {
      var e := es[|es| - 1];
      PathsAlongOk(g, source, id, es[..|es| - 1], steps);
      AheadShrinks(g, id, e.to);
      assert EdgeOk(g, e);
      FindNodeIs(g.nodes, id);
      FindNodeIs(g.nodes, e.to);
      var cur := Extend(g, id, e, steps);
      forall st | st in cur ensures StepOk(g, st) {
        if st !in steps { assert st == Step(id, e.fromPort == PORT_ELSE); }
      }
      if NodeOf(g, e.to).value.kind == Filter {
        PathsFromOk(g, source, e.to, cur);
      }
    }
  }

  lemma {:induction false} SourcePathsOk(g: Graph, nodes: seq<Node>)
    requires EdgesOk(g) && forall n | n in nodes :: n in g.nodes && (n.kind == Source ==> !CyclicFrom(g, n.id))
    ensures forall p | p in PathsFromSources(g, nodes) :: PathOk(g, p)
  {
    if nodes == [] {
    } else {
      var last := nodes[|nodes| - 1];
      SourcePathsOk(g, nodes[..|nodes| - 1]);
      if last.kind == Source { PathsFromOk(g, last.id, last.id, []); }
    }
  }

  // ----- deliveries

  lemma {:induction false} DeliveriesConcat(cfg: Config, v: Verdict, a: seq<Log>, b: seq<Log>, source: string, dest: string)
    ensures Deliveries(cfg, v, a + b, source, dest) == Deliveries(cfg, v, a, source, dest) + Deliveries(cfg, v, b, source, dest)
  {
    if b == [] {
      assert a + b == a;
    } else {
      assert (a + b)[..|a + b| - 1] == a + b[..|b| - 1];
      DeliveriesConcat(cfg, v, a, b[..|b| - 1], source, dest);
    }
  }

  lemma {:induction false} NoDeliveries(cfg: Config, v: Verdict, logs: seq<Log>, source: string, dest: string)
    requires forall l | l in logs :: l.destination != dest || l.source != source
    ensures Deliveries(cfg, v, logs, source, dest) == 0
  {
    if logs == [] {
    } else {
      NoDeliveries(cfg, v, logs[..|logs| - 1], source, dest);
    }
  }

  /** One log block delivers exactly when its path does. */
  lemma LogMeansPath(g: Graph, cfg: Config, v: Verdict, p: FlowPath, s: Node, t: Node)
    requires NamesOk(g.nodes) && PathOk(g, p) && s in g.nodes && t in g.nodes
    requires cfg.filters == FilterDecls(g.nodes, ElseBranches(g.edges))
    ensures LogDelivers(cfg, v, PathLog(p), SourceName(s.id), DestName(t.id)) <==> Delivers(v, p, s.id, t.id)
    ensures forall f | f in PathLog(p).filters :: Lookup(cfg.filters, f).Some?
  {
    var a :| a in g.nodes && a.id == p.source;
    var b :| b in g.nodes && b.id == p.sink;
    if SourceName(p.source) == SourceName(s.id) {
      PrefixCancels("s_", Ident(p.source), Ident(s.id));
      SameIdentSameNode(g.nodes, a, s);
    }
    if DestName(p.sink) == DestName(t.id) {
      PrefixCancels("d_", Ident(p.sink), Ident(t.id));
      SameIdentSameNode(g.nodes, b, t);
    }
    var names := PathLog(p).filters;
    forall i | 0 <= i < |p.steps|
      ensures Lookup(cfg.filters, names[i]).Some?
      ensures FilterAccepts(cfg.filters, v, names[i]) <==> v(p.steps[i].filter) != p.steps[i].negated
    {
      assert StepOk(g, p.steps[i]);
      var n :| n in g.nodes && n.id == p.steps[i].filter && n.kind == Filter;
      NamesResolve(g.nodes, ElseBranches(g.edges), v, n);
    }
    assert forall i | 0 <= i < |p.steps| :: p.steps[i] in p.steps && names[i] in names;
  }

  lemma {:induction false} LogsCountPaths(g: Graph, cfg: Config, v: Verdict, ps: seq<FlowPath>, s: Node, t: Node)
    requires NamesOk(g.nodes) && s in g.nodes && t in g.nodes && forall p | p in ps :: PathOk(g, p)
    requires cfg.filters == FilterDecls(g.nodes, ElseBranches(g.edges))
    ensures Deliveries(cfg, v, PathLogs(ps), SourceName(s.id), DestName(t.id)) == CountPaths(v, ps, s.id, t.id)
  {
    if ps == [] {
    } else {
      var n := |ps| - 1;
      assert PathLogs(ps)[..n] == PathLogs(ps[..n]);
      LogsCountPaths(g, cfg, v, ps[..n], s, t);
      LogMeansPath(g, cfg, v, ps[n], s, t);
    }
  }

  lemma {:induction false} TapLogsAre(nodes: seq<Node>)
    ensures forall l :: l in TapLogs(nodes) <==>
              exists n | n in nodes :: n.kind == Source && l == Log(SourceName(n.id), [], TapName(n.id))
  {
    if nodes == [] {
    } else {
      TapLogsAre(nodes[..|nodes| - 1]);
      assert nodes == nodes[..|nodes| - 1] + [nodes[|nodes| - 1]];
    }
  }

  lemma GeneratedPathsOk(g: Graph)
    requires ValidGraph(g)
    ensures NamesOk(Enabled(g).nodes)
    ensures UniqueIds(Enabled(g).nodes) && EdgesOk(Enabled(g)) && AcyclicFromSources(Enabled(g))
    ensures forall p | p in Sort(PathsFromSources(Enabled(g), Enabled(g).nodes)) :: PathOk(Enabled(g), p)
  {
    var en := Enabled(g);
    EnabledIsSound(g);
    EnabledNodesAre(g.nodes);
    EnabledIdents(g.nodes);
    SourcePathsOk(en, en.nodes);
    var ps := PathsFromSources(en, en.nodes);
    Sorting.SortKeeps(Before, ps);
    forall p | p in Sort(ps) ensures PathOk(en, p) {
      assert p in multiset(Sort(ps));
      assert p in ps;
    }
  }

  lemma {:induction false} EnabledIdents(nodes: seq<Node>)
    requires IdentsDistinct(nodes)
    ensures IdentsDistinct(EnabledNodes(nodes))
  {
    if nodes == [] {
    } else {
      var init := nodes[..|nodes| - 1];
      EnabledIdents(init);
      EnabledNodesAre(init);
      forall n | n in EnabledNodes(init) ensures Ident(n.id) != Ident(nodes[|nodes| - 1].id) {
        var k :| 0 <= k < |init| && init[k] == n;
      }
    }
  }

  /**
   The configuration, read by name, routes every message as the graph does: log blocks
   delivering from a source to a sink number the token copies that arrive there.
   */
  lemma ConfigRoutesLikeGraph(g: Graph, v: Verdict, s: Node, t: Node)
    requires ValidGraph(g)
    requires s in Enabled(g).nodes && s.kind == Source && t in Enabled(g).nodes && IsSink(t.kind)
    ensures Walkable(Enabled(g), s.id)
    ensures var cfg := Generated(g);
            Deliveries(cfg, v, cfg.logs, SourceName(s.id), DestName(t.id)) == Arrivals(Enabled(g), v, s.id, t.id)
  {
    var en := Enabled(g);
    var cfg := Generated(g);
    GeneratedPathsOk(g);
    var ps := Sort(PathsFromSources(en, en.nodes));
    DeliveriesConcat(cfg, v, PathLogs(ps), TapLogs(en.nodes), SourceName(s.id), DestName(t.id));
    LogsCountPaths(en, cfg, v, ps, s, t);
    RoutingPreserved(en, v, s, t.id);
    TapLogsAre(en.nodes);
    forall l | l in TapLogs(en.nodes) ensures l.destination != DestName(t.id) {
      var n :| n in en.nodes && n.kind == Source && l == Log(SourceName(n.id), [], TapName(n.id));
      if TapName(n.id) == DestName(t.id) { TapCollides(n.id, t.id); }
    }
    NoDeliveries(cfg, v, TapLogs(en.nodes), SourceName(s.id), DestName(t.id));
  }

  /** Every enabled source feeds its live-tail tap exactly once, whatever the filters say. */
  lemma TapSeesEverything(g: Graph, v: Verdict, s: Node)
    requires ValidGraph(g) && s in Enabled(g).nodes && s.kind == Source
    ensures var cfg := Generated(g);
            Deliveries(cfg, v, cfg.logs, SourceName(s.id), TapName(s.id)) == 1
  {
    var en := Enabled(g);
    var cfg := Generated(g);
    GeneratedPathsOk(g);
    var logs := PathLogs(Sort(PathsFromSources(en, en.nodes)));
    DeliveriesConcat(cfg, v, logs, TapLogs(en.nodes), SourceName(s.id), TapName(s.id));
    forall l | l in logs ensures l.destination != TapName(s.id) {
      var k :| 0 <= k < |logs| && logs[k] == l;
      var p := Sort(PathsFromSources(en, en.nodes))[k];
      assert PathOk(en, p);
      var n :| n in en.nodes && n.id == p.sink;
      if DestName(p.sink) == TapName(s.id) { TapCollides(s.id, n.id); }
    }
    NoDeliveries(cfg, v, logs, SourceName(s.id), TapName(s.id));
    OneTap(cfg, v, en.nodes, s);
  }

  lemma SingleLog(cfg: Config, v: Verdict, l: Log, source: string, dest: string)
    ensures Deliveries(cfg, v, [l], source, dest) == if LogDelivers(cfg, v, l, source, dest) then 1 else 0
  {
    assert [l][..0] == [];
  }

  lemma {:induction false} OneTap(cfg: Config, v: Verdict, nodes: seq<Node>, s: Node)
    requires NamesOk(nodes) && s.kind == Source && (s in nodes || forall n | n in nodes :: Ident(n.id) != Ident(s.id))
    ensures Deliveries(cfg, v, TapLogs(nodes), SourceName(s.id), TapName(s.id)) == if s in nodes then 1 else 0
  {
    if nodes == [] {
    } else {
      var init, last := nodes[..|nodes| - 1], nodes[|nodes| - 1];
      NamesOkInit(nodes);
      OneTap(cfg, v, init, s);
      if last.kind == Source {
        var tap := Log(SourceName(last.id), [], TapName(last.id));
        assert TapLogs(nodes) == TapLogs(init) + [tap];
        DeliveriesConcat(cfg, v, TapLogs(init), [tap], SourceName(s.id), TapName(s.id));
        if last != s && SourceName(last.id) == SourceName(s.id) {
          PrefixCancels("s_", Ident(last.id), Ident(s.id));
          assert false;
        }
        assert LogDelivers(cfg, v, tap, SourceName(s.id), TapName(s.id)) <==> last == s;
        SingleLog(cfg, v, tap, SourceName(s.id), TapName(s.id));
      } else {
        assert TapLogs(nodes) == TapLogs(init);
      }
    }
  }

  /** Every name used in a log block is declared, and no declaration repeats a name. */
  lemma EverythingDeclaredOnce(g: Graph)
    requires ValidGraph(g)
    ensures var cfg := Generated(g);
            && Distinct(cfg.sources) && Distinct(cfg.destinations) && DistinctDefs(cfg.filters)
            && forall l | l in cfg.logs :: Declared(cfg, l)
  {
    var en := Enabled(g);
    var cfg := Generated(g);
    GeneratedPathsOk(g);
    DestinationsDistinct(en.nodes);
    FiltersDistinct(en.nodes, ElseBranches(en.edges));
    SourceDeclsAre(en.nodes);
    SinkDeclsAre(en.nodes);
    TapDeclsAre(en.nodes);
    TapLogsAre(en.nodes);
    var ps := Sort(PathsFromSources(en, en.nodes));
    forall l | l in cfg.logs ensures Declared(cfg, l) {
      if l in PathLogs(ps) {
        var k :| 0 <= k < |ps| && PathLogs(ps)[k] == l;
        assert PathOk(en, ps[k]);
        var n :| n in en.nodes && n.id == ps[k].source && n.kind == Source;
        LogMeansPath(en, cfg, (_: string) => true, ps[k], n, n);
      }
    }
  }
}
