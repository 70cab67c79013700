/**
 The generated syslog-ng configuration: identifiers, the collision check, validation, the
 declarations and log blocks, and what a configuration does with a message when its blocks are
 read by name (apps/syslog-valve/internal/codegen/codegen.go, graph/graph.go, graph/safety.go).
 */
module ConfigGen {
  import opened Common
  import opened FlowGraph
  import opened FlowPaths

  // ----- identifiers

  predicate IdentChar(c: char) { 'a' <= c <= 'z' || '0' <= c <= '9' || c == '_' }

  /** ASCII lower case, which is all a validated id contains. */
  function ToLower(c: char): char {
    if 'A' <= c <= 'Z' then (c as int + 32) as char else c
  }

  function SkipUnsafe(s: string): string {
    if s != [] && !IdentChar(ToLower(s[0])) then SkipUnsafe(s[1..]) else s
  }

  /** Lower-cased, each run of unsafe characters replaced by one underscore. */
  function Ident(id: string): string
    decreases |id|
  {
    if id == [] then []
    else if IdentChar(ToLower(id[0])) then [ToLower(id[0])] + Ident(id[1..])
    else
      SkipShortens(id[1..]);
      "_" + Ident(SkipUnsafe(id[1..]))
  }

  lemma {:induction false} SkipShortens(s: string)
    ensures |SkipUnsafe(s)| <= |s|
  {
    if s == [] {
    } else {
      SkipShortens(s[1..]);
    }
  }

  /** An identifier holds only safe characters, and compiling it again changes nothing. */
  lemma {:induction false} IdentIsStable(id: string)
    ensures forall c | c in Ident(id) :: IdentChar(c)
    ensures Ident(Ident(id)) == Ident(id)
    decreases |id|
  {
    if id == [] {
    } else {
      if IdentChar(ToLower(id[0])) {
        IdentIsStable(id[1..]);
        IdentOfCons(ToLower(id[0]), Ident(id[1..]));
      } else {
        SkipShortens(id[1..]);
        IdentIsStable(SkipUnsafe(id[1..]));
        IdentOfCons('_', Ident(SkipUnsafe(id[1..])));
      }
    }
  }

  lemma IdentOfCons(c: char, s: string)
    requires IdentChar(c)
    ensures Ident([c] + s) == [c] + Ident(s)
  {
    assert ([c] + s)[1..] == s;
  }

  /** The letters and digits of a text, lower-cased, in order. */
  function Letters(s: string): string {
    if s == [] then []
    else (if IdentChar(ToLower(s[0])) && s[0] != '_' then [ToLower(s[0])] else []) + Letters(s[1..])
  }

  lemma {:induction false} SkippedHasNone(s: string)
    ensures Letters(SkipUnsafe(s)) == Letters(s)
  {
    if s != [] && !IdentChar(ToLower(s[0])) { SkippedHasNone(s[1..]); }
  }

  /** An identifier keeps every letter and digit of its id, in order, and an id of safe characters as it is. */
  lemma {:induction false} IdentKeepsLetters(id: string)
    ensures Letters(Ident(id)) == Letters(id)
    ensures (forall c | c in id :: IdentChar(c)) ==> Ident(id) == id
    decreases |id|
  {
    if id != [] {
      if IdentChar(ToLower(id[0])) {
        IdentKeepsLetters(id[1..]);
        assert Ident(id)[1..] == Ident(id[1..]);
        assert id == [id[0]] + id[1..] && id[0] in id && forall c | c in id[1..] :: c in id;
      } else {
        assert id[0] in id && !IdentChar(id[0]);
        SkipShortens(id[1..]);
        IdentKeepsLetters(SkipUnsafe(id[1..]));
        SkippedHasNone(id[1..]);
        assert Ident(id)[1..] == Ident(SkipUnsafe(id[1..]));
      }
    }
  }

  lemma {:induction false} SkipsRun(u: string, s: string)
    requires (forall c | c in u :: !IdentChar(ToLower(c))) && (s == "" || IdentChar(ToLower(s[0])))
    ensures SkipUnsafe(u + s) == s
  {
    if u == "" {
      assert u + s == s;
    } else {
      assert u[0] in u && (u + s)[1..] == u[1..] + s;
      SkipsRun(u[1..], s);
    }
  }

  /** A run of unsafe characters, however long, becomes one underscore; a safe one stands for itself. */
  lemma IdentOfRun(u: string, c: char, s: string)
    requires u != "" && (forall x | x in u :: !IdentChar(ToLower(x))) && IdentChar(ToLower(c))
    ensures Ident(u + ([c] + s)) == "_" + Ident([c] + s)
    ensures Ident(u) == "_"
    ensures Ident([c] + s) == [ToLower(c)] + Ident(s)
  {
    assert u[0] in u && (u + ([c] + s))[1..] == u[1..] + ([c] + s) && u[1..] + "" == u[1..];
    SkipsRun(u[1..], [c] + s);
    SkipsRun(u[1..], "");
    assert ([c] + s)[1..] == s;
  }

  const TAP := "tap_"
  const ELSE := "_else"

  ghost predicate IdentsDistinct(nodes: seq<Node>) {
    forall i, j | 0 <= i < j < |nodes| :: Ident(nodes[i].id) != Ident(nodes[j].id)
  }

  /** No node compiles to a name derived for another: d_tap_<source>, f_<filter>_else. */
  ghost predicate DerivedFree(nodes: seq<Node>) {
    forall a, b | a in nodes && b in nodes ::
      && (a.kind == Source ==> Ident(b.id) != TAP + Ident(a.id))
      && (a.kind == Filter ==> Ident(b.id) != Ident(a.id) + ELSE)
  }

  method CheckIdents(g: Graph) returns (ok: bool)
    ensures ok <==> IdentsDistinct(g.nodes) && DerivedFree(g.nodes)
  {
    var owner: map<string, string> := map[];
    for i := 0 to |g.nodes|
      invariant IdentsDistinct(g.nodes[..i])
      invariant owner.Keys == set n | n in g.nodes[..i] :: Ident(n.id)
    {
      var id := Ident(g.nodes[i].id);
      assert g.nodes[..i + 1] == g.nodes[..i] + [g.nodes[i]];
      if id in owner {
        var n :| n in g.nodes[..i] && Ident(n.id) == id;
        var k :| 0 <= k < i && g.nodes[k] == n;
        return false;
      }
      owner := owner[id := g.nodes[i].id];
    }
    assert g.nodes[..|g.nodes|] == g.nodes;
    for i := 0 to |g.nodes|
      invariant forall a, b | a in g.nodes[..i] && b in g.nodes ::
        && (a.kind == Source ==> Ident(b.id) != TAP + Ident(a.id))
        && (a.kind == Filter ==> Ident(b.id) != Ident(a.id) + ELSE)
    {
      var n := g.nodes[i];
      assert g.nodes[..i + 1] == g.nodes[..i] + [n];
      if n.kind == Source || n.kind == Filter {
        var derived := if n.kind == Source then TAP + Ident(n.id) else Ident(n.id) + ELSE;
        if derived in owner {
          var b :| b in g.nodes && Ident(b.id) == derived;
          return false;
        }
        assert forall b | b in g.nodes :: Ident(b.id) != derived;
      }
    }
    assert g.nodes[..|g.nodes|] == g.nodes;
    return true;
  }

  /** Everything Validate establishes that compilation relies on. */
  ghost predicate ValidGraph(g: Graph) {
    && UniqueIds(g.nodes) && KnownTypes(g)
    && IdentsDistinct(g.nodes) && DerivedFree(g.nodes)
    && EdgesOk(g) && AcyclicFromSources(g)
  }

  /** validateEdge. */
  method ValidateEdge(g: Graph, e: Edge) returns (ok: bool)
    ensures ok <==> EdgeOk(g, e)
    ensures ok <==>
      var from, to := NodeOf(g, e.from), NodeOf(g, e.to);
      && from.Some? && to.Some?
      && ((from.value.kind == Source && e.fromPort == "") || (from.value.kind == Filter && e.fromPort in {"", "match", "else"}))
      && to.value.kind in {Filter, Forward, Cache, Notify}
  {
    var from, to := NodeOf(g, e.from), NodeOf(g, e.to);
    if from.None? || to.None? {
      return false;
    }
    match from.value.kind {
      case Source =>
        if e.fromPort != "" {
          return false;
        }
      case Filter =>
        if e.fromPort != "" && e.fromPort != PORT_MATCH && e.fromPort != PORT_ELSE {
          return false;
        }
      case _ => return false;
    }
    return to.value.kind == Filter || to.value.kind == Forward || to.value.kind == Cache || to.value.kind == Notify;
  }

  /**
   Validate: accepts exactly the graphs compilation can rely on, among those whose nodes and
   listeners pass their own checks (`nodeOk`: id syntax, texts and settings).
   */
  method Validate(g: Graph, nodeOk: Node -> bool, listenersOk: bool) returns (ok: bool)
    ensures ok <==> ValidGraph(g) && (forall n | n in g.nodes :: nodeOk(n)) && listenersOk
  {
    var seen: set<string> := {};
    for i := 0 to |g.nodes|
      invariant UniqueIds(g.nodes[..i]) && seen == set n | n in g.nodes[..i] :: n.id
      invariant forall k | 0 <= k < i :: nodeOk(g.nodes[k]) && g.nodes[k].kind != Unknown
    {
      var n := g.nodes[i];
      assert g.nodes[..i + 1] == g.nodes[..i] + [n];
      if n.id in seen {
        var m :| m in g.nodes[..i] && m.id == n.id;
        var k :| 0 <= k < i && g.nodes[k] == m;
        return false;
      }
      if !nodeOk(n) || n.kind == Unknown {
        return false;
      }
      seen := seen + {n.id};
    }
    assert g.nodes[..|g.nodes|] == g.nodes;
    ok := CheckIdents(g);
    if !ok {
      return false;
    }
    for i := 0 to |g.edges|
      invariant forall k | 0 <= k < i :: EdgeOk(g, g.edges[k])
    {
      ok := ValidateEdge(g, g.edges[i]);
      if !ok {
        return false;
      }
    }
    if !listenersOk {
      return false;
    }
    ok := CheckCycles(g);
  }

  // ----- the configuration

  datatype FilterBody = Conditions(node: string) | NotFilter(name: string)

  datatype FilterDef = FilterDef(name: string, body: FilterBody)

  datatype Log = Log(source: string, filters: seq<string>, destination: string)

  datatype Config = Config(sources: seq<string>, filters: seq<FilterDef>, destinations: seq<string>, logs: seq<Log>)

  function SourceName(id: string): string { "s_" + Ident(id) }
  function FilterName(id: string): string { "f_" + Ident(id) }
  function ElseName(id: string): string { "f_" + Ident(id) + ELSE }
  function DestName(id: string): string { "d_" + Ident(id) }
  function TapName(id: string): string { "d_" + TAP + Ident(id) }

  /** Filters with an else edge; these get a negated companion. */
  function ElseBranches(edges: seq<Edge>): set<string> {
    set e | e in edges && e.fromPort == PORT_ELSE :: e.from
  }

  function SourceDecls(nodes: seq<Node>): seq<string> {
    if nodes == [] then []
    else
      var n := nodes[|nodes| - 1];
      SourceDecls(nodes[..|nodes| - 1]) + if n.kind == Source then [SourceName(n.id)] else []
  }

  function SinkDecls(nodes: seq<Node>): seq<string> {
    if nodes == [] then []
    else
      var n := nodes[|nodes| - 1];
      SinkDecls(nodes[..|nodes| - 1]) + if IsSink(n.kind) then [DestName(n.id)] else []
  }

  function TapDecls(nodes: seq<Node>): seq<string> {
    if nodes == [] then []
    else
      var n := nodes[|nodes| - 1];
      TapDecls(nodes[..|nodes| - 1]) + if n.kind == Source then [TapName(n.id)] else []
  }

  function FilterDecl(n: Node, elses: set<string>): seq<FilterDef> {
    if n.kind != Filter then []
    else if n.id in elses then
      [FilterDef(FilterName(n.id), Conditions(n.id)), FilterDef(ElseName(n.id), NotFilter(FilterName(n.id)))]
    else [FilterDef(FilterName(n.id), Conditions(n.id))]
  }

  function FilterDecls(nodes: seq<Node>, elses: set<string>): seq<FilterDef> {
    if nodes == [] then []
    else FilterDecls(nodes[..|nodes| - 1], elses) + FilterDecl(nodes[|nodes| - 1], elses)
  }

  function StepName(st: Step): string {
    if st.negated then ElseName(st.filter) else FilterName(st.filter)
  }

  function StepNames(steps: seq<Step>): seq<string> {
    seq(|steps|, i requires 0 <= i < |steps| => StepName(steps[i]))
  }

  function PathLog(p: FlowPath): Log {
    Log(SourceName(p.source), StepNames(p.steps), DestName(p.sink))
  }

  function PathLogs(ps: seq<FlowPath>): seq<Log> {
    seq(|ps|, i requires 0 <= i < |ps| => PathLog(ps[i]))
  }

  function TapLogs(nodes: seq<Node>): seq<Log> {
    if nodes == [] then []
    else
      var n := nodes[|nodes| - 1];
      TapLogs(nodes[..|nodes| - 1]) + if n.kind == Source then [Log(SourceName(n.id), [], TapName(n.id))] else []
  }

  ghost function Generated(g: Graph): Config
    requires ValidGraph(g)
  {
    EnabledIsSound(g);
    var en := Enabled(g);
    Config(
      SourceDecls(en.nodes),
      FilterDecls(en.nodes, ElseBranches(en.edges)),
      SinkDecls(en.nodes) + TapDecls(en.nodes),
      PathLogs(Sort(PathsFromSources(en, en.nodes))) + TapLogs(en.nodes))
  }

  method Declarations(nodes: seq<Node>, elses: set<string>)
    returns (sources: seq<string>, filters: seq<FilterDef>, sinks: seq<string>)
    ensures sources == SourceDecls(nodes) && filters == FilterDecls(nodes, elses) && sinks == SinkDecls(nodes)
  {
    sources, filters, sinks := [], [], [];
    for i := 0 to |nodes|
      invariant sources == SourceDecls(nodes[..i])
      invariant filters == FilterDecls(nodes[..i], elses)
      invariant sinks == SinkDecls(nodes[..i])
    {
      var n := nodes[i];
      assert nodes[..i + 1][..i] == nodes[..i];
      match n.kind {
        case Source =>
          sources := sources + [SourceName(n.id)];
        case Forward | Cache | Notify =>
          sinks := sinks + [DestName(n.id)];
        case Filter =>
          var defs := [FilterDef(FilterName(n.id), Conditions(n.id))];
          if n.id in elses {
            defs := defs + [FilterDef(ElseName(n.id), NotFilter(FilterName(n.id)))];
          }
          filters := filters + defs;
        case Unknown =>
      }
    }
    assert nodes[..|nodes|] == nodes;
  }

  method LogBlocks(paths: seq<FlowPath>) returns (logs: seq<Log>)
    ensures logs == PathLogs(paths)
  {
    logs := [];
    for i := 0 to |paths|
      invariant logs == PathLogs(paths[..i])
    {
      var steps := paths[i].steps;
      var names: seq<string> := [];
      for k := 0 to |steps|
        invariant names == StepNames(steps[..k])
      {
        var suffix := if steps[k].negated then ELSE else "";
        assert StepName(steps[k]) == "f_" + Ident(steps[k].filter) + suffix;
        names := names + ["f_" + Ident(steps[k].filter) + suffix];
      }
      assert steps[..|steps|] == steps;
      logs := logs + [Log(SourceName(paths[i].source), names, DestName(paths[i].sink))];
    }
    assert paths[..|paths|] == paths;
  }

  method Taps(nodes: seq<Node>) returns (taps: seq<string>, logs: seq<Log>)
    ensures taps == TapDecls(nodes) && logs == TapLogs(nodes)
  {
    taps, logs := [], [];
    for i := 0 to |nodes|
      invariant taps == TapDecls(nodes[..i]) && logs == TapLogs(nodes[..i])
    {
      var n := nodes[i];
      assert nodes[..i + 1][..i] == nodes[..i];
      if n.kind == Source {
        taps := taps + [TapName(n.id)];
        logs := logs + [Log(SourceName(n.id), [], TapName(n.id))];
      }
    }
    assert nodes[..|nodes|] == nodes;
  }

  datatype Invalid = Invalid

  /** Validates, then compiles the enabled subgraph. */
  method Generate(g: Graph, nodeOk: Node -> bool, listenersOk: bool) returns (res: Result<Config, Invalid>)
    ensures res.Ok? <==> ValidGraph(g) && (forall n | n in g.nodes :: nodeOk(n)) && listenersOk
    ensures res.Ok? ==> res.value == Generated(g)
  {
    var ok := Validate(g, nodeOk, listenersOk);
    if !ok {
      return Err(Invalid);
    }
    var en := BuildEnabled(g);
    EnabledIsSound(g);
    var sources, filters, sinks := Declarations(en.nodes, ElseBranches(en.edges));
    var paths := FlowPathsOf(en);
    var logs := LogBlocks(paths);
    var taps, tapLogs := Taps(en.nodes);
    res := Ok(Config(sources, filters, sinks + taps, logs + tapLogs));
  }

  // ----- reading a configuration by name

  function Lookup(defs: seq<FilterDef>, name: string): Option<FilterBody> {
    if defs == [] then None
    else if defs[0].name == name then Some(defs[0].body)
    else Lookup(defs[1..], name)
  }

  /** Does the named filter accept the message? An undeclared name accepts nothing. */
  predicate FilterAccepts(defs: seq<FilterDef>, v: Verdict, name: string) {
    match Lookup(defs, name)
    case Some(Conditions(node)) => v(node)
    case Some(NotFilter(inner)) =>
      (match Lookup(defs, inner) case Some(Conditions(node)) => !v(node) case _ => false)
    case None => false
  }

  predicate LogDelivers(cfg: Config, v: Verdict, l: Log, source: string, dest: string) {
    l.source == source && l.destination == dest && forall f | f in l.filters :: FilterAccepts(cfg.filters, v, f)
  }

  /** How many log blocks send a message of `source` to `dest`. */
  function Deliveries(cfg: Config, v: Verdict, logs: seq<Log>, source: string, dest: string): nat {
    if logs == [] then 0
    else
      Deliveries(cfg, v, logs[..|logs| - 1], source, dest)
      + if LogDelivers(cfg, v, logs[|logs| - 1], source, dest) then 1 else 0
  }

  ghost predicate Distinct<T>(s: seq<T>) { forall i, j | 0 <= i < j < |s| :: s[i] != s[j] }

  ghost predicate DistinctDefs(defs: seq<FilterDef>) {
    forall i, j | 0 <= i < j < |defs| :: defs[i].name != defs[j].name
  }

  ghost predicate Declared(cfg: Config, l: Log) {
    l.source in cfg.sources && l.destination in cfg.destinations
    && forall f | f in l.filters :: Lookup(cfg.filters, f).Some?
  }
}
