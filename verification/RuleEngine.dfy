/**
 Rules at ingest and over history: the engine that runs every rule's actions on one entry, the
 retroactive run of one rule as set operations over the table, and the proof that both leave an
 entry in the same state (apps/syslog-bucket/internal/engine/engine.go, store/rules.go).
 */
module RuleEngine {
  import opened Common
  import opened Condition
  import ConditionSql
  import Like

  datatype Action =
    | Tag(tagId: int)
    | SetPriority(priority: int)
    | Suppress
    | Notify(channel: int)
    | SetMitre(codes: seq<string>)
    | SetOt(codes: seq<string>)
    | Newer            // a type this version does not know

  datatype Rule = Rule(id: int, condition: Cond, actions: seq<Action>)

  function Elems<T>(s: seq<T>): set<T> { set x | x in s }

  // ----- the engine: one entry, in memory

  /** An entry on its way in, with the attributions and notifications rules queued on it. */
  datatype Incoming = Incoming(entry: Entry, ruleTags: seq<(int, int)>, notifies: seq<(int, int)>)

  function AppendUnique(dst: seq<string>, codes: seq<string>): seq<string> {
    if codes == [] then dst
    else
      var before := AppendUnique(dst, codes[..|codes| - 1]);
      if codes[|codes| - 1] in before then before else before + [codes[|codes| - 1]]
  }

  function Acted(x: Incoming, rule: int, a: Action): Incoming {
    match a
    case Tag(t) =>
      if t in x.entry.tagIds then x
      else x.(entry := x.entry.(tagIds := x.entry.tagIds + [t]), ruleTags := x.ruleTags + [(t, rule)])
    case SetPriority(p) => x.(entry := x.entry.(priority := p))
    case Suppress => x.(entry := x.entry.(suppressed := true))
    case Notify(c) => x.(notifies := x.notifies + [(c, rule)])
    case SetMitre(codes) => x.(entry := x.entry.(mitre := AppendUnique(x.entry.mitre, codes)))
    case SetOt(codes) => x.(entry := x.entry.(ot := AppendUnique(x.entry.ot, codes)))
    case Newer => x
  }

  function ActedAll(x: Incoming, rule: int, actions: seq<Action>): Incoming {
    if actions == [] then x
    else Acted(ActedAll(x, rule, actions[..|actions| - 1]), rule, actions[|actions| - 1])
  }

  function RanRules(w: World, x: Incoming, rules: seq<Rule>): Incoming {
    if rules == [] then x
    else
      var before := RanRules(w, x, rules[..|rules| - 1]);
      var r := rules[|rules| - 1];
      if Match(w, before.entry, r.condition) then ActedAll(before, r.id, r.actions) else before
  }

  /** Engine.Apply: all rules in order, then suppress beats notify. */
  function Ingested(w: World, x: Incoming, rules: seq<Rule>): Incoming {
    var done := RanRules(w, x, rules);
    if done.entry.suppressed then done.(notifies := []) else done
  }

  class LiveEntry {
    var entry: Entry
    var ruleTags: seq<(int, int)>
    var notifies: seq<(int, int)>

    function View(): Incoming
      reads this
    {
      Incoming(entry, ruleTags, notifies)
    }

    constructor (entry: Entry)
      ensures View() == Incoming(entry, [], [])
    {
      this.entry, ruleTags, notifies := entry, [], [];
    }

    method Act(rule: int, a: Action)
      modifies this
      ensures View() == Acted(old(View()), rule, a)
    {
      match a {
        case Tag(t) =>
          if t !in entry.tagIds {
            entry := entry.(tagIds := entry.tagIds + [t]);
            ruleTags := ruleTags + [(t, rule)];
          }
        case SetPriority(p) =>
          entry := entry.(priority := p);
        case Suppress =>
          entry := entry.(suppressed := true);
        case Notify(c) =>
          notifies := notifies + [(c, rule)];
        case SetMitre(codes) =>
          var merged := AppendUniqueLoop(entry.mitre, codes);
          entry := entry.(mitre := merged);
        case SetOt(codes) =>
          var merged := AppendUniqueLoop(entry.ot, codes);
          entry := entry.(ot := merged);
        case Newer =>
      }
    }

    method Apply(w: World, rules: seq<Rule>)
      modifies this
      ensures View() == Ingested(w, old(View()), rules)
    {
      for i := 0 to |rules|
        invariant View() == RanRules(w, old(View()), rules[..i])
      {
        var r := rules[i];
        assert rules[..i + 1][..i] == rules[..i];
        if Match(w, entry, r.condition) {
          ghost var before := View();
          for k := 0 to |r.actions|
            invariant View() == ActedAll(before, r.id, r.actions[..k])
          {
            assert r.actions[..k + 1][..k] == r.actions[..k];
            Act(r.id, r.actions[k]);
          }
          assert r.actions[..|r.actions|] == r.actions;
        }
      }
      assert rules[..|rules|] == rules;
      if entry.suppressed {
        notifies := [];
      }
    }
  }

  method AppendUniqueLoop(dst: seq<string>, codes: seq<string>) returns (out: seq<string>)
    ensures out == AppendUnique(dst, codes)
  {
    out := dst;
    for i := 0 to |codes|
      invariant out == AppendUnique(dst, codes[..i])
    {
      assert codes[..i + 1][..i] == codes[..i];
      var found := false;
      for k := 0 to |out|
        invariant found <==> codes[i] in out[..k]
      {
        if out[k] == codes[i] {
          found := true;
        }
      }
      assert out[..|out|] == out;
      if !found {
        out := out + [codes[i]];
      }
    }
    assert codes[..|codes|] == codes;
  }

  // ----- history: one rule over the whole table

  /** SELECT DISTINCT over an array; SQL leaves the order open, only the elements matter here. */
  function Distinct(s: seq<string>): seq<string> { AppendUnique([], s) }

  /** The statement's WHERE clause, beyond selecting matched rows; `known` are the existing tags. */
  predicate Where(known: set<int>, row: Entry, a: Action) {
    match a
    case Tag(t) => t in known && t !in row.tagIds
    case SetPriority(p) => row.priority != p
    case Suppress => !row.suppressed
    case SetMitre(codes) => codes != [] && !(Elems(codes) <= Elems(row.mitre))
    case SetOt(codes) => codes != [] && !(Elems(codes) <= Elems(row.ot))
    case Notify(_) => false
    case Newer => false
  }

  /** The row it writes. */
  function SetTo(row: Entry, a: Action): Entry {
    match a
    case Tag(t) => row.(tagIds := row.tagIds + [t])
    case SetPriority(p) => row.(priority := p)
    case Suppress => row.(suppressed := true)
    case SetMitre(codes) => row.(mitre := Distinct(row.mitre + codes))
    case SetOt(codes) => row.(ot := Distinct(row.ot + codes))
    case Notify(_) => row
    case Newer => row
  }

  /** What one action's statement does to one matched row. */
  function Updated(known: set<int>, row: Entry, a: Action): Entry { if Where(known, row, a) then SetTo(row, a) else row }

  function UpdatedAll(known: set<int>, row: Entry, actions: seq<Action>): Entry {
    if actions == [] then row
    else Updated(known, UpdatedAll(known, row, actions[..|actions| - 1]), actions[|actions| - 1])
  }

  /** Some action changes the row. */
  predicate Touched(known: set<int>, row: Entry, actions: seq<Action>) {
    exists k | 0 <= k < |actions| ::
      Updated(known, UpdatedAll(known, row, actions[..k]), actions[k]) != UpdatedAll(known, row, actions[..k])
  }

  predicate Skips(a: Action) {
    a.Notify? || a.Newer? || ((a.SetMitre? || a.SetOt?) && a.codes == [])
  }

  datatype Summary = Summary(affected: nat, matched: nat, skipped: set<Action>)

  datatype Failure = BadCondition | StatementFailed

  function Selected(w: World, rows: map<int, Entry>, sql: ConditionSql.Sql, binds: seq<ConditionSql.Bind>): set<int> {
    set id | id in rows && ConditionSql.Eval(w, rows[id], binds, sql) == ConditionSql.True
  }

  /** Each matched row after all the actions, on its own. */
  function Rewritten(known: set<int>, rows: map<int, Entry>, hit: set<int>, actions: seq<Action>): map<int, Entry> {
    map id | id in rows :: if id in hit then UpdatedAll(known, rows[id], actions) else rows[id]
  }

  /** The matched rows some action changes, each on its own. */
  function TouchedIds(known: set<int>, rows: map<int, Entry>, hit: set<int>, actions: seq<Action>): set<int> {
    set id | id in hit && id in rows && Touched(known, rows[id], actions)
  }

  /** The table, and the ids collected in rule_apply_touched. */
  datatype Progress = Progress(rows: map<int, Entry>, touched: set<int>)

  /** One statement over the matched rows: it writes those its WHERE clause lets through, and reports them. */
  function Statement(known: set<int>, p: Progress, hit: set<int>, a: Action): Progress {
    var changed := set id | id in hit && id in p.rows && Where(known, p.rows[id], a);
    Progress(map id | id in p.rows :: if id in changed then SetTo(p.rows[id], a) else p.rows[id], p.touched + changed)
  }

  /** The statements of all actions, one after another. */
  function StatementRun(known: set<int>, rows: map<int, Entry>, hit: set<int>, actions: seq<Action>): Progress {
    if actions == [] then Progress(rows, {})
    else Statement(known, StatementRun(known, rows, hit, actions[..|actions| - 1]), hit, actions[|actions| - 1])
  }

  /** RETURNING reports exactly the rows that change. */
  lemma WhereMeansChanged(known: set<int>, row: Entry, a: Action)
    ensures Where(known, row, a) <==> Updated(known, row, a) != row
  {
    if Where(known, row, a) {
      match a
      case SetMitre(codes) => DistinctElems(row.mitre + codes); MoreCodes(row.mitre, codes);
      case SetOt(codes) => DistinctElems(row.ot + codes); MoreCodes(row.ot, codes);
      case _ =>
    }
  }

  lemma MoreCodes(have: seq<string>, codes: seq<string>)
    ensures Elems(have + codes) == Elems(have) + Elems(codes)
  {
  }

  lemma NoActions(known: set<int>, rows: map<int, Entry>, hit: set<int>)
    ensures Rewritten(known, rows, hit, []) == rows && TouchedIds(known, rows, hit, []) == {}
  {
    forall id | id in rows
      ensures Rewritten(known, rows, hit, [])[id] == rows[id] && !Touched(known, rows[id], [])
    {
      assert UpdatedAll(known, rows[id], []) == rows[id];
    }
  }

  lemma UpdatedSnoc(known: set<int>, row: Entry, before: seq<Action>, a: Action)
    ensures UpdatedAll(known, row, before + [a]) == Updated(known, UpdatedAll(known, row, before), a)
  {
    assert (before + [a])[..|before|] == before;
  }

  /** The row form of one more statement. */
  lemma OneMoreStatement(known: set<int>, rows: map<int, Entry>, hit: set<int>, before: seq<Action>, a: Action)
    ensures var p := Progress(Rewritten(known, rows, hit, before), TouchedIds(known, rows, hit, before));
            Statement(known, p, hit, a)
            == Progress(Rewritten(known, rows, hit, before + [a]), TouchedIds(known, rows, hit, before + [a]))
  {
    var p := Progress(Rewritten(known, rows, hit, before), TouchedIds(known, rows, hit, before));
    var next := Statement(known, p, hit, a);
    forall id | id in rows ensures next.rows[id] == Rewritten(known, rows, hit, before + [a])[id] {
      UpdatedSnoc(known, rows[id], before, a);
    }
    assert next.rows == Rewritten(known, rows, hit, before + [a]);
    forall id | id in hit && id in rows
      ensures id in TouchedIds(known, rows, hit, before + [a]) <==> id in next.touched
    {
      TouchedSnoc(known, rows[id], before, a);
      WhereMeansChanged(known, p.rows[id], a);
    }
    assert next.touched == TouchedIds(known, rows, hit, before + [a]);
  }

  /**
   Running the statements one after another over the table, on the ids matched beforehand, leaves
   every matched row as its own actions would, and collects exactly the rows some action changed.
   */
  lemma {:induction false} StatementsAreRowByRow(known: set<int>, rows: map<int, Entry>, hit: set<int>, actions: seq<Action>)
    ensures StatementRun(known, rows, hit, actions)
         == Progress(Rewritten(known, rows, hit, actions), TouchedIds(known, rows, hit, actions))
  {
    if actions == [] {
      NoActions(known, rows, hit);
    } else {
      var init, last := actions[..|actions| - 1], actions[|actions| - 1];
      StatementsAreRowByRow(known, rows, hit, init);
      OneMoreStatement(known, rows, hit, init, last);
      assert actions == init + [last];
    }
  }

  class History {
    var rows: map<int, Entry>
    var tags: set<int>

    constructor (rows: map<int, Entry>, tags: set<int>)
      ensures this.rows == rows && this.tags == tags
    {
      this.rows, this.tags := rows, tags;
    }

    /** ApplyRuleHistorical: `failAt` is the statement, if any, on which the database errors. */
    method ApplyRule(w: World, r: Rule, failAt: Option<nat>) returns (res: Result<Summary, Failure>)
      modifies this`rows
      ensures res.Err? ==> rows == old(rows)
      ensures !Valid(w, r.condition) ==> res == Err(BadCondition)
      ensures Valid(w, r.condition) ==>
        var out := ConditionSql.Compiled(w, r.condition, []);
        var hit := Selected(w, old(rows), out.0, out.1);
        && (res.Err? ==> res == Err(StatementFailed) && failAt.Some?)
        && (res.Ok? ==>
              && rows == StatementRun(tags, old(rows), hit, r.actions).rows
              && res.value.matched == |hit|
              && res.value.affected == |StatementRun(tags, old(rows), hit, r.actions).touched|
              && res.value.skipped == set a | a in r.actions && Skips(a))
    {
      var compiled := ConditionSql.CompileSql(w, r.condition);
      if compiled.Err? {
        return Err(BadCondition);
      }
      var (sql, binds) := compiled.value;
      var hit := Selected(w, rows, sql, binds);
      var work, skipped, ok := RunStatements(hit, r.actions, failAt);
      if !ok {
        return Err(StatementFailed);
      }
      rows := work.rows;
      res := Ok(Summary(|work.touched|, |hit|, skipped));
    }

    /** The loop over the actions, inside the transaction. */
    method RunStatements(hit: set<int>, actions: seq<Action>, failAt: Option<nat>)
        returns (work: Progress, skipped: set<Action>, ok: bool)
      ensures !ok ==> failAt.Some?
      ensures ok ==> work == StatementRun(tags, rows, hit, actions) && skipped == set a | a in actions && Skips(a)
    {
      work, skipped, ok := Progress(rows, {}), {}, true;
      for k := 0 to |actions|
        invariant work == StatementRun(tags, rows, hit, actions[..k])
        invariant skipped == set a | a in actions[..k] && Skips(a)
      {
        var a := actions[k];
        assert actions[..k + 1] == actions[..k] + [a];
        if Skips(a) {
          SkippedDoesNothing(tags, work, hit, a);
          skipped := skipped + {a};
        } else if failAt == Some(k) {
          ok := false;
          return;
        } else {
          work := Statement(tags, work, hit, a);
        }
      }
      assert actions[..|actions|] == actions;
    }
  }

  lemma SkippedDoesNothing(known: set<int>, p: Progress, hit: set<int>, a: Action)
    requires Skips(a)
    ensures Statement(known, p, hit, a) == p
  {
    assert forall row :: !Where(known, row, a);
  }

  lemma TouchedSnoc(known: set<int>, row: Entry, actions: seq<Action>, a: Action)
    ensures var before := UpdatedAll(known, row, actions);
            Touched(known, row, actions + [a]) <==> Touched(known, row, actions) || Updated(known, before, a) != before
  {
    var more := actions + [a];
    assert more[..|actions|] == actions;
    assert forall k | 0 <= k < |actions| :: more[..k] == actions[..k] && more[k] == actions[k];
    if Touched(known, row, actions) {
      var k :| 0 <= k < |actions| &&
        Updated(known, UpdatedAll(known, row, actions[..k]), actions[k]) != UpdatedAll(known, row, actions[..k]);
      assert Updated(known, UpdatedAll(known, row, more[..k]), more[k]) != UpdatedAll(known, row, more[..k]);
    }
    assert more[|actions|] == a;
  }

  // ----- the two forms agree

  lemma {:induction false} AppendUniqueElems(dst: seq<string>, codes: seq<string>)
    ensures Elems(AppendUnique(dst, codes)) == Elems(dst) + Elems(codes)
  {
    if codes == [] {
    } else {
      var init, last := codes[..|codes| - 1], codes[|codes| - 1];
      AppendUniqueElems(dst, init);
      assert codes == init + [last];
      assert Elems(codes) == Elems(init) + {last};
      var before := AppendUnique(dst, init);
      assert Elems(before + [last]) == Elems(before) + {last};
    }
  }

  lemma DistinctElems(s: seq<string>)
    ensures Elems(Distinct(s)) == Elems(s)
  {
    AppendUniqueElems([], s);
  }

  /** What InsertEntries stores: rule-applied tags that no longer exist are trimmed. */
  ghost function StoredTags(x: Incoming, known: set<int>): set<int> {
    set t | t in x.entry.tagIds && (t in known || forall rt | rt in x.ruleTags :: rt.0 != t)
  }

  /** Same entry up to the order of tags and codes, and up to tags that do not exist. */
  ghost predicate SameState(x: Incoming, known: set<int>, row: Entry) {
    && StoredTags(x, known) == Elems(row.tagIds)
    && x.entry.priority == row.priority && x.entry.suppressed == row.suppressed
    && Elems(x.entry.mitre) == Elems(row.mitre) && Elems(x.entry.ot) == Elems(row.ot)
    && x.entry.(tagIds := [], priority := 0, suppressed := false, mitre := [], ot := [])
       == row.(tagIds := [], priority := 0, suppressed := false, mitre := [], ot := [])
  }

  /** Rule tags are always among the entry's tags. */
  ghost predicate Attributed(x: Incoming) { forall rt | rt in x.ruleTags :: rt.0 in x.entry.tagIds }

  lemma ActionAgrees(x: Incoming, rule: int, known: set<int>, row: Entry, a: Action)
    requires SameState(x, known, row) && Attributed(x)
    ensures SameState(Acted(x, rule, a), known, Updated(known, row, a)) && Attributed(Acted(x, rule, a))
  {
    match a
    case Tag(t) =>
      var y, next := Acted(x, rule, a), Updated(known, row, a);
      TagAgrees(x, rule, known, row, t);
    case SetMitre(codes) =>
      AppendUniqueElems(x.entry.mitre, codes);
      DistinctElems(row.mitre + codes);
      assert Elems(row.mitre + codes) == Elems(row.mitre) + Elems(codes);
    case SetOt(codes) =>
      AppendUniqueElems(x.entry.ot, codes);
      DistinctElems(row.ot + codes);
      assert Elems(row.ot + codes) == Elems(row.ot) + Elems(codes);
    case _ =>
  }

  lemma TagAgrees(x: Incoming, rule: int, known: set<int>, row: Entry, t: int)
    requires SameState(x, known, row) && Attributed(x)
    ensures SameState(Acted(x, rule, Tag(t)), known, Updated(known, row, Tag(t))) && Attributed(Acted(x, rule, Tag(t)))
  {
    var y, next := Acted(x, rule, Tag(t)), Updated(known, row, Tag(t));
    if t !in x.entry.tagIds {
      assert (t, rule) in y.ruleTags;
      assert t in StoredTags(y, known) <==> t in known;
      assert t !in Elems(row.tagIds);
      forall u | u != t ensures u in StoredTags(y, known) <==> u in StoredTags(x, known) {
        assert forall rt :: rt in y.ruleTags <==> rt in x.ruleTags || rt == (t, rule);
      }
    } else if t !in StoredTags(x, known) {
      assert t !in known;
    } else {
      assert t in row.tagIds;
    }
  }

  lemma {:induction false} ActionsAgree(x: Incoming, rule: int, known: set<int>, row: Entry, actions: seq<Action>)
    requires SameState(x, known, row) && Attributed(x)
    ensures SameState(ActedAll(x, rule, actions), known, UpdatedAll(known, row, actions))
    ensures Attributed(ActedAll(x, rule, actions))
  {
    if actions == [] {
    } else {
      var init := actions[..|actions| - 1];
      ActionsAgree(x, rule, known, row, init);
      ActionAgrees(ActedAll(x, rule, init), rule, known, UpdatedAll(known, row, init), actions[|actions| - 1]);
    }
  }

  /** One row after the historical run, its condition decided in SQL. */
  function RowAfter(w: World, known: set<int>, r: Rule, row: Entry): Entry {
    var out := ConditionSql.Compiled(w, r.condition, []);
    if ConditionSql.Eval(w, row, out.1, out.0) == ConditionSql.True then UpdatedAll(known, row, r.actions) else row
  }

  /** The whole historical run over the table treats every row on its own. */
  lemma TableRunIsRowByRow(w: World, known: set<int>, rows: map<int, Entry>, r: Rule)
    ensures var out := ConditionSql.Compiled(w, r.condition, []);
            StatementRun(known, rows, Selected(w, rows, out.0, out.1), r.actions).rows
            == map id | id in rows :: RowAfter(w, known, r, rows[id])
  {
    var out := ConditionSql.Compiled(w, r.condition, []);
    StatementsAreRowByRow(known, rows, Selected(w, rows, out.0, out.1), r.actions);
  }

  /**
   A rule run over history, selecting rows through the compiled SQL, leaves every row in the
   state the ingest engine, deciding with Match, would have stored it in.
   */
  lemma HistoryMatchesEngine(w: World, known: set<int>, r: Rule, row: Entry)
    requires Valid(w, r.condition) && ConditionSql.RowExact(row) && Like.KeepsSpecials(w.lower)
    requires ConditionSql.WindowsClear(w, row, r.condition)
    ensures SameState(Ingested(w, Incoming(row, [], []), [r]), known, RowAfter(w, known, r, row))
  {
    var x := Incoming(row, [], []);
    assert [r][..0] == [];
    assert RanRules(w, x, [r]) == if Match(w, row, r.condition) then ActedAll(x, r.id, r.actions) else x;
    ConditionSql.CompileCorrect(w, row, r.condition, [], ConditionSql.Compiled(w, r.condition, []).1);
    ActionsAgree(x, r.id, known, row, r.actions);
  }

  // ----- running twice

  /** Nothing but priority is left for these actions to do. */
  ghost predicate Settled(known: set<int>, row: Entry, actions: seq<Action>) {
    forall a | a in actions ::
      match a
      case Tag(t) => t in known ==> t in row.tagIds
      case Suppress => row.suppressed
      case SetMitre(codes) => Elems(codes) <= Elems(row.mitre)
      case SetOt(codes) => Elems(codes) <= Elems(row.ot)
      case _ => true
  }

  function LastPriority(actions: seq<Action>, p: int): int {
    if actions == [] then p
    else if actions[|actions| - 1].SetPriority? then actions[|actions| - 1].priority
    else LastPriority(actions[..|actions| - 1], p)
  }

  lemma UpdateSettles(known: set<int>, row: Entry, a: Action, actions: seq<Action>)
    requires Settled(known, row, actions)
    ensures Settled(known, Updated(known, row, a), actions + [a])
  {
    if a.SetMitre? { DistinctElems(row.mitre + a.codes); assert forall c | c in row.mitre :: c in row.mitre + a.codes; }
    if a.SetOt? { DistinctElems(row.ot + a.codes); assert forall c | c in row.ot :: c in row.ot + a.codes; }
    var next := Updated(known, row, a);
    assert Elems(row.mitre) <= Elems(next.mitre) && Elems(row.ot) <= Elems(next.ot);
    assert Elems(row.tagIds) <= Elems(next.tagIds);
    forall b | b in actions + [a]
      ensures match b
              case Tag(t) => t in known ==> t in next.tagIds
              case Suppress => next.suppressed
              case SetMitre(codes) => Elems(codes) <= Elems(next.mitre)
              case SetOt(codes) => Elems(codes) <= Elems(next.ot)
              case _ => true
    {
      if b in actions && b.Tag? && b.tagId in known { assert b.tagId in Elems(row.tagIds); }
      if b == a && (b.SetMitre? || b.SetOt?) {
        assert forall c | c in b.codes :: c in (if b.SetMitre? then row.mitre else row.ot) + b.codes;
      }
    }
  }

  lemma {:induction false} RunSettles(known: set<int>, row: Entry, actions: seq<Action>)
    ensures Settled(known, UpdatedAll(known, row, actions), actions)
    ensures UpdatedAll(known, row, actions).priority == LastPriority(actions, row.priority)
  {
    if actions == [] {
    } else {
      var init := actions[..|actions| - 1];
      RunSettles(known, row, init);
      UpdateSettles(known, UpdatedAll(known, row, init), actions[|actions| - 1], init);
      assert actions == init + [actions[|actions| - 1]];
    }
  }

  lemma {:induction false} SettledStays(known: set<int>, row: Entry, actions: seq<Action>)
    requires Settled(known, row, actions)
    ensures UpdatedAll(known, row, actions) == row.(priority := LastPriority(actions, row.priority))
  {
    if actions == [] {
    } else {
      var init := actions[..|actions| - 1];
      assert actions == init + [actions[|actions| - 1]];
      assert forall a | a in init :: a in actions;
      assert actions[|actions| - 1] in actions;
      SettledStays(known, row, init);
    }
  }

  lemma {:induction false} LastPriorityTwice(actions: seq<Action>, p: int)
    ensures LastPriority(actions, LastPriority(actions, p)) == LastPriority(actions, p)
  {
    if actions != [] && !actions[|actions| - 1].SetPriority? { LastPriorityTwice(actions[..|actions| - 1], p); }
  }

  /** At a fixed instant, running the same rule over history again changes no row. */
  lemma SecondRunChangesNothing(w: World, known: set<int>, r: Rule, row: Entry)
    ensures RowAfter(w, known, r, RowAfter(w, known, r, row)) == RowAfter(w, known, r, row)
  {
    var once := UpdatedAll(known, row, r.actions);
    RunSettles(known, row, r.actions);
    SettledStays(known, once, r.actions);
    LastPriorityTwice(r.actions, row.priority);
  }

  /** Rows counted as affected are among the matched, and every row that changed is counted. */
  lemma AffectedWithinMatched(known: set<int>, rows: map<int, Entry>, hit: set<int>, actions: seq<Action>)
    ensures var end := StatementRun(known, rows, hit, actions);
            && end.touched <= hit && |end.touched| <= |hit| && end.rows.Keys == rows.Keys
            && forall id | id in rows && end.rows[id] != rows[id] :: id in end.touched
  {
    StatementsAreRowByRow(known, rows, hit, actions);
    SubsetSize(TouchedIds(known, rows, hit, actions), hit);
    forall id | id in rows && !Touched(known, rows[id], actions) ensures UpdatedAll(known, rows[id], actions) == rows[id] {
      UntouchedUnchanged(known, rows[id], actions);
    }
  }

  lemma {:induction false} UntouchedUnchanged(known: set<int>, row: Entry, actions: seq<Action>)
    requires !Touched(known, row, actions)
    ensures UpdatedAll(known, row, actions) == row
  {
    if actions == [] {
    } else {
      var init := actions[..|actions| - 1];
      assert actions == init + [actions[|actions| - 1]];
      TouchedSnoc(known, row, init, actions[|actions| - 1]);
      UntouchedUnchanged(known, row, init);
    }
  }

  // ----- the engine over several rules

  /** A suppressed entry pages nobody, whichever rules queued notifications before or after. */
  lemma SuppressBeatsNotify(w: World, x: Incoming, rules: seq<Rule>, more: seq<Rule>)
    requires Ingested(w, x, rules).entry.suppressed
    ensures Ingested(w, x, rules + more).entry.suppressed && Ingested(w, x, rules + more).notifies == []
  {
    SuppressSticks(w, x, rules, more);
  }

  lemma {:induction false} SuppressSticks(w: World, x: Incoming, rules: seq<Rule>, more: seq<Rule>)
    requires RanRules(w, x, rules).entry.suppressed
    ensures RanRules(w, x, rules + more).entry.suppressed
  {
    if more == [] {
      assert rules + more == rules;
    } else {
      var init := more[..|more| - 1];
      SuppressSticks(w, x, rules, init);
      assert (rules + more)[..|rules + more| - 1] == rules + init;
      var r := more[|more| - 1];
      ActionsKeepSuppressed(RanRules(w, x, rules + init), r.id, r.actions);
    }
  }

  lemma {:induction false} ActionsKeepSuppressed(x: Incoming, rule: int, actions: seq<Action>)
    requires x.entry.suppressed
    ensures ActedAll(x, rule, actions).entry.suppressed
  {
    if actions == [] {
    } else {
      ActionsKeepSuppressed(x, rule, actions[..|actions| - 1]);
    }
  }
}
