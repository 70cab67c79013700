/**
 What the engine leaves on an entry, told from the actions of the rules that matched: its
 notifications, tags, attributions, priority, codes and suppression
 (apps/syslog-bucket/internal/engine/engine.go).
 */
module EngineEffect {
  import opened Common
  import opened Condition
  import opened RuleEngine

  /** An action carried out, and the rule it belongs to. */
  datatype Deed = Deed(rule: int, action: Action)

  function DeedsOf(rule: int, actions: seq<Action>): seq<Deed> {
    seq(|actions|, i requires 0 <= i < |actions| => Deed(rule, actions[i]))
  }

  function Did(x: Incoming, ds: seq<Deed>): Incoming {
    if ds == [] then x
    else
      var n := |ds| - 1;
      Acted(Did(x, ds[..n]), ds[n].rule, ds[n].action)
  }

  /** The actions of every rule that matches the entry as the rules before it left it, in order. */
  function Performed(w: World, x: Incoming, rules: seq<Rule>): seq<Deed> {
    if rules == [] then []
    else
      var n := |rules| - 1;
      var before := Performed(w, x, rules[..n]);
      before + if Match(w, Did(x, before).entry, rules[n].condition) then DeedsOf(rules[n].id, rules[n].actions) else []
  }

  lemma {:induction false} ActedAllIsDid(x: Incoming, before: seq<Deed>, rule: int, actions: seq<Action>)
    ensures ActedAll(Did(x, before), rule, actions) == Did(x, before + DeedsOf(rule, actions))
    decreases |actions|
  {
    var ds := DeedsOf(rule, actions);
    if actions == [] {
      assert before + ds == before;
    } else {
      var n := |actions| - 1;
      ActedAllIsDid(x, before, rule, actions[..n]);
      assert (before + ds)[..|before| + n] == before + DeedsOf(rule, actions[..n]);
    }
  }

  lemma {:induction false} RulesPerform(w: World, x: Incoming, rules: seq<Rule>)
    ensures RanRules(w, x, rules) == Did(x, Performed(w, x, rules))
    decreases |rules|
  {
    if rules != [] {
      var n := |rules| - 1;
      RulesPerform(w, x, rules[..n]);
      ActedAllIsDid(x, Performed(w, x, rules[..n]), rules[n].id, rules[n].actions);
      assert Performed(w, x, rules[..n]) + [] == Performed(w, x, rules[..n]);
    }
  }

  // ----- what deeds amount to

  /** The notifications asked for, in order. */
  function Paged(ds: seq<Deed>): seq<(int, int)> {
    if ds == [] then []
    else
      var d := ds[|ds| - 1];
      Paged(ds[..|ds| - 1]) + if d.action.Notify? then [(d.action.channel, d.rule)] else []
  }

  /** Each new tag once, with the first rule that set it. */
  function Given(had: seq<int>, ds: seq<Deed>): seq<(int, int)> {
    if ds == [] then []
    else
      var n := |ds| - 1;
      var a := ds[n].action;
      Given(had, ds[..n]) +
      if a.Tag? && a.tagId !in had && forall i | 0 <= i < n :: ds[i].action != a then [(a.tagId, ds[n].rule)] else []
  }

  function TagIds(given: seq<(int, int)>): seq<int> { seq(|given|, i requires 0 <= i < |given| => given[i].0) }

  /** The last priority set wins. */
  function LastPriority(ds: seq<Deed>, priority: int): int {
    if ds == [] then priority
    else
      var a := ds[|ds| - 1].action;
      if a.SetPriority? then a.priority else LastPriority(ds[..|ds| - 1], priority)
  }

  ghost predicate Suppresses(ds: seq<Deed>) { exists i | 0 <= i < |ds| :: ds[i].action.Suppress? }

  ghost predicate AddsMitre(ds: seq<Deed>, c: string) {
    exists i | 0 <= i < |ds| :: ds[i].action.SetMitre? && c in ds[i].action.codes
  }

  ghost predicate AddsOt(ds: seq<Deed>, c: string) {
    exists i | 0 <= i < |ds| :: ds[i].action.SetOt? && c in ds[i].action.codes
  }

  /** `now` keeps the codes there were and adds the missing ones of `added`, each once, at the end. */
  ghost predicate Gained(was: seq<string>, now: seq<string>, added: string -> bool) {
    && was <= now
    && (forall c :: c in now <==> c in was || added(c))
    && forall i, j | 0 <= i < j < |now| && |was| <= j :: now[i] != now[j]
  }

  ghost predicate TagsGained(x: Incoming, ds: seq<Deed>, y: Incoming) {
    var given := Given(x.entry.tagIds, ds);
    y.ruleTags == x.ruleTags + given && y.entry.tagIds == x.entry.tagIds + TagIds(given)
  }

  function Rest(e: Entry): Entry { e.(tagIds := [], priority := 0, suppressed := false, mitre := [], ot := []) }

  ghost predicate Effect(x: Incoming, ds: seq<Deed>, y: Incoming) {
    && y.notifies == x.notifies + Paged(ds)
    && TagsGained(x, ds, y)
    && y.entry.priority == LastPriority(ds, x.entry.priority)
    && (y.entry.suppressed <==> x.entry.suppressed || Suppresses(ds))
    && Gained(x.entry.mitre, y.entry.mitre, c => AddsMitre(ds, c))
    && Gained(x.entry.ot, y.entry.ot, c => AddsOt(ds, c))
    && Rest(y.entry) == Rest(x.entry)
  }

  // ----- one more deed

  lemma {:induction false} AppendUniqueGains(was: seq<string>, codes: seq<string>)
    ensures Gained(was, AppendUnique(was, codes), c => c in codes)
    decreases |codes|
  {
    if codes != [] {
      var init, last := codes[..|codes| - 1], codes[|codes| - 1];
      AppendUniqueGains(was, init);
      assert codes == init + [last];
    }
  }

  lemma GainedMore(was: seq<string>, mid: seq<string>, now: seq<string>, f: string -> bool, g: string -> bool, h: string -> bool)
    requires Gained(was, mid, f) && Gained(mid, now, g) && forall c :: h(c) <==> f(c) || g(c)
    ensures Gained(was, now, h)
  {
  }

  lemma CodesMore(ds: seq<Deed>, d: Deed, c: string)
    ensures AddsMitre(ds + [d], c) <==> AddsMitre(ds, c) || (d.action.SetMitre? && c in d.action.codes)
    ensures AddsOt(ds + [d], c) <==> AddsOt(ds, c) || (d.action.SetOt? && c in d.action.codes)
    ensures Suppresses(ds + [d]) <==> Suppresses(ds) || d.action.Suppress?
  {
    var all := ds + [d];
    assert all[|ds|] == d && forall i | 0 <= i < |ds| :: all[i] == ds[i];
  }

  lemma {:induction false} HasTag(had: seq<int>, ds: seq<Deed>, t: int)
    ensures t in had + TagIds(Given(had, ds)) <==> t in had || exists i | 0 <= i < |ds| :: ds[i].action == Tag(t)
    decreases |ds|
  {
    if ds != [] {
      var n := |ds| - 1;
      HasTag(had, ds[..n], t);
      var before := Given(had, ds[..n]);
      var more := Given(had, ds)[|before|..];
      assert Given(had, ds) == before + more;
      assert TagIds(Given(had, ds)) == TagIds(before) + TagIds(more);
      assert more != [] ==> TagIds(more) == [ds[n].action.tagId];
    }
  }

  lemma TagMore(x: Incoming, ds: seq<Deed>, y: Incoming, d: Deed)
    requires TagsGained(x, ds, y) && d.action.Tag?
    ensures TagsGained(x, ds + [d], Acted(y, d.rule, d.action))
  {
    var all := ds + [d];
    var n := |ds|;
    assert all[..n] == ds && all[n] == d && forall i | 0 <= i < n :: all[i] == ds[i];
    HasTag(x.entry.tagIds, ds, d.action.tagId);
    var given := Given(x.entry.tagIds, ds);
    assert TagIds(given + [(d.action.tagId, d.rule)]) == TagIds(given) + [d.action.tagId];
  }

  lemma OtherTags(x: Incoming, ds: seq<Deed>, y: Incoming, d: Deed)
    requires TagsGained(x, ds, y) && !d.action.Tag?
    ensures TagsGained(x, ds + [d], Acted(y, d.rule, d.action))
  {
    assert (ds + [d])[..|ds|] == ds;
  }

  lemma CodesStep(x: Incoming, ds: seq<Deed>, y: Incoming, d: Deed)
    requires Gained(x.entry.mitre, y.entry.mitre, c => AddsMitre(ds, c)) && Gained(x.entry.ot, y.entry.ot, c => AddsOt(ds, c))
    ensures var z := Acted(y, d.rule, d.action).entry;
            && Gained(x.entry.mitre, z.mitre, c => AddsMitre(ds + [d], c))
            && Gained(x.entry.ot, z.ot, c => AddsOt(ds + [d], c))
  {
    forall c ensures (AddsMitre(ds + [d], c) <==> AddsMitre(ds, c) || (d.action.SetMitre? && c in d.action.codes))
                  && (AddsOt(ds + [d], c) <==> AddsOt(ds, c) || (d.action.SetOt? && c in d.action.codes)) {
      CodesMore(ds, d, c);
    }
    var z := Acted(y, d.rule, d.action).entry;
    if d.action.SetMitre? {
      AppendUniqueGains(y.entry.mitre, d.action.codes);
      GainedMore(x.entry.mitre, y.entry.mitre, z.mitre, c => AddsMitre(ds, c), c => c in d.action.codes, c => AddsMitre(ds + [d], c));
    } else if d.action.SetOt? {
      AppendUniqueGains(y.entry.ot, d.action.codes);
      GainedMore(x.entry.ot, y.entry.ot, z.ot, c => AddsOt(ds, c), c => c in d.action.codes, c => AddsOt(ds + [d], c));
    }
  }

  lemma PlainStep(x: Incoming, ds: seq<Deed>, y: Incoming, d: Deed)
    requires y.notifies == x.notifies + Paged(ds) && y.entry.priority == LastPriority(ds, x.entry.priority)
    requires (y.entry.suppressed <==> x.entry.suppressed || Suppresses(ds)) && Rest(y.entry) == Rest(x.entry)
    ensures var z := Acted(y, d.rule, d.action);
            && z.notifies == x.notifies + Paged(ds + [d]) && z.entry.priority == LastPriority(ds + [d], x.entry.priority)
            && (z.entry.suppressed <==> x.entry.suppressed || Suppresses(ds + [d])) && Rest(z.entry) == Rest(x.entry)
  {
    assert (ds + [d])[..|ds|] == ds;
    CodesMore(ds, d, "");
  }

  lemma {:induction false} DeedsHaveEffect(x: Incoming, ds: seq<Deed>)
    ensures Effect(x, ds, Did(x, ds))
    decreases |ds|
  {
    if ds == [] {
      assert x.notifies + [] == x.notifies && x.ruleTags + [] == x.ruleTags;
      assert TagIds([]) == [] && x.entry.tagIds + [] == x.entry.tagIds;
    } else {
      var n := |ds| - 1;
      var init, d, y := ds[..n], ds[n], Did(x, ds[..n]);
      assert ds == init + [d];
      DeedsHaveEffect(x, init);
      PlainStep(x, init, y, d);
      CodesStep(x, init, y, d);
      if d.action.Tag? { TagMore(x, init, y, d); } else { OtherTags(x, init, y, d); }
    }
  }

  /**
   The engine carries out the actions of exactly the rules that match, each on the entry as the
   earlier ones left it: every notification is queued unless the entry ends up suppressed, every new
   tag is set once and credited to the first rule that set it, codes accumulate, the last priority
   wins and nothing else changes.
   */
  lemma EngineDoesWhatRulesAsk(w: World, x: Incoming, rules: seq<Rule>)
    ensures var ds, y := Performed(w, x, rules), Ingested(w, x, rules);
            && Effect(x, ds, y.(notifies := x.notifies + Paged(ds)))
            && y.notifies == if y.entry.suppressed then [] else x.notifies + Paged(ds)
  {
    RulesPerform(w, x, rules);
    DeedsHaveEffect(x, Performed(w, x, rules));
  }
}
