/**
 What a condition is, told from the entries it is about: which fields there are and what they hold,
 when every node of the tree is in order, and what a leaf then asks of an entry
 (apps/syslog-bucket/internal/rules/cond.go).
 */
module Validity {
  import opened Common
  import opened Condition

  function KindOf(v: FieldVal): Kind {
    match v
    case FStr(_) => KindStr
    case FInt(_) => KindNum
    case FTime(_) => KindTime
  }

  /** Some entry has a value of this kind in the field. */
  ghost predicate Holds(field: string, k: Kind) {
    exists e :: FieldValue(e, field).Some? && KindOf(FieldValue(e, field).value) == k
  }

  /** An entry with something in every field, and in one structured key. */
  function FullEntry(key: string): Entry {
    Entry("", "", "", "", "", 0, Some(0), 0, Some(0), 0, map[key := JText("")], false, [], [], [])
  }

  /** The known fields are exactly those an entry can have a value in, each of that kind. */
  lemma FieldsAreWhatEntriesHold(field: string, k: Kind)
    ensures FieldKind(field) == Some(k) <==> Holds(field, k)
  {
    assert "received_at"[0] != STRUCTURED[0] && "device_class"[0] != STRUCTURED[0];
    var e := FullEntry(if STRUCTURED <= field then field[|STRUCTURED|..] else "");
    if FieldKind(field) == Some(k) {
      assert FieldValue(e, field).Some? && KindOf(FieldValue(e, field).value) == k;
    }
  }

  /** The field holds what the operator compares, and the value can be read as that. */
  ghost predicate LeafFits(w: World, c: Cond) {
    || (Holds(c.field, KindStr) && c.op in {"eq", "ne", "contains", "prefix"} && c.value.Str?)
    || (Holds(c.field, KindNum) && c.op in {"eq", "ne", "lt", "lte", "gt", "gte"}
        && (c.value.Num? || (c.value.Str? && w.parseFloat(c.value.s).Some?)))
    || (Holds(c.field, KindTime) && c.op in {"eq", "ne", "lt", "lte", "gt", "gte"}
        && c.value.Str? && w.parseTime(c.value.s).Some?)
  }

  lemma LeafValidIff(w: World, c: Cond)
    ensures ValidLeaf(w, c) <==> LeafFits(w, c)
  {
    FieldsAreWhatEntriesHold(c.field, KindStr);
    FieldsAreWhatEntriesHold(c.field, KindNum);
    FieldsAreWhatEntriesHold(c.field, KindTime);
  }

  /** The groups a node can set. */
  function Groups(c: Cond): seq<bool> {
    [c.all != [], c.any != [], c.negated.Some?, c.field != "", c.text != "", c.tagId != 0, c.mitre != "", c.ot != "", c.lastSeconds != 0]
  }

  ghost predicate NodeFits(w: World, c: Cond) {
    && (forall i, j | 0 <= i < j < |Groups(c)| :: !(Groups(c)[i] && Groups(c)[j]))
    && (c.field != "" ==> LeafFits(w, c))
    && c.lastSeconds >= 0
  }

  /** `s` is a node of the tree. */
  ghost predicate Inside(s: Cond, c: Cond) {
    || s == c
    || (exists sub | sub in c.all :: Inside(s, sub))
    || (exists sub | sub in c.any :: Inside(s, sub))
    || (c.negated.Some? && Inside(s, c.negated.value))
  }

  lemma OneGroup(c: Cond)
    ensures KindCount(c) <= 1 <==> forall i, j | 0 <= i < j < |Groups(c)| :: !(Groups(c)[i] && Groups(c)[j])
  {
    var g := Groups(c);
    assert KindCount(c) == Trues(g) by { CountsTrues(c); }
    AtMostOneTrue(g);
  }

  function Trues(g: seq<bool>): nat { if g == [] then 0 else Trues(g[..|g| - 1]) + Count(g[|g| - 1]) }

  lemma TruesTo(g: seq<bool>, n: nat)
    requires n < |g|
    ensures Trues(g[..n + 1]) == Trues(g[..n]) + Count(g[n])
  {
    assert g[..n + 1][..n] == g[..n];
  }

  lemma TruesOfThree(g: seq<bool>, n: nat)
    requires n + 3 <= |g|
    ensures Trues(g[..n + 3]) == Trues(g[..n]) + (Count(g[n]) + Count(g[n + 1]) + Count(g[n + 2]))
  {
    TruesTo(g, n);
    TruesTo(g, n + 1);
    TruesTo(g, n + 2);
  }

  lemma CountsTrues(c: Cond)
    ensures KindCount(c) == Trues(Groups(c))
  {
    var g := Groups(c);
    TruesOfThree(g, 0);
    TruesOfThree(g, 3);
    TruesOfThree(g, 6);
    assert g[..0] == [] && g[..9] == g;
  }

  lemma {:induction false} AtMostOneTrue(g: seq<bool>)
    ensures Trues(g) == 0 <==> forall i | 0 <= i < |g| :: !g[i]
    ensures Trues(g) <= 1 <==> forall i, j | 0 <= i < j < |g| :: !(g[i] && g[j])
  {
    if g != [] { AtMostOneTrue(g[..|g| - 1]); }
  }

  /** A condition is valid exactly when each of its nodes is: one group at most, a leaf that fits, no negative window. */
  lemma {:induction false} ValidIff(w: World, c: Cond)
    ensures Valid(w, c) <==> forall s | Inside(s, c) :: NodeFits(w, s)
  {
    OneGroup(c);
    LeafValidIff(w, c);
    forall sub | sub in c.all || sub in c.any || c.negated == Some(sub)
      ensures Valid(w, sub) <==> forall s | Inside(s, sub) :: NodeFits(w, s)
    {
      ValidIff(w, sub);
    }
    if forall s | Inside(s, c) :: NodeFits(w, s) {
      assert Inside(c, c);
    }
  }

  // ----- what a valid leaf asks

  /** An operator on two values, of which the first is below, the same as, or above the second. */
  predicate Compares(op: string, below: bool, same: bool, above: bool) {
    || (op == "eq" && same) || (op == "ne" && !same)
    || (op == "lt" && below) || (op == "lte" && (below || same))
    || (op == "gt" && above) || (op == "gte" && (above || same))
  }

  /** Text is compared with the value as given, both folded; a pattern may stand anywhere or in front. */
  lemma TextLeafMeans(w: World, e: Entry, c: Cond, got: string)
    requires ValidLeaf(w, c) && FieldValue(e, c.field) == Some(FStr(got))
    ensures var g, x := Translate(w.lower, got), Translate(w.lower, c.value.s);
            MatchLeaf(w, e, c) <==>
            || (c.op == "eq" && g == x) || (c.op == "ne" && g != x)
            || (c.op == "contains" && exists before, after :: g == before + x + after)
            || (c.op == "prefix" && exists after :: g == x + after)
  {
    var g, x := Translate(w.lower, got), Translate(w.lower, c.value.s);
    FieldsAreWhatEntriesHold(c.field, KindStr);
    ContainsMeans(g, x);
    if x <= g { assert g == x + g[|x|..]; }
  }

  lemma ContainsMeans(g: string, x: string)
    ensures Contains(g, x) <==> exists before, after :: g == before + x + after
  {
    if Contains(g, x) {
      var i :| 0 <= i <= |g| && x <= g[i..];
      assert g == g[..i] + x + g[i + |x|..];
    }
    if before, after :| g == before + x + after {
      assert x <= g[|before|..];
    }
  }

  /** The number a value stands for, given as one or as text. */
  ghost predicate ReadsAs(w: World, v: Value, f: Float) {
    v == Num(f) || (v.Str? && w.parseFloat(v.s) == Some(f))
  }

  /** Numbers are compared as numbers; nothing compares with a NaN, which is different from everything. */
  lemma NumLeafMeans(w: World, e: Entry, c: Cond, n: int, f: Float)
    requires ValidLeaf(w, c) && FieldValue(e, c.field) == Some(FInt(n)) && ReadsAs(w, c.value, f)
    ensures MatchLeaf(w, e, c) <==>
            match f
            case NaN => c.op == "ne"
            case NegInf => Compares(c.op, false, false, true)
            case PosInf => Compares(c.op, true, false, false)
            case Finite(x) => Compares(c.op, n as real < x, n as real == x, n as real > x)
  {
    FieldsAreWhatEntriesHold(c.field, KindNum);
    assert FieldKind(c.field) == Some(KindNum);
  }

  lemma TimeLeafMeans(w: World, e: Entry, c: Cond, t: int, u: int)
    requires ValidLeaf(w, c) && FieldValue(e, c.field) == Some(FTime(t))
    requires c.value.Str? && w.parseTime(c.value.s) == Some(u)
    ensures MatchLeaf(w, e, c) <==> Compares(c.op, t < u, t == u, t > u)
  {
    FieldsAreWhatEntriesHold(c.field, KindTime);
    assert FieldKind(c.field) == Some(KindTime);
  }
}
