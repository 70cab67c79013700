/**
 Address sets: CIDR prefixes compiled to sorted ranges and probed with a binary search
 (apps/syslog-bucket/internal/netclass/netclass.go). An address is its 128 bits in network
 order, IPv4 in its mapped position, plus the family.
 */
module Netclass {
  import opened Sorting

  const WIDTH := 128
  const V4_OFFSET := 96

  datatype Addr = Addr(v4: bool, bits: seq<bool>)

  /** `bits` as written after the slash. */
  datatype Prefix = Prefix(addr: Addr, bits: nat)

  datatype Range = Range(first: Addr, last: Addr)

  // ----- bit strings as numbers

  function Pow2(n: nat): nat { if n == 0 then 1 else 2 * Pow2(n - 1) }

  /** Big-endian value. */
  function Val(b: seq<bool>): (v: nat)
    ensures v < Pow2(|b|)
  {
    if b == [] then 0 else (if b[0] then Pow2(|b| - 1) else 0) + Val(b[1..])
  }

  function ToBits(n: nat, v: nat): (b: seq<bool>)
    requires v < Pow2(n)
    ensures |b| == n && Val(b) == v
  {
    if n == 0 then []
    else if v >= Pow2(n - 1) then
      var rest := ToBits(n - 1, v - Pow2(n - 1)); assert ([true] + rest)[1..] == rest; [true] + rest
    else
      var rest := ToBits(n - 1, v); assert ([false] + rest)[1..] == rest; [false] + rest
  }

  function Fill(n: nat, bit: bool): seq<bool> { seq(n, i requires 0 <= i < n => bit) }

  // ----- addresses and prefixes

  ghost predicate IsAddr(a: Addr) {
    |a.bits| == WIDTH && (a.v4 ==> a.bits[..V4_OFFSET] == Fill(80, false) + Fill(16, true))
  }

  ghost predicate IsPrefix(p: Prefix) {
    IsAddr(p.addr) && Fits(p)
  }

  function Span(p: Prefix): nat { if p.addr.v4 then p.bits + V4_OFFSET else p.bits }

  /** Addr.Compare <= 0: the shorter family first, then by value. */
  predicate Le(a: Addr, b: Addr) {
    if a.v4 != b.v4 then a.v4 else Val(a.bits) <= Val(b.bits)
  }

  /** The address shares the prefix's bits. */
  ghost predicate Holds(p: Prefix, a: Addr)
    requires IsPrefix(p) && IsAddr(a)
  {
    a.v4 == p.addr.v4 && Net(p) <= a.bits
  }

  /** The network part. */
  function Net(p: Prefix): seq<bool>
    requires Fits(p)
  {
    p.addr.bits[..Span(p)]
  }

  predicate Fits(p: Prefix) { Span(p) <= |p.addr.bits| }

  function First(p: Prefix): Addr
    requires Fits(p)
  {
    Addr(p.addr.v4, Net(p) + Fill(|p.addr.bits| - Span(p), false))
  }

  function Last(p: Prefix): Addr
    requires Fits(p)
  {
    Addr(p.addr.v4, Net(p) + Fill(|p.addr.bits| - Span(p), true))
  }

  function RangeOf(p: Prefix): Range
    requires Fits(p)
  {
    Range(First(p), Last(p))
  }

  /** lastAddr: sets every host bit in place. */
  method LastAddr(p: Prefix) returns (a: Addr)
    requires IsPrefix(p)
    ensures a == Last(p)
  {
    var masked := First(p);
    var bits := new bool[WIDTH](i requires 0 <= i < WIDTH => masked.bits[i]);
    var n := p.bits;
    if p.addr.v4 {
      n := n + V4_OFFSET;
    }
    for i := n to WIDTH
      invariant forall k | 0 <= k < n :: bits[k] == p.addr.bits[k]
      invariant forall k | n <= k < i :: bits[k]
    {
      bits[i] := true;
    }
    assert bits[..] == Last(p).bits;
    a := Addr(p.addr.v4, bits[..]);
  }

  /** The value, split after the first bit. */
  lemma ValCons(bit: bool, b: seq<bool>)
    ensures Val([bit] + b) == (if bit then Pow2(|b|) else 0) + Val(b)
  {
    assert ([bit] + b)[1..] == b;
  }

  ghost predicate Between(p: seq<bool>, rest: nat, a: seq<bool>) {
    Val(p + Fill(rest, false)) <= Val(a) <= Val(p + Fill(rest, true))
  }

  lemma BetweenCons(x: bool, p: seq<bool>, rest: nat, y: bool, a: seq<bool>)
    requires |p| + rest == |a|
    ensures Between([x] + p, rest, [y] + a) <==> x == y && Between(p, rest, a)
  {
    assert ([x] + p) + Fill(rest, false) == [x] + (p + Fill(rest, false));
    assert ([x] + p) + Fill(rest, true) == [x] + (p + Fill(rest, true));
    ValCons(x, p + Fill(rest, false));
    ValCons(x, p + Fill(rest, true));
    ValCons(y, a);
  }

  /** Fixing the leading bits fixes the value to an interval, and nothing else is in it. */
  lemma {:induction false} BitsBetween(p: seq<bool>, a: seq<bool>)
    requires |p| <= |a|
    ensures p <= a <==> Between(p, |a| - |p|, a)
    decreases |p|
  {
    if p == [] {
      assert p + Fill(|a|, false) == Fill(|a|, false) && p + Fill(|a|, true) == Fill(|a|, true);
      Extremes(|a|);
    } else {
      BitsBetween(p[1..], a[1..]);
      BetweenCons(p[0], p[1..], |a| - |p|, a[0], a[1..]);
      assert p == [p[0]] + p[1..] && a == [a[0]] + a[1..];
    }
  }

  lemma {:induction false} Extremes(n: nat)
    ensures Val(Fill(n, false)) == 0 && Val(Fill(n, true)) == Pow2(n) - 1
  {
    if n == 0 {
    } else {
      Extremes(n - 1);
      assert Fill(n, false)[1..] == Fill(n - 1, false) && Fill(n, true)[1..] == Fill(n - 1, true);
    }
  }

  /** lastAddr ends the range: a prefix holds exactly the addresses from First to Last. */
  lemma RangeIsPrefix(p: Prefix, a: Addr)
    requires IsPrefix(p) && IsAddr(a)
    ensures Holds(p, a) <==> Le(First(p), a) && Le(a, Last(p))
    ensures Le(First(p), Last(p))
  {
    BitsBetween(Net(p), a.bits);
    BitsBetween(Net(p), p.addr.bits);
  }

  // ----- the set

  ghost predicate Sorted(rs: seq<Range>) { forall i, j | 0 <= i < j < |rs| :: Le(rs[i].first, rs[j].first) }

  predicate StartsBefore(r: Range, q: Range) { Le(r.first, q.first) }

  lemma SortedByStart(rs: seq<Range>)
    ensures Sorted(SortBy(StartsBefore, rs))
  {
    SortOrders(StartsBefore, StartsBefore, rs);
    var out := SortBy(StartsBefore, rs);
    forall i, j | 0 <= i < j < |out| ensures Le(out[i].first, out[j].first) {
      PairsInOrder(StartsBefore, out, i, j);
    }
  }

  ghost predicate Prefixes(ps: seq<Prefix>) { forall i | 0 <= i < |ps| :: IsPrefix(ps[i]) }

  function AllRanges(ps: seq<Prefix>): seq<Range>
    requires forall i | 0 <= i < |ps| :: Fits(ps[i])
  {
    seq(|ps|, i requires 0 <= i < |ps| => RangeOf(ps[i]))
  }

  class AddrSet {
    const ranges: seq<Range>

    /** NewSet: the prefixes' ranges, ordered by start. */
    constructor (ps: seq<Prefix>)
      requires Prefixes(ps)
      ensures Sorted(ranges) && multiset(ranges) == multiset(AllRanges(ps))
    {
      var rs: seq<Range> := [];
      for i := 0 to |ps|
        invariant rs == AllRanges(ps[..i])
      {
        var last := LastAddr(ps[i]);
        rs := rs + [Range(First(ps[i]), last)];
      }
      assert ps[..|ps|] == ps;
      SortedByStart(rs);
      SortKeeps(StartsBefore, rs);
      ranges := SortBy(StartsBefore, rs);
    }

    method Contains(a: Addr) returns (found: bool)
      requires Sorted(ranges)
      ensures found <==> Probe(ranges, a)
    {
      var lo, hi := 0, |ranges|;
      while lo < hi
        invariant 0 <= lo <= hi <= |ranges|
        invariant forall i | 0 <= i < lo :: Le(ranges[i].first, a)
        invariant forall i | hi <= i < |ranges| :: !Le(ranges[i].first, a)
      {
        var mid := (lo + hi) / 2;
        if Le(ranges[mid].first, a) {
          lo := mid + 1;
        } else {
          hi := mid;
        }
      }
      found := lo > 0 && Le(a, ranges[lo - 1].last);
      ProbeIs(ranges, a, lo);
    }
  }

  // ----- what the probe answers

  /** `k` is the rightmost range starting at or before the address. */
  ghost predicate Probed(rs: seq<Range>, a: Addr, k: int) {
    0 <= k < |rs| && Le(rs[k].first, a) && forall i | k < i < |rs| :: !Le(rs[i].first, a)
  }

  /** The one range the search looks at reaches the address. */
  ghost predicate Probe(rs: seq<Range>, a: Addr) {
    exists k :: Probed(rs, a, k) && Le(a, rs[k].last)
  }

  lemma ProbeIs(rs: seq<Range>, a: Addr, lo: nat)
    requires lo <= |rs|
    requires forall i | 0 <= i < lo :: Le(rs[i].first, a)
    requires forall i | lo <= i < |rs| :: !Le(rs[i].first, a)
    ensures Probe(rs, a) <==> lo > 0 && Le(a, rs[lo - 1].last)
  {
    if lo > 0 { assert Probed(rs, a, lo - 1); }
  }

  ghost predicate Compiled(ps: seq<Prefix>, rs: seq<Range>) {
    && Prefixes(ps)
    && Sorted(rs) && multiset(rs) == multiset(AllRanges(ps))
  }

  /** A linear scan. */
  ghost predicate SomeHolds(ps: seq<Prefix>, a: Addr)
    requires IsAddr(a) && Prefixes(ps)
  {
    exists p | p in ps :: Holds(p, a)
  }

  lemma RangesArePrefixes(ps: seq<Prefix>, rs: seq<Range>)
    requires Compiled(ps, rs)
    ensures forall r :: r in rs <==> exists p | p in ps :: r == RangeOf(p)
  {
    var all := AllRanges(ps);
    forall r ensures r in rs <==> exists p | p in ps :: r == RangeOf(p) {
      assert r in rs <==> r in multiset(rs);
      assert r in all <==> r in multiset(all);
      if p :| p in ps && r == RangeOf(p) {
        var i :| 0 <= i < |ps| && ps[i] == p;
        assert all[i] == r;
      }
    }
  }

  /** A hit is always real, whatever the prefixes. */
  lemma ContainsSound(ps: seq<Prefix>, rs: seq<Range>, a: Addr)
    requires Compiled(ps, rs) && IsAddr(a) && Probe(rs, a)
    ensures SomeHolds(ps, a)
  {
    RangesArePrefixes(ps, rs);
    var k :| Probed(rs, a, k) && Le(a, rs[k].last);
    assert rs[k] in rs;
    var p :| p in ps && rs[k] == RangeOf(p);
    RangeIsPrefix(p, a);
  }

  /**
   Range k is shadowed if an earlier range outlasts it and the next one does not start right
   behind it: just past k's end the search looks at k and misses the earlier range.
   */
  ghost predicate Shadowed(rs: seq<Range>, j: int, k: int) {
    && 0 <= j < k < |rs| && !Le(rs[j].last, rs[k].last)
    && (k + 1 < |rs| ==> rs[k + 1].first.v4 != rs[k].last.v4 || Val(rs[k + 1].first.bits) > Val(rs[k].last.bits) + 1)
  }

  ghost predicate NoneShadowed(rs: seq<Range>) { forall j, k :: !Shadowed(rs, j, k) }

  lemma ContainsComplete(ps: seq<Prefix>, rs: seq<Range>, a: Addr)
    requires Compiled(ps, rs) && IsAddr(a) && NoneShadowed(rs) && SomeHolds(ps, a)
    ensures Probe(rs, a)
  {
    RangesArePrefixes(ps, rs);
    var p :| p in ps && Holds(p, a);
    RangeIsPrefix(p, a);
    assert RangeOf(p) in rs;
    var j :| 0 <= j < |rs| && rs[j] == RangeOf(p);
    var k := Rightmost(rs, a, j);
    SameFamily(ps, rs, k);
    assert !Shadowed(rs, j, k);
    ProbedReaches(rs, a, j, k);
  }

  /** The probed range reaches whatever an earlier range reaches, unless it is shadowed. */
  lemma ProbedReaches(rs: seq<Range>, a: Addr, j: nat, k: nat)
    requires j <= k && Probed(rs, a, k) && !Shadowed(rs, j, k)
    requires Le(rs[j].first, a) && Le(a, rs[j].last)
    requires rs[k].first.v4 == rs[k].last.v4
    ensures Le(a, rs[k].last)
  {
  }

  lemma SameFamily(ps: seq<Prefix>, rs: seq<Range>, k: nat)
    requires Compiled(ps, rs) && k < |rs|
    ensures rs[k].first.v4 == rs[k].last.v4 && Le(rs[k].first, rs[k].last)
  {
    RangesArePrefixes(ps, rs);
    assert rs[k] in rs;
    var p :| p in ps && rs[k] == RangeOf(p);
    RangeIsPrefix(p, p.addr);
  }

  lemma Rightmost(rs: seq<Range>, a: Addr, j: nat) returns (k: nat)
    requires j < |rs| && Le(rs[j].first, a)
    ensures j <= k && Probed(rs, a, k)
  {
    k := |rs| - 1;
    while !Le(rs[k].first, a)
      decreases k
      invariant j <= k < |rs|
      invariant forall i | k < i < |rs| :: !Le(rs[i].first, a)
    {
      k := k - 1;
    }
  }

  /** A bit string within a prefix's range is an address the prefix holds. */
  lemma NetHolds(p: Prefix, a: Addr)
    requires IsPrefix(p) && |a.bits| == WIDTH && a.v4 == p.addr.v4 && Le(First(p), a) && Le(a, Last(p))
    ensures IsAddr(a) && Holds(p, a)
  {
    BitsBetween(Net(p), a.bits);
    if a.v4 {
      assert a.bits[..V4_OFFSET] == Net(p)[..V4_OFFSET] == p.addr.bits[..V4_OFFSET];
    }
  }

  /** The address just past a shadowed range is held by a prefix and missed by the search. */
  lemma ShadowMisses(ps: seq<Prefix>, rs: seq<Range>, j: nat, k: nat) returns (a: Addr)
    requires Compiled(ps, rs) && Shadowed(rs, j, k)
    ensures IsAddr(a) && SomeHolds(ps, a) && !Probe(rs, a)
  {
    RangesArePrefixes(ps, rs);
    SameFamily(ps, rs, j);
    SameFamily(ps, rs, k);
    assert rs[j] in rs;
    var p :| p in ps && rs[j] == RangeOf(p);
    var v := Val(rs[k].last.bits) + 1;
    a := Addr(rs[k].last.v4, ToBits(|rs[j].last.bits|, v));
    JustPast(rs, j, k, a);
    NetHolds(p, a);
    assert forall i :: Probed(rs, a, i) ==> i == k;
  }

  lemma JustPast(rs: seq<Range>, j: nat, k: nat, a: Addr)
    requires Sorted(rs) && Shadowed(rs, j, k)
    requires rs[j].first.v4 == rs[j].last.v4 && rs[k].first.v4 == rs[k].last.v4 && Le(rs[k].first, rs[k].last)
    requires a.v4 == rs[k].last.v4 && Val(a.bits) == Val(rs[k].last.bits) + 1
    ensures Probed(rs, a, k) && !Le(a, rs[k].last) && a.v4 == rs[j].first.v4
    ensures Le(rs[j].first, a) && Le(a, rs[j].last)
  {
    assert Le(rs[j].first, rs[k].first);
    forall i | k < i < |rs| ensures !Le(rs[i].first, a) {
      assert i == k + 1 || Le(rs[k + 1].first, rs[i].first);
      assert Le(rs[k].first, rs[k + 1].first);
    }
  }

  /** The search agrees with a linear scan on every address exactly when no range is shadowed. */
  lemma AgreesIffNoneShadowed(ps: seq<Prefix>, rs: seq<Range>)
    requires Compiled(ps, rs)
    ensures (forall a | IsAddr(a) :: Probe(rs, a) <==> SomeHolds(ps, a)) <==> NoneShadowed(rs)
  {
    if NoneShadowed(rs) {
      forall a | IsAddr(a) ensures Probe(rs, a) <==> SomeHolds(ps, a) {
        if Probe(rs, a) { ContainsSound(ps, rs, a); }
        if SomeHolds(ps, a) { ContainsComplete(ps, rs, a); }
      }
    } else {
      var j, k :| Shadowed(rs, j, k);
      var a := ShadowMisses(ps, rs, j, k);
    }
  }

  ghost predicate StrictlyInside(q: Prefix, p: Prefix)
    requires IsPrefix(p) && IsPrefix(q)
  {
    q.addr.v4 == p.addr.v4 && Net(p) <= Net(q) && Net(p) != Net(q)
  }

  lemma EndsAreHeld(p: Prefix)
    requires IsPrefix(p)
    ensures IsAddr(First(p)) && IsAddr(Last(p)) && Holds(p, First(p)) && Holds(p, Last(p))
  {
    assert First(p).bits[..Span(p)] == Net(p) == Last(p).bits[..Span(p)];
    if p.addr.v4 {
      assert First(p).bits[..V4_OFFSET] == p.addr.bits[..V4_OFFSET] == Last(p).bits[..V4_OFFSET];
    }
  }

  lemma PrefixesOfOne<T>(a: seq<T>, b: seq<T>, c: seq<T>)
    requires a <= c && b <= c
    ensures a <= b || b <= a
  {
    assert a == c[..|a|] && b == c[..|b|];
    if |a| <= |b| { assert b[..|a|] == a; } else { assert a[..|b|] == b; }
  }

  /** Two CIDR blocks are nested or disjoint, so one that starts in another and ends earlier is strictly inside it. */
  lemma OutlastsMeansInside(p: Prefix, q: Prefix)
    requires IsPrefix(p) && IsPrefix(q)
    requires Le(First(p), First(q)) && !Le(Last(p), Last(q))
    ensures StrictlyInside(q, p)
  {
    EndsAreHeld(p);
    EndsAreHeld(q);
    RangeIsPrefix(p, Last(q));
    RangeIsPrefix(q, Last(p));
    RangeIsPrefix(q, Last(q));
    assert Le(First(p), Last(q)) && Le(Last(q), Last(p));
    PrefixesOfOne(Net(p), Net(q), Last(q).bits);
    assert Net(p) <= Last(p).bits;
  }

  /** With no prefix strictly inside another, the search is a linear scan. */
  lemma AgreesWithoutNesting(ps: seq<Prefix>, rs: seq<Range>, a: Addr)
    requires Compiled(ps, rs) && IsAddr(a)
    requires forall p, q | p in ps && q in ps :: !StrictlyInside(q, p)
    ensures Probe(rs, a) <==> SomeHolds(ps, a)
  {
    RangesArePrefixes(ps, rs);
    forall j, k ensures !Shadowed(rs, j, k) {
      if Shadowed(rs, j, k) {
        assert rs[j] in rs && rs[k] in rs;
        var p :| p in ps && rs[j] == RangeOf(p);
        var q :| q in ps && rs[k] == RangeOf(q);
        OutlastsMeansInside(p, q);
      }
    }
    AgreesIffNoneShadowed(ps, rs);
  }

  /** With just two prefixes, the one starting later hides the other from every address past its own end. */
  lemma LaterStartHides(p: Prefix, q: Prefix, rs: seq<Range>, a: Addr)
    requires IsPrefix(p) && IsPrefix(q) && Compiled([p, q], rs) && IsAddr(a)
    requires !Le(First(q), First(p)) && Le(First(q), a) && !Le(a, Last(q))
    ensures !Probe(rs, a)
  {
    RangesArePrefixes([p, q], rs);
    assert q in [p, q];
    assert RangeOf(q) in rs;
    var i :| 0 <= i < |rs| && rs[i] == RangeOf(q);
    forall k | Probed(rs, a, k) ensures !Le(a, rs[k].last) {
      assert rs[k] in rs;
      assert i <= k;
      assert i < k ==> Le(rs[i].first, rs[k].first);
    }
  }

  /** ::/0 with 4000::/2 inside it: the last address is in the first, and the search says it is in neither. */
  lemma NestingMisses(rs: seq<Range>)
    requires Compiled([EVERYTHING, INNER], rs)
    ensures IsAddr(TOP) && Holds(EVERYTHING, TOP) && StrictlyInside(INNER, EVERYTHING) && !Probe(rs, TOP)
  {
    assert TOP.bits[0] != Net(INNER)[0];
    RangeIsPrefix(INNER, TOP);
    Extremes(WIDTH);
    FirstOfInner();
    LaterStartHides(EVERYTHING, INNER, rs, TOP);
  }

  const EVERYTHING := Prefix(Addr(false, Fill(WIDTH, false)), 0)
  const INNER := Prefix(Addr(false, [false, true] + Fill(WIDTH - 2, false)), 2)
  const TOP := Addr(false, Fill(WIDTH, true))

  lemma FirstOfInner()
    ensures Val(First(EVERYTHING).bits) == 0 && 0 < Val(First(INNER).bits) <= Val(TOP.bits)
  {
    Extremes(WIDTH);
    assert First(EVERYTHING).bits == Fill(WIDTH, false);
    assert First(INNER).bits[1];
  }
}
