/** A stable insertion sort, standing for the library sorts the program calls. */
module Sorting {

  /** Puts x behind the elements it must follow. */
  function InsertBy<T>(before: (T, T) -> bool, x: T, s: seq<T>): (r: seq<T>)
    ensures |r| == |s| + 1
  {
    if s != [] && before(s[0], x) then [s[0]] + InsertBy(before, x, s[1..]) else [x] + s
  }

  function SortBy<T>(before: (T, T) -> bool, s: seq<T>): (r: seq<T>)
    ensures |r| == |s|
  {
    if s == [] then [] else InsertBy(before, s[0], SortBy(before, s[1..]))
  }

  lemma {:induction false} InsertKeeps<T>(before: (T, T) -> bool, x: T, s: seq<T>)
    ensures multiset(InsertBy(before, x, s)) == multiset{x} + multiset(s)
  {
    if s != [] && before(s[0], x) {
      InsertKeeps(before, x, s[1..]);
      assert s == [s[0]] + s[1..];
    }
  }

  lemma {:induction false} SortKeeps<T>(before: (T, T) -> bool, s: seq<T>)
    ensures multiset(SortBy(before, s)) == multiset(s)
  {
    if s == [] {
    } else {
      SortKeeps(before, s[1..]);
      InsertKeeps(before, s[0], SortBy(before, s[1..]));
      assert s == [s[0]] + s[1..];
    }
  }

  /** Every neighbouring pair is in order. */
  ghost predicate InOrder<T(!new)>(ordered: (T, T) -> bool, s: seq<T>) {
    forall i | 0 < i < |s| :: ordered(s[i - 1], s[i])
  }

  /** The comparison decides an order: what need not go before may come after. */
  ghost predicate Decides<T(!new)>(before: (T, T) -> bool, ordered: (T, T) -> bool) {
    forall a, b :: if before(a, b) then ordered(a, b) else ordered(b, a)
  }

  lemma {:induction false} InsertOrders<T(!new)>(before: (T, T) -> bool, ordered: (T, T) -> bool, x: T, s: seq<T>)
    requires Decides(before, ordered) && InOrder(ordered, s)
    ensures InOrder(ordered, InsertBy(before, x, s))
    ensures InsertBy(before, x, s)[0] == if s != [] && before(s[0], x) then s[0] else x
  {
    if s != [] && before(s[0], x) {
      InsertOrders(before, ordered, x, s[1..]);
    }
  }

  lemma {:induction false} SortOrders<T(!new)>(before: (T, T) -> bool, ordered: (T, T) -> bool, s: seq<T>)
    requires Decides(before, ordered)
    ensures InOrder(ordered, SortBy(before, s))
  {
    if s == [] {
    } else {
      SortOrders(before, ordered, s[1..]);
      InsertOrders(before, ordered, s[0], SortBy(before, s[1..]));
    }
  }

  /** Under a transitive order, neighbours in order means every pair is. */
  lemma {:induction false} PairsInOrder<T(!new)>(ordered: (T, T) -> bool, s: seq<T>, i: nat, j: nat)
    requires InOrder(ordered, s) && i < j < |s|
    requires forall a, b, c :: ordered(a, b) && ordered(b, c) ==> ordered(a, c)
    ensures ordered(s[i], s[j])
    decreases j - i
  {
    if i < j - 1 { PairsInOrder(ordered, s, i, j - 1); }
  }
}
