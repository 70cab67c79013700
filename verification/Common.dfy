/** Small vocabulary shared by the other modules. */
module Common {

  datatype Option<+T> = None | Some(value: T)

  datatype Result<+T, +E> = Ok(value: T) | Err(error: E)

  /** `v` occurs in `s` as a contiguous block. */
  predicate Contains<T(==)>(s: seq<T>, v: seq<T>) {
    exists i | 0 <= i <= |s| :: v <= s[i..]
  }

  /** Per-character translation of a string. */
  function Translate(f: char -> char, s: string): (t: string)
    ensures |t| == |s|
    ensures forall i | 0 <= i < |s| :: t[i] == f(s[i])
  {
    seq(|s|, i requires 0 <= i < |s| => f(s[i]))
  }

  lemma TranslateConcat(f: char -> char, a: string, b: string)
    ensures Translate(f, a + b) == Translate(f, a) + Translate(f, b)
  {
    assert forall i | 0 <= i < |a + b| :: Translate(f, a + b)[i] == (Translate(f, a) + Translate(f, b))[i];
  }

  lemma ConcatAssociates<T>(a: seq<T>, b: seq<T>, c: seq<T>)
    ensures (a + b) + c == a + (b + c)
  {
  }

  lemma {:induction false} SubsetSize<T>(a: set<T>, b: set<T>)
    requires a <= b
    ensures |a| <= |b|
  {
    if a != {} {
      var x :| x in a;
      SubsetSize(a - {x}, b - {x});
    }
  }
}
