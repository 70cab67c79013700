/**
 SQL LIKE patterns with a backslash escape, and the escaping that turns arbitrary text into
 a pattern for itself.
 */
module Like {
  import opened Common

  predicate Special(c: char) { c == '\\' || c == '%' || c == '_' }

  /** One left-to-right pass that puts a backslash before each special character. */
  function EscapeLike(s: string): string {
    if s == [] then []
    else (if Special(s[0]) then ['\\', s[0]] else [s[0]]) + EscapeLike(s[1..])
  }

  /** A pattern ending in a lone backslash is an error in SQL. */
  predicate WellFormed(p: string) {
    if p == [] then true
    else if p[0] == '\\' then |p| >= 2 && WellFormed(p[2..])
    else WellFormed(p[1..])
  }

  /** `s LIKE p`: `%` is any run of characters, `_` any one, backslash takes the next literally. */
  predicate Matches(s: string, p: string)
    decreases |p|, |s|
  {
    if p == [] then s == []
    else if p[0] == '%' then Matches(s, p[1..]) || (s != [] && Matches(s[1..], p))
    else if p[0] == '_' then s != [] && Matches(s[1..], p[1..])
    else if p[0] == '\\' then |p| >= 2 && s != [] && s[0] == p[1] && Matches(s[1..], p[2..])
    else s != [] && s[0] == p[0] && Matches(s[1..], p[1..])
  }

  /** Folding that neither moves a special character nor creates one. */
  ghost predicate KeepsSpecials(f: char -> char) {
    forall c {:trigger f(c)} :: (Special(c) || Special(f(c))) ==> f(c) == c
  }

  lemma {:induction false} EscapeWellFormed(v: string, rest: string)
    requires WellFormed(rest)
    ensures WellFormed(EscapeLike(v) + rest)
  {
    if v == [] {
      assert EscapeLike(v) + rest == rest;
    } else {
      var tail := EscapeLike(v[1..]) + rest;
      EscapeWellFormed(v[1..], rest);
      if Special(v[0]) {
        assert EscapeLike(v) + rest == ['\\', v[0]] + tail;
        assert (['\\', v[0]] + tail)[2..] == tail;
      } else {
        assert EscapeLike(v) + rest == [v[0]] + tail;
        assert ([v[0]] + tail)[1..] == tail;
      }
    }
  }

  /** Escaped text consumes exactly itself, whatever pattern follows. */
  lemma {:induction false} EscapeConsumes(s: string, v: string, rest: string)
    ensures Matches(s, EscapeLike(v) + rest) <==> v <= s && Matches(s[|v|..], rest)
  {
    var p := EscapeLike(v) + rest;
    if v == [] {
      assert p == rest;
    } else if s != [] && s[0] == v[0] {
      EscapeConsumes(s[1..], v[1..], rest);
      assert v <= s <==> v[1..] <= s[1..];
      if v <= s { assert s[|v|..] == s[1..][|v[1..]|..]; }
      if Special(v[0]) {
        assert p[2..] == EscapeLike(v[1..]) + rest;
      } else {
        assert p[1..] == EscapeLike(v[1..]) + rest;
      }
    }
  }

  lemma {:induction false} PercentTakesAll(s: string)
    ensures Matches(s, "%")
  {
    if s == [] {
    } else {
      PercentTakesAll(s[1..]);
    }
  }

  lemma {:induction false} PercentSkips(s: string, p: string)
    ensures Matches(s, "%" + p) <==> exists i | 0 <= i <= |s| :: Matches(s[i..], p)
  {
    assert ("%" + p)[1..] == p && s[0..] == s;
    if s != [] {
      PercentSkips(s[1..], p);
      if Matches(s[1..], "%" + p) {
        var i :| 0 <= i <= |s[1..]| && Matches(s[1..][i..], p);
        assert s[1..][i..] == s[i + 1..];
      }
      if i :| 0 < i <= |s| && Matches(s[i..], p) {
        assert s[1..][i - 1..] == s[i..];
      }
    }
  }

  /** `LIKE escapeLike(v) || '%'` is exactly "starts with v". */
  lemma PrefixExact(s: string, v: string)
    ensures WellFormed(EscapeLike(v) + "%")
    ensures Matches(s, EscapeLike(v) + "%") <==> v <= s
  {
    EscapeWellFormed(v, "%");
    EscapeConsumes(s, v, "%");
    if v <= s { PercentTakesAll(s[|v|..]); }
  }

  /** `LIKE '%' || escapeLike(v) || '%'` is exactly "contains v". */
  lemma ContainsExact(s: string, v: string)
    ensures WellFormed("%" + EscapeLike(v) + "%")
    ensures Matches(s, "%" + EscapeLike(v) + "%") <==> Contains(s, v)
  {
    var tail := EscapeLike(v) + "%";
    assert "%" + EscapeLike(v) + "%" == "%" + tail;
    PercentSkips(s, tail);
    forall i | 0 <= i <= |s| ensures Matches(s[i..], tail) <==> v <= s[i..] {
      PrefixExact(s[i..], v);
    }
    EscapeWellFormed(v, "%");
    assert ("%" + tail)[1..] == tail;
  }

  /** Escaping commutes with folding, so the same two facts hold of ILIKE. */
  lemma {:induction false} EscapeFolds(f: char -> char, v: string)
    requires KeepsSpecials(f)
    ensures Translate(f, EscapeLike(v)) == EscapeLike(Translate(f, v))
  {
    if v == [] {
    } else {
      var head := if Special(v[0]) then ['\\', v[0]] else [v[0]];
      EscapeFolds(f, v[1..]);
      TranslateConcat(f, head, EscapeLike(v[1..]));
      assert Translate(f, v)[1..] == Translate(f, v[1..]);
      assert Special(f(v[0])) <==> Special(v[0]);
      assert f('\\') == '\\';
      assert Translate(f, head) == if Special(v[0]) then ['\\', f(v[0])] else [f(v[0])];
    }
  }

  lemma FoldedPrefixExact(f: char -> char, s: string, v: string)
    requires KeepsSpecials(f)
    ensures WellFormed(EscapeLike(v) + "%")
    ensures Matches(Translate(f, s), Translate(f, EscapeLike(v) + "%")) <==> Translate(f, v) <= Translate(f, s)
  {
    PrefixExact(s, v);
    PrefixExact(Translate(f, s), Translate(f, v));
    EscapeFolds(f, v);
    TranslateConcat(f, EscapeLike(v), "%");
    assert f('%') == '%';
    assert Translate(f, "%") == "%";
  }

  lemma FoldedContainsExact(f: char -> char, s: string, v: string)
    requires KeepsSpecials(f)
    ensures WellFormed("%" + EscapeLike(v) + "%")
    ensures Matches(Translate(f, s), Translate(f, "%" + EscapeLike(v) + "%"))
       <==> Contains(Translate(f, s), Translate(f, v))
  {
    ContainsExact(s, v);
    ContainsExact(Translate(f, s), Translate(f, v));
    EscapeFolds(f, v);
    TranslateConcat(f, "%", EscapeLike(v));
    TranslateConcat(f, "%" + EscapeLike(v), "%");
    assert f('%') == '%';
    assert Translate(f, "%") == "%";
  }
}
