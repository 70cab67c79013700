/**
 What the lexer does with the characters of a text: read from left to right, its lexemes spell
 out the text's own letters and digits, none lost, none invented and none out of order; a
 compound is followed by its own parts (apps/syslog-bucket/internal/rules/textsearch.go).
 */
module Spelling {
  import opened Common
  import opened Lexer

  /** The marks that join a compound token together. */
  predicate Mark(c: char) { c == '.' || c == '-' || c == '/' || c == '@' || c == '_' }

  /** Lower-casing leaves the marks alone and has nothing left to do the second time. */
  ghost predicate Lowers(a: Alphabet) {
    (forall c | Mark(c) :: a.lower(c) == c) && forall c: char :: a.lower(a.lower(c)) == a.lower(c)
  }

  /** The lower-cased text without its marks. */
  function Letters(a: Alphabet, s: string): string {
    if s == [] then [] else Letter(a, s[0]) + Letters(a, s[1..])
  }

  function Letter(a: Alphabet, c: char): string { if Mark(a.lower(c)) then [] else [a.lower(c)] }

  function AllLetters(a: Alphabet, parts: seq<string>): string {
    if parts == [] then [] else Letters(a, parts[0]) + AllLetters(a, parts[1..])
  }

  /** Read in order, the lexemes spell `w`: each continues it, or is a compound that what follows spells again. */
  ghost predicate Spells(a: Alphabet, ls: seq<string>, w: string) {
    if ls == [] then w == []
    else
      var first := Letters(a, ls[0]);
      first <= w && (Spells(a, ls[1..], w[|first|..]) || Spells(a, ls[1..], w))
  }

  // ----- letters of pieces

  lemma {:induction false} LettersConcat(a: Alphabet, s: string, t: string)
    ensures Letters(a, s + t) == Letters(a, s) + Letters(a, t)
  {
    if s == [] {
      assert s + t == t;
    } else {
      LettersConcat(a, s[1..], t);
      assert (s + t)[0] == s[0] && (s + t)[1..] == s[1..] + t;
      ConcatAssociates(Letter(a, s[0]), Letters(a, s[1..]), Letters(a, t));
    }
  }

  lemma LettersCut(a: Alphabet, s: string, i: nat)
    requires i <= |s|
    ensures Letters(a, s) == Letters(a, s[..i]) + Letters(a, s[i..])
  {
    LettersConcat(a, s[..i], s[i..]);
    assert s[..i] + s[i..] == s;
  }

  lemma {:induction false} OnlyMarks(a: Alphabet, s: string)
    requires Lowers(a) && forall c | c in s :: Mark(c)
    ensures Letters(a, s) == []
  {
    if s == [] {
    } else {
      OnlyMarks(a, s[1..]);
    }
  }

  lemma {:induction false} LettersLowered(a: Alphabet, s: string)
    requires Lowers(a)
    ensures Letters(a, Translate(a.lower, s)) == Letters(a, s)
  {
    if s == [] {
    } else {
      LettersLowered(a, s[1..]);
      assert Translate(a.lower, s)[1..] == Translate(a.lower, s[1..]);
    }
  }

  lemma {:induction false} TrimLeftLetters(a: Alphabet, s: string, cut: set<char>)
    requires Lowers(a) && forall c | c in cut :: Mark(c)
    ensures Letters(a, TrimLeft(s, cut)) == Letters(a, s)
  {
    if s != [] && s[0] in cut { TrimLeftLetters(a, s[1..], cut); }
  }

  lemma {:induction false} TrimRightLetters(a: Alphabet, s: string, cut: set<char>)
    requires Lowers(a) && forall c | c in cut :: Mark(c)
    ensures Letters(a, TrimRight(s, cut)) == Letters(a, s)
  {
    if s != [] && s[|s| - 1] in cut {
      TrimRightLetters(a, s[..|s| - 1], cut);
      LettersCut(a, s, |s| - 1);
      OnlyMarks(a, s[|s| - 1..]);
    }
  }

  /** A mark between two pieces contributes nothing. */
  lemma LettersAround(a: Alphabet, s: string, i: nat)
    requires Lowers(a) && i < |s| && Mark(s[i])
    ensures Letters(a, s) == Letters(a, s[..i]) + Letters(a, s[i + 1..])
  {
    LettersCut(a, s, i);
    assert s[i..][0] == s[i] && s[i..][1..] == s[i + 1..];
    assert Letters(a, s[i..]) == Letter(a, s[i]) + Letters(a, s[i + 1..]);
  }

  lemma AllLettersCons(a: Alphabet, p: string, ps: seq<string>)
    ensures AllLetters(a, [p] + ps) == Letters(a, p) + AllLetters(a, ps)
  {
    assert ([p] + ps)[1..] == ps;
  }

  lemma SplitCons(s: string, sep: char, i: nat)
    requires IndexOf(s, sep) == Some(i)
    ensures Split(s, sep) == [s[..i]] + Split(s[i + 1..], sep)
  {
  }

  lemma {:induction false} SplitLetters(a: Alphabet, s: string, sep: char)
    requires Lowers(a) && Mark(sep)
    ensures AllLetters(a, Split(s, sep)) == Letters(a, s)
    decreases |s|
  {
    var i := IndexOf(s, sep);
    if i.Some? {
      SplitCons(s, sep, i.value);
      AllLettersCons(a, s[..i.value], Split(s[i.value + 1..], sep));
      SplitLetters(a, s[i.value + 1..], sep);
      LettersAround(a, s, i.value);
    } else {
      AllLettersCons(a, s, []);
      assert Split(s, sep) == [s] + [];
    }
  }

  lemma {:induction false} NonEmptyLetters(a: Alphabet, parts: seq<string>)
    ensures AllLetters(a, NonEmpty(parts)) == AllLetters(a, parts)
  {
    if parts == [] {
    } else {
      NonEmptyLetters(a, parts[1..]);
      if parts[0] != "" {
        assert ([parts[0]] + NonEmpty(parts[1..]))[1..] == NonEmpty(parts[1..]);
      } else {
        assert NonEmpty(parts) == NonEmpty(parts[1..]);
      }
    }
  }

  lemma {:induction false} JoinLetters(a: Alphabet, parts: seq<string>)
    requires Lowers(a)
    ensures Letters(a, Join(parts, "-")) == AllLetters(a, parts)
  {
    if |parts| == 1 {
      assert AllLetters(a, parts[1..]) == [];
    } else if |parts| > 1 {
      JoinLetters(a, parts[1..]);
      LettersConcat(a, parts[0] + "-", Join(parts[1..], "-"));
      LettersConcat(a, parts[0], "-");
      OnlyMarks(a, "-");
    }
  }

  // ----- spelling

  lemma {:induction false} SpellsConcat(a: Alphabet, ls: seq<string>, w: string, ms: seq<string>, v: string)
    requires Spells(a, ls, w) && Spells(a, ms, v)
    ensures Spells(a, ls + ms, w + v)
  {
    if ls == [] {
      assert ls + ms == ms && w + v == v;
    } else {
      var first := Letters(a, ls[0]);
      assert (ls + ms)[1..] == ls[1..] + ms;
      if Spells(a, ls[1..], w[|first|..]) {
        SpellsConcat(a, ls[1..], w[|first|..], ms, v);
        assert (w + v)[|first|..] == w[|first|..] + v;
      } else {
        SpellsConcat(a, ls[1..], w, ms, v);
      }
    }
  }

  lemma SpellsItself(a: Alphabet, c: string)
    ensures Spells(a, [c], Letters(a, c))
  {
    assert [c][1..] == [];
  }

  lemma SpellsPair(a: Alphabet, p: string, q: string)
    ensures Spells(a, [p, q], Letters(a, p) + Letters(a, q))
  {
    SpellsItself(a, p);
    SpellsItself(a, q);
    SpellsConcat(a, [p], Letters(a, p), [q], Letters(a, q));
    assert [p] + [q] == [p, q];
  }

  /** A compound in front of lexemes that spell the same. */
  lemma SpellsTwice(a: Alphabet, c: string, ls: seq<string>)
    requires Spells(a, ls, Letters(a, c))
    ensures Spells(a, [c] + ls, Letters(a, c))
  {
    assert ([c] + ls)[1..] == ls;
  }

  lemma {:induction false} PartsSpell(a: Alphabet, ls: seq<string>, parts: seq<string>)
    requires |ls| == |parts| && forall i | 0 <= i < |ls| :: Letters(a, ls[i]) == Letters(a, parts[i])
    ensures Spells(a, ls, AllLetters(a, parts))
  {
    if ls == [] {
    } else {
      PartsSpell(a, ls[1..], parts[1..]);
      var first := Letters(a, ls[0]);
      assert (first + AllLetters(a, parts[1..]))[|first|..] == AllLetters(a, parts[1..]);
    }
  }

  lemma CompoundSpells(a: Alphabet, c: string, parts: seq<string>)
    requires Lowers(a) && Letters(a, c) == AllLetters(a, parts)
    ensures Spells(a, [Join(parts, "-")] + parts, Letters(a, c))
  {
    PartsSpell(a, parts, parts);
    JoinLetters(a, parts);
    SpellsTwice(a, Join(parts, "-"), parts);
  }

  lemma SignedSpells(a: Alphabet, parts: seq<string>, leading: bool)
    requires Lowers(a)
    ensures Spells(a, Signed(parts, leading), AllLetters(a, parts))
  {
    var ls := Signed(parts, leading);
    forall i | 0 <= i < |ls| ensures Letters(a, ls[i]) == Letters(a, parts[i]) {
      LettersConcat(a, "-", parts[i]);
      OnlyMarks(a, "-");
    }
    PartsSpell(a, ls, parts);
  }

  lemma HyphensSpell(a: Alphabet, c: string)
    requires Lowers(a)
    ensures Spells(a, HyphenLexemes(a, c), Letters(a, c))
  {
    var parts := NonEmpty(Split(c, '-'));
    SplitLetters(a, c, '-');
    NonEmptyLetters(a, Split(c, '-'));
    CompoundSpells(a, c, parts);
    SignedSpells(a, parts, "-" <= c);
  }

  lemma {:induction false} ChunkSpells(a: Alphabet, raw: string)
    requires Lowers(a)
    ensures Spells(a, ChunkLexemes(a, raw), Letters(a, raw))
    decreases |raw|, 1, 0
  {
    var left := TrimLeft(raw, {'.', '_', '@'});
    var c := TrimRight(left, {'.', '-', '_', '/', '@'});
    TrimLeftLetters(a, raw, {'.', '_', '@'});
    TrimRightLetters(a, left, {'.', '-', '_', '/', '@'});
    if c == "" || c == "-" || c == "/" {
      OnlyMarks(a, c);
    } else {
      LettersLowered(a, c);
      TrimmedSpells(a, Translate(a.lower, c), |raw|);
    }
  }

  lemma SlashShapes(a: Alphabet, c: string, i: nat, bound: nat)
    requires |c| <= bound && IndexOf(c, '/') == Some(i)
    ensures var ls := TrimmedLexemes(a, c, bound);
            || ls == [c] || ls == [c, c[..i], c[i..]] || ls == [c[..i], c[i..]]
            || (ls == [c[i..]] && forall x | x in c[..i] :: Mark(x))
  {
  }

  lemma SlashSpells(a: Alphabet, c: string, i: nat, bound: nat)
    requires Lowers(a) && |c| <= bound && IndexOf(c, '/') == Some(i)
    ensures Spells(a, TrimmedLexemes(a, c, bound), Letters(a, c))
  {
    var prefix, path := c[..i], c[i..];
    SlashShapes(a, c, i, bound);
    LettersCut(a, c, i);
    SpellsItself(a, c);
    SpellsPair(a, prefix, path);
    SpellsTwice(a, c, [prefix, path]);
    assert [c] + [prefix, path] == [c, prefix, path];
    if forall x | x in prefix :: Mark(x) {
      OnlyMarks(a, prefix);
      SpellsItself(a, path);
    }
  }

  lemma {:induction false} TrimmedSpells(a: Alphabet, c: string, bound: nat)
    requires Lowers(a) && |c| <= bound
    ensures Spells(a, TrimmedLexemes(a, c, bound), Letters(a, c))
    decreases bound, 0, |c| + 1
  {
    var slash, at, dash := IndexOf(c, '/'), IndexOf(c, '@'), IndexOf(c, '-');
    SpellsItself(a, c);
    if slash.Some? {
      SlashSpells(a, c, slash.value, bound);
    } else if '_' in c {
      AllSpell(a, Split(c, '_'), bound);
      SplitLetters(a, c, '_');
    } else if at.Some? {
      AllSpell(a, Split(c, '@'), bound);
      SplitLetters(a, c, '@');
    } else if '.' in c {
      if dash.Some? && dash.value > 0 && DottedNumber(c[..dash.value]) {
        VersionSpells(a, c, dash.value, bound);
      }
    } else if dash.Some? {
      HyphensSpell(a, c);
    }
  }

  lemma {:induction false} VersionSpells(a: Alphabet, c: string, i: nat, bound: nat)
    requires Lowers(a) && i < |c| <= bound && c[i] == '-'
    ensures Spells(a, [c[..i]] + ChunkLexemes(a, c[i + 1..]), Letters(a, c))
    decreases bound, 0, |c|
  {
    var rest := ChunkLexemes(a, c[i + 1..]);
    ChunkSpells(a, c[i + 1..]);
    SpellsItself(a, c[..i]);
    SpellsConcat(a, [c[..i]], Letters(a, c[..i]), rest, Letters(a, c[i + 1..]));
    LettersAround(a, c, i);
  }

  lemma {:induction false} AllSpell(a: Alphabet, parts: seq<string>, bound: nat)
    requires Lowers(a) && forall p | p in parts :: |p| < bound
    ensures Spells(a, AllLexemes(a, parts, bound), AllLetters(a, parts))
    decreases bound, 0, 0, |parts|
  {
    if parts == [] {
    } else {
      ChunkSpells(a, parts[0]);
      AllSpell(a, parts[1..], bound);
      SpellsConcat(a, ChunkLexemes(a, parts[0]), Letters(a, parts[0]), AllLexemes(a, parts[1..], bound), AllLetters(a, parts[1..]));
    }
  }

  // ----- the whole text

  /** The stretches of text the scanner hands on, one after another. */
  function Covered(r: Rules, s: string, i: nat): string
    requires i <= |s|
    decreases |s| - i
  {
    if i == |s| then [] else TokenText(r, s, i) + Covered(r, s, TokenSpan(r, s, i).to)
  }

  /** The lexemes of a text spell out the letters of what the scanner reads. */
  lemma {:induction false} LexemesSpell(a: Alphabet, s: string, i: nat)
    requires Lowers(a) && i <= |s|
    ensures Spells(a, LexFrom(RulesOf(a), s, i), Letters(a, Covered(RulesOf(a), s, i)))
    decreases |s| - i
  {
    var r := RulesOf(a);
    if i < |s| {
      var token, next := TokenText(r, s, i), TokenSpan(r, s, i).to;
      ChunkSpells(a, token);
      LexemesSpell(a, s, next);
      SpellsConcat(a, ChunkLexemes(a, token), Letters(a, token), LexFrom(r, s, next), Letters(a, Covered(r, s, next)));
      LettersConcat(a, token, Covered(r, s, next));
    }
  }

  /** The runes of a text that can belong to a token. */
  function ChunkRunes(r: Rules, s: string): string {
    if s == [] then [] else (if r.chunk(s[0]) then [s[0]] else []) + ChunkRunes(r, s[1..])
  }

  lemma {:induction false} ChunkIsKept(r: Rules, s: string, i: nat, j: nat)
    requires i <= j <= |s| && forall k | i <= k < j :: r.chunk(s[k])
    ensures ChunkRunes(r, s[i..]) == s[i..j] + ChunkRunes(r, s[j..])
    decreases j - i
  {
    if i < j {
      ChunkIsKept(r, s, i + 1, j);
      assert s[i..][1..] == s[i + 1..];
    }
  }

  /** Without a colon there is no scheme to drop and no port to add: the scanner reads every token rune, once, in order. */
  lemma {:induction false} CoversAll(r: Rules, s: string, i: nat)
    requires i <= |s| && ':' !in s
    ensures Covered(r, s, i) == ChunkRunes(r, s[i..])
    decreases |s| - i
  {
    if i < |s| {
      var span := TokenSpan(r, s, i);
      CoversAll(r, s, span.to);
      if r.chunk(s[i]) {
        ChunkIsKept(r, s, i, span.to);
      } else {
        assert s[i..][1..] == s[i + 1..];
      }
    }
  }

  /** The lexemes of a text without a colon spell out, in order, exactly the letters of its token runes. */
  lemma NothingLostOrInvented(a: Alphabet, s: string)
    requires Lowers(a) && ':' !in s
    ensures Spells(a, Lexemes(a, s), Letters(a, ChunkRunes(RulesOf(a), s)))
  {
    LexemesSpell(a, s, 0);
    CoversAll(RulesOf(a), s, 0);
    assert s[0..] == s;
  }

  // ----- hyphens

  lemma {:induction false} SplitAtFirst(p: string, sep: char, q: string)
    requires sep !in p
    ensures IndexOf(p + [sep] + q, sep) == Some(|p|)
    ensures Split(p + [sep] + q, sep) == [p] + Split(q, sep)
  {
    var s := p + [sep] + q;
    assert s[|p|] == sep;
    assert s[..|p|] == p && s[|p| + 1..] == q;
    assert forall k | 0 <= k < |p| :: s[k] == p[k];
  }

  /**
   Two words joined by a hyphen give the compound and both words; anything else gives the two
   pieces, a number behind the hyphen keeping it as a sign.
   */
  lemma HyphenatedPair(a: Alphabet, p: string, q: string)
    requires p != "" && q != "" && '-' !in p && '-' !in q
    ensures HyphenLexemes(a, p + "-" + q)
            == if HasLetter(a, p) && HasLetter(a, q) then [p + "-" + q, p, q]
               else [p, if Digits(q) then "-" + q else q]
  {
    SplitAtFirst(p, '-', q);
    assert Split(q, '-') == [q];
    var parts := Split(p + "-" + q, '-');
    assert parts == [p, q];
    assert NonEmpty([q]) == [q] && parts[1..] == [q] && NonEmpty(parts) == [p, q];
    assert Join([p, q], "-") == p + "-" + q by { assert [p, q][1..] == [q]; }
    assert (p + "-" + q)[0] == p[0] && p[0] in p;
  }
}
