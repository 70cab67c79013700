/**
 Splitting log text into lexemes (apps/syslog-bucket/internal/rules/textsearch.go). Strings are
 sequences of runes; the Unicode tables come in as an alphabet.
 */
module Lexer {
  import opened Common

  /** unicode.IsLetter, unicode.IsDigit and per-rune lower case. */
  datatype Alphabet = Alphabet(letter: char -> bool, digit: char -> bool, lower: char -> char)

  // ----- small string tools

  function IndexOf(s: string, c: char): (i: Option<nat>)
    ensures i.Some? ==> i.value < |s| && s[i.value] == c && forall k | 0 <= k < i.value :: s[k] != c
    ensures i.None? ==> c !in s
  {
    if s == [] then None
    else if s[0] == c then Some(0)
    else
      var rest := IndexOf(s[1..], c);
      if rest.None? then None else Some(rest.value + 1)
  }

  function LastIndexOf(s: string, c: char): (i: Option<nat>)
    ensures i.Some? ==> i.value < |s| && s[i.value] == c
    ensures i.None? ==> c !in s
  {
    if s == [] then None
    else if s[|s| - 1] == c then Some(|s| - 1)
    else LastIndexOf(s[..|s| - 1], c)
  }

  function TrimLeft(s: string, cut: set<char>): (t: string)
    ensures |t| <= |s|
  {
    if s != [] && s[0] in cut then TrimLeft(s[1..], cut) else s
  }

  function TrimRight(s: string, cut: set<char>): (t: string)
    ensures |t| <= |s|
  {
    if s != [] && s[|s| - 1] in cut then TrimRight(s[..|s| - 1], cut) else s
  }

  /** strings.Split: one part more than there are separators, each without any. */
  function Split(s: string, sep: char): (parts: seq<string>)
    ensures parts != []
    ensures forall p | p in parts :: |p| <= |s|
    ensures sep in s ==> forall p | p in parts :: |p| < |s|
  {
    var i := IndexOf(s, sep);
    if i.None? then [s] else [s[..i.value]] + Split(s[i.value + 1..], sep)
  }

  function CountOf(s: string, c: char): nat {
    if s == [] then 0 else CountOf(s[1..], c) + if s[0] == c then 1 else 0
  }

  function Join(parts: seq<string>, sep: string): string {
    if parts == [] then []
    else if |parts| == 1 then parts[0]
    else parts[0] + sep + Join(parts[1..], sep)
  }

  // ----- character and host predicates

  predicate AsciiDigit(c: char) { '0' <= c <= '9' }

  predicate ChunkRune(a: Alphabet, c: char) {
    a.letter(c) || a.digit(c) || c == '.' || c == '-' || c == '/' || c == '@' || c == '_'
  }

  predicate Digits(s: string) { s != [] && forall c | c in s :: AsciiDigit(c) }

  predicate Alpha(a: Alphabet, s: string) { s != [] && forall c | c in s :: a.letter(c) }

  predicate HasLetter(a: Alphabet, s: string) { exists c | c in s :: a.letter(c) }

  predicate DottedNumber(s: string) { '.' in s && forall l | l in Split(s, '.') :: Digits(l) }

  /** len of a Go string: its UTF-8 bytes. */
  function ByteLength(s: string): nat {
    if s == [] then 0
    else
      var c := s[0] as int;
      (if c < 0x80 then 1 else if c < 0x800 then 2 else if c < 0x1_0000 then 3 else 4) + ByteLength(s[1..])
  }

  predicate Labels(a: Alphabet, s: string) {
    var labels := Split(s, '.');
    var tld := labels[|labels| - 1];
    && |labels| >= 2
    && (forall l | l in labels :: l != "" && forall c | c in l :: a.letter(c) || a.digit(c) || c == '-')
    && ByteLength(tld) >= 2 && Alpha(a, tld)
  }

  predicate HostName(a: Alphabet, s: string) {
    var colon := LastIndexOf(s, ':');
    if colon.None? then Labels(a, s)
    else Digits(s[colon.value + 1..]) && Labels(a, s[..colon.value])
  }

  predicate HostLike(a: Alphabet, chunk: string) {
    var c := Translate(a.lower, TrimLeft(chunk, {'.', '_', '@'}));
    var at := LastIndexOf(c, '@');
    HostName(a, if at.None? then c else c[at.value + 1..])
  }

  // ----- one compound token

  function NonEmpty(parts: seq<string>): seq<string> {
    if parts == [] then []
    else (if parts[0] != "" then [parts[0]] else []) + NonEmpty(parts[1..])
  }

  /** A number right after a hyphen keeps it as a sign. */
  function Signed(parts: seq<string>, leading: bool): seq<string> {
    seq(|parts|, i requires 0 <= i < |parts| =>
      if Digits(parts[i]) && (i > 0 || leading) then "-" + parts[i] else parts[i])
  }

  function HyphenLexemes(a: Alphabet, c: string): seq<string> {
    var parts := NonEmpty(Split(c, '-'));
    if |parts| >= 2 && forall p | p in parts :: HasLetter(a, p) then [Join(parts, "-")] + parts
    else Signed(parts, "-" <= c)
  }

  function ChunkLexemes(a: Alphabet, raw: string): seq<string>
    decreases |raw|, 1, 0
  {
    var c := TrimRight(TrimLeft(raw, {'.', '_', '@'}), {'.', '-', '_', '/', '@'});
    if c == "" || c == "-" || c == "/" then []
    else TrimmedLexemes(a, Translate(a.lower, c), |raw|)
  }

  /** chunkLexemes after trimming and lowering. */
  function TrimmedLexemes(a: Alphabet, c: string, bound: nat): seq<string>
    requires |c| <= bound
    decreases bound, 0, |c| + 1
  {
    var slash, at, dash := IndexOf(c, '/'), IndexOf(c, '@'), IndexOf(c, '-');
    if slash.Some? then
      var prefix, path := c[..slash.value], c[slash.value..];
      if prefix == "" then [c]
      else if HostName(a, prefix) then [c, prefix, path]
      else if DottedNumber(prefix) then [prefix, path]
      else if forall x | x in prefix :: x in {'-', '_', '.', '@'} then [path]
      else [c]
    else if '_' in c then AllLexemes(a, Split(c, '_'), bound)
    else if at.Some? then
      if at.value > 0 && HostName(a, c[at.value + 1..]) && CountOf(c, '@') == 1 then [c]
      else AllLexemes(a, Split(c, '@'), bound)
    else if '.' in c then
      if dash.Some? && dash.value > 0 && DottedNumber(c[..dash.value])
      then [c[..dash.value]] + ChunkLexemes(a, c[dash.value + 1..])
      else [c]
    else if dash.Some? then HyphenLexemes(a, c)
    else [c]
  }

  function AllLexemes(a: Alphabet, parts: seq<string>, bound: nat): seq<string>
    requires forall p | p in parts :: |p| < bound
    decreases bound, 0, 0, |parts|
  {
    if parts == [] then [] else ChunkLexemes(a, parts[0]) + AllLexemes(a, parts[1..], bound)
  }

  // ----- the whole text

  /** The end of the run of runes satisfying `p` that starts at `i`. */
  function RunEnd(s: string, i: nat, p: char -> bool): (j: nat)
    requires i <= |s|
    ensures i <= j <= |s|
    ensures i < |s| && p(s[i]) ==> i < j
    ensures forall k | i <= k < j :: p(s[k])
    ensures j < |s| ==> !p(s[j])
    decreases |s| - i
  {
    if i < |s| && p(s[i]) then RunEnd(s, i + 1, p) else i
  }

  /** What the scanner needs to know: chunk runes, scheme letters, host names, and a chunk's lexemes. */
  datatype Rules = Rules(chunk: char -> bool, alpha: string -> bool, hostLike: string -> bool, lexemes: string -> seq<string>)

  function RulesOf(a: Alphabet): Rules {
    Rules(c => ChunkRune(a, c), x => Alpha(a, x), x => HostLike(a, x), x => ChunkLexemes(a, x))
  }

  function ChunkEnd(r: Rules, s: string, i: nat): nat
    requires i <= |s|
  {
    RunEnd(s, i, r.chunk)
  }

  /** A URL scheme ends at `j`: letters, then "://". */
  predicate Scheme(r: Rules, s: string, i: nat, j: nat)
    requires i <= j <= |s|
  {
    j + 2 < |s| && s[j] == ':' && s[j + 1] == '/' && s[j + 2] == '/' && r.alpha(s[i..j])
  }

  /** A host ends at `j` and a port follows. */
  predicate HostPort(r: Rules, s: string, i: nat, j: nat)
    requires i <= j <= |s|
  {
    j + 1 < |s| && s[j] == ':' && AsciiDigit(s[j + 1]) && r.hostLike(s[i..j])
  }

  /** Past the port, and past any path behind it. */
  function PortEnd(r: Rules, s: string, j: nat): (k: nat)
    requires j + 1 < |s|
    ensures j + 1 <= k <= |s|
  {
    var port := RunEnd(s, j + 1, AsciiDigit);
    if port < |s| && s[port] == '/' then ChunkEnd(r, s, port) else port
  }

  /** The stretch of text one token covers; a dropped scheme leaves `from` behind it. */
  datatype Span = Span(from: nat, to: nat)

  function TokenSpan(r: Rules, s: string, i: nat): (t: Span)
    requires i < |s|
    ensures i <= t.from <= t.to <= |s| && i < t.to
  {
    if !r.chunk(s[i]) then Span(i + 1, i + 1)
    else
      var j := ChunkEnd(r, s, i);
      if Scheme(r, s, i, j) then Span(j + 3, ChunkEnd(r, s, j + 3))
      else if HostPort(r, s, i, j) then Span(i, PortEnd(r, s, j))
      else Span(i, j)
  }

  function TokenText(r: Rules, s: string, i: nat): string
    requires i < |s|
  {
    var t := TokenSpan(r, s, i);
    s[t.from..t.to]
  }

  function LexFrom(r: Rules, s: string, i: nat): seq<string>
    requires i <= |s|
    decreases |s| - i
  {
    if i == |s| then [] else r.lexemes(TokenText(r, s, i)) + LexFrom(r, s, TokenSpan(r, s, i).to)
  }

  function Lexemes(a: Alphabet, s: string): seq<string> { LexFrom(RulesOf(a), s, 0) }

  method ScanChunk(r: Rules, s: string, from: nat) returns (j: nat)
    requires from <= |s|
    ensures j == ChunkEnd(r, s, from)
  {
    j := from;
    while j < |s| && r.chunk(s[j])
      invariant from <= j <= |s|
      invariant ChunkEnd(r, s, j) == ChunkEnd(r, s, from)
    {
      j := j + 1;
    }
  }

  method ScanPort(r: Rules, s: string, j: nat) returns (k: nat)
    requires j + 1 < |s|
    ensures k == PortEnd(r, s, j)
  {
    k := j + 1;
    while k < |s| && AsciiDigit(s[k])
      invariant j + 1 <= k <= |s|
      invariant RunEnd(s, k, AsciiDigit) == RunEnd(s, j + 1, AsciiDigit)
    {
      k := k + 1;
    }
    if k < |s| && s[k] == '/' {
      k := ScanChunk(r, s, k);
    }
  }

  method ScanToken(r: Rules, s: string, i: nat) returns (t: Span)
    requires i < |s|
    ensures t == TokenSpan(r, s, i)
  {
    if !r.chunk(s[i]) {
      return Span(i + 1, i + 1);
    }
    var j := ScanChunk(r, s, i);
    if Scheme(r, s, i, j) {
      var k := ScanChunk(r, s, j + 3);
      return Span(j + 3, k);
    }
    if HostPort(r, s, i, j) {
      var k := ScanPort(r, s, j);
      return Span(i, k);
    }
    return Span(i, j);
  }

  /** lexemes: the cursor loop. */
  method LexemesOf(a: Alphabet, s: string) returns (out: seq<string>)
    ensures out == Lexemes(a, s)
  {
    var r := RulesOf(a);
    out := [];
    var i := 0;
    while i < |s|
      invariant 0 <= i <= |s|
      invariant out + LexFrom(r, s, i) == Lexemes(a, s)
    {
      var t := ScanToken(r, s, i);
      var found := r.lexemes(s[t.from..t.to]);
      ConcatAssociates(out, found, LexFrom(r, s, t.to));
      out := out + found;
      i := t.to;
    }
  }

  // ----- what the lexer guarantees

  ghost predicate AllNonEmpty(ls: seq<string>) { forall l | l in ls :: l != "" }

  lemma {:induction false} NonEmptyKeeps(parts: seq<string>)
    ensures AllNonEmpty(NonEmpty(parts))
  {
    if parts == [] {
    } else {
      NonEmptyKeeps(parts[1..]);
    }
  }

  lemma {:induction false} ChunkLexemesNonEmpty(a: Alphabet, raw: string)
    ensures AllNonEmpty(ChunkLexemes(a, raw))
    decreases |raw|, 1, 0
  {
    var c := TrimRight(TrimLeft(raw, {'.', '_', '@'}), {'.', '-', '_', '/', '@'});
    if c != "" && c != "-" && c != "/" { TrimmedNonEmpty(a, Translate(a.lower, c), |raw|); }
  }

  lemma {:induction false} TrimmedNonEmpty(a: Alphabet, c: string, bound: nat)
    requires c != "" && |c| <= bound
    ensures AllNonEmpty(TrimmedLexemes(a, c, bound))
    decreases bound, 0, |c| + 1
  {
    var slash, at, dash := IndexOf(c, '/'), IndexOf(c, '@'), IndexOf(c, '-');
    if slash.None? {
      if '_' in c {
        AllLexemesNonEmpty(a, Split(c, '_'), bound);
      } else if at.Some? {
        AllLexemesNonEmpty(a, Split(c, '@'), bound);
      } else if '.' in c {
        if dash.Some? { ChunkLexemesNonEmpty(a, c[dash.value + 1..]); }
      } else if dash.Some? {
        HyphenLexemesNonEmpty(a, c);
      }
    }
  }

  lemma HyphenLexemesNonEmpty(a: Alphabet, c: string)
    ensures AllNonEmpty(HyphenLexemes(a, c))
  {
    var parts := NonEmpty(Split(c, '-'));
    NonEmptyKeeps(Split(c, '-'));
    assert forall i | 0 <= i < |parts| :: parts[i] in parts;
    if |parts| >= 2 { assert Join(parts, "-") == parts[0] + "-" + Join(parts[1..], "-"); }
  }

  lemma {:induction false} AllLexemesNonEmpty(a: Alphabet, parts: seq<string>, bound: nat)
    requires forall p | p in parts :: |p| < bound
    ensures AllNonEmpty(AllLexemes(a, parts, bound))
    decreases bound, 0, 0, |parts|
  {
    if parts == [] {
    } else {
      ChunkLexemesNonEmpty(a, parts[0]);
      AllLexemesNonEmpty(a, parts[1..], bound);
    }
  }

  /** No lexeme is empty, whatever the text. */
  lemma {:induction false} LexemesNonEmpty(a: Alphabet, s: string, i: nat)
    requires i <= |s|
    ensures AllNonEmpty(LexFrom(RulesOf(a), s, i))
    decreases |s| - i
  {
    if i < |s| {
      ChunkLexemesNonEmpty(a, TokenText(RulesOf(a), s, i));
      LexemesNonEmpty(a, s, TokenSpan(RulesOf(a), s, i).to);
    }
  }

  // Lexing is compositional at spaces: nothing before a space looks past it, and nothing
  // after it looks back.

  ghost predicate SpaceSplits(r: Rules) { !r.chunk(' ') && r.lexemes("") == [] }

  ghost predicate SpaceSeparates(a: Alphabet) { !ChunkRune(a, ' ') }

  lemma {:induction false} RunStopsAtSpace(s: string, t: string, i: nat, p: char -> bool)
    requires i <= |s| && !p(' ')
    ensures RunEnd(s + " " + t, i, p) == RunEnd(s, i, p)
    decreases |s| - i
  {
    var u := s + " " + t;
    if i < |s| {
      assert u[i] == s[i];
      RunStopsAtSpace(s, t, i + 1, p);
    } else {
      assert u[i] == ' ';
    }
  }

  lemma PortStopsAtSpace(r: Rules, s: string, t: string, j: nat)
    requires j + 1 < |s| && SpaceSplits(r)
    ensures PortEnd(r, s + " " + t, j) == PortEnd(r, s, j)
  {
    RunStopsAtSpace(s, t, j + 1, AsciiDigit);
    var port := RunEnd(s, j + 1, AsciiDigit);
    RunStopsAtSpace(s, t, port, r.chunk);
    ChunkStopsAtSpace(r, s, t, port);
  }

  lemma {:induction false} ChunkStopsAtSpace(r: Rules, s: string, t: string, i: nat)
    requires i <= |s| && SpaceSplits(r)
    ensures ChunkEnd(r, s + " " + t, i) == ChunkEnd(r, s, i)
    decreases |s| - i
  {
    var u := s + " " + t;
    if i < |s| {
      assert u[i] == s[i];
      ChunkStopsAtSpace(r, s, t, i + 1);
    } else {
      assert u[i] == ' ';
    }
  }

  lemma ShapeStopsAtSpace(r: Rules, s: string, t: string, i: nat, j: nat)
    requires i <= j <= |s|
    ensures Scheme(r, s + " " + t, i, j) == Scheme(r, s, i, j)
    ensures HostPort(r, s + " " + t, i, j) == HostPort(r, s, i, j)
  {
    var u := s + " " + t;
    assert u[i..j] == s[i..j];
    assert u[|s|] == ' ';
  }

  lemma SpanStopsAtSpace(r: Rules, s: string, t: string, u: string, i: nat)
    requires i < |s| && SpaceSplits(r) && u == s + " " + t
    ensures TokenSpan(r, u, i) == TokenSpan(r, s, i)
  {
    assert u[i] == s[i];
    if r.chunk(s[i]) {
      ChunkStopsAtSpace(r, s, t, i);
      var j := ChunkEnd(r, s, i);
      ShapeStopsAtSpace(r, s, t, i, j);
      if Scheme(r, s, i, j) { ChunkStopsAtSpace(r, s, t, j + 3); }
      else if HostPort(r, s, i, j) { PortStopsAtSpace(r, s, t, j); }
    }
  }

  lemma TokenStopsAtSpace(r: Rules, s: string, t: string, u: string, i: nat)
    requires i < |s| && SpaceSplits(r) && u == s + " " + t
    ensures TokenSpan(r, u, i) == TokenSpan(r, s, i) && TokenText(r, u, i) == TokenText(r, s, i)
  {
    SpanStopsAtSpace(r, s, t, u, i);
    var span := TokenSpan(r, s, i);
    assert u[span.from..span.to] == s[span.from..span.to];
  }

  lemma {:induction false} RunShifts(s: string, t: string, i: nat, p: char -> bool)
    requires i <= |t|
    ensures RunEnd(s + t, |s| + i, p) == |s| + RunEnd(t, i, p)
    decreases |t| - i
  {
    if i < |t| {
      assert (s + t)[|s| + i] == t[i];
      RunShifts(s, t, i + 1, p);
    }
  }

  lemma {:induction false} ChunkShifts(r: Rules, s: string, t: string, i: nat)
    requires i <= |t|
    ensures ChunkEnd(r, s + t, |s| + i) == |s| + ChunkEnd(r, t, i)
    decreases |t| - i
  {
    if i < |t| {
      assert (s + t)[|s| + i] == t[i];
      ChunkShifts(r, s, t, i + 1);
    }
  }

  lemma ShapeShifts(r: Rules, s: string, t: string, i: nat, j: nat)
    requires i <= j <= |t|
    ensures Scheme(r, s + t, |s| + i, |s| + j) == Scheme(r, t, i, j)
    ensures HostPort(r, s + t, |s| + i, |s| + j) == HostPort(r, t, i, j)
  {
    assert (s + t)[|s| + i..|s| + j] == t[i..j];
  }

  lemma PortShifts(r: Rules, s: string, t: string, j: nat)
    requires j + 1 < |t|
    ensures PortEnd(r, s + t, |s| + j) == |s| + PortEnd(r, t, j)
  {
    RunShifts(s, t, j + 1, AsciiDigit);
    ChunkShifts(r, s, t, RunEnd(t, j + 1, AsciiDigit));
  }

  lemma SliceShifts(s: string, t: string, i: nat, j: nat)
    requires i <= j <= |t|
    ensures (s + t)[|s| + i..|s| + j] == t[i..j]
  {
  }

  lemma SpanShifts(r: Rules, s: string, t: string, i: nat)
    requires i < |t|
    ensures var span := TokenSpan(r, t, i);
            TokenSpan(r, s + t, |s| + i) == Span(|s| + span.from, |s| + span.to)
  {
    assert (s + t)[|s| + i] == t[i];
    if r.chunk(t[i]) {
      ChunkShifts(r, s, t, i);
      var j := ChunkEnd(r, t, i);
      ShapeShifts(r, s, t, i, j);
      if Scheme(r, t, i, j) { ChunkShifts(r, s, t, j + 3); }
      else if HostPort(r, t, i, j) { PortShifts(r, s, t, j); }
    }
  }

  lemma TokenShifts(r: Rules, s: string, t: string, u: string, i: nat)
    requires i < |t| && u == s + t
    ensures TokenSpan(r, u, |s| + i).to == |s| + TokenSpan(r, t, i).to
    ensures TokenText(r, u, |s| + i) == TokenText(r, t, i)
  {
    SpanShifts(r, s, t, i);
    SliceShifts(s, t, TokenSpan(r, t, i).from, TokenSpan(r, t, i).to);
  }

  /** What scanning does at a position: one token, then the rest. */
  lemma LexStep(r: Rules, s: string, i: nat)
    requires i < |s|
    ensures LexFrom(r, s, i) == r.lexemes(TokenText(r, s, i)) + LexFrom(r, s, TokenSpan(r, s, i).to)
  {
  }

  /** `u` and `t` read the same token at positions `n` apart. */
  ghost predicate SameToken(r: Rules, u: string, t: string, n: nat, i: nat)
    requires i < |t| && n + i < |u|
  {
    TokenSpan(r, u, n + i).to == n + TokenSpan(r, t, i).to && TokenText(r, u, n + i) == TokenText(r, t, i)
  }

  lemma {:induction false} SameTokensSameLexemes(r: Rules, u: string, t: string, n: nat, i: nat)
    requires |u| == n + |t| && i <= |t| && forall k: nat | k < |t| :: SameToken(r, u, t, n, k)
    ensures LexFrom(r, u, n + i) == LexFrom(r, t, i)
    decreases |t| - i
  {
    if i < |t| {
      assert SameToken(r, u, t, n, i);
      SameTokensSameLexemes(r, u, t, n, TokenSpan(r, t, i).to);
      LexStep(r, t, i);
      LexStep(r, u, n + i);
    }
  }

  lemma LexShifts(r: Rules, s: string, t: string, u: string)
    requires u == s + t
    ensures LexFrom(r, u, |s|) == LexFrom(r, t, 0)
  {
    forall k: nat | k < |t| ensures SameToken(r, u, t, |s|, k) {
      TokenShifts(r, s, t, u, k);
    }
    SameTokensSameLexemes(r, u, t, |s|, 0);
  }

  lemma {:induction false} LexBeforeSpace(r: Rules, s: string, t: string, i: nat)
    requires i <= |s| && SpaceSplits(r)
    ensures LexFrom(r, s + " " + t, i) == LexFrom(r, s, i) + LexFrom(r, t, 0)
    decreases |s| - i
  {
    var u := s + " " + t;
    if i < |s| {
      TokenStopsAtSpace(r, s, t, u, i);
      var next := TokenSpan(r, s, i).to;
      LexBeforeSpace(r, s, t, next);
      LexStep(r, s, i);
      LexStep(r, u, i);
      ConcatAssociates(r.lexemes(TokenText(r, s, i)), LexFrom(r, s, next), LexFrom(r, t, 0));
    } else {
      assert u[i] == ' ' && TokenSpan(r, u, i) == Span(i + 1, i + 1) && TokenText(r, u, i) == "";
      LexShifts(r, s + " ", t, u);
      LexStep(r, u, i);
    }
  }

  /** The lexemes of two texts joined by a space are the lexemes of each, in order. */
  lemma LexemesConcat(a: Alphabet, s: string, t: string)
    requires SpaceSeparates(a)
    ensures Lexemes(a, s + " " + t) == Lexemes(a, s) + Lexemes(a, t)
  {
    LexBeforeSpace(RulesOf(a), s, t, 0);
  }
}
