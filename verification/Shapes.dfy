/**
 The lexemes of each shape of compound: plain words, snake case, hyphenated words, dotted names,
 mail addresses, paths, URLs and versions (apps/syslog-bucket/internal/rules/textsearch.go).
 */
module Shapes {
  import opened Common
  import opened Lexer
  import opened Spelling

  /** Nothing to trim at either end. */
  ghost predicate Tight(raw: string) {
    raw != "" && raw[0] !in {'.', '_', '@'} && raw[|raw| - 1] !in {'.', '-', '_', '/', '@'}
  }

  /** A piece without marks, lower-cased already. */
  ghost predicate Solid(a: Alphabet, p: string) {
    p != "" && Translate(a.lower, p) == p && forall c | c in p :: !Mark(c)
  }

  /** The chunk, which needs no trimming, reads `c` in lower case. */
  ghost predicate Reads(a: Alphabet, raw: string, c: string) { Tight(raw) && Translate(a.lower, raw) == c }

  lemma TightIsTrimmed(a: Alphabet, raw: string, c: string)
    requires Reads(a, raw, c)
    ensures ChunkLexemes(a, raw) == TrimmedLexemes(a, c, |raw|)
  {
    assert TrimLeft(raw, {'.', '_', '@'}) == raw;
    assert TrimRight(raw, {'.', '-', '_', '/', '@'}) == raw;
  }

  lemma SolidReads(a: Alphabet, p: string)
    requires Solid(a, p)
    ensures Reads(a, p, p)
  {
    assert p[0] in p && p[|p| - 1] in p;
  }

  lemma NotFound(c: string, m: char)
    requires m !in c
    ensures IndexOf(c, m).None?
  {
  }

  /** No slash, underscore or at sign: what the chunk's shape then depends on. */
  lemma NoSeparators(a: Alphabet, c: string, bound: nat)
    requires |c| <= bound && '/' !in c && '_' !in c && '@' !in c
    ensures TrimmedLexemes(a, c, bound) ==
            var dash := IndexOf(c, '-');
            if '.' in c then
              if dash.Some? && dash.value > 0 && DottedNumber(c[..dash.value]) then [c[..dash.value]] + ChunkLexemes(a, c[dash.value + 1..])
              else [c]
            else if dash.Some? then HyphenLexemes(a, c)
            else [c]
  {
    NotFound(c, '/');
    NotFound(c, '@');
  }

  /** Without marks, the chunk is one lexeme, in lower case. */
  lemma PlainWord(a: Alphabet, raw: string, c: string)
    requires Reads(a, raw, c) && forall x | x in c :: !Mark(x)
    ensures ChunkLexemes(a, raw) == [c]
  {
    TightIsTrimmed(a, raw, c);
    assert Mark('/') && Mark('_') && Mark('@') && Mark('-') && Mark('.');
    NoSeparators(a, c, |raw|);
    NotFound(c, '-');
  }

  /** A dotted name, number or file name is one lexeme. */
  lemma Dotted(a: Alphabet, raw: string, c: string)
    requires Reads(a, raw, c) && '.' in c && forall x | x in c :: x == '.' || !Mark(x)
    ensures ChunkLexemes(a, raw) == [c]
  {
    TightIsTrimmed(a, raw, c);
    assert Mark('/') && Mark('_') && Mark('@') && Mark('-') && Mark('.');
    NoSeparators(a, c, |raw|);
    NotFound(c, '-');
  }

  // ----- pieces joined by one mark

  ghost predicate AllSolid(a: Alphabet, parts: seq<string>) { forall p | p in parts :: Solid(a, p) }

  lemma {:induction false} JoinHolds(a: Alphabet, parts: seq<string>, sep: char)
    requires parts != [] && AllSolid(a, parts) && Mark(sep)
    ensures |parts| > 1 ==> sep in Join(parts, [sep])
    ensures forall x | x in Join(parts, [sep]) :: x == sep || !Mark(x)
  {
    assert Solid(a, parts[0]) by { assert parts[0] in parts; }
    if |parts| > 1 {
      assert AllSolid(a, parts[1..]);
      JoinHolds(a, parts[1..], sep);
    }
  }

  lemma SplitNext(p: string, sep: char, rest: seq<string>, c: string)
    requires sep !in p && Split(c, sep) == rest
    ensures Split(p + [sep] + c, sep) == [p] + rest
  {
    SplitAtFirst(p, sep, c);
  }

  lemma {:induction false} SplitUndoesJoin(parts: seq<string>, sep: char)
    requires parts != [] && forall p | p in parts :: sep !in p
    ensures Split(Join(parts, [sep]), sep) == parts
  {
    var first, rest := parts[0], parts[1..];
    assert first in parts;
    if rest == [] {
      NotFound(first, sep);
      assert parts == [first];
    } else {
      assert forall p | p in rest :: p in parts;
      SplitUndoesJoin(rest, sep);
      SplitNext(first, sep, rest, Join(rest, [sep]));
    }
  }

  lemma {:induction false} SolidPartsStand(a: Alphabet, parts: seq<string>, bound: nat)
    requires AllSolid(a, parts) && forall p | p in parts :: |p| < bound
    ensures AllLexemes(a, parts, bound) == parts
  {
    if parts != [] {
      assert parts[0] in parts;
      SolidReads(a, parts[0]);
      PlainWord(a, parts[0], parts[0]);
      SolidPartsStand(a, parts[1..], bound);
      assert parts == [parts[0]] + parts[1..];
    }
  }

  lemma Underscored(a: Alphabet, c: string, bound: nat)
    requires |c| <= bound && '/' !in c && '_' in c
    ensures TrimmedLexemes(a, c, bound) == AllLexemes(a, Split(c, '_'), bound)
  {
    NotFound(c, '/');
  }

  /** Snake case falls apart into its pieces. */
  lemma SnakeCase(a: Alphabet, raw: string, parts: seq<string>)
    requires |parts| > 1 && AllSolid(a, parts) && Reads(a, raw, Join(parts, "_"))
    ensures ChunkLexemes(a, raw) == parts
  {
    var c := Join(parts, "_");
    assert "_" == ['_'];
    assert forall p | p in parts :: Solid(a, p) && '_' !in p;
    SplitUndoesJoin(parts, '_');
    JoinHolds(a, parts, '_');
    TightIsTrimmed(a, raw, c);
    Underscored(a, c, |raw|);
    SolidPartsStand(a, parts, |raw|);
  }

  lemma {:induction false} SolidIsNonEmpty(a: Alphabet, parts: seq<string>)
    requires AllSolid(a, parts)
    ensures NonEmpty(parts) == parts
  {
    if parts != [] {
      assert parts[0] in parts;
      SolidIsNonEmpty(a, parts[1..]);
      assert parts == [parts[0]] + parts[1..];
    }
  }

  /** The pieces behind a hyphen: numbers carry it as their sign. */
  function SignedTail(parts: seq<string>): seq<string>
    requires parts != []
  {
    seq(|parts| - 1, i requires 0 <= i < |parts| - 1 => if Digits(parts[i + 1]) then "-" + parts[i + 1] else parts[i + 1])
  }

  /** Hyphenated words give the compound and each word; otherwise the pieces stand alone, numbers signed. */
  lemma Hyphenated(a: Alphabet, raw: string, parts: seq<string>)
    requires |parts| > 1 && AllSolid(a, parts) && Reads(a, raw, Join(parts, "-"))
    ensures ChunkLexemes(a, raw) ==
            if forall p | p in parts :: HasLetter(a, p) then [Join(parts, "-")] + parts
            else [parts[0]] + SignedTail(parts)
  {
    var c := Join(parts, "-");
    assert "-" == ['-'];
    JoinHolds(a, parts, '-');
    HyphenChunk(a, raw, c);
    assert forall p | p in parts :: Solid(a, p) && '-' !in p;
    SplitUndoesJoin(parts, '-');
    SolidIsNonEmpty(a, parts);
    assert Solid(a, parts[0]) by { assert parts[0] in parts; }
    HyphensGive(a, parts, c);
  }

  lemma HyphenChunk(a: Alphabet, raw: string, c: string)
    requires Reads(a, raw, c) && '-' in c && forall x | x in c :: x == '-' || !Mark(x)
    ensures ChunkLexemes(a, raw) == HyphenLexemes(a, c)
  {
    TightIsTrimmed(a, raw, c);
    NoSeparators(a, c, |raw|);
  }

  lemma SignedFirst(parts: seq<string>)
    requires parts != []
    ensures Signed(parts, false) == [parts[0]] + SignedTail(parts)
  {
  }

  lemma JoinStarts(parts: seq<string>)
    requires parts != [] && parts[0] != "" && parts[0][0] != '-'
    ensures !("-" <= Join(parts, "-"))
  {
    assert Join(parts, "-")[0] == parts[0][0];
  }

  lemma HyphensGive(a: Alphabet, parts: seq<string>, c: string)
    requires |parts| > 1 && c == Join(parts, "-") && Split(c, '-') == parts && NonEmpty(parts) == parts && Solid(a, parts[0])
    ensures HyphenLexemes(a, c) ==
            if forall p | p in parts :: HasLetter(a, p) then [c] + parts else [parts[0]] + SignedTail(parts)
  {
    assert parts[0][0] in parts[0] && Mark('-');
    JoinStarts(parts);
    SignedFirst(parts);
  }

  // ----- addresses

  lemma {:induction false} IndexOfIs(s: string, c: char, i: nat)
    requires i < |s| && s[i] == c && forall k | 0 <= k < i :: s[k] != c
    ensures IndexOf(s, c) == Some(i)
  {
    if i > 0 { IndexOfIs(s[1..], c, i - 1); }
  }

  lemma {:induction false} CountsNone(s: string, c: char)
    requires c !in s
    ensures CountOf(s, c) == 0
  {
    if s != [] { CountsNone(s[1..], c); }
  }

  lemma {:induction false} CountsOne(p: string, c: char, q: string)
    requires c !in p && c !in q
    ensures CountOf(p + [c] + q, c) == 1
  {
    var s := p + [c] + q;
    if p == [] {
      assert s[1..] == q;
      CountsNone(q, c);
    } else {
      assert s[1..] == p[1..] + [c] + q && s[0] == p[0];
      CountsOne(p[1..], c, q);
    }
  }

  ghost predicate NoneOf(s: string, marks: set<char>) { forall c | c in marks :: c !in s }

  /** A name at a host stays together; at anything else the two sides part. */
  lemma MailAddress(a: Alphabet, raw: string, user: string, host: string)
    requires user != "" && NoneOf(user, {'/', '_', '@'}) && NoneOf(host, {'/', '_', '@'})
    requires Reads(a, raw, user + "@" + host) && host != ""
    ensures HostName(a, host) ==> ChunkLexemes(a, raw) == [user + "@" + host]
    ensures !HostName(a, host) ==> ChunkLexemes(a, raw) == ChunkLexemes(a, user) + ChunkLexemes(a, host)
  {
    var c := user + "@" + host;
    TightIsTrimmed(a, raw, c);
    IndexOfIs(c, '@', |user|);
    CountsOne(user, '@', host);
    assert '/' !in c && '_' !in c && c[|user| + 1..] == host;
    NotFound(c, '/');
    if !HostName(a, host) {
      SplitAtFirst(user, '@', host);
      NotFound(host, '@');
      TwoPieces(a, user, host, |raw|);
    }
  }

  lemma TwoPieces(a: Alphabet, p: string, q: string, bound: nat)
    requires |p| < bound && |q| < bound
    ensures AllLexemes(a, [p] + [q], bound) == ChunkLexemes(a, p) + ChunkLexemes(a, q)
  {
    assert ([p] + [q])[1..] == [q] && [q][1..] == [];
    assert AllLexemes(a, [q], bound) == ChunkLexemes(a, q) + [];
  }

  // ----- paths

  /** An absolute path is one lexeme. */
  lemma AbsolutePath(a: Alphabet, raw: string, c: string)
    requires Reads(a, raw, c) && c[0] == '/'
    ensures ChunkLexemes(a, raw) == [c]
  {
    TightIsTrimmed(a, raw, c);
    IndexOfIs(c, '/', 0);
  }

  /** A URL gives itself, its host and its path; behind a number the path stands alone; a relative path is one lexeme. */
  lemma PathBehind(a: Alphabet, raw: string, prefix: string, path: string)
    requires Reads(a, raw, prefix + path) && prefix != "" && '/' !in prefix && path != "" && path[0] == '/'
    ensures HostName(a, prefix) ==> ChunkLexemes(a, raw) == [prefix + path, prefix, path]
    ensures !HostName(a, prefix) && DottedNumber(prefix) ==> ChunkLexemes(a, raw) == [prefix, path]
    ensures !HostName(a, prefix) && !DottedNumber(prefix) && (exists x | x in prefix :: !Mark(x)) ==> ChunkLexemes(a, raw) == [prefix + path]
  {
    var c := prefix + path;
    TightIsTrimmed(a, raw, c);
    IndexOfIs(c, '/', |prefix|);
    assert c[..|prefix|] == prefix && c[|prefix|..] == path;
  }

  /** A version number parts from what its first hyphen adds to it. */
  lemma VersionSuffix(a: Alphabet, raw: string, c: string, i: nat)
    requires Reads(a, raw, c) && '/' !in c && '_' !in c && '@' !in c && '.' in c
    requires 0 < i < |c| && c[i] == '-' && '-' !in c[..i] && DottedNumber(c[..i])
    ensures ChunkLexemes(a, raw) == [c[..i]] + ChunkLexemes(a, c[i + 1..])
  {
    TightIsTrimmed(a, raw, c);
    assert forall k | 0 <= k < i :: c[k] == c[..i][k];
    IndexOfIs(c, '-', i);
    NoSeparators(a, c, |raw|);
  }

  // ----- chunks in a text

  /** A text of chunk runes alone is one chunk. */
  lemma OneChunk(a: Alphabet, s: string)
    requires s != "" && forall c | c in s :: ChunkRune(a, c)
    ensures Lexemes(a, s) == ChunkLexemes(a, s)
  {
    var r := RulesOf(a);
    assert forall i | 0 <= i < |s| :: r.chunk(s[i]);
    assert TokenSpan(r, s, 0) == Span(0, |s|);
    assert s[0..|s|] == s;
    LexStep(r, s, 0);
  }

  lemma ChunkEndsAt(r: Rules, s: string, i: nat, j: nat)
    requires i <= j <= |s| && (j == |s| || !r.chunk(s[j])) && forall k | i <= k < j :: r.chunk(s[k])
    ensures ChunkEnd(r, s, i) == j
  {
  }

  lemma SchemeSpan(r: Rules, s: string, n: nat)
    requires 0 < n && n + 3 <= |s| && s[n] == ':' && s[n + 1] == '/' && s[n + 2] == '/' && !r.chunk(':') && r.alpha(s[0..n])
    requires forall k | 0 <= k < |s| && !(n <= k < n + 3) :: r.chunk(s[k])
    ensures TokenSpan(r, s, 0) == Span(n + 3, |s|)
  {
    ChunkEndsAt(r, s, 0, n);
    ChunkEndsAt(r, s, n + 3, |s|);
  }

  lemma OneToken(r: Rules, s: string, from: nat, text: string)
    requires s != "" && from <= |s| && TokenSpan(r, s, 0) == Span(from, |s|) && s[from..] == text
    ensures LexFrom(r, s, 0) == r.lexemes(text)
  {
    LexStep(r, s, 0);
    assert s[from..|s|] == text && LexFrom(r, s, |s|) == [];
  }

  /** A URL's scheme is dropped; the rest is read as a chunk. */
  lemma SchemeIsDropped(a: Alphabet, scheme: string, rest: string)
    requires Alpha(a, scheme) && !ChunkRune(a, ':') && forall c | c in rest :: ChunkRune(a, c)
    ensures Lexemes(a, scheme + ("://" + rest)) == ChunkLexemes(a, rest)
  {
    var s, n := scheme + ("://" + rest), |scheme|;
    forall k | 0 <= k < |s| && !(n <= k < n + 3) ensures ChunkRune(a, s[k]) {
      assert k < n ==> s[k] in scheme;
      assert k >= n + 3 ==> s[k] == rest[k - n - 3] && s[k] in rest;
    }
    assert s[0..n] == scheme && s[n + 3..] == rest;
    SchemeSpan(RulesOf(a), s, n);
    OneToken(RulesOf(a), s, n + 3, rest);
  }

  lemma PortSpan(r: Rules, s: string, n: nat)
    requires 0 < n && n + 1 < |s| && s[n] == ':' && !r.chunk(':') && r.hostLike(s[0..n])
    requires (forall k | 0 <= k < n :: r.chunk(s[k])) && forall k | n < k < |s| :: AsciiDigit(s[k])
    ensures TokenSpan(r, s, 0) == Span(0, |s|)
  {
    ChunkEndsAt(r, s, 0, n);
    assert AsciiDigit(s[n + 1]);
    assert RunEnd(s, n + 1, AsciiDigit) == |s|;
  }

  /** A host keeps its port. */
  lemma PortStaysOn(a: Alphabet, host: string, port: string)
    requires HostLike(a, host) && Digits(port) && !ChunkRune(a, ':') && host != "" && forall c | c in host :: ChunkRune(a, c)
    ensures Lexemes(a, host + (":" + port)) == ChunkLexemes(a, host + (":" + port))
  {
    var s, n := host + (":" + port), |host|;
    HostThenPort(a, host, port, s);
    PortSpan(RulesOf(a), s, n);
    OneToken(RulesOf(a), s, 0, s);
  }

  lemma HostThenPort(a: Alphabet, host: string, port: string, s: string)
    requires Digits(port) && s == host + (":" + port) && forall c | c in host :: ChunkRune(a, c)
    ensures |host| + 1 < |s| && s[|host|] == ':' && s[0..|host|] == host && s[0..] == s
    ensures (forall k | 0 <= k < |host| :: ChunkRune(a, s[k])) && forall k | |host| < k < |s| :: AsciiDigit(s[k])
  {
    forall k | 0 <= k < |host| ensures ChunkRune(a, s[k]) {
      assert s[k] in host;
    }
    forall k | |host| < k < |s| ensures AsciiDigit(s[k]) {
      assert s[k] == port[k - |host| - 1] && s[k] in port;
    }
  }

  lemma LabelsAre(a: Alphabet, s: string, labels: seq<string>)
    requires Split(s, '.') == labels
    ensures Labels(a, s) <==>
            && |labels| >= 2
            && (forall l | l in labels :: l != "" && forall c | c in l :: a.letter(c) || a.digit(c) || c == '-')
            && (forall c | c in labels[|labels| - 1] :: a.letter(c)) && ByteLength(labels[|labels| - 1]) >= 2
  {
  }

  /** Host names: two labels or more, none empty, of letters, digits and hyphens, the last of two letters or more. */
  lemma HostNamesAre(a: Alphabet, labels: seq<string>)
    requires labels != [] && forall l | l in labels :: NoneOf(l, {'.', ':'})
    ensures HostName(a, Join(labels, ".")) <==>
            && |labels| >= 2
            && (forall l | l in labels :: l != "" && forall c | c in l :: a.letter(c) || a.digit(c) || c == '-')
            && (forall c | c in labels[|labels| - 1] :: a.letter(c)) && ByteLength(labels[|labels| - 1]) >= 2
  {
    assert "." == ['.'];
    assert forall l | l in labels :: '.' !in l && ':' !in l;
    SplitUndoesJoin(labels, '.');
    NoColon(labels);
    LabelsAre(a, Join(labels, "."), labels);
  }

  lemma {:induction false} NoColon(labels: seq<string>)
    requires forall l | l in labels :: ':' !in l
    ensures ':' !in Join(labels, ".") && LastIndexOf(Join(labels, "."), ':').None?
  {
    if labels != [] {
      assert labels[0] in labels;
      NoColon(labels[1..]);
    }
  }
}
