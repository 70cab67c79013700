/**
 The audit listing: its text cursor and keyset paging
 (apps/syslog-bucket/internal/store/audit.go).
 */
module AuditLog {
  import opened Common
  import opened Framing
  import Lexer

  const INT64_MAX := 0x7FFF_FFFF_FFFF_FFFF

  predicate Int64(n: int) { -INT64_MAX - 1 <= n <= INT64_MAX }

  // ----- the cursor

  /** Microseconds since the epoch, and the row id. */
  datatype Cursor = Cursor(micros: int, id: int)

  function FormatInt(n: int): string { if n < 0 then "-" + Itoa(-n) else Itoa(n) }

  function Encode(c: Cursor): string { FormatInt(c.micros) + "-" + FormatInt(c.id) }

  function DigitsValue(s: string): nat
    requires forall c | c in s :: IsDigit(c)
  {
    if s == [] then 0
    else assert s[|s| - 1] in s && IsDigit(s[|s| - 1]); 10 * DigitsValue(s[..|s| - 1]) + (s[|s| - 1] as int - '0' as int)
  }

  /** strconv.ParseInt(s, 10, 64). */
  function ParseInt(s: string): Option<int> {
    var signed := s != [] && (s[0] == '-' || s[0] == '+');
    var digits := if signed then s[1..] else s;
    if digits == [] || exists c | c in digits :: !IsDigit(c) then None
    else
      var v: int := DigitsValue(digits);
      var n: int := if signed && s[0] == '-' then 0 - v else v;
      if Int64(n) then Some(n) else None
  }

  function Parse(s: string): Option<Cursor> {
    var i := Lexer.LastIndexOf(s, '-');
    if i.None? || i.value == 0 then None
    else
      var micros, id := ParseInt(s[..i.value]), ParseInt(s[i.value + 1..]);
      if micros.None? || id.None? then None else Some(Cursor(micros.value, id.value))
  }

  lemma {:induction false} ItoaValue(n: nat)
    ensures forall c | c in Itoa(n) :: IsDigit(c)
    ensures Itoa(n) != [] && DigitsValue(Itoa(n)) == n
  {
    if n >= 10 {
      ItoaValue(n / 10);
      assert Itoa(n)[..|Itoa(n)| - 1] == Itoa(n / 10);
    } else {
      assert Itoa(n)[..0] == [];
    }
  }

  lemma FormatParses(n: int)
    requires Int64(n)
    ensures ParseInt(FormatInt(n)) == Some(n)
  {
    var m := if n < 0 then -n else n;
    ItoaValue(m);
    if n < 0 {
      assert FormatInt(n)[1..] == Itoa(m);
    } else {
      assert FormatInt(n)[0] in Itoa(n);
    }
  }

  lemma {:induction false} LastDash(s: string, digits: string)
    requires forall c | c in digits :: IsDigit(c)
    ensures Lexer.LastIndexOf(s + "-" + digits, '-') == Some(|s|)
  {
    var t := s + "-" + digits;
    if digits == [] {
      assert t[|t| - 1] == '-';
    } else {
      var n := |digits| - 1;
      assert t[|t| - 1] == digits[n] && digits[n] in digits;
      assert t[..|t| - 1] == s + "-" + digits[..n];
      LastDash(s, digits[..n]);
    }
  }

  /** Decoding gives the cursor back exactly when the id is not negative; otherwise it is an error. */
  lemma CursorRoundTrip(c: Cursor)
    requires Int64(c.micros) && Int64(c.id)
    ensures c.id >= 0 ==> Parse(Encode(c)) == Some(c)
    ensures c.id < 0 ==> Parse(Encode(c)) == None
  {
    var m := FormatInt(c.micros);
    FormatParses(c.micros);
    if c.id >= 0 {
      ItoaValue(c.id);
      FormatParses(c.id);
      LastDash(m, Itoa(c.id));
      assert Encode(c)[..|m|] == m && Encode(c)[|m| + 1..] == Itoa(c.id);
    } else {
      ItoaValue(-c.id);
      var s := m + "-";
      assert Encode(c) == s + "-" + Itoa(-c.id);
      LastDash(s, Itoa(-c.id));
      assert Encode(c)[..|s|] == s;
      NotANumber(m);
    }
  }

  /** A number with a dash behind it is not a number. */
  lemma NotANumber(m: string)
    requires m != []
    ensures ParseInt(m + "-") == None
  {
    var s := m + "-";
    var digits := if s[0] == '-' || s[0] == '+' then s[1..] else s;
    assert digits[|digits| - 1] == '-' && '-' in digits && !IsDigit('-');
  }

  // ----- keyset paging

  datatype Event = Event(at: int, id: int)

  /** (a.at, a.id) < (b.at, b.id) as row values. */
  predicate Older(a: Event, b: Event) { a.at < b.at || (a.at == b.at && a.id < b.id) }

  /** The matching rows as the query orders them: newest first, no two alike. */
  ghost predicate NewestFirst(rows: seq<Event>) { forall i, j | 0 <= i < j < |rows| :: Older(rows[j], rows[i]) }

  const DEFAULT_LIMIT := 100
  const MAX_LIMIT := 500

  function PageSize(limit: int): nat {
    if limit <= 0 then DEFAULT_LIMIT else if limit > MAX_LIMIT then MAX_LIMIT else limit
  }

  /** WHERE (at, id) < cursor. */
  function OlderThan(rows: seq<Event>, before: Option<Event>): seq<Event> {
    if rows == [] then []
    else (if before.None? || Older(rows[0], before.value) then [rows[0]] else []) + OlderThan(rows[1..], before)
  }

  /** ListAudit: one page, and the cursor of the next if the page is full. */
  function Page(rows: seq<Event>, before: Option<Event>, limit: int): (seq<Event>, Option<Event>) {
    var left := OlderThan(rows, before);
    var n := PageSize(limit);
    var page := if |left| > n then left[..n] else left;
    (page, if |page| == n then Some(page[n - 1]) else None)
  }

  lemma {:induction false} OlderThanAll(rows: seq<Event>)
    ensures OlderThan(rows, None) == rows
  {
    if rows == [] {
    } else {
      OlderThanAll(rows[1..]);
    }
  }

  /** Behind the cursor of row k lie exactly the rows after it. */
  lemma {:induction false} OlderThanRow(rows: seq<Event>, k: nat)
    requires NewestFirst(rows) && k < |rows|
    ensures OlderThan(rows, Some(rows[k])) == rows[k + 1..]
    decreases |rows|
  {
    if k == 0 {
      AllOlder(rows[1..], rows[0]);
    } else {
      OlderThanRow(rows[1..], k - 1);
      assert rows[1..][k..] == rows[k + 1..];
    }
  }

  lemma {:induction false} AllOlder(rows: seq<Event>, e: Event)
    requires forall i | 0 <= i < |rows| :: Older(rows[i], e)
    ensures OlderThan(rows, Some(e)) == rows
  {
    if rows == [] {
    } else {
      AllOlder(rows[1..], e);
    }
  }

  /** Where a listing stands: nothing read yet, or up to and including row k. */
  ghost predicate ReadUpTo(rows: seq<Event>, before: Option<Event>, k: nat) {
    k <= |rows| && before == if k == 0 then None else Some(rows[k - 1])
  }

  lemma WhatIsLeft(rows: seq<Event>, before: Option<Event>, k: nat)
    requires NewestFirst(rows) && ReadUpTo(rows, before, k)
    ensures OlderThan(rows, before) == rows[k..]
  {
    if k == 0 { OlderThanAll(rows); } else { OlderThanRow(rows, k - 1); }
  }

  /** A page continues exactly where the last one ended, and says so in its cursor. */
  lemma PageContinues(rows: seq<Event>, before: Option<Event>, limit: int, k: nat)
    requires NewestFirst(rows) && ReadUpTo(rows, before, k)
    ensures var (page, next) := Page(rows, before, limit);
            && k + |page| <= |rows| && page == rows[k..k + |page|]
            && (next.Some? ==> page != [] && ReadUpTo(rows, next, k + |page|))
            && (next.None? ==> k + |page| == |rows|)
  {
    WhatIsLeft(rows, before, k);
    var n := PageSize(limit);
    assert n > 0;
    if |rows| - k > n {
      assert rows[k..][..n] == rows[k..k + n];
      assert rows[k..][n - 1] == rows[k + n - 1];
    } else {
      assert rows[k..k + |rows[k..]|] == rows[k..];
      if |rows| - k == n { assert rows[k..][n - 1] == rows[k + n - 1]; }
    }
  }

  /**
   A page is as long as was asked for, or as long as what is left: between one and 500 rows as asked,
   100 where nothing was asked; the next cursor is given exactly with a full page.
   */
  lemma PageIsAsLongAsAsked(rows: seq<Event>, before: Option<Event>, limit: int, k: nat)
    requires NewestFirst(rows) && ReadUpTo(rows, before, k)
    ensures var (page, next) := Page(rows, before, limit);
            var left := |rows| - k;
            && (1 <= limit <= 500 ==> |page| == (if left < limit then left else limit) && (next.Some? <==> left >= limit))
            && (limit > 500 ==> |page| == (if left < 500 then left else 500) && (next.Some? <==> left >= 500))
            && (limit <= 0 ==> |page| == (if left < 100 then left else 100) && (next.Some? <==> left >= 100))
  {
    WhatIsLeft(rows, before, k);
  }

  // ----- the listing as a client sees it: cursors travel as text

  /** The row's time in microseconds and its id fit the cursor, and the id comes from a sequence. */
  ghost predicate Encodable(e: Event) { Int64(e.at) && 0 <= e.id <= INT64_MAX }

  function Token(e: Event): string { Encode(Cursor(e.at, e.id)) }

  datatype Refusal = BadCursor

  /** One request: the page and the next cursor's text, or an error for a cursor that does not parse. */
  function Answer(rows: seq<Event>, token: Option<string>, limit: int): Result<(seq<Event>, Option<string>), Refusal> {
    var cursor := if token.Some? then Parse(token.value) else None;
    if token.Some? && cursor.None? then Err(BadCursor)
    else
      var before := if cursor.Some? then Some(Event(cursor.value.micros, cursor.value.id)) else None;
      var (page, next) := Page(rows, before, limit);
      Ok((page, if next.Some? then Some(Token(next.value)) else None))
  }

  /** The text of a cursor answers like the cursor itself. */
  lemma TextAnswers(rows: seq<Event>, before: Option<Event>, limit: int)
    requires before.Some? ==> Encodable(before.value)
    ensures var (page, next) := Page(rows, before, limit);
            Answer(rows, if before.Some? then Some(Token(before.value)) else None, limit)
            == Ok((page, if next.Some? then Some(Token(next.value)) else None))
  {
    if before.Some? { CursorRoundTrip(Cursor(before.value.at, before.value.id)); }
  }

  lemma SliceGrows<T>(s: seq<T>, i: nat, j: nat)
    requires i <= j <= |s|
    ensures s[..i] + s[i..j] == s[..j]
    ensures j == |s| ==> s[..i] + s[i..j] == s
  {
  }

  /** A client that sends back each cursor it is given, as text, reads every row once, newest first, without an error. */
  method ReadAll(rows: seq<Event>, limit: int) returns (res: Result<seq<Event>, Refusal>)
    requires NewestFirst(rows) && forall e | e in rows :: Encodable(e)
    ensures res == Ok(rows)
  {
    var all: seq<Event> := [];
    var token: Option<string> := None;
    var more := true;
    ghost var before: Option<Event> := None;
    while more
      invariant |all| <= |rows| && all == rows[..|all|]
      invariant token == if before.Some? then Some(Token(before.value)) else None
      invariant more ==> ReadUpTo(rows, before, |all|)
      invariant !more ==> all == rows
      decreases more, |rows| - |all|
    {
      PageContinues(rows, before, limit, |all|);
      TextAnswers(rows, before, limit);
      SliceGrows(rows, |all|, |all| + |Page(rows, before, limit).0|);
      before := Page(rows, before, limit).1;
      var answer := Answer(rows, token, limit);
      match answer {
        case Err(error) => return Err(error);
        case Ok(reply) =>
          all := all + reply.0;
          token := reply.1;
      }
      more := token.Some?;
    }
    res := Ok(all);
  }
}
