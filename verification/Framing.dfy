/**
 Octet counting (section 3.4.1 of RFC 6587): each frame is the decimal length, a space, the
 message (apps/syslog-hose/internal/engine/sender.go, Frame), and a receiver's decoder for it.
 */
module Framing {
  import opened Common

  predicate IsDigit(c: char) { '0' <= c <= '9' }

  function Digit(n: nat): char
    requires n < 10
  {
    ('0' as int + n) as char
  }

  function Itoa(n: nat): string {
    if n < 10 then [Digit(n)] else Itoa(n / 10) + [Digit(n % 10)]
  }

  function Frame(msg: string): string { Itoa(|msg|) + " " + msg }

  // ----- the receiver

  datatype Header = Count(n: nat, rest: string) | Short | NotDigit

  /** Reads digits up to the space; `n` is the value of those already read. */
  function ReadHeader(s: string, n: nat): Header {
    if s == [] then Short
    else if s[0] == ' ' then Count(n, s[1..])
    else if IsDigit(s[0]) then ReadHeader(s[1..], 10 * n + (s[0] as int - '0' as int))
    else NotDigit
  }

  datatype Decoded = Message(msg: string, rest: string) | Incomplete | Malformed

  function DecodeOne(s: string): (d: Decoded)
    ensures d.Message? ==> |d.rest| < |s|
  {
    if s == [] then Incomplete
    else if !IsDigit(s[0]) then Malformed
    else
      HeaderShortens(s, 0);
      match ReadHeader(s, 0)
      case Short => Incomplete
      case NotDigit => Malformed
      case Count(n, rest) => if |rest| < n then Incomplete else Message(rest[..n], rest[n..])
  }

  lemma {:induction false} HeaderShortens(s: string, n: nat)
    ensures ReadHeader(s, n).Count? ==> |ReadHeader(s, n).rest| < |s|
  {
    if s != [] && s[0] != ' ' && IsDigit(s[0]) { HeaderShortens(s[1..], 10 * n + (s[0] as int - '0' as int)); }
  }

  /** All complete messages, and what is left over; None when the stream is malformed. */
  function DecodeAll(s: string): Option<(seq<string>, string)>
    decreases |s|
  {
    match DecodeOne(s)
    case Malformed => None
    case Incomplete => Some(([], s))
    case Message(m, rest) =>
      match DecodeAll(rest)
      case None => None
      case Some((ms, left)) => Some(([m] + ms, left))
  }

  // ----- framing and decoding are inverse

  /** The value of `n`'s digits followed by k's. */
  function Joined(n: nat, k: nat): nat {
    if k < 10 then 10 * n + k else 10 * Joined(n, k / 10) + k % 10
  }

  lemma {:induction false} JoinedZero(k: nat)
    ensures Joined(0, k) == k
  {
    if k >= 10 { JoinedZero(k / 10); }
  }

  lemma {:induction false} HeaderReadsItoa(k: nat, t: string, n: nat)
    ensures ReadHeader(Itoa(k) + t, n) == ReadHeader(t, Joined(n, k))
    decreases k
  {
    if k < 10 {
      assert ([Digit(k)] + t)[1..] == t;
    } else {
      var last := [Digit(k % 10)];
      assert Itoa(k) + t == Itoa(k / 10) + (last + t);
      HeaderReadsItoa(k / 10, last + t, n);
      assert (last + t)[1..] == t;
    }
  }

  lemma {:induction false} ItoaDigits(k: nat)
    ensures Itoa(k) != [] && forall c | c in Itoa(k) :: IsDigit(c)
    ensures Itoa(k)[0] == '0' <==> k == 0
  {
    if k >= 10 {
      ItoaDigits(k / 10);
      assert Itoa(k)[0] == Itoa(k / 10)[0];
    }
  }

  /** A frame is recognised whatever follows it. */
  lemma DecodesFrame(msg: string, rest: string)
    ensures DecodeOne(Frame(msg) + rest) == Message(msg, rest)
  {
    var s := Frame(msg) + rest;
    var t := " " + (msg + rest);
    assert s == Itoa(|msg|) + t;
    ItoaDigits(|msg|);
    HeaderReadsItoa(|msg|, t, 0);
    JoinedZero(|msg|);
    assert t[1..] == msg + rest;
    assert (msg + rest)[..|msg|] == msg && (msg + rest)[|msg|..] == rest;
    assert s[0] == Itoa(|msg|)[0] && Itoa(|msg|)[0] in Itoa(|msg|);
  }

  lemma {:induction false} DigitsAreShort(s: string, n: nat)
    requires forall c | c in s :: IsDigit(c)
    ensures ReadHeader(s, n) == Short
  {
    if s == [] {
    } else {
      assert s[0] in s;
      DigitsAreShort(s[1..], 10 * n + (s[0] as int - '0' as int));
    }
  }

  ghost predicate StrictPrefix(p: string, s: string) { p <= s && p != s }

  /** A frame cut off anywhere is neither a message nor an error. */
  lemma CutFrameIncomplete(p: string, msg: string)
    requires StrictPrefix(p, Frame(msg))
    ensures DecodeOne(p) == Incomplete
  {
    var digits := Itoa(|msg|);
    ItoaDigits(|msg|);
    if p != [] {
      assert p[0] == digits[0] && digits[0] in digits;
      if |p| <= |digits| {
        assert forall i | 0 <= i < |p| :: p[i] == digits[i] && digits[i] in digits;
        DigitsAreShort(p, 0);
      } else {
        var body := p[|digits| + 1..];
        assert p == digits + (" " + body);
        HeaderReadsItoa(|msg|, " " + body, 0);
        JoinedZero(|msg|);
        assert (" " + body)[1..] == body;
        assert |p| < |Frame(msg)|;
      }
    }
  }

  function Frames(msgs: seq<string>): string {
    if msgs == [] then [] else Frames(msgs[..|msgs| - 1]) + Frame(msgs[|msgs| - 1])
  }

  lemma DecodeAllStep(msg: string, s: string)
    requires DecodeAll(s).Some?
    ensures DecodeAll(Frame(msg) + s) == Some(([msg] + DecodeAll(s).value.0, DecodeAll(s).value.1))
  {
    DecodesFrame(msg, s);
  }

  lemma {:induction false} DecodeAllPrepends(msgs: seq<string>, s: string)
    requires DecodeAll(s).Some?
    ensures DecodeAll(Frames(msgs) + s) == Some((msgs + DecodeAll(s).value.0, DecodeAll(s).value.1))
    decreases |msgs|
  {
    var found := DecodeAll(s).value.0;
    if msgs == [] {
      assert Frames(msgs) + s == s && msgs + found == found;
    } else {
      var init, last := msgs[..|msgs| - 1], msgs[|msgs| - 1];
      DecodeAllStep(last, s);
      DecodeAllPrepends(init, Frame(last) + s);
      ConcatAssociates(Frames(init), Frame(last), s);
      ConcatAssociates(init, [last], found);
      assert msgs == init + [last];
    }
  }

  /** Self-delimiting: frames one after another, then a cut-off one, decode to exactly their messages. */
  lemma StreamDecodes(msgs: seq<string>, tail: string, cut: string)
    requires tail == [] || StrictPrefix(tail, Frame(cut))
    ensures DecodeAll(Frames(msgs) + tail) == Some((msgs, tail))
  {
    if tail != [] { CutFrameIncomplete(tail, cut); }
    DecodeAllPrepends(msgs, tail);
    assert msgs + [] == msgs;
  }

  /** MSG-LEN starts with a non-zero digit, as the RFC asks, exactly for non-empty messages. */
  lemma LeadingDigitNonZero(msg: string)
    ensures Frame(msg)[0] != '0' <==> msg != ""
  {
    ItoaDigits(|msg|);
    assert Frame(msg)[0] == Itoa(|msg|)[0];
  }
}
