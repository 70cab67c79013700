/**
 Free-text queries in websearch syntax: parsing into OR-groups of ANDed, possibly negated terms,
 and matching them against a message (apps/syslog-bucket/internal/rules/textsearch.go).
 */
module Websearch {
  import opened Common
  import opened Lexer

  /** A lexeme sequence that must appear contiguously, or must not. */
  datatype Term = Term(seqn: seq<string>, neg: bool)

  type Groups = seq<seq<Term>>

  // ----- splitting the query into items

  datatype Item = Item(text: string, phrase: bool, neg: nat)

  predicate Separator(c: char) {
    c in {' ', '\t', '\n', '\r', '\U{000C}', '\U{000B}', '!', '&', '|', '(', ')', ':', '<'}
  }

  /** The end of a bare word. */
  function WordEnd(q: string, i: nat): (j: nat)
    requires i <= |q|
    ensures i <= j <= |q|
    ensures i < |q| && !Separator(q[i]) && q[i] != '"' ==> i < j
  {
    RunEnd(q, i, c => !Separator(c) && c != '"')
  }

  /** The closing quote at or after `i`, or the end. */
  function QuoteEnd(q: string, i: nat): (j: nat)
    requires i <= |q|
    ensures i <= j <= |q|
  {
    RunEnd(q, i, c => c != '"')
  }

  function ItemsFrom(q: string, i: nat, neg: nat): seq<Item>
    requires i <= |q|
    decreases |q| - i
  {
    if i == |q| then []
    else if Separator(q[i]) then ItemsFrom(q, i + 1, neg)
    else if q[i] == '"' then
      var end := QuoteEnd(q, i + 1);
      [Item(q[i + 1..end], true, neg)] + ItemsFrom(q, if end < |q| then end + 1 else |q|, 0)
    else if q[i] == '-' then ItemsFrom(q, i + 1, neg + 1)
    else
      var end := WordEnd(q, i);
      [Item(q[i..end], false, neg)] + ItemsFrom(q, end, 0)
  }

  /** The cursor loop. Any query is consumed; there is no syntax error. */
  method SplitItems(q: string) returns (items: seq<Item>)
    ensures items == ItemsFrom(q, 0, 0)
  {
    items := [];
    var neg, i := 0, 0;
    while i < |q|
      invariant 0 <= i <= |q|
      invariant items + ItemsFrom(q, i, neg) == ItemsFrom(q, 0, 0)
      decreases |q| - i
    {
      if Separator(q[i]) {
        i := i + 1;
      } else if q[i] == '"' {
        var end := ScanTo(q, i + 1);
        var next := if end < |q| then end + 1 else |q|;
        ConcatAssociates(items, [Item(q[i + 1..end], true, neg)], ItemsFrom(q, next, 0));
        items := items + [Item(q[i + 1..end], true, neg)];
        i, neg := next, 0;
      } else if q[i] == '-' {
        neg := neg + 1;
        i := i + 1;
      } else {
        var j := i;
        while j < |q| && !Separator(q[j]) && q[j] != '"'
          invariant i <= j <= |q|
          invariant WordEnd(q, j) == WordEnd(q, i)
        {
          j := j + 1;
        }
        assert j == WordEnd(q, i);
        ConcatAssociates(items, [Item(q[i..j], false, neg)], ItemsFrom(q, j, 0));
        items := items + [Item(q[i..j], false, neg)];
        i, neg := j, 0;
      }
    }
  }

  method ScanTo(q: string, from: nat) returns (j: nat)
    requires from <= |q|
    ensures j == QuoteEnd(q, from)
  {
    j := from;
    while j < |q| && q[j] != '"'
      invariant from <= j <= |q|
      invariant QuoteEnd(q, j) == QuoteEnd(q, from)
    {
      j := j + 1;
    }
  }

  // ----- resolving items to operands

  /** An operand with lexemes; `isOr` marks a bare `or`, a candidate operator. */
  datatype Operand = Operand(term: Term, isOr: bool)

  function Resolved(a: Alphabet, items: seq<Item>): seq<Operand> {
    if items == [] then [] else Resolved(a, items[..|items| - 1]) + OperandOf(a, items[|items| - 1])
  }

  /** An item without lexemes is dropped. */
  function OperandOf(a: Alphabet, it: Item): seq<Operand> {
    var lex := Lexemes(a, it.text);
    if lex == [] then []
    else [Operand(Term(lex, it.neg % 2 == 1), !it.phrase && it.neg == 0 && Translate(a.lower, it.text) == "or")]
  }

  // ----- grouping operands

  datatype Grouping = Grouping(groups: Groups, cur: seq<Term>, prevWasOr: bool)

  /** The i-th operand acts as an operator: between two operands, and not right after another. */
  predicate IsOperator(rs: seq<Operand>, i: nat)
    requires i < |rs|
  {
    var g := GroupedTo(rs, i);
    rs[i].isOr && g.cur != [] && !g.prevWasOr && i < |rs| - 1
  }

  function GroupedTo(rs: seq<Operand>, n: nat): Grouping
    requires n <= |rs|
    decreases n, 0
  {
    if n == 0 then Grouping([], [], false)
    else
      var g := GroupedTo(rs, n - 1);
      var r := rs[n - 1];
      if r.isOr && g.cur != [] && !g.prevWasOr && n - 1 < |rs| - 1 then Grouping(g.groups + [g.cur], [], true)
      else Grouping(g.groups, g.cur + [r.term], false)
  }

  function Grouped(rs: seq<Operand>): Groups {
    var g := GroupedTo(rs, |rs|);
    if g.cur != [] then g.groups + [g.cur] else g.groups
  }

  method GroupOperands(rs: seq<Operand>) returns (groups: Groups)
    ensures groups == Grouped(rs)
  {
    groups := [];
    var cur: seq<Term> := [];
    var prevWasOr := false;
    for i := 0 to |rs|
      invariant Grouping(groups, cur, prevWasOr) == GroupedTo(rs, i)
    {
      if rs[i].isOr && cur != [] && !prevWasOr && i < |rs| - 1 {
        groups := groups + [cur];
        cur := [];
        prevWasOr := true;
      } else {
        cur := cur + [rs[i].term];
        prevWasOr := false;
      }
    }
    if cur != [] {
      groups := groups + [cur];
    }
  }

  function Parsed(a: Alphabet, q: string): Groups { Grouped(Resolved(a, ItemsFrom(q, 0, 0))) }

  method ResolveItem(a: Alphabet, it: Item) returns (found: seq<Operand>)
    ensures found == OperandOf(a, it)
  {
    var lex := LexemesOf(a, it.text);
    if lex == [] {
      return [];
    }
    var isOr := !it.phrase && it.neg == 0 && Translate(a.lower, it.text) == "or";
    found := [Operand(Term(lex, it.neg % 2 == 1), isOr)];
  }

  method ParseWebsearch(a: Alphabet, q: string) returns (groups: Groups)
    ensures groups == Parsed(a, q)
  {
    var items := SplitItems(q);
    var rs: seq<Operand> := [];
    for i := 0 to |items|
      invariant rs == Resolved(a, items[..i])
    {
      assert items[..i + 1][..i] == items[..i];
      var found := ResolveItem(a, items[i]);
      rs := rs + found;
    }
    assert items[..|items|] == items;
    groups := GroupOperands(rs);
  }

  // ----- matching

  method ContainsSeq(hay: seq<string>, needle: seq<string>) returns (found: bool)
    ensures found <==> Contains(hay, needle)
  {
    var i := 0;
    while i + |needle| <= |hay|
      invariant 0 <= i <= |hay| + 1
      invariant forall k | 0 <= k < i && k <= |hay| :: !(needle <= hay[k..])
    {
      var same := true;
      var j := 0;
      while j < |needle| && same
        invariant 0 <= j <= |needle|
        invariant same ==> forall k | 0 <= k < j :: hay[i + k] == needle[k]
        invariant !same ==> exists k | 0 <= k < |needle| :: hay[i + k] != needle[k]
      {
        if hay[i + j] != needle[j] {
          same := false;
        }
        j := j + 1;
      }
      if same {
        assert needle <= hay[i..];
        return true;
      }
      i := i + 1;
    }
    return false;
  }

  predicate TermHolds(lex: seq<string>, t: Term) { Contains(lex, t.seqn) != t.neg }

  predicate GroupHolds(lex: seq<string>, g: seq<Term>) { forall t | t in g :: TermHolds(lex, t) }

  /** textMatch: some group has all its terms satisfied. */
  predicate TextMatch(a: Alphabet, msg: string, q: string) {
    var lex := Lexemes(a, msg);
    exists g | g in Parsed(a, q) :: GroupHolds(lex, g)
  }

  /** Stops at the first term that fails. */
  method GroupMatches(lex: seq<string>, g: seq<Term>) returns (ok: bool)
    ensures ok == GroupHolds(lex, g)
  {
    for j := 0 to |g|
      invariant forall k | 0 <= k < j :: TermHolds(lex, g[k])
    {
      var present := ContainsSeq(lex, g[j].seqn);
      if present == g[j].neg {
        assert g[j] in g && !TermHolds(lex, g[j]);
        return false;
      }
    }
    return true;
  }

  method TextMatches(a: Alphabet, msg: string, q: string) returns (found: bool)
    ensures found == TextMatch(a, msg, q)
  {
    var groups := ParseWebsearch(a, q);
    if groups == [] {
      return false;
    }
    var lex := LexemesOf(a, msg);
    for i := 0 to |groups|
      invariant forall k | 0 <= k < i :: !GroupHolds(lex, groups[k])
    {
      var ok := GroupMatches(lex, groups[i]);
      if ok {
        return true;
      }
    }
    return false;
  }

  // ----- what the parser guarantees

  ghost predicate NoEmptyGroup(groups: Groups) { forall g | g in groups :: g != [] }

  function Flatten(groups: Groups): seq<Term> {
    if groups == [] then [] else Flatten(groups[..|groups| - 1]) + groups[|groups| - 1]
  }

  /** The operands among the first `n` that are terms, in order. */
  function TermsTo(rs: seq<Operand>, n: nat): seq<Term>
    requires n <= |rs|
  {
    if n == 0 then [] else TermsTo(rs, n - 1) + if IsOperator(rs, n - 1) then [] else [rs[n - 1].term]
  }

  function OperatorsTo(rs: seq<Operand>, n: nat): nat
    requires n <= |rs|
  {
    if n == 0 then 0 else OperatorsTo(rs, n - 1) + if IsOperator(rs, n - 1) then 1 else 0
  }

  lemma FlattenSnoc(groups: Groups, g: seq<Term>)
    ensures Flatten(groups + [g]) == Flatten(groups) + g
  {
    assert (groups + [g])[..|groups|] == groups;
  }

  lemma {:induction false} GroupingKeeps(rs: seq<Operand>, n: nat)
    requires n <= |rs|
    ensures var g := GroupedTo(rs, n);
            && NoEmptyGroup(g.groups)
            && Flatten(g.groups) + g.cur == TermsTo(rs, n)
            && |g.groups| == OperatorsTo(rs, n)
            && |TermsTo(rs, n)| + OperatorsTo(rs, n) == n
            && (g.prevWasOr <==> n > 0 && IsOperator(rs, n - 1))
            && (g.cur == [] <==> n == 0 || g.prevWasOr)
  {
    if n == 0 {
    } else {
      GroupingKeeps(rs, n - 1);
      var g := GroupedTo(rs, n - 1);
      FlattenSnoc(g.groups, g.cur);
      var h := GroupedTo(rs, n);
      if IsOperator(rs, n - 1) {
        assert h == Grouping(g.groups + [g.cur], [], true);
      } else {
        assert h == Grouping(g.groups, g.cur + [rs[n - 1].term], false);
        ConcatAssociates(Flatten(g.groups), g.cur, [rs[n - 1].term]);
      }
    }
  }

  /**
   Every operand with lexemes becomes exactly one term, in order, or one `or` operator; there
   is one group more than there are operators, and none is empty.
   */
  lemma OperandsBecomeTermsOrOperators(a: Alphabet, q: string)
    ensures var rs := Resolved(a, ItemsFrom(q, 0, 0));
            var groups := Parsed(a, q);
            && NoEmptyGroup(groups) && Flatten(groups) == TermsTo(rs, |rs|)
            && |Flatten(groups)| + OperatorsTo(rs, |rs|) == |rs|
            && (rs != [] ==> |groups| == OperatorsTo(rs, |rs|) + 1)
            && (rs == [] ==> groups == [])
  {
    var rs := Resolved(a, ItemsFrom(q, 0, 0));
    GroupingKeeps(rs, |rs|);
    var g := GroupedTo(rs, |rs|);
    FlattenSnoc(g.groups, g.cur);
  }

  /** An operator always stands between two terms. */
  lemma OperatorsStandBetweenTerms(rs: seq<Operand>, i: nat)
    requires i < |rs| && IsOperator(rs, i)
    ensures 0 < i < |rs| - 1 && !IsOperator(rs, i - 1) && !IsOperator(rs, i + 1)
  {
    GroupingKeeps(rs, i);
    GroupingKeeps(rs, i + 1);
  }

  // ----- quoting

  function Quoted(text: string): string { "\"" + text + "\"" }

  lemma {:induction false} QuoteEndsAt(q: string, i: nat, end: nat)
    requires i <= end < |q| && q[end] == '"' && forall k | i <= k < end :: q[k] != '"'
    ensures QuoteEnd(q, i) == end
    decreases end - i
  {
    if i < end { QuoteEndsAt(q, i + 1, end); }
  }

  /** A quote-free text in quotes, negated `n` times, is a single phrase. */
  lemma {:induction false} QuotedIsOneItem(text: string, q: string, i: nat, neg: nat)
    requires '"' !in text && i <= |q| && q[i..] == Quoted(text)
    ensures ItemsFrom(q, i, neg) == [Item(text, true, neg)]
  {
    var end := i + 1 + |text|;
    assert forall k | 0 <= k < |q| - i :: q[i + k] == q[i..][k];
    assert q[end] == q[i..][1 + |text|] == '"';
    forall k | i + 1 <= k < end ensures q[k] != '"' {
      assert q[k] == q[i..][k - i] == text[k - i - 1];
    }
    QuoteEndsAt(q, i + 1, end);
    assert q[i + 1..end] == text;
  }

  lemma OneItemParses(a: Alphabet, q: string, it: Item)
    requires ItemsFrom(q, 0, 0) == [it] && it.phrase && Lexemes(a, it.text) != []
    ensures Parsed(a, q) == [[Term(Lexemes(a, it.text), it.neg % 2 == 1)]]
  {
    assert [it][..0] == [];
    var r := Operand(Term(Lexemes(a, it.text), it.neg % 2 == 1), false);
    assert Resolved(a, [it]) == [r];
    assert GroupedTo([r], 0) == Grouping([], [], false);
    assert GroupedTo([r], 1) == Grouping([], [r.term], false);
  }

  /** A quoted text matches exactly the messages in which its lexemes appear side by side. */
  lemma QuotedMatchesPhrase(a: Alphabet, msg: string, text: string)
    requires '"' !in text && Lexemes(a, text) != []
    ensures TextMatch(a, msg, Quoted(text)) <==> Contains(Lexemes(a, msg), Lexemes(a, text))
  {
    assert Quoted(text)[0..] == Quoted(text);
    QuotedIsOneItem(text, Quoted(text), 0, 0);
    OneItemParses(a, Quoted(text), Item(text, true, 0));
    OneTermDecides(Lexemes(a, msg), Parsed(a, Quoted(text)), Term(Lexemes(a, text), false));
  }

  lemma OneTermDecides(lex: seq<string>, groups: Groups, t: Term)
    requires groups == [[t]]
    ensures (exists g | g in groups :: GroupHolds(lex, g)) <==> TermHolds(lex, t)
  {
    assert [t] in groups && t in [t];
  }

  lemma MinusQuotedIsOneItem(text: string)
    requires '"' !in text
    ensures ItemsFrom("-" + Quoted(text), 0, 0) == [Item(text, true, 1)]
  {
    var q := "-" + Quoted(text);
    assert q[1..] == Quoted(text);
    QuotedIsOneItem(text, q, 1, 1);
    assert q[0] == '-' && ItemsFrom(q, 0, 0) == ItemsFrom(q, 1, 1);
  }

  /** A minus sign in front turns a quoted text into its negation. */
  lemma NegatedQuoteIsComplement(a: Alphabet, msg: string, text: string)
    requires '"' !in text && Lexemes(a, text) != []
    ensures TextMatch(a, msg, "-" + Quoted(text)) <==> !TextMatch(a, msg, Quoted(text))
  {
    MinusQuotedIsOneItem(text);
    OneItemParses(a, "-" + Quoted(text), Item(text, true, 1));
    OneTermDecides(Lexemes(a, msg), Parsed(a, "-" + Quoted(text)), Term(Lexemes(a, text), true));
    QuotedMatchesPhrase(a, msg, text);
  }

  /** A quote-free message with lexemes matches its own quoted text, also inside a longer message. */
  lemma MessageMatchesItself(a: Alphabet, before: string, text: string, after: string)
    requires '"' !in text && Lexemes(a, text) != [] && SpaceSeparates(a)
    ensures TextMatch(a, text, Quoted(text))
    ensures TextMatch(a, before + " " + (text + " " + after), Quoted(text))
  {
    var lex := Lexemes(a, text);
    assert lex <= lex[0..];
    QuotedMatchesPhrase(a, text, text);
    LexemesConcat(a, text, after);
    LexemesConcat(a, before, text + " " + after);
    var whole := Lexemes(a, before + " " + (text + " " + after));
    assert whole[|Lexemes(a, before)|..] == lex + Lexemes(a, after);
    assert lex <= whole[|Lexemes(a, before)|..];
    QuotedMatchesPhrase(a, before + " " + (text + " " + after), text);
  }
}
