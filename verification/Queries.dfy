/**
 What a written query asks for: printing a query and parsing it gives the query back, so a message
 matches exactly when some group has each of its words, quoted or bare, present or, behind a minus
 sign, absent (apps/syslog-bucket/internal/rules/textsearch.go).
 */
module Queries {
  import opened Common
  import opened Lexer
  import opened Websearch

  // ----- writing items down

  /** An item and what stands before it: separators, and the minus signs it is negated with. */
  datatype Piece = Piece(lead: string, it: Item)

  function Body(it: Item): string { if it.phrase then Quoted(it.text) else it.text }

  function Spelled(ps: seq<Piece>, trail: string): string {
    if ps == [] then trail else ps[0].lead + (Body(ps[0].it) + Spelled(ps[1..], trail))
  }

  function Items(ps: seq<Piece>): seq<Item> { seq(|ps|, i requires 0 <= i < |ps| => ps[i].it) }

  ghost predicate Lead(s: string) { forall c | c in s :: c == '-' || Separator(c) }

  /** A bare word has no separator, no quote and no leading minus; quoted text only lacks the quote. */
  ghost predicate Printable(it: Item) {
    && '"' !in it.text
    && (!it.phrase ==> it.text != "" && it.text[0] != '-' && forall c | c in it.text :: !Separator(c))
  }

  /** What follows a bare word does not run into it. */
  ghost predicate Apart(rest: string) { rest == "" || Separator(rest[0]) || rest[0] == '"' }

  ghost predicate Proper(p: Piece) { Lead(p.lead) && CountOf(p.lead, '-') == p.it.neg && Printable(p.it) }

  ghost predicate Spells(ps: seq<Piece>, trail: string) {
    if ps == [] then Lead(trail)
    else Proper(ps[0]) && (!ps[0].it.phrase ==> Apart(Spelled(ps[1..], trail))) && Spells(ps[1..], trail)
  }

  /** The query text `q` spells these items. */
  ghost predicate Reads(q: string, items: seq<Item>) {
    exists ps, trail :: Spells(ps, trail) && Spelled(ps, trail) == q && Items(ps) == items
  }

  lemma {:induction false} LeadIsRead(q: string, i: nat, lead: string, neg: nat)
    requires i + |lead| <= |q| && q[i..i + |lead|] == lead && Lead(lead)
    ensures ItemsFrom(q, i, neg) == ItemsFrom(q, i + |lead|, neg + CountOf(lead, '-'))
    decreases |lead|
  {
    if lead != "" {
      assert q[i] == lead[0] && lead[0] in lead;
      assert q[i + 1..i + 1 + |lead[1..]|] == lead[1..];
      LeadIsRead(q, i + 1, lead[1..], neg + if lead[0] == '-' then 1 else 0);
    }
  }

  lemma WordIsRead(q: string, i: nat, j: nat, it: Item)
    requires i <= j <= |q| && q[i..j] == it.text && Apart(q[j..]) && !it.phrase && Printable(it)
    ensures ItemsFrom(q, i, it.neg) == [it] + ItemsFrom(q, j, 0)
  {
    forall k | i <= k < j ensures !Separator(q[k]) && q[k] != '"' {
      assert q[k] == it.text[k - i];
    }
    assert q[i] == it.text[0];
    assert j < |q| ==> q[j] == q[j..][0];
    assert WordEnd(q, i) == j;
  }

  lemma QuoteIsRead(q: string, i: nat, j: nat, it: Item)
    requires i <= j <= |q| && q[i..j] == Quoted(it.text) && it.phrase && Printable(it)
    ensures ItemsFrom(q, i, it.neg) == [it] + ItemsFrom(q, j, 0)
  {
    assert forall k | i <= k < j :: q[k] == Quoted(it.text)[k - i];
    assert q[i] == '"' && q[j - 1] == '"';
    forall k | i + 1 <= k < j - 1 ensures q[k] != '"' {
      assert q[k] == it.text[k - i - 1];
    }
    QuoteEndsAt(q, i + 1, j - 1);
    assert q[i + 1..j - 1] == it.text;
  }

  lemma Slices(q: string, i: nat, x: string, y: string)
    requires i <= |q| && q[i..] == x + y
    ensures i + |x| <= |q| && q[i..i + |x|] == x && q[i + |x|..] == y
  {
    assert q[i..i + |x|] == q[i..][..|x|];
    assert q[i + |x|..] == q[i..][|x|..];
  }

  lemma BodyIsRead(q: string, i: nat, it: Item, rest: string)
    requires i <= |q| && q[i..] == Body(it) + rest && Printable(it) && (!it.phrase ==> Apart(rest))
    ensures var j := i + |Body(it)|;
            j <= |q| && q[j..] == rest && ItemsFrom(q, i, it.neg) == [it] + ItemsFrom(q, j, 0)
  {
    Slices(q, i, Body(it), rest);
    if it.phrase {
      QuoteIsRead(q, i, i + |Body(it)|, it);
    } else {
      WordIsRead(q, i, i + |Body(it)|, it);
    }
  }

  lemma ThreeSlices(q: string, i: nat, b: nat, j: nat, x: string, y: string, z: string)
    requires i <= |q| && q[i..] == x + (y + z) && b == i + |x| && j == b + |y|
    ensures b <= j <= |q| && q[i..b] == x && q[b..] == y + z && q[j..] == z
  {
    Slices(q, i, x, y + z);
    Slices(q, b, y, z);
  }

  /** The items from `i` on, when that is where an item's lead starts. */
  lemma ItemBehindLead(q: string, i: nat, p: Piece)
    requires i + |p.lead| <= |q| && q[i..i + |p.lead|] == p.lead && Proper(p)
    ensures ItemsFrom(q, i, 0) == ItemsFrom(q, i + |p.lead|, p.it.neg)
  {
    LeadIsRead(q, i, p.lead, 0);
  }

  lemma PieceIsRead(q: string, i: nat, b: nat, j: nat, p: Piece, rest: string)
    requires i <= b <= j <= |q| && b == i + |p.lead| && q[i..b] == p.lead
    requires j == b + |Body(p.it)| && q[b..] == Body(p.it) + rest
    requires Proper(p) && (!p.it.phrase ==> Apart(rest))
    ensures ItemsFrom(q, i, 0) == [p.it] + ItemsFrom(q, j, 0)
  {
    ItemBehindLead(q, i, p);
    BodyIsRead(q, b, p.it, rest);
  }

  lemma NextPieceStarts(q: string, i: nat, p: Piece, rest: string) returns (j: nat)
    requires i <= |q| && q[i..] == p.lead + (Body(p.it) + rest) && Proper(p) && (!p.it.phrase ==> Apart(rest))
    ensures j <= |q| && q[j..] == rest && ItemsFrom(q, i, 0) == [p.it] + ItemsFrom(q, j, 0)
  {
    var b := i + |p.lead|;
    j := b + |Body(p.it)|;
    ThreeSlices(q, i, b, j, p.lead, Body(p.it), rest);
    PieceIsRead(q, i, b, j, p, rest);
  }

  lemma TrailIsRead(q: string, i: nat, trail: string)
    requires i <= |q| && q[i..] == trail && Lead(trail)
    ensures ItemsFrom(q, i, 0) == []
  {
    assert q[i..i + |trail|] == trail;
    LeadIsRead(q, i, trail, 0);
  }

  lemma {:induction false} PiecesAreRead(q: string, i: nat, ps: seq<Piece>, trail: string)
    requires i <= |q| && q[i..] == Spelled(ps, trail) && Spells(ps, trail)
    ensures ItemsFrom(q, i, 0) == Items(ps)
    decreases |ps|
  {
    if ps == [] {
      TrailIsRead(q, i, trail);
    } else {
      var p, more := ps[0], ps[1..];
      var j := NextPieceStarts(q, i, p, Spelled(more, trail));
      PiecesAreRead(q, j, more, trail);
      ItemsCons(p, more);
      assert ps == [p] + more;
    }
  }

  lemma ItemsCons(p: Piece, ps: seq<Piece>)
    ensures Items([p] + ps) == [p.it] + Items(ps)
  {
  }

  /** Splitting undoes spelling, however the items are set apart. */
  lemma SplittingUndoesSpelling(q: string, items: seq<Item>)
    requires Reads(q, items)
    ensures ItemsFrom(q, 0, 0) == items
  {
    var ps, trail :| Spells(ps, trail) && Spelled(ps, trail) == q && Items(ps) == items;
    assert q[0..] == q;
    PiecesAreRead(q, 0, ps, trail);
  }

  // ----- groups joined by an operator

  /** The groups one after the other, `op` between them. */
  function Joined<T>(groups: seq<seq<T>>, op: T): seq<T> {
    if groups == [] then []
    else if |groups| == 1 then groups[0]
    else Joined(groups[..|groups| - 1], op) + ([op] + groups[|groups| - 1])
  }

  function TermsOf(rs: seq<Operand>): seq<Term> { seq(|rs|, i requires 0 <= i < |rs| => rs[i].term) }

  function TermGroups(groups: seq<seq<Operand>>): Groups {
    seq(|groups|, i requires 0 <= i < |groups| => TermsOf(groups[i]))
  }

  ghost predicate NoOperators(g: seq<Operand>) { g != [] && forall r | r in g :: !r.isOr }

  lemma {:induction false} TermsAreRead(rs: seq<Operand>, p: nat, g: seq<Operand>)
    requires p + |g| <= |rs| && rs[p..p + |g|] == g && NoOperators(g)
    ensures var before := GroupedTo(rs, p);
            GroupedTo(rs, p + |g|) == Grouping(before.groups, before.cur + TermsOf(g), false)
    decreases |g|
  {
    var n := |g| - 1;
    var before := GroupedTo(rs, p);
    assert rs[p + n] == g[n] && g[n] in g;
    if n > 0 {
      var init := g[..n];
      assert rs[p..p + n] == init && forall r | r in init :: r in g;
      TermsAreRead(rs, p, init);
      assert TermsOf(g) == TermsOf(init) + [g[n].term];
      ConcatAssociates(before.cur, TermsOf(init), [g[n].term]);
    } else {
      assert TermsOf(g) == [g[n].term];
    }
  }

  lemma OperatorIsRead(rs: seq<Operand>, p: nat)
    requires p < |rs| - 1 && rs[p].isOr && GroupedTo(rs, p).cur != [] && !GroupedTo(rs, p).prevWasOr
    ensures GroupedTo(rs, p + 1) == Grouping(GroupedTo(rs, p).groups + [GroupedTo(rs, p).cur], [], true)
  {
  }

  /** One more group behind an operator. */
  lemma NextGroupIsRead(rs: seq<Operand>, p: nat, g: seq<Operand>)
    requires p + 1 + |g| <= |rs| && rs[p + 1..p + 1 + |g|] == g && NoOperators(g)
    requires rs[p].isOr && GroupedTo(rs, p).cur != [] && !GroupedTo(rs, p).prevWasOr
    ensures GroupedTo(rs, p + 1 + |g|) == Grouping(GroupedTo(rs, p).groups + [GroupedTo(rs, p).cur], TermsOf(g), false)
  {
    OperatorIsRead(rs, p);
    TermsAreRead(rs, p + 1, g);
    assert [] + TermsOf(g) == TermsOf(g);
  }

  lemma JoinedPrefix(rs: seq<Operand>, groups: seq<seq<Operand>>, op: Operand)
    requires |groups| > 1 && Joined(groups, op) <= rs
    ensures var front, g := groups[..|groups| - 1], groups[|groups| - 1];
            var p := |Joined(front, op)|;
            && Joined(front, op) <= rs && p + 1 + |g| == |Joined(groups, op)| <= |rs|
            && rs[p] == op && rs[p + 1..p + 1 + |g|] == g
  {
    var front, g := groups[..|groups| - 1], groups[|groups| - 1];
    var p := |Joined(front, op)|;
    assert Joined(groups, op) == rs[..p + 1 + |g|];
    assert rs[p] == Joined(groups, op)[p];
    assert rs[p + 1..p + 1 + |g|] == Joined(groups, op)[p + 1..];
  }

  lemma TermGroupsSnoc(groups: seq<seq<Operand>>)
    requires groups != []
    ensures var n := |groups| - 1;
            TermGroups(groups[..n]) + [TermsOf(groups[n])] == TermGroups(groups)
  {
  }

  lemma {:induction false} GroupsAreRead(rs: seq<Operand>, groups: seq<seq<Operand>>, op: Operand)
    requires groups != [] && op.isOr && Joined(groups, op) <= rs && forall g | g in groups :: NoOperators(g)
    ensures var last := |groups| - 1;
            GroupedTo(rs, |Joined(groups, op)|) == Grouping(TermGroups(groups[..last]), TermsOf(groups[last]), false)
    decreases |groups|
  {
    var last := |groups| - 1;
    assert NoOperators(groups[last]);
    if last == 0 {
      TermsAreRead(rs, 0, groups[0]);
      assert [] + TermsOf(groups[0]) == TermsOf(groups[0]);
    } else {
      var front := groups[..last];
      JoinedPrefix(rs, groups, op);
      GroupsAreRead(rs, front, op);
      assert NoOperators(front[last - 1]);
      NextGroupIsRead(rs, |Joined(front, op)|, groups[last]);
      TermGroupsSnoc(front);
    }
  }

  lemma GroupingUndoesJoining(groups: seq<seq<Operand>>, op: Operand)
    requires op.isOr && forall g | g in groups :: NoOperators(g)
    ensures Grouped(Joined(groups, op)) == TermGroups(groups)
  {
    if groups == [] {
    } else {
      var last := |groups| - 1;
      GroupsAreRead(Joined(groups, op), groups, op);
      assert groups[last] in groups;
      TermGroupsSnoc(groups);
    }
  }

  // ----- from items to terms

  lemma ResolvedSnoc(a: Alphabet, x: seq<Item>, it: Item)
    ensures Resolved(a, x + [it]) == Resolved(a, x) + OperandOf(a, it)
  {
    assert (x + [it])[..|x|] == x;
  }

  lemma {:induction false} ResolvedConcat(a: Alphabet, x: seq<Item>, y: seq<Item>)
    ensures Resolved(a, x + y) == Resolved(a, x) + Resolved(a, y)
    decreases |y|
  {
    if y == [] {
      assert x + y == x;
    } else {
      var n := |y| - 1;
      var init, last := y[..n], y[n];
      assert y == init + [last] && x + y == (x + init) + [last];
      ResolvedConcat(a, x, init);
      ResolvedSnoc(a, x + init, last);
      ResolvedSnoc(a, init, last);
      ConcatAssociates(Resolved(a, x), Resolved(a, init), OperandOf(a, last));
    }
  }

  function ResolvedGroups(a: Alphabet, groups: seq<seq<Item>>): seq<seq<Operand>> {
    seq(|groups|, i requires 0 <= i < |groups| => Resolved(a, groups[i]))
  }

  lemma {:induction false} ResolvedJoined(a: Alphabet, groups: seq<seq<Item>>, op: Item, r: Operand)
    requires OperandOf(a, op) == [r]
    ensures Resolved(a, Joined(groups, op)) == Joined(ResolvedGroups(a, groups), r)
    decreases |groups|
  {
    var rgs := ResolvedGroups(a, groups);
    if |groups| > 1 {
      var last := |groups| - 1;
      var front := groups[..last];
      ResolvedJoined(a, front, op, r);
      assert rgs[..last] == ResolvedGroups(a, front);
      assert [op][..0] == [] && Resolved(a, [op]) == [r];
      ResolvedConcat(a, [op], groups[last]);
      ResolvedConcat(a, Joined(front, op), [op] + groups[last]);
    }
  }

  /** A bare word that folds to "or" and has lexemes. */
  ghost predicate OrWord(a: Alphabet, word: string) {
    Printable(Item(word, false, 0)) && Lexemes(a, word) != [] && Translate(a.lower, word) == "or"
  }

  /** A group worth writing: some item has lexemes, and none reads as the operator. */
  ghost predicate Group(a: Alphabet, g: seq<Item>) {
    && (forall it | it in g :: Printable(it) && !(!it.phrase && it.neg == 0 && Translate(a.lower, it.text) == "or"))
    && exists it | it in g :: Lexemes(a, it.text) != []
  }

  /** The message has the item's lexemes side by side, or lacks them where an odd number of minus signs asks for that. */
  ghost predicate Satisfied(a: Alphabet, lex: seq<string>, it: Item) {
    Lexemes(a, it.text) == [] || (Contains(lex, Lexemes(a, it.text)) <==> it.neg % 2 == 0)
  }

  lemma {:induction false} GroupResolves(a: Alphabet, g: seq<Item>, lex: seq<string>)
    requires forall it | it in g :: Printable(it) && !(!it.phrase && it.neg == 0 && Translate(a.lower, it.text) == "or")
    ensures var rs := Resolved(a, g);
            && (forall r | r in rs :: !r.isOr)
            && ((exists it | it in g :: Lexemes(a, it.text) != []) ==> rs != [])
            && (GroupHolds(lex, TermsOf(rs)) <==> forall it | it in g :: Satisfied(a, lex, it))
    decreases |g|
  {
    if g != [] {
      var n := |g| - 1;
      var it, init := g[n], g[..n];
      assert it in g && forall x | x in init :: x in g;
      assert g == init + [it];
      GroupResolves(a, init, lex);
      var more := OperandOf(a, it);
      TermsOfConcat(Resolved(a, init), more);
      TermHoldsIfSatisfied(a, lex, it);
      HoldsConcat(lex, TermsOf(Resolved(a, init)), TermsOf(more));
    }
  }

  lemma TermsOfConcat(x: seq<Operand>, y: seq<Operand>)
    ensures TermsOf(x + y) == TermsOf(x) + TermsOf(y)
  {
  }

  lemma HoldsConcat(lex: seq<string>, x: seq<Term>, y: seq<Term>)
    ensures GroupHolds(lex, x + y) <==> GroupHolds(lex, x) && GroupHolds(lex, y)
  {
    assert forall t | t in x :: t in x + y;
    assert forall t | t in y :: t in x + y;
  }

  lemma TermHoldsIfSatisfied(a: Alphabet, lex: seq<string>, it: Item)
    ensures GroupHolds(lex, TermsOf(OperandOf(a, it))) <==> Satisfied(a, lex, it)
  {
    var rs := OperandOf(a, it);
    if rs != [] {
      assert TermsOf(rs) == [rs[0].term];
      assert rs[0].term in TermsOf(rs);
    } else {
      assert TermsOf(rs) == [];
    }
  }

  /**
   What a written query means: however the items of the groups and the `or` between them are set
   apart, a message matches exactly when it satisfies every item of some group.
   */
  lemma MatchesAsWritten(a: Alphabet, msg: string, q: string, groups: seq<seq<Item>>, or: string)
    requires Reads(q, Joined(groups, Item(or, false, 0)))
    requires OrWord(a, or) && forall g | g in groups :: Group(a, g)
    ensures TextMatch(a, msg, q) <==>
            exists g | g in groups :: forall it | it in g :: Satisfied(a, Lexemes(a, msg), it)
  {
    var lex := Lexemes(a, msg);
    ParsingUndoesWriting(a, q, groups, or);
    var tgs := TermGroups(ResolvedGroups(a, groups));
    forall i: nat | i < |groups|
      ensures GroupHolds(lex, tgs[i]) <==> forall it | it in groups[i] :: Satisfied(a, lex, it)
    {
      assert groups[i] in groups;
      GroupResolves(a, groups[i], lex);
    }
    if TextMatch(a, msg, q) {
      var g :| g in tgs && GroupHolds(lex, g);
      var i :| 0 <= i < |tgs| && tgs[i] == g;
      assert groups[i] in groups;
    }
    if exists g | g in groups :: forall it | it in g :: Satisfied(a, lex, it) {
      var g :| g in groups && forall it | it in g :: Satisfied(a, lex, it);
      var i :| 0 <= i < |groups| && groups[i] == g;
      assert tgs[i] in tgs;
    }
  }

  /** Parsing gives back the groups a query was written from, items without lexemes left out. */
  lemma ParsingUndoesWriting(a: Alphabet, q: string, groups: seq<seq<Item>>, or: string)
    requires Reads(q, Joined(groups, Item(or, false, 0)))
    requires OrWord(a, or) && forall g | g in groups :: Group(a, g)
    ensures Parsed(a, q) == TermGroups(ResolvedGroups(a, groups))
  {
    SplittingUndoesSpelling(q, Joined(groups, Item(or, false, 0)));
    var r := Operand(Term(Lexemes(a, or), false), true);
    ResolvedJoined(a, groups, Item(or, false, 0), r);
    var rgs := ResolvedGroups(a, groups);
    forall g | g in rgs ensures NoOperators(g) {
      var i :| 0 <= i < |rgs| && g == rgs[i];
      assert groups[i] in groups;
      GroupResolves(a, groups[i], []);
    }
    GroupingUndoesJoining(rgs, r);
  }

  // ----- bare words

  /** A bare word with lexemes that is not the operator. */
  ghost predicate Word(a: Alphabet, w: string) {
    Printable(Item(w, false, 0)) && Lexemes(a, w) != [] && Translate(a.lower, w) != "or"
  }

  ghost predicate Has(a: Alphabet, msg: string, w: string) { Contains(Lexemes(a, msg), Lexemes(a, w)) }

  /** What a word asks for, with a minus sign in front or without. */
  ghost predicate Asked(a: Alphabet, msg: string, w: string, minus: bool) { Has(a, msg, w) != minus }

  function Written(w: string, minus: bool): string { if minus then "-" + w else w }

  function WordItem(w: string, minus: bool): Item { Item(w, false, if minus then 1 else 0) }

  lemma NothingReads()
    ensures Reads("", [])
  {
    assert Spells([], "") && Spelled([], "") == "" && Items([]) == [];
  }

  lemma PieceReads(p: Piece, q: string, items: seq<Item>)
    requires Proper(p) && Reads(q, items) && (!p.it.phrase ==> Apart(q))
    ensures Reads(p.lead + (Body(p.it) + q), [p.it] + items)
  {
    var ps, trail :| Spells(ps, trail) && Spelled(ps, trail) == q && Items(ps) == items;
    var all := [p] + ps;
    assert all[1..] == ps && all[0] == p;
    ItemsCons(p, ps);
    assert Spells(all, trail) && Spelled(all, trail) == p.lead + (Body(p.it) + q);
  }

  lemma GapIsProper(gap: string, it: Item)
    requires gap in {"", " "} && it.neg < 2 && Printable(it)
    ensures Proper(Piece(gap + Written("", it.neg == 1), it))
  {
    assert CountOf("", '-') == 0 && "-"[1..] == "" && " -"[1..] == "-" && " "[1..] == "";
  }

  lemma WordReads(gap: string, w: string, minus: bool, q: string, items: seq<Item>, text: string)
    requires gap in {"", " "} && Printable(WordItem(w, minus)) && Apart(q) && Reads(q, items)
    requires text == gap + (Written(w, minus) + q)
    ensures Reads(text, [WordItem(w, minus)] + items)
  {
    var p := Piece(gap + Written("", minus), WordItem(w, minus));
    GapIsProper(gap, p.it);
    PieceReads(p, q, items);
    GapTogether(gap, w, minus, q);
  }

  lemma GapTogether(gap: string, w: string, minus: bool, q: string)
    ensures (gap + Written("", minus)) + (w + q) == gap + (Written(w, minus) + q)
  {
    if minus { assert "-" + "" == "-"; }
  }

  lemma LastWordReads(gap: string, w: string, minus: bool)
    requires gap in {"", " "} && Printable(WordItem(w, minus))
    ensures Reads(gap + Written(w, minus), [WordItem(w, minus)])
  {
    NothingReads();
    assert Written(w, minus) + "" == Written(w, minus);
    WordReads(gap, w, minus, "", [], gap + Written(w, minus));
    assert [WordItem(w, minus)] + [] == [WordItem(w, minus)];
  }

  lemma WordsMeaning(a: Alphabet, msg: string, w: string, minus: bool)
    requires Word(a, w)
    ensures Printable(WordItem(w, minus)) && Group(a, [WordItem(w, minus)])
    ensures Satisfied(a, Lexemes(a, msg), WordItem(w, minus)) <==> Asked(a, msg, w, minus)
  {
    var it := WordItem(w, minus);
    assert it in [it] && Lexemes(a, it.text) != [] && Printable(it);
  }

  /** A bare word asks for its lexemes; a minus sign in front asks for the opposite. */
  lemma BareWord(a: Alphabet, msg: string, w: string, minus: bool, or: string)
    requires Word(a, w) && OrWord(a, or)
    ensures TextMatch(a, msg, Written(w, minus)) <==> Asked(a, msg, w, minus)
  {
    var it := WordItem(w, minus);
    WordsMeaning(a, msg, w, minus);
    LastWordReads("", w, minus);
    assert "" + Written(w, minus) == Written(w, minus);
    assert it in [it] && [it] in [[it]];
    MatchesAsWritten(a, msg, Written(w, minus), [[it]], or);
  }

  lemma GroupOfTwo(a: Alphabet, x: Item, y: Item)
    requires Group(a, [x]) && Group(a, [y])
    ensures Group(a, [x, y])
  {
    assert x in [x] && y in [y] && x in [x, y];
  }

  lemma BothInGroup(a: Alphabet, msg: string, q: string, x: Item, y: Item, or: string)
    requires OrWord(a, or) && Group(a, [x]) && Group(a, [y]) && Reads(q, [x] + [y])
    ensures TextMatch(a, msg, q) <==> Satisfied(a, Lexemes(a, msg), x) && Satisfied(a, Lexemes(a, msg), y)
  {
    GroupOfTwo(a, x, y);
    assert [x] + [y] == [x, y] && x in [x, y] && y in [x, y] && [x, y] in [[x, y]];
    MatchesAsWritten(a, msg, q, [[x, y]], or);
  }

  /** Two bare words ask for both; a minus sign excludes only the word it stands on. */
  lemma TwoWords(a: Alphabet, msg: string, u: string, notU: bool, v: string, notV: bool, or: string, q: string)
    requires Word(a, u) && Word(a, v) && OrWord(a, or) && q == Written(u, notU) + (" " + Written(v, notV))
    ensures TextMatch(a, msg, q) <==> Asked(a, msg, u, notU) && Asked(a, msg, v, notV)
  {
    WordsMeaning(a, msg, u, notU);
    WordsMeaning(a, msg, v, notV);
    TwoWordsRead(u, notU, v, notV, q);
    BothInGroup(a, msg, q, WordItem(u, notU), WordItem(v, notV), or);
  }

  lemma TwoWordsRead(u: string, notU: bool, v: string, notV: bool, q: string)
    requires Printable(WordItem(u, notU)) && Printable(WordItem(v, notV))
    requires q == Written(u, notU) + (" " + Written(v, notV))
    ensures Reads(q, [WordItem(u, notU)] + [WordItem(v, notV)])
  {
    LastWordReads(" ", v, notV);
    var rest := " " + Written(v, notV);
    assert q == "" + (Written(u, notU) + rest);
    WordReads("", u, notU, rest, [WordItem(v, notV)], q);
  }

  lemma TwoGroupsJoined(x: Item, y: Item, op: Item)
    ensures Joined([[x], [y]], op) == [x] + ([op] + [y])
  {
    assert [[x], [y]][..1] == [[x]];
  }

  lemma EitherGroup(a: Alphabet, msg: string, q: string, x: Item, y: Item, or: string)
    requires OrWord(a, or) && Group(a, [x]) && Group(a, [y]) && Reads(q, [x] + ([Item(or, false, 0)] + [y]))
    ensures TextMatch(a, msg, q) <==> Satisfied(a, Lexemes(a, msg), x) || Satisfied(a, Lexemes(a, msg), y)
  {
    var groups := [[x], [y]];
    TwoGroupsJoined(x, y, Item(or, false, 0));
    assert x in [x] && y in [y] && [x] in groups && [y] in groups;
    MatchesAsWritten(a, msg, q, groups, or);
  }

  /** An `or` between two words asks for either. */
  lemma EitherWord(a: Alphabet, msg: string, u: string, notU: bool, v: string, notV: bool, or: string, q: string)
    requires Word(a, u) && Word(a, v) && OrWord(a, or)
    requires q == Written(u, notU) + (" " + (or + (" " + Written(v, notV))))
    ensures TextMatch(a, msg, q) <==> Asked(a, msg, u, notU) || Asked(a, msg, v, notV)
  {
    WordsMeaning(a, msg, u, notU);
    WordsMeaning(a, msg, v, notV);
    EitherWordReads(u, notU, v, notV, or, q);
    EitherGroup(a, msg, q, WordItem(u, notU), WordItem(v, notV), or);
  }

  lemma EitherWordReads(u: string, notU: bool, v: string, notV: bool, or: string, q: string)
    requires Printable(WordItem(u, notU)) && Printable(WordItem(v, notV)) && Printable(Item(or, false, 0))
    requires q == Written(u, notU) + (" " + (or + (" " + Written(v, notV))))
    ensures Reads(q, [WordItem(u, notU)] + ([Item(or, false, 0)] + [WordItem(v, notV)]))
  {
    LastWordReads(" ", v, notV);
    var last := " " + Written(v, notV);
    var rest := " " + (or + last);
    WordReads(" ", or, false, last, [WordItem(v, notV)], rest);
    assert q == "" + (Written(u, notU) + rest);
    WordReads("", u, notU, rest, [Item(or, false, 0)] + [WordItem(v, notV)], q);
  }

  lemma OrIsOneChunk(a: Alphabet)
    requires a.letter('o') && a.letter('r')
    ensures Lexemes(a, "or") == ChunkLexemes(a, "or")
  {
    var r := RulesOf(a);
    assert ChunkEnd(r, "or", 0) == 2;
    assert TokenSpan(r, "or", 0) == Span(0, 2);
    assert "or"[0..2] == "or";
    assert LexFrom(r, "or", 2) == [];
    LexStep(r, "or", 0);
  }

  /** Where letters are letters, "or" itself is such a word. */
  lemma OrIsAnOrWord(a: Alphabet)
    requires a.letter('o') && a.letter('r') && a.lower('o') == 'o' && a.lower('r') == 'r'
    ensures OrWord(a, "or")
  {
    OrIsOneChunk(a);
    assert Translate(a.lower, "or") == "or";
    OrTrimmed(a);
  }

  lemma OrTrimmed(a: Alphabet)
    requires Translate(a.lower, "or") == "or"
    ensures ChunkLexemes(a, "or") == ["or"]
  {
    assert TrimLeft("or", {'.', '_', '@'}) == "or" && TrimRight("or", {'.', '-', '_', '/', '@'}) == "or";
    assert TrimmedLexemes(a, "or", 2) == ["or"] by {
      assert '/' !in "or" && '_' !in "or" && '@' !in "or" && '.' !in "or" && '-' !in "or";
    }
  }
}
