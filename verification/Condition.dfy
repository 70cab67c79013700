/**
 The condition AST and its in-memory meaning: validation, the record view of an entry, and
 Match (apps/syslog-bucket/internal/rules/cond.go, Entry.FieldValue in store.go).
 */
module Condition {
  import opened Common

  type int64 = n: int | -0x8000_0000_0000_0000 <= n < 0x8000_0000_0000_0000

  /** A Go float64, rounding aside. */
  datatype Float = NaN | NegInf | PosInf | Finite(r: real)

  /** A decoded JSON condition value. */
  datatype Value = Str(s: string) | Num(f: Float) | Other

  datatype Cond = Cond(
    all: seq<Cond>,
    any: seq<Cond>,
    negated: Option<Cond>,
    field: string,
    op: string,
    value: Value,
    text: string,
    tagId: int64,
    mitre: string,
    ot: string,
    lastSeconds: int64)

  /** A value inside the structured column; numbers and nested values carry their rendered text. */
  datatype Json = JNull | JText(s: string)

  datatype Entry = Entry(
    host: string,
    appName: string,
    deviceClass: string,
    msg: string,
    status: string,
    severity: int,
    facility: Option<int>,
    priority: int,
    sourceId: Option<int>,
    receivedAt: int,
    structured: map<string, Json>,
    suppressed: bool,
    tagIds: seq<int>,
    mitre: seq<string>,
    ot: seq<string>)

  /** What the outside world supplies: the clock (ns), case folding, parsers, the text search. */
  datatype World = World(
    now: int,
    lower: char -> char,
    parseFloat: string -> Option<Float>,
    parseTime: string -> Option<int>,
    textMatch: (string, string) -> bool)

  // ----- validation

  datatype Kind = KindStr | KindNum | KindTime

  const STRUCTURED := "structured."

  /** The fields table; `structured.<key>` is text. */
  function FieldKind(field: string): Option<Kind> {
    if STRUCTURED <= field then Some(KindStr)
    else if field in {"host", "app_name", "device_class", "msg", "status"} then Some(KindStr)
    else if field in {"severity", "facility", "priority", "source_id"} then Some(KindNum)
    else if field == "received_at" then Some(KindTime)
    else None
  }

  predicate StrOp(op: string) { op in {"eq", "ne", "contains", "prefix"} }

  predicate OrdOp(op: string) { op in {"eq", "ne", "lt", "lte", "gt", "gte"} }

  function StrValue(v: Value): Option<string> {
    if v.Str? then Some(v.s) else None
  }

  function NumValue(w: World, v: Value): Option<Float> {
    match v
    case Num(f) => Some(f)
    case Str(s) => w.parseFloat(s)
    case Other => None
  }

  function TimeValue(w: World, v: Value): Option<int> {
    if v.Str? then w.parseTime(v.s) else None
  }

  function Count(b: bool): nat { if b then 1 else 0 }

  /** How many of the mutually exclusive groups the node sets. */
  function KindCount(c: Cond): nat {
    Count(c.all != []) + Count(c.any != []) + Count(c.negated.Some?) + Count(c.field != "") + Count(c.text != "")
    + Count(c.tagId != 0) + Count(c.mitre != "") + Count(c.ot != "") + Count(c.lastSeconds != 0)
  }

  predicate ValidLeaf(w: World, c: Cond) {
    match FieldKind(c.field)
    case None => false
    case Some(KindStr) => StrOp(c.op) && StrValue(c.value).Some?
    case Some(KindNum) => OrdOp(c.op) && NumValue(w, c.value).Some?
    case Some(KindTime) => OrdOp(c.op) && TimeValue(w, c.value).Some?
  }

  /** Validate returns nil. */
  predicate Valid(w: World, c: Cond) {
    && KindCount(c) <= 1
    && if c.all != [] || c.any != [] then
         (forall sub | sub in c.all :: Valid(w, sub)) && (forall sub | sub in c.any :: Valid(w, sub))
       else if c.negated.Some? then Valid(w, c.negated.value)
       else if c.field != "" then ValidLeaf(w, c)
       else c.lastSeconds >= 0
  }

  // ----- the record view

  datatype FieldVal = FStr(s: string) | FInt(n: int) | FTime(t: int)

  function FieldValue(e: Entry, name: string): Option<FieldVal> {
    if name == "host" then Some(FStr(e.host))
    else if name == "app_name" then Some(FStr(e.appName))
    else if name == "msg" then Some(FStr(e.msg))
    else if name == "status" then Some(FStr(e.status))
    else if name == "device_class" then Some(FStr(e.deviceClass))
    else if name == "severity" then Some(FInt(e.severity))
    else if name == "priority" then Some(FInt(e.priority))
    else if name == "received_at" then Some(FTime(e.receivedAt))
    else if name == "facility" then
      (if e.facility.None? then None else Some(FInt(e.facility.value)))
    else if name == "source_id" then
      (if e.sourceId.None? then None else Some(FInt(e.sourceId.value)))
    else if STRUCTURED <= name then
      var key := name[|STRUCTURED|..];
      if key in e.structured && e.structured[key].JText? then Some(FStr(e.structured[key].s)) else None
    else None
  }

  // ----- Match

  predicate FloatEq(a: Float, b: Float) { a == b && !a.NaN? }

  predicate FloatLess(a: Float, b: Float) {
    match (a, b)
    case (NaN, _) => false
    case (_, NaN) => false
    case (NegInf, _) => !b.NegInf?
    case (_, PosInf) => !a.PosInf?
    case (Finite(x), Finite(y)) => x < y
    case _ => false
  }

  predicate OrdCompare(got: Float, want: Float, op: string) {
    if op == "eq" then FloatEq(got, want)
    else if op == "ne" then !FloatEq(got, want)
    else if op == "lt" then FloatLess(got, want)
    else if op == "lte" then FloatLess(got, want) || FloatEq(got, want)
    else if op == "gt" then FloatLess(want, got)
    else FloatLess(want, got) || FloatEq(got, want)
  }

  function Sign(a: int, b: int): int { if a < b then -1 else if a > b then 1 else 0 }

  predicate MatchStr(w: World, got: string, want: string, op: string) {
    var g, x := Translate(w.lower, got), Translate(w.lower, want);
    if op == "eq" then g == x
    else if op == "ne" then g != x
    else if op == "contains" then Contains(g, x)
    else op == "prefix" && x <= g
  }

  predicate MatchLeaf(w: World, e: Entry, c: Cond) {
    match FieldValue(e, c.field)
    case None => c.op == "ne"
    case Some(FStr(s)) =>
      var want := StrValue(c.value);
      MatchStr(w, s, if want.Some? then want.value else "", c.op)
    case Some(FInt(n)) =>
      var want := NumValue(w, c.value);
      OrdCompare(Finite(n as real), if want.Some? then want.value else Finite(0.0), c.op)
    case Some(FTime(t)) =>
      var want := TimeValue(w, c.value);
      OrdCompare(Finite(Sign(t, if want.Some? then want.value else 0) as real), Finite(0.0), c.op)
  }

  const NANOS_PER_SECOND := 1_000_000_000

  const INT64_SPAN := 0x1_0000_0000_0000_0000
  const INT64_MAX := 0x7FFF_FFFF_FFFF_FFFF

  /** Two's-complement wrap-around of an int64 product. */
  function Wrap64(n: int): int {
    (n + INT64_MAX + 1) % INT64_SPAN - INT64_MAX - 1
  }

  /** time.Since saturates at the int64 range of a Duration. */
  function Since(w: World, t: int): int {
    var d := w.now - t;
    if d > INT64_MAX then INT64_MAX else if d < -INT64_MAX - 1 then -INT64_MAX - 1 else d
  }

  predicate MatchWindow(w: World, e: Entry, secs: int) {
    Since(w, e.receivedAt) <= Wrap64(secs * NANOS_PER_SECOND)
  }

  predicate Match(w: World, e: Entry, c: Cond) {
    if c.all != [] then forall sub | sub in c.all :: Match(w, e, sub)
    else if c.any != [] then exists sub | sub in c.any :: Match(w, e, sub)
    else if c.negated.Some? then !Match(w, e, c.negated.value)
    else if c.field != "" then MatchLeaf(w, e, c)
    else if c.text != "" then w.textMatch(e.msg, c.text)
    else if c.tagId != 0 then c.tagId in e.tagIds
    else if c.mitre != "" then c.mitre in e.mitre
    else if c.ot != "" then c.ot in e.ot
    else if c.lastSeconds > 0 then MatchWindow(w, e, c.lastSeconds)
    else true
  }
}
