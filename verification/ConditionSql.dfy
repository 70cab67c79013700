/**
 The SQL side of a condition: the fragment of SQL that conditions compile to, its three-valued
 meaning over a row and a bind list, the compiler, and the proof that the two meanings agree
 (apps/syslog-bucket/internal/rules/cond.go).
 */
module ConditionSql {
  import opened Common
  import opened Condition
  import Like

  // ----- the SQL fragment

  datatype Bind = BText(s: string) | BInt(n: int) | BTime(t: int)

  datatype Scalar =
    | Column(field: string)      // e.host, e.severity, ...
    | JsonText(key: nat)         // (e.structured->>$n)
    | Param(n: nat)              // $n
    | Lower(s: Scalar)

  datatype SqlOp = Eq | DistinctFrom | Lt | Le | Gt | Ge

  datatype Sql =
    | Const(b: bool)
    | And(parts: seq<Sql>)
    | Or(parts: seq<Sql>)
    | NotCoalesceFalse(e: Sql)   // NOT COALESCE(e, FALSE)
    | Compare(l: Scalar, op: SqlOp, r: Scalar)
    | ILike(l: Scalar, r: Scalar)
    | TextSearch(query: nat)
    | HasTagRow(tag: nat)
    | EqAnyMitre(code: nat)
    | EqAnyOt(code: nat)
    | ReceivedWithin(secs: nat)

  datatype SqlValue = Null | VText(s: string) | VInt(n: int) | VTime(t: int) | Bad

  /** SQL truth values, plus the statement failing altogether. */
  datatype Tri = True | False | Unknown | Failed

  function Truth(b: bool): Tri { if b then True else False }

  function ParamValue(binds: seq<Bind>, n: nat): SqlValue {
    if n >= |binds| then Bad
    else match binds[n]
      case BText(s) => VText(s)
      case BInt(i) => if -INT64_MAX - 1 <= i <= INT64_MAX then VInt(i) else Bad
      case BTime(t) => VTime(t)
  }

  function OrNull(n: Option<int>): SqlValue {
    if n.None? then Null else VInt(n.value)
  }

  function ColumnValue(row: Entry, field: string): SqlValue {
    if field == "host" then VText(row.host)
    else if field == "app_name" then VText(row.appName)
    else if field == "device_class" then VText(row.deviceClass)
    else if field == "msg" then VText(row.msg)
    else if field == "status" then VText(row.status)
    else if field == "severity" then VInt(row.severity)
    else if field == "facility" then OrNull(row.facility)
    else if field == "priority" then VInt(row.priority)
    else if field == "source_id" then OrNull(row.sourceId)
    else if field == "received_at" then VTime(row.receivedAt)
    else Bad
  }

  function EvalScalar(w: World, row: Entry, binds: seq<Bind>, s: Scalar): SqlValue {
    match s
    case Column(field) => ColumnValue(row, field)
    case Param(n) => ParamValue(binds, n)
    case JsonText(n) =>
      var key := ParamValue(binds, n);
      if !key.VText? then Bad
      else if key.s in row.structured && row.structured[key.s].JText? then VText(row.structured[key.s].s)
      else Null
    case Lower(inner) =>
      var v := EvalScalar(w, row, binds, inner);
      if v.VText? then VText(Translate(w.lower, v.s)) else if v.Null? then Null else Bad
  }

  predicate Holds(op: SqlOp, a: int, b: int) {
    match op
    case Eq => a == b
    case DistinctFrom => a != b
    case Lt => a < b
    case Le => a <= b
    case Gt => a > b
    case Ge => a >= b
  }

  function EvalCompare(l: SqlValue, op: SqlOp, r: SqlValue): Tri {
    match (l, r)
    case (Bad, _) => Failed
    case (_, Bad) => Failed
    case (Null, Null) => if op.DistinctFrom? then False else Unknown
    case (Null, _) => if op.DistinctFrom? then True else Unknown
    case (_, Null) => if op.DistinctFrom? then True else Unknown
    case (VInt(a), VInt(b)) => Truth(Holds(op, a, b))
    case (VTime(a), VTime(b)) => Truth(Holds(op, a, b))
    case (VText(a), VText(b)) =>
      if op.Eq? then Truth(a == b) else if op.DistinctFrom? then Truth(a != b) else Failed
    case _ => Failed
  }

  function EvalILike(w: World, l: SqlValue, r: SqlValue): Tri {
    if l.Bad? || r.Bad? then Failed
    else if l.Null? || r.Null? then Unknown
    else if l.VText? && r.VText? && Like.WellFormed(r.s) then
      Truth(Like.Matches(Translate(w.lower, l.s), Translate(w.lower, r.s)))
    else Failed
  }

  function Eval(w: World, row: Entry, binds: seq<Bind>, e: Sql): Tri {
    match e
    case Const(b) => Truth(b)
    case And(ps) =>
      if exists p | p in ps :: Eval(w, row, binds, p) == Failed then Failed
      else if exists p | p in ps :: Eval(w, row, binds, p) == False then False
      else if exists p | p in ps :: Eval(w, row, binds, p) == Unknown then Unknown
      else True
    case Or(ps) =>
      if exists p | p in ps :: Eval(w, row, binds, p) == Failed then Failed
      else if exists p | p in ps :: Eval(w, row, binds, p) == True then True
      else if exists p | p in ps :: Eval(w, row, binds, p) == Unknown then Unknown
      else False
    case NotCoalesceFalse(inner) =>
      var t := Eval(w, row, binds, inner);
      if t == Failed then Failed else Truth(t != True)
    case Compare(l, op, r) => EvalCompare(EvalScalar(w, row, binds, l), op, EvalScalar(w, row, binds, r))
    case ILike(l, r) => EvalILike(w, EvalScalar(w, row, binds, l), EvalScalar(w, row, binds, r))
    case TextSearch(n) =>
      var q := ParamValue(binds, n);
      if q.VText? then Truth(w.textMatch(row.msg, q.s)) else Failed
    case HasTagRow(n) =>
      var id := ParamValue(binds, n);
      if id.VInt? then Truth(id.n in row.tagIds) else Failed
    case EqAnyMitre(n) =>
      var code := ParamValue(binds, n);
      if code.VText? then Truth(code.s in row.mitre) else Failed
    case EqAnyOt(n) =>
      var code := ParamValue(binds, n);
      if code.VText? then Truth(code.s in row.ot) else Failed
    case ReceivedWithin(n) =>
      var secs := ParamValue(binds, n);
      if secs.VInt? then Truth(row.receivedAt > w.now - secs.n * NANOS_PER_SECOND) else Failed
  }

  // ----- the compiler, as a function of the binds registered so far

  function SqlOpOf(op: string): SqlOp {
    if op == "eq" then Eq else if op == "ne" then DistinctFrom else if op == "lt" then Lt
    else if op == "lte" then Le else if op == "gt" then Gt else Ge
  }

  function Ceil(r: real): int { -((-r).Floor) }

  /** math.Trunc equals the value. */
  predicate Whole(v: Float) { v.NegInf? || v.PosInf? || (v.Finite? && v.r == v.r.Floor as real) }

  const LIMIT := 0x4000_0000_0000_0000   // 1 << 62

  /** Rounds a bound to the integer that keeps `op` exact, and clamps it to +-2^62. */
  function IntBound(op: string, v: Float): int {
    match v
    case NaN => 0
    case NegInf => -LIMIT
    case PosInf => LIMIT
    case Finite(r) =>
      var n := if op == "lt" || op == "gte" then Ceil(r) else r.Floor;
      if n < -LIMIT then -LIMIT else if n > LIMIT then LIMIT else n
  }

  type Output = (Sql, seq<Bind>)

  function CompiledNum(field: string, op: string, v: Float, args: seq<Bind>): Output {
    if v.NaN? then (Const(op == "ne"), args)
    else if op == "eq" && !Whole(v) then (Const(false), args)
    else if op == "ne" && !Whole(v) then (Const(true), args)
    else (Compare(Column(field), SqlOpOf(op), Param(|args|)), args + [BInt(IntBound(op, v))])
  }

  function CompiledStr(col: Scalar, op: string, v: string, args: seq<Bind>): Output {
    if op == "eq" then
      (Compare(Lower(col), Eq, Lower(Param(|args|))), args + [BText(v)])
    else if op == "ne" then
      (Compare(Lower(col), DistinctFrom, Lower(Param(|args|))), args + [BText(v)])
    else if op == "contains" then
      (ILike(col, Param(|args|)), args + [BText("%" + Like.EscapeLike(v) + "%")])
    else if op == "prefix" then
      (ILike(col, Param(|args|)), args + [BText(Like.EscapeLike(v) + "%")])
    else (Const(false), args)
  }

  function CompiledLeaf(w: World, c: Cond, args: seq<Bind>): Output {
    var str := StrValue(c.value);
    var s := if str.Some? then str.value else "";
    if STRUCTURED <= c.field then
      CompiledStr(JsonText(|args|), c.op, s, args + [BText(c.field[|STRUCTURED|..])])
    else match FieldKind(c.field)
      case Some(KindNum) =>
        var v := NumValue(w, c.value);
        CompiledNum(c.field, c.op, if v.Some? then v.value else Finite(0.0), args)
      case Some(KindTime) =>
        var v := TimeValue(w, c.value);
        (Compare(Column(c.field), SqlOpOf(c.op), Param(|args|)), args + [BTime(if v.Some? then v.value else 0)])
      case _ => CompiledStr(Column(c.field), c.op, s, args)
  }

  function Compiled(w: World, c: Cond, args: seq<Bind>): Output
    decreases c
  {
    if c.all != [] then var out := CompiledEach(w, c.all, args); (And(out.0), out.1)
    else if c.any != [] then var out := CompiledEach(w, c.any, args); (Or(out.0), out.1)
    else if c.negated.Some? then
      var out := Compiled(w, c.negated.value, args); (NotCoalesceFalse(out.0), out.1)
    else if c.field != "" then CompiledLeaf(w, c, args)
    else if c.text != "" then (TextSearch(|args|), args + [BText(c.text)])
    else if c.tagId != 0 then (HasTagRow(|args|), args + [BInt(c.tagId)])
    else if c.mitre != "" then (EqAnyMitre(|args|), args + [BText(c.mitre)])
    else if c.ot != "" then (EqAnyOt(|args|), args + [BText(c.ot)])
    else if c.lastSeconds > 0 then (ReceivedWithin(|args|), args + [BInt(c.lastSeconds)])
    else (Const(true), args)
  }

  function CompiledEach(w: World, cs: seq<Cond>, args: seq<Bind>): (seq<Sql>, seq<Bind>)
    decreases cs
  {
    if cs == [] then ([], args)
    else
      var n := |cs| - 1;
      var before := CompiledEach(w, cs[..n], args);
      var last := Compiled(w, cs[n], before.1);
      (before.0 + [last.0], last.1)
  }

  // ----- the compiler as the program runs it: one shared, growing bind list

  class BindList {
    var args: seq<Bind>

    constructor ()
      ensures args == []
    {
      args := [];
    }

    /** Registers a bind value and returns its placeholder. */
    method Arg(v: Bind) returns (n: nat)
      modifies this
      ensures args == old(args) + [v] && n == |old(args)|
    {
      args := args + [v];
      n := |args| - 1;
    }
  }

  method NumLeaf(field: string, op: string, bound: Float, b: BindList) returns (e: Sql)
    requires OrdOp(op)
    modifies b
    ensures (e, b.args) == CompiledNum(field, op, bound, old(b.args))
  {
    if bound.NaN? {
      return Const(op == "ne");
    }
    var whole := Whole(bound);
    if op == "eq" && !whole {
      return Const(false);
    } else if op == "ne" && !whole {
      return Const(true);
    }
    var v := bound;
    if v.Finite? {
      if op == "lt" || op == "gte" {
        v := Finite(Ceil(v.r) as real);
      } else if op == "lte" || op == "gt" {
        v := Finite(v.r.Floor as real);
      }
    }
    assert bound.Finite? ==>
      v == Finite((if op == "lt" || op == "gte" then Ceil(bound.r) else bound.r.Floor) as real);
    var limit := LIMIT as real;
    var x := match v case PosInf => limit case Finite(r) => r case _ => -limit;
    if x > limit { x := limit; }
    if x < -limit { x := -limit; }
    assert x == IntBound(op, bound) as real;
    var n := b.Arg(BInt(x.Floor));
    e := Compare(Column(field), SqlOpOf(op), Param(n));
  }

  method CompileLeaf(w: World, c: Cond, b: BindList) returns (e: Sql)
    requires ValidLeaf(w, c)
    modifies b
    ensures (e, b.args) == CompiledLeaf(w, c, old(b.args))
  {
    var col := Column(c.field);
    var kind := FieldKind(c.field).value;
    if STRUCTURED <= c.field {
      var key := b.Arg(BText(c.field[|STRUCTURED|..]));
      col := JsonText(key);
    }
    match kind {
      case KindStr =>
        var v := StrValue(c.value).value;
        if c.op == "eq" {
          var n := b.Arg(BText(v));
          e := Compare(Lower(col), Eq, Lower(Param(n)));
        } else if c.op == "ne" {
          var n := b.Arg(BText(v));
          e := Compare(Lower(col), DistinctFrom, Lower(Param(n)));
        } else if c.op == "contains" {
          var n := b.Arg(BText("%" + Like.EscapeLike(v) + "%"));
          e := ILike(col, Param(n));
        } else {
          var n := b.Arg(BText(Like.EscapeLike(v) + "%"));
          e := ILike(col, Param(n));
        }
      case KindNum =>
        e := NumLeaf(c.field, c.op, NumValue(w, c.value).value, b);
      case KindTime =>
        var n := b.Arg(BTime(TimeValue(w, c.value).value));
        e := Compare(col, SqlOpOf(c.op), Param(n));
    }
  }

  method Compile(w: World, c: Cond, b: BindList) returns (e: Sql)
    requires Valid(w, c)
    modifies b
    ensures (e, b.args) == Compiled(w, c, old(b.args))
    decreases c
  {
    if c.all != [] {
      var parts := CompileJoin(w, c.all, b);
      e := And(parts);
    } else if c.any != [] {
      var parts := CompileJoin(w, c.any, b);
      e := Or(parts);
    } else if c.negated.Some? {
      var inner := Compile(w, c.negated.value, b);
      e := NotCoalesceFalse(inner);
    } else if c.field != "" {
      e := CompileLeaf(w, c, b);
    } else if c.text != "" {
      var n := b.Arg(BText(c.text));
      e := TextSearch(n);
    } else if c.tagId != 0 {
      var n := b.Arg(BInt(c.tagId));
      e := HasTagRow(n);
    } else if c.mitre != "" {
      var n := b.Arg(BText(c.mitre));
      e := EqAnyMitre(n);
    } else if c.ot != "" {
      var n := b.Arg(BText(c.ot));
      e := EqAnyOt(n);
    } else if c.lastSeconds > 0 {
      var n := b.Arg(BInt(c.lastSeconds));
      e := ReceivedWithin(n);
    } else {
      e := Const(true);
    }
  }

  method CompileJoin(w: World, subs: seq<Cond>, b: BindList) returns (parts: seq<Sql>)
    requires forall sub | sub in subs :: Valid(w, sub)
    modifies b
    ensures (parts, b.args) == CompiledEach(w, subs, old(b.args))
    decreases subs
  {
    parts := [];
    for i := 0 to |subs|
      invariant (parts, b.args) == CompiledEach(w, subs[..i], old(b.args))
    {
      assert subs[..i + 1][..i] == subs[..i];
      var part := Compile(w, subs[i], b);
      parts := parts + [part];
    }
    assert subs[..|subs|] == subs;
  }

  /** CompileSQL: refuses an invalid tree, otherwise yields the expression and its binds. */
  method CompileSql(w: World, c: Cond) returns (r: Result<Output, ()>)
    ensures r == if Valid(w, c) then Ok(Compiled(w, c, [])) else Err(())
  {
    if !Valid(w, c) {
      return Err(());
    }
    var b := new BindList();
    var e := Compile(w, c, b);
    r := Ok((e, b.args));
  }

  // ----- the two meanings agree

  const EXACT := 0x20_0000_0000_0000   // 2^53: integers a float64 holds exactly

  ghost predicate Exact(n: int) { -EXACT <= n <= EXACT }

  /** Every stored integer survives the trip through float64. */
  ghost predicate RowExact(row: Entry) {
    && Exact(row.severity) && Exact(row.priority)
    && (row.facility.Some? ==> Exact(row.facility.value))
    && (row.sourceId.Some? ==> Exact(row.sourceId.value))
  }

  /**
   A window that fits a Duration, and a row not exactly on its edge; or a longer window, and a row
   no older than the wrapped-around length, or one older than the window itself.
   */
  ghost predicate WindowClear(w: World, row: Entry, secs: int) {
    var length := secs * NANOS_PER_SECOND;
    if length <= INT64_MAX then row.receivedAt != w.now - length else LongWindowClear(w, row, length)
  }

  ghost predicate LongWindowClear(w: World, row: Entry, length: int) {
    if w.now - row.receivedAt < length then Since(w, row.receivedAt) <= Wrap64(length) else Wrap64(length) != INT64_MAX
  }

  ghost predicate WindowsClear(w: World, row: Entry, c: Cond) {
    && (forall sub | sub in c.all :: WindowsClear(w, row, sub))
    && (forall sub | sub in c.any :: WindowsClear(w, row, sub))
    && (c.negated.Some? ==> WindowsClear(w, row, c.negated.value))
    && (c.lastSeconds > 0 ==> WindowClear(w, row, c.lastSeconds))
  }

  /** The statement runs, and it is TRUE exactly when the matcher says yes. */
  ghost predicate Agrees(w: World, row: Entry, binds: seq<Bind>, e: Sql, matches: bool) {
    var t := Eval(w, row, binds, e);
    t != Failed && (t == True <==> matches)
  }

  /** Integer comparison against the rounded, clamped bound is float comparison against the bound. */
  lemma IntBoundExact(op: string, v: Float, n: int)
    requires OrdOp(op) && !v.NaN? && Exact(n)
    requires (op == "eq" || op == "ne") ==> Whole(v)
    ensures Holds(SqlOpOf(op), n, IntBound(op, v)) <==> OrdCompare(Finite(n as real), v, op)
    ensures -INT64_MAX - 1 <= IntBound(op, v) <= INT64_MAX
  {
    if v.Finite? {
      var floor := v.r.Floor;
      assert floor as real <= v.r < floor as real + 1.0;
      assert (-v.r).Floor as real <= -v.r < (-v.r).Floor as real + 1.0;
    }
  }

  /** Comparing a present integer with an int64 bind. */
  lemma PresentCompares(w: World, row: Entry, field: string, op: SqlOp, n: int, bound: int, at: nat, all: seq<Bind>)
    requires ColumnValue(row, field) == VInt(n) && at < |all| && all[at] == BInt(bound)
    requires -INT64_MAX - 1 <= bound <= INT64_MAX
    ensures Eval(w, row, all, Compare(Column(field), op, Param(at))) == Truth(Holds(op, n, bound))
  {
  }

  /** Comparing NULL with an int64 bind. */
  lemma AbsentCompares(w: World, row: Entry, field: string, op: SqlOp, bound: int, at: nat, all: seq<Bind>)
    requires ColumnValue(row, field) == Null && at < |all| && all[at] == BInt(bound)
    requires -INT64_MAX - 1 <= bound <= INT64_MAX
    ensures Eval(w, row, all, Compare(Column(field), op, Param(at))) == if op.DistinctFrom? then True else Unknown
  {
  }

  /** A numeric field of the record is the column, NULL where the record has none. */
  lemma NumColumn(row: Entry, field: string)
    requires FieldKind(field) == Some(KindNum) && RowExact(row)
    ensures match FieldValue(row, field)
            case Some(FInt(n)) => ColumnValue(row, field) == VInt(n) && Exact(n)
            case None => ColumnValue(row, field) == Null
            case _ => false
  {
  }

  /** Against NaN, or a fraction for equality, the answer does not depend on the field. */
  lemma NoCompareNeeded(field: string, op: string, v: Float, args: seq<Bind>, n: int)
    requires OrdOp(op) && !CompiledNum(field, op, v, args).0.Compare?
    ensures CompiledNum(field, op, v, args).0 == Const(op == "ne")
    ensures OrdCompare(Finite(n as real), v, op) <==> op == "ne"
  {
    assert (n as real).Floor == n;
  }

  lemma NumLeafAgrees(w: World, row: Entry, field: string, op: string, v: Float, args: seq<Bind>, all: seq<Bind>)
    requires FieldKind(field) == Some(KindNum) && OrdOp(op) && RowExact(row)
    requires CompiledNum(field, op, v, args).1 <= all
    ensures var want := match FieldValue(row, field)
              case Some(FInt(n)) => OrdCompare(Finite(n as real), v, op)
              case _ => op == "ne";
            Agrees(w, row, all, CompiledNum(field, op, v, args).0, want)
  {
    var out := CompiledNum(field, op, v, args);
    NumColumn(row, field);
    if out.0.Compare? {
      assert all[|args|] == out.1[|args|];
      var got := FieldValue(row, field);
      var n := if got.Some? then got.value.n else 0;
      IntBoundExact(op, v, n);
      if got.Some? {
        PresentCompares(w, row, field, SqlOpOf(op), n, IntBound(op, v), |args|, all);
      } else {
        AbsentCompares(w, row, field, SqlOpOf(op), IntBound(op, v), |args|, all);
      }
    } else {
      var got := FieldValue(row, field);
      NoCompareNeeded(field, op, v, args, if got.Some? then got.value.n else 0);
    }
  }

  /** A text comparison with a text bind, both sides folded. */
  lemma FoldedCompares(w: World, row: Entry, col: Scalar, op: SqlOp, v: string, at: nat, all: seq<Bind>)
    requires at < |all| && all[at] == BText(v) && (op.Eq? || op.DistinctFrom?)
    requires EvalScalar(w, row, all, col).VText? || EvalScalar(w, row, all, col).Null?
    ensures var got := EvalScalar(w, row, all, col);
            Agrees(w, row, all, Compare(Lower(col), op, Lower(Param(at))),
                   if got.VText? then MatchStr(w, got.s, v, if op.Eq? then "eq" else "ne") else op.DistinctFrom?)
  {
    assert EvalScalar(w, row, all, Param(at)) == VText(v);
  }

  /** An ILIKE against a text bind. */
  lemma PatternCompares(w: World, row: Entry, col: Scalar, pattern: string, at: nat, all: seq<Bind>)
    requires at < |all| && all[at] == BText(pattern) && Like.WellFormed(pattern)
    requires EvalScalar(w, row, all, col).VText? || EvalScalar(w, row, all, col).Null?
    ensures var got := EvalScalar(w, row, all, col);
            Eval(w, row, all, ILike(col, Param(at)))
            == if got.VText? then Truth(Like.Matches(Translate(w.lower, got.s), Translate(w.lower, pattern))) else Unknown
  {
    assert EvalScalar(w, row, all, Param(at)) == VText(pattern);
  }

  lemma PatternLeafAgrees(w: World, row: Entry, col: Scalar, op: string, v: string, at: nat, all: seq<Bind>)
    requires (op == "contains" || op == "prefix") && Like.KeepsSpecials(w.lower)
    requires at < |all|
    requires all[at] == BText(if op == "contains" then "%" + Like.EscapeLike(v) + "%" else Like.EscapeLike(v) + "%")
    requires EvalScalar(w, row, all, col).VText? || EvalScalar(w, row, all, col).Null?
    ensures var got := EvalScalar(w, row, all, col);
            Agrees(w, row, all, ILike(col, Param(at)), got.VText? && MatchStr(w, got.s, v, op))
  {
    var got := EvalScalar(w, row, all, col);
    var text := if got.VText? then got.s else "";
    if op == "contains" { Like.FoldedContainsExact(w.lower, text, v); } else { Like.FoldedPrefixExact(w.lower, text, v); }
    PatternCompares(w, row, col, all[at].s, at, all);
  }

  lemma StrLeafAgrees(w: World, row: Entry, col: Scalar, op: string, v: string, args: seq<Bind>, all: seq<Bind>)
    requires StrOp(op) && Like.KeepsSpecials(w.lower)
    requires CompiledStr(col, op, v, args).1 <= all
    requires EvalScalar(w, row, all, col).VText? || EvalScalar(w, row, all, col).Null?
    ensures var got := EvalScalar(w, row, all, col);
            Agrees(w, row, all, CompiledStr(col, op, v, args).0,
                   if got.VText? then MatchStr(w, got.s, v, op) else op == "ne")
  {
    assert all[|args|] == CompiledStr(col, op, v, args).1[|args|];
    if op == "eq" {
      FoldedCompares(w, row, col, Eq, v, |args|, all);
    } else if op == "ne" {
      FoldedCompares(w, row, col, DistinctFrom, v, |args|, all);
    } else {
      PatternLeafAgrees(w, row, col, op, v, |args|, all);
    }
  }

  lemma LeafAgrees(w: World, row: Entry, c: Cond, args: seq<Bind>, all: seq<Bind>)
    requires ValidLeaf(w, c) && RowExact(row) && Like.KeepsSpecials(w.lower)
    requires CompiledLeaf(w, c, args).1 <= all
    ensures Agrees(w, row, all, CompiledLeaf(w, c, args).0, MatchLeaf(w, row, c))
  {
    if STRUCTURED <= c.field {
      var key := c.field[|STRUCTURED|..];
      var args1 := args + [BText(key)];
      assert args1 <= all by { assert args1 <= CompiledLeaf(w, c, args).1; }
      assert all[|args|] == args1[|args|] == BText(key);
      StrLeafAgrees(w, row, JsonText(|args|), c.op, c.value.s, args1, all);
      NotAColumn(c.field);
    } else {
      match FieldKind(c.field).value
      case KindStr =>
        StrLeafAgrees(w, row, Column(c.field), c.op, c.value.s, args, all);
      case KindNum =>
        NumLeafAgrees(w, row, c.field, c.op, NumValue(w, c.value).value, args, all);
      case KindTime =>
        assert all[|args|] == CompiledLeaf(w, c, args).1[|args|];
    }
  }

  /** No table column is called structured.something. */
  lemma NotAColumn(field: string)
    requires STRUCTURED <= field
    ensures field !in {"host", "app_name", "msg", "status", "device_class", "severity", "priority",
                       "received_at", "facility", "source_id"}
  {
    assert field[0] == STRUCTURED[0] && field[1] == STRUCTURED[1] && field[2] == STRUCTURED[2];
  }

  /** On a window that fits a Duration the two sides disagree exactly at the edge instant. */
  lemma WindowAgreesIffOffEdge(w: World, row: Entry, secs: int)
    requires 0 < secs && secs * NANOS_PER_SECOND <= INT64_MAX
    ensures (row.receivedAt > w.now - secs * NANOS_PER_SECOND <==> MatchWindow(w, row, secs))
       <==> row.receivedAt != w.now - secs * NANOS_PER_SECOND
  {
    assert Wrap64(secs * NANOS_PER_SECOND) == secs * NANOS_PER_SECOND;
  }

  /**
   A window too long for a Duration wraps around: rows inside it agree exactly if they are no older
   than the wrapped length, rows outside it exactly if that length is not the longest Duration.
   */
  lemma LongWindowAgreesIff(w: World, row: Entry, secs: int)
    requires secs * NANOS_PER_SECOND > INT64_MAX
    ensures (row.receivedAt > w.now - secs * NANOS_PER_SECOND <==> MatchWindow(w, row, secs))
       <==> LongWindowClear(w, row, secs * NANOS_PER_SECOND)
  {
  }

  /** A one-minute window and a row received exactly one minute ago: Match takes it, SQL does not. */
  lemma EdgeRowDisagrees(w: World, row: Entry)
    requires row.receivedAt == w.now - 60 * NANOS_PER_SECOND
    ensures var c := Cond([], [], None, "", "", Other, "", 0, "", "", 60);
            var out := Compiled(w, c, []);
            Valid(w, c) && Match(w, row, c) && Eval(w, row, out.1, out.0) == False
  {
    var c := Cond([], [], None, "", "", Other, "", 0, "", "", 60);
    WindowAgreesIffOffEdge(w, row, 60);
    var none: seq<Bind> := [];
    assert none + [BInt(60)] == [BInt(60)];
    assert Compiled(w, c, none) == (ReceivedWithin(0), [BInt(60)]);
  }

  /** 9223372037 seconds overflow: every row from the last 292 years is selected in SQL and missed by Match. */
  lemma LongWindowDisagrees(w: World, row: Entry)
    requires 0 <= w.now - row.receivedAt <= INT64_MAX
    ensures var c := Cond([], [], None, "", "", Other, "", 0, "", "", 9_223_372_037);
            var out := Compiled(w, c, []);
            Valid(w, c) && !Match(w, row, c) && Eval(w, row, out.1, out.0) == True
  {
    var c := Cond([], [], None, "", "", Other, "", 0, "", "", 9_223_372_037);
    var none: seq<Bind> := [];
    assert none + [BInt(9_223_372_037)] == [BInt(9_223_372_037)];
    assert Compiled(w, c, none) == (ReceivedWithin(0), [BInt(9_223_372_037)]);
  }

  /** Compiling only ever appends binds. */
  lemma {:induction false} CompiledExtends(w: World, c: Cond, args: seq<Bind>)
    ensures args <= Compiled(w, c, args).1
    decreases c
  {
    if c.all != [] { EachExtends(w, c.all, args); }
    else if c.any != [] { EachExtends(w, c.any, args); }
    else if c.negated.Some? { CompiledExtends(w, c.negated.value, args); }
  }

  lemma {:induction false} EachExtends(w: World, cs: seq<Cond>, args: seq<Bind>)
    ensures args <= CompiledEach(w, cs, args).1
    decreases cs
  {
    if cs == [] {
    } else {
      var n := |cs| - 1;
      EachExtends(w, cs[..n], args);
      CompiledExtends(w, cs[n], CompiledEach(w, cs[..n], args).1);
    }
  }

  /** Binds registered later never change what an already compiled expression says. */
  lemma {:induction false} LaterBindsIrrelevant(w: World, row: Entry, c: Cond, args: seq<Bind>, all: seq<Bind>)
    requires Compiled(w, c, args).1 <= all
    ensures Eval(w, row, all, Compiled(w, c, args).0) == Eval(w, row, Compiled(w, c, args).1, Compiled(w, c, args).0)
    decreases c
  {
    var out := Compiled(w, c, args);
    if c.all != [] {
      EachStable(w, row, c.all, args, out.1, all);
    } else if c.any != [] {
      EachStable(w, row, c.any, args, out.1, all);
    } else if c.negated.Some? {
      LaterBindsIrrelevant(w, row, c.negated.value, args, all);
    } else if c.field != "" {
      LeafStable(w, row, c, args, all);
    } else if |out.1| > |args| {
      assert all[|args|] == out.1[|args|];
    }
  }

  lemma StrStable(w: World, row: Entry, col: Scalar, op: string, v: string, args: seq<Bind>, all: seq<Bind>)
    requires CompiledStr(col, op, v, args).1 <= all && ParamsBelow(col, |args|)
    ensures var out := CompiledStr(col, op, v, args); Eval(w, row, all, out.0) == Eval(w, row, out.1, out.0)
  {
    var few := CompiledStr(col, op, v, args).1;
    if |few| > |args| {
      BelowMore(col, |args|, |few|);
      ScalarStable(w, row, Lower(col), few, all);
      ScalarStable(w, row, col, few, all);
      ScalarStable(w, row, Lower(Param(|args|)), few, all);
      ScalarStable(w, row, Param(|args|), few, all);
    }
  }

  lemma {:induction false} BelowMore(s: Scalar, n: nat, m: nat)
    requires ParamsBelow(s, n) && n <= m
    ensures ParamsBelow(s, m)
  {
    if s.Lower? { BelowMore(s.s, n, m); }
  }

  lemma LeafStable(w: World, row: Entry, c: Cond, args: seq<Bind>, all: seq<Bind>)
    requires CompiledLeaf(w, c, args).1 <= all
    ensures var out := CompiledLeaf(w, c, args); Eval(w, row, all, out.0) == Eval(w, row, out.1, out.0)
  {
    var str := StrValue(c.value);
    var v := if str.Some? then str.value else "";
    if STRUCTURED <= c.field {
      StrStable(w, row, JsonText(|args|), c.op, v, args + [BText(c.field[|STRUCTURED|..])], all);
    } else {
      match FieldKind(c.field)
      case Some(KindNum) => FieldStable(w, row, c, args, all);
      case Some(KindTime) => FieldStable(w, row, c, args, all);
      case _ => StrStable(w, row, Column(c.field), c.op, v, args, all);
    }
  }

  lemma FieldStable(w: World, row: Entry, c: Cond, args: seq<Bind>, all: seq<Bind>)
    requires CompiledLeaf(w, c, args).1 <= all && !(STRUCTURED <= c.field)
    requires FieldKind(c.field) == Some(KindNum) || FieldKind(c.field) == Some(KindTime)
    ensures var out := CompiledLeaf(w, c, args); Eval(w, row, all, out.0) == Eval(w, row, out.1, out.0)
  {
    var out := CompiledLeaf(w, c, args);
    if |out.1| > |args| { assert all[|args|] == out.1[|args|]; }
  }

  predicate ParamsBelow(s: Scalar, n: nat) {
    match s
    case Column(_) => true
    case JsonText(k) => k < n
    case Param(k) => k < n
    case Lower(inner) => ParamsBelow(inner, n)
  }

  lemma {:induction false} ScalarStable(w: World, row: Entry, s: Scalar, few: seq<Bind>, all: seq<Bind>)
    requires few <= all && ParamsBelow(s, |few|)
    ensures EvalScalar(w, row, all, s) == EvalScalar(w, row, few, s)
  {
    assert forall n | 0 <= n < |few| :: all[n] == few[n];
    if s.Lower? { ScalarStable(w, row, s.s, few, all); }
  }

  lemma {:induction false} EachStable(w: World, row: Entry, cs: seq<Cond>, args: seq<Bind>, few: seq<Bind>, all: seq<Bind>)
    requires CompiledEach(w, cs, args).1 <= few <= all
    ensures forall p | p in CompiledEach(w, cs, args).0 :: Eval(w, row, all, p) == Eval(w, row, few, p)
    decreases cs
  {
    if cs == [] {
    } else {
      var n := |cs| - 1;
      var before := CompiledEach(w, cs[..n], args);
      CompiledExtends(w, cs[n], before.1);
      EachStable(w, row, cs[..n], args, few, all);
      LaterBindsIrrelevant(w, row, cs[n], before.1, few);
      LaterBindsIrrelevant(w, row, cs[n], before.1, all);
    }
  }

  /**
   The compiler preserves meaning: under any bind list that extends the one it produced, the
   compiled expression evaluates without error, and to TRUE exactly when Match holds.
   */
  lemma {:induction false} CompileCorrect(w: World, row: Entry, c: Cond, args: seq<Bind>, all: seq<Bind>)
    requires Valid(w, c) && RowExact(row) && Like.KeepsSpecials(w.lower) && WindowsClear(w, row, c)
    requires Compiled(w, c, args).1 <= all
    ensures Agrees(w, row, all, Compiled(w, c, args).0, Match(w, row, c))
    decreases c
  {
    var out := Compiled(w, c, args);
    if c.all != [] {
      EachCorrect(w, row, c.all, args, all);
      AndAgrees(w, row, c.all, all, CompiledEach(w, c.all, args).0);
    } else if c.any != [] {
      EachCorrect(w, row, c.any, args, all);
      OrAgrees(w, row, c.any, all, CompiledEach(w, c.any, args).0);
    } else if c.negated.Some? {
      CompileCorrect(w, row, c.negated.value, args, all);
    } else if c.field != "" {
      LeafAgrees(w, row, c, args, all);
    } else if |out.1| > |args| {
      assert all[|args|] == out.1[|args|];
      if c.lastSeconds * NANOS_PER_SECOND > INT64_MAX {
        LongWindowAgreesIff(w, row, c.lastSeconds);
      } else if c.lastSeconds > 0 {
        WindowAgreesIffOffEdge(w, row, c.lastSeconds);
      }
    }
  }

  lemma OneMoreAgrees(w: World, row: Entry, cs: seq<Cond>, all: seq<Bind>, parts: seq<Sql>, c: Cond, part: Sql)
    requires PartsAgree(w, row, cs, all, parts) && Agrees(w, row, all, part, Match(w, row, c))
    ensures PartsAgree(w, row, cs + [c], all, parts + [part])
  {
  }

  lemma {:induction false} EachCorrect(w: World, row: Entry, cs: seq<Cond>, args: seq<Bind>, all: seq<Bind>)
    requires RowExact(row) && Like.KeepsSpecials(w.lower)
    requires forall c | c in cs :: Valid(w, c) && WindowsClear(w, row, c)
    requires CompiledEach(w, cs, args).1 <= all
    ensures PartsAgree(w, row, cs, all, CompiledEach(w, cs, args).0)
    decreases cs
  {
    if cs == [] {
    } else {
      var n := |cs| - 1;
      var before := CompiledEach(w, cs[..n], args);
      CompiledExtends(w, cs[n], before.1);
      EachCorrect(w, row, cs[..n], args, all);
      CompileCorrect(w, row, cs[n], before.1, all);
      OneMoreAgrees(w, row, cs[..n], all, before.0, cs[n], Compiled(w, cs[n], before.1).0);
      assert cs[..n] + [cs[n]] == cs;
    }
  }

  /** A join of parts that run, runs. */
  lemma JoinRuns(w: World, row: Entry, all: seq<Bind>, parts: seq<Sql>)
    requires forall i | 0 <= i < |parts| :: Eval(w, row, all, parts[i]) != Failed
    ensures Eval(w, row, all, And(parts)) != Failed && Eval(w, row, all, Or(parts)) != Failed
  {
  }

  lemma SomePartNotTrue(w: World, row: Entry, all: seq<Bind>, parts: seq<Sql>, i: nat)
    requires i < |parts| && Eval(w, row, all, parts[i]) != True
    ensures Eval(w, row, all, And(parts)) != True
  {
    assert parts[i] in parts;
  }

  lemma AllPartsTrue(w: World, row: Entry, all: seq<Bind>, parts: seq<Sql>)
    requires forall i | 0 <= i < |parts| :: Eval(w, row, all, parts[i]) == True
    ensures Eval(w, row, all, And(parts)) == True
  {
  }

  lemma SomePartTrue(w: World, row: Entry, all: seq<Bind>, parts: seq<Sql>, i: nat)
    requires i < |parts| && Eval(w, row, all, parts[i]) == True && Eval(w, row, all, Or(parts)) != Failed
    ensures Eval(w, row, all, Or(parts)) == True
  {
    assert parts[i] in parts;
  }

  lemma NoPartTrue(w: World, row: Entry, all: seq<Bind>, parts: seq<Sql>)
    requires forall i | 0 <= i < |parts| :: Eval(w, row, all, parts[i]) != True
    ensures Eval(w, row, all, Or(parts)) != True
  {
  }

  ghost predicate PartsAgree(w: World, row: Entry, cs: seq<Cond>, all: seq<Bind>, parts: seq<Sql>) {
    |parts| == |cs| && forall i | 0 <= i < |cs| :: Agrees(w, row, all, parts[i], Match(w, row, cs[i]))
  }

  lemma AndAgrees(w: World, row: Entry, cs: seq<Cond>, all: seq<Bind>, parts: seq<Sql>)
    requires PartsAgree(w, row, cs, all, parts)
    ensures Agrees(w, row, all, And(parts), forall c | c in cs :: Match(w, row, c))
  {
    JoinRuns(w, row, all, parts);
    if i :| 0 <= i < |cs| && !Match(w, row, cs[i]) {
      assert cs[i] in cs;
      SomePartNotTrue(w, row, all, parts, i);
    } else {
      AllPartsTrue(w, row, all, parts);
    }
  }

  lemma OrAgrees(w: World, row: Entry, cs: seq<Cond>, all: seq<Bind>, parts: seq<Sql>)
    requires PartsAgree(w, row, cs, all, parts)
    ensures Agrees(w, row, all, Or(parts), exists c | c in cs :: Match(w, row, c))
  {
    JoinRuns(w, row, all, parts);
    if i :| 0 <= i < |cs| && Match(w, row, cs[i]) {
      assert cs[i] in cs;
      SomePartTrue(w, row, all, parts, i);
    } else {
      NoPartTrue(w, row, all, parts);
    }
  }
}
