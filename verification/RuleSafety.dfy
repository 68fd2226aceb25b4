/** Exactly which rule expressions never err, told by their syntax and the schema alone. */
module RuleSafety {
  import opened Wrappers
  import opened RuleDsl
  import opened RuleContext

  // ---- operands as the schema sees them ------------------------------------------------------

  /** A known value (a literal, or null for a field the schema does not have), some value of
      a field's type, or the verdict of a nested predicate. */
  datatype Operand = Exactly(v: Json) | Field_(t: FieldType, name: string) | Truth

  predicate HasValue(arg: Arg) {
    arg.Lit? ==> IsFieldRef(arg.v) || !arg.v.Obj?
  }

  function OperandOf(schema: Schema, arg: Arg): Operand {
    match arg
    case Sub(_) => Truth
    case Lit(v) =>
      if !IsFieldRef(v) then Exactly(v)
      else if FieldName(v) in schema then Field_(schema[FieldName(v)], FieldName(v)) else Exactly(Null)
  }

  predicate IsText(o: Operand) {
    (o.Exactly? && o.v.Str?) || (o.Field_? && (o.t == STRING || o.t == DATETIME))
  }

  predicate IsNumber(o: Operand) {
    o.Truth? || (o.Exactly? && IsNumeric(o.v)) || (o.Field_? && (o.t == NUMBER || o.t == BOOLEAN))
  }

  predicate IsList(o: Operand) {
    (o.Exactly? && o.v.List?) || (o.Field_? && o.t == LIST)
  }

  /** Lists whose elements are never compared with elements of another kind: two literals
      that can be ordered, a field with itself, or a field with the empty list. */
  predicate ListsCompare(op: Op, l: Operand, r: Operand)
    requires IsList(l) && IsList(r)
  {
    if l.Exactly? && r.Exactly? then OrderedLists(op, l.v.items, r.v.items).Some?
    else if l.Exactly? then l.v.items == []
    else if r.Exactly? then r.v.items == []
    else l.name == r.name
  }

  /** An ordering of numbers, of texts, or of lists that compare. */
  predicate OrderSafe(op: Op, l: Operand, r: Operand) {
    || (IsNumber(l) && IsNumber(r))
    || (IsText(l) && IsText(r))
    || (IsList(l) && IsList(r) && ListsCompare(op, l, r))
  }

  /** Membership in a list, or of a text in a text. */
  predicate MemberSafe(l: Operand, r: Operand) {
    IsList(r) || (IsText(r) && IsText(l))
  }

  predicate PairSafe(op: Op, l: Operand, r: Operand) {
    if IsOrder(op) then OrderSafe(op, l, r) else op in [In, NotIn] ==> MemberSafe(l, r)
  }

  /** Legal arity, operands that have values, and operators that fit their operands. */
  predicate Safe(schema: Schema, e: Expr) {
    && NodeSafe(schema, e)
    && forall i :: 0 <= i < |e.args| && e.args[i].Sub? ==> Safe(schema, e.args[i].e)
  }

  predicate NodeSafe(schema: Schema, e: Expr) {
    match e.op
    case And => e.args != []
    case Or => e.args != []
    case Not => |e.args| == 1
    case Exists => |e.args| == 1 && e.args[0].Lit? && IsFieldRef(e.args[0].v)
    case _ =>
      && |e.args| == 2 && HasValue(e.args[0]) && HasValue(e.args[1])
      && PairSafe(e.op, OperandOf(schema, e.args[0]), OperandOf(schema, e.args[1]))
  }

  // ---- contexts ----------------------------------------------------------------------------------

  /** Objects have distinct keys, as dictionaries do. */
  predicate DistinctKeys(v: Json) {
    match v
    case List(items) => forall i :: 0 <= i < |items| ==> DistinctKeys(items[i])
    case Obj(fields) =>
      && (forall i, j :: 0 <= i < j < |fields| ==> fields[i].key != fields[j].key)
      && (forall i :: 0 <= i < |fields| ==> DistinctKeys(fields[i].value))
    case _ => true
  }

  /** The context has exactly the schema's fields, each with a value of its type. */
  predicate Fits(schema: Schema, ctx: Context) {
    ctx.Keys == schema.Keys && Typed(schema, ctx) && forall f :: f in ctx ==> DistinctKeys(ctx[f])
  }

  /** The operand may have this value in this context. */
  predicate CanBe(ctx: Context, o: Operand, v: Json) {
    match o
    case Exactly(x) => v == x
    case Field_(t, name) => LiteralMatches(t, v) && name in ctx && ctx[name] == v
    case Truth => v.Bool?
  }

  /** Every part of the expression has a verdict, also those that evaluation would skip. */
  ghost predicate AllParts(e: Expr, ctx: Context, depth: nat) {
    && Eval(e, ctx, depth).Ok?
    && forall i :: 0 <= i < |e.args| && e.args[i].Sub? ==> AllParts(e.args[i].e, ctx, depth + 1)
  }

  lemma OperandHasValue(schema: Schema, ctx: Context, arg: Arg, depth: nat)
    requires Fits(schema, ctx) && HasValue(arg)
    requires arg.Sub? ==> Eval(arg.e, ctx, depth + 1).Ok?
    ensures Value(arg, ctx, depth).Ok? && CanBe(ctx, OperandOf(schema, arg), Value(arg, ctx, depth).value)
  {
  }

  // ---- values that fit are comparable ------------------------------------------------------------

  lemma {:induction false} GetDistinct(fields: seq<Field>, i: nat)
    requires i < |fields| && forall j, k :: 0 <= j < k < |fields| ==> fields[j].key != fields[k].key
    ensures Has(fields, fields[i].key) && Get(fields, fields[i].key) == fields[i].value
  {
    if i > 0 {
      assert fields[1..][i - 1] == fields[i];
      GetDistinct(fields[1..], i - 1);
    }
  }

  lemma {:induction false} PyEqReflexive(v: Json)
    requires DistinctKeys(v)
    ensures PyEq(v, v)
  {
    match v
    case List(items) => forall i | 0 <= i < |items| ensures PyEq(items[i], items[i]) { PyEqReflexive(items[i]); }
    case Obj(fields) =>
      forall i | 0 <= i < |fields|
        ensures Has(fields, fields[i].key) && PyEq(fields[i].value, Get(fields, fields[i].key))
      {
        GetDistinct(fields, i);
        PyEqReflexive(fields[i].value);
      }
    case _ =>
  }

  lemma {:induction false} OrderedWithItself(op: Op, items: seq<Json>)
    requires forall i :: 0 <= i < |items| ==> DistinctKeys(items[i])
    ensures OrderedLists(op, items, items).Some?
  {
    if items != [] {
      PyEqReflexive(items[0]);
      OrderedWithItself(op, items[1..]);
    }
  }

  lemma SafeOrderOk(op: Op, ctx: Context, l: Operand, r: Operand, lv: Json, rv: Json)
    requires OrderSafe(op, l, r) && CanBe(ctx, l, lv) && CanBe(ctx, r, rv)
    requires forall f :: f in ctx ==> DistinctKeys(ctx[f])
    ensures Ordered(op, lv, rv).Some?
  {
    if IsList(l) && IsList(r) && l.Field_? && r.Field_? {
      assert lv == rv && DistinctKeys(lv);
      OrderedWithItself(op, lv.items);
    }
  }

  lemma SafePairOk(op: Op, ctx: Context, l: Operand, r: Operand, lv: Json, rv: Json)
    requires op !in [And, Or, Not, Exists] && PairSafe(op, l, r) && CanBe(ctx, l, lv) && CanBe(ctx, r, rv)
    requires forall f :: f in ctx ==> DistinctKeys(ctx[f])
    ensures Apply(op, lv, rv).Ok?
  {
    if IsOrder(op) { SafeOrderOk(op, ctx, l, r, lv, rv); }
  }

  /** A safe expression within the nesting limit has a verdict in every part. */
  lemma {:induction false} SafeNeverErrs(schema: Schema, ctx: Context, e: Expr, depth: nat)
    requires Safe(schema, e) && Fits(schema, ctx) && depth + Nesting(e) <= MAX_DEPTH
    ensures AllParts(e, ctx, depth)
  {
    forall i | 0 <= i < |e.args| && e.args[i].Sub? ensures AllParts(e.args[i].e, ctx, depth + 1) {
      NestingBounds(e.args, i);
      SafeNeverErrs(schema, ctx, e.args[i].e, depth + 1);
    }
    NodeOk(schema, ctx, e, depth);
  }

  lemma NodeOk(schema: Schema, ctx: Context, e: Expr, depth: nat)
    requires NodeSafe(schema, e) && Fits(schema, ctx) && depth <= MAX_DEPTH
    requires forall i :: 0 <= i < |e.args| && e.args[i].Sub? ==> AllParts(e.args[i].e, ctx, depth + 1)
    ensures Eval(e, ctx, depth).Ok?
  {
    if e.op in [And, Or, Not] {
      forall i | 0 <= i < |e.args| ensures TruthyArg(e.args[i], ctx, depth).Ok? {
        if e.args[i].Sub? { assert AllParts(e.args[i].e, ctx, depth + 1); }
      }
      ConnectOk(e.args, ctx, depth, false);
      ConnectOk(e.args, ctx, depth, true);
    } else if e.op != Exists {
      PairOk(schema, ctx, e, depth);
    }
  }

  lemma PairOk(schema: Schema, ctx: Context, e: Expr, depth: nat)
    requires e.op !in [And, Or, Not, Exists] && NodeSafe(schema, e) && Fits(schema, ctx) && depth <= MAX_DEPTH
    requires forall i :: 0 <= i < |e.args| && e.args[i].Sub? ==> AllParts(e.args[i].e, ctx, depth + 1)
    ensures Eval(e, ctx, depth).Ok?
  {
    var a, b := e.args[0], e.args[1];
    if a.Sub? { assert AllParts(e.args[0].e, ctx, depth + 1); }
    if b.Sub? { assert AllParts(e.args[1].e, ctx, depth + 1); }
    OperandHasValue(schema, ctx, a, depth);
    OperandHasValue(schema, ctx, b, depth);
    SafePairOk(e.op, ctx, OperandOf(schema, a), OperandOf(schema, b),
      Value(a, ctx, depth).value, Value(b, ctx, depth).value);
  }

  // ---- an unsafe expression errs in some context ----------------------------------------------------

  function Default(t: FieldType): Json {
    match t
    case NUMBER => Num(0.0)
    case BOOLEAN => Bool(false)
    case LIST => List([])
    case _ => Str("")
  }

  function Defaults(schema: Schema): Context {
    map f | f in schema :: Default(schema[f])
  }

  /** A value that neither equals nor compares with another. */
  function Clash(v: Json): Json {
    if v.Null? then Str("") else Null
  }

  lemma ClashesErr(op: Op, v: Json)
    ensures !PyEq(v, Clash(v)) && Ordered(op, v, Clash(v)) == None
    ensures !PyEq(Clash(v), v) && Ordered(op, Clash(v), v) == None
  {
  }

  /** A context in which lists that need not compare do not. */
  function ClashContext(schema: Schema, l: Operand, r: Operand): Context {
    var base := Defaults(schema);
    if !IsList(l) || !IsList(r) || (l.Exactly? && r.Exactly?) then base
    else if l.Exactly? then if l.v.items == [] then base else base[r.name := List([Clash(l.v.items[0])])]
    else if r.Exactly? then if r.v.items == [] then base else base[l.name := List([Clash(r.v.items[0])])]
    else base[l.name := List([Null])][r.name := List([Clash(Null)])]
  }

  /** The operand stands for a field of the schema, if for any. */
  predicate Known(schema: Schema, o: Operand) {
    o.Field_? ==> o.name in schema && schema[o.name] == o.t
  }

  lemma ClashContextFits(schema: Schema, l: Operand, r: Operand)
    requires Known(schema, l) && Known(schema, r)
    ensures Fits(schema, ClashContext(schema, l, r))
  {
    var ctx := ClashContext(schema, l, r);
    forall f | f in schema ensures f in ctx && LiteralMatches(schema[f], ctx[f]) && DistinctKeys(ctx[f]) {}
  }

  lemma UnsafeListsErr(schema: Schema, op: Op, l: Operand, r: Operand, lv: Json, rv: Json)
    requires Known(schema, l) && Known(schema, r) && IsList(l) && IsList(r) && !ListsCompare(op, l, r)
    requires CanBe(ClashContext(schema, l, r), l, lv) && CanBe(ClashContext(schema, l, r), r, rv)
    ensures Ordered(op, lv, rv) == None
  {
    if l.Exactly? && r.Field_? {
      ClashesErr(op, l.v.items[0]);
    } else if l.Field_? && r.Exactly? {
      ClashesErr(op, r.v.items[0]);
    } else if l.Field_? {
      ClashesErr(op, Null);
    }
  }

  lemma UnsafeKindsErr(ctx: Context, op: Op, l: Operand, r: Operand, lv: Json, rv: Json)
    requires !OrderSafe(op, l, r) && !(IsList(l) && IsList(r)) && CanBe(ctx, l, lv) && CanBe(ctx, r, rv)
    ensures Ordered(op, lv, rv) == None
  {
  }

  lemma UnsafeMemberErrs(ctx: Context, l: Operand, r: Operand, lv: Json, rv: Json)
    requires !MemberSafe(l, r) && CanBe(ctx, l, lv) && CanBe(ctx, r, rv)
    ensures Member(lv, rv) == None
  {
  }

  lemma UnsafePairErrs(schema: Schema, op: Op, l: Operand, r: Operand, lv: Json, rv: Json)
    requires op !in [And, Or, Not, Exists] && !PairSafe(op, l, r) && Known(schema, l) && Known(schema, r)
    requires CanBe(ClashContext(schema, l, r), l, lv) && CanBe(ClashContext(schema, l, r), r, rv)
    ensures Apply(op, lv, rv).Err?
  {
    var ctx := ClashContext(schema, l, r);
    if !IsOrder(op) {
      UnsafeMemberErrs(ctx, l, r, lv, rv);
    } else if IsList(l) && IsList(r) {
      UnsafeListsErr(schema, op, l, r, lv, rv);
    } else {
      UnsafeKindsErr(ctx, op, l, r, lv, rv);
    }
  }

  /** A node that is unsafe itself, whose nested predicates are not, errs in some context. */
  lemma UnsafeNodeErrs(schema: Schema, e: Expr, depth: nat) returns (ctx: Context)
    requires !NodeSafe(schema, e) && depth <= MAX_DEPTH
    ensures Fits(schema, ctx) && !AllParts(e, ctx, depth)
  {
    ctx := Defaults(schema);
    assert Fits(schema, ctx);
    if e.op !in [And, Or, Not, Exists] && |e.args| == 2 && HasValue(e.args[0]) && HasValue(e.args[1]) {
      var l, r := OperandOf(schema, e.args[0]), OperandOf(schema, e.args[1]);
      ctx := ClashContext(schema, l, r);
      ClashContextFits(schema, l, r);
      UnsafeComparisonErrs(schema, e, ctx, depth);
    } else if e.op !in [And, Or, Not, Exists] && |e.args| == 2 {
      assert !HasValue(e.args[0]) ==> Value(e.args[0], ctx, depth).Err?;
      assert !HasValue(e.args[1]) ==> Value(e.args[1], ctx, depth).Err?;
    }
  }

  lemma UnsafeComparisonErrs(schema: Schema, e: Expr, ctx: Context, depth: nat)
    requires e.op !in [And, Or, Not, Exists] && |e.args| == 2 && HasValue(e.args[0]) && HasValue(e.args[1])
    requires !PairSafe(e.op, OperandOf(schema, e.args[0]), OperandOf(schema, e.args[1]))
    requires ctx == ClashContext(schema, OperandOf(schema, e.args[0]), OperandOf(schema, e.args[1]))
    requires Fits(schema, ctx)
    ensures Eval(e, ctx, depth).Err?
  {
    var a, b := e.args[0], e.args[1];
    if depth <= MAX_DEPTH && Value(a, ctx, depth).Ok? && Value(b, ctx, depth).Ok? {
      OperandHasValue(schema, ctx, a, depth);
      OperandHasValue(schema, ctx, b, depth);
      UnsafePairErrs(schema, e.op, OperandOf(schema, a), OperandOf(schema, b),
        Value(a, ctx, depth).value, Value(b, ctx, depth).value);
    }
  }

  lemma {:induction false} DeepestArgument(args: seq<Arg>, n: nat) returns (i: nat)
    requires NestingOf(args) > n
    ensures i < |args| && args[i].Sub? && 1 + Nesting(args[i].e) > n
  {
    if ArgNesting(args[0]) > n {
      i := 0;
    } else {
      var j := DeepestArgument(args[1..], n);
      i := j + 1;
    }
  }

  /** Whatever is unsafe or nested too deep errs, in some context, in one of its parts. */
  lemma {:induction false} UnsafeErrs(schema: Schema, e: Expr, depth: nat) returns (ctx: Context)
    requires !Safe(schema, e) || depth + Nesting(e) > MAX_DEPTH
    ensures Fits(schema, ctx) && !AllParts(e, ctx, depth)
  {
    ctx := Defaults(schema);
    assert Fits(schema, ctx);
    if depth <= MAX_DEPTH {
      if depth + Nesting(e) > MAX_DEPTH {
        var i := DeepestArgument(e.args, MAX_DEPTH - depth);
        ctx := UnsafeErrs(schema, e.args[i].e, depth + 1);
      } else if !NodeSafe(schema, e) {
        ctx := UnsafeNodeErrs(schema, e, depth);
      } else {
        var i :| 0 <= i < |e.args| && e.args[i].Sub? && !Safe(schema, e.args[i].e);
        ctx := UnsafeErrs(schema, e.args[i].e, depth + 1);
      }
    }
  }

  /** Exactly which expressions never err: every part has a verdict in every context that
      fits the schema, if and only if the expression is safe and within the nesting limit.
      Both are read off the expression and the schema. */
  lemma NeverErrsExactly(schema: Schema, e: Expr, depth: nat)
    ensures (forall ctx :: Fits(schema, ctx) ==> AllParts(e, ctx, depth)) <==>
      Safe(schema, e) && depth + Nesting(e) <= 64
  {
    if Safe(schema, e) && depth + Nesting(e) <= MAX_DEPTH {
      forall ctx | Fits(schema, ctx) ensures AllParts(e, ctx, depth) { SafeNeverErrs(schema, ctx, e, depth); }
    } else {
      var ctx := UnsafeErrs(schema, e, depth);
    }
  }

  /** Nesting beyond the limit errs in some part in every context, for every expression. */
  lemma {:induction false} NestingLimitExact(schema: Schema, e: Expr, ctx: Context, depth: nat)
    requires Safe(schema, e) && Fits(schema, ctx)
    ensures AllParts(e, ctx, depth) <==> depth + Nesting(e) <= 64
  {
    if depth + Nesting(e) <= MAX_DEPTH {
      SafeNeverErrs(schema, ctx, e, depth);
    } else if depth <= MAX_DEPTH {
      var i := DeepestArgument(e.args, MAX_DEPTH - depth);
      NestingLimitExact(schema, e.args[i].e, ctx, depth + 1);
    }
  }

  // ---- what the checker and the discipline buy --------------------------------------------------------

  /** What the checker accepts and the discipline admits is safe. */
  lemma {:induction false} DisciplinedIsSafe(schema: Schema, e: Expr)
    requires Accepts(schema, e) && Disciplined(schema, e)
    ensures Safe(schema, e)
  {
    if e.op in [And, Or, Not] {
      forall i | 0 <= i < |e.args| && e.args[i].Sub? ensures Safe(schema, e.args[i].e) {
        DisciplinedIsSafe(schema, e.args[i].e);
      }
    }
  }

  /** An expression that skips its unsafe part still has a verdict. */
  lemma SkippedPartsDoNotErr(schema: Schema, ctx: Context, bad: Expr)
    requires !Safe(schema, bad)
    ensures var e := Expr(Or, [Lit(Bool(true)), Sub(bad)]); !Safe(schema, e) && Evaluate(e, ctx) == Ok(true)
  {
    var e := Expr(Or, [Lit(Bool(true)), Sub(bad)]);
    assert e.args[1].Sub? && e.args[1].e == bad;
    assert TruthyArg(e.args[0], ctx, 0) == Ok(true);
    assert Connect(e.args, ctx, 0, true) == Ok(true);
  }
}
