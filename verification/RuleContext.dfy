/** Publish-time type checking of rule expressions against a typed context
    (packages/rule-dsl/bbz_rule_dsl/context.py), and what it guarantees at run time. */
module RuleContext {
  import opened Wrappers
  import opened RuleDsl

  datatype FieldType = STRING | NUMBER | BOOLEAN | DATETIME | LIST

  type Schema = map<string, FieldType>

  predicate LiteralMatches(t: FieldType, v: Json) {
    match t
    case STRING => v.Str?
    case DATETIME => v.Str?
    case NUMBER => v.Num?
    case BOOLEAN => v.Bool?
    case LIST => v.List?
  }

  predicate IsOrderable(t: FieldType) {
    t == NUMBER || t == DATETIME
  }

  /** A field operand must name a field of the schema. */
  predicate OperandKnown(schema: Schema, arg: Arg) {
    arg.Lit? && IsFieldRef(arg.v) ==> FieldName(arg.v) in schema
  }

  /** Boolean for a nested predicate, the declared type for a field, none for a literal. */
  function OperandType(schema: Schema, arg: Arg): Option<FieldType>
    requires OperandKnown(schema, arg)
  {
    match arg
    case Sub(_) => Some(BOOLEAN)
    case Lit(v) => if IsFieldRef(v) then Some(schema[FieldName(v)]) else None
  }

  predicate LiteralFits(t: Option<FieldType>, other: Arg) {
    t.None? || other.Sub? || IsFieldRef(other.v) || LiteralMatches(t.value, other.v)
  }

  /** The checks on the two operands of a comparison or membership test. */
  predicate OperandsFit(schema: Schema, op: Op, left: Arg, right: Arg) {
    && OperandKnown(schema, left) && OperandKnown(schema, right)
    && var lt, rt := OperandType(schema, left), OperandType(schema, right);
       if op in [In, NotIn] then
         && (rt.None? ==> right.v.List?)
         && (rt.Some? ==> rt.value == LIST)
         && (lt.Some? && right.Lit? && right.v.List? ==>
               forall i :: 0 <= i < |right.v.items| ==> LiteralMatches(lt.value, right.v.items[i]))
       else
         && (IsOrder(op) && lt.Some? ==> IsOrderable(lt.value))
         && (IsOrder(op) && rt.Some? ==> IsOrderable(rt.value))
         && LiteralFits(lt, right) && LiteralFits(rt, left)
  }

  /** True iff `validate` accepts the expression. Operands of a comparison are not
      descended into, and the arity of and/or/not is not looked at. */
  predicate Accepts(schema: Schema, e: Expr) {
    if e.op in [And, Or, Not] then
      forall i :: 0 <= i < |e.args| ==>
        match e.args[i]
        case Sub(x) => Accepts(schema, x)
        case Lit(v) => IsFieldRef(v) ==> FieldName(v) in schema
    else if e.op == Exists then
      |e.args| == 1 && e.args[0].Lit? && IsFieldRef(e.args[0].v) && FieldName(e.args[0].v) in schema
    else |e.args| == 2 && OperandsFit(schema, e.op, e.args[0], e.args[1])
  }

  // ---- what the checker leaves to the author -------------------------------------------

  /** A field reference, or a literal that is not a bare object. */
  predicate PlainOperand(arg: Arg) {
    arg.Lit? && (IsFieldRef(arg.v) || !arg.v.Obj?)
  }

  predicate IsField(arg: Arg) {
    arg.Lit? && IsFieldRef(arg.v)
  }

  /** Both sides of an ordering are fields of one type, or exactly one is a field. */
  predicate SameOrderKind(schema: Schema, left: Arg, right: Arg)
    requires OperandKnown(schema, left) && OperandKnown(schema, right)
  {
    && (IsField(left) || IsField(right))
    && (IsField(left) && IsField(right) ==> OperandType(schema, left) == OperandType(schema, right))
  }

  /** Legal connective arity; nested predicates only under and/or/not; no bare object
      operand; every ordering has a field side and does not mix numbers with dates. */
  predicate Disciplined(schema: Schema, e: Expr)
    requires Accepts(schema, e)
  {
    if e.op in [And, Or, Not] then
      && (e.op == Not ==> |e.args| == 1) && e.args != []
      && forall i :: 0 <= i < |e.args| && e.args[i].Sub? ==> Disciplined(schema, e.args[i].e)
    else if e.op == Exists then true
    else
      && PlainOperand(e.args[0]) && PlainOperand(e.args[1])
      && (IsOrder(e.op) ==> SameOrderKind(schema, e.args[0], e.args[1]))
  }

  function Max(a: nat, b: nat): nat { if a < b then b else a }

  /** How many predicates are nested below the top one. */
  function Nesting(e: Expr): nat {
    NestingOf(e.args)
  }

  function NestingOf(args: seq<Arg>): nat {
    if args == [] then 0 else Max(ArgNesting(args[0]), NestingOf(args[1..]))
  }

  function ArgNesting(arg: Arg): nat {
    match arg case Sub(e) => 1 + Nesting(e) case Lit(_) => 0
  }

  lemma {:induction false} NestingBounds(args: seq<Arg>, i: nat)
    requires i < |args| && args[i].Sub?
    ensures 1 + Nesting(args[i].e) <= NestingOf(args)
  {
    if i > 0 {
      assert args[i] == args[1..][i - 1];
      NestingBounds(args[1..], i - 1);
    }
  }

  /** Every field of the schema has a value of its declared type. */
  predicate Typed(schema: Schema, ctx: Context) {
    forall f :: f in schema ==> f in ctx && LiteralMatches(schema[f], ctx[f])
  }

  lemma OperandValue(schema: Schema, ctx: Context, arg: Arg, depth: nat)
    requires Typed(schema, ctx) && OperandKnown(schema, arg) && PlainOperand(arg)
    ensures var v := Value(arg, ctx, depth);
      && v.Ok? && (IsField(arg) ==> LiteralMatches(schema[FieldName(arg.v)], v.value))
      && (!IsField(arg) ==> v.value == arg.v)
  {
  }

  /** A checked, disciplined comparison of typed operands always has a verdict. */
  lemma ComparisonSound(schema: Schema, ctx: Context, e: Expr, depth: nat)
    requires Accepts(schema, e) && Disciplined(schema, e) && Typed(schema, ctx) && depth <= MAX_DEPTH
    requires e.op !in [And, Or, Not, Exists]
    ensures Eval(e, ctx, depth).Ok?
  {
    OperandValue(schema, ctx, e.args[0], depth);
    OperandValue(schema, ctx, e.args[1], depth);
    var l, r := Value(e.args[0], ctx, depth).value, Value(e.args[1], ctx, depth).value;
    if IsOrder(e.op) {
      assert (l.Num? && r.Num?) || (l.Str? && r.Str?);
    } else if e.op in [In, NotIn] {
      assert r.List?;
    }
  }

  /** A validated expression never errors: if the checker accepts it, it is disciplined,
      nests at most to the limit and all fields are typed, evaluation yields a boolean. */
  lemma {:induction false} ValidatedNeverErrors(schema: Schema, ctx: Context, e: Expr, depth: nat)
    requires Accepts(schema, e) && Disciplined(schema, e) && Typed(schema, ctx)
    requires depth + Nesting(e) <= MAX_DEPTH
    ensures Eval(e, ctx, depth).Ok?
    decreases e, 1
  {
    if e.op in [And, Or, Not] {
      forall i | 0 <= i < |e.args| ensures TruthyArg(e.args[i], ctx, depth).Ok? {
        if e.args[i].Sub? {
          NestingBounds(e.args, i);
          ValidatedNeverErrors(schema, ctx, e.args[i].e, depth + 1);
        }
      }
      ConnectOk(e.args, ctx, depth, false);
      ConnectOk(e.args, ctx, depth, true);
    } else if e.op != Exists {
      ComparisonSound(schema, ctx, e, depth);
    }
  }

  lemma {:induction false} ConnectOk(args: seq<Arg>, ctx: Context, depth: nat, stop: bool)
    requires forall i :: 0 <= i < |args| ==> TruthyArg(args[i], ctx, depth).Ok?
    ensures Connect(args, ctx, depth, stop).Ok?
  {
    if args != [] {
      forall i | 0 <= i < |args[1..]| ensures TruthyArg(args[1..][i], ctx, depth).Ok? {
        assert args[1..][i] == args[i + 1];
      }
      ConnectOk(args[1..], ctx, depth, stop);
    }
  }

  // ---- schemas without dates ---------------------------------------------------------------

  predicate NoDates(schema: Schema) {
    forall f :: f in schema ==> schema[f] != DATETIME
  }

  /** The discipline without the clause about dates. */
  predicate DisciplinedNoDates(e: Expr) {
    if e.op in [And, Or, Not] then
      && (e.op == Not ==> |e.args| == 1) && e.args != []
      && forall i :: 0 <= i < |e.args| && e.args[i].Sub? ==> DisciplinedNoDates(e.args[i].e)
    else if e.op == Exists then true
    else
      && |e.args| == 2 && PlainOperand(e.args[0]) && PlainOperand(e.args[1])
      && (IsOrder(e.op) ==> IsField(e.args[0]) || IsField(e.args[1]))
  }

  lemma {:induction false} NoDatesDisciplined(schema: Schema, e: Expr)
    requires NoDates(schema) && Accepts(schema, e) && DisciplinedNoDates(e)
    ensures Disciplined(schema, e)
  {
    if e.op in [And, Or, Not] {
      forall i | 0 <= i < |e.args| && e.args[i].Sub? ensures Disciplined(schema, e.args[i].e) {
        NoDatesDisciplined(schema, e.args[i].e);
      }
    }
  }

  const TRIGGER_CONTEXT: Schema :=
    map["provider" := STRING, "signal_type" := STRING, "calling_number" := STRING, "called_number" := STRING,
        "cti_route_point" := STRING, "technical_endpoint_id" := STRING, "external_source_id" := STRING,
        "workplace" := STRING, "site" := STRING, "station" := STRING, "alarm_type" := STRING,
        "alarm_subtype" := STRING, "severity" := NUMBER, "call_direction" := STRING, "call_state" := STRING]

  const WORKFLOW_CONTEXT: Schema :=
    map["event_priority" := STRING, "event_status" := STRING, "event_source" := STRING, "event_bbz_id" := STRING,
        "event_workplace_id" := STRING, "branch_key" := STRING, "step_completed_count" := NUMBER,
        "operator_confirmed" := BOOLEAN]

  const RBAC_CONTEXT: Schema :=
    map["now.hour" := NUMBER, "now.weekday" := NUMBER, "now.iso" := STRING, "scope" := STRING]

  /** For the three shipped contexts: what is accepted and disciplined never errors. */
  lemma ShippedContextsSound(schema: Schema, ctx: Context, e: Expr)
    requires schema in [TRIGGER_CONTEXT, WORKFLOW_CONTEXT, RBAC_CONTEXT]
    requires Accepts(schema, e) && DisciplinedNoDates(e) && Typed(schema, ctx) && Nesting(e) <= MAX_DEPTH
    ensures Evaluate(e, ctx).Ok?
  {
    assert NoDates(schema);
    NoDatesDisciplined(schema, e);
    ValidatedNeverErrors(schema, ctx, e, 0);
  }

  /** The context a permission check evaluates a grant's condition in. */
  function RbacContext(hour: nat, weekday: nat, iso: string, scope: string): Context {
    map["now.hour" := Num(hour as real), "now.weekday" := Num(weekday as real),
        "now.iso" := Str(iso), "scope" := Str(scope)]
  }

  /** The RBAC context always meets the typing condition, so a published condition that
      is disciplined always yields a boolean there. */
  lemma RbacConditionsNeverError(e: Expr, hour: nat, weekday: nat, iso: string, scope: string)
    requires Accepts(RBAC_CONTEXT, e) && DisciplinedNoDates(e) && Nesting(e) <= MAX_DEPTH
    ensures Evaluate(e, RbacContext(hour, weekday, iso, scope)).Ok?
  {
    var ctx := RbacContext(hour, weekday, iso, scope);
    assert Typed(RBAC_CONTEXT, ctx) by {
      assert ctx["now.hour"].Num? && ctx["now.weekday"].Num? && ctx["now.iso"].Str? && ctx["scope"].Str?;
    }
    ShippedContextsSound(RBAC_CONTEXT, ctx, e);
  }

  // ---- every condition is needed ---------------------------------------------------------------

  function Ref(name: string): Arg {
    Lit(Obj([Field("field", Str(name))]))
  }

  lemma RefIsField(name: string)
    ensures IsField(Ref(name)) && FieldName(Ref(name).v) == name
  {
    assert Ref(name).v.fields[0].key == "field";
  }

  /** What the checker accepts of a field against a literal, in either order: a known field,
      a literal of its type, and for an ordering a type that has one. */
  lemma FieldLiteralChecked(schema: Schema, op: Op, f: string, v: Json)
    requires op !in [And, Or, Not, Exists, In, NotIn] && !IsFieldRef(v)
    ensures Accepts(schema, Expr(op, [Ref(f), Lit(v)])) <==>
      f in schema && LiteralMatches(schema[f], v) && (IsOrder(op) ==> schema[f] in [NUMBER, DATETIME])
    ensures Accepts(schema, Expr(op, [Lit(v), Ref(f)])) <==> Accepts(schema, Expr(op, [Ref(f), Lit(v)]))
  {
    RefIsField(f);
  }

  /** Of two fields: both known, and for an ordering both of a type that has one. */
  lemma FieldsChecked(schema: Schema, op: Op, f: string, g: string)
    requires op !in [And, Or, Not, Exists, In, NotIn]
    ensures Accepts(schema, Expr(op, [Ref(f), Ref(g)])) <==>
      f in schema && g in schema && (IsOrder(op) ==> schema[f] in [NUMBER, DATETIME] && schema[g] in [NUMBER, DATETIME])
  {
    RefIsField(f);
    RefIsField(g);
  }

  /** Of a membership test: in a literal list whose items have the field's type, or in a
      field that is a list. */
  lemma MembershipChecked(schema: Schema, op: Op, f: string, items: seq<Json>, g: string)
    requires op in [In, NotIn]
    ensures Accepts(schema, Expr(op, [Ref(f), Lit(List(items))])) <==>
      f in schema && forall i :: 0 <= i < |items| ==> LiteralMatches(schema[f], items[i])
    ensures Accepts(schema, Expr(op, [Ref(f), Ref(g)])) <==> f in schema && g in schema && schema[g] == LIST
  {
    RefIsField(f);
    RefIsField(g);
  }

  /** Of connectives: each argument on its own; of `exists`: one known field. */
  lemma ConnectivesChecked(schema: Schema, op: Op, a: Expr, b: Expr, f: string)
    requires op in [And, Or]
    ensures Accepts(schema, Expr(op, [Sub(a), Sub(b)])) <==> Accepts(schema, a) && Accepts(schema, b)
    ensures Accepts(schema, Expr(Not, [Sub(a)])) <==> Accepts(schema, a)
    ensures Accepts(schema, Expr(Exists, [Ref(f)])) <==> f in schema
  {
    RefIsField(f);
    var both, one := Expr(op, [Sub(a), Sub(b)]), Expr(Not, [Sub(a)]);
    assert both.args[0] == Sub(a) && both.args[1] == Sub(b) && one.args[0] == Sub(a);
  }

  /** The fields of the shipped contexts: numbers and booleans by name, all others texts. */
  lemma ShippedFields(f: string)
    ensures f in TRIGGER_CONTEXT ==> TRIGGER_CONTEXT[f] == if f == "severity" then NUMBER else STRING
    ensures f in WORKFLOW_CONTEXT && f == "step_completed_count" ==> WORKFLOW_CONTEXT[f] == NUMBER
    ensures f in WORKFLOW_CONTEXT && f == "operator_confirmed" ==> WORKFLOW_CONTEXT[f] == BOOLEAN
    ensures f in WORKFLOW_CONTEXT && f !in ["step_completed_count", "operator_confirmed"] ==>
      WORKFLOW_CONTEXT[f] == STRING
    ensures f in RBAC_CONTEXT ==> RBAC_CONTEXT[f] == if f in ["now.hour", "now.weekday"] then NUMBER else STRING
  {
  }

  /** A `not` with two arguments is accepted by every schema, and an error in every context. */
  lemma NotWithTwoErrs(schema: Schema, ctx: Context, a: Arg, b: Arg)
    requires a.Lit? && b.Lit? && OperandKnown(schema, a) && OperandKnown(schema, b)
    ensures Accepts(schema, Expr(Not, [a, b])) && Evaluate(Expr(Not, [a, b]), ctx).Err?
  {
  }

  /** Accepted by every schema, and an error in every context: an empty connective, a
      bare object as needle, an ordering of two literals of different kinds. */
  lemma AcceptedButErrs(schema: Schema, ctx: Context)
    ensures Accepts(schema, Expr(And, [])) && Evaluate(Expr(And, []), ctx).Err?
    ensures Accepts(schema, Expr(In, [Lit(Obj([])), Lit(List([]))]))
    ensures Evaluate(Expr(In, [Lit(Obj([])), Lit(List([]))]), ctx).Err?
    ensures var e := Expr(Lt, [Lit(Str("a")), Lit(Num(1.0))]);
      Accepts(schema, e) && forall depth: nat :: Eval(e, ctx, depth).Err?
  {
    EmptyAndErrs(schema, ctx);
    ObjectNeedleErrs(schema, ctx);
    MixedOrderErrs(schema, ctx);
  }

  lemma EmptyAndErrs(schema: Schema, ctx: Context)
    ensures Accepts(schema, Expr(And, [])) && Evaluate(Expr(And, []), ctx).Err?
  {
  }

  lemma ObjectNeedleErrs(schema: Schema, ctx: Context)
    ensures var e := Expr(In, [Lit(Obj([])), Lit(List([]))]); Accepts(schema, e) && Evaluate(e, ctx).Err?
  {
  }

  lemma MixedOrderErrs(schema: Schema, ctx: Context)
    ensures var e := Expr(Lt, [Lit(Str("a")), Lit(Num(1.0))]);
      Accepts(schema, e) && forall depth: nat :: Eval(e, ctx, depth).Err?
  {
  }

  /** Nested predicates under a comparison are not checked: any erring expression can hide there. */
  lemma HiddenUnderComparison(schema: Schema, ctx: Context, bad: Expr)
    requires Eval(bad, ctx, 1).Err?
    ensures var e := Expr(Eq, [Sub(bad), Lit(Bool(true))]);
      Accepts(schema, e) && Evaluate(e, ctx).Err?
  {
    var e := Expr(Eq, [Sub(bad), Lit(Bool(true))]);
    assert Value(e.args[0], ctx, 0).Err?;
  }

  /** Ordering a number field against a date field is accepted and always an error. */
  lemma NumberAgainstDateErrs(schema: Schema, ctx: Context, left: Arg, right: Arg)
    requires IsField(left) && IsField(right) && OperandKnown(schema, left) && OperandKnown(schema, right)
    requires OperandType(schema, left) == Some(NUMBER) && OperandType(schema, right) == Some(DATETIME)
    requires Typed(schema, ctx)
    ensures forall op :: IsOrder(op) ==>
      Accepts(schema, Expr(op, [left, right])) && Evaluate(Expr(op, [left, right]), ctx).Err?
  {
    forall op | IsOrder(op)
      ensures Accepts(schema, Expr(op, [left, right])) && Evaluate(Expr(op, [left, right]), ctx).Err?
    {
      var e := Expr(op, [left, right]);
      assert OperandsFit(schema, op, left, right);
      assert Value(left, ctx, 0).value.Num? && Value(right, ctx, 0).value.Str?;
    }
  }

  /** A field without a value makes an accepted, disciplined ordering error. */
  lemma MissingFieldErrs()
    ensures var e := Expr(Lt, [Ref("n"), Lit(Num(5.0))]);
      Accepts(map["n" := NUMBER], e) && DisciplinedNoDates(e) && Evaluate(e, map[]).Err?
  {
    RefIsField("n");
    assert Value(Ref("n"), map[], 0) == Ok(Null);
  }
}
