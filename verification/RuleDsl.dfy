/** The rule DSL: structural parser and depth-limited short-circuit evaluator
    (packages/rule-dsl/bbz_rule_dsl/model.py). */
module RuleDsl {
  import opened Wrappers
  import opened Text

  datatype Field = Field(key: string, value: Json)

  /** JSON values; an object is its fields in order, looked up by first match. */
  datatype Json =
    | Null
    | Bool(b: bool)
    | Num(n: real)
    | Str(s: string)
    | List(items: seq<Json>)
    | Obj(fields: seq<Field>)

  /** RuleDslError, or the TypeError that an unhashable operator raises. */
  datatype Error = RuleError | UnhashableOp

  datatype Op = Eq | Ne | In | NotIn | Lt | Lte | Gt | Gte | And | Or | Not | Exists

  datatype Arg = Sub(e: Expr) | Lit(v: Json)

  datatype Expr = Expr(op: Op, args: seq<Arg>)

  predicate Has(fields: seq<Field>, key: string) {
    exists i :: 0 <= i < |fields| && fields[i].key == key
  }

  function Get(fields: seq<Field>, key: string): (v: Json)
    requires Has(fields, key)
    ensures exists i :: 0 <= i < |fields| && fields[i] == Field(key, v)
  {
    if fields[0].key == key then fields[0].value else Get(fields[1..], key)
  }

  const OP_NAMES: seq<string> :=
    ["eq", "ne", "in", "not_in", "lt", "lte", "gt", "gte", "and", "or", "not", "exists"]

  const OPS: seq<Op> := [Eq, Ne, In, NotIn, Lt, Lte, Gt, Gte, And, Or, Not, Exists]

  function OpFrom(name: string, i: nat): Option<Op>
    requires i <= 12
    decreases 12 - i
  {
    if i == 12 then None else if OP_NAMES[i] == name then Some(OPS[i]) else OpFrom(name, i + 1)
  }

  /** The operator with this name, if it is on the allowlist. */
  function OpOf(name: string): Option<Op> {
    OpFrom(name, 0)
  }

  // ---- parsing -----------------------------------------------------------------------

  predicate IsNode(j: Json) {
    j.Obj? && Has(j.fields, "op")
  }

  predicate IsFieldRef(j: Json) {
    j.Obj? && Has(j.fields, "field")
  }

  function ParseOp(j: Json): Result<Op, Error> {
    match j
    case Str(s) => if OpOf(s).Some? then Ok(OpOf(s).value) else Err(RuleError)
    case List(_) => Err(UnhashableOp)
    case Obj(_) => Err(UnhashableOp)
    case _ => Err(RuleError)
  }

  function Parse(tree: Json): Result<Expr, Error>
    decreases tree, 1
  {
    if !IsNode(tree) then Err(RuleError)
    else
      var op := ParseOp(Get(tree.fields, "op"));
      if op.Err? then Err(op.error)
      else if !Has(tree.fields, "args") then Ok(Expr(op.value, []))
      else
        var raw := Get(tree.fields, "args");
        if !raw.List? then Err(RuleError)
        else
          var args := ParseArgs(raw.items);
          if args.Err? then Err(args.error) else Ok(Expr(op.value, args.value))
  }

  function ParseArg(arg: Json): Result<Arg, Error>
    decreases arg, 2
  {
    if IsNode(arg) then
      var e := Parse(arg);
      if e.Err? then Err(e.error) else Ok(Sub(e.value))
    else if IsFieldRef(arg) && (!Get(arg.fields, "field").Str? || Get(arg.fields, "field").s == "") then Err(RuleError)
    else Ok(Lit(arg))
  }

  function ParseArgs(items: seq<Json>): Result<seq<Arg>, Error>
    decreases items, 0
  {
    if items == [] then Ok([])
    else
      var first := ParseArg(items[0]);
      if first.Err? then Err(first.error)
      else
        var rest := ParseArgs(items[1..]);
        if rest.Err? then Err(rest.error) else Ok([first.value] + rest.value)
  }

  /** The parser in the form the code has: a loop appending parsed arguments. */
  method ParseTree(tree: Json) returns (r: Result<Expr, Error>)
    ensures r == Parse(tree)
    decreases tree
  {
    if !IsNode(tree) { return Err(RuleError); }
    var op := ParseOp(Get(tree.fields, "op"));
    if op.Err? { return Err(op.error); }
    var raw := if Has(tree.fields, "args") then Get(tree.fields, "args") else List([]);
    if !raw.List? { return Err(RuleError); }
    var parsed: seq<Arg> := [];
    var i := 0;
    assert raw.items[0..] == raw.items;
    while i < |raw.items|
      invariant 0 <= i <= |raw.items|
      invariant ParseArgs(raw.items) == Prepend(parsed, ParseArgs(raw.items[i..]))
    {
      var arg := raw.items[i];
      assert raw.items[i..][0] == arg && raw.items[i..][1..] == raw.items[i + 1..];
      if IsNode(arg) {
        var e := ParseTree(arg);
        if e.Err? { return Err(e.error); }
        PrependTwice(parsed, [Sub(e.value)], ParseArgs(raw.items[i + 1..]));
        parsed := parsed + [Sub(e.value)];
      } else if IsFieldRef(arg) && (!Get(arg.fields, "field").Str? || Get(arg.fields, "field").s == "") {
        return Err(RuleError);
      } else {
        PrependTwice(parsed, [Lit(arg)], ParseArgs(raw.items[i + 1..]));
        parsed := parsed + [Lit(arg)];
      }
      i := i + 1;
    }
    assert raw.items[i..] == [] && parsed + [] == parsed;
    return Ok(Expr(op.value, parsed));
  }

  function Prepend(front: seq<Arg>, r: Result<seq<Arg>, Error>): (p: Result<seq<Arg>, Error>)
    ensures front == [] ==> p == r
  {
    if r.Err? then r
    else
      assert front == [] ==> front + r.value == r.value;
      Ok(front + r.value)
  }

  lemma PrependTwice(a: seq<Arg>, b: seq<Arg>, r: Result<seq<Arg>, Error>)
    ensures Prepend(a, Prepend(b, r)) == Prepend(a + b, r)
  {
    if r.Ok? { assert a + (b + r.value) == (a + b) + r.value; }
  }

  // ---- the parser inverts the tree form -------------------------------------------------

  function OpName(op: Op): (s: string)
    ensures OpOf(s) == Some(op)
  {
    match op
    case Eq => "eq"
    case Ne => "ne"
    case In => "in"
    case NotIn => "not_in"
    case Lt => "lt"
    case Lte => "lte"
    case Gt => "gt"
    case Gte => "gte"
    case And => "and"
    case Or => "or"
    case Not => "not"
    case Exists => "exists"
  }

  function ToTree(e: Expr): Json {
    Obj([Field("op", Str(OpName(e.op))), Field("args", List(ToTrees(e.args)))])
  }

  function ToTrees(args: seq<Arg>): seq<Json> {
    if args == [] then [] else [ArgTree(args[0])] + ToTrees(args[1..])
  }

  function ArgTree(arg: Arg): Json {
    match arg case Sub(e) => ToTree(e) case Lit(v) => v
  }

  predicate LiteralOk(v: Json) {
    !IsNode(v) && (IsFieldRef(v) ==> Get(v.fields, "field").Str? && Get(v.fields, "field").s != "")
  }

  /** What a parsed expression looks like: literals are not nodes, field references name a field. */
  predicate WellFormed(e: Expr) {
    forall i :: 0 <= i < |e.args| ==>
      match e.args[i] case Sub(x) => WellFormed(x) case Lit(v) => LiteralOk(v)
  }

  lemma {:induction false} ParseInvertsToTree(e: Expr)
    requires WellFormed(e)
    ensures Parse(ToTree(e)) == Ok(e)
    decreases e, 1
  {
    var fields := [Field("op", Str(OpName(e.op))), Field("args", List(ToTrees(e.args)))];
    assert Has(fields, "op") by { assert fields[0].key == "op"; }
    assert Has(fields, "args") by { assert fields[1].key == "args"; }
    assert "op" != "args";
    assert fields[1..][0] == fields[1];
    assert Get(fields, "args") == Get(fields[1..], "args") == List(ToTrees(e.args));
    ParseInvertsToTrees(e, e.args);
  }

  lemma {:induction false} ParseInvertsToTrees(e: Expr, args: seq<Arg>)
    requires forall i :: 0 <= i < |args| ==> args[i] in e.args
    requires WellFormed(e)
    ensures ParseArgs(ToTrees(args)) == Ok(args)
    decreases e, 0, |args|
  {
    if args != [] {
      assert args[0] in e.args;
      assert match args[0] case Sub(x) => WellFormed(x) case Lit(v) => LiteralOk(v);
      ParseInvertsToTrees(e, args[1..]);
      var trees := ToTrees(args);
      assert trees[1..] == ToTrees(args[1..]);
      match args[0] {
        case Sub(x) =>
          ParseInvertsToTree(x);
          assert IsNode(trees[0]) by { assert trees[0].fields[0].key == "op"; }
        case Lit(v) =>
      }
      assert [args[0]] + args[1..] == args;
    }
  }

  /** Whatever the parser accepts is well formed, so its tree form parses back to it. */
  lemma {:induction false} ParsedIsWellFormed(tree: Json)
    requires Parse(tree).Ok?
    ensures WellFormed(Parse(tree).value) && Parse(ToTree(Parse(tree).value)) == Parse(tree)
    decreases tree, 1
  {
    if Has(tree.fields, "args") {
      ParsedArgsWellFormed(Get(tree.fields, "args").items);
    }
    ParseInvertsToTree(Parse(tree).value);
  }

  lemma {:induction false} ParsedArgsWellFormed(items: seq<Json>)
    requires ParseArgs(items).Ok?
    ensures forall i :: 0 <= i < |ParseArgs(items).value| ==>
      match ParseArgs(items).value[i] case Sub(x) => WellFormed(x) case Lit(v) => LiteralOk(v)
    decreases items, 0
  {
    if items != [] {
      ParsedArgsWellFormed(items[1..]);
      if IsNode(items[0]) { ParsedIsWellFormed(items[0]); }
    }
  }

  // ---- what parses -------------------------------------------------------------------------

  /** A node with an allowed operator and, if it has arguments, a list of them. */
  predicate IsTree(tree: Json)
    decreases tree, 1
  {
    && IsNode(tree) && Get(tree.fields, "op").Str? && Get(tree.fields, "op").s in OP_NAMES
    && (Has(tree.fields, "args") ==>
          && Get(tree.fields, "args").List?
          && AreArgs(Get(tree.fields, "args").items))
  }

  predicate AreArgs(items: seq<Json>)
    decreases items, 0
  {
    forall i :: 0 <= i < |items| ==> IsArg(items[i])
  }

  /** A nested node, a reference that names a field, or any other value. */
  predicate IsArg(arg: Json)
    decreases arg, 2
  {
    if IsNode(arg) then IsTree(arg)
    else IsFieldRef(arg) ==> Get(arg.fields, "field").Str? && Get(arg.fields, "field").s != ""
  }

  function ArgsOf(tree: Json): seq<Json>
    requires IsTree(tree)
  {
    if Has(tree.fields, "args") then Get(tree.fields, "args").items else []
  }

  lemma {:induction false} NamesFound(name: string, i: nat)
    requires i <= 12
    ensures OpFrom(name, i).Some? <==> name in OP_NAMES[i..]
    decreases 12 - i
  {
    if i < 12 {
      NamesFound(name, i + 1);
      assert OP_NAMES[i..] == [OP_NAMES[i]] + OP_NAMES[i + 1..];
    }
  }

  /** Exactly which trees parse. An operator that is a list or an object is not even an
      error of the rule, but of the look-up. */
  lemma {:induction false} ParsesExactly(tree: Json)
    ensures Parse(tree).Ok? <==> IsTree(tree)
    ensures IsNode(tree) && (Get(tree.fields, "op").List? || Get(tree.fields, "op").Obj?) ==>
      Parse(tree) == Err(UnhashableOp)
    ensures IsTree(tree) ==> OpOf(Get(tree.fields, "op").s) == Some(Parse(tree).value.op)
    ensures IsTree(tree) ==> |Parse(tree).value.args| == |ArgsOf(tree)|
    decreases tree, 1
  {
    if IsNode(tree) {
      if Get(tree.fields, "op").Str? {
        NamesFound(Get(tree.fields, "op").s, 0);
        assert OP_NAMES[0..] == OP_NAMES;
      }
      if Has(tree.fields, "args") && Get(tree.fields, "args").List? { ArgsParse(Get(tree.fields, "args").items); }
    }
  }

  lemma {:induction false} ArgsParse(items: seq<Json>)
    ensures ParseArgs(items).Ok? <==> AreArgs(items)
    ensures AreArgs(items) ==> |ParseArgs(items).value| == |items|
    decreases items, 0
  {
    if items != [] {
      ArgsParse(items[1..]);
      if IsNode(items[0]) { ParsesExactly(items[0]); }
      assert AreArgs(items) <==> IsArg(items[0]) && AreArgs(items[1..]);
    }
  }

  // ---- Python values ----------------------------------------------------------------------

  predicate IsNumeric(j: Json) {
    j.Bool? || j.Num?
  }

  function NumOf(j: Json): real
    requires IsNumeric(j)
  {
    match j case Bool(b) => if b then 1.0 else 0.0 case Num(n) => n
  }

  /** Python's `==`: booleans are numbers, lists compare element by element. */
  predicate PyEq(a: Json, b: Json)
    decreases a
  {
    if IsNumeric(a) && IsNumeric(b) then NumOf(a) == NumOf(b)
    else match (a, b)
      case (Null, Null) => true
      case (Str(x), Str(y)) => x == y
      case (List(x), List(y)) => |x| == |y| && forall i :: 0 <= i < |x| ==> PyEq(x[i], y[i])
      case (Obj(x), Obj(y)) =>
        |x| == |y| && forall i :: 0 <= i < |x| ==> Has(y, x[i].key) && PyEq(x[i].value, Get(y, x[i].key))
      case _ => false
  }

  function Truthy(j: Json): bool {
    match j
    case Null => false
    case Bool(b) => b
    case Num(n) => n != 0.0
    case Str(s) => s != ""
    case List(x) => x != []
    case Obj(x) => x != []
  }

  predicate StrLess(a: string, b: string) {
    b != "" && (a == "" || a[0] < b[0] || (a[0] == b[0] && StrLess(a[1..], b[1..])))
  }

  /** An ordering operator applied to two values of one kind; `None` is Python's TypeError. */
  function Ordered(op: Op, a: Json, b: Json): Option<bool>
    decreases a
  {
    if IsNumeric(a) && IsNumeric(b) then Some(Holds(op, NumOf(a) < NumOf(b), NumOf(b) < NumOf(a)))
    else match (a, b)
      case (Str(x), Str(y)) => Some(Holds(op, StrLess(x, y), StrLess(y, x)))
      case (List(x), List(y)) => OrderedLists(op, x, y)
      case _ => None
  }

  /** The operator's verdict, given which of the two operands is smaller. */
  function Holds(op: Op, less: bool, greater: bool): bool
  {
    match op
    case Lt => less
    case Lte => !greater
    case Gt => greater
    case _ => !less
  }

  /** Lists are ordered by their first unequal elements, else by length. */
  function OrderedLists(op: Op, x: seq<Json>, y: seq<Json>): Option<bool>
    decreases x
  {
    if x == [] || y == [] then Some(Holds(op, |x| < |y|, |y| < |x|))
    else if PyEq(x[0], y[0]) then OrderedLists(op, x[1..], y[1..])
    else Ordered(op, x[0], y[0])
  }

  /** Python's `in` on a list or a string; `None` is a TypeError or a non-collection. */
  function Member(needle: Json, haystack: Json): Option<bool> {
    match haystack
    case List(items) => Some(exists i :: 0 <= i < |items| && PyEq(needle, items[i]))
    case Str(s) => if needle.Str? then Some(Occurs(needle.s, s)) else None
    case _ => None
  }

  // ---- evaluation -------------------------------------------------------------------------

  const MAX_DEPTH: nat := 64

  /** Resolved field values; a missing field is null. */
  type Context = map<string, Json>

  function Lookup(ctx: Context, name: string): Json {
    if name in ctx then ctx[name] else Null
  }

  /** The name in a field reference; the parser admits non-empty strings only. */
  function FieldName(v: Json): string
    requires IsFieldRef(v)
  {
    match Get(v.fields, "field") case Str(s) => s case _ => ""
  }

  type Verdict = Result<bool, Error>

  function Value(arg: Arg, ctx: Context, depth: nat): Result<Json, Error>
    decreases arg, 0
  {
    match arg
    case Sub(e) =>
      var r := Eval(e, ctx, depth + 1);
      if r.Err? then Err(r.error) else Ok(Bool(r.value))
    case Lit(v) =>
      if IsFieldRef(v) then Ok(Lookup(ctx, FieldName(v)))
      else if v.Obj? then Err(RuleError)
      else Ok(v)
  }

  function TruthyArg(arg: Arg, ctx: Context, depth: nat): Verdict
    decreases arg, 0
  {
    match arg
    case Sub(e) => Eval(e, ctx, depth + 1)
    case Lit(v) => if IsFieldRef(v) then Ok(Truthy(Lookup(ctx, FieldName(v)))) else Ok(Truthy(v))
  }

  /** Python's all()/any(): left to right, stopping at the first argument that is `stop`. */
  function Connect(args: seq<Arg>, ctx: Context, depth: nat, stop: bool): Verdict
    decreases args, 0
  {
    if args == [] then Ok(!stop)
    else
      var first := TruthyArg(args[0], ctx, depth);
      if first.Err? || first.value == stop then first else Connect(args[1..], ctx, depth, stop)
  }

  function Verdicts(r: Option<bool>): Verdict {
    if r.None? then Err(RuleError) else Ok(r.value)
  }

  predicate IsOrder(op: Op) {
    op in [Lt, Lte, Gt, Gte]
  }

  /** A binary operator applied to its two values. */
  function Apply(op: Op, left: Json, right: Json): Verdict
  {
    match op
    case Eq => Ok(PyEq(left, right))
    case Ne => Ok(!PyEq(left, right))
    case In => Verdicts(Member(left, right))
    case NotIn => Verdicts(var m := Member(left, right); if m.None? then None else Some(!m.value))
    case _ => Verdicts(Ordered(op, left, right))
  }

  function Eval(e: Expr, ctx: Context, depth: nat): Verdict
    decreases e, 1
  {
    if depth > MAX_DEPTH then Err(RuleError)
    else match e.op
      case And => if e.args == [] then Err(RuleError) else Connect(e.args, ctx, depth, false)
      case Or => if e.args == [] then Err(RuleError) else Connect(e.args, ctx, depth, true)
      case Not =>
        if |e.args| != 1 then Err(RuleError)
        else
          var r := TruthyArg(e.args[0], ctx, depth);
          if r.Err? then r else Ok(!r.value)
      case Exists =>
        if |e.args| == 1 && e.args[0].Lit? && IsFieldRef(e.args[0].v)
        then Ok(!Lookup(ctx, FieldName(e.args[0].v)).Null?) else Err(RuleError)
      case _ =>
        if |e.args| != 2 then Err(RuleError)
        else
          var left := Value(e.args[0], ctx, depth);
          if left.Err? then Err(left.error)
          else
            var right := Value(e.args[1], ctx, depth);
            if right.Err? then Err(right.error) else Apply(e.op, left.value, right.value)
  }

  function Evaluate(e: Expr, ctx: Context): Verdict {
    Eval(e, ctx, 0)
  }
}
