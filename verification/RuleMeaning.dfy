/** What a rule's verdict means, apart from the evaluator: operators as relations on values,
    connectives as quantifiers over arguments. */
module RuleMeaning {
  import opened Wrappers
  import opened Text
  import opened RuleDsl
  import opened RuleSafety

  // ---- values up to Python's equality ---------------------------------------------------------

  /** A value up to `==`: booleans are numbers, an object is the map of its fields. */
  datatype Plain = PNull | PNum(n: real) | PStr(s: string) | PList(items: seq<Plain>) | PObj(fields: map<string, Plain>)

  function PlainOf(v: Json): Plain
    requires DistinctKeys(v)
  {
    match v
    case Null => PNull
    case Bool(b) => PNum(if b then 1.0 else 0.0)
    case Num(n) => PNum(n)
    case Str(s) => PStr(s)
    case List(items) => PList(seq(|items|, i requires 0 <= i < |items| => PlainOf(items[i])))
    case Obj(fields) => PObj(PlainFields(fields))
  }

  function PlainFields(fields: seq<Field>): map<string, Plain>
    requires forall i :: 0 <= i < |fields| ==> DistinctKeys(fields[i].value)
  {
    if fields == [] then map[]
    else
      var n := |fields| - 1;
      PlainFields(fields[..n])[fields[n].key := PlainOf(fields[n].value)]
  }

  /** Two values are the same. */
  predicate Same(a: Json, b: Json) {
    DistinctKeys(a) && DistinctKeys(b) && PlainOf(a) == PlainOf(b)
  }

  lemma {:induction false} EqIsSame(a: Json, b: Json)
    requires DistinctKeys(a) && DistinctKeys(b)
    ensures PyEq(a, b) <==> Same(a, b)
    decreases a
  {
    if a.List? && b.List? {
      ListsSame(a.items, b.items);
    } else if a.Obj? && b.Obj? {
      ObjectsSame(a.fields, b.fields);
    }
  }

  lemma {:induction false} ListsSame(x: seq<Json>, y: seq<Json>)
    requires DistinctKeys(List(x)) && DistinctKeys(List(y))
    ensures PyEq(List(x), List(y)) <==> Same(List(x), List(y))
    decreases x
  {
    var p, q := PlainOf(List(x)).items, PlainOf(List(y)).items;
    if |x| == |y| {
      forall i | 0 <= i < |x| ensures PyEq(x[i], y[i]) <==> p[i] == q[i] { EqIsSame(x[i], y[i]); }
    }
  }

  function KeysOf(fields: seq<Field>): set<string> {
    set i | 0 <= i < |fields| :: fields[i].key
  }

  lemma {:induction false} KeysCount(fields: seq<Field>)
    requires forall i, j :: 0 <= i < j < |fields| ==> fields[i].key != fields[j].key
    ensures |KeysOf(fields)| == |fields|
  {
    if fields != [] {
      var n := |fields| - 1;
      KeysCount(fields[..n]);
      assert KeysOf(fields) == KeysOf(fields[..n]) + {fields[n].key};
    }
  }

  lemma SameCount(a: set<string>, b: set<string>)
    requires a <= b && |a| == |b|
    ensures a == b
  {
    assert b == a + (b - a);
  }

  /** A field of one object agrees with the other object. */
  predicate Agrees(f: Field, y: seq<Field>) {
    Has(y, f.key) && PyEq(f.value, Get(y, f.key))
  }

  /** The map of an object's fields. */
  lemma {:induction false} FieldMap(y: seq<Field>, key: string)
    requires DistinctKeys(Obj(y))
    ensures var q := PlainFields(y);
      && (key in q <==> Has(y, key)) && q.Keys == KeysOf(y)
      && forall j :: 0 <= j < |y| && y[j].key == key ==> q[key] == PlainOf(y[j].value)
  {
    if y != [] {
      var n := |y| - 1;
      FieldMap(y[..n], key);
      assert KeysOf(y) == KeysOf(y[..n]) + {y[n].key};
      assert Has(y, key) <==> key in KeysOf(y);
      assert Has(y[..n], key) <==> key in KeysOf(y[..n]);
    }
  }

  lemma {:induction false} FieldAgrees(f: Field, y: seq<Field>)
    requires DistinctKeys(f.value) && DistinctKeys(Obj(y))
    ensures var q := PlainOf(Obj(y)).fields;
      Agrees(f, y) <==> f.key in q && q[f.key] == PlainOf(f.value)
    decreases f
  {
    FieldMap(y, f.key);
    if Has(y, f.key) {
      var j :| 0 <= j < |y| && y[j].key == f.key;
      GetDistinct(y, j);
      EqIsSame(f.value, y[j].value);
    }
  }

  lemma AgreeingMaps(x: seq<Field>, y: seq<Field>, p: map<string, Plain>, q: map<string, Plain>)
    requires p.Keys == KeysOf(x) && q.Keys == KeysOf(y) && |x| == |p.Keys| && |y| == |q.Keys|
    requires forall i :: 0 <= i < |x| ==> (Agrees(x[i], y) <==> x[i].key in q && q[x[i].key] == p[x[i].key])
    ensures (|x| == |y| && forall i :: 0 <= i < |x| ==> Agrees(x[i], y)) <==> p == q
  {
    if |x| == |y| && forall i :: 0 <= i < |x| ==> Agrees(x[i], y) {
      forall k | k in p.Keys ensures k in q.Keys && p[k] == q[k] {
        var i :| 0 <= i < |x| && x[i].key == k;
        assert Agrees(x[i], y);
      }
      SameCount(p.Keys, q.Keys);
    }
    if p == q {
      forall i | 0 <= i < |x| ensures Agrees(x[i], y) { assert x[i].key in KeysOf(x); }
    }
  }

  lemma {:induction false} ObjectsSame(x: seq<Field>, y: seq<Field>)
    requires DistinctKeys(Obj(x)) && DistinctKeys(Obj(y))
    ensures PyEq(Obj(x), Obj(y)) <==> Same(Obj(x), Obj(y))
    decreases x
  {
    var p, q := PlainOf(Obj(x)).fields, PlainOf(Obj(y)).fields;
    KeysCount(x);
    KeysCount(y);
    FieldMap(x, "");
    FieldMap(y, "");
    forall i | 0 <= i < |x| ensures Agrees(x[i], y) <==> x[i].key in q && q[x[i].key] == p[x[i].key] {
      FieldMap(x, x[i].key);
      FieldAgrees(x[i], y);
    }
    AgreeingMaps(x, y, p, q);
    ObjectsEq(x, y);
  }

  lemma ObjectsEq(x: seq<Field>, y: seq<Field>)
    ensures PyEq(Obj(x), Obj(y)) <==> |x| == |y| && forall i :: 0 <= i < |x| ==> Agrees(x[i], y)
  {
  }

  // ---- the order of values -----------------------------------------------------------------------

  /** The texts agree before position `i`, where the first ends or has the smaller character. */
  predicate BeforeAt(x: string, y: string, i: nat) {
    i <= |x| && i < |y| && x[..i] == y[..i] && (i == |x| || x[i] < y[i])
  }

  lemma {:induction false} StrLessExactly(x: string, y: string)
    ensures StrLess(x, y) <==> exists i :: BeforeAt(x, y, i)
  {
    if x == "" || y == "" || x[0] != y[0] {
      assert BeforeAt(x, y, 0) <==> StrLess(x, y);
      forall i: nat ensures BeforeAt(x, y, i) ==> i == 0 {
        if 0 < i <= |x| && i < |y| { assert x[..i][0] == x[0] && y[..i][0] == y[0]; }
      }
    } else {
      StrLessExactly(x[1..], y[1..]);
      forall i: nat ensures BeforeAt(x[1..], y[1..], i) <==> BeforeAt(x, y, i + 1) { Shifted(x, y, i); }
      if StrLess(x, y) {
        var i: nat :| BeforeAt(x[1..], y[1..], i);
        assert BeforeAt(x, y, i + 1);
      }
      if i: nat :| BeforeAt(x, y, i) { assert i > 0 && BeforeAt(x[1..], y[1..], i - 1); }
    }
  }

  lemma Shifted(x: string, y: string, i: nat)
    requires x != "" && y != "" && x[0] == y[0]
    ensures BeforeAt(x[1..], y[1..], i) <==> BeforeAt(x, y, i + 1)
  {
    if i + 1 <= |x| && i + 1 < |y| {
      assert x[..i + 1] == [x[0]] + x[1..][..i] && y[..i + 1] == [y[0]] + y[1..][..i];
    }
  }

  lemma {:induction false} StrTrichotomy(x: string, y: string)
    ensures StrLess(x, y) || x == y || StrLess(y, x)
    ensures !(StrLess(x, y) && StrLess(y, x)) && !StrLess(x, x)
  {
    if x != "" && y != "" { StrTrichotomy(x[1..], y[1..]); assert x == [x[0]] + x[1..] && y == [y[0]] + y[1..]; }
    if x != "" { NotBelowItself(x); }
  }

  lemma {:induction false} NotBelowItself(x: string)
    ensures !StrLess(x, x)
  {
    if x != "" { NotBelowItself(x[1..]); }
  }

  /** The lists agree before position `i`, where the first ends or has the smaller element. */
  ghost predicate ListBeforeAt(x: seq<Json>, y: seq<Json>, i: nat)
    decreases x, 0
  {
    && i <= |x| && i < |y| && (forall k :: 0 <= k < i ==> Same(x[k], y[k]))
    && (i == |x| || (!Same(x[i], y[i]) && Less(x[i], y[i])))
  }

  /** The order of numbers, of texts by their first difference, of lists likewise. */
  ghost predicate Less(a: Json, b: Json)
    decreases a, 1
  {
    if IsNumeric(a) && IsNumeric(b) then NumOf(a) < NumOf(b)
    else match (a, b)
      case (Str(x), Str(y)) => exists i :: BeforeAt(x, y, i)
      case (List(x), List(y)) => exists i :: ListBeforeAt(x, y, i)
      case _ => false
  }

  ghost predicate OrderHolds(op: Op, a: Json, b: Json) {
    match op
    case Lt => Less(a, b)
    case Lte => Less(a, b) || Same(a, b)
    case Gt => Less(b, a)
    case _ => Less(b, a) || Same(a, b)
  }

  lemma ListTail(x: seq<Json>, y: seq<Json>)
    requires x != [] && y != [] && DistinctKeys(List(x)) && DistinctKeys(List(y)) && Same(x[0], y[0])
    ensures Less(List(x), List(y)) <==> Less(List(x[1..]), List(y[1..]))
    ensures Same(List(x), List(y)) <==> Same(List(x[1..]), List(y[1..]))
  {
    forall i: nat ensures ListBeforeAt(x[1..], y[1..], i) <==> ListBeforeAt(x, y, i + 1) { ListShifted(x, y, i); }
    if i: nat :| ListBeforeAt(x, y, i) { assert i > 0 && ListBeforeAt(x[1..], y[1..], i - 1); }
    if i: nat :| ListBeforeAt(x[1..], y[1..], i) { assert ListBeforeAt(x, y, i + 1); }
    ListsSameTail(x, y);
  }

  lemma ListShifted(x: seq<Json>, y: seq<Json>, i: nat)
    requires x != [] && y != [] && Same(x[0], y[0])
    ensures ListBeforeAt(x[1..], y[1..], i) <==> ListBeforeAt(x, y, i + 1)
  {
    if ListBeforeAt(x[1..], y[1..], i) {
      forall k | 0 <= k < i + 1 ensures Same(x[k], y[k]) {
        if k > 0 { assert x[1..][k - 1] == x[k] && y[1..][k - 1] == y[k]; }
      }
    }
    if ListBeforeAt(x, y, i + 1) {
      forall k | 0 <= k < i ensures Same(x[1..][k], y[1..][k]) { assert Same(x[k + 1], y[k + 1]); }
    }
  }

  lemma ListsSameTail(x: seq<Json>, y: seq<Json>)
    requires x != [] && y != [] && DistinctKeys(List(x)) && DistinctKeys(List(y)) && Same(x[0], y[0])
    ensures Same(List(x), List(y)) <==> Same(List(x[1..]), List(y[1..]))
  {
    var p, q := PlainOf(List(x)).items, PlainOf(List(y)).items;
    var p', q' := PlainOf(List(x[1..])).items, PlainOf(List(y[1..])).items;
    assert DistinctKeys(List(x[1..])) && DistinctKeys(List(y[1..]));
    assert p[1..] == p' && q[1..] == q';
    assert p == [p[0]] + p[1..] && q == [q[0]] + q[1..];
    assert p[0] == q[0];
  }

  lemma ListHeads(x: seq<Json>, y: seq<Json>)
    requires x != [] && y != [] && DistinctKeys(List(x)) && DistinctKeys(List(y)) && !Same(x[0], y[0])
    ensures Less(List(x), List(y)) <==> Less(x[0], y[0])
    ensures !Same(List(x), List(y))
  {
    assert ListBeforeAt(x, y, 0) <==> Less(x[0], y[0]);
    forall i | ListBeforeAt(x, y, i) ensures i == 0 {}
    assert PlainOf(List(x)).items[0] == PlainOf(x[0]) && PlainOf(List(y)).items[0] == PlainOf(y[0]);
  }

  lemma SameTurns(a: Json, b: Json)
    ensures Same(a, b) <==> Same(b, a)
  {
  }

  lemma ListEnds(op: Op, x: seq<Json>, y: seq<Json>)
    requires (x == [] || y == []) && DistinctKeys(List(x)) && DistinctKeys(List(y))
    ensures IsOrder(op) ==> (Holds(op, |x| < |y|, |y| < |x|) <==> OrderHolds(op, List(x), List(y)))
  {
    assert ListBeforeAt(x, y, 0) <==> x == [] && y != [];
    assert ListBeforeAt(y, x, 0) <==> y == [] && x != [];
    forall i | ListBeforeAt(x, y, i) ensures i == 0 {}
    forall i | ListBeforeAt(y, x, i) ensures i == 0 {}
    assert |PlainOf(List(x)).items| == |x| && |PlainOf(List(y)).items| == |y|;
    assert Same(List(x), List(y)) <==> |x| == |y|;
    assert Less(List(x), List(y)) <==> |x| < |y|;
    assert Less(List(y), List(x)) <==> |y| < |x|;
  }

  /** Where an ordering has a verdict, it is the order of the values. */
  lemma {:induction false} OrderedMeans(op: Op, a: Json, b: Json)
    requires IsOrder(op) && DistinctKeys(a) && DistinctKeys(b) && Ordered(op, a, b).Some?
    ensures Ordered(op, a, b).value <==> OrderHolds(op, a, b)
    decreases a, 1
  {
    match (a, b)
    case (Str(x), Str(y)) =>
      StrLessExactly(x, y);
      StrLessExactly(y, x);
      StrTrichotomy(x, y);
    case (List(x), List(y)) => ListsMean(op, x, y);
    case _ =>
  }

  lemma {:induction false} ListsMean(op: Op, x: seq<Json>, y: seq<Json>)
    requires IsOrder(op) && DistinctKeys(List(x)) && DistinctKeys(List(y)) && OrderedLists(op, x, y).Some?
    ensures OrderedLists(op, x, y).value <==> OrderHolds(op, List(x), List(y))
    decreases x, 0
  {
    if x == [] || y == [] {
      ListEnds(op, x, y);
    } else {
      EqIsSame(x[0], y[0]);
      SameTurns(x[0], y[0]);
      if Same(x[0], y[0]) {
        ListsMean(op, x[1..], y[1..]);
        ListTail(x, y);
        ListTail(y, x);
      } else {
        OrderedMeans(op, x[0], y[0]);
        ListHeads(x, y);
        ListHeads(y, x);
      }
    }
  }

  // ---- what an expression means ---------------------------------------------------------------------

  /** The values Python takes for false. */
  const FALSY: seq<Json> := [Null, Bool(false), Num(0.0), Str(""), List([]), Obj([])]

  predicate Parts(text: string, before: string, middle: string, after: string) {
    text == before + middle + after
  }

  /** Some element is the same, or the text has the needle in it. */
  ghost predicate Contains(hay: Json, needle: Json) {
    match hay
    case List(items) => exists i :: 0 <= i < |items| && Same(needle, items[i])
    case Str(s) => needle.Str? && exists before, after :: Parts(s, before, needle.s, after)
    case _ => false
  }

  ghost predicate Relates(op: Op, a: Json, b: Json) {
    match op
    case Eq => Same(a, b)
    case Ne => !Same(a, b)
    case In => Contains(b, a)
    case NotIn => !Contains(b, a)
    case _ => OrderHolds(op, a, b)
  }

  /** A field stands for its value, or null if the context does not have it. */
  function Resolved(v: Json, ctx: Context): Json {
    if !IsFieldRef(v) then v else if FieldName(v) in ctx then ctx[FieldName(v)] else Null
  }

  ghost function Meant(arg: Arg, ctx: Context): Json
    decreases arg, 0
  {
    match arg case Sub(e) => Bool(Means(e, ctx)) case Lit(v) => Resolved(v, ctx)
  }

  ghost predicate IsTrue(arg: Arg, ctx: Context)
    decreases arg, 0
  {
    match arg case Sub(e) => Means(e, ctx) case Lit(v) => Resolved(v, ctx) !in FALSY
  }

  /** `and`: all arguments are true; `or`: one is; `exists`: the field has a value; a binary
      operator: the two values are so related. */
  ghost predicate Means(e: Expr, ctx: Context)
    decreases e, 1
  {
    match e.op
    case And => forall i :: 0 <= i < |e.args| ==> IsTrue(e.args[i], ctx)
    case Or => exists i :: 0 <= i < |e.args| && IsTrue(e.args[i], ctx)
    case Not => |e.args| == 1 && !IsTrue(e.args[0], ctx)
    case Exists => |e.args| == 1 && e.args[0].Lit? && Resolved(e.args[0].v, ctx) != Null
    case _ => |e.args| == 2 && Relates(e.op, Meant(e.args[0], ctx), Meant(e.args[1], ctx))
  }

  /** All values are dictionaries' values: no object has a key twice. */
  predicate Proper(e: Expr) {
    forall i :: 0 <= i < |e.args| ==>
      match e.args[i] case Sub(x) => Proper(x) case Lit(v) => DistinctKeys(v)
  }

  predicate ProperContext(ctx: Context) {
    forall f :: f in ctx ==> DistinctKeys(ctx[f])
  }

  lemma TruthyExactly(v: Json)
    ensures Truthy(v) <==> v !in FALSY
  {
  }

  lemma MemberMeans(needle: Json, hay: Json)
    requires DistinctKeys(needle) && DistinctKeys(hay) && Member(needle, hay).Some?
    ensures Member(needle, hay).value <==> Contains(hay, needle)
  {
    match hay
    case List(items) =>
      forall i | 0 <= i < |items| ensures PyEq(needle, items[i]) <==> Same(needle, items[i]) {
        EqIsSame(needle, items[i]);
      }
    case Str(s) => OccursMeans(needle.s, s);
    case _ =>
  }

  lemma OccursMeans(needle: string, s: string)
    ensures Occurs(needle, s) <==> exists before, after :: Parts(s, before, needle, after)
  {
    if Occurs(needle, s) {
      var i :| 0 <= i <= |s| && OccursAt(needle, s, i);
      assert Parts(s, s[..i], needle, s[i + |needle|..]);
    }
    if before, after :| Parts(s, before, needle, after) {
      assert OccursAt(needle, s, |before|);
    }
  }

  lemma ApplyMeans(op: Op, a: Json, b: Json)
    requires op !in [And, Or, Not, Exists] && DistinctKeys(a) && DistinctKeys(b) && Apply(op, a, b).Ok?
    ensures Apply(op, a, b).value <==> Relates(op, a, b)
  {
    EqIsSame(a, b);
    if op in [In, NotIn] {
      MemberMeans(a, b);
    } else if op !in [Eq, Ne] {
      OrderedMeans(op, a, b);
    }
  }

  /** The argument's verdict, where evaluation comes to it, is what it means. */
  lemma ArgMeans(arg: Arg, ctx: Context, depth: nat)
    requires arg.Sub? && Eval(arg.e, ctx, depth + 1).Ok? ==>
      (Eval(arg.e, ctx, depth + 1).value <==> Means(arg.e, ctx))
    ensures TruthyArg(arg, ctx, depth).Ok? ==> (TruthyArg(arg, ctx, depth).value <==> IsTrue(arg, ctx))
    ensures Value(arg, ctx, depth).Ok? ==> Value(arg, ctx, depth).value == Meant(arg, ctx)
  {
    if arg.Lit? { TruthyExactly(Resolved(arg.v, ctx)); }
  }

  lemma {:induction false} ConnectMeans(args: seq<Arg>, ctx: Context, depth: nat, stop: bool)
    requires forall i :: 0 <= i < |args| && TruthyArg(args[i], ctx, depth).Ok? ==>
      (TruthyArg(args[i], ctx, depth).value <==> IsTrue(args[i], ctx))
    requires Connect(args, ctx, depth, stop).Ok?
    ensures Connect(args, ctx, depth, stop).value == stop <==>
      exists i :: 0 <= i < |args| && IsTrue(args[i], ctx) == stop
  {
    if args != [] {
      assert args[0] in args;
      if TruthyArg(args[0], ctx, depth).value == stop {
        assert IsTrue(args[0], ctx) == stop;
      } else {
        ConnectMeans(args[1..], ctx, depth, stop);
        assert forall i :: 0 < i < |args| ==> args[i] == args[1..][i - 1];
      }
    }
  }

  /** Wherever evaluation has a verdict, in any context and at any depth, the verdict is what
      the expression means. */
  lemma {:induction false} VerdictMeans(e: Expr, ctx: Context, depth: nat)
    requires Proper(e) && ProperContext(ctx) && Eval(e, ctx, depth).Ok?
    ensures Eval(e, ctx, depth).value <==> Means(e, ctx)
    decreases e
  {
    forall i | 0 <= i < |e.args| && e.args[i].Sub? && Eval(e.args[i].e, ctx, depth + 1).Ok?
      ensures Eval(e.args[i].e, ctx, depth + 1).value <==> Means(e.args[i].e, ctx)
    {
      VerdictMeans(e.args[i].e, ctx, depth + 1);
    }
    NodeMeans(e, ctx, depth);
  }

  lemma NodeMeans(e: Expr, ctx: Context, depth: nat)
    requires Proper(e) && ProperContext(ctx) && Eval(e, ctx, depth).Ok?
    requires forall i :: 0 <= i < |e.args| && e.args[i].Sub? && Eval(e.args[i].e, ctx, depth + 1).Ok? ==>
      (Eval(e.args[i].e, ctx, depth + 1).value <==> Means(e.args[i].e, ctx))
    ensures Eval(e, ctx, depth).value <==> Means(e, ctx)
  {
    forall i | 0 <= i < |e.args|
      ensures TruthyArg(e.args[i], ctx, depth).Ok? ==>
        (TruthyArg(e.args[i], ctx, depth).value <==> IsTrue(e.args[i], ctx))
      ensures Value(e.args[i], ctx, depth).Ok? ==> Value(e.args[i], ctx, depth).value == Meant(e.args[i], ctx)
    {
      ArgMeans(e.args[i], ctx, depth);
    }
    match e.op
    case And => ConnectMeans(e.args, ctx, depth, false);
    case Or => ConnectMeans(e.args, ctx, depth, true);
    case Not =>
    case Exists =>
    case _ => PairMeans(e, ctx, depth);
  }

  lemma PairMeans(e: Expr, ctx: Context, depth: nat)
    requires e.op !in [And, Or, Not, Exists] && Proper(e) && ProperContext(ctx) && Eval(e, ctx, depth).Ok?
    requires forall i :: 0 <= i < |e.args| && Value(e.args[i], ctx, depth).Ok? ==>
      Value(e.args[i], ctx, depth).value == Meant(e.args[i], ctx)
    ensures Eval(e, ctx, depth).value <==> Means(e, ctx)
  {
    MeantIsProper(e, ctx, 0);
    MeantIsProper(e, ctx, 1);
    ApplyMeans(e.op, Meant(e.args[0], ctx), Meant(e.args[1], ctx));
  }

  lemma MeantIsProper(e: Expr, ctx: Context, i: nat)
    requires i < |e.args| && Proper(e) && ProperContext(ctx)
    ensures DistinctKeys(Meant(e.args[i], ctx))
  {
  }

  // ---- laws of comparison ------------------------------------------------------------------------------

  /** Both are numbers, or both are texts. */
  predicate Alike(a: Json, b: Json) {
    (IsNumeric(a) && IsNumeric(b)) || (a.Str? && b.Str?)
  }

  /** `eq` holds of a value and itself, `ne` is its complement; of two numbers or two texts
      exactly one of `lt`, `eq` and `gt` holds, `lte` is `lt` or `eq` and `gte` is `gt` or `eq`. */
  lemma ComparisonLaws(a: Json, b: Json)
    requires DistinctKeys(a) && DistinctKeys(b)
    ensures Apply(Eq, a, a) == Ok(true) && Apply(Eq, a, b).Ok? && Apply(Ne, a, b) == Ok(!Apply(Eq, a, b).value)
    ensures Alike(a, b) ==>
      && Apply(Lt, a, b).Ok? && Apply(Gt, a, b).Ok? && Apply(Lte, a, b).Ok? && Apply(Gte, a, b).Ok?
      && var less, same, more := Apply(Lt, a, b).value, Apply(Eq, a, b).value, Apply(Gt, a, b).value;
         && (less || same || more) && !(less && same) && !(less && more) && !(same && more)
         && Apply(Lte, a, b).value == (less || same) && Apply(Gte, a, b).value == (more || same)
  {
    EqIsSame(a, a);
    if a.Str? && b.Str? {
      StrTrichotomy(a.s, b.s);
      StrTrichotomy(b.s, a.s);
    }
  }
}
