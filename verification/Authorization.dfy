/** Permission checks: grouped grants, scope resolution and rule-DSL conditions
    (server/bbz_core/authorization/model.py, resolver.py, service.py). */
module Authorization {
  import opened Wrappers
  import opened RuleDsl
  import opened RuleContext
  import opened RuleMeaning

  type Id = nat

  datatype Grant = Grant(key: string, scope: string, condition: Option<Json>)

  /** Placement of the acting user and of the target object. */
  datatype ScopeContext = ScopeContext(
    actingUser: Id,
    userRegion: Option<Id>, userBbz: Option<Id>, userWorkplace: Option<Id>,
    targetRegion: Option<Id>, targetBbz: Option<Id>, targetWorkplace: Option<Id>,
    targetOwner: Option<Id>, targetAssignee: Option<Id>)

  predicate Both(a: Option<Id>, b: Option<Id>) {
    a.Some? && a == b
  }

  predicate ScopeCovers(scope: string, c: ScopeContext) {
    if scope == "global" then true
    else if scope == "region" then Both(c.userRegion, c.targetRegion)
    else if scope == "bbz" then Both(c.userBbz, c.targetBbz)
    else if scope == "workplace" then Both(c.userWorkplace, c.targetWorkplace)
    else if scope == "own_events" then Both(Some(c.actingUser), c.targetOwner)
    else if scope == "assigned_events" then Both(Some(c.actingUser), c.targetAssignee)
    else false
  }

  /** What evaluating a grant's condition for its scope gives; any failure is an error.
      The checks below hold for every such function. */
  type Evaluator = (Json, string) -> Verdict

  /** Whether conditions are enabled, and how they evaluate at this instant. */
  datatype Env = Env(enabled: bool, evaluator: Evaluator)

  predicate ConditionAllows(env: Env, g: Grant) {
    g.condition.None? || (env.enabled && env.evaluator(g.condition.value, g.scope) == Ok(true))
  }

  predicate GrantResolves(env: Env, g: Grant, c: ScopeContext) {
    ScopeCovers(g.scope, c) && ConditionAllows(env, g)
  }

  /** Parse and evaluate the condition in the RBAC context of this instant. */
  function DslEvaluator(hour: nat, weekday: nat, iso: string): Evaluator {
    (condition: Json, scope: string) =>
      var e := Parse(condition);
      if e.Err? then Err(e.error) else Evaluate(e.value, RbacContext(hour, weekday, iso, scope))
  }

  // ---- the reference: a plain scan of the grant list --------------------------------------

  predicate Allowed(env: Env, grants: seq<Grant>, key: string) {
    exists i :: 0 <= i < |grants| && grants[i].key == key && ConditionAllows(env, grants[i])
  }

  predicate AllowedIn(env: Env, grants: seq<Grant>, key: string, c: ScopeContext) {
    exists i :: 0 <= i < |grants| && grants[i].key == key && GrantResolves(env, grants[i], c)
  }

  /** A scoped allow implies an unscoped allow at the same instant. */
  lemma ScopedImpliesUnscoped(env: Env, grants: seq<Grant>, key: string, c: ScopeContext)
    requires AllowedIn(env, grants, key, c)
    ensures Allowed(env, grants, key)
  {
    var i :| 0 <= i < |grants| && grants[i].key == key && GrantResolves(env, grants[i], c);
    assert ConditionAllows(env, grants[i]);
  }

  /** Adding a grant, anywhere, never turns an allow into a deny. */
  lemma MoreGrantsNeverDeny(env: Env, before: seq<Grant>, g: Grant, after: seq<Grant>, key: string, c: ScopeContext)
    ensures Allowed(env, before + after, key) ==> Allowed(env, before + [g] + after, key)
    ensures AllowedIn(env, before + after, key, c) ==> AllowedIn(env, before + [g] + after, key, c)
  {
    var few, many := before + after, before + [g] + after;
    forall i | 0 <= i < |few|
      ensures exists j :: 0 <= j < |many| && many[j] == few[i]
    {
      var j := if i < |before| then i else i + 1;
      assert many[j] == few[i];
    }
  }

  /** Attaching a condition to an unconditional grant never turns a deny into an allow,
      whatever the evaluator does, errors included. */
  lemma ConditionsOnlyNarrow(env: Env, grants: seq<Grant>, i: nat, condition: Json, key: string, c: ScopeContext)
    requires i < |grants| && grants[i].condition.None?
    ensures var narrowed := grants[i := grants[i].(condition := Some(condition))];
      && (Allowed(env, narrowed, key) ==> Allowed(env, grants, key))
      && (AllowedIn(env, narrowed, key, c) ==> AllowedIn(env, grants, key, c))
  {
    var narrowed := grants[i := grants[i].(condition := Some(condition))];
    if Allowed(env, narrowed, key) {
      var j :| 0 <= j < |narrowed| && narrowed[j].key == key && ConditionAllows(env, narrowed[j]);
      assert grants[j].key == key && ConditionAllows(env, grants[j]);
    }
    if AllowedIn(env, narrowed, key, c) {
      var j :| 0 <= j < |narrowed| && narrowed[j].key == key && GrantResolves(env, narrowed[j], c);
      assert grants[j].key == key && GrantResolves(env, grants[j], c);
    }
  }

  /** With conditions switched on, a published condition decides by its value alone: it
      never denies because evaluation failed. */
  lemma PublishedConditionDecides(g: Grant, hour: nat, weekday: nat, iso: string)
    requires g.condition.Some? && Parse(g.condition.value).Ok?
    requires var e := Parse(g.condition.value).value;
      Accepts(RBAC_CONTEXT, e) && DisciplinedNoDates(e) && Nesting(e) <= MAX_DEPTH
    ensures var verdict := Evaluate(Parse(g.condition.value).value, RbacContext(hour, weekday, iso, g.scope));
      verdict.Ok? && (ConditionAllows(Env(true, DslEvaluator(hour, weekday, iso)), g) <==> verdict.value)
  {
    RbacConditionsNeverError(Parse(g.condition.value).value, hour, weekday, iso, g.scope);
  }

  // ---- what a scope reaches -----------------------------------------------------------------

  /** Some grant for the key with this scope, whose condition allows. */
  predicate Granted(env: Env, grants: seq<Grant>, key: string, scope: string) {
    exists i :: 0 <= i < |grants| && grants[i].key == key && grants[i].scope == scope && ConditionAllows(env, grants[i])
  }

  /** The user's and the target's placement are both known and the same. */
  ghost predicate SamePlace(user: Option<Id>, target: Option<Id>) {
    exists id :: user == Some(id) && target == Some(id)
  }

  /** The scoped decision, scope by scope: a global grant always allows; region, bbz and
      workplace grants allow where user and target are both placed, and in the same one; an
      own-events grant allows on what the user owns, an assigned-events grant on what is
      assigned to the user. Nothing else allows. */
  lemma ScopedExactly(env: Env, grants: seq<Grant>, key: string, c: ScopeContext)
    ensures AllowedIn(env, grants, key, c) <==>
      || Granted(env, grants, key, "global")
      || (Granted(env, grants, key, "region") && SamePlace(c.userRegion, c.targetRegion))
      || (Granted(env, grants, key, "bbz") && SamePlace(c.userBbz, c.targetBbz))
      || (Granted(env, grants, key, "workplace") && SamePlace(c.userWorkplace, c.targetWorkplace))
      || (Granted(env, grants, key, "own_events") && c.targetOwner == Some(c.actingUser))
      || (Granted(env, grants, key, "assigned_events") && c.targetAssignee == Some(c.actingUser))
  {
    if AllowedIn(env, grants, key, c) {
      var i :| 0 <= i < |grants| && grants[i].key == key && GrantResolves(env, grants[i], c);
      assert Granted(env, grants, key, grants[i].scope);
      PlacesAgree(c);
    }
    forall scope | Granted(env, grants, key, scope) && ScopeCovers(scope, c) ensures AllowedIn(env, grants, key, c) {
      var i :| 0 <= i < |grants| && grants[i].key == key && grants[i].scope == scope && ConditionAllows(env, grants[i]);
      assert GrantResolves(env, grants[i], c);
    }
  }

  lemma PlacesAgree(c: ScopeContext)
    ensures Both(c.userRegion, c.targetRegion) ==> SamePlace(c.userRegion, c.targetRegion)
    ensures Both(c.userBbz, c.targetBbz) ==> SamePlace(c.userBbz, c.targetBbz)
    ensures Both(c.userWorkplace, c.targetWorkplace) ==> SamePlace(c.userWorkplace, c.targetWorkplace)
  {
    if c.userRegion.Some? { assert c.userRegion == Some(c.userRegion.value); }
  }

  /** While conditions are disabled a conditional grant never allows, and the others decide
      as if it were not there. */
  lemma DisabledConditionsDeny(env: Env, grants: seq<Grant>, key: string, c: ScopeContext)
    requires !env.enabled
    ensures Allowed(env, grants, key) <==> exists g :: g in grants && g.key == key && g.condition.None?
    ensures AllowedIn(env, grants, key, c) ==> exists g :: g in grants && g.key == key && g.condition.None?
  {
    if g :| g in grants && g.key == key && g.condition.None? {
      var i :| 0 <= i < |grants| && grants[i] == g;
      assert ConditionAllows(env, grants[i]);
    }
  }

  // ---- what a condition decides ----------------------------------------------------------------

  /** A published condition allows exactly when what it means is true of this instant. */
  lemma PublishedConditionMeans(g: Grant, hour: nat, weekday: nat, iso: string)
    requires g.condition.Some? && Parse(g.condition.value).Ok?
    requires var e := Parse(g.condition.value).value;
      Accepts(RBAC_CONTEXT, e) && DisciplinedNoDates(e) && Nesting(e) <= MAX_DEPTH && Proper(e)
    ensures ConditionAllows(Env(true, DslEvaluator(hour, weekday, iso)), g) <==>
      Means(Parse(g.condition.value).value, RbacContext(hour, weekday, iso, g.scope))
  {
    var e, ctx := Parse(g.condition.value).value, RbacContext(hour, weekday, iso, g.scope);
    PublishedConditionDecides(g, hour, weekday, iso);
    assert ProperContext(ctx);
    VerdictMeans(e, ctx, 0);
  }

  lemma FieldAgainst(op: Op, name: string, v: Json, ctx: Context)
    requires op in [Eq, Lt] && name in ctx && !v.Obj?
    ensures Evaluate(Expr(op, [Ref(name), Lit(v)]), ctx) == Apply(op, ctx[name], v)
  {
    RefIsField(name);
    var e := Expr(op, [Ref(name), Lit(v)]);
    assert Value(e.args[0], ctx, 0) == Ok(ctx[name]) && Value(e.args[1], ctx, 0) == Ok(v);
  }

  /** The four fields a condition can ask for are the clock's and the grant's own: hour and
      weekday compare as numbers, the instant and the scope as texts. */
  lemma ClockConditions(op: Op, hour: nat, weekday: nat, iso: string, scope: string, n: real, text: string)
    requires op in [Eq, Lt]
    ensures var ctx := RbacContext(hour, weekday, iso, scope);
      && Evaluate(Expr(op, [Ref("now.hour"), Lit(Num(n))]), ctx)
           == Ok(if op == Eq then hour as real == n else (hour as real) < n)
      && Evaluate(Expr(op, [Ref("now.weekday"), Lit(Num(n))]), ctx)
           == Ok(if op == Eq then weekday as real == n else (weekday as real) < n)
      && Evaluate(Expr(Eq, [Ref("now.iso"), Lit(Str(text))]), ctx) == Ok(iso == text)
      && Evaluate(Expr(Eq, [Ref("scope"), Lit(Str(text))]), ctx) == Ok(scope == text)
  {
    var ctx := RbacContext(hour, weekday, iso, scope);
    FieldAgainst(op, "now.hour", Num(n), ctx);
    FieldAgainst(op, "now.weekday", Num(n), ctx);
    FieldAgainst(Eq, "now.iso", Str(text), ctx);
    FieldAgainst(Eq, "scope", Str(text), ctx);
  }

  // ---- the grouped index ---------------------------------------------------------------------

  /** The grants for one key, in list order. */
  function Select(grants: seq<Grant>, key: string): seq<Grant> {
    if grants == [] then []
    else
      var init := Select(grants[..|grants| - 1], key);
      if grants[|grants| - 1].key == key then init + [grants[|grants| - 1]] else init
  }

  lemma {:induction false} SelectMembers(grants: seq<Grant>, key: string)
    ensures forall g :: g in Select(grants, key) <==> g in grants && g.key == key
  {
    if grants != [] {
      var init := grants[..|grants| - 1];
      SelectMembers(init, key);
      assert grants == init + [grants[|grants| - 1]];
    }
  }

  type Index = map<string, seq<Grant>>

  function GrantsFor(index: Index, key: string): seq<Grant> {
    if key in index then index[key] else []
  }

  /** The index answers every key, known or not, as the list would. */
  ghost predicate Indexes(index: Index, grants: seq<Grant>) {
    forall key :: GrantsFor(index, key) == Select(grants, key)
  }

  /** The constructor of EffectivePermissions: one pass appending to per-key lists. */
  method GroupGrants(grants: seq<Grant>) returns (index: Index)
    ensures Indexes(index, grants)
    ensures forall key :: key in index <==> exists i :: 0 <= i < |grants| && grants[i].key == key
  {
    index := map[];
    var i := 0;
    while i < |grants|
      invariant 0 <= i <= |grants|
      invariant Indexes(index, grants[..i])
      invariant forall key :: key in index <==> exists j :: 0 <= j < i && grants[j].key == key
    {
      var g := grants[i];
      index := index[g.key := GrantsFor(index, g.key) + [g]];
      i := i + 1;
      assert grants[..i][..i - 1] == grants[..i - 1];
    }
    assert grants[..i] == grants;
  }

  // ---- the permission service -------------------------------------------------------------------

  datatype Decision = Decided(allow: bool) | UnknownKey

  class PermissionService {
    var cache: map<Id, Index>
    ghost var loaded: map<Id, seq<Grant>>   // the grants each user's entry was built from

    ghost predicate Valid()
      reads this
    {
      cache.Keys == loaded.Keys && forall u :: u in cache ==> Indexes(cache[u], loaded[u])
    }

    constructor ()
      ensures Valid() && cache == map[]
    {
      cache, loaded := map[], map[];
    }

    /** `stored` is what the grant store would return now; it is read only on a miss. */
    method Effective(user: Id, stored: seq<Grant>) returns (index: Index)
      requires Valid()
      modifies this
      ensures Valid() && user in loaded && Indexes(index, loaded[user])
      ensures loaded == if user in old(loaded) then old(loaded) else old(loaded)[user := stored]
    {
      if user !in cache {
        var built := GroupGrants(stored);
        cache, loaded := cache[user := built], loaded[user := stored];
      }
      index := cache[user];
    }

    /** The scope-agnostic check over the cached index equals a plain scan of the grants
        first loaded for the user; an unknown key is an error, never an allow. */
    method Authorize(user: Id, key: string, known: set<string>, env: Env, stored: seq<Grant>)
      returns (d: Decision)
      requires Valid()
      modifies this
      ensures Valid()
      ensures key !in known ==> d == UnknownKey && loaded == old(loaded)
      ensures key in known ==> user in loaded && d == Decided(Allowed(env, loaded[user], key))
      ensures key in known ==> loaded == if user in old(loaded) then old(loaded) else old(loaded)[user := stored]
    {
      if key !in known { return UnknownKey; }
      var index := Effective(user, stored);
      var grants := GrantsFor(index, key);
      assert grants == Select(loaded[user], key);
      var allow := false;
      var i := 0;
      while i < |grants| && !allow
        invariant 0 <= i <= |grants|
        invariant allow <==> SomeAllows(env, grants[..i])
      {
        allow := ConditionAllows(env, grants[i]);
        i := i + 1;
        assert grants[..i][i - 1] == grants[i - 1];
      }
      ScanSelected(env, loaded[user], key);
      if allow { SomePrefixAllows(env, grants, i); } else { assert grants[..i] == grants; }
      return Decided(allow);
    }

    method AuthorizeScoped(user: Id, key: string, known: set<string>, env: Env, c: ScopeContext, stored: seq<Grant>)
      returns (d: Decision)
      requires Valid()
      modifies this
      ensures Valid()
      ensures key !in known ==> d == UnknownKey && loaded == old(loaded)
      ensures key in known ==> user in loaded && d == Decided(AllowedIn(env, loaded[user], key, c))
      ensures key in known ==> loaded == if user in old(loaded) then old(loaded) else old(loaded)[user := stored]
    {
      if key !in known { return UnknownKey; }
      var index := Effective(user, stored);
      var grants := GrantsFor(index, key);
      assert grants == Select(loaded[user], key);
      var allow := false;
      var i := 0;
      while i < |grants| && !allow
        invariant 0 <= i <= |grants|
        invariant allow <==> SomeResolves(env, grants[..i], c)
      {
        allow := GrantResolves(env, grants[i], c);
        i := i + 1;
        assert grants[..i][i - 1] == grants[i - 1];
      }
      ScanSelectedIn(env, loaded[user], key, c);
      if allow { SomePrefixResolves(env, grants, c, i); } else { assert grants[..i] == grants; }
      return Decided(allow);
    }
  }

  predicate SomeAllows(env: Env, grants: seq<Grant>) {
    exists i :: 0 <= i < |grants| && ConditionAllows(env, grants[i])
  }

  predicate SomeResolves(env: Env, grants: seq<Grant>, c: ScopeContext) {
    exists i :: 0 <= i < |grants| && GrantResolves(env, grants[i], c)
  }

  lemma SomePrefixAllows(env: Env, grants: seq<Grant>, n: nat)
    requires n <= |grants| && SomeAllows(env, grants[..n])
    ensures SomeAllows(env, grants)
  {
    var i :| 0 <= i < n && ConditionAllows(env, grants[..n][i]);
    assert ConditionAllows(env, grants[i]);
  }

  lemma SomePrefixResolves(env: Env, grants: seq<Grant>, c: ScopeContext, n: nat)
    requires n <= |grants| && SomeResolves(env, grants[..n], c)
    ensures SomeResolves(env, grants, c)
  {
    var i :| 0 <= i < n && GrantResolves(env, grants[..n][i], c);
    assert GrantResolves(env, grants[i], c);
  }

  /** Scanning the selected grants is scanning the list for the key. */
  lemma ScanSelected(env: Env, grants: seq<Grant>, key: string)
    ensures Allowed(env, grants, key) <==> SomeAllows(env, Select(grants, key))
  {
    var s := Select(grants, key);
    SelectMembers(grants, key);
    if Allowed(env, grants, key) {
      var i :| 0 <= i < |grants| && grants[i].key == key && ConditionAllows(env, grants[i]);
      assert grants[i] in s;
      var j :| 0 <= j < |s| && s[j] == grants[i];
      assert ConditionAllows(env, s[j]);
    }
    if SomeAllows(env, s) {
      var j :| 0 <= j < |s| && ConditionAllows(env, s[j]);
      assert s[j] in grants;
      var i :| 0 <= i < |grants| && grants[i] == s[j];
      assert s[j] in s && ConditionAllows(env, grants[i]);
    }
  }

  lemma ScanSelectedIn(env: Env, grants: seq<Grant>, key: string, c: ScopeContext)
    ensures AllowedIn(env, grants, key, c) <==> SomeResolves(env, Select(grants, key), c)
  {
    var s := Select(grants, key);
    SelectMembers(grants, key);
    if AllowedIn(env, grants, key, c) {
      var i :| 0 <= i < |grants| && grants[i].key == key && GrantResolves(env, grants[i], c);
      assert grants[i] in s;
      var j :| 0 <= j < |s| && s[j] == grants[i];
      assert GrantResolves(env, s[j], c);
    }
    if SomeResolves(env, s, c) {
      var j :| 0 <= j < |s| && GrantResolves(env, s[j], c);
      assert s[j] in grants;
      var i :| 0 <= i < |grants| && grants[i] == s[j];
      assert s[j] in s && GrantResolves(env, grants[i], c);
    }
  }
}
