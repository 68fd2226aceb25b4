/** Cluster-wide fixed-window rate limiting (server/bbz_core/infra/rate_limit.py).
    Times are microseconds since the epoch; a bucket belongs to one rule, so it has one
    window length. */
module RateLimit {

  type Micros = int

  const SECOND: Micros := 1_000_000

  datatype Key = Key(bucket: string, start: Micros)

  datatype Row = Row(count: nat, expires: Micros)

  type Table = map<Key, Row>

  type Length = n: nat | n > 0 witness 1

  /** Length of each bucket's window. */
  type Windows = string -> Length

  /** Start of the aligned window that contains `now`. */
  function WindowStart(len: Length, now: Micros): (s: Micros)
    ensures s <= now < s + len
  {
    now / len * len
  }

  function KeyOf(w: Windows, bucket: string, now: Micros): Key
  {
    Key(bucket, WindowStart(w(bucket), now))
  }

  /** The count the upsert returns. */
  function HitCount(t: Table, k: Key): nat {
    if k in t then t[k].count + 1 else 1
  }

  /** The table after one hit with the key of its window: upsert, and on the first hit of a
      window drop the bucket's expired rows. */
  function Hit(t: Table, k: Key, len: Length, now: Micros): Table {
    var count := HitCount(t, k);
    var t1 := t[k := Row(count, k.start + len)];
    if count == 1 then map i | i in t1 && !(i.bucket == k.bucket && t1[i].expires < now) :: t1[i] else t1
  }

  function Prune(t: Table, now: Micros): Table {
    map i | i in t && t[i].expires >= now :: t[i]
  }

  // ---- runs ------------------------------------------------------------------------------

  /** A hit carries the key of its bucket and window, a prune only its time. */
  datatype Step = HitStep(key: Key, now: Micros) | PruneStep(now: Micros)

  /** A hit that happened, with the count it was told. */
  datatype Past = Past(key: Key, now: Micros, count: nat)

  datatype State = State(table: Table, past: seq<Past>, clock: Micros)

  function Apply(s: State, w: Windows, step: Step): State {
    match step
    case HitStep(k, now) =>
      State(Hit(s.table, k, w(k.bucket), now), s.past + [Past(k, now, HitCount(s.table, k))], now)
    case PruneStep(now) => State(Prune(s.table, now), s.past, now)
  }

  function Run(w: Windows, steps: seq<Step>, origin: Micros): State {
    if steps == [] then State(map[], [], origin)
    else Apply(Run(w, steps[..|steps| - 1], origin), w, steps[|steps| - 1])
  }

  /** Every hit is counted in the aligned window that contains its time. */
  predicate Stamped(w: Windows, steps: seq<Step>) {
    forall i :: 0 <= i < |steps| && steps[i].HitStep? ==>
      steps[i].key == KeyOf(w, steps[i].key.bucket, steps[i].now)
  }

  predicate Within(w: Windows, k: Key, now: Micros) {
    k.start <= now < k.start + w(k.bucket)
  }

  predicate AllWithin(w: Windows, steps: seq<Step>) {
    forall i :: 0 <= i < |steps| && steps[i].HitStep? ==> Within(w, steps[i].key, steps[i].now)
  }

  lemma StampedWithin(w: Windows, steps: seq<Step>)
    requires Stamped(w, steps)
    ensures AllWithin(w, steps)
  {
    forall i | 0 <= i < |steps| && steps[i].HitStep? ensures Within(w, steps[i].key, steps[i].now) {
      KeyWithin(w, steps[i].key.bucket, steps[i].now);
    }
  }

  lemma KeyWithin(w: Windows, bucket: string, now: Micros)
    ensures Within(w, KeyOf(w, bucket, now), now)
  {
  }

  /** Timestamps never run backwards in commit order. */
  predicate Monotone(steps: seq<Step>, origin: Micros) {
    && (steps != [] ==> origin <= steps[0].now)
    && forall i :: 0 < i < |steps| ==> steps[i - 1].now <= steps[i].now
  }

  /** How many past hits fell into this bucket and window. */
  function HitsIn(past: seq<Past>, k: Key): nat {
    if past == [] then 0
    else HitsIn(past[..|past| - 1], k) + if past[|past| - 1].key == k then 1 else 0
  }

  /** Every past hit was told one plus the number of hits before it in its window. */
  predicate ToldRight(past: seq<Past>) {
    past == [] ||
    var before, p := past[..|past| - 1], past[|past| - 1];
    ToldRight(before) && p.count == HitsIn(before, p.key) + 1
  }

  /** The table counts a window that is not over yet exactly, and holds no row for a
      window without hits. */
  predicate CountedRight(t: Table, w: Windows, past: seq<Past>, clock: Micros, k: Key) {
    && (k in t ==> t[k] == Row(HitsIn(past, k), k.start + w(k.bucket)) && HitsIn(past, k) > 0)
    && (HitsIn(past, k) > 0 && clock <= k.start + w(k.bucket) ==> k in t)
  }

  ghost predicate CountsRight(t: Table, w: Windows, past: seq<Past>, clock: Micros) {
    forall k :: CountedRight(t, w, past, clock, k)
  }

  ghost predicate Inv(s: State, w: Windows) {
    ToldRight(s.past) && CountsRight(s.table, w, s.past, s.clock)
  }

  lemma HitsAppend(past: seq<Past>, p: Past, k: Key)
    ensures HitsIn(past + [p], k) == HitsIn(past, k) + if p.key == k then 1 else 0
  {
    assert (past + [p])[..|past + [p]| - 1] == past;
  }

  lemma HitTells(t: Table, w: Windows, past: seq<Past>, clock: Micros, k: Key, now: Micros)
    requires CountedRight(t, w, past, clock, k) && clock <= now && Within(w, k, now)
    ensures HitCount(t, k) == HitsIn(past, k) + 1
  {
  }

  lemma HitCounts(t: Table, w: Windows, past: seq<Past>, clock: Micros, k: Key, now: Micros, j: Key)
    requires CountedRight(t, w, past, clock, k) && CountedRight(t, w, past, clock, j)
    requires clock <= now && Within(w, k, now)
    ensures CountedRight(Hit(t, k, w(k.bucket), now), w, past + [Past(k, now, HitCount(t, k))], now, j)
  {
    HitTells(t, w, past, clock, k, now);
    HitsAppend(past, Past(k, now, HitCount(t, k)), j);
  }

  lemma HitKeeps(s: State, w: Windows, k: Key, now: Micros)
    requires Inv(s, w) && s.clock <= now && Within(w, k, now)
    ensures Inv(Apply(s, w, HitStep(k, now)), w)
  {
    var s' := Apply(s, w, HitStep(k, now));
    assert CountedRight(s.table, w, s.past, s.clock, k);
    HitTells(s.table, w, s.past, s.clock, k, now);
    assert s'.past[..|s'.past| - 1] == s.past;
    forall j ensures CountedRight(s'.table, w, s'.past, now, j) {
      assert CountedRight(s.table, w, s.past, s.clock, j);
      HitCounts(s.table, w, s.past, s.clock, k, now, j);
    }
  }

  lemma PruneKeeps(s: State, w: Windows, now: Micros)
    requires Inv(s, w) && s.clock <= now
    ensures Inv(Apply(s, w, PruneStep(now)), w)
  {
    forall j ensures CountedRight(Prune(s.table, now), w, s.past, now, j) {
      assert CountedRight(s.table, w, s.past, s.clock, j);
    }
  }

  lemma {:induction false} RunKeeps(w: Windows, steps: seq<Step>, origin: Micros)
    requires AllWithin(w, steps) && Monotone(steps, origin)
    ensures Inv(Run(w, steps, origin), w)
    ensures Run(w, steps, origin).clock == if steps == [] then origin else steps[|steps| - 1].now
  {
    if steps != [] {
      var before := steps[..|steps| - 1];
      RunKeeps(w, before, origin);
      match steps[|steps| - 1]
      case HitStep(k, now) => HitKeeps(Run(w, before, origin), w, k, now);
      case PruneStep(now) => PruneKeeps(Run(w, before, origin), w, now);
    }
  }

  /** With monotone timestamps every count returned is one plus all earlier hits of that
      bucket in that aligned window, whatever stale rows were dropped in between. */
  lemma CountIsExact(w: Windows, steps: seq<Step>, origin: Micros)
    requires Stamped(w, steps) && Monotone(steps, origin)
    ensures ToldRight(Run(w, steps, origin).past)
  {
    StampedWithin(w, steps);
    RunKeeps(w, steps, origin);
  }

  // ---- admission ---------------------------------------------------------------------------

  /** Hits of a bucket admitted within [lo, hi]. */
  function AdmittedBetween(past: seq<Past>, bucket: string, limit: nat, lo: Micros, hi: Micros): nat {
    if past == [] then 0
    else
      var p := past[|past| - 1];
      AdmittedBetween(past[..|past| - 1], bucket, limit, lo, hi)
        + if p.key.bucket == bucket && p.count <= limit && lo <= p.now <= hi then 1 else 0
  }

  function AdmittedIn(past: seq<Past>, k: Key, limit: nat): nat {
    if past == [] then 0
    else
      var p := past[|past| - 1];
      AdmittedIn(past[..|past| - 1], k, limit) + if p.key == k && p.count <= limit then 1 else 0
  }

  /** A window admits its first `limit` hits and no more. */
  lemma {:induction false} WindowAdmitsLimit(past: seq<Past>, k: Key, limit: nat)
    requires ToldRight(past)
    ensures AdmittedIn(past, k, limit) == if HitsIn(past, k) <= limit then HitsIn(past, k) else limit
  {
    if past != [] {
      WindowAdmitsLimit(past[..|past| - 1], k, limit);
    }
  }

  /** The hits carry the window their time falls into. */
  ghost predicate Aligned(past: seq<Past>, w: Windows)
  {
    forall i :: 0 <= i < |past| ==> past[i].key == KeyOf(w, past[i].key.bucket, past[i].now)
  }

  lemma {:induction false} RunAligned(w: Windows, steps: seq<Step>, origin: Micros)
    requires Stamped(w, steps)
    ensures Aligned(Run(w, steps, origin).past, w)
  {
    if steps != [] { RunAligned(w, steps[..|steps| - 1], origin); }
  }

  /** A time in an interval of one window length lies in one of two adjacent windows. */
  lemma TwoWindows(len: Length, t: Micros, now: Micros)
    requires t <= now <= t + len
    ensures WindowStart(len, now) == WindowStart(len, t) || WindowStart(len, now) == WindowStart(len, t) + len
  {
    var a, b := t / len, now / len;
    assert a * len <= t < a * len + len && b * len <= now < b * len + len;
    assert a <= b by { if b < a { Multiples(b, a, len); } }
    if b >= a + 2 { Multiples(a + 1, b, len); }
    assert b == a || b == a + 1;
    assert (a + 1) * len == a * len + len;
  }

  lemma {:induction false} Multiples(x: int, y: int, len: Length)
    requires x < y
    ensures x * len + len <= y * len
    decreases y - x
  {
    assert (y - 1) * len + len == y * len;
    if x < y - 1 { Multiples(x, y - 1, len); }
  }

  lemma DivAtLeast(x: int, len: Length, q: int)
    requires q * len <= x
    ensures q <= x / len
  {
    if x / len < q { Multiples(x / len, q, len); }
  }

  lemma {:induction false} SplitAdmitted(past: seq<Past>, w: Windows, bucket: string, limit: nat, t: Micros)
    requires Aligned(past, w)
    ensures var a := WindowStart(w(bucket), t);
      AdmittedBetween(past, bucket, limit, t, t + w(bucket)) <=
        AdmittedIn(past, Key(bucket, a), limit) + AdmittedIn(past, Key(bucket, a + w(bucket)), limit)
  {
    if past != [] {
      var p := past[|past| - 1];
      SplitAdmitted(past[..|past| - 1], w, bucket, limit, t);
      if p.key.bucket == bucket && t <= p.now <= t + w(bucket) {
        TwoWindows(w(bucket), t, p.now);
      }
    }
  }

  lemma TwoKeysAdmit(past: seq<Past>, a: Key, b: Key, limit: nat)
    requires ToldRight(past)
    ensures AdmittedIn(past, a, limit) + AdmittedIn(past, b, limit) <= 2 * limit
  {
    WindowAdmitsLimit(past, a, limit);
    WindowAdmitsLimit(past, b, limit);
  }

  /** Any interval of one window length, aligned or not, admits at most twice the limit. */
  lemma AtMostTwiceTheLimit(w: Windows, steps: seq<Step>, origin: Micros, bucket: string, limit: nat, t: Micros)
    requires Stamped(w, steps) && Monotone(steps, origin)
    ensures AdmittedBetween(Run(w, steps, origin).past, bucket, limit, t, t + w(bucket)) <= 2 * limit
  {
    var past, a := Run(w, steps, origin).past, WindowStart(w(bucket), t);
    CountIsExact(w, steps, origin);
    RunAligned(w, steps, origin);
    SplitAdmitted(past, w, bucket, limit, t);
    TwoKeysAdmit(past, Key(bucket, a), Key(bucket, a + w(bucket)), limit);
  }

  function Clock(steps: seq<Step>, origin: Micros): Micros {
    if steps == [] then origin else steps[|steps| - 1].now
  }

  /** The run with `n` more steps of the same kind. */
  function Burst(steps: seq<Step>, step: Step, n: nat): seq<Step> {
    if n == 0 then steps else Burst(steps, step, n - 1) + [step]
  }

  lemma {:induction false} BurstMonotone(steps: seq<Step>, origin: Micros, step: Step, n: nat)
    requires Monotone(steps, origin) && Clock(steps, origin) <= step.now
    ensures Monotone(Burst(steps, step, n), origin) && Clock(Burst(steps, step, n), origin) <= step.now
  {
    if n > 0 { BurstMonotone(steps, origin, step, n - 1); }
  }

  function Repeated(s: State, w: Windows, step: Step, n: nat): State {
    if n == 0 then s else Apply(Repeated(s, w, step, n - 1), w, step)
  }

  lemma {:induction false} BurstRuns(w: Windows, steps: seq<Step>, origin: Micros, step: Step, n: nat)
    ensures Run(w, Burst(steps, step, n), origin) == Repeated(Run(w, steps, origin), w, step, n)
  {
    if n > 0 {
      BurstRuns(w, steps, origin, step, n - 1);
      BurstNext(w, steps, origin, step, n);
    }
  }

  lemma BurstNext(w: Windows, steps: seq<Step>, origin: Micros, step: Step, n: nat)
    requires n > 0
    ensures Run(w, Burst(steps, step, n), origin) == Apply(Run(w, Burst(steps, step, n - 1), origin), w, step)
  {
    var all, most := Burst(steps, step, n), Burst(steps, step, n - 1);
    assert all[..|all| - 1] == most && all[|all| - 1] == step;
  }

  /** After `n` hits in window `k`, all admitted on top of the `base` in `other`. */
  ghost predicate Filled(s: State, w: Windows, k: Key, other: Key, n: nat, limit: nat, base: nat, edge: Micros) {
    && Inv(s, w) && HitsIn(s.past, k) == n && HitsIn(s.past, other) == base
    && AdmittedBetween(s.past, k.bucket, limit, edge - 1, edge) == base + n
  }

  /** One more hit within the limit of its window is admitted. */
  lemma HitFills(s: State, w: Windows, k: Key, other: Key, now: Micros, n: nat, limit: nat, base: nat, edge: Micros)
    requires Filled(s, w, k, other, n, limit, base, edge) && n < limit && k != other
    requires s.clock <= now && Within(w, k, now) && edge - 1 <= now <= edge
    ensures Filled(Apply(s, w, HitStep(k, now)), w, k, other, n + 1, limit, base, edge)
  {
    var p := Past(k, now, HitCount(s.table, k));
    HitKeeps(s, w, k, now);
    HitsAppend(s.past, p, k);
    HitsAppend(s.past, p, other);
    assert CountedRight(s.table, w, s.past, s.clock, k);
    HitTells(s.table, w, s.past, s.clock, k, now);
    assert (s.past + [p])[..|s.past + [p]| - 1] == s.past;
  }

  lemma {:induction false} BurstFills(s: State, w: Windows, k: Key, other: Key, now: Micros, n: nat, limit: nat,
                                      base: nat, edge: Micros)
    requires Filled(s, w, k, other, 0, limit, base, edge) && n <= limit && k != other
    requires s.clock <= now && Within(w, k, now) && edge - 1 <= now <= edge
    ensures var t := Repeated(s, w, HitStep(k, now), n);
      Filled(t, w, k, other, n, limit, base, edge) && t.clock <= now
  {
    if n > 0 {
      BurstFills(s, w, k, other, now, n - 1, limit, base, edge);
      HitFills(Repeated(s, w, HitStep(k, now), n - 1), w, k, other, now, n - 1, limit, base, edge);
    }
  }

  lemma EmptyFilled(w: Windows, a: Key, b: Key, limit: nat, edge: Micros)
    ensures Filled(State(map[], [], edge - 1), w, a, b, 0, limit, 0, edge)
  {
  }

  lemma FilledTurns(s: State, w: Windows, a: Key, b: Key, n: nat, limit: nat, edge: Micros)
    requires Filled(s, w, a, b, n, limit, 0, edge) && a.bucket == b.bucket
    ensures Filled(s, w, b, a, 0, limit, n, edge)
  {
  }

  /** A full limit at the end of window `a` and another at the start of window `b`. */
  lemma TwoBursts(w: Windows, a: Key, b: Key, limit: nat, s: State)
    requires a.bucket == b.bucket && a.start < b.start <= a.start + w(a.bucket)
    requires s == State(map[], [], b.start - 1)
    ensures var t := Repeated(s, w, HitStep(a, b.start - 1), limit);
      var past := Repeated(t, w, HitStep(b, b.start), limit).past;
      AdmittedBetween(past, b.bucket, limit, b.start - 1, b.start) == 2 * limit
  {
    var t := Repeated(s, w, HitStep(a, b.start - 1), limit);
    EmptyFilled(w, a, b, limit, b.start);
    BurstFills(s, w, a, b, b.start - 1, limit, limit, 0, b.start);
    FilledTurns(t, w, a, b, limit, limit, b.start);
    BurstFills(t, w, b, a, b.start, limit, limit, limit, b.start);
  }

  function BothBursts(a: Key, b: Key, limit: nat): seq<Step> {
    Burst(Burst([], HitStep(a, b.start - 1), limit), HitStep(b, b.start), limit)
  }

  lemma BothRun(w: Windows, a: Key, b: Key, limit: nat, s: State)
    requires s == State(map[], [], b.start - 1)
    ensures Run(w, BothBursts(a, b, limit), b.start - 1) ==
      Repeated(Repeated(s, w, HitStep(a, b.start - 1), limit), w, HitStep(b, b.start), limit)
  {
    var origin := b.start - 1;
    BurstRuns(w, [], origin, HitStep(a, origin), limit);
    BurstRuns(w, Burst([], HitStep(a, origin), limit), origin, HitStep(b, b.start), limit);
  }

  lemma BothAdmitted(w: Windows, a: Key, b: Key, limit: nat)
    requires a.bucket == b.bucket && a.start < b.start <= a.start + w(a.bucket)
    ensures var past := Run(w, BothBursts(a, b, limit), b.start - 1).past;
      AdmittedBetween(past, b.bucket, limit, b.start - 1, b.start) == 2 * limit
  {
    TwoBursts(w, a, b, limit, State(map[], [], b.start - 1));
    BothRun(w, a, b, limit, State(map[], [], b.start - 1));
  }

  lemma {:induction false} BurstStamped(w: Windows, steps: seq<Step>, k: Key, now: Micros, n: nat)
    requires Stamped(w, steps) && k == KeyOf(w, k.bucket, now)
    ensures Stamped(w, Burst(steps, HitStep(k, now), n))
  {
    if n > 0 { BurstStamped(w, steps, k, now, n - 1); }
  }

  lemma BothStamped(w: Windows, a: Key, b: Key, limit: nat)
    requires b == KeyOf(w, b.bucket, b.start) && a == KeyOf(w, a.bucket, b.start - 1)
    ensures Stamped(w, BothBursts(a, b, limit)) && Monotone(BothBursts(a, b, limit), b.start - 1)
  {
    var first := Burst([], HitStep(a, b.start - 1), limit);
    BurstStamped(w, [], a, b.start - 1, limit);
    BurstStamped(w, first, b, b.start, limit);
    BurstMonotone([], b.start - 1, HitStep(a, b.start - 1), limit);
    BurstMonotone(first, b.start - 1, HitStep(b, b.start), limit);
  }

  /** The factor two is needed, at every edge between two windows: a full limit in the last
      microsecond of one and a full limit in the first of the next are all admitted. */
  lemma TwiceTheLimit(w: Windows, bucket: string, limit: nat, edge: Micros) returns (steps: seq<Step>)
    requires edge == WindowStart(w(bucket), edge)
    ensures Stamped(w, steps) && Monotone(steps, edge - 1)
    ensures AdmittedBetween(Run(w, steps, edge - 1).past, bucket, limit, edge - 1, edge) == 2 * limit
  {
    var a, b := KeyOf(w, bucket, edge - 1), Key(bucket, edge);
    KeyWithin(w, bucket, edge - 1);
    BothAdmitted(w, a, b, limit);
    BothStamped(w, a, b, limit);
    steps := BothBursts(a, b, limit);
  }

  // ---- retry_after -----------------------------------------------------------------------------

  /** Whole seconds to the end of the window, rounded up, at least one. */
  function RetryAfter(len: Length, now: Micros): (s: nat)
    ensures s >= 1
  {
    var left := WindowStart(len, now) + len - now;
    AtLeastOne((left + SECOND - 1) / SECOND)
  }

  function AtLeastOne(x: int): nat {
    if x < 1 then 1 else x
  }

  /** Waiting that long always ends in a later window, and one second less never does
      (for any advice above the minimum). */
  lemma RetryAfterIsExact(len: Length, now: Micros)
    ensures var s := RetryAfter(len, now);
      && WindowStart(len, now + s * SECOND) >= WindowStart(len, now) + len
      && (s > 1 ==> now + (s - 1) * SECOND < WindowStart(len, now) + len)
  {
    var s, later := RetryAfter(len, now), now + RetryAfter(len, now) * SECOND;
    var a, b := now / len, later / len;
    assert later >= a * len + len;
    assert (a + 1) * len == a * len + len;
    DivAtLeast(later, len, a + 1);
    if b > a + 1 { Multiples(a + 1, b, len); }
  }

  // ---- exactly when a count is right, whatever the clocks do -------------------------------------

  /** The step deletes the row of an expired window: a prune, or a hit of the bucket that
      finds no row for its own window. */
  predicate Drops(s: State, w: Windows, step: Step, k: Key) {
    && k.start + w(k.bucket) < step.now
    && (step.HitStep? ==> step.key.bucket == k.bucket && step.key !in s.table)
  }

  /** No step of the run deletes the row of window `k` after a hit in it. */
  predicate Intact(w: Windows, steps: seq<Step>, origin: Micros, k: Key) {
    steps == [] ||
    var s := Run(w, steps[..|steps| - 1], origin);
    Intact(w, steps[..|steps| - 1], origin, k) && !(HitsIn(s.past, k) > 0 && Drops(s, w, steps[|steps| - 1], k))
  }

  function CountOf(t: Table, k: Key): nat {
    if k in t then t[k].count else 0
  }

  /** Rows count from one and carry the end of their window. */
  ghost predicate RowsOk(t: Table, w: Windows) {
    forall k :: k in t ==> t[k].count > 0 && t[k].expires == k.start + w(k.bucket)
  }

  lemma StepCounts(s: State, w: Windows, step: Step, k: Key)
    requires RowsOk(s.table, w) && (step.HitStep? ==> Within(w, step.key, step.now))
    ensures var t := Apply(s, w, step);
      && RowsOk(t.table, w)
      && CountOf(t.table, k) ==
           (if Drops(s, w, step, k) then 0 else CountOf(s.table, k))
           + (if step.HitStep? && step.key == k then 1 else 0)
  {
  }

  lemma StepHits(s: State, w: Windows, step: Step, k: Key)
    ensures HitsIn(Apply(s, w, step).past, k) ==
      HitsIn(s.past, k) + if step.HitStep? && step.key == k then 1 else 0
  {
    if step.HitStep? { HitsAppend(s.past, Past(step.key, step.now, HitCount(s.table, step.key)), k); }
  }

  lemma {:induction false} IntactCounts(w: Windows, steps: seq<Step>, origin: Micros, k: Key)
    requires AllWithin(w, steps)
    ensures var s := Run(w, steps, origin);
      && RowsOk(s.table, w) && CountOf(s.table, k) <= HitsIn(s.past, k)
      && (CountOf(s.table, k) == HitsIn(s.past, k) <==> Intact(w, steps, origin, k))
  {
    if steps != [] {
      var before, step := steps[..|steps| - 1], steps[|steps| - 1];
      IntactCounts(w, before, origin, k);
      StepCounts(Run(w, before, origin), w, step, k);
      StepHits(Run(w, before, origin), w, step, k);
    }
  }

  /** In any run, with clocks that may run ahead or behind: the next hit is told one plus
      all earlier hits of its bucket and window if and only if no row of that window was
      deleted by an earlier prune, or first hit of another window, stamped after its end. */
  lemma CountExact(w: Windows, steps: seq<Step>, origin: Micros, k: Key)
    requires Stamped(w, steps)
    ensures var s := Run(w, steps, origin);
      HitCount(s.table, k) == HitsIn(s.past, k) + 1 <==> Intact(w, steps, origin, k)
  {
    StampedWithin(w, steps);
    IntactCounts(w, steps, origin, k);
  }

  /** A hit stamped after the end of a window, the first of its own window, makes the count
      of the earlier window restart: the next hit stamped there is told one, however many
      there were before. */
  lemma SkewRestartsCount(s: State, w: Windows, ahead: Micros, own: Key, k: Key)
    requires RowsOk(s.table, w) && own.bucket == k.bucket && Within(w, own, ahead) && own !in s.table
    requires k.start + w(k.bucket) < ahead
    ensures HitCount(Apply(s, w, HitStep(own, ahead)).table, k) == 1
  {
    StepCounts(s, w, HitStep(own, ahead), k);
    StepRowsCount(Apply(s, w, HitStep(own, ahead)).table, w, k);
  }

  lemma StepRowsCount(t: Table, w: Windows, k: Key)
    requires RowsOk(t, w)
    ensures HitCount(t, k) == CountOf(t, k) + 1
  {
  }

  // ---- the limiter object --------------------------------------------------------------------------

  datatype Verdict = Verdict(allowed: bool, count: nat, retryAfter: nat)

  class RateLimiter {
    var rows: Table

    constructor ()
      ensures rows == map[]
    {
      rows := map[];
    }

    method CountHit(w: Windows, bucket: string, limit: nat, now: Micros) returns (v: Verdict)
      modifies this
      ensures rows == Hit(old(rows), KeyOf(w, bucket, now), w(bucket), now)
      ensures v.count == HitCount(old(rows), KeyOf(w, bucket, now)) && v.allowed == (v.count <= limit)
      ensures v.retryAfter == RetryAfter(w(bucket), now)
    {
      var start := now / w(bucket) * w(bucket);
      var expires := start + w(bucket);
      var k := Key(bucket, start);
      var count := if k in rows then rows[k].count + 1 else 1;
      rows := rows[k := Row(count, expires)];
      if count == 1 {
        rows := map i | i in rows && !(i.bucket == bucket && rows[i].expires < now) :: rows[i];
      }
      var secs := (expires - now + SECOND - 1) / SECOND;
      v := Verdict(count <= limit, count, AtLeastOne(secs));
    }

    method PruneExpired(now: Micros) returns (dropped: nat)
      modifies this
      ensures rows == Prune(old(rows), now)
      ensures dropped == |old(rows)| - |rows|
    {
      var kept := map i | i in rows && rows[i].expires >= now :: rows[i];
      assert kept.Keys <= rows.Keys;
      assert |rows.Keys| == |kept.Keys| + |rows.Keys - kept.Keys|;
      dropped := |rows| - |kept|;
      rows := kept;
    }
  }
}
