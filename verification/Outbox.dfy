/** The transactional outbox and its dispatchers (server/bbz_core/infra/outbox.py,
    server/bbz_core/workers/outbox_dispatcher.py). Claims are released before rows are
    processed, so several dispatchers may hold the same row in their batches; each row
    is then processed in a transaction of its own. */
module Outbox {
  type Id = nat
  type Time = int     // seconds

  const MAX_ATTEMPTS: nat := 8
  const BASE_BACKOFF: Time := 5
  const MAX_BACKOFF: Time := 1800
  const BATCH: nat := 20

  datatype Status = Pending | Dispatched | Failed

  /** `due` is next_attempt_at; `tries` logs the times of the recorded attempts. */
  datatype Row = Row(status: Status, attempts: nat, due: Time, tries: seq<Time>)

  /** An audit record written with a row's terminal status. */
  datatype Audit = Audit(id: Id, ok: bool)

  datatype Table = Table(rows: map<Id, Row>, audit: seq<Audit>)

  /** How processing a row ends: no handler is registered, the handler returns or
      raises, or the transaction is rolled back (a crash). */
  datatype Outcome = NoHandler | Succeeds | Raises | RolledBack

  function Pow2(n: nat): nat {
    if n == 0 then 1 else 2 * Pow2(n - 1)
  }

  function Backoff(attempts: nat): Time {
    if BASE_BACKOFF * Pow2(attempts) < MAX_BACKOFF then BASE_BACKOFF * Pow2(attempts) else MAX_BACKOFF
  }

  function Tried(row: Row, now: Time): Row {
    row.(attempts := row.attempts + 1, tries := row.tries + [now])
  }

  /** `_process_one`: one row in its own transaction. */
  function Process(t: Table, id: Id, o: Outcome, now: Time): Table {
    if id !in t.rows || t.rows[id].status != Pending || o == RolledBack then t
    else
      var row := Tried(t.rows[id], now);
      match o
      case Succeeds => Table(t.rows[id := row.(status := Dispatched)], t.audit + [Audit(id, true)])
      case NoHandler => Table(t.rows[id := row.(status := Failed)], t.audit + [Audit(id, false)])
      case _ =>
        if row.attempts >= MAX_ATTEMPTS then
          Table(t.rows[id := row.(status := Failed)], t.audit + [Audit(id, false)])
        else t.(rows := t.rows[id := row.(due := now + Backoff(row.attempts))])
  }

  // ---- interleaved dispatchers ----------------------------------------------------

  type Dispatcher = nat

  datatype State = State(table: Table, now: Time, batches: map<Dispatcher, seq<Id>>)

  datatype Step =
    | Enqueue(id: Id)                       // a new pending row, due now
    | Claim(d: Dispatcher, ids: seq<Id>)    // read a batch of ids; locks are released at once
    | Work(d: Dispatcher, o: Outcome)       // process the head of the dispatcher's batch
    | Quit(d: Dispatcher)                   // crash between rows: the rest of the batch is dropped
    | Pass(dt: nat)                         // time passes

  function Apply(s: State, step: Step): State {
    match step
    case Enqueue(id) =>
      if id in s.table.rows then s
      else s.(table := s.table.(rows := s.table.rows[id := Row(Pending, 0, s.now, [])]))
    case Claim(d, ids) =>
      if d in s.batches && s.batches[d] != [] then s else s.(batches := s.batches[d := ids])
    case Work(d, o) =>
      if d !in s.batches || s.batches[d] == [] then s
      else if o == RolledBack then s.(batches := s.batches[d := []])   // the exception leaves run_once
      else s.(table := Process(s.table, s.batches[d][0], o, s.now), batches := s.batches[d := s.batches[d][1..]])
    case Quit(d) => s.(batches := s.batches[d := []])
    case Pass(dt) => s.(now := s.now + dt)
  }

  function Run(s: State, steps: seq<Step>): State {
    if steps == [] then s else Apply(Run(s, steps[..|steps| - 1]), steps[|steps| - 1])
  }

  const Start: State := State(Table(map[], []), 0, map[])

  function AuditsOf(audit: seq<Audit>, id: Id): seq<Audit> {
    if audit == [] then []
    else
      var rest := AuditsOf(audit[..|audit| - 1], id);
      if audit[|audit| - 1].id == id then rest + [audit[|audit| - 1]] else rest
  }

  lemma AuditsAppend(audit: seq<Audit>, a: Audit, id: Id)
    ensures AuditsOf(audit + [a], id) == if a.id == id then AuditsOf(audit, id) + [a] else AuditsOf(audit, id)
  {
    assert (audit + [a])[..|audit + [a]| - 1] == audit;
  }

  /** A pending row has at most 7 attempts and no audit record; a terminal one at most
      8 and exactly the one audit record its status calls for. */
  predicate RowOk(row: Row, audits: seq<Audit>, id: Id) {
    && row.attempts == |row.tries|
    && match row.status
       case Pending => row.attempts < MAX_ATTEMPTS && audits == []
       case Dispatched => row.attempts <= MAX_ATTEMPTS && audits == [Audit(id, true)]
       case Failed => row.attempts <= MAX_ATTEMPTS && audits == [Audit(id, false)]
  }

  predicate IdOk(t: Table, id: Id) {
    if id in t.rows then RowOk(t.rows[id], AuditsOf(t.audit, id), id) else AuditsOf(t.audit, id) == []
  }

  ghost predicate Inv(t: Table) {
    forall id :: IdOk(t, id)
  }

  lemma ProcessAudits(t: Table, id: Id, o: Outcome, now: Time, i: Id)
    requires i != id
    ensures AuditsOf(Process(t, id, o, now).audit, i) == AuditsOf(t.audit, i)
  {
    AuditsAppend(t.audit, Audit(id, true), i);
    AuditsAppend(t.audit, Audit(id, false), i);
  }

  lemma ProcessRowOk(t: Table, id: Id, o: Outcome, now: Time)
    requires id in t.rows && RowOk(t.rows[id], AuditsOf(t.audit, id), id)
    ensures id in Process(t, id, o, now).rows
    ensures RowOk(Process(t, id, o, now).rows[id], AuditsOf(Process(t, id, o, now).audit, id), id)
  {
    AuditsAppend(t.audit, Audit(id, true), id);
    AuditsAppend(t.audit, Audit(id, false), id);
  }

  lemma ProcessKeeps(t: Table, id: Id, o: Outcome, now: Time)
    requires Inv(t)
    ensures Inv(Process(t, id, o, now))
  {
    forall i ensures IdOk(Process(t, id, o, now), i) {
      assert IdOk(t, i);
      if i != id {
        ProcessAudits(t, id, o, now, i);
      } else if id in t.rows {
        ProcessRowOk(t, id, o, now);
      }
    }
  }

  lemma EnqueueKeeps(t: Table, id: Id, now: Time)
    requires Inv(t) && id !in t.rows
    ensures Inv(t.(rows := t.rows[id := Row(Pending, 0, now, [])]))
  {
    var t' := t.(rows := t.rows[id := Row(Pending, 0, now, [])]);
    forall i ensures IdOk(t', i) {
      assert IdOk(t, i);
    }
  }

  /** With any number of dispatchers over overlapping batches, in every run: attempts
      stay below 8 while pending and at most 8 ever, and the audit log holds exactly one
      record per terminal row and none for a pending one, so a row records at most one
      successful dispatch. */
  lemma {:induction false} OutboxConsistent(steps: seq<Step>)
    ensures Inv(Run(Start, steps).table)
  {
    if steps != [] {
      var before := steps[..|steps| - 1];
      OutboxConsistent(before);
      var s := Run(Start, before);
      match steps[|steps| - 1]
      case Work(d, o) => if d in s.batches && s.batches[d] != [] {
          ProcessKeeps(s.table, s.batches[d][0], o, s.now);
        }
      case Enqueue(id) => if id !in s.table.rows { EnqueueKeeps(s.table, id, s.now); }
      case _ =>
    }
  }

  // ---- what became of a row is what its handler did ------------------------------------

  /** The step hands the row to its handler, in a transaction that commits. */
  predicate Handles(s: State, step: Step, id: Id) {
    && step.Work? && step.d in s.batches && s.batches[step.d] != [] && s.batches[step.d][0] == id
    && step.o != RolledBack && id in s.table.rows && s.table.rows[id].status == Pending
  }

  /** The outcomes the row has met, and when, oldest first. */
  function Met(s: State, steps: seq<Step>, id: Id): seq<Outcome> {
    if steps == [] then []
    else
      var before, step := steps[..|steps| - 1], steps[|steps| - 1];
      Met(s, before, id) + if Handles(Run(s, before), step, id) then [step.o] else []
  }

  function MetAt(s: State, steps: seq<Step>, id: Id): seq<Time> {
    if steps == [] then []
    else
      var before, step := steps[..|steps| - 1], steps[|steps| - 1];
      MetAt(s, before, id) + if Handles(Run(s, before), step, id) then [Run(s, before).now] else []
  }

  /** What the outcomes say about the row: the last one decides, and a raise only as the
      eighth. */
  function FateOf(met: seq<Outcome>): Status {
    if met == [] then Pending
    else if met[|met| - 1] == Succeeds then Dispatched
    else if met[|met| - 1] == NoHandler || |met| == 8 then Failed
    else Pending
  }

  /** When the row is next due: at once when new, else after 5 seconds times two to the
      number of tries. */
  function DueAfter(enqueued: Time, at: seq<Time>): Time {
    if at == [] then enqueued else at[|at| - 1] + 5 * Pow2(|at|)
  }

  /** When the row was first put in, if it was. */
  function EnqueuedAt(s: State, steps: seq<Step>, id: Id): seq<Time> {
    if steps == [] then []
    else
      var before, step := steps[..|steps| - 1], steps[|steps| - 1];
      var at := EnqueuedAt(s, before, id);
      if at == [] && step == Enqueue(id) then [Run(s, before).now] else at
  }

  predicate Fits(row: Row, enqueued: Time, met: seq<Outcome>, at: seq<Time>) {
    && row.status == FateOf(met) && row.tries == at && row.attempts == |met| == |at|
    && (forall i :: 0 <= i < |met| ==> met[i] != RolledBack && (i < |met| - 1 ==> met[i] == Raises))
    && (row.status == Pending ==> row.due == DueAfter(enqueued, at))
  }

  lemma HandledFits(t: Table, id: Id, o: Outcome, now: Time, enqueued: Time, met: seq<Outcome>, at: seq<Time>)
    requires id in t.rows && t.rows[id].status == Pending && o != RolledBack
    requires Fits(t.rows[id], enqueued, met, at) && |met| < MAX_ATTEMPTS
    ensures id in Process(t, id, o, now).rows && Fits(Process(t, id, o, now).rows[id], enqueued, met + [o], at + [now])
  {
    assert met != [] ==> met[|met| - 1] == Raises;
    if |met| + 1 < MAX_ATTEMPTS { CapNeverBinds(|met| + 1); }
  }

  lemma OthersFit(s: State, step: Step, id: Id)
    requires !Handles(s, step, id)
    ensures id in s.table.rows ==> id in Apply(s, step).table.rows && Apply(s, step).table.rows[id] == s.table.rows[id]
    ensures id !in s.table.rows ==> (id in Apply(s, step).table.rows <==> step == Enqueue(id))
    ensures id !in s.table.rows && step == Enqueue(id) ==> Apply(s, step).table.rows[id] == Row(Pending, 0, s.now, [])
  {
  }

  /** With any number of dispatchers over overlapping batches, in every run: a row is
      dispatched if and only if its handler returned at last; failed if and only if there was
      no handler, or it raised for the eighth time; pending otherwise, and due when it was
      put in or after the backoff of its tries. All earlier outcomes are raises. */
  lemma {:induction false} FateExactly(steps: seq<Step>, id: Id)
    ensures var t, enqueued := Run(Start, steps).table, EnqueuedAt(Start, steps, id);
      && (id in t.rows <==> enqueued != [])
      && (id in t.rows ==> Fits(t.rows[id], enqueued[0], Met(Start, steps, id), MetAt(Start, steps, id)))
      && (id !in t.rows ==> Met(Start, steps, id) == [] && MetAt(Start, steps, id) == [])
  {
    if steps != [] {
      var before, step := steps[..|steps| - 1], steps[|steps| - 1];
      var s := Run(Start, before);
      FateExactly(before, id);
      OutboxConsistent(before);
      assert IdOk(s.table, id);
      if Handles(s, step, id) {
        HandledFits(s.table, id, step.o, s.now, EnqueuedAt(Start, before, id)[0],
                    Met(Start, before, id), MetAt(Start, before, id));
      } else {
        OthersFit(s, step, id);
      }
    }
  }

  lemma ProcessLeavesTerminal(t: Table, id: Id, o: Outcome, now: Time, i: Id)
    requires i in t.rows && t.rows[i].status != Pending
    ensures i in Process(t, id, o, now).rows && Process(t, id, o, now).rows[i] == t.rows[i]
  {
  }

  /** Terminal states are absorbing: no run ever changes a dispatched or failed row. */
  lemma {:induction false} TerminalIsFinal(s: State, steps: seq<Step>, id: Id)
    requires id in s.table.rows && s.table.rows[id].status != Pending
    ensures id in Run(s, steps).table.rows && Run(s, steps).table.rows[id] == s.table.rows[id]
  {
    if steps != [] {
      TerminalIsFinal(s, steps[..|steps| - 1], id);
      var m := Run(s, steps[..|steps| - 1]);
      match steps[|steps| - 1]
      case Work(d, o) => if d in m.batches && m.batches[d] != [] {
          ProcessLeavesTerminal(m.table, m.batches[d][0], o, m.now, id);
        }
      case _ =>
    }
  }

  // ---- one dispatcher: retries are spaced -------------------------------------------

  predicate IsDue(t: Table, id: Id, now: Time) {
    id in t.rows && t.rows[id].status == Pending && t.rows[id].due <= now
  }

  /** What `claim_due` may return: distinct due rows, earliest first, as many as fit,
      leaving behind only rows due no earlier than those taken. */
  ghost predicate IsBatch(t: Table, now: Time, limit: nat, ids: seq<Id>) {
    && |ids| <= limit
    && (forall i :: 0 <= i < |ids| ==> IsDue(t, ids[i], now))
    && (forall i, j :: 0 <= i < j < |ids| ==> ids[i] != ids[j] && t.rows[ids[i]].due <= t.rows[ids[j]].due)
    && (forall id :: IsDue(t, id, now) && id !in ids ==>
          |ids| == limit && forall i :: 0 <= i < |ids| ==> t.rows[ids[i]].due <= t.rows[id].due)
  }

  /** The steps of a deployment with one dispatcher, whose claims are real batches. */
  ghost predicate Single(s: State, step: Step) {
    match step
    case Claim(d, ids) => d == 0 && IsBatch(s.table, s.now, BATCH, ids)
    case Work(d, _) => d == 0
    case _ => true
  }

  ghost predicate SingleRun(s: State, steps: seq<Step>) {
    forall i :: 0 <= i < |steps| ==> Single(Run(s, steps[..i]), steps[i])
  }

  /** Each attempt comes at least the backoff of the attempts before it after the last. */
  predicate Spaced(tries: seq<Time>) {
    forall i :: 0 < i < |tries| ==> tries[i - 1] + Backoff(i) <= tries[i]
  }

  predicate RetryOk(row: Row) {
    && row.attempts == |row.tries| && Spaced(row.tries)
    && (row.status == Pending && row.tries != [] ==> row.due == row.tries[|row.tries| - 1] + Backoff(row.attempts))
  }

  ghost predicate SpacedInv(s: State) {
    && (forall id :: id in s.table.rows ==> RetryOk(s.table.rows[id]))
    && (forall d :: d in s.batches && d != 0 ==> s.batches[d] == [])
    && (0 in s.batches ==>
          && (forall i, j :: 0 <= i < j < |s.batches[0]| ==> s.batches[0][i] != s.batches[0][j])
          && (forall i :: 0 <= i < |s.batches[0]| ==> IsDue(s.table, s.batches[0][i], s.now)))
  }

  lemma SpacedStep(s: State, step: Step)
    requires SpacedInv(s) && Single(s, step)
    ensures SpacedInv(Apply(s, step))
  {
    if step.Work? && 0 in s.batches && s.batches[0] != [] {
      SpacedWork(s, step.o);
    }
  }

  lemma ProcessRetries(t: Table, id: Id, o: Outcome, now: Time)
    requires id in t.rows && RetryOk(t.rows[id]) && IsDue(t, id, now)
    ensures id in Process(t, id, o, now).rows && RetryOk(Process(t, id, o, now).rows[id])
    ensures forall i :: i in t.rows && i != id ==>
      i in Process(t, id, o, now).rows && Process(t, id, o, now).rows[i] == t.rows[i]
    ensures Process(t, id, o, now).rows.Keys == t.rows.Keys
  {
  }

  lemma SpacedWork(s: State, o: Outcome)
    requires SpacedInv(s) && 0 in s.batches && s.batches[0] != []
    ensures SpacedInv(Apply(s, Work(0, o)))
  {
    var id, t := s.batches[0][0], Apply(s, Work(0, o));
    assert IsDue(s.table, id, s.now);
    ProcessRetries(s.table, id, o, s.now);
    forall i | 0 <= i < |t.batches[0]| ensures IsDue(t.table, t.batches[0][i], t.now) {
      assert t.batches[0][i] == s.batches[0][i + 1] != id;
      assert IsDue(s.table, s.batches[0][i + 1], s.now);
    }
  }

  lemma {:induction false} SpacedRun(steps: seq<Step>)
    requires SingleRun(Start, steps)
    ensures SpacedInv(Run(Start, steps))
  {
    if steps != [] {
      var before := steps[..|steps| - 1];
      assert SingleRun(Start, before) by {
        forall i | 0 <= i < |before| ensures Single(Run(Start, before[..i]), before[i]) {
          assert before[..i] == steps[..i];
        }
      }
      SpacedRun(before);
      SpacedStep(Run(Start, before), steps[|steps| - 1]);
    }
  }

  /** The half-hour cap never binds for a row that is still retried. */
  lemma CapNeverBinds(k: nat)
    requires k < MAX_ATTEMPTS
    ensures Backoff(k) == BASE_BACKOFF * Pow2(k) < MAX_BACKOFF
  {
    assert Pow2(3) == 8 && Pow2(6) == 64;
    PowMono(k, 7);
    assert Pow2(7) == 128;
  }

  /** The cap is half an hour and binds from the ninth attempt on, which no row gets to. */
  lemma CapBinds(k: nat)
    ensures Backoff(k) == 1800 <==> k >= 9
    ensures Backoff(k) <= 1800
  {
    assert Pow2(3) == 8 && Pow2(6) == 64 && Pow2(8) == 256 && Pow2(9) == 512;
    if k >= 9 { PowMono(9, k); } else { PowMono(k, 8); }
  }

  /** A dispatcher whose transaction was rolled back, or that crashed, has left the table alone
      and claims anew, also the rows it dropped. */
  lemma ClaimsAgain(s: State, d: Dispatcher, ids: seq<Id>)
    requires d in s.batches && s.batches[d] != []
    ensures var rolledBack, quit := Apply(s, Work(d, RolledBack)), Apply(s, Quit(d));
      && rolledBack.table == s.table && quit.table == s.table
      && Apply(rolledBack, Claim(d, ids)).batches == s.batches[d := ids]
      && Apply(quit, Claim(d, ids)).batches == s.batches[d := ids]
      && Apply(s, Claim(d, ids)) == s
  {
  }

  lemma {:induction false} PowMono(a: nat, b: nat)
    requires a <= b
    ensures Pow2(a) <= Pow2(b)
  {
    if a < b { PowMono(a, b - 1); }
  }

  /** Whenever the row is processed its handler raises (or the transaction is lost). */
  predicate AlwaysRaises(s: State, step: Step, id: Id) {
    step.Work? && step.d in s.batches && s.batches[step.d] != [] && s.batches[step.d][0] == id ==>
      step.o == Raises || step.o == RolledBack
  }

  predicate RaisingRun(s: State, steps: seq<Step>, id: Id) {
    steps == [] ||
    var before := steps[..|steps| - 1];
    RaisingRun(s, before, id) && AlwaysRaises(Run(s, before), steps[|steps| - 1], id)
  }

  predicate FailsLate(t: Table, id: Id) {
    id in t.rows ==>
      t.rows[id].status != Dispatched && (t.rows[id].status == Failed ==> t.rows[id].attempts == MAX_ATTEMPTS)
  }

  lemma {:induction false} RaisingRowFailsLate(steps: seq<Step>, id: Id)
    requires RaisingRun(Start, steps, id)
    ensures FailsLate(Run(Start, steps).table, id)
  {
    if steps != [] {
      var before := steps[..|steps| - 1];
      RaisingRowFailsLate(before, id);
      OutboxConsistent(before);
      RaisingStep(Run(Start, before), steps[|steps| - 1], id);
    }
  }

  lemma RaisingStep(s: State, step: Step, id: Id)
    requires Inv(s.table) && FailsLate(s.table, id) && AlwaysRaises(s, step, id)
    ensures FailsLate(Apply(s, step).table, id)
  {
    assert IdOk(s.table, id);
  }

  lemma SpacedSum(tries: seq<Time>)
    requires |tries| == 8 && Spaced(tries)
    ensures tries[7] - tries[0] >= 1270
  {
    CapNeverBinds(1); CapNeverBinds(2); CapNeverBinds(3); CapNeverBinds(4);
    CapNeverBinds(5); CapNeverBinds(6); CapNeverBinds(7);
    assert Pow2(1) == 2 && Pow2(2) == 4 && Pow2(3) == 8;
    assert Pow2(4) == 16 && Pow2(5) == 32;
    assert Pow2(6) == 64 && Pow2(7) == 128;
    assert tries[0] + Backoff(1) <= tries[1] && tries[1] + Backoff(2) <= tries[2] && tries[2] + Backoff(3) <= tries[3];
    assert tries[3] + Backoff(4) <= tries[4] && tries[4] + Backoff(5) <= tries[5];
    assert tries[5] + Backoff(6) <= tries[6] && tries[6] + Backoff(7) <= tries[7];
  }

  /** Under one dispatcher a row whose handler always raises is never dispatched, is
      retried while it has fewer than 8 attempts, and is marked failed exactly at its
      8th, no earlier than 1270 seconds after the first. */
  lemma FailsAtEighthAttempt(steps: seq<Step>, id: Id)
    requires SingleRun(Start, steps) && RaisingRun(Start, steps, id)
    requires id in Run(Start, steps).table.rows
    ensures var row := Run(Start, steps).table.rows[id];
      && row.attempts == |row.tries|
      && (row.status == Pending <==> row.attempts < MAX_ATTEMPTS)
      && (row.status == Failed <==> row.attempts == MAX_ATTEMPTS)
      && (row.status == Failed ==> row.tries[7] - row.tries[0] >= 1270)
  {
    var t := Run(Start, steps).table;
    OutboxConsistent(steps);
    assert IdOk(t, id);
    RaisingRowFailsLate(steps, id);
    SpacedRun(steps);
    assert RetryOk(t.rows[id]);
    if t.rows[id].status == Failed { SpacedSum(t.rows[id].tries); }
  }

  lemma RunOf(s: State, steps: seq<Step>, step: Step)
    ensures Run(s, steps + [step]) == Apply(Run(s, steps), step)
  {
    assert (steps + [step])[..|steps + [step]| - 1] == steps;
  }

  // ---- any number of dispatchers: exactly when the spacing is lost --------------------

  ghost predicate AllSpaced(t: Table) {
    forall id :: id in t.rows ==> Spaced(t.rows[id].tries)
  }

  /** A pending row is due the backoff after its last try, however it came to be tried. */
  ghost predicate DueInv(t: Table) {
    forall id :: id in t.rows ==> DueOk(t.rows[id])
  }

  predicate DueOk(row: Row) {
    && row.attempts == |row.tries|
    && (row.status == Pending && row.tries != [] ==> row.due == row.tries[|row.tries| - 1] + Backoff(row.attempts))
  }

  /** The row is retried before it is due: `_process_one` takes any pending row of its
      batch, although another dispatcher may have put off the row since it was claimed. */
  predicate TooEarly(t: Table, id: Id, o: Outcome, now: Time) {
    id in t.rows && t.rows[id].status == Pending && o != RolledBack && t.rows[id].tries != [] && now < t.rows[id].due
  }

  predicate EarlyWork(s: State, step: Step) {
    && step.Work? && step.d in s.batches && s.batches[step.d] != []
    && TooEarly(s.table, s.batches[step.d][0], step.o, s.now)
  }

  lemma SpacedAppend(tries: seq<Time>, now: Time)
    ensures Spaced(tries + [now]) <==>
      Spaced(tries) && (tries != [] ==> tries[|tries| - 1] + Backoff(|tries|) <= now)
  {
    var more := tries + [now];
    if Spaced(more) {
      forall i | 0 < i < |tries| ensures tries[i - 1] + Backoff(i) <= tries[i] {
        assert more[i - 1] == tries[i - 1] && more[i] == tries[i];
      }
      if tries != [] { assert more[|tries| - 1] + Backoff(|tries|) <= more[|tries|]; }
    }
  }

  lemma ProcessSpacing(t: Table, id: Id, o: Outcome, now: Time)
    requires DueInv(t)
    ensures DueInv(Process(t, id, o, now))
    ensures AllSpaced(Process(t, id, o, now)) <==> AllSpaced(t) && !TooEarly(t, id, o, now)
  {
    var t' := Process(t, id, o, now);
    if id in t.rows && t.rows[id].status == Pending && o != RolledBack {
      var row := t.rows[id];
      assert DueOk(row);
      SpacedAppend(row.tries, now);
      assert t'.rows[id].tries == row.tries + [now];
      assert forall i :: i in t.rows && i != id ==> i in t'.rows && t'.rows[i] == t.rows[i];
      if AllSpaced(t') {
        forall i | i in t.rows ensures Spaced(t.rows[i].tries) {
          assert Spaced(t'.rows[i].tries);
        }
      }
    }
  }

  /** No step of the run retries a row before it is due. */
  predicate NeverEarly(steps: seq<Step>) {
    steps == [] ||
    (NeverEarly(steps[..|steps| - 1]) && !EarlyWork(Run(Start, steps[..|steps| - 1]), steps[|steps| - 1]))
  }

  /** With any number of dispatchers over overlapping batches: every row's retries are
      spaced by the backoff if and only if no row was retried before it was due. */
  lemma {:induction false} SpacingExact(steps: seq<Step>)
    ensures DueInv(Run(Start, steps).table)
    ensures AllSpaced(Run(Start, steps).table) <==> NeverEarly(steps)
  {
    if steps != [] {
      var before, step := steps[..|steps| - 1], steps[|steps| - 1];
      SpacingExact(before);
      SpacingStep(Run(Start, before), step);
    }
  }

  lemma SpacingStep(s: State, step: Step)
    requires DueInv(s.table)
    ensures DueInv(Apply(s, step).table)
    ensures AllSpaced(Apply(s, step).table) <==> AllSpaced(s.table) && !EarlyWork(s, step)
  {
    match step
    case Work(d, o) =>
      if d in s.batches && s.batches[d] != [] { ProcessSpacing(s.table, s.batches[d][0], o, s.now); }
    case Enqueue(id) =>
      var t := Apply(s, step).table;
      if id !in s.table.rows {
        assert forall i :: i in s.table.rows ==> i in t.rows && t.rows[i] == s.table.rows[i];
      }
    case _ =>
  }

  /** With two dispatchers holding the same row the spacing is lost: both attempts may
      fall into the same second. */
  lemma OverlapLosesSpacing() returns (steps: seq<Step>)
    ensures var t := Run(Start, steps).table; 7 in t.rows && t.rows[7].tries == [0, 0]
  {
    var script := [Enqueue(7), Claim(0, [7]), Claim(1, [7]), Work(0, Raises), Work(1, Raises)];
    steps := [];
    RunOf(Start, steps, script[0]); steps := steps + [script[0]];
    assert Run(Start, steps).table.rows[7] == Row(Pending, 0, 0, []);
    RunOf(Start, steps, script[1]); steps := steps + [script[1]];
    RunOf(Start, steps, script[2]); steps := steps + [script[2]];
    assert Run(Start, steps).batches == map[0 := [7], 1 := [7]];
    RunOf(Start, steps, script[3]); steps := steps + [script[3]];
    assert Run(Start, steps).batches[1] == [7] && Run(Start, steps).table.rows[7].tries == [0];
    RunOf(Start, steps, script[4]); steps := steps + [script[4]];
  }

  // ---- fairness ----------------------------------------------------------------------

  /** Process a batch, each row at its own time. */
  function ProcessAll(t: Table, ids: seq<Id>, os: seq<Outcome>, times: seq<Time>): Table
    requires |ids| == |os| == |times|
  {
    if ids == [] then t
    else
      var n := |ids| - 1;
      Process(ProcessAll(t, ids[..n], os[..n], times[..n]), ids[n], os[n], times[n])
  }

  /** One call of `run_once`: rows inserted since the last one, then a batch. */
  datatype Call = Call(arrivals: map<Id, Row>, now: Time, ids: seq<Id>, os: seq<Outcome>, times: seq<Time>)

  type Tick = k: Call | |k.ids| == |k.os| == |k.times| witness Call(map[], 0, [], [], [])

  /** How many rows of a batch are handled: a rolled-back transaction raises out of
      `run_once` and the rest of the batch is dropped. */
  function Handled(os: seq<Outcome>): (n: nat)
    ensures n <= |os| && (forall i :: 0 <= i < n ==> os[i] != RolledBack)
    ensures n < |os| ==> os[n] == RolledBack
  {
    if os == [] || os[0] == RolledBack then 0 else Handled(os[1..]) + 1
  }

  /** The rows of the batch that are handled. */
  function Taken(k: Tick): seq<Id> {
    k.ids[..Handled(k.os)]
  }

  function AfterArrivals(t: Table, k: Tick): Table {
    t.(rows := t.rows + k.arrivals)
  }

  /** A real tick at which rows due at `due` are due. */
  ghost predicate IsTick(t: Table, k: Tick, due: Time) {
    && due <= k.now && k.arrivals.Keys !! t.rows.Keys
    && IsBatch(AfterArrivals(t, k), k.now, BATCH, k.ids)
    && (forall i :: 0 <= i < |k.ids| ==> k.now <= k.times[i])
  }

  function AfterTick(t: Table, k: Tick): Table {
    var n := Handled(k.os);
    ProcessAll(AfterArrivals(t, k), k.ids[..n], k.os[..n], k.times[..n])
  }

  /** Pending rows that a claim may prefer to row `id`. */
  function Ahead(t: Table, id: Id, due: Time): set<Id> {
    set i | i in t.rows && i != id && t.rows[i].status == Pending && t.rows[i].due <= due
  }

  /** New rows that are due no later than `due`. */
  function Early(k: Tick, due: Time): set<Id> {
    set i | i in k.arrivals && k.arrivals[i].status == Pending && k.arrivals[i].due <= due
  }

  /** Places of the batch that a call which raises leaves unused. */
  function Wasted(k: Tick): (n: int) {
    if Handled(k.os) < |k.os| then BATCH - Handled(k.os) else 0
  }

  lemma BackoffPositive(k: nat)
    ensures Backoff(k) > 0
  {
    PowMono(0, k);
  }

  /** The row is no longer pending, or not before later than `due`. */
  predicate Deferred(t: Table, id: Id, due: Time) {
    id in t.rows && (t.rows[id].status != Pending || due < t.rows[id].due)
  }

  lemma ProcessEffect(t: Table, id: Id, o: Outcome, now: Time, due: Time)
    requires id in t.rows && due <= now && o != RolledBack
    ensures var t' := Process(t, id, o, now);
      && Deferred(t', id, due) && t'.rows.Keys == t.rows.Keys
      && (forall i :: i in t.rows && i != id ==> t'.rows[i] == t.rows[i])
  {
    BackoffPositive(t.rows[id].attempts + 1);
  }

  lemma {:induction false} ProcessAllEffect(t: Table, ids: seq<Id>, os: seq<Outcome>, times: seq<Time>, due: Time)
    requires |ids| == |os| == |times|
    requires forall i, j :: 0 <= i < j < |ids| ==> ids[i] != ids[j]
    requires forall i :: 0 <= i < |ids| ==> ids[i] in t.rows && due <= times[i] && os[i] != RolledBack
    ensures var t' := ProcessAll(t, ids, os, times);
      && t'.rows.Keys == t.rows.Keys
      && (forall id :: id in t.rows && id !in ids ==> t'.rows[id] == t.rows[id])
      && (forall i :: 0 <= i < |ids| ==> Deferred(t', ids[i], due))
  {
    if ids != [] {
      var n := |ids| - 1;
      var init := ids[..n];
      ProcessAllEffect(t, init, os[..n], times[..n], due);
      var m := ProcessAll(t, init, os[..n], times[..n]);
      ProcessEffect(m, ids[n], os[n], times[n], due);
      var t' := ProcessAll(t, ids, os, times);
      forall i | 0 <= i < n ensures Deferred(t', ids[i], due) {
        assert Deferred(m, init[i], due) && ids[i] != ids[n];
      }
      assert ids[n] in ids && forall id :: id in init ==> id in ids;
    }
  }

  /** A set without some of its members, given as a list without repetitions. */
  lemma {:induction false} CountWithout(a: set<Id>, b: set<Id>, ids: seq<Id>)
    requires a == b - (set i | i in ids) && (forall i :: i in ids ==> i in b)
    requires forall i, j :: 0 <= i < j < |ids| ==> ids[i] != ids[j]
    ensures |a| + |ids| == |b|
    decreases |ids|
  {
    if ids != [] {
      var n := |ids| - 1;
      assert ids == ids[..n] + [ids[n]];
      assert ids[n] !in ids[..n];
      CountWithout(a, b - {ids[n]}, ids[..n]);
    } else {
      assert a == b;
    }
  }

  lemma ArrivalsAhead(t: Table, k: Tick, id: Id, due: Time)
    requires id in t.rows && k.arrivals.Keys !! t.rows.Keys
    ensures |Ahead(AfterArrivals(t, k), id, due)| == |Ahead(t, id, due)| + |Early(k, due)|
  {
    var was, early := Ahead(t, id, due), Early(k, due);
    assert was !! early;
    assert Ahead(AfterArrivals(t, k), id, due) == was + early;
  }

  /** What is claimed before the row is ahead of it, and unless the call raises before the
      row's turn the batch is full. */
  lemma TakenAhead(t: Table, k: Tick, id: Id)
    requires id in t.rows && t.rows[id].status == Pending && IsTick(t, k, t.rows[id].due) && id !in Taken(k)
    ensures forall i :: i in Taken(k) ==> i in Ahead(AfterArrivals(t, k), id, t.rows[id].due)
    ensures |Taken(k)| == BATCH - Wasted(k)
  {
    var t1, n := AfterArrivals(t, k), Handled(k.os);
    assert IsDue(t1, id, k.now);
    if id in k.ids {
      var j :| 0 <= j < |k.ids| && k.ids[j] == id;
      assert forall i :: 0 <= i < n ==> Taken(k)[i] == k.ids[i];
      assert n <= j;
    }
    forall i | 0 <= i < n ensures k.ids[i] in Ahead(t1, id, t.rows[id].due) {
      assert IsDue(t1, k.ids[i], k.now) && Taken(k)[i] == k.ids[i];
    }
  }

  lemma TakenLeave(t: Table, k: Tick, id: Id)
    requires id in t.rows && t.rows[id].status == Pending && IsTick(t, k, t.rows[id].due) && id !in Taken(k)
    ensures var t', due := AfterTick(t, k), t.rows[id].due;
      && id in t'.rows && t'.rows[id] == t.rows[id]
      && Ahead(t', id, due) == Ahead(AfterArrivals(t, k), id, due) - (set i | i in Taken(k))
  {
    var t1, n, due := AfterArrivals(t, k), Handled(k.os), t.rows[id].due;
    var ids := k.ids[..n];
    forall i | 0 <= i < n ensures ids[i] in t1.rows && due <= k.times[..n][i] {
      assert IsDue(t1, k.ids[i], k.now);
    }
    ProcessAllEffect(t1, ids, k.os[..n], k.times[..n], due);
    var t' := AfterTick(t, k);
    forall i | i in ids ensures Deferred(t', i, due) {
      var j :| 0 <= j < |ids| && ids[j] == i;
    }
  }

  /** One tick that does not handle a due row, whatever arrives and whatever is rolled back:
      the rows ahead of it lose a batch, but for the places wasted, and gain the new rows
      due no later. */
  lemma TickProgress(t: Table, k: Tick, id: Id)
    requires id in t.rows && t.rows[id].status == Pending && IsTick(t, k, t.rows[id].due) && id !in Taken(k)
    ensures var t', due := AfterTick(t, k), t.rows[id].due;
      && id in t'.rows && t'.rows[id] == t.rows[id]
      && |Ahead(t', id, due)| + BATCH == |Ahead(t, id, due)| + |Early(k, due)| + Wasted(k)
  {
    var due := t.rows[id].due;
    TakenAhead(t, k, id);
    TakenLeave(t, k, id);
    ArrivalsAhead(t, k, id, due);
    CountWithout(Ahead(AfterTick(t, k), id, due), Ahead(AfterArrivals(t, k), id, due), Taken(k));
  }

  function AfterTicks(t: Table, ks: seq<Tick>): Table {
    if ks == [] then t else AfterTick(AfterTicks(t, ks[..|ks| - 1]), ks[|ks| - 1])
  }

  ghost predicate AreTicks(t: Table, ks: seq<Tick>, due: Time) {
    ks == [] ||
    (AreTicks(t, ks[..|ks| - 1], due) && IsTick(AfterTicks(t, ks[..|ks| - 1]), ks[|ks| - 1], due))
  }

  /** What delays a row due at `due` over several ticks: new rows due no later, and the
      places wasted by calls that raised. */
  function Delays(ks: seq<Tick>, due: Time): int {
    if ks == [] then 0
    else Delays(ks[..|ks| - 1], due) + |Early(ks[|ks| - 1], due)| + Wasted(ks[|ks| - 1])
  }

  /** The account of a waiting row, for every sequence of ticks that does not handle it:
      what was ahead of it and what has delayed it is what twenty rows a tick have not yet
      worked off. */
  lemma {:induction false} WaitingAccount(t: Table, ks: seq<Tick>, id: Id)
    requires id in t.rows && t.rows[id].status == Pending && AreTicks(t, ks, t.rows[id].due)
    requires forall i :: 0 <= i < |ks| ==> id !in Taken(ks[i])
    ensures var t', due := AfterTicks(t, ks), t.rows[id].due;
      && id in t'.rows && t'.rows[id] == t.rows[id]
      && |Ahead(t', id, due)| + 20 * |ks| == |Ahead(t, id, due)| + Delays(ks, due)
  {
    if ks != [] {
      var before := ks[..|ks| - 1];
      forall i | 0 <= i < |before| ensures id !in Taken(before[i]) {
        assert before[i] == ks[i];
      }
      WaitingAccount(t, before, id);
      TickProgress(AfterTicks(t, before), ks[|ks| - 1], id);
    }
  }

  /** A due row is handled by the time that twenty rows a tick exceed the rows ahead of it
      and its delays. */
  lemma DueRowIsHandled(t: Table, ks: seq<Tick>, id: Id)
    requires id in t.rows && t.rows[id].status == Pending && AreTicks(t, ks, t.rows[id].due)
    requires 20 * |ks| > |Ahead(t, id, t.rows[id].due)| + Delays(ks, t.rows[id].due)
    ensures exists i :: 0 <= i < |ks| && id in Taken(ks[i])
  {
    if forall i :: 0 <= i < |ks| ==> id !in Taken(ks[i]) {
      WaitingAccount(t, ks, id);
    }
  }

  /** Nothing new is due as early as the row and no call raises. */
  predicate Undisturbed(ks: seq<Tick>, due: Time) {
    forall i :: 0 <= i < |ks| ==> Early(ks[i], due) == {} && Wasted(ks[i]) == 0
  }

  lemma {:induction false} NoDelays(ks: seq<Tick>, due: Time)
    requires Undisturbed(ks, due)
    ensures Delays(ks, due) == 0
  {
    if ks != [] { NoDelays(ks[..|ks| - 1], due); }
  }

  /** Undisturbed, a due row with m rows ahead of it is handled by one of the first
      m/20 + 1 ticks. */
  lemma HandledUndisturbed(t: Table, ks: seq<Tick>, id: Id)
    requires id in t.rows && t.rows[id].status == Pending && AreTicks(t, ks, t.rows[id].due)
    requires Undisturbed(ks, t.rows[id].due) && |ks| == |Ahead(t, id, t.rows[id].due)| / 20 + 1
    ensures exists i :: 0 <= i < |ks| && id in Taken(ks[i])
  {
    NoDelays(ks, t.rows[id].due);
    DueRowIsHandled(t, ks, id);
  }

  /** A rolled-back first row wastes the batch: the table is as it was, so that the same
      batch can pass over the row again and again. */
  lemma RollbacksStarve(t: Table, id: Id, k: Tick)
    requires id in t.rows && t.rows[id].status == Pending && k.arrivals == map[]
    requires k.os != [] && k.os[0] == RolledBack && IsBatch(t, k.now, BATCH, k.ids)
    ensures AfterTick(t, k) == t && IsBatch(AfterTick(t, k), k.now, BATCH, k.ids)
    ensures id !in Taken(k) && Wasted(k) == BATCH
  {
    assert AfterArrivals(t, k) == t;
  }

  function Unused(base: Id): seq<Id> {
    seq(BATCH, i => base + i)
  }

  /** Twenty new rows due at the same time as the waiting one, claimed before it. */
  function TieTick(base: Id, due: Time): Tick {
    Call(map i | i in Unused(base) :: Row(Pending, 0, due, []), due,
         Unused(base), seq(BATCH, _ => Succeeds), seq(BATCH, _ => due))
  }

  /** The row waits and is first in line; ids from `base` on are unused. */
  predicate FirstInLine(t: Table, id: Id, base: Id, due: Time) {
    && id in t.rows && t.rows[id].status == Pending && t.rows[id].due == due
    && forall i :: i in t.rows ==> i < base && (t.rows[i].status == Pending ==> due <= t.rows[i].due)
  }

  /** A batch `claim_due` may return after the arrivals, without the row. */
  ghost predicate PassedOver(t: Table, id: Id, k: Tick) {
    k.arrivals.Keys !! t.rows.Keys && IsBatch(AfterArrivals(t, k), k.now, BATCH, k.ids) && id !in k.ids
  }

  lemma TieBatch(t: Table, id: Id, base: Id, due: Time)
    requires FirstInLine(t, id, base, due)
    ensures PassedOver(t, id, TieTick(base, due))
  {
    var k := TieTick(base, due);
    var t1 := AfterArrivals(t, k);
    forall i | 0 <= i < |k.ids| ensures k.ids[i] in t1.rows && t1.rows[k.ids[i]] == Row(Pending, 0, due, []) {
      assert k.ids[i] in k.arrivals;
    }
  }

  /** The bound needs later arrivals: of rows that arrive with the same due time a claim may
      take the new ones first, and the row is then where it was, first in line and passed
      over again by the next such tick. */
  lemma TiesStarve(t: Table, id: Id, base: Id, due: Time)
    requires FirstInLine(t, id, base, due)
    ensures PassedOver(t, id, TieTick(base, due))
    ensures FirstInLine(AfterTick(t, TieTick(base, due)), id, base + BATCH, due)
  {
    var k := TieTick(base, due);
    TieBatch(t, id, base, due);
    assert Handled(k.os) == BATCH;
    assert k.ids[..BATCH] == k.ids && k.os[..BATCH] == k.os && k.times[..BATCH] == k.times;
    ProcessAllEffect(AfterArrivals(t, k), k.ids, k.os, k.times, due);
    var t' := AfterTick(t, k);
    forall i | i in t'.rows ensures i < base + BATCH && (t'.rows[i].status == Pending ==> due <= t'.rows[i].due) {
      if i in k.ids {
        var j :| 0 <= j < |k.ids| && k.ids[j] == i;
        assert Deferred(t', k.ids[j], due);
      }
    }
  }

  // ---- the dispatcher object ------------------------------------------------------------

  class OutboxDispatcher {
    var rows: map<Id, Row>
    var audit: seq<Audit>

    ghost function Contents(): Table
      reads this
    {
      Table(rows, audit)
    }

    constructor ()
      ensures Contents() == Table(map[], [])
    {
      rows, audit := map[], [];
    }

    method MarkTerminal(id: Id, ok: bool, now: Time)
      requires id in rows
      modifies this
      ensures rows == old(rows)[id := Tried(old(rows)[id], now).(status := if ok then Dispatched else Failed)]
      ensures audit == old(audit) + [Audit(id, ok)]
    {
      rows := rows[id := Tried(rows[id], now).(status := if ok then Dispatched else Failed)];
      audit := audit + [Audit(id, ok)];
    }

    /** `raised` says that the transaction was rolled back and its exception leaves the call. */
    method ProcessOne(id: Id, o: Outcome, now: Time) returns (raised: bool)
      modifies this
      ensures raised == (o == RolledBack)
      ensures Contents() == Process(old(Contents()), id, o, now)
    {
      raised := o == RolledBack;
      if raised || id !in rows || rows[id].status != Pending { return; }
      if o == NoHandler {
        MarkTerminal(id, false, now);
      } else if o == Raises {
        if rows[id].attempts + 1 >= MAX_ATTEMPTS {
          MarkTerminal(id, false, now);
        } else {
          var row := Tried(rows[id], now);
          rows := rows[id := row.(due := now + Backoff(row.attempts))];
        }
      } else {
        MarkTerminal(id, true, now);
      }
    }

    /** Process a claimed batch row by row until one raises; returns how many were handled. */
    method RunOnce(ids: seq<Id>, os: seq<Outcome>, times: seq<Time>) returns (handled: nat, raised: bool)
      requires |ids| == |os| == |times|
      modifies this
      ensures handled == Handled(os) && raised == (handled < |ids|)
      ensures Contents() == ProcessAll(old(Contents()), ids[..handled], os[..handled], times[..handled])
    {
      handled, raised := 0, false;
      while handled < |ids|
        invariant !raised && handled <= |ids| && Handled(os) == handled + Handled(os[handled..])
        invariant Contents() == ProcessAll(old(Contents()), ids[..handled], os[..handled], times[..handled])
      {
        raised := ProcessOne(ids[handled], os[handled], times[handled]);
        if raised { return; }
        handled := handled + 1;
        assert os[handled - 1..][1..] == os[handled..];
        assert ids[..handled][..handled - 1] == ids[..handled - 1];
        assert os[..handled][..handled - 1] == os[..handled - 1];
        assert times[..handled][..handled - 1] == times[..handled - 1];
      }
    }
  }
}
