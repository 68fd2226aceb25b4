/** Durable command dedupe (server/bbz_core/infra/idempotency.py) as interleaved
    transactions: any number of requests sharing command ids, crashes, failing bodies
    and the two purges. */
module Idempotency {
  import opened Wrappers

  type CommandId = string
  type Time = int

  datatype StoredResult = StoredResult(status: int, body: string)

  datatype Row = Row(hash: string, result: Option<StoredResult>, created: Time, completed: Time)

  type Table = map<CommandId, Row>

  /** What `claim` says about an existing row. */
  datatype Verdict = Replayed(stored: StoredResult) | Conflict | InProgress | RowGone

  // ---- the table's transactions -------------------------------------------------

  /** Insert-if-absent of a pending row. */
  function Insert(t: Table, cmd: CommandId, hash: string, now: Time): Table {
    if cmd in t then t else t[cmd := Row(hash, None, now, now)]
  }

  /** The second statement of `claim`, after the insert found a row. */
  function Read(t: Table, cmd: CommandId, hash: string): Verdict {
    if cmd !in t then RowGone
    else if t[cmd].hash != hash then Conflict
    else if t[cmd].result.None? then InProgress
    else Replayed(t[cmd].result.value)
  }

  function Complete(t: Table, cmd: CommandId, r: StoredResult, now: Time): Table {
    if cmd !in t then t else t[cmd := t[cmd].(result := Some(r), completed := now)]
  }

  /** Drop the row if it is still pending. */
  function Abandon(t: Table, cmd: CommandId): Table {
    if cmd in t && t[cmd].result.None? then t - {cmd} else t
  }

  function PurgeStale(t: Table, cutoff: Time): Table {
    map c | c in t && !(t[c].result.None? && t[c].created < cutoff) :: t[c]
  }

  function PurgeCompleted(t: Table, cutoff: Time): Table {
    map c | c in t && !(t[c].result.Some? && t[c].completed < cutoff) :: t[c]
  }

  // ---- requests -------------------------------------------------------------------

  type RequestId = nat

  datatype Phase =
    | Fresh                                // claim not started
    | Looking                              // the insert found a row
    | Running                              // claimed, body running, nothing committed
    | Effected                             // the body's transaction has committed
    | Failing                              // the body raised or gave no result
    | Completed(result: StoredResult)
    | Refused(verdict: Verdict)            // replay, conflict, in progress or row gone
    | Aborted                              // abandoned after a failing body
    | Crashed

  datatype Request = Request(cmd: CommandId, hash: string, phase: Phase)

  /** `effects` logs the commands whose body has committed, in commit order. */
  datatype State = State(table: Table, requests: map<RequestId, Request>, effects: seq<CommandId>)

  datatype Step =
    | InsertStep(r: RequestId, now: Time)
    | ReadStep(r: RequestId)
    | EffectStep(r: RequestId)
    | FailStep(r: RequestId)
    | CompleteStep(r: RequestId, result: StoredResult, now: Time)
    | AbandonStep(r: RequestId)
    | CrashStep(r: RequestId)
    | PurgeStaleStep(cutoff: Time)
    | PurgeCompletedStep(cutoff: Time)

  function Go(s: State, r: RequestId, p: Phase): State
    requires r in s.requests
  {
    s.(requests := s.requests[r := s.requests[r].(phase := p)])
  }

  /** One transaction; a step that is not enabled changes nothing. */
  function Apply(s: State, step: Step): State {
    match step
    case PurgeStaleStep(cutoff) => s.(table := PurgeStale(s.table, cutoff))
    case PurgeCompletedStep(cutoff) => s.(table := PurgeCompleted(s.table, cutoff))
    case _ => if step.r in s.requests then ApplyRequest(s, step) else s
  }

  function ApplyRequest(s: State, step: Step): State
    requires !Purges(step) && step.r in s.requests
  {
    var q := s.requests[step.r];
    match step
    case PurgeStaleStep(_) => s
    case PurgeCompletedStep(_) => s
    case InsertStep(r, now) =>
      if !q.phase.Fresh? then s
      else if q.cmd in s.table then Go(s, r, Looking)
      else Go(s.(table := Insert(s.table, q.cmd, q.hash, now)), r, Running)
    case ReadStep(r) =>
      if q.phase.Looking? then Go(s, r, Refused(Read(s.table, q.cmd, q.hash))) else s
    case EffectStep(r) =>
      if q.phase.Running? then Go(s.(effects := s.effects + [q.cmd]), r, Effected) else s
    case FailStep(r) =>
      if q.phase.Running? || q.phase.Effected? then Go(s, r, Failing) else s
    case CompleteStep(r, result, now) =>
      if !q.phase.Running? && !q.phase.Effected? then s
      else if q.cmd !in s.table then Go(s, r, Aborted)
      else Go(s.(table := Complete(s.table, q.cmd, result, now)), r, Completed(result))
    case AbandonStep(r) =>
      if q.phase.Failing? then Go(s.(table := Abandon(s.table, q.cmd)), r, Aborted) else s
    case CrashStep(r) => Go(s, r, Crashed)
  }

  function Run(s: State, steps: seq<Step>): State {
    if steps == [] then s else Apply(Run(s, steps[..|steps| - 1]), steps[|steps| - 1])
  }

  // ---- what a run may do to a command -------------------------------------------------

  predicate IsActive(p: Phase) {
    p.Running? || p.Effected? || p.Failing?
  }

  /** The requests of the command that are between claim and completion. */
  predicate Holds(s: State, r: RequestId, cmd: CommandId) {
    r in s.requests && s.requests[r].cmd == cmd && IsActive(s.requests[r].phase)
  }

  predicate Finished(t: State, r: RequestId, cmd: CommandId) {
    r in t.requests && t.requests[r].cmd == cmd && t.requests[r].phase.Completed?
  }

  predicate Replaying(t: State, r: RequestId, cmd: CommandId) {
    && r in t.requests && t.requests[r].cmd == cmd
    && t.requests[r].phase.Refused? && t.requests[r].phase.verdict.Replayed?
  }

  /** The request runs under the command's row, or has answered with its result. */
  predicate Relies(s: State, r: RequestId, cmd: CommandId) {
    Holds(s, r, cmd) || Finished(s, r, cmd) || Replaying(s, r, cmd)
  }

  predicate Purges(step: Step) {
    step.PurgeStaleStep? || step.PurgeCompletedStep?
  }

  /** The step is a purge that removes the command's row. */
  predicate RemovesRow(s: State, step: Step, cmd: CommandId) {
    Purges(step) && cmd in s.table && cmd !in Apply(s, step).table
  }

  /** A purge removes the command's row only if its effect has not happened and no request
      relies on the row, as after a crash before the effect; and no body of the command
      fails after its effect. Whatever happens to other commands is unrestricted. */
  ghost predicate Clean(s: State, step: Step, cmd: CommandId) {
    && (RemovesRow(s, step, cmd) ==> cmd !in s.effects && forall r :: !Relies(s, r, cmd))
    && (step.FailStep? && step.r in s.requests && s.requests[step.r].cmd == cmd ==>
          !s.requests[step.r].phase.Effected?)
  }

  ghost predicate CleanRun(s: State, steps: seq<Step>, cmd: CommandId) {
    forall i :: 0 <= i < |steps| ==> Clean(Run(s, steps[..i]), steps[i], cmd)
  }

  /** Any number of requests, none started yet, over an empty table. */
  predicate Initial(s: State) {
    s.table == map[] && s.effects == [] && forall r :: r in s.requests ==> s.requests[r].phase.Fresh?
  }

  // ---- the invariant of a command in its clean runs ---------------------------------

  /** What a request's phase says about its command's row and effect. */
  predicate RequestOk(t: Table, effects: seq<CommandId>, q: Request) {
    && (IsActive(q.phase) ==> q.cmd in t && t[q.cmd].hash == q.hash && t[q.cmd].result.None?)
    && (q.phase.Running? || q.phase.Failing? ==> q.cmd !in effects)
    && (q.phase.Effected? ==> q.cmd in effects)
    && (q.phase.Completed? ==> q.cmd in t && t[q.cmd].hash == q.hash && t[q.cmd].result == Some(q.phase.result))
    && (q.phase.Refused? && q.phase.verdict.Replayed? ==>
          q.cmd in t && t[q.cmd].hash == q.hash && t[q.cmd].result == Some(q.phase.verdict.stored))
  }

  ghost predicate AllOk(s: State, cmd: CommandId) {
    forall r :: r in s.requests && s.requests[r].cmd == cmd ==> RequestOk(s.table, s.effects, s.requests[r])
  }

  ghost predicate OneHolder(s: State, cmd: CommandId) {
    forall a, b :: Holds(s, a, cmd) && Holds(s, b, cmd) ==> a == b
  }

  /** The command's body has committed at most once. */
  ghost predicate OnceIn(effects: seq<CommandId>, cmd: CommandId) {
    forall i, j :: 0 <= i < j < |effects| ==> effects[i] != cmd || effects[j] != cmd
  }

  ghost predicate Inv(s: State, cmd: CommandId) {
    && AllOk(s, cmd) && OneHolder(s, cmd) && OnceIn(s.effects, cmd)
    && (cmd in s.effects ==> cmd in s.table)
  }

  /** A step that concerns other commands leaves everything about this one alone. */
  ghost predicate Untouched(s: State, t: State, cmd: CommandId) {
    && (forall r :: r in s.requests && s.requests[r].cmd == cmd ==> r in t.requests && t.requests[r] == s.requests[r])
    && (forall r :: r in t.requests && t.requests[r].cmd == cmd ==> r in s.requests && t.requests[r] == s.requests[r])
    && (cmd in s.table <==> cmd in t.table) && (cmd in s.table ==> t.table[cmd] == s.table[cmd])
    && (t.effects == s.effects || exists other :: other != cmd && t.effects == s.effects + [other])
  }

  lemma UntouchedKeeps(s: State, t: State, cmd: CommandId)
    requires Inv(s, cmd) && Untouched(s, t, cmd)
    ensures Inv(t, cmd)
  {
    forall r | r in t.requests && t.requests[r].cmd == cmd ensures RequestOk(t.table, t.effects, t.requests[r]) {
      assert RequestOk(s.table, s.effects, s.requests[r]);
    }
    forall a, b | Holds(t, a, cmd) && Holds(t, b, cmd) ensures a == b {
      assert Holds(s, a, cmd) && Holds(s, b, cmd);
    }
  }

  lemma OthersUntouched(s: State, step: Step, cmd: CommandId)
    requires !Purges(step) && step.r in s.requests
    requires s.requests[step.r].cmd != cmd
    ensures Untouched(s, Apply(s, step), cmd)
  {
    if step.EffectStep? && s.requests[step.r].phase.Running? {
      var other := s.requests[step.r].cmd;
      assert other != cmd && Apply(s, step).effects == s.effects + [other];
    }
  }

  lemma PurgeUntouched(s: State, step: Step, cmd: CommandId)
    requires Purges(step) && !RemovesRow(s, step, cmd)
    ensures Untouched(s, Apply(s, step), cmd)
  {
  }

  /** A row nobody relies on may go before the effect has happened. */
  lemma PurgeKeeps(s: State, step: Step, cmd: CommandId)
    requires Inv(s, cmd) && RemovesRow(s, step, cmd) && Clean(s, step, cmd)
    ensures Inv(Apply(s, step), cmd)
  {
    var t := Apply(s, step);
    forall r | r in t.requests && t.requests[r].cmd == cmd ensures RequestOk(t.table, t.effects, t.requests[r]) {
      assert !Relies(s, r, cmd) && RequestOk(s.table, s.effects, s.requests[r]);
    }
    assert forall r :: Holds(t, r, cmd) ==> Relies(s, r, cmd);
  }

  lemma OwnStepKeeps(s: State, step: Step, cmd: CommandId)
    requires Inv(s, cmd) && Clean(s, step, cmd) && !Purges(step)
    requires step.r in s.requests && s.requests[step.r].cmd == cmd
    ensures Inv(Apply(s, step), cmd)
  {
    var t := Apply(s, step);
    assert RequestOk(s.table, s.effects, s.requests[step.r]);
    forall r | r in t.requests && t.requests[r].cmd == cmd && r != step.r
      ensures RequestOk(t.table, t.effects, t.requests[r])
    {
      assert t.requests[r] == s.requests[r];
      OtherRequestOk(s, step, cmd, r);
    }
    OwnRequestOk(s, step, cmd);
    OwnHolder(s, step, cmd);
  }

  lemma OtherRequestOk(s: State, step: Step, cmd: CommandId, r: RequestId)
    requires Inv(s, cmd) && Clean(s, step, cmd) && !Purges(step)
    requires step.r in s.requests && s.requests[step.r].cmd == cmd
    requires r in s.requests && r != step.r && s.requests[r].cmd == cmd
    ensures RequestOk(Apply(s, step).table, Apply(s, step).effects, s.requests[r])
  {
    assert RequestOk(s.table, s.effects, s.requests[r]);
    assert RequestOk(s.table, s.effects, s.requests[step.r]);
    assert Holds(s, step.r, cmd) ==> !Holds(s, r, cmd);
  }

  lemma OwnRequestOk(s: State, step: Step, cmd: CommandId)
    requires Inv(s, cmd) && Clean(s, step, cmd) && !Purges(step)
    requires step.r in s.requests && s.requests[step.r].cmd == cmd
    ensures var t := Apply(s, step);
      && RequestOk(t.table, t.effects, t.requests[step.r])
      && OnceIn(t.effects, cmd) && (cmd in t.effects ==> cmd in t.table)
  {
    assert RequestOk(s.table, s.effects, s.requests[step.r]);
  }

  lemma OwnHolder(s: State, step: Step, cmd: CommandId)
    requires Inv(s, cmd) && !Purges(step)
    requires step.r in s.requests && s.requests[step.r].cmd == cmd
    ensures OneHolder(Apply(s, step), cmd)
  {
    var t := Apply(s, step);
    forall a, b | Holds(t, a, cmd) && Holds(t, b, cmd) ensures a == b {
      if a != step.r { assert Holds(s, a, cmd) && RequestOk(s.table, s.effects, s.requests[a]); }
      if b != step.r { assert Holds(s, b, cmd) && RequestOk(s.table, s.effects, s.requests[b]); }
      assert step.InsertStep? || t.requests[step.r] == s.requests[step.r]
        || !IsActive(t.requests[step.r].phase) || Holds(s, step.r, cmd);
    }
  }

  lemma StepKeeps(s: State, step: Step, cmd: CommandId)
    requires Inv(s, cmd) && Clean(s, step, cmd)
    ensures Inv(Apply(s, step), cmd)
  {
    if RemovesRow(s, step, cmd) {
      PurgeKeeps(s, step, cmd);
    } else if Purges(step) {
      PurgeUntouched(s, step, cmd);
      UntouchedKeeps(s, Apply(s, step), cmd);
    } else if step.r in s.requests {
      if s.requests[step.r].cmd == cmd {
        OwnStepKeeps(s, step, cmd);
      } else {
        OthersUntouched(s, step, cmd);
        UntouchedKeeps(s, Apply(s, step), cmd);
      }
    }
  }

  lemma CleanPrefix(s: State, steps: seq<Step>, cmd: CommandId)
    requires steps != [] && CleanRun(s, steps, cmd)
    ensures CleanRun(s, steps[..|steps| - 1], cmd)
  {
    var before := steps[..|steps| - 1];
    forall i | 0 <= i < |before| ensures Clean(Run(s, before[..i]), before[i], cmd) {
      assert before[..i] == steps[..i];
    }
  }

  lemma {:induction false} RunKeeps(s: State, steps: seq<Step>, cmd: CommandId)
    requires Inv(s, cmd) && CleanRun(s, steps, cmd)
    ensures Inv(Run(s, steps), cmd)
  {
    if steps != [] {
      var before := steps[..|steps| - 1];
      CleanPrefix(s, steps, cmd);
      RunKeeps(s, before, cmd);
      assert steps[..|steps| - 1] == before;
      StepKeeps(Run(s, before), steps[|steps| - 1], cmd);
    }
  }

  /** Replays of the command are exactly what its completing request stored. */
  ghost predicate ReplaysStored(t: State, cmd: CommandId) {
    forall a, b | Finished(t, a, cmd) && Replaying(t, b, cmd) ::
      t.requests[b].phase.verdict.stored == t.requests[a].phase.result
  }

  /** In every run that is clean for the command, whatever other commands and the purges
      do: its effect commits at most once, at most one of its requests is between claim
      and completion, only with the hash the row carries, and every replay is exactly the
      result the completing request stored. */
  lemma EffectAtMostOnce(s: State, steps: seq<Step>, cmd: CommandId)
    requires Initial(s) && CleanRun(s, steps, cmd)
    ensures var t := Run(s, steps);
      && OnceIn(t.effects, cmd) && OneHolder(t, cmd) && ReplaysStored(t, cmd)
      && (forall a :: Holds(t, a, cmd) ==> cmd in t.table && t.table[cmd].hash == t.requests[a].hash)
  {
    RunKeeps(s, steps, cmd);
    var t := Run(s, steps);
    forall a | a in t.requests && t.requests[a].cmd == cmd ensures RequestOk(t.table, t.effects, t.requests[a]) {}
  }

  // ---- later requests replay -------------------------------------------------------

  /** Every way a request that has not claimed yet can stand once the command is done. */
  predicate OnlyReplays(q: Request, hash: string, result: StoredResult) {
    || q.phase.Fresh? || q.phase.Looking? || q.phase.Crashed?
    || q.phase == Refused(if q.hash == hash then Replayed(result) else Conflict)
  }

  predicate IsDone(t: Table, cmd: CommandId, hash: string, result: StoredResult) {
    cmd in t && t[cmd].hash == hash && t[cmd].result == Some(result)
  }

  /** The request stands for the same command and can only replay it. */
  predicate Settled(s: State, r: RequestId, cmd: CommandId, own: string, hash: string, result: StoredResult) {
    && r in s.requests && s.requests[r].cmd == cmd && s.requests[r].hash == own
    && IsDone(s.table, cmd, hash, result) && OnlyReplays(s.requests[r], hash, result)
  }

  /** No purge removes the command's row. */
  ghost predicate RowStays(s: State, steps: seq<Step>, cmd: CommandId) {
    forall i :: 0 <= i < |steps| ==> !RemovesRow(Run(s, steps[..i]), steps[i], cmd)
  }

  lemma DoneStays(s: State, step: Step, cmd: CommandId, hash: string, result: StoredResult)
    requires Inv(s, cmd) && !RemovesRow(s, step, cmd) && IsDone(s.table, cmd, hash, result)
    ensures IsDone(Apply(s, step).table, cmd, hash, result)
  {
    if !Purges(step) && step.r in s.requests && s.requests[step.r].cmd == cmd {
      assert RequestOk(s.table, s.effects, s.requests[step.r]);
    }
  }

  lemma ReplayStep(s: State, step: Step, r: RequestId, cmd: CommandId, own: string, hash: string, result: StoredResult)
    requires Inv(s, cmd) && !RemovesRow(s, step, cmd) && Settled(s, r, cmd, own, hash, result)
    ensures Settled(Apply(s, step), r, cmd, own, hash, result)
  {
    DoneStays(s, step, cmd, hash, result);
  }

  /** Once a command is completed, a request that had not claimed it can only replay
      the stored result (same hash) or be refused as a conflict (other hash): it never
      runs, in any clean run in which the row stays, and the stored result never changes. */
  lemma {:induction false} LaterRequestsReplay(s: State, steps: seq<Step>, r: RequestId, cmd: CommandId,
                                               hash: string, result: StoredResult)
    requires Inv(s, cmd) && CleanRun(s, steps, cmd) && RowStays(s, steps, cmd)
    requires r in s.requests && s.requests[r].cmd == cmd && s.requests[r].phase.Fresh?
    requires IsDone(s.table, cmd, hash, result)
    ensures Settled(Run(s, steps), r, cmd, s.requests[r].hash, hash, result)
  {
    if steps != [] {
      var before := steps[..|steps| - 1];
      CleanPrefix(s, steps, cmd);
      assert forall i :: 0 <= i < |before| ==> before[..i] == steps[..i] && before[i] == steps[i];
      LaterRequestsReplay(s, before, r, cmd, hash, result);
      RunKeeps(s, before, cmd);
      assert steps[..|steps| - 1] == before;
      ReplayStep(Run(s, before), steps[|steps| - 1], r, cmd, s.requests[r].hash, hash, result);
    }
  }

  // ---- the condition is exact: what an unclean step leads to ------------------------------

  lemma RunOf(s: State, steps: seq<Step>, step: Step)
    ensures Run(s, steps + [step]) == Apply(Run(s, steps), step)
  {
    assert (steps + [step])[..|steps + [step]| - 1] == steps;
  }

  lemma RunOne(s: State, a: Step)
    ensures Run(s, [a]) == Apply(s, a)
  {
    assert [] + [a] == [a];
    RunOf(s, [], a);
  }

  lemma RunTwo(s: State, a: Step, b: Step)
    ensures Run(s, [a, b]) == Apply(Apply(s, a), b)
  {
    assert [a] + [b] == [a, b];
    RunOne(s, a);
    RunOf(s, [a], b);
  }

  predicate IsFresh(s: State, r: RequestId, cmd: CommandId) {
    r in s.requests && s.requests[r].cmd == cmd && s.requests[r].phase.Fresh?
  }

  /** A command whose effect has happened and whose row is gone: the next request repeats it. */
  lemma SecondEffect(s: State, cmd: CommandId, r: RequestId, now: Time)
    requires cmd in s.effects && cmd !in s.table && IsFresh(s, r, cmd)
    ensures var t := Run(s, [InsertStep(r, now), EffectStep(r)]);
      t.effects == s.effects + [cmd] && !OnceIn(t.effects, cmd)
  {
    RunTwo(s, InsertStep(r, now), EffectStep(r));
    var i :| 0 <= i < |s.effects| && s.effects[i] == cmd;
    var more := s.effects + [cmd];
    assert more[i] == cmd && more[|s.effects|] == cmd;
  }

  /** A row that is gone under a running request: the next request runs beside it. */
  lemma SecondHolder(s: State, cmd: CommandId, held: RequestId, r: RequestId, now: Time)
    requires Holds(s, held, cmd) && cmd !in s.table && IsFresh(s, r, cmd)
    ensures !OneHolder(Run(s, [InsertStep(r, now)]), cmd)
  {
    RunOne(s, InsertStep(r, now));
    HoldsBeside(s, cmd, held, r, now);
  }

  lemma HoldsBeside(s: State, cmd: CommandId, held: RequestId, r: RequestId, now: Time)
    requires Holds(s, held, cmd) && cmd !in s.table && IsFresh(s, r, cmd)
    ensures held != r && !OneHolder(Apply(s, InsertStep(r, now)), cmd)
  {
    var t := Apply(s, InsertStep(r, now));
    assert Holds(t, held, cmd) && Holds(t, r, cmd);
  }

  /** A completed row that is gone although a request has replayed it: the next request may
      store another result. */
  lemma OtherResult(s: State, cmd: CommandId, replayed: RequestId, r: RequestId, other: StoredResult, now: Time)
    requires Replaying(s, replayed, cmd) && cmd !in s.table && IsFresh(s, r, cmd)
    requires other != s.requests[replayed].phase.verdict.stored
    ensures !ReplaysStored(Run(s, [InsertStep(r, now), CompleteStep(r, other, now)]), cmd)
  {
    RunTwo(s, InsertStep(r, now), CompleteStep(r, other, now));
    var t := Run(s, [InsertStep(r, now), CompleteStep(r, other, now)]);
    assert Finished(t, r, cmd) && Replaying(t, replayed, cmd);
  }

  /** The same if a request has completed it: another completes anew, and a third replays that. */
  lemma OtherReplay(s: State, cmd: CommandId, done: RequestId, r: RequestId, last: RequestId,
                    other: StoredResult, now: Time)
    requires Finished(s, done, cmd) && cmd !in s.table && IsFresh(s, r, cmd) && IsFresh(s, last, cmd) && r != last
    requires other != s.requests[done].phase.result && s.requests[last].hash == s.requests[r].hash
    ensures !ReplaysStored(Run(Run(s, [InsertStep(r, now), CompleteStep(r, other, now)]),
                               [InsertStep(last, now), ReadStep(last)]), cmd)
  {
    RunTwo(s, InsertStep(r, now), CompleteStep(r, other, now));
    var m := Run(s, [InsertStep(r, now), CompleteStep(r, other, now)]);
    assert IsDone(m.table, cmd, s.requests[r].hash, other) && IsFresh(m, last, cmd) && Finished(m, done, cmd);
    RunTwo(m, InsertStep(last, now), ReadStep(last));
    var t := Run(m, [InsertStep(last, now), ReadStep(last)]);
    assert Finished(t, done, cmd) && Replaying(t, last, cmd);
  }

  /** The guarantees of a command. */
  ghost predicate Guaranteed(s: State, cmd: CommandId) {
    OnceIn(s.effects, cmd) && OneHolder(s, cmd) && ReplaysStored(s, cmd)
  }

  function Differing(r: StoredResult): StoredResult {
    StoredResult(r.status + 1, r.body)
  }

  lemma {:induction false} RunConcat(s: State, a: seq<Step>, b: seq<Step>)
    ensures Run(s, a + b) == Run(Run(s, a), b)
  {
    if b == [] {
      assert a + b == a;
    } else {
      RunConcat(s, a, b[..|b| - 1]);
      assert (a + b)[..|a + b| - 1] == a + b[..|b| - 1];
    }
  }

  lemma GoneBreaks(s: State, cmd: CommandId, r: RequestId, last: RequestId) returns (steps: seq<Step>)
    requires cmd !in s.table && (cmd in s.effects || exists q :: Relies(s, q, cmd))
    requires IsFresh(s, r, cmd) && IsFresh(s, last, cmd) && r != last && s.requests[last].hash == s.requests[r].hash
    ensures !Guaranteed(Run(s, steps), cmd)
  {
    if cmd in s.effects {
      steps := [InsertStep(r, 0), EffectStep(r)];
      SecondEffect(s, cmd, r, 0);
    } else {
      var q :| Relies(s, q, cmd);
      if Holds(s, q, cmd) {
        steps := [InsertStep(r, 0)];
        SecondHolder(s, cmd, q, r, 0);
      } else if Replaying(s, q, cmd) {
        var other := Differing(s.requests[q].phase.verdict.stored);
        steps := [InsertStep(r, 0), CompleteStep(r, other, 0)];
        OtherResult(s, cmd, q, r, other, 0);
      } else {
        var other := Differing(s.requests[q].phase.result);
        var a, b := [InsertStep(r, 0), CompleteStep(r, other, 0)], [InsertStep(last, 0), ReadStep(last)];
        OtherReplay(s, cmd, q, r, last, other, 0);
        RunConcat(s, a, b);
        steps := a + b;
      }
    }
  }

  /** The condition of `EffectAtMostOnce` is exact: after any step that is not clean, in any
      state the invariant admits, two more requests of the command suffice for a run that
      ends in a second effect, a second holder or a replay of another result. */
  lemma UncleanBreaks(s: State, step: Step, cmd: CommandId, r: RequestId, last: RequestId) returns (steps: seq<Step>)
    requires Inv(s, cmd) && !Clean(s, step, cmd)
    requires IsFresh(s, r, cmd) && IsFresh(s, last, cmd) && r != last && s.requests[last].hash == s.requests[r].hash
    ensures !Guaranteed(Run(Apply(s, step), steps), cmd)
  {
    var t := Apply(s, step);
    if RemovesRow(s, step, cmd) && (cmd in s.effects || exists q :: Relies(s, q, cmd)) {
      if cmd !in s.effects {
        var q :| Relies(s, q, cmd);
        assert Relies(t, q, cmd);
      }
      steps := GoneBreaks(t, cmd, r, last);
    } else {
      var u := Apply(t, AbandonStep(step.r));
      assert RequestOk(s.table, s.effects, s.requests[step.r]);
      assert cmd in u.effects && cmd !in u.table && IsFresh(u, r, cmd) && IsFresh(u, last, cmd);
      var rest := GoneBreaks(u, cmd, r, last);
      steps := [AbandonStep(step.r)] + rest;
      RunOne(t, AbandonStep(step.r));
      RunConcat(t, [AbandonStep(step.r)], rest);
    }
  }

  // ---- the documented windows ------------------------------------------------------

  const TwoRequests: State := State(map[], map[0 := Request("c", "h", Fresh), 1 := Request("c", "h", Fresh)], [])

  /** The first request has had its effect. */
  lemma Effecting()
    ensures var t := Run(TwoRequests, [InsertStep(0, 1), EffectStep(0)]);
      && t.table == map["c" := Row("h", None, 1, 1)] && t.effects == ["c"]
      && IsFresh(t, 1, "c") && 0 in t.requests && t.requests[0] == Request("c", "h", Effected)
  {
    RunTwo(TwoRequests, InsertStep(0, 1), EffectStep(0));
    assert [] + ["c"] == ["c"];
  }

  /** Two steps later the row is gone. */
  lemma Gone(a: Step, b: Step)
    requires (a == CrashStep(0) && b == PurgeStaleStep(5)) || (a == FailStep(0) && b == AbandonStep(0))
    ensures var t := Run(Run(TwoRequests, [InsertStep(0, 1), EffectStep(0)]), [a, b]);
      "c" !in t.table && t.effects == ["c"] && IsFresh(t, 1, "c")
  {
    Effecting();
    RunTwo(Run(TwoRequests, [InsertStep(0, 1), EffectStep(0)]), a, b);
  }

  lemma ThenAgain(a: Step, b: Step) returns (steps: seq<Step>)
    requires (a == CrashStep(0) && b == PurgeStaleStep(5)) || (a == FailStep(0) && b == AbandonStep(0))
    ensures steps == [InsertStep(0, 1), EffectStep(0)] + [a, b] + [InsertStep(1, 9), EffectStep(1)]
    ensures Run(TwoRequests, steps).effects == ["c"] + ["c"]
  {
    var first, again := [InsertStep(0, 1), EffectStep(0)], [InsertStep(1, 9), EffectStep(1)];
    Gone(a, b);
    SecondEffect(Run(Run(TwoRequests, first), [a, b]), "c", 1, 9);
    RunConcat(TwoRequests, first, [a, b]);
    RunConcat(TwoRequests, first + [a, b], again);
    steps := first + [a, b] + again;
  }

  /** A crash after the commit followed by `purge_stale` lets the effect happen twice. */
  lemma PurgeWindow() returns (steps: seq<Step>)
    ensures Initial(TwoRequests) && Run(TwoRequests, steps).effects == ["c"] + ["c"]
    ensures forall i :: 0 <= i < |steps| ==> !steps[i].FailStep? && !steps[i].PurgeCompletedStep?
  {
    steps := ThenAgain(CrashStep(0), PurgeStaleStep(5));
  }

  /** So does a body that raises after its transaction committed. */
  lemma RaiseWindow() returns (steps: seq<Step>)
    ensures Initial(TwoRequests) && Run(TwoRequests, steps).effects == ["c"] + ["c"]
    ensures forall i :: 0 <= i < |steps| ==> !Purges(steps[i])
  {
    steps := ThenAgain(FailStep(0), AbandonStep(0));
  }

  // ---- the store object ------------------------------------------------------------

  /** How the guarded body ends. */
  datatype Body = Raises | NoResult | Returns(result: StoredResult)

  /** What the `idempotent` guard does for its caller. */
  datatype Guarded =
    | Replay(stored: StoredResult) | Done(result: StoredResult) | BodyFailed | Rejected(verdict: Verdict)

  function StoredOf(row: Row): StoredResult {
    if row.result.Some? then row.result.value else StoredResult(0, "")
  }

  class IdempotencyStore {
    var rows: Table

    constructor ()
      ensures rows == map[]
    {
      rows := map[];
    }

    /** `None` means run: the key is now reserved. */
    method Claim(cmd: CommandId, hash: string, now: Time) returns (v: Option<Verdict>)
      modifies this
      ensures rows == Insert(old(rows), cmd, hash, now)
      ensures v == if cmd in old(rows) then Some(Read(old(rows), cmd, hash)) else None
    {
      if cmd !in rows {
        rows := rows[cmd := Row(hash, None, now, now)];
        return None;
      }
      if rows[cmd].hash != hash { return Some(Conflict); }
      if rows[cmd].result.None? { return Some(InProgress); }
      return Some(Replayed(rows[cmd].result.value));
    }

    /** Not found (the row was purged) is an error of the caller's query. */
    method CompleteRow(cmd: CommandId, result: StoredResult, now: Time) returns (found: bool)
      modifies this
      ensures found == (cmd in old(rows))
      ensures rows == if found then Complete(old(rows), cmd, result, now) else old(rows)
    {
      if cmd !in rows { return false; }
      rows := rows[cmd := rows[cmd].(result := Some(result), completed := now)];
      return true;
    }

    method AbandonRow(cmd: CommandId)
      modifies this
      ensures rows == Abandon(old(rows), cmd)
    {
      if cmd in rows && rows[cmd].result.None? { rows := rows - {cmd}; }
    }

    /** The guard around one body, alone on the table: a new command runs and either
        completes or leaves the table as it was; a known one never runs. */
    method Guard(cmd: CommandId, hash: string, body: Body, now: Time, later: Time) returns (g: Guarded)
      modifies this
      ensures cmd in old(rows) ==> rows == old(rows)
      ensures cmd in old(rows) ==>
        g == (if IsDone(old(rows), cmd, hash, StoredOf(old(rows)[cmd])) then Replay(StoredOf(old(rows)[cmd]))
              else if old(rows)[cmd].hash != hash then Rejected(Conflict) else Rejected(InProgress))
      ensures cmd !in old(rows) && !body.Returns? ==> g.BodyFailed? && rows == old(rows)
      ensures cmd !in old(rows) && body.Returns? ==> g == Done(body.result)
      ensures cmd !in old(rows) && body.Returns? ==>
        IsDone(rows, cmd, hash, body.result) && rows - {cmd} == old(rows)
    {
      var v := Claim(cmd, hash, now);
      if v.Some? {
        return if v.value.Replayed? then Replay(v.value.stored) else Rejected(v.value);
      }
      if !body.Returns? {
        AbandonRow(cmd);
        assert rows == old(rows);
        return BodyFailed;
      }
      var _ := CompleteRow(cmd, body.result, later);
      assert rows - {cmd} == old(rows);
      return Done(body.result);
    }
  }
}
