/** The two purges of the command table and time (server/bbz_core/infra/idempotency.py:171-189):
    when they are harmless, and what they are for. */
module Housekeeping {
  import opened Wrappers
  import opened Idempotency

  /** A step and when it happens. */
  datatype Timed = Timed(at: Time, step: Step)

  function StepsOf(ks: seq<Timed>): (steps: seq<Step>)
    ensures |steps| == |ks|
  {
    if ks == [] then [] else StepsOf(ks[..|ks| - 1]) + [ks[|ks| - 1].step]
  }

  /** The request claims its command with this step. */
  predicate Claiming(s: State, step: Step) {
    && step.InsertStep? && step.r in s.requests && s.requests[step.r].phase.Fresh?
    && s.requests[step.r].cmd !in s.table
  }

  /** When each request has claimed its command. */
  function Claims(s: State, ks: seq<Timed>): map<RequestId, Time> {
    if ks == [] then map[]
    else
      var before, k := ks[..|ks| - 1], ks[|ks| - 1];
      var claims := Claims(s, before);
      if Claiming(Run(s, StepsOf(before)), k.step) then claims[k.step.r := k.at] else claims
  }

  /** Rows are stamped with the time of their claim; the stale purge lags by `lag`, and when
      it runs no request has held its command for longer than that. */
  ghost predicate Tended(s: State, claims: map<RequestId, Time>, k: Timed, lag: Time) {
    && (k.step.InsertStep? ==> k.step.now == k.at)
    && (k.step.PurgeStaleStep? ==>
          && k.step.cutoff <= k.at - lag
          && forall r :: r in s.requests && IsActive(s.requests[r].phase) && r in claims ==> k.at - claims[r] <= lag)
  }

  ghost predicate TendedRun(s: State, ks: seq<Timed>, lag: Time) {
    ks == [] ||
    var before := ks[..|ks| - 1];
    TendedRun(s, before, lag) && Tended(Run(s, StepsOf(before)), Claims(s, before), ks[|ks| - 1], lag)
  }

  /** The request runs under its own pending row, claimed when it says. */
  predicate HoldsRow(t: Table, q: Request, r: RequestId, claims: map<RequestId, Time>) {
    && q.cmd in t && t[q.cmd].result.None? && t[q.cmd].hash == q.hash
    && r in claims && t[q.cmd].created == claims[r]
  }

  predicate Rivals(s: State, a: RequestId, b: RequestId) {
    && a in s.requests && b in s.requests && s.requests[a].cmd == s.requests[b].cmd
    && IsActive(s.requests[a].phase) && IsActive(s.requests[b].phase)
  }

  ghost predicate Spared(s: State, claims: map<RequestId, Time>) {
    && (forall r :: r in s.requests && IsActive(s.requests[r].phase) ==> HoldsRow(s.table, s.requests[r], r, claims))
    && (forall a, b :: Rivals(s, a, b) ==> a == b)
  }

  lemma PurgeSpares(s: State, claims: map<RequestId, Time>, k: Timed, lag: Time)
    requires Spared(s, claims) && Purges(k.step) && Tended(s, claims, k, lag)
    ensures Spared(Apply(s, k.step), claims)
  {
    var t := Apply(s, k.step);
    forall r | r in t.requests && IsActive(t.requests[r].phase) ensures HoldsRow(t.table, t.requests[r], r, claims) {
      assert HoldsRow(s.table, s.requests[r], r, claims);
    }
    assert forall a, b :: Rivals(t, a, b) ==> Rivals(s, a, b);
  }

  lemma StepSpares(s: State, claims: map<RequestId, Time>, step: Step, at: Time)
    requires Spared(s, claims) && !Purges(step) && step.r in s.requests && (step.InsertStep? ==> step.now == at)
    ensures Spared(Apply(s, step), if Claiming(s, step) then claims[step.r := at] else claims)
  {
    var t := Apply(s, step);
    var claims' := if Claiming(s, step) then claims[step.r := at] else claims;
    assert forall r :: r in s.requests && r != step.r ==> r in t.requests && t.requests[r] == s.requests[r];
    forall r | r in t.requests && IsActive(t.requests[r].phase) ensures HoldsRow(t.table, t.requests[r], r, claims') {
      if r == step.r { OwnHoldsRow(s, claims, step, at); } else { OtherHoldsRow(s, claims, step, at, r); }
    }
    forall a, b | Rivals(t, a, b) ensures a == b { StillOne(s, claims, step, a, b); }
  }

  lemma OwnHoldsRow(s: State, claims: map<RequestId, Time>, step: Step, at: Time)
    requires Spared(s, claims) && !Purges(step) && step.r in s.requests && (step.InsertStep? ==> step.now == at)
    ensures var t := Apply(s, step);
      IsActive(t.requests[step.r].phase) ==>
        HoldsRow(t.table, t.requests[step.r], step.r, if Claiming(s, step) then claims[step.r := at] else claims)
  {
    assert IsActive(s.requests[step.r].phase) ==> HoldsRow(s.table, s.requests[step.r], step.r, claims);
  }

  lemma OtherHoldsRow(s: State, claims: map<RequestId, Time>, step: Step, at: Time, r: RequestId)
    requires Spared(s, claims) && !Purges(step) && step.r in s.requests
    requires r in s.requests && r != step.r && IsActive(s.requests[r].phase)
    ensures HoldsRow(Apply(s, step).table, s.requests[r], r, if Claiming(s, step) then claims[step.r := at] else claims)
  {
    assert HoldsRow(s.table, s.requests[r], r, claims);
    assert !Rivals(s, r, step.r);
  }

  lemma StillOne(s: State, claims: map<RequestId, Time>, step: Step, a: RequestId, b: RequestId)
    requires Spared(s, claims) && !Purges(step) && step.r in s.requests && Rivals(Apply(s, step), a, b)
    ensures a == b
  {
    assert a != b ==> Rivals(s, a, b);
  }

  lemma StepsNext(ks: seq<Timed>)
    requires ks != []
    ensures var n := |ks| - 1; StepsOf(ks)[..n] == StepsOf(ks[..n]) && StepsOf(ks)[n] == ks[n].step
  {
  }

  lemma {:induction false} RunSpares(s: State, ks: seq<Timed>, lag: Time)
    requires Initial(s) && TendedRun(s, ks, lag)
    ensures Spared(Run(s, StepsOf(ks)), Claims(s, ks))
  {
    if ks != [] {
      var before, k := ks[..|ks| - 1], ks[|ks| - 1];
      var m := Run(s, StepsOf(before));
      RunSpares(s, before, lag);
      StepsNext(ks);
      if Purges(k.step) {
        PurgeSpares(m, Claims(s, before), k, lag);
      } else if k.step.r in m.requests {
        StepSpares(m, Claims(s, before), k.step, k.at);
      }
    }
  }

  /** In every run, with any crashes, failing bodies and purges of completed rows, in which
      the stale purge lags behind by at least the time a request takes: a running request
      never loses its row, and no command has two. */
  lemma PurgesSpareRunning(s: State, ks: seq<Timed>, lag: Time, cmd: CommandId)
    requires Initial(s) && TendedRun(s, ks, lag)
    ensures var t := Run(s, StepsOf(ks));
      && OneHolder(t, cmd)
      && forall r :: Holds(t, r, cmd) ==>
           cmd in t.table && t.table[cmd].result.None? && t.table[cmd].hash == t.requests[r].hash
  {
    RunSpares(s, ks, lag);
    var t := Run(s, StepsOf(ks));
    forall r | Holds(t, r, cmd) ensures HoldsRow(t.table, t.requests[r], r, Claims(s, ks)) {}
    assert forall a, b :: Holds(t, a, cmd) && Holds(t, b, cmd) ==> Rivals(t, a, b);
  }

  // ---- what the purges are for ------------------------------------------------------------

  predicate Runs(s: State, r: RequestId) {
    r in s.requests && s.requests[r].phase.Running?
  }

  /** A pending row created before the cutoff goes, so that its command can be retried; no
      other row does. */
  lemma StaleCommandRetries(s: State, cmd: CommandId, cutoff: Time, r: RequestId, now: Time)
    requires cmd in s.table && IsFresh(s, r, cmd)
    ensures var t := Run(s, [PurgeStaleStep(cutoff), InsertStep(r, now)]);
      && (Runs(t, r) <==> s.table[cmd].result.None? && s.table[cmd].created < cutoff)
      && (forall c :: c in s.table && c != cmd && (s.table[c].result.Some? || s.table[c].created >= cutoff) ==>
            c in t.table && t.table[c] == s.table[c])
  {
    RunTwo(s, PurgeStaleStep(cutoff), InsertStep(r, now));
  }

  /** No purge of the run reaches back to the command's completion. */
  predicate Retained(steps: seq<Step>, completed: Time) {
    forall i :: 0 <= i < |steps| && steps[i].PurgeCompletedStep? ==> steps[i].cutoff <= completed
  }

  predicate DoneSince(t: Table, cmd: CommandId, hash: string, result: StoredResult, completed: Time) {
    IsDone(t, cmd, hash, result) && t[cmd].completed == completed
  }

  lemma DoneRetained(s: State, step: Step, cmd: CommandId, hash: string, result: StoredResult, completed: Time)
    requires Inv(s, cmd) && DoneSince(s.table, cmd, hash, result, completed)
    requires step.PurgeCompletedStep? ==> step.cutoff <= completed
    ensures Clean(s, step, cmd) && !RemovesRow(s, step, cmd)
    ensures DoneSince(Apply(s, step).table, cmd, hash, result, completed)
  {
    if !Purges(step) && step.r in s.requests && s.requests[step.r].cmd == cmd {
      assert RequestOk(s.table, s.effects, s.requests[step.r]);
    }
  }

  lemma {:induction false} RunRetained(s: State, steps: seq<Step>, cmd: CommandId, hash: string, result: StoredResult,
                                       completed: Time)
    requires Inv(s, cmd) && DoneSince(s.table, cmd, hash, result, completed) && Retained(steps, completed)
    ensures CleanRun(s, steps, cmd) && RowStays(s, steps, cmd) && Inv(Run(s, steps), cmd)
    ensures DoneSince(Run(s, steps).table, cmd, hash, result, completed)
  {
    if steps != [] {
      var before := steps[..|steps| - 1];
      RunRetained(s, before, cmd, hash, result, completed);
      DoneRetained(Run(s, before), steps[|steps| - 1], cmd, hash, result, completed);
      StepKeeps(Run(s, before), steps[|steps| - 1], cmd);
      forall i | 0 <= i < |steps|
        ensures Clean(Run(s, steps[..i]), steps[i], cmd) && !RemovesRow(Run(s, steps[..i]), steps[i], cmd)
      {
        if i < |before| {
          assert before[..i] == steps[..i] && before[i] == steps[i];
          assert Clean(Run(s, before[..i]), before[i], cmd) && !RemovesRow(Run(s, before[..i]), before[i], cmd);
        } else {
          assert steps[..i] == before;
        }
      }
    }
  }

  /** As long as the retention reaches back to its completion, a completed command replays its
      result to every new request of the same hash and refuses another hash, in every run:
      with any crashes, failures and stale purges. */
  lemma RetainedReplays(s: State, steps: seq<Step>, r: RequestId, cmd: CommandId, hash: string, result: StoredResult)
    requires Inv(s, cmd) && IsDone(s.table, cmd, hash, result) && Retained(steps, s.table[cmd].completed)
    requires IsFresh(s, r, cmd)
    ensures Settled(Run(s, steps), r, cmd, s.requests[r].hash, hash, result)
  {
    RunRetained(s, steps, cmd, hash, result, s.table[cmd].completed);
    LaterRequestsReplay(s, steps, r, cmd, hash, result);
  }

  /** Beyond it the row goes, and the next request runs the command again. */
  lemma ForgottenRunsAgain(s: State, cmd: CommandId, cutoff: Time, r: RequestId, now: Time)
    requires cmd in s.table && s.table[cmd].result.Some? && IsFresh(s, r, cmd)
    ensures Runs(Run(s, [PurgeCompletedStep(cutoff), InsertStep(r, now)]), r) <==> s.table[cmd].completed < cutoff
  {
    RunTwo(s, PurgeCompletedStep(cutoff), InsertStep(r, now));
  }

  /** A request that completes its command now is answered for as long as the retention
      reaches back to now. */
  lemma CompletedReplays(s: State, a: RequestId, result: StoredResult, now: Time, steps: seq<Step>, r: RequestId,
                         cmd: CommandId)
    requires Inv(s, cmd) && Holds(s, a, cmd) && !s.requests[a].phase.Failing? && IsFresh(s, r, cmd)
    requires Retained(steps, now)
    ensures var t := Apply(s, CompleteStep(a, result, now));
      && Finished(t, a, cmd) && t.requests[a].phase.result == result
      && Settled(Run(t, steps), r, cmd, s.requests[r].hash, s.requests[a].hash, result)
  {
    var t := Apply(s, CompleteStep(a, result, now));
    assert RequestOk(s.table, s.effects, s.requests[a]);
    StepKeeps(s, CompleteStep(a, result, now), cmd);
    RetainedReplays(t, steps, r, cmd, s.requests[a].hash, result);
  }

  // ---- each verdict and each ending ---------------------------------------------------------

  /** What a request that found a row is told, case by case; it does nothing else. */
  lemma VerdictExactly(s: State, r: RequestId)
    requires r in s.requests && s.requests[r].phase.Looking?
    ensures var t, q := Apply(s, ReadStep(r)), s.requests[r];
      && t.table == s.table && t.effects == s.effects && r in t.requests && t.requests[r].phase.Refused?
      && var v := t.requests[r].phase.verdict;
         && (v.RowGone? <==> q.cmd !in s.table)
         && (v.Conflict? <==> q.cmd in s.table && s.table[q.cmd].hash != q.hash)
         && (v.InProgress? <==> q.cmd in s.table && s.table[q.cmd].hash == q.hash && s.table[q.cmd].result.None?)
         && (forall x :: v == Replayed(x) <==> IsDone(s.table, q.cmd, q.hash, x))
  {
  }

  /** A completion finds its row or is an error: a request counts as completed exactly if its
      result is stored. */
  lemma CompletionExactly(s: State, r: RequestId, result: StoredResult, now: Time)
    requires r in s.requests && (s.requests[r].phase.Running? || s.requests[r].phase.Effected?)
    ensures var t, cmd := Apply(s, CompleteStep(r, result, now)), s.requests[r].cmd;
      && (Finished(t, r, cmd) <==> cmd in s.table)
      && (cmd in s.table ==> cmd in t.table && t.table[cmd].result == Some(result) && t.table[cmd].completed == now)
      && (cmd !in s.table ==> t.table == s.table && t.requests[r].phase.Aborted?)
  {
  }

  /** A body that fails before its effect gives its command back: the next request runs it. */
  lemma FailedBodyRetries(s: State, r: RequestId, q: RequestId, cmd: CommandId, now: Time)
    requires Inv(s, cmd) && Holds(s, r, cmd) && s.requests[r].phase.Running? && IsFresh(s, q, cmd)
    ensures Runs(Apply(Apply(Apply(s, FailStep(r)), AbandonStep(r)), InsertStep(q, now)), q)
  {
    assert RequestOk(s.table, s.effects, s.requests[r]);
  }

  /** A late failure does not take away what another request has completed meanwhile. */
  lemma LateAbandonSpares(s: State, r: RequestId, cmd: CommandId, hash: string, result: StoredResult)
    requires r in s.requests && s.requests[r].phase.Failing? && IsDone(s.table, cmd, hash, result)
    ensures IsDone(Apply(s, AbandonStep(r)).table, cmd, hash, result)
  {
  }

  /** A crashed request never does anything again. */
  lemma {:induction false} CrashEnds(s: State, r: RequestId, steps: seq<Step>)
    requires r in s.requests
    ensures var t := Run(Apply(s, CrashStep(r)), steps); r in t.requests && t.requests[r].phase.Crashed?
    ensures Apply(s, CrashStep(r)).table == s.table && Apply(s, CrashStep(r)).effects == s.effects
  {
    if steps != [] { CrashEnds(s, r, steps[..|steps| - 1]); }
  }
}
