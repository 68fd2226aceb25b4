/** Mutual exclusion and bounded takeover of the leader election. */
module LeaderSafety {
  import opened Wrappers
  import opened LeaderModel

  predicate IsLeaderPhase(p: Phase) {
    p.Leading? || p.Working? || p.Worked? || p.Renewed? || p.Sleeping?
  }

  /** The lease a node is currently concerned with: recorded, or part of a call. */
  function Held(ns: NodeState): Option<Lease> {
    if ns.lease.Some? then ns.lease
    else match ns.phase
      case Granted(l) => Some(l)
      case Won(l) => Some(l)
      case Lost(l) => Some(l)
      case Resigning(l, _) => Some(l)
      case _ => None
  }

  /** The lease the node is leader under, or is about to be. */
  function Claimed(ns: NodeState): Option<Lease> {
    if ns.lease.Some? then ns.lease
    else if ns.phase.Won? then Some(ns.phase.lease) else None
  }

  /** The lease the node counts on staying alive. */
  function CountsOn(ns: NodeState): Option<Lease> {
    if ns.phase.Granted? && ns.lease.None? then Some(ns.phase.lease) else Claimed(ns)
  }

  predicate LeaseTime(ttl: real, now: real, s: Store, confirmed: real, l: Lease) {
    if l in s.leases then s.leases[l] == confirmed + ttl else confirmed + ttl <= now
  }

  /** What one node believes is in line with the store. */
  predicate NodeOk(ttl: real, now: real, s: Store, n: Node, ns: NodeState) {
    && (ns.lease.Some? <==> IsLeaderPhase(ns.phase))
    && ns.confirmed <= now
    && (Held(ns).Some? ==> Held(ns).value < s.next)
    && (Claimed(ns).Some? && Claimed(ns).value in s.leases ==> s.lock == Some(Lock(n, Claimed(ns).value)))
    && (CountsOn(ns).Some? ==> LeaseTime(ttl, now, s, ns.confirmed, CountsOn(ns).value))
    && (ns.phase.Granted? || ns.phase.Lost? ==>
          s.lock.None? || s.lock.value.lease != ns.phase.lease)
    && (ns.phase.Backoff? ==> ns.phase.until <= now + ttl)
  }

  ghost predicate StoreOk(ttl: real, now: real, s: Store) {
    && (s.lock.Some? ==> s.lock.value.lease in s.leases)
    && (forall l :: l in s.leases ==> l < s.next && s.leases[l] <= now + ttl)
  }

  /** No two nodes are concerned with the same lease. */
  ghost predicate Separate(nodes: map<Node, NodeState>) {
    forall m, n :: m in nodes && n in nodes && m != n && Held(nodes[m]).Some? ==>
      Held(nodes[m]) != Held(nodes[n])
  }

  ghost predicate NodesOk(ttl: real, w: World) {
    forall n :: n in w.nodes ==> NodeOk(ttl, w.now, w.store, n, w.nodes[n])
  }

  ghost predicate Inv(ttl: real, w: World) {
    StoreOk(ttl, w.now, w.store) && NodesOk(ttl, w) && Separate(w.nodes)
  }

  // ---- store changes another node does not notice ---------------------------------

  lemma OthersKeepAfterDrop(ttl: real, now: real, s: Store, l: Lease, m: Node, ms: NodeState)
    requires StoreOk(ttl, now, s) && NodeOk(ttl, now, s, m, ms) && Held(ms) != Some(l)
    ensures NodeOk(ttl, now, DropLease(s, l), m, ms)
  {
  }

  lemma OthersKeepAfterGrant(ttl: real, now: real, s: Store, m: Node, ms: NodeState)
    requires NodeOk(ttl, now, s, m, ms)
    ensures NodeOk(ttl, now, s.(leases := s.leases[s.next := now + ttl], next := s.next + 1), m, ms)
  {
  }

  lemma OthersKeepAfterLock(ttl: real, now: real, s: Store, n: Node, l: Lease, m: Node, ms: NodeState)
    requires NodeOk(ttl, now, s, m, ms) && Held(ms) != Some(l) && s.lock.None?
    ensures NodeOk(ttl, now, s.(lock := Some(Lock(n, l))), m, ms)
  {
  }

  lemma OthersKeepAfterRenewal(ttl: real, now: real, s: Store, l: Lease, m: Node, ms: NodeState)
    requires NodeOk(ttl, now, s, m, ms) && Held(ms) != Some(l) && l in s.leases
    ensures NodeOk(ttl, now, s.(leases := s.leases[l := now + ttl]), m, ms)
  {
  }

  /** A step of node `n` that leaves it in state `ns` and the store at `s`. */
  lemma NodeStepKeeps(ttl: real, w: World, w': World, n: Node)
    requires Inv(ttl, w) && n in w.nodes && n in w'.nodes
    requires w'.now == w.now && w'.nodes == w.nodes[n := w'.nodes[n]]
    requires StoreOk(ttl, w'.now, w'.store)
    requires NodeOk(ttl, w'.now, w'.store, n, w'.nodes[n])
    requires forall m :: m in w.nodes && m != n ==> NodeOk(ttl, w'.now, w'.store, m, w.nodes[m])
    requires Held(w'.nodes[n]).Some? ==>
      forall m :: m in w.nodes && m != n ==> Held(w.nodes[m]) != Held(w'.nodes[n])
    ensures Inv(ttl, w')
  {
  }

  lemma TimeKeeps(ttl: real, w: World, d: real)
    requires Inv(ttl, w) && d >= 0.0
    ensures Inv(ttl, w.(now := w.now + d))
  {
    var w' := w.(now := w.now + d);
    forall n | n in w'.nodes ensures NodeOk(ttl, w'.now, w'.store, n, w'.nodes[n]) {
      assert NodeOk(ttl, w.now, w.store, n, w.nodes[n]);
    }
  }

  /** Expiry takes a lease away only from nodes whose last confirmation is a ttl old. */
  lemma ExpiryKeeps(ttl: real, w: World, l: Lease)
    requires Inv(ttl, w) && l in w.store.leases && w.store.leases[l] <= w.now
    ensures Inv(ttl, w.(store := DropLease(w.store, l)))
  {
    var w' := w.(store := DropLease(w.store, l));
    forall n | n in w'.nodes ensures NodeOk(ttl, w'.now, w'.store, n, w'.nodes[n]) {
      assert NodeOk(ttl, w.now, w.store, n, w.nodes[n]);
    }
  }

  lemma DropKeeps(ttl: real, w: World, n: Node, ns: NodeState, l: Lease)
    requires Inv(ttl, w) && n in w.nodes && Held(w.nodes[n]) == Some(l)
    requires Held(ns).None? && ns.lease.None? && !IsLeaderPhase(ns.phase)
    requires ns.confirmed <= w.now && (ns.phase.Backoff? ==> ns.phase.until <= w.now + ttl)
    ensures Inv(ttl, At(w.(store := DropLease(w.store, l)), n, ns))
  {
    var w' := At(w.(store := DropLease(w.store, l)), n, ns);
    forall m | m in w.nodes && m != n ensures NodeOk(ttl, w'.now, w'.store, m, w.nodes[m]) {
      OthersKeepAfterDrop(ttl, w.now, w.store, l, m, w.nodes[m]);
    }
    NodeStepKeeps(ttl, w, w', n);
  }

  lemma GrantKeeps(ttl: real, w: World, step: Step)
    requires ttl > 0.0 && Inv(ttl, w) && step.Grant?
    ensures Inv(ttl, Apply(ttl, w, step))
  {
    var w' := Apply(ttl, w, step);
    if step.n in w.nodes && w' != w {
      assert NodeOk(ttl, w.now, w.store, step.n, w.nodes[step.n]);
      if step.reached {
        forall m | m in w.nodes && m != step.n
          ensures NodeOk(ttl, w'.now, w'.store, m, w.nodes[m]) && Held(w.nodes[m]) != Some(w.store.next)
        {
          assert NodeOk(ttl, w.now, w.store, m, w.nodes[m]);
          OthersKeepAfterGrant(ttl, w.now, w.store, m, w.nodes[m]);
        }
      }
      NodeStepKeeps(ttl, w, w', step.n);
    }
  }

  lemma PutLockKeeps(ttl: real, w: World, step: Step)
    requires ttl > 0.0 && Inv(ttl, w) && step.PutLock?
    ensures Inv(ttl, Apply(ttl, w, step))
  {
    var w' := Apply(ttl, w, step);
    if step.n in w.nodes && w' != w {
      var n, ns := step.n, w.nodes[step.n];
      assert NodeOk(ttl, w.now, w.store, n, ns);
      if w'.store != w.store {
        forall m | m in w.nodes && m != n ensures NodeOk(ttl, w'.now, w'.store, m, w.nodes[m]) {
          assert NodeOk(ttl, w.now, w.store, m, w.nodes[m]);
          OthersKeepAfterLock(ttl, w.now, w.store, n, ns.phase.lease, m, w.nodes[m]);
        }
      }
      NodeStepKeeps(ttl, w, w', n);
    }
  }

  lemma LockReplyKeeps(ttl: real, w: World, step: Step)
    requires ttl > 0.0 && Inv(ttl, w) && step.LockReply?
    ensures Inv(ttl, Apply(ttl, w, step))
  {
    var w' := Apply(ttl, w, step);
    if step.n in w.nodes && w' != w {
      assert NodeOk(ttl, w.now, w.store, step.n, w.nodes[step.n]);
      NodeStepKeeps(ttl, w, w', step.n);
    }
  }

  lemma RevokeLostKeeps(ttl: real, w: World, step: Step)
    requires ttl > 0.0 && Inv(ttl, w) && step.RevokeLost?
    ensures Inv(ttl, Apply(ttl, w, step))
  {
    var w' := Apply(ttl, w, step);
    if step.n in w.nodes && w' != w {
      var n, ns := step.n, w.nodes[step.n];
      assert NodeOk(ttl, w.now, w.store, n, ns);
      if step.reached {
        DropKeeps(ttl, w, n, ns.(phase := Backoff(w.now + ttl)), ns.phase.lease);
      } else {
        NodeStepKeeps(ttl, w, w', n);
      }
    }
  }

  lemma KeepAliveKeeps(ttl: real, w: World, step: Step)
    requires ttl > 0.0 && Inv(ttl, w) && step.KeepAlive?
    ensures Inv(ttl, Apply(ttl, w, step))
  {
    var w' := Apply(ttl, w, step);
    if step.n in w.nodes && w' != w {
      var n, ns := step.n, w.nodes[step.n];
      assert NodeOk(ttl, w.now, w.store, n, ns);
      if w'.nodes[n].phase == Renewed(true) {
        forall m | m in w.nodes && m != n ensures NodeOk(ttl, w'.now, w'.store, m, w.nodes[m]) {
          OthersKeepAfterRenewal(ttl, w.now, w.store, ns.lease.value, m, w.nodes[m]);
        }
      }
      NodeStepKeeps(ttl, w, w', n);
    }
  }

  lemma ResignKeeps(ttl: real, w: World, step: Step)
    requires ttl > 0.0 && Inv(ttl, w) && (step.RenewReply? || step.Revoke?)
    ensures Inv(ttl, Apply(ttl, w, step))
  {
    var w' := Apply(ttl, w, step);
    if step.n in w.nodes && w' != w {
      var n, ns := step.n, w.nodes[step.n];
      assert NodeOk(ttl, w.now, w.store, n, ns);
      if step.Revoke? && step.reached {
        DropKeeps(ttl, w, n, ns.(phase := if ns.phase.final then Down else Idle), ns.phase.lease);
      } else {
        NodeStepKeeps(ttl, w, w', n);
      }
    }
  }

  lemma LocalKeeps(ttl: real, w: World, step: Step)
    requires ttl > 0.0 && Inv(ttl, w)
    requires step.Wake? || step.StartWork? || step.EndWork?
    ensures Inv(ttl, Apply(ttl, w, step))
  {
    var w' := Apply(ttl, w, step);
    if step.n in w.nodes && w' != w {
      assert NodeOk(ttl, w.now, w.store, step.n, w.nodes[step.n]);
      NodeStepKeeps(ttl, w, w', step.n);
    }
  }

  lemma UpDownKeeps(ttl: real, w: World, step: Step)
    requires ttl > 0.0 && Inv(ttl, w) && (step.Stop? || step.Crash? || step.Restart?)
    ensures Inv(ttl, Apply(ttl, w, step))
  {
    var w' := Apply(ttl, w, step);
    if step.n in w.nodes && w' != w {
      assert NodeOk(ttl, w.now, w.store, step.n, w.nodes[step.n]);
      NodeStepKeeps(ttl, w, w', step.n);
    }
  }

  lemma StepKeeps(ttl: real, w: World, step: Step)
    requires ttl > 0.0 && Inv(ttl, w)
    ensures Inv(ttl, Apply(ttl, w, step))
  {
    match step
    case Advance(d) => if d >= 0.0 { TimeKeeps(ttl, w, d); }
    case Expire(l) => if Apply(ttl, w, step) != w { ExpiryKeeps(ttl, w, l); }
    case Grant(_, _, _) => GrantKeeps(ttl, w, step);
    case PutLock(_, _) => PutLockKeeps(ttl, w, step);
    case LockReply(_, _) => LockReplyKeeps(ttl, w, step);
    case RevokeLost(_, _) => RevokeLostKeeps(ttl, w, step);
    case KeepAlive(_, _) => KeepAliveKeeps(ttl, w, step);
    case RenewReply(_, _) => ResignKeeps(ttl, w, step);
    case Revoke(_, _) => ResignKeeps(ttl, w, step);
    case Stop(_) => UpDownKeeps(ttl, w, step);
    case Crash(_) => UpDownKeeps(ttl, w, step);
    case Restart(_) => UpDownKeeps(ttl, w, step);
    case _ => LocalKeeps(ttl, w, step);
  }

  lemma {:induction false} RunKeeps(ttl: real, w: World, steps: seq<Step>)
    requires ttl > 0.0 && Inv(ttl, w)
    ensures Inv(ttl, Run(ttl, w, steps))
  {
    if steps != [] {
      RunKeeps(ttl, w, steps[..|steps| - 1]);
      StepKeeps(ttl, Run(ttl, w, steps[..|steps| - 1]), steps[|steps| - 1]);
    }
  }

  // ---- mutual exclusion -------------------------------------------------------------

  /** The node has a recorded lease that is alive at the store. */
  predicate HoldsLiveLease(w: World, n: Node) {
    n in w.nodes && w.nodes[n].lease.Some? && w.nodes[n].lease.value in w.store.leases
  }

  /** In every run at most one node has a recorded lease that is alive, and it is
      the lease on the lock, under that node's name. */
  lemma OneLiveLeader(ttl: real, nodes: set<Node>, steps: seq<Step>, m: Node, n: Node)
    requires ttl > 0.0
    ensures var w := Run(ttl, Start(nodes), steps);
      HoldsLiveLease(w, m) ==>
        && w.store.lock == Some(Lock(m, w.nodes[m].lease.value))
        && (HoldsLiveLease(w, n) ==> m == n)
  {
    RunKeeps(ttl, Start(nodes), steps);
    var w := Run(ttl, Start(nodes), steps);
    if HoldsLiveLease(w, m) {
      assert NodeOk(ttl, w.now, w.store, m, w.nodes[m]);
      if HoldsLiveLease(w, n) {
        assert NodeOk(ttl, w.now, w.store, n, w.nodes[n]);
      }
    }
  }

  /** Node `n` is inside a tick, and less than a ttl has passed since the grant or
      renewal it works under. */
  predicate WorksInTime(ttl: real, w: World, n: Node) {
    n in w.nodes && w.nodes[n].phase.Working? && w.now < w.nodes[n].confirmed + ttl
  }

  /** Ticks that stay within a ttl of their last grant or renewal never overlap. */
  lemma TicksNeverOverlap(ttl: real, nodes: set<Node>, steps: seq<Step>, m: Node, n: Node)
    requires ttl > 0.0
    ensures var w := Run(ttl, Start(nodes), steps);
      WorksInTime(ttl, w, m) && WorksInTime(ttl, w, n) ==> m == n
  {
    RunKeeps(ttl, Start(nodes), steps);
    var w := Run(ttl, Start(nodes), steps);
    if WorksInTime(ttl, w, m) && WorksInTime(ttl, w, n) {
      assert NodeOk(ttl, w.now, w.store, m, w.nodes[m]);
      assert NodeOk(ttl, w.now, w.store, n, w.nodes[n]);
    }
  }

  // ---- a sufficient bound on the tick length ------------------------------------------

  predicate IsCalling(p: Phase) {
    p.Idle? || p.Granted? || p.Won? || p.Lost? || p.Leading? || p.Worked? || p.Renewed? || p.Resigning?
  }

  /** Time passes only while nodes sleep or work, no node oversleeps, and no tick
      reaches `tick` seconds. */
  ghost predicate InstantCalls(w: World, step: Step, tick: real) {
    step.Advance? && step.d >= 0.0 ==>
      forall n :: n in w.nodes ==>
        var p := w.nodes[n].phase;
        && !IsCalling(p)
        && (p.Backoff? || p.Sleeping? ==> w.now + step.d <= p.until)
        && (p.Working? ==> w.now + step.d < p.since + tick)
  }

  /** A leader starts its tick no later than one renewal interval after its confirmation. */
  predicate Punctual(ttl: real, now: real, ns: NodeState, tick: real) {
    var limit := ns.confirmed + RenewEvery(ttl);
    match ns.phase
    case Granted(_) => ns.confirmed == now
    case Won(_) => ns.confirmed == now
    case Leading => now <= limit
    case Working(since) => since <= limit && now < since + tick
    case Renewed(ok) => ok ==> ns.confirmed == now
    case Sleeping(until) => until <= limit && now <= until
    case _ => true
  }

  ghost predicate AllPunctual(ttl: real, w: World, tick: real) {
    forall n :: n in w.nodes ==> Punctual(ttl, w.now, w.nodes[n], tick)
  }

  lemma PunctualStep(ttl: real, w: World, step: Step, tick: real)
    requires ttl > 0.0 && tick > 0.0
    requires InstantCalls(w, step, tick) && AllPunctual(ttl, w, tick)
    ensures AllPunctual(ttl, Apply(ttl, w, step), tick)
  {
    var w' := Apply(ttl, w, step);
    forall n | n in w'.nodes ensures Punctual(ttl, w'.now, w'.nodes[n], tick) {
      assert Punctual(ttl, w.now, w.nodes[n], tick);
    }
  }

  lemma {:induction false} RunConcat(ttl: real, w: World, a: seq<Step>, b: seq<Step>)
    ensures Run(ttl, w, a + b) == Run(ttl, Run(ttl, w, a), b)
  {
    if b == [] {
      assert a + b == a;
    } else {
      RunConcat(ttl, w, a, b[..|b| - 1]);
      assert (a + b)[..|a + b| - 1] == a + b[..|b| - 1];
    }
  }

  /** Every step of the run is such a step. */
  ghost predicate InstantRun(ttl: real, w: World, steps: seq<Step>, tick: real) {
    steps == [] ||
    var before := steps[..|steps| - 1];
    InstantRun(ttl, w, before, tick) && InstantCalls(Run(ttl, w, before), steps[|steps| - 1], tick)
  }

  lemma {:induction false} InstantConcat(ttl: real, w: World, a: seq<Step>, b: seq<Step>, tick: real)
    requires InstantRun(ttl, w, a, tick) && InstantRun(ttl, Run(ttl, w, a), b, tick)
    ensures InstantRun(ttl, w, a + b, tick)
  {
    if b == [] {
      assert a + b == a;
    } else {
      var init := b[..|b| - 1];
      InstantConcat(ttl, w, a, init, tick);
      RunConcat(ttl, w, a, init);
      assert (a + b)[..|a + b| - 1] == a + init;
    }
  }

  lemma {:induction false} PunctualRun(ttl: real, nodes: set<Node>, steps: seq<Step>, tick: real)
    requires ttl > 0.0 && tick > 0.0 && InstantRun(ttl, Start(nodes), steps, tick)
    ensures AllPunctual(ttl, Run(ttl, Start(nodes), steps), tick)
  {
    if steps != [] {
      var before := steps[..|steps| - 1];
      PunctualRun(ttl, nodes, before, tick);
      PunctualStep(ttl, Run(ttl, Start(nodes), before), steps[|steps| - 1], tick);
    }
  }

  /** With instant calls, ticks of at most ttl - max(1, ttl/3) never overlap. */
  lemma ShortTicksNeverOverlap(ttl: real, nodes: set<Node>, steps: seq<Step>, tick: real, m: Node, n: Node)
    requires ttl > 0.0 && 0.0 < tick <= ttl - 1.0 && tick <= ttl - ttl / 3.0
    requires InstantRun(ttl, Start(nodes), steps, tick)
    ensures var w := Run(ttl, Start(nodes), steps);
      m in w.nodes && n in w.nodes && w.nodes[m].phase.Working? && w.nodes[n].phase.Working? ==> m == n
  {
    PunctualRun(ttl, nodes, steps, tick);
    TicksNeverOverlap(ttl, nodes, steps, m, n);
    var w := Run(ttl, Start(nodes), steps);
    if m in w.nodes && n in w.nodes && w.nodes[m].phase.Working? && w.nodes[n].phase.Working? {
      assert Punctual(ttl, w.now, w.nodes[m], tick) && Punctual(ttl, w.now, w.nodes[n], tick);
    }
  }

  // ---- the bound is tight ---------------------------------------------------------------

  lemma RunAppend(ttl: real, w: World, steps: seq<Step>, step: Step)
    ensures Run(ttl, w, steps + [step]) == Apply(ttl, Run(ttl, w, steps), step)
  {
    assert (steps + [step])[..|steps + [step]| - 1] == steps;
  }

  lemma RunOne(ttl: real, w: World, a: Step)
    ensures Run(ttl, w, [a]) == Apply(ttl, w, a)
  {
    assert [] + [a] == [a];
    RunAppend(ttl, w, [], a);
  }

  lemma RunTwo(ttl: real, w: World, a: Step, b: Step)
    ensures Run(ttl, w, [a, b]) == Apply(ttl, Apply(ttl, w, a), b)
  {
    RunOne(ttl, w, a);
    assert [a] + [b] == [a, b];
    RunAppend(ttl, w, [a], b);
  }

  /** A successful campaign and the start of a tick. */
  function CampaignSteps(n: Node): seq<Step> {
    [Grant(n, true, true), PutLock(n, true)] + [LockReply(n, true), StartWork(n)]
  }

  lemma TakesLock(ttl: real, w: World, n: Node)
    requires ttl > 0.0 && n in w.nodes && w.nodes[n].phase.Idle? && w.nodes[n].lease.None? && w.store.lock.None?
    ensures var l, w1 := w.store.next, Apply(ttl, Apply(ttl, w, Grant(n, true, true)), PutLock(n, true));
      && w1.now == w.now && w1.nodes == w.nodes[n := NodeState(Won(l), None, w.now)]
      && w1.store == Store(w.store.leases[l := w.now + ttl], Some(Lock(n, l)), l + 1)
  {
  }

  lemma StartsTick(ttl: real, w: World, n: Node)
    requires n in w.nodes && w.nodes[n].phase.Won?
    ensures var w1 := Apply(ttl, Apply(ttl, w, LockReply(n, true)), StartWork(n));
      && w1.now == w.now && w1.store == w.store
      && w1.nodes == w.nodes[n := NodeState(Working(w.now), Some(w.nodes[n].phase.lease), w.nodes[n].confirmed)]
  {
  }

  /** After a campaign the node works under a fresh lease, at the same instant. */
  lemma Campaigned(ttl: real, w: World, n: Node)
    requires ttl > 0.0 && n in w.nodes && w.nodes[n].phase.Idle? && w.nodes[n].lease.None? && w.store.lock.None?
    ensures var l, w1 := w.store.next, Run(ttl, w, CampaignSteps(n));
      && w1.now == w.now && w1.nodes == w.nodes[n := NodeState(Working(w.now), Some(l), w.now)]
      && w1.store == Store(w.store.leases[l := w.now + ttl], Some(Lock(n, l)), l + 1)
  {
    var a, b := [Grant(n, true, true), PutLock(n, true)], [LockReply(n, true), StartWork(n)];
    TakesLock(ttl, w, n);
    RunTwo(ttl, w, Grant(n, true, true), PutLock(n, true));
    StartsTick(ttl, Run(ttl, w, a), n);
    RunTwo(ttl, Run(ttl, w, a), LockReply(n, true), StartWork(n));
    RunConcat(ttl, w, a, b);
  }

  /** The expiry of the lease on the lock frees it. */
  lemma ExpiryFrees(ttl: real, w: World, l: Lease)
    requires l in w.store.leases && w.store.leases[l] <= w.now && w.store.lock.Some? && w.store.lock.value.lease == l
    ensures var w1 := Apply(ttl, w, Expire(l));
      w1.now == w.now && w1.nodes == w.nodes && w1.store.lock.None?
  {
  }

  /** Once a tick outlives its lease time, the store and one idle node can make two
      ticks overlap at that very instant. */
  lemma LateTickCanOverlap(ttl: real, w: World, n: Node, m: Node) returns (steps: seq<Step>)
    requires ttl > 0.0 && Inv(ttl, w)
    requires HoldsLiveLease(w, n) && w.nodes[n].phase.Working? && !WorksInTime(ttl, w, n)
    requires m in w.nodes && w.nodes[m].phase.Idle?
    ensures forall i :: 0 <= i < |steps| ==> !steps[i].Advance?
    ensures var w' := Run(ttl, w, steps);
      && w'.now == w.now && n in w'.nodes && m in w'.nodes && m != n
      && w'.nodes[n].phase.Working? && w'.nodes[m].phase.Working?
  {
    var l := w.nodes[n].lease.value;
    LateLease(ttl, w, n, m);
    ExpiryFrees(ttl, w, l);
    Campaigned(ttl, Apply(ttl, w, Expire(l)), m);
    RunOne(ttl, w, Expire(l));
    RunConcat(ttl, w, [Expire(l)], CampaignSteps(m));
    steps := [Expire(l)] + CampaignSteps(m);
  }

  lemma LateLease(ttl: real, w: World, n: Node, m: Node)
    requires Inv(ttl, w) && HoldsLiveLease(w, n) && w.nodes[n].phase.Working? && !WorksInTime(ttl, w, n)
    requires m in w.nodes && w.nodes[m].phase.Idle?
    ensures var l := w.nodes[n].lease.value;
      && w.store.leases[l] <= w.now && w.store.lock == Some(Lock(n, l)) && w.nodes[m].lease.None?
  {
    assert NodeOk(ttl, w.now, w.store, n, w.nodes[n]) && NodeOk(ttl, w.now, w.store, m, w.nodes[m]);
  }

  // ---- the bound on the tick length is tight --------------------------------------------

  lemma {:induction false} NoAdvanceIsInstant(ttl: real, w: World, steps: seq<Step>, tick: real)
    requires forall i :: 0 <= i < |steps| ==> !steps[i].Advance?
    ensures InstantRun(ttl, w, steps, tick)
  {
    if steps != [] { NoAdvanceIsInstant(ttl, w, steps[..|steps| - 1], tick); }
  }

  lemma AdvanceIsInstant(ttl: real, w: World, d: real, tick: real)
    requires InstantCalls(w, Advance(d), tick)
    ensures InstantRun(ttl, w, [Advance(d)], tick)
  {
    assert [Advance(d)][..0] == [];
  }

  /** A tick that takes no time, a confirmed renewal, and the leader sleeps. */
  lemma Renews(ttl: real, w: World, n: Node)
    requires n in w.nodes && w.nodes[n].phase.Working? && w.nodes[n].lease.Some?
    requires w.nodes[n].lease.value in w.store.leases
    ensures var l, w1 := w.nodes[n].lease, Run(ttl, w, [EndWork(n), KeepAlive(n, true)] + [RenewReply(n, true)]);
      && w1.now == w.now && w1.store == w.store.(leases := w.store.leases[l.value := w.now + ttl])
      && w1.nodes == w.nodes[n := NodeState(Sleeping(w.now + RenewEvery(ttl)), l, w.now)]
  {
    RunTwo(ttl, w, EndWork(n), KeepAlive(n, true));
    var m := Run(ttl, w, [EndWork(n), KeepAlive(n, true)]);
    assert m.nodes == w.nodes[n := NodeState(Renewed(true), w.nodes[n].lease, w.now)];
    RunOne(ttl, m, RenewReply(n, true));
    RunConcat(ttl, w, [EndWork(n), KeepAlive(n, true)], [RenewReply(n, true)]);
  }

  lemma WakesToWork(ttl: real, w: World, n: Node)
    requires n in w.nodes && w.nodes[n].phase.Sleeping? && w.nodes[n].phase.until <= w.now
    ensures var w1 := Run(ttl, w, [Wake(n), StartWork(n)]);
      && w1.now == w.now && w1.store == w.store
      && w1.nodes == w.nodes[n := w.nodes[n].(phase := Working(w.now))]
  {
    RunTwo(ttl, w, Wake(n), StartWork(n));
  }

  /** When the second tick of node `n` may have to end: its lease is due, or it has just begun. */
  function DueTime(ttl: real): real {
    if ttl < RenewEvery(ttl) then RenewEvery(ttl) else ttl
  }

  /** The other node is down; `n` has won the lock and works. */
  lemma FirstWork(ttl: real, n: Node, m: Node) returns (steps: seq<Step>)
    requires ttl > 0.0 && m != n
    ensures forall i :: 0 <= i < |steps| ==> !steps[i].Advance?
    ensures var w := Run(ttl, Start({m, n}), steps);
      && w.now == 0.0 && w.store == Store(map[0 := ttl], Some(Lock(n, 0)), 1)
      && w.nodes == map[m := NodeState(Down, None, 0.0), n := NodeState(Working(0.0), Some(0), 0.0)]
  {
    var w0 := Start({m, n});
    RunOne(ttl, w0, Crash(m));
    Campaigned(ttl, Run(ttl, w0, [Crash(m)]), n);
    RunConcat(ttl, w0, [Crash(m)], CampaignSteps(n));
    steps := [Crash(m)] + CampaignSteps(n);
  }

  /** It renews at once, and sleeps. */
  lemma FirstTick(ttl: real, n: Node, m: Node) returns (steps: seq<Step>)
    requires ttl > 0.0 && m != n
    ensures forall i :: 0 <= i < |steps| ==> !steps[i].Advance?
    ensures var w := Run(ttl, Start({m, n}), steps);
      && w.now == 0.0 && w.store == Store(map[0 := ttl], Some(Lock(n, 0)), 1)
      && w.nodes == map[m := NodeState(Down, None, 0.0), n := NodeState(Sleeping(RenewEvery(ttl)), Some(0), 0.0)]
  {
    var a := FirstWork(ttl, n, m);
    var b := [EndWork(n), KeepAlive(n, true)] + [RenewReply(n, true)];
    Renews(ttl, Run(ttl, Start({m, n}), a), n);
    RunConcat(ttl, Start({m, n}), a, b);
    steps := a + b;
  }

  /** Then it has slept one interval and works again. */
  lemma SecondTick(ttl: real, n: Node, m: Node, tick: real) returns (steps: seq<Step>)
    requires ttl > 0.0 && m != n && tick > 0.0
    ensures InstantRun(ttl, Start({m, n}), steps, tick)
    ensures var w := Run(ttl, Start({m, n}), steps);
      && w.now == RenewEvery(ttl) && w.store == Store(map[0 := ttl], Some(Lock(n, 0)), 1)
      && w.nodes == map[m := NodeState(Down, None, 0.0), n := NodeState(Working(w.now), Some(0), 0.0)]
  {
    var w0 := Start({m, n});
    var a := FirstTick(ttl, n, m);
    NoAdvanceIsInstant(ttl, w0, a, tick);
    var b := SleepsThenWorks(ttl, Run(ttl, w0, a), n, m, tick);
    RunConcat(ttl, w0, a, b);
    InstantConcat(ttl, w0, a, b, tick);
    steps := a + b;
  }

  lemma SleepsThenWorks(ttl: real, w: World, n: Node, m: Node, tick: real) returns (steps: seq<Step>)
    requires ttl > 0.0 && m != n && tick > 0.0 && w.now == 0.0
    requires w.nodes == map[m := NodeState(Down, None, 0.0), n := NodeState(Sleeping(RenewEvery(ttl)), Some(0), 0.0)]
    ensures InstantRun(ttl, w, steps, tick)
    ensures var w1 := Run(ttl, w, steps);
      && w1.now == RenewEvery(ttl) && w1.store == w.store
      && w1.nodes == map[m := NodeState(Down, None, 0.0), n := NodeState(Working(w1.now), Some(0), 0.0)]
  {
    var r := RenewEvery(ttl);
    RunOne(ttl, w, Advance(r));
    AdvanceIsInstant(ttl, w, r, tick);
    var w1 := Run(ttl, w, [Advance(r)]);
    WakesToWork(ttl, w1, n);
    NoAdvanceIsInstant(ttl, w1, [Wake(n), StartWork(n)], tick);
    RunConcat(ttl, w, [Advance(r)], [Wake(n), StartWork(n)]);
    InstantConcat(ttl, w, [Advance(r)], [Wake(n), StartWork(n)], tick);
    steps := [Advance(r)] + [Wake(n), StartWork(n)];
  }

  /** Its tick outlives the lease while the other node comes back. */
  lemma OutlivesLease(ttl: real, w: World, n: Node, m: Node, tick: real) returns (steps: seq<Step>)
    requires ttl > 0.0 && m != n && tick > 0.0 && tick > ttl - RenewEvery(ttl) && w.now == RenewEvery(ttl)
    requires w.store == Store(map[0 := ttl], Some(Lock(n, 0)), 1)
    requires w.nodes == map[m := NodeState(Down, None, 0.0), n := NodeState(Working(w.now), Some(0), 0.0)]
    ensures InstantRun(ttl, w, steps, tick)
    ensures var w1 := Run(ttl, w, steps);
      && HoldsLiveLease(w1, n) && w1.nodes[n].phase.Working? && !WorksInTime(ttl, w1, n)
      && m in w1.nodes && w1.nodes[m].phase.Idle?
  {
    var d := DueTime(ttl) - RenewEvery(ttl);
    RunTwo(ttl, w, Advance(d), Restart(m));
    RunOne(ttl, w, Advance(d));
    AdvanceIsInstant(ttl, w, d, tick);
    NoAdvanceIsInstant(ttl, Run(ttl, w, [Advance(d)]), [Restart(m)], tick);
    InstantConcat(ttl, w, [Advance(d)], [Restart(m)], tick);
    assert [Advance(d)] + [Restart(m)] == [Advance(d), Restart(m)];
    steps := [Advance(d), Restart(m)];
  }

  /** The bound is tight: for every tick length above ttl - max(1, ttl/3) some run from the
      start with instant calls makes two ticks overlap. */
  lemma LongTicksOverlap(ttl: real, n: Node, m: Node, tick: real) returns (steps: seq<Step>)
    requires ttl > 0.0 && m != n && tick > 0.0 && (tick > ttl - 1.0 || tick > ttl - ttl / 3.0)
    ensures InstantRun(ttl, Start({m, n}), steps, tick)
    ensures var w := Run(ttl, Start({m, n}), steps);
      n in w.nodes && m in w.nodes && w.nodes[n].phase.Working? && w.nodes[m].phase.Working?
  {
    var w0 := Start({m, n});
    var a := SecondTick(ttl, n, m, tick);
    var b := OutlivesLease(ttl, Run(ttl, w0, a), n, m, tick);
    RunConcat(ttl, w0, a, b);
    InstantConcat(ttl, w0, a, b, tick);
    RunKeeps(ttl, w0, a + b);
    var c := LateTickCanOverlap(ttl, Run(ttl, w0, a + b), n, m);
    NoAdvanceIsInstant(ttl, Run(ttl, w0, a + b), c, tick);
    RunConcat(ttl, w0, a + b, c);
    InstantConcat(ttl, w0, a + b, c, tick);
    steps := a + b + c;
  }

  // ---- bounded takeover -----------------------------------------------------------------

  /** The candidate `h` makes its calls instantly and successfully, wakes on time and
      stays up; leases end no later than their expiry; a lock that was won is never
      orphaned. Other nodes and the rest of the schedule are unconstrained. */
  ghost predicate HealthyStep(w: World, step: Step, h: Node) {
    && (NodeOf(step) == Some(h) ==>
          && !step.Crash? && !step.Stop?
          && (step.Grant? ==> step.reached && step.delivered)
          && (step.PutLock? ==> step.reached))
    && (step.LockReply? ==> step.delivered)
    && (step.Crash? && step.n in w.nodes ==> !w.nodes[step.n].phase.Won?)
    && (step.Advance? && step.d > 0.0 ==>
          && h in w.nodes && w.nodes[h].phase.Backoff? && w.now + step.d <= w.nodes[h].phase.until
          && (forall n :: n in w.nodes ==> !w.nodes[n].phase.Won?)
          && (forall l :: l in w.store.leases ==> w.now + step.d <= w.store.leases[l]))
  }

  /** Every step of the run is such a step. */
  ghost predicate HealthyRun(ttl: real, w: World, steps: seq<Step>, h: Node) {
    steps == [] ||
    var before := steps[..|steps| - 1];
    HealthyRun(ttl, w, before, h) && HealthyStep(Run(ttl, w, before), steps[|steps| - 1], h)
  }

  lemma {:induction false} HealthyConcat(ttl: real, w: World, a: seq<Step>, b: seq<Step>, h: Node)
    requires HealthyRun(ttl, w, a, h) && HealthyRun(ttl, Run(ttl, w, a), b, h)
    ensures HealthyRun(ttl, w, a + b, h) && Run(ttl, w, a + b) == Run(ttl, Run(ttl, w, a), b)
  {
    if b == [] {
      assert a + b == a;
    } else {
      var init := b[..|b| - 1];
      HealthyConcat(ttl, w, a, init, h);
      assert (a + b)[..|a + b| - 1] == a + init;
    }
  }

  /** `h` is campaigning and no lease is overdue. */
  ghost predicate Campaigning(ttl: real, w: World, h: Node) {
    && h in w.nodes
    && (forall l :: l in w.store.leases ==> w.now <= w.store.leases[l])
    && match w.nodes[h].phase
       case Idle => true
       case Granted(_) => w.nodes[h].confirmed == w.now
       case Lost(_) => true
       case Backoff(until) => w.now <= until
       case _ => false
  }

  ghost predicate SomeoneWon(w: World) {
    exists n :: n in w.nodes && w.nodes[n].phase.Won?
  }

  /** The lock is free, or still carries the lease of the leader that crashed at time
      `c`; nobody renews that lease; `h` retries before `c + 2 * ttl`. */
  ghost predicate Waiting(ttl: real, w: World, h: Node, dead: Lease, c: real) {
    && Campaigning(ttl, w, h)
    && (w.store.lock.Some? ==> w.store.lock.value.lease == dead)
    && (dead in w.store.leases ==> w.store.leases[dead] <= c + ttl)
    && dead < w.store.next
    && (forall n :: n in w.nodes ==> Claimed(w.nodes[n]) != Some(dead))
    && (w.nodes[h].phase.Backoff? ==> w.nodes[h].phase.until <= c + 2.0 * ttl)
    && (w.nodes[h].phase.Lost? ==> w.now <= c + ttl)
  }

  /** What the wait needs of the store. */
  ghost predicate StoreWaits(now: real, s: Store, ttl: real, dead: Lease, c: real) {
    && (forall l :: l in s.leases ==> now <= s.leases[l])
    && (s.lock.Some? ==> s.lock.value.lease == dead)
    && (dead in s.leases ==> s.leases[dead] <= c + ttl)
    && dead < s.next
  }

  lemma StoreKeepsWaiting(ttl: real, w: World, step: Step, dead: Lease, c: real)
    requires ttl > 0.0 && StoreWaits(w.now, w.store, ttl, dead, c)
    requires !step.Advance? && !step.Expire? && step.n in w.nodes
    requires Claimed(w.nodes[step.n]) != Some(dead) && !Apply(ttl, w, step).nodes[step.n].phase.Won?
    ensures var w' := Apply(ttl, w, step); StoreWaits(w'.now, w'.store, ttl, dead, c)
  {
  }

  lemma OthersKeepWaiting(ttl: real, w: World, step: Step, h: Node, dead: Lease, c: real)
    requires ttl > 0.0 && Inv(ttl, w) && Waiting(ttl, w, h, dead, c) && !SomeoneWon(w)
    requires HealthyStep(w, step, h) && !step.Advance? && !step.Expire? && step.n in w.nodes && step.n != h
    requires !SomeoneWon(Apply(ttl, w, step))
    ensures Waiting(ttl, Apply(ttl, w, step), h, dead, c)
  {
    var w' := Apply(ttl, w, step);
    assert NodeOk(ttl, w.now, w.store, step.n, w.nodes[step.n]);
    assert !w'.nodes[step.n].phase.Won?;
    StoreKeepsWaiting(ttl, w, step, dead, c);
    StillUnclaimed(ttl, w, step, dead);
    OneNodeMoves(ttl, w, step);
    OtherMoves(ttl, w, w', step.n, h, dead, c);
  }

  lemma OneNodeMoves(ttl: real, w: World, step: Step)
    requires !step.Advance? && !step.Expire? && step.n in w.nodes
    ensures var w' := Apply(ttl, w, step);
      w'.now == w.now && step.n in w'.nodes && w'.nodes == w.nodes[step.n := w'.nodes[step.n]]
  {
  }

  lemma OtherMoves(ttl: real, w: World, w': World, n: Node, h: Node, dead: Lease, c: real)
    requires Waiting(ttl, w, h, dead, c) && n in w.nodes && n != h
    requires w'.now == w.now && n in w'.nodes && w'.nodes == w.nodes[n := w'.nodes[n]]
    requires StoreWaits(w'.now, w'.store, ttl, dead, c) && Claimed(w'.nodes[n]) != Some(dead)
    ensures Waiting(ttl, w', h, dead, c)
  {
  }

  /** A lease is claimed only by winning the lock with it. */
  lemma StillUnclaimed(ttl: real, w: World, step: Step, dead: Lease)
    requires !step.Advance? && !step.Expire? && step.n in w.nodes && !Apply(ttl, w, step).nodes[step.n].phase.Won?
    requires w.nodes[step.n].lease.Some? <==> IsLeaderPhase(w.nodes[step.n].phase)
    requires Claimed(w.nodes[step.n]) != Some(dead)
    ensures Claimed(Apply(ttl, w, step).nodes[step.n]) != Some(dead)
  {
  }

  lemma CandidateKeepsWaiting(ttl: real, w: World, step: Step, h: Node, dead: Lease, c: real)
    requires ttl > 0.0 && Inv(ttl, w) && Waiting(ttl, w, h, dead, c) && !SomeoneWon(w)
    requires HealthyStep(w, step, h) && !step.Advance? && !step.Expire? && step.n == h
    requires !SomeoneWon(Apply(ttl, w, step))
    ensures Waiting(ttl, Apply(ttl, w, step), h, dead, c)
  {
    var w' := Apply(ttl, w, step);
    assert NodeOk(ttl, w.now, w.store, h, w.nodes[h]);
    assert !w.nodes[h].phase.Won? && !w'.nodes[h].phase.Won?;
  }

  /** One healthy step: a leader is acquired, or some node has just won the lock, or
      the wait goes on. */
  lemma TakeoverStep(ttl: real, w: World, step: Step, h: Node, dead: Lease, c: real)
    requires ttl > 0.0 && Inv(ttl, w) && HealthyStep(w, step, h)
    requires w.now <= c + 2.0 * ttl && (SomeoneWon(w) || Waiting(ttl, w, h, dead, c))
    ensures var w' := Apply(ttl, w, step);
      || |w'.acquired| > |w.acquired|
      || (w'.now <= c + 2.0 * ttl && (SomeoneWon(w') || Waiting(ttl, w', h, dead, c)))
  {
    var w' := Apply(ttl, w, step);
    if SomeoneWon(w) {
      var q :| q in w.nodes && w.nodes[q].phase.Won?;
      assert q in w'.nodes;
      if |w'.acquired| <= |w.acquired| { assert w'.nodes[q].phase.Won?; }
    } else if !step.Advance? && !step.Expire? && step.n in w.nodes && !SomeoneWon(w') {
      if step.n == h {
        CandidateKeepsWaiting(ttl, w, step, h, dead, c);
      } else {
        OthersKeepWaiting(ttl, w, step, h, dead, c);
      }
    }
  }

  /** A crashed leader is replaced within two ttls: from the crash on, in every run in
      which one candidate is healthy, either some node has acquired leadership since,
      or at most 2 * ttl has passed. */
  lemma {:induction false} TakeoverWithinTwoTtl(ttl: real, w: World, steps: seq<Step>, h: Node, dead: Lease)
    requires ttl > 0.0 && Inv(ttl, w) && Campaigning(ttl, w, h)
    requires w.store.lock.Some? ==> w.store.lock.value.lease == dead
    requires dead < w.store.next && forall n :: n in w.nodes ==> Claimed(w.nodes[n]) != Some(dead)
    requires HealthyRun(ttl, w, steps, h)
    ensures var w' := Run(ttl, w, steps);
      || |w'.acquired| > |w.acquired|
      || (w'.now <= w.now + 2.0 * ttl && (SomeoneWon(w') || Waiting(ttl, w', h, dead, w.now)))
  {
    if steps == [] {
      assert NodeOk(ttl, w.now, w.store, h, w.nodes[h]);
    } else {
      var before := steps[..|steps| - 1];
      TakeoverWithinTwoTtl(ttl, w, before, h, dead);
      RunKeeps(ttl, w, before);
      var mid := Run(ttl, w, before);
      AcquiredGrows(ttl, w, before);
      AcquiredGrows(ttl, w, steps);
      if |mid.acquired| == |w.acquired| {
        TakeoverStep(ttl, mid, steps[|steps| - 1], h, dead, w.now);
      } else {
        StepAcquires(ttl, mid, steps[|steps| - 1]);
      }
    }
  }

  /** In any run from the start: if the leader on the lock crashes while another node is
      campaigning, then in every healthy continuation some node has acquired leadership
      since, or at most 2 * ttl has passed since the crash. */
  lemma CrashedLeaderIsReplaced(ttl: real, nodes: set<Node>, before: seq<Step>, n: Node, h: Node, after: seq<Step>)
    requires ttl > 0.0
    requires var w := Run(ttl, Start(nodes), before);
      n in w.nodes && w.nodes[n].lease.Some? && w.store.lock == Some(Lock(n, w.nodes[n].lease.value))
    requires var w := Run(ttl, Start(nodes), before + [Crash(n)]);
      Campaigning(ttl, w, h) && HealthyRun(ttl, w, after, h)
    ensures var w := Run(ttl, Start(nodes), before + [Crash(n)]);
      var w' := Run(ttl, Start(nodes), before + [Crash(n)] + after);
      |w'.acquired| > |w.acquired| || w'.now <= w.now + 2.0 * ttl
  {
    var w0, w := Run(ttl, Start(nodes), before), Run(ttl, Start(nodes), before + [Crash(n)]);
    RunKeeps(ttl, Start(nodes), before);
    RunKeeps(ttl, Start(nodes), before + [Crash(n)]);
    RunAppend(ttl, Start(nodes), before, Crash(n));
    RunConcat(ttl, Start(nodes), before + [Crash(n)], after);
    var dead := w0.nodes[n].lease.value;
    CrashUnclaims(ttl, w0, n);
    TakeoverWithinTwoTtl(ttl, w, after, h, dead);
  }

  /** Nobody claims the lease of a leader that has crashed. */
  lemma CrashUnclaims(ttl: real, w: World, n: Node)
    requires Inv(ttl, w) && n in w.nodes && w.nodes[n].lease.Some?
    ensures var w', dead := Apply(ttl, w, Crash(n)), w.nodes[n].lease.value;
      && dead < w'.store.next && w'.store == w.store
      && forall m :: m in w'.nodes ==> Claimed(w'.nodes[m]) != Some(dead)
  {
    assert NodeOk(ttl, w.now, w.store, n, w.nodes[n]);
    var w', dead := Apply(ttl, w, Crash(n)), w.nodes[n].lease.value;
    forall m | m in w'.nodes ensures Claimed(w'.nodes[m]) != Some(dead) {
      if m != n { assert Held(w.nodes[m]) != Held(w.nodes[n]); }
    }
  }

  /** A node that won the lock loses the reply or crashes: the lock is orphaned. */
  predicate Orphans(w: World, step: Step) {
    && ((step.LockReply? && !step.delivered) || step.Crash?)
    && step.n in w.nodes && w.nodes[step.n].phase.Won?
    && w.store.lock == Some(Lock(step.n, w.nodes[step.n].phase.lease))
  }

  /** An orphaned lock starts the wait anew, and no more than that: in every healthy
      continuation some node acquires leadership, or at most 2 * ttl has passed since. */
  lemma OrphanedLockIsReplaced(ttl: real, w: World, step: Step, h: Node, after: seq<Step>)
    requires ttl > 0.0 && Inv(ttl, w) && Orphans(w, step)
    requires var w1 := Apply(ttl, w, step);
      Campaigning(ttl, w1, h) && HealthyRun(ttl, w1, after, h)
    ensures var w1 := Apply(ttl, w, step);
      var w2 := Run(ttl, w1, after);
      |w2.acquired| > |w1.acquired| || w2.now <= w1.now + 2.0 * ttl
  {
    StepKeeps(ttl, w, step);
    OrphanUnclaims(ttl, w, step);
    TakeoverWithinTwoTtl(ttl, Apply(ttl, w, step), after, h, w.nodes[step.n].phase.lease);
  }

  lemma OrphanUnclaims(ttl: real, w: World, step: Step)
    requires Inv(ttl, w) && Orphans(w, step)
    ensures var w1, dead := Apply(ttl, w, step), w.nodes[step.n].phase.lease;
      && dead < w1.store.next && w1.store == w.store
      && forall m :: m in w1.nodes ==> Claimed(w1.nodes[m]) != Some(dead)
  {
    var w1, dead := Apply(ttl, w, step), w.nodes[step.n].phase.lease;
    assert NodeOk(ttl, w.now, w.store, step.n, w.nodes[step.n]);
    assert Held(w.nodes[step.n]) == Some(dead);
    forall m | m in w1.nodes ensures Claimed(w1.nodes[m]) != Some(dead) {
      if m != step.n { assert Held(w.nodes[m]) != Held(w.nodes[step.n]); }
    }
  }

  lemma StepAcquires(ttl: real, w: World, step: Step)
    ensures |Apply(ttl, w, step).acquired| >= |w.acquired|
  {
  }

  lemma {:induction false} AcquiredGrows(ttl: real, w: World, steps: seq<Step>)
    ensures |Run(ttl, w, steps).acquired| >= |w.acquired|
  {
    if steps != [] {
      AcquiredGrows(ttl, w, steps[..|steps| - 1]);
      StepAcquires(ttl, Run(ttl, w, steps[..|steps| - 1]), steps[|steps| - 1]);
    }
  }

  // ---- the wait always moves on ------------------------------------------------------------

  /** The earliest expiry among some leases, not before `now`. */
  lemma {:induction false} EarliestExpiry(leases: map<Lease, real>, keys: set<Lease>, bound: real) returns (e: real)
    requires keys <= leases.Keys
    ensures e <= bound && forall l :: l in keys ==> e <= leases[l]
    ensures e == bound || exists l :: l in keys && leases[l] == e
    decreases |keys|
  {
    if keys == {} {
      e := bound;
    } else {
      var k :| k in keys;
      e := EarliestExpiry(leases, keys - {k}, bound);
      if leases[k] < e { e := leases[k]; }
    }
  }

  lemma HealthyOne(ttl: real, w: World, a: Step, h: Node)
    requires HealthyStep(w, a, h)
    ensures HealthyRun(ttl, w, [a], h) && Run(ttl, w, [a]) == Apply(ttl, w, a)
  {
    assert [a][..0] == [];
    RunOne(ttl, w, a);
  }

  lemma HealthyTwo(ttl: real, w: World, a: Step, b: Step, h: Node)
    requires HealthyStep(w, a, h) && HealthyStep(Apply(ttl, w, a), b, h)
    ensures HealthyRun(ttl, w, [a, b], h) && Run(ttl, w, [a, b]) == Apply(ttl, Apply(ttl, w, a), b)
  {
    HealthyOne(ttl, w, a, h);
    HealthyOne(ttl, Apply(ttl, w, a), b, h);
    HealthyConcat(ttl, w, [a], [b], h);
    assert [a] + [b] == [a, b];
  }

  /** A node that has won acquires leadership with the next reply. */
  lemma WinnerAcquires(ttl: real, w: World, q: Node, h: Node) returns (steps: seq<Step>)
    requires q in w.nodes && w.nodes[q].phase.Won?
    ensures HealthyRun(ttl, w, steps, h) && |Run(ttl, w, steps).acquired| > |w.acquired|
  {
    steps := [LockReply(q, true)];
    HealthyOne(ttl, w, LockReply(q, true), h);
  }

  /** With the lock free, the candidate acquires leadership. */
  lemma GrantedAcquires(ttl: real, w: World, h: Node) returns (steps: seq<Step>)
    requires h in w.nodes && w.nodes[h].phase.Granted? && w.nodes[h].phase.lease in w.store.leases && w.store.lock.None?
    ensures HealthyRun(ttl, w, steps, h) && |Run(ttl, w, steps).acquired| > |w.acquired|
  {
    HealthyTwo(ttl, w, PutLock(h, true), LockReply(h, true), h);
    steps := [PutLock(h, true), LockReply(h, true)];
  }

  lemma IdleAcquires(ttl: real, w: World, h: Node) returns (steps: seq<Step>)
    requires h in w.nodes && w.nodes[h].phase.Idle? && w.store.lock.None?
    ensures HealthyRun(ttl, w, steps, h) && |Run(ttl, w, steps).acquired| > |w.acquired|
  {
    var g := Grant(h, true, true);
    HealthyOne(ttl, w, g, h);
    var rest := GrantedAcquires(ttl, Apply(ttl, w, g), h);
    HealthyConcat(ttl, w, [g], rest, h);
    steps := [g] + rest;
  }

  /** The candidate sleeps until `u`, nobody has won, and no lease is overdue. */
  ghost predicate Dozing(w: World, h: Node, u: real) {
    && h in w.nodes && w.nodes[h].phase == Backoff(u) && w.now <= u && !SomeoneWon(w)
    && (forall l :: l in w.store.leases ==> w.now <= w.store.leases[l])
  }

  /** The lock, if taken, carries a lease that is due by `u`. */
  predicate LockDueBy(s: Store, u: real) {
    s.lock.Some? ==> s.lock.value.lease in s.leases && s.leases[s.lock.value.lease] <= u
  }

  /** Time passes to the next expiry, and that lease goes. */
  lemma NextExpiry(ttl: real, w: World, h: Node, u: real, l: Lease)
    requires Dozing(w, h, u) && l in w.store.leases && w.store.leases[l] <= u
    requires forall k :: k in w.store.leases ==> w.store.leases[l] <= w.store.leases[k]
    ensures var a, b := Advance(w.store.leases[l] - w.now), Expire(l);
      var t := Apply(ttl, Apply(ttl, w, a), b);
      && HealthyStep(w, a, h) && HealthyStep(Apply(ttl, w, a), b, h)
      && Dozing(t, h, u) && t.store.leases == w.store.leases - {l} && t.acquired == w.acquired
      && (LockDueBy(w.store, u) ==> LockDueBy(t.store, u))
  {
    var a, b := Advance(w.store.leases[l] - w.now), Expire(l);
    var t := Apply(ttl, Apply(ttl, w, a), b);
    assert t.nodes == w.nodes;
    assert forall q :: q in w.nodes ==> !w.nodes[q].phase.Won?;
  }

  /** The candidate is about to campaign, nobody has won, and no lease is overdue. */
  ghost predicate Awake(w: World, h: Node) {
    && h in w.nodes && w.nodes[h].phase.Idle? && !SomeoneWon(w)
    && (forall l :: l in w.store.leases ==> w.now <= w.store.leases[l])
  }

  /** Nothing is due before `u`: the candidate sleeps on and wakes. */
  lemma SleepsOn(ttl: real, w: World, h: Node, u: real)
    requires Dozing(w, h, u) && forall l :: l in w.store.leases ==> u < w.store.leases[l]
    ensures var a, b := Advance(u - w.now), Wake(h);
      var t := Apply(ttl, Apply(ttl, w, a), b);
      && HealthyStep(w, a, h) && HealthyStep(Apply(ttl, w, a), b, h)
      && Awake(t, h) && t.acquired == w.acquired && (LockDueBy(w.store, u) ==> t.store.lock.None?)
  {
    assert forall q :: q in w.nodes ==> !w.nodes[q].phase.Won?;
  }

  /** The candidate wakes at its time; by then the lock is free if its lease was due. */
  lemma {:induction false} DozesToWake(ttl: real, w: World, h: Node, u: real) returns (steps: seq<Step>)
    requires Dozing(w, h, u)
    ensures HealthyRun(ttl, w, steps, h)
    ensures var t := Run(ttl, w, steps);
      Awake(t, h) && t.acquired == w.acquired && (LockDueBy(w.store, u) ==> t.store.lock.None?)
    decreases |w.store.leases|
  {
    if forall l :: l in w.store.leases ==> u < w.store.leases[l] {
      var a, b := Advance(u - w.now), Wake(h);
      SleepsOn(ttl, w, h, u);
      HealthyTwo(ttl, w, a, b, h);
      steps := [a, b];
    } else {
      var l := FirstDue(w.store.leases, u);
      var a, b := Advance(w.store.leases[l] - w.now), Expire(l);
      NextExpiry(ttl, w, h, u, l);
      HealthyTwo(ttl, w, a, b, h);
      var rest := DozesToWake(ttl, Run(ttl, w, [a, b]), h, u);
      HealthyConcat(ttl, w, [a, b], rest, h);
      steps := [a, b] + rest;
    }
  }

  lemma FirstDue(leases: map<Lease, real>, u: real) returns (l: Lease)
    requires exists k :: k in leases && leases[k] <= u
    ensures l in leases && leases[l] <= u && forall k :: k in leases ==> leases[l] <= leases[k]
  {
    var k :| k in leases && leases[k] <= u;
    var e := EarliestExpiry(leases, leases.Keys, leases[k]);
    l :| l in leases && leases[l] == e;
  }

  /** The candidate found the lock taken, gives its lease back and sleeps a whole ttl: by
      then the lease on the lock is due. */
  lemma LoserDozes(ttl: real, w: World, h: Node)
    requires ttl > 0.0 && StoreOk(ttl, w.now, w.store) && h in w.nodes && !SomeoneWon(w)
    requires w.nodes[h].phase.Lost? && (w.store.lock.Some? ==> w.store.lock.value.lease != w.nodes[h].phase.lease)
    requires forall l :: l in w.store.leases ==> w.now <= w.store.leases[l]
    ensures var t := Apply(ttl, w, RevokeLost(h, true));
      Dozing(t, h, w.now + ttl) && LockDueBy(t.store, w.now + ttl) && t.acquired == w.acquired
  {
    var t := Apply(ttl, w, RevokeLost(h, true));
    forall q | q in t.nodes ensures !t.nodes[q].phase.Won? { assert q in w.nodes; }
  }

  lemma LostAcquires(ttl: real, w: World, h: Node) returns (steps: seq<Step>)
    requires ttl > 0.0 && Inv(ttl, w) && h in w.nodes && w.nodes[h].phase.Lost? && !SomeoneWon(w)
    requires forall l :: l in w.store.leases ==> w.now <= w.store.leases[l]
    ensures HealthyRun(ttl, w, steps, h) && |Run(ttl, w, steps).acquired| > |w.acquired|
  {
    assert NodeOk(ttl, w.now, w.store, h, w.nodes[h]);
    var r := RevokeLost(h, true);
    LoserDozes(ttl, w, h);
    HealthyOne(ttl, w, r, h);
    var t := Apply(ttl, w, r);
    var doze := DozesToWake(ttl, t, h, w.now + ttl);
    var rest := IdleAcquires(ttl, Run(ttl, t, doze), h);
    HealthyConcat(ttl, t, doze, rest, h);
    HealthyConcat(ttl, w, [r], doze + rest, h);
    steps := [r] + (doze + rest);
  }

  /** The candidate tries a lock that is taken. */
  lemma FindsTaken(ttl: real, w: World, h: Node)
    requires h in w.nodes && w.nodes[h].phase.Granted? && w.store.lock.Some? && !SomeoneWon(w)
    ensures var t := Apply(ttl, w, PutLock(h, true));
      && h in t.nodes && t.nodes[h].phase.Lost? && !SomeoneWon(t)
      && t.store == w.store && t.now == w.now && t.acquired == w.acquired
  {
    var t := Apply(ttl, w, PutLock(h, true));
    forall q | q in t.nodes ensures !t.nodes[q].phase.Won? { assert q in w.nodes; }
  }

  /** From a fresh grant the candidate acquires leadership, at once or after one more wait. */
  lemma CandidateAcquires(ttl: real, w: World, h: Node) returns (steps: seq<Step>)
    requires ttl > 0.0 && Inv(ttl, w) && h in w.nodes && w.nodes[h].phase.Granted? && !SomeoneWon(w)
    requires w.nodes[h].phase.lease in w.store.leases
    requires forall l :: l in w.store.leases ==> w.now <= w.store.leases[l]
    ensures HealthyRun(ttl, w, steps, h) && |Run(ttl, w, steps).acquired| > |w.acquired|
  {
    if w.store.lock.None? {
      steps := GrantedAcquires(ttl, w, h);
    } else {
      var p := PutLock(h, true);
      FindsTaken(ttl, w, h);
      StepKeeps(ttl, w, p);
      HealthyOne(ttl, w, p, h);
      var rest := LostAcquires(ttl, Apply(ttl, w, p), h);
      HealthyConcat(ttl, w, [p], rest, h);
      steps := [p] + rest;
    }
  }

  lemma GetsLease(ttl: real, w: World, h: Node)
    requires ttl > 0.0 && Awake(w, h)
    ensures var t := Apply(ttl, w, Grant(h, true, true));
      && h in t.nodes && t.nodes[h].phase.Granted? && !SomeoneWon(t) && t.nodes[h].phase.lease in t.store.leases
      && t.acquired == w.acquired && forall l :: l in t.store.leases ==> t.now <= t.store.leases[l]
  {
    var t := Apply(ttl, w, Grant(h, true, true));
    forall q | q in t.nodes ensures !t.nodes[q].phase.Won? { assert q in w.nodes; }
  }

  lemma AwakeAcquires(ttl: real, w: World, h: Node) returns (steps: seq<Step>)
    requires ttl > 0.0 && Inv(ttl, w) && Awake(w, h)
    ensures HealthyRun(ttl, w, steps, h) && |Run(ttl, w, steps).acquired| > |w.acquired|
  {
    var g := Grant(h, true, true);
    GetsLease(ttl, w, h);
    StepKeeps(ttl, w, g);
    HealthyOne(ttl, w, g, h);
    var rest := CandidateAcquires(ttl, Apply(ttl, w, g), h);
    HealthyConcat(ttl, w, [g], rest, h);
    steps := [g] + rest;
  }

  /** The wait ends: from every consistent world in which the candidate is campaigning, some
      finite healthy run leads to an acquisition of leadership. */
  lemma HealthyRunsAcquire(ttl: real, w: World, h: Node) returns (steps: seq<Step>)
    requires ttl > 0.0 && Inv(ttl, w) && Campaigning(ttl, w, h)
    ensures HealthyRun(ttl, w, steps, h) && |Run(ttl, w, steps).acquired| > |w.acquired|
  {
    assert NodeOk(ttl, w.now, w.store, h, w.nodes[h]);
    if SomeoneWon(w) {
      var q :| q in w.nodes && w.nodes[q].phase.Won?;
      steps := WinnerAcquires(ttl, w, q, h);
    } else if w.nodes[h].phase.Idle? {
      steps := AwakeAcquires(ttl, w, h);
    } else if w.nodes[h].phase.Granted? {
      steps := CandidateAcquires(ttl, w, h);
    } else if w.nodes[h].phase.Lost? {
      steps := LostAcquires(ttl, w, h);
    } else {
      var doze := DozesToWake(ttl, w, h, w.nodes[h].phase.until);
      RunKeeps(ttl, w, doze);
      var rest := AwakeAcquires(ttl, Run(ttl, w, doze), h);
      HealthyConcat(ttl, w, doze, rest, h);
      steps := doze + rest;
    }
  }
}
