/** The election object and the singleton loop in the form the code has: a lease-id
    field set and cleared by acquire, renew and resign against an external store, and
    a loop that works only while it leads. */
module LeaderElection {
  import opened Wrappers
  import opened LeaderModel

  /** Which requests of one election call reach the store and which replies arrive. */
  datatype AcquireNet = AcquireNet(grantReached: bool, grantDelivered: bool,
                                   lockReached: bool, lockDelivered: bool, revokeReached: bool)
  datatype RenewNet = RenewNet(reached: bool, delivered: bool, revokeReached: bool)

  /** What an election call leaves: its verdict, the recorded lease id and the store. */
  datatype Left = Left(ok: bool, lease: Option<Lease>, store: Store)

  function Granting(ttl: real, now: real, s: Store): Store {
    s.(leases := s.leases[s.next := now + ttl], next := s.next + 1)
  }

  function Revoking(s: Store, l: Lease, reached: bool): Store {
    if reached then DropLease(s, l) else s
  }

  function AcquireResult(ttl: real, now: real, n: Node, s: Store, lease: Option<Lease>, net: AcquireNet): Left {
    if !net.grantReached then Left(false, lease, s)
    else
      var l, s1 := s.next, Granting(ttl, now, s);
      if !net.grantDelivered || !net.lockReached then Left(false, lease, s1)
      else if s.lock.Some? then Left(false, lease, Revoking(s1, l, net.revokeReached))
      else Left(net.lockDelivered, if net.lockDelivered then Some(l) else lease, s1.(lock := Some(Lock(n, l))))
  }

  function RenewResult(ttl: real, now: real, s: Store, lease: Option<Lease>, net: RenewNet): Left {
    if lease.None? then Left(false, None, s)
    else
      var alive := net.reached && lease.value in s.leases;
      var s1 := if alive then s.(leases := s.leases[lease.value := now + ttl]) else s;
      if alive && net.delivered then Left(true, lease, s1)
      else Left(false, None, Revoking(s1, lease.value, net.revokeReached))
  }

  /** The store's clock and contents, shared by all nodes. */
  class LeaseServer {
    var now: real
    var store: Store
  }

  class EtcdLeaderElection {
    const node: Node
    const ttl: real
    const server: LeaseServer
    var leaseId: Option<Lease>

    constructor (node: Node, ttl: real, server: LeaseServer)
      ensures this.node == node && this.ttl == ttl && this.server == server && leaseId.None?
    {
      this.node, this.ttl, this.server := node, ttl, server;
      leaseId := None;
    }

    method GrantLease(reached: bool, delivered: bool) returns (l: Option<Lease>)
      modifies server`store
      ensures server.store == if reached then Granting(ttl, server.now, old(server.store)) else old(server.store)
      ensures l == if reached && delivered then Some(old(server.store).next) else None
    {
      l := None;
      if reached {
        var id := server.store.next;
        server.store := server.store.(leases := server.store.leases[id := server.now + ttl], next := id + 1);
        if delivered { l := Some(id); }
      }
    }

    method Acquire(net: AcquireNet) returns (ok: bool)
      modifies this`leaseId, server`store
      ensures Left(ok, leaseId, server.store) ==
        AcquireResult(ttl, server.now, node, old(server.store), old(leaseId), net)
    {
      var l := GrantLease(net.grantReached, net.grantDelivered);
      if l.None? || !net.lockReached { return false; }
      if server.store.lock.None? {
        server.store := server.store.(lock := Some(Lock(node, l.value)));
        if net.lockDelivered { leaseId := l; }
        return net.lockDelivered;
      }
      if net.revokeReached { server.store := DropLease(server.store, l.value); }
      return false;
    }

    /** Forget the lease id first, then try to revoke the lease. */
    method Resign(revokeReached: bool)
      modifies this`leaseId, server`store
      ensures leaseId.None?
      ensures server.store == if old(leaseId).Some?
        then Revoking(old(server.store), old(leaseId).value, revokeReached) else old(server.store)
    {
      var l := leaseId;
      leaseId := None;
      if l.Some? && revokeReached {
        server.store := DropLease(server.store, l.value);
      }
    }

    method Renew(net: RenewNet) returns (ok: bool)
      modifies this`leaseId, server`store
      ensures Left(ok, leaseId, server.store) == RenewResult(ttl, server.now, old(server.store), old(leaseId), net)
    {
      if leaseId.None? { return false; }
      var alive := net.reached && leaseId.value in server.store.leases;
      if alive {
        server.store := server.store.(leases := server.store.leases[leaseId.value := server.now + ttl]);
      }
      if alive && net.delivered { return true; }
      Resign(net.revokeReached);
      return false;
    }
  }

  // ---- the calls are the protocol's steps --------------------------------------------

  /** The requests of one acquire call, in order; those not reached by the call's
      control flow are no-ops of the protocol. */
  function AcquireSteps(n: Node, net: AcquireNet): seq<Step> {
    [Grant(n, net.grantReached, net.grantDelivered), PutLock(n, net.lockReached),
     LockReply(n, net.lockDelivered), RevokeLost(n, net.revokeReached)]
  }

  function RenewSteps(n: Node, net: RenewNet): seq<Step> {
    [KeepAlive(n, net.reached), RenewReply(n, net.delivered), Revoke(n, net.revokeReached)]
  }

  /** An acquire call of an idle node is a run of the protocol: same store, same lease. */
  lemma AcquireIsProtocol(ttl: real, w: World, n: Node, net: AcquireNet)
    requires n in w.nodes && w.nodes[n].phase.Idle? && w.nodes[n].lease.None?
    ensures var (w', left) := (Run(ttl, w, AcquireSteps(n, net)), AcquireResult(ttl, w.now, n, w.store, None, net));
      && n in w'.nodes && w'.store == left.store && w'.nodes[n].lease == left.lease
      && left.ok == w'.nodes[n].phase.Leading?
      && (!left.ok ==> w'.nodes[n].phase == Backoff(w.now + ttl))
  {
    FourSteps(ttl, w, Grant(n, net.grantReached, net.grantDelivered), PutLock(n, net.lockReached),
              LockReply(n, net.lockDelivered), RevokeLost(n, net.revokeReached));
  }

  /** So is a renew call of a leader that has done its work. */
  lemma RenewIsProtocol(ttl: real, w: World, n: Node, net: RenewNet)
    requires n in w.nodes && w.nodes[n].phase.Worked? && w.nodes[n].lease.Some?
    ensures var w' := Run(ttl, w, RenewSteps(n, net));
      var left := RenewResult(ttl, w.now, w.store, w.nodes[n].lease, net);
      && n in w'.nodes && w'.store == left.store && w'.nodes[n].lease == left.lease
      && left.ok == w'.nodes[n].phase.Sleeping?
      && (!left.ok ==> w'.nodes[n].phase.Idle?)
  {
    ThreeSteps(ttl, w, KeepAlive(n, net.reached), RenewReply(n, net.delivered), Revoke(n, net.revokeReached));
  }

  /** A stopped node, leading or not, is down after its last revoke, whether that reached the
      store or not, and holds no lease. */
  lemma StopEnds(ttl: real, w: World, n: Node, reached: bool)
    requires n in w.nodes && (w.nodes[n].lease.None? <==> w.nodes[n].phase.Idle? || w.nodes[n].phase.Backoff?)
    ensures var w' := Apply(ttl, Apply(ttl, w, Stop(n)), Revoke(n, reached));
      n in w'.nodes && w'.nodes[n].phase.Down? && w'.nodes[n].lease.None?
  {
  }

  lemma ThreeSteps(ttl: real, w: World, a: Step, b: Step, c: Step)
    ensures Run(ttl, w, [a, b, c]) == Apply(ttl, Apply(ttl, Apply(ttl, w, a), b), c)
  {
    assert [a, b, c][..2] == [a, b] && [a, b][..1] == [a] && [a][..0] == [];
    assert Run(ttl, w, [a]) == Apply(ttl, Run(ttl, w, []), a);
    assert Run(ttl, w, [a, b]) == Apply(ttl, Run(ttl, w, [a]), b);
  }

  lemma FourSteps(ttl: real, w: World, a: Step, b: Step, c: Step, d: Step)
    ensures Run(ttl, w, [a, b, c, d]) == Apply(ttl, Apply(ttl, Apply(ttl, Apply(ttl, w, a), b), c), d)
  {
    assert [a, b, c, d][..3] == [a, b, c];
    ThreeSteps(ttl, w, a, b, c);
  }

  // ---- the singleton loop ---------------------------------------------------------

  /** What the loop does that others can see: leadership changes it audits, and ticks. */
  datatype Action = LeaderChanged(leader: bool) | Tick

  /** Whether the trace leaves its node leader; `None` when the trace is not one a
      singleton may produce: a tick outside leadership, or a change to what already holds. */
  function LeaderAfter(trace: seq<Action>): Option<bool> {
    if trace == [] then Some(false)
    else
      var before := LeaderAfter(trace[..|trace| - 1]);
      match trace[|trace| - 1]
      case LeaderChanged(leader) => if before == Some(!leader) then Some(leader) else None
      case Tick => if before == Some(true) then before else None
  }

  lemma LeaderAfterAppend(trace: seq<Action>, a: Action)
    ensures LeaderAfter(trace + [a]) ==
      match a
      case LeaderChanged(leader) => if LeaderAfter(trace) == Some(!leader) then Some(leader) else None
      case Tick => if LeaderAfter(trace) == Some(true) then Some(true) else None
  {
    assert (trace + [a])[..|trace + [a]| - 1] == trace;
  }

  /** The store as a call finds it: what time it is and what other nodes made of it. */
  datatype Instant = Instant(now: real, store: Store)

  /** One turn of the loop: where its two calls find the store, and the network's behaviour
      towards them. */
  datatype Round = Round(acquireAt: Instant, acquire: AcquireNet, renewAt: Instant, renew: RenewNet)

  /** The loop's trace and lease id. */
  datatype Loop = Loop(trace: seq<Action>, lease: Option<Lease>)

  /** The first half of a turn: campaign if need be, then work, if leading. */
  function Begun(ttl: real, n: Node, before: Loop, r: Round): Loop {
    if before.lease.Some? then Loop(before.trace + [Tick], before.lease)
    else
      var campaign := AcquireResult(ttl, r.acquireAt.now, n, r.acquireAt.store, None, r.acquire);
      if campaign.ok then Loop(before.trace + [LeaderChanged(true)] + [Tick], campaign.lease) else before
  }

  function Turn(ttl: real, n: Node, before: Loop, r: Round): Loop {
    var begun := Begun(ttl, n, before, r);
    if begun.lease.None? then begun
    else
      var renewal := RenewResult(ttl, r.renewAt.now, r.renewAt.store, begun.lease, r.renew);
      Loop(if renewal.ok then begun.trace else begun.trace + [LeaderChanged(false)], renewal.lease)
  }

  function Turns(ttl: real, n: Node, rounds: seq<Round>): Loop {
    if rounds == [] then Loop([], None)
    else Turn(ttl, n, Turns(ttl, n, rounds[..|rounds| - 1]), rounds[|rounds| - 1])
  }

  /** Where a task is cancelled in its last turn: while it works or renews, or while it
      writes the audit record of a change, which may or may not get written. */
  datatype Cut = AtWork(r: Round) | InGain(r: Round, written: bool) | InLoss(r: Round, written: bool)

  /** The cancelled turn gains leadership. */
  predicate Gains(ttl: real, n: Node, before: Loop, r: Round) {
    before.lease.None? && Begun(ttl, n, before, r).lease.Some?
  }

  /** The cancelled turn loses leadership. */
  predicate Loses(ttl: real, n: Node, before: Loop, r: Round) {
    Begun(ttl, n, before, r).lease.Some? && Turn(ttl, n, before, r).lease.None?
  }

  /** What the loop has done when it is cut; a cut at a record that is not written in that
      turn comes while it works. */
  function Interrupted(ttl: real, n: Node, before: Loop, cut: Cut): Loop {
    var begun := Begun(ttl, n, before, cut.r);
    match cut
    case AtWork(_) => begun
    case InGain(r, written) =>
      if !Gains(ttl, n, before, r) then begun
      else Loop(if written then before.trace + [LeaderChanged(true)] else before.trace, begun.lease)
    case InLoss(r, written) =>
      if !Loses(ttl, n, before, r) then begun
      else Loop(if written then begun.trace + [LeaderChanged(false)] else begun.trace, None)
  }

  /** The loop ends: stopped at its head, or cut; a node that then leads resigns. */
  function Finished(ttl: real, n: Node, l: Loop, cut: Option<Cut>): seq<Action> {
    var last := if cut.Some? then Interrupted(ttl, n, l, cut.value) else l;
    if last.lease.Some? then last.trace + [LeaderChanged(false)] else last.trace
  }

  /** The cut falls on the record of a change and the record is not written. */
  predicate LosesRecord(ttl: real, n: Node, l: Loop, cut: Option<Cut>) {
    cut.Some? && match cut.value
      case AtWork(_) => false
      case InGain(r, written) => Gains(ttl, n, l, r) && !written
      case InLoss(r, written) => Loses(ttl, n, l, r) && !written
  }

  /** The trace is a singleton's and leaves it leader exactly if it has a lease id. */
  predicate Orderly(l: Loop) {
    LeaderAfter(l.trace) == Some(l.lease.Some?)
  }

  lemma BegunIsOrderly(ttl: real, n: Node, before: Loop, r: Round)
    requires Orderly(before)
    ensures Orderly(Begun(ttl, n, before, r))
  {
    LeaderAfterAppend(before.trace, LeaderChanged(true));
    LeaderAfterAppend(before.trace, Tick);
    LeaderAfterAppend(before.trace + [LeaderChanged(true)], Tick);
  }

  lemma TurnIsOrderly(ttl: real, n: Node, before: Loop, r: Round)
    requires Orderly(before)
    ensures Orderly(Turn(ttl, n, before, r))
  {
    BegunIsOrderly(ttl, n, before, r);
    LeaderAfterAppend(Begun(ttl, n, before, r).trace, LeaderChanged(false));
  }

  lemma {:induction false} TurnsAreOrderly(ttl: real, n: Node, rounds: seq<Round>)
    ensures Orderly(Turns(ttl, n, rounds))
  {
    if rounds != [] {
      TurnsAreOrderly(ttl, n, rounds[..|rounds| - 1]);
      TurnIsOrderly(ttl, n, Turns(ttl, n, rounds[..|rounds| - 1]), rounds[|rounds| - 1]);
    }
  }

  lemma CutExactly(ttl: real, n: Node, l: Loop, cut: Cut)
    requires Orderly(l)
    ensures LeaderAfter(Finished(ttl, n, l, Some(cut))) == Some(false) <==> !LosesRecord(ttl, n, l, Some(cut))
  {
    var begun := Begun(ttl, n, l, cut.r);
    BegunIsOrderly(ttl, n, l, cut.r);
    LeaderAfterAppend(l.trace, LeaderChanged(true));
    LeaderAfterAppend(l.trace, LeaderChanged(false));
    LeaderAfterAppend(l.trace + [LeaderChanged(true)], LeaderChanged(false));
    LeaderAfterAppend(begun.trace, LeaderChanged(false));
  }

  function Ticks(trace: seq<Action>): nat {
    if trace == [] then 0 else Ticks(trace[..|trace| - 1]) + if trace[|trace| - 1].Tick? then 1 else 0
  }

  lemma TicksAppend(trace: seq<Action>, a: Action)
    ensures Ticks(trace + [a]) == Ticks(trace) + if a.Tick? then 1 else 0
  {
    assert (trace + [a])[..|trace + [a]| - 1] == trace;
  }

  /** The turns that are spent in leadership: those that start with it or gain it. */
  function TurnsLed(ttl: real, n: Node, rounds: seq<Round>): nat {
    if rounds == [] then 0
    else
      var before, r := rounds[..|rounds| - 1], rounds[|rounds| - 1];
      var l := Turns(ttl, n, before);
      TurnsLed(ttl, n, before) +
        if l.lease.Some? || AcquireResult(ttl, r.acquireAt.now, n, r.acquireAt.store, None, r.acquire).ok then 1 else 0
  }

  lemma TurnTicks(ttl: real, n: Node, l: Loop, r: Round)
    ensures Ticks(Turn(ttl, n, l, r).trace) == Ticks(l.trace) +
      if l.lease.Some? || AcquireResult(ttl, r.acquireAt.now, n, r.acquireAt.store, None, r.acquire).ok then 1 else 0
  {
    BegunTicks(ttl, n, l, r);
    RenewalTicks(ttl, n, l, r);
  }

  lemma RenewalTicks(ttl: real, n: Node, l: Loop, r: Round)
    ensures Ticks(Turn(ttl, n, l, r).trace) == Ticks(Begun(ttl, n, l, r).trace)
  {
    TicksAppend(Begun(ttl, n, l, r).trace, LeaderChanged(false));
  }

  lemma BegunTicks(ttl: real, n: Node, l: Loop, r: Round)
    ensures Ticks(Begun(ttl, n, l, r).trace) == Ticks(l.trace) +
      if l.lease.Some? || AcquireResult(ttl, r.acquireAt.now, n, r.acquireAt.store, None, r.acquire).ok then 1 else 0
  {
    TicksAppend(l.trace, Tick);
    TicksAppend(l.trace, LeaderChanged(true));
    TicksAppend(l.trace + [LeaderChanged(true)], Tick);
  }

  /** A leader works: the loop ticks exactly once in every turn it leads, and in no other. */
  lemma {:induction false} TicksExactly(ttl: real, n: Node, rounds: seq<Round>)
    ensures Ticks(Turns(ttl, n, rounds).trace) == TurnsLed(ttl, n, rounds)
  {
    if rounds != [] {
      TicksExactly(ttl, n, rounds[..|rounds| - 1]);
      TurnTicks(ttl, n, Turns(ttl, n, rounds[..|rounds| - 1]), rounds[|rounds| - 1]);
    }
  }

  /** However the store and the network behave between and during the calls: a node ticks
      only while it leads, and the trace records every change of leadership once and ends
      without leadership, stopped or cancelled, if and only if the cancellation does not
      fall on an audit record that is then not written. */
  lemma LoopIsOrderly(ttl: real, n: Node, rounds: seq<Round>, cut: Option<Cut>)
    ensures var l := Turns(ttl, n, rounds);
      Orderly(l) && (LeaderAfter(Finished(ttl, n, l, cut)) == Some(false) <==> !LosesRecord(ttl, n, l, cut))
  {
    var l := Turns(ttl, n, rounds);
    TurnsAreOrderly(ttl, n, rounds);
    LeaderAfterAppend(l.trace, LeaderChanged(false));
    if cut.Some? { CutExactly(ttl, n, l, cut.value); }
  }

  /** Campaign if need be; work if leading. */
  method BeginTurn(e: EtcdLeaderElection, round: Round, leading: bool, trace: seq<Action>)
    returns (isLeader: bool, after: seq<Action>)
    requires leading == e.leaseId.Some?
    modifies e, e.server
    ensures isLeader == e.leaseId.Some?
    ensures Loop(after, e.leaseId) == Begun(e.ttl, e.node, Loop(trace, old(e.leaseId)), round)
  {
    isLeader, after := leading, trace;
    if !isLeader {
      e.server.now, e.server.store := round.acquireAt.now, round.acquireAt.store;
      isLeader := e.Acquire(round.acquire);
      if !isLeader { return; }
      after := after + [LeaderChanged(true)];
    }
    after := after + [Tick];
  }

  /** The body of the loop. */
  method OneTurn(e: EtcdLeaderElection, round: Round, leading: bool, trace: seq<Action>)
    returns (isLeader: bool, after: seq<Action>)
    requires leading == e.leaseId.Some?
    modifies e, e.server
    ensures isLeader == e.leaseId.Some?
    ensures Loop(after, e.leaseId) == Turn(e.ttl, e.node, Loop(trace, old(e.leaseId)), round)
  {
    isLeader, after := BeginTurn(e, round, leading, trace);
    if isLeader {
      e.server.now, e.server.store := round.renewAt.now, round.renewAt.store;
      isLeader := e.Renew(round.renew);
      if !isLeader { after := after + [LeaderChanged(false)]; }
    }
  }

  /** The last, cancelled turn. */
  method CutTurn(e: EtcdLeaderElection, cut: Cut, leading: bool, trace: seq<Action>)
    returns (isLeader: bool, after: seq<Action>)
    requires leading == e.leaseId.Some?
    modifies e, e.server
    ensures isLeader == e.leaseId.Some?
    ensures Loop(after, e.leaseId) == Interrupted(e.ttl, e.node, Loop(trace, old(e.leaseId)), cut)
  {
    isLeader, after := BeginTurn(e, cut.r, leading, trace);
    match cut
    case AtWork(_) =>
    case InGain(r, written) =>
      if !leading && isLeader { after := if written then trace + [LeaderChanged(true)] else trace; }
    case InLoss(r, written) =>
      if isLeader {
        e.server.now, e.server.store := r.renewAt.now, r.renewAt.store;
        isLeader := e.Renew(r.renew);
        if !isLeader && written {
          after := after + [LeaderChanged(false)];
        }
      }
  }

  /** `stop` is set after |rounds| turns, or the coroutine is cancelled in one more; on exit the
      node holds no lease id. */
  method RunAsSingleton(e: EtcdLeaderElection, rounds: seq<Round>, cut: Option<Cut>, lastRevoke: bool)
    returns (trace: seq<Action>)
    requires e.leaseId.None?
    modifies e, e.server
    ensures e.leaseId.None?
    ensures trace == Finished(e.ttl, e.node, Turns(e.ttl, e.node, rounds), cut)
  {
    trace := [];
    var isLeader := false;
    var i := 0;
    while i < |rounds|
      invariant i <= |rounds|
      invariant isLeader == e.leaseId.Some?
      invariant Loop(trace, e.leaseId) == Turns(e.ttl, e.node, rounds[..i])
    {
      assert rounds[..i + 1][..i] == rounds[..i];
      isLeader, trace := OneTurn(e, rounds[i], isLeader, trace);
      i := i + 1;
    }
    assert rounds[..i] == rounds;
    if cut.Some? { isLeader, trace := CutTurn(e, cut.value, isLeader, trace); }
    if isLeader {
      e.Resign(lastRevoke);
      trace := trace + [LeaderChanged(false)];
    }
  }
}
