/** Leader election over a lease store, with the singleton loop of every node
    (server/bbz_core/infra/leader.py, server/bbz_core/workers/singleton.py).

    N nodes share one linearizable lease store. Every request is split into the
    moment the store serves it and the moment its reply arrives; requests and
    replies can be lost, nodes can crash, and time passes in between. */
module LeaderModel {
  import opened Wrappers

  type Node = nat
  type Lease = nat

  /** Where a node is in `run_as_singleton` and the election call it is making. */
  datatype Phase =
    | Idle                             // not leader, about to campaign
    | Granted(lease: Lease)            // lease granted, lock not yet attempted
    | Won(lease: Lease)                // lock put at the store, reply under way
    | Lost(lease: Lease)               // lock held by another, own lease to be revoked
    | Backoff(until: real)             // sleeping after a failed campaign
    | Leading                          // leader, about to run a tick
    | Working(since: real)             // inside a tick
    | Worked                           // tick done, about to renew
    | Renewed(ok: bool)                // keepalive served (or lost), reply under way
    | Sleeping(until: real)            // leader, between ticks
    | Resigning(lease: Lease, final: bool)  // lease forgotten, revoke under way
    | Down                             // crashed or stopped

  /** `lease` is the recorded `_lease_id`; `confirmed` is the store time of the grant
      or renewal that last confirmed the lease the node is using. */
  datatype NodeState = NodeState(phase: Phase, lease: Option<Lease>, confirmed: real)

  datatype Lock = Lock(holder: Node, lease: Lease)

  /** Leases with their expiry, the lock key with its lease, and the next fresh lease id. */
  datatype Store = Store(leases: map<Lease, real>, lock: Option<Lock>, next: Lease)

  /** `acquired` is the log of leadership acquisitions with their times. */
  datatype World = World(now: real, store: Store, nodes: map<Node, NodeState>,
                         acquired: seq<(Node, real)>)

  datatype Step =
    | Advance(d: real)
    | Expire(l: Lease)
    | Grant(n: Node, reached: bool, delivered: bool)
    | PutLock(n: Node, reached: bool)
    | LockReply(n: Node, delivered: bool)
    | RevokeLost(n: Node, reached: bool)
    | Wake(n: Node)
    | StartWork(n: Node)
    | EndWork(n: Node)
    | KeepAlive(n: Node, reached: bool)
    | RenewReply(n: Node, delivered: bool)
    | Revoke(n: Node, reached: bool)
    | Stop(n: Node)
    | Crash(n: Node)
    | Restart(n: Node)

  /** A lease ends: the lock attached to it goes with it. */
  function DropLease(s: Store, l: Lease): Store {
    s.(leases := s.leases - {l},
       lock := if s.lock.Some? && s.lock.value.lease == l then None else s.lock)
  }

  /** Seconds between renewals: max(1, ttl/3). */
  function RenewEvery(ttl: real): real {
    if ttl / 3.0 < 1.0 then 1.0 else ttl / 3.0
  }

  function At(w: World, n: Node, ns: NodeState): World
    requires n in w.nodes
  {
    w.(nodes := w.nodes[n := ns])
  }

  function Go(w: World, n: Node, p: Phase): World
    requires n in w.nodes
  {
    At(w, n, w.nodes[n].(phase := p))
  }

  /** The node a step belongs to, if any. */
  function NodeOf(step: Step): Option<Node> {
    if step.Advance? || step.Expire? then None else Some(step.n)
  }

  /** One step of the world; a step that is not enabled changes nothing. */
  function Apply(ttl: real, w: World, step: Step): World {
    match step
    case Advance(d) => if d >= 0.0 then w.(now := w.now + d) else w
    case Expire(l) =>
      if l in w.store.leases && w.store.leases[l] <= w.now then w.(store := DropLease(w.store, l)) else w
    case _ => if step.n in w.nodes then ApplyNode(ttl, w, step) else w
  }

  function ApplyNode(ttl: real, w: World, step: Step): World
    requires !step.Advance? && !step.Expire? && step.n in w.nodes
  {
    var ns := w.nodes[step.n];
    match step
    case Advance(_) => w
    case Expire(_) => w
    case Grant(n, reached, delivered) =>
      if !ns.phase.Idle? then w
      else if !reached then Go(w, n, Backoff(w.now + ttl))
      else
        var l := w.store.next;
        var w1 := w.(store := w.store.(leases := w.store.leases[l := w.now + ttl], next := l + 1));
        if delivered then At(w1, n, NodeState(Granted(l), ns.lease, w.now))
        else Go(w1, n, Backoff(w.now + ttl))
    case PutLock(n, reached) =>
      if !ns.phase.Granted? then w
      else
        var l := ns.phase.lease;
        if reached && w.store.lock.Some? then Go(w, n, Lost(l))
        else if reached && l in w.store.leases then
          Go(w.(store := w.store.(lock := Some(Lock(n, l)))), n, Won(l))
        else Go(w, n, Backoff(w.now + ttl))
    case LockReply(n, delivered) =>
      if !ns.phase.Won? then w
      else if delivered then
        At(w.(acquired := w.acquired + [(n, w.now)]), n, NodeState(Leading, Some(ns.phase.lease), ns.confirmed))
      else Go(w, n, Backoff(w.now + ttl))
    case RevokeLost(n, reached) =>
      if !ns.phase.Lost? then w
      else Go(if reached then w.(store := DropLease(w.store, ns.phase.lease)) else w, n, Backoff(w.now + ttl))
    case Wake(n) =>
      if ns.phase.Backoff? && ns.phase.until <= w.now then Go(w, n, Idle)
      else if ns.phase.Sleeping? && ns.phase.until <= w.now then Go(w, n, Leading)
      else w
    case StartWork(n) => if ns.phase.Leading? then Go(w, n, Working(w.now)) else w
    case EndWork(n) => if ns.phase.Working? then Go(w, n, Worked) else w
    case KeepAlive(n, reached) =>
      if !ns.phase.Worked? || ns.lease.None? then w
      else if reached && ns.lease.value in w.store.leases then
        At(w.(store := w.store.(leases := w.store.leases[ns.lease.value := w.now + ttl])),
           n, NodeState(Renewed(true), ns.lease, w.now))
      else Go(w, n, Renewed(false))
    case RenewReply(n, delivered) =>
      if !ns.phase.Renewed? || ns.lease.None? then w
      else if ns.phase.ok && delivered then Go(w, n, Sleeping(w.now + RenewEvery(ttl)))
      else At(w, n, NodeState(Resigning(ns.lease.value, false), None, ns.confirmed))
    case Revoke(n, reached) =>
      if !ns.phase.Resigning? then w
      else Go(if reached then w.(store := DropLease(w.store, ns.phase.lease)) else w,
              n, if ns.phase.final then Down else Idle)
    case Stop(n) =>
      if ns.phase.Idle? || ns.phase.Backoff? then Go(w, n, Down)
      else if ns.lease.Some? then
        At(w, n, NodeState(Resigning(ns.lease.value, true), None, ns.confirmed))
      else w
    case Crash(n) => At(w, n, NodeState(Down, None, ns.confirmed))
    case Restart(n) => if ns.phase.Down? then Go(w, n, Idle) else w
  }

  function Run(ttl: real, w: World, steps: seq<Step>): World {
    if steps == [] then w
    else Apply(ttl, Run(ttl, w, steps[..|steps| - 1]), steps[|steps| - 1])
  }

  /** All nodes started, nothing granted. */
  function Start(nodes: set<Node>): World {
    World(0.0, Store(map[], None, 0), map n | n in nodes :: NodeState(Idle, None, 0.0), [])
  }
}
