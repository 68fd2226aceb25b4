/** What every run of the SIP call controller keeps. */
module SipSafety {
  import opened Wrappers
  import opened SipEvents
  import opened SipModel

  ghost predicate Injective(m: map<string, string>) {
    forall a, b :: a in m && b in m && m[a] == m[b] ==> a == b
  }

  predicate Owns(legs: map<string, string>, call: string, leg: string) {
    call in legs && legs[call] == leg
  }

  /** Bridged calls are the calls with an operator leg, every registered operator
      channel belongs to a call, and legs and bridges are never shared. */
  ghost predicate LegsMatchBridges(bridges: map<string, string>, legs: map<string, string>,
                                   registered: set<string>)
  {
    && bridges.Keys == legs.Keys
    && Injective(bridges)
    && Injective(legs)
    && (forall leg :: leg in registered ==> exists call :: Owns(legs, call, leg))
  }

  /** A leg waiting to join a bridge is registered and waits for its owner's bridge. */
  ghost predicate PendingLegsOwned(pending: map<string, string>, bridges: map<string, string>,
                                   legs: map<string, string>, registered: set<string>)
  {
    forall leg :: leg in pending ==>
      && leg in registered
      && forall call :: Owns(legs, call, leg) ==> call in bridges && bridges[call] == pending[leg]
  }

  /** Per-call bookkeeping mentions tracked calls only; music holds bridged calls only. */
  ghost predicate OnlyTracked(c: Calls) {
    && c.directions.Keys <= c.channels.Keys
    && c.lines.Keys <= c.channels.Keys
    && c.bridges.Keys <= c.channels.Keys
    && c.pendingDials.Keys <= c.channels.Keys
    && c.ringMusic <= c.channels.Keys
    && c.heldByMusic <= c.bridges.Keys
  }

  /** Every operator bridge ever created is recorded for a call, or was destroyed,
      or was left behind by a gateway failure: exactly one of the three. */
  ghost predicate BridgesConserved(bridges: map<string, string>, g: Gateway) {
    && g.created == bridges.Values + g.destroyed + g.stranded
    && bridges.Values !! g.destroyed !! g.stranded
  }

  ghost predicate Inv(c: Calls) {
    && LegsMatchBridges(c.bridges, c.operatorLegs, c.operatorChannels)
    && PendingLegsOwned(c.pendingBridges, c.bridges, c.operatorLegs, c.operatorChannels)
    && OnlyTracked(c)
    && BridgesConserved(c.bridges, c.gateway)
    && c.operatorLegs.Values <= c.gateway.legs.Keys
  }

  // ---- maps losing or gaining one call ----------------------------------------

  lemma ValuesWithout(m: map<string, string>, k: string)
    requires k in m && Injective(m)
    ensures m.Values == (m - {k}).Values + {m[k]} && m[k] !in (m - {k}).Values
  {
    forall v | v in m.Values ensures v in (m - {k}).Values + {m[k]} {
      var c :| c in m && m[c] == v;
      assert c != k ==> c in m - {k} && (m - {k})[c] == v;
    }
  }

  lemma ValuesWith(m: map<string, string>, k: string, v: string)
    requires k !in m
    ensures m[k := v].Values == m.Values + {v}
  {
    var n := m[k := v];
    assert k in n && n[k] == v;
    forall w | w in m.Values ensures w in n.Values {
      var c :| c in m && m[c] == w;
      assert c in n && n[c] == w;
    }
  }

  lemma DropsLeg(bridges: map<string, string>, legs: map<string, string>, registered: set<string>, call: string)
    requires LegsMatchBridges(bridges, legs, registered) && call in legs
    ensures LegsMatchBridges(bridges - {call}, legs - {call}, registered - {legs[call]})
  {
    forall leg | leg in registered - {legs[call]}
      ensures exists c :: Owns(legs - {call}, c, leg)
    {
      var c :| Owns(legs, c, leg);
      assert Owns(legs - {call}, c, leg);
    }
  }

  lemma DropPending(pending: map<string, string>, bridges: map<string, string>,
                    legs: map<string, string>, registered: set<string>, call: string)
    requires PendingLegsOwned(pending, bridges, legs, registered)
    requires call in legs && Injective(legs)
    ensures PendingLegsOwned(pending - {legs[call]}, bridges - {call}, legs - {call}, registered - {legs[call]})
  {
    forall leg, c | leg in pending - {legs[call]} && Owns(legs - {call}, c, leg)
      ensures c in bridges - {call} && (bridges - {call})[c] == pending[leg]
    {
      assert Owns(legs, c, leg);
    }
  }

  lemma AddLeg(bridges: map<string, string>, legs: map<string, string>, registered: set<string>,
               call: string, bridge: string, leg: string)
    requires LegsMatchBridges(bridges, legs, registered)
    requires call !in legs && bridge !in bridges.Values && leg !in legs.Values
    ensures LegsMatchBridges(bridges[call := bridge], legs[call := leg], registered + {leg})
  {
    var newLegs := legs[call := leg];
    assert Owns(newLegs, call, leg);
    forall l | l in registered + {leg} ensures exists c :: Owns(newLegs, c, l) {
      if l != leg {
        var c :| Owns(legs, c, l);
        assert Owns(newLegs, c, l);
      }
    }
    assert Injective(newLegs) by { Extended(legs, call, leg); }
    assert Injective(bridges[call := bridge]) by { Extended(bridges, call, bridge); }
  }

  lemma Extended(m: map<string, string>, k: string, v: string)
    requires Injective(m) && k !in m && v !in m.Values
    ensures Injective(m[k := v])
  {
    forall a | a in m ensures m[a] != v { assert m[a] in m.Values; }
  }

  lemma AddPending(pending: map<string, string>, bridges: map<string, string>, legs: map<string, string>,
                   registered: set<string>, call: string, bridge: string, leg: string)
    requires PendingLegsOwned(pending, bridges, legs, registered)
    requires call !in legs && leg !in legs.Values
    requires forall l :: l in registered ==> exists c :: Owns(legs, c, l)
    ensures PendingLegsOwned(pending[leg := bridge], bridges[call := bridge], legs[call := leg], registered + {leg})
  {
    var newLegs := legs[call := leg];
    forall l, c | l in pending[leg := bridge] && Owns(newLegs, c, l)
      ensures c in bridges[call := bridge] && bridges[call := bridge][c] == pending[leg := bridge][l]
    {
      if c == call {
      } else {
        assert Owns(legs, c, l);
        assert legs[c] in legs.Values;
      }
    }
  }

  // ---- every step keeps the invariant -------------------------------------------

  lemma TeardownKeeps(c: Calls, call: string, destroy: Reply<()>)
    requires Inv(c.(channels := c.channels[call := ""]))
    requires call !in c.heldByMusic && call !in c.directions && call !in c.lines && call !in c.ringMusic
    requires call !in c.channels
    ensures Inv(TeardownBridge(c, call, destroy))
  {
    if call in c.operatorLegs {
      DropsLeg(c.bridges, c.operatorLegs, c.operatorChannels, call);
      DropPending(c.pendingBridges, c.bridges, c.operatorLegs, c.operatorChannels, call);
      ValuesWithout(c.bridges, call);
      ValuesWithout(c.operatorLegs, call);
    }
  }

  lemma ForgetKeeps(c: Calls, call: string, destroy: Reply<()>)
    requires Inv(c)
    ensures Inv(Forget(c, call, destroy))
  {
    TeardownKeeps(Untracked(c, call), call, destroy);
  }

  lemma ConservedWith(bridges: map<string, string>, g: Gateway, call: string, bridge: string, g': Gateway)
    requires BridgesConserved(bridges, g) && call !in bridges && bridge !in g.created
    requires g'.created == g.created + {bridge} && g'.destroyed == g.destroyed && g'.stranded == g.stranded
    ensures BridgesConserved(bridges[call := bridge], g')
  {
    ValuesWith(bridges, call, bridge);
  }

  lemma BridgedKeeps(c: Calls, call: string, key: string, bridge: string, leg: string)
    requires Inv(c) && call in c.channels && call !in c.bridges
    requires bridge !in c.gateway.created && leg !in c.gateway.legs
    ensures Inv(Bridged(c, call, key, bridge, leg))
  {
    AddLeg(c.bridges, c.operatorLegs, c.operatorChannels, call, bridge, leg);
    AddPending(c.pendingBridges, c.bridges, c.operatorLegs, c.operatorChannels, call, bridge, leg);
    ConservedWith(c.bridges, c.gateway, call, bridge, Bridged(c, call, key, bridge, leg).gateway);
    ValuesWith(c.operatorLegs, call, leg);
  }

  lemma StrandedKeeps(c: Calls, bridge: string)
    requires Inv(c) && bridge !in c.gateway.created
    ensures Inv(Stranded(c, bridge))
  {
  }

  lemma BridgeKeeps(c: Calls, call: string, key: string, r: BridgeReplies)
    requires Inv(c) && Fresh(c, r)
    ensures Inv(BridgeOperator(c, call, key, r).0)
  {
    if call in c.channels && call !in c.bridges && r.create.Ok? {
      StrandedKeeps(c, r.create.value);
      if r.originate.Ok? && r.originate.value.Some? {
        BridgedKeeps(c, call, key, r.create.value, r.originate.value.value);
      }
    }
  }

  lemma OperatorLegKeeps(c: Calls, kind: string, channel: string, join: Reply<()>)
    requires Inv(c)
    ensures Inv(OperatorLeg(c, kind, channel, join))
  {
    JoinedKeeps(c, channel, OperatorLeg(c, "StasisStart", channel, join).gateway.members);
    LegEndedKeeps(c, channel);
  }

  lemma JoinedKeeps(c: Calls, channel: string, members: set<Member>)
    requires Inv(c)
    ensures Inv(c.(pendingBridges := c.pendingBridges - {channel}, gateway := c.gateway.(members := members)))
  {
  }

  lemma LegEndedKeeps(c: Calls, channel: string)
    requires Inv(c)
    ensures Inv(c.(operatorChannels := c.operatorChannels - {channel},
                   pendingBridges := c.pendingBridges - {channel}))
  {
  }

  /** Tracking an event issues no bridge and no leg. */
  lemma TrackIssuesNothing(c: Calls, e: CallEvent, destroy: Reply<()>)
    ensures Track(c, e, destroy).gateway.created == c.gateway.created
    ensures Track(c, e, destroy).gateway.legs == c.gateway.legs
  {
    if e.callId.Some? { TeardownIssuesNothing(Untracked(c, e.callId.value), e.callId.value, destroy); }
  }

  lemma TeardownIssuesNothing(c: Calls, call: string, destroy: Reply<()>)
    ensures TeardownBridge(c, call, destroy).gateway.created == c.gateway.created
    ensures TeardownBridge(c, call, destroy).gateway.legs == c.gateway.legs
  {
    var c1 := c.(pendingDials := c.pendingDials - {call});
    assert DropLeg(c1, call).gateway == c.gateway;
  }

  lemma TrackKeeps(c: Calls, e: CallEvent, destroy: Reply<()>)
    requires Inv(c)
    ensures Inv(Track(c, e, destroy))
  {
    if e.callId.Some? && e.channel.Some? && e.eventType == CallDisconnected {
      ForgetKeeps(c, e.callId.value, destroy);
    }
  }

  lemma RingMusicKeeps(cfg: Config, c: Calls, e: CallEvent, destroy: Reply<()>)
    requires Inv(Track(c, e, destroy))
    ensures Inv(RingMusic(cfg, Track(c, e, destroy), e))
  {
  }

  lemma PumpEventKeeps(cfg: Config, c: Calls, e: CallEvent, r: PumpReplies)
    requires Inv(c) && Fresh(c, r.bridge)
    ensures Inv(PumpEvent(cfg, c, e, r).0)
  {
    TrackKeeps(c, e, r.destroy);
    TrackIssuesNothing(c, e, r.destroy);
    RingMusicKeeps(cfg, c, e, r.destroy);
    var c2 := RingMusic(cfg, Track(c, e, r.destroy), e);
    if e.callId.Some? && e.callId.value in c2.pendingDials {
      var call := e.callId.value;
      BridgeKeeps(c2.(pendingDials := c2.pendingDials - {call}), call, c2.pendingDials[call], r.bridge);
    }
  }

  /** `answer` may end ring music and may set up an operator bridge. */
  lemma AnswerShape(cfg: Config, s: State, cmd: string, call: string, key: string,
                    verb: Reply<()>, bridge: BridgeReplies)
    ensures
      var quiet := s.calls.(ringMusic := s.calls.ringMusic - {call});
      Answer(cfg, s, cmd, call, key, verb, bridge).0.calls in
        [s.calls, quiet, BridgeOperator(s.calls, call, key, bridge).0, BridgeOperator(quiet, call, key, bridge).0]
  {
  }

  lemma AnswerKeeps(cfg: Config, s: State, cmd: string, call: string, key: string,
                    verb: Reply<()>, bridge: BridgeReplies)
    requires Inv(s.calls) && Fresh(s.calls, bridge)
    ensures Inv(Answer(cfg, s, cmd, call, key, verb, bridge).0.calls)
  {
    var quiet := s.calls.(ringMusic := s.calls.ringMusic - {call});
    AnswerShape(cfg, s, cmd, call, key, verb, bridge);
    BridgeKeeps(s.calls, call, key, bridge);
    BridgeKeeps(quiet, call, key, bridge);
  }

  lemma StepKeeps(cfg: Config, s: State, step: Step)
    requires Inv(s.calls) && Legal(s, step)
    ensures Inv(Apply(cfg, s, step).calls)
  {
    match step
    case PumpStep(raw, r) =>
      if IsOperatorEvent(s.calls, raw) {
        OperatorLegKeeps(s.calls, raw.kind, raw.channelId.id, r.join);
      } else if MapAriEvent(raw).Some? {
        PumpEventKeeps(cfg, s.calls, MapAriEvent(raw).value, r);
      }
    case AnswerStep(cmd, call, key, v, b) => AnswerKeeps(cfg, s, cmd, call, key, v, b);
    case _ =>
  }

  /** In every reachable state bridged calls are exactly the calls with an operator
      leg, pending legs wait for their owner's bridge, bookkeeping mentions tracked
      calls only, and operator bridges are conserved. */
  lemma {:induction false} ReachableStatesConsistent(cfg: Config, steps: seq<Step>)
    requires LegalRun(cfg, Initial, steps)
    ensures Inv(Run(cfg, Initial, steps).calls)
  {
    if steps != [] {
      var before := steps[..|steps| - 1];
      ReachableStatesConsistent(cfg, before);
      StepKeeps(cfg, Run(cfg, Initial, before), steps[|steps| - 1]);
    }
  }

  // ---- a finished call leaves nothing behind ------------------------------------

  /** The pump processes `raw` as the end of `call`. */
  predicate EndsCall(c: Calls, raw: RawEvent, call: string) {
    && !IsOperatorEvent(c, raw)
    && IsEndKind(raw.kind) && CallIdOf(raw) == Some(call) && ChannelOf(raw).Some?
  }

  predicate Mentions(c: Calls, call: string) {
    || call in c.channels || call in c.directions || call in c.lines
    || call in c.bridges || call in c.operatorLegs || call in c.pendingDials
    || call in c.heldByMusic || call in c.ringMusic
  }

  /** A processed disconnect leaves the call in no record, its operator leg
      unregistered and no longer waiting for a bridge, and surfaces the event. */
  lemma DisconnectLeavesNothing(cfg: Config, s: State, raw: RawEvent, r: PumpReplies, call: string)
    requires cfg.configured && EndsCall(s.calls, raw, call) && Inv(s.calls)
    ensures var t := Pump(cfg, s, raw, r);
      && !Mentions(t.calls, call)
      && (call in s.calls.operatorLegs ==>
            && s.calls.operatorLegs[call] !in t.calls.operatorChannels
            && s.calls.operatorLegs[call] !in t.calls.pendingBridges)
      && t.buffer == s.buffer + [Normalized(raw, CallDisconnected, false)]
  {
    assert MapAriEvent(raw) == Some(Normalized(raw, CallDisconnected, false));
    assert PumpEvent(cfg, s.calls, Normalized(raw, CallDisconnected, false), r).0
        == Forget(s.calls, call, r.destroy);
  }

  // ---- bridge conservation as counts --------------------------------------------

  lemma {:induction false} InjectiveCount(m: map<string, string>)
    requires Injective(m)
    ensures |m.Values| == |m|
    decreases |m|
  {
    if m.Keys != {} {
      var k :| k in m;
      ValuesWithout(m, k);
      assert (m - {k}).Keys == m.Keys - {k};
      assert |m - {k}| == |(m - {k}).Keys| && |m| == |m.Keys|;
      InjectiveCount(m - {k});
    } else {
      assert m == map[];
      assert m.Values == {};
    }
  }

  predicate BridgeSucceeds(r: BridgeReplies) {
    r.create.Ok? && r.addTrunk.Ok? && r.originate.Ok? && r.originate.value.Some?
  }

  predicate NoGatewayFailure(step: Step) {
    match step
    case PumpStep(_, r) => r.destroy.Ok? && BridgeSucceeds(r.bridge)
    case AnswerStep(_, _, _, _, b) => BridgeSucceeds(b)
    case _ => true
  }

  lemma BridgeStrandsNothing(c: Calls, call: string, key: string, r: BridgeReplies)
    requires BridgeSucceeds(r)
    ensures BridgeOperator(c, call, key, r).0.gateway.stranded == c.gateway.stranded
  {
  }

  lemma TrackStrandsNothing(c: Calls, e: CallEvent, destroy: Reply<()>)
    requires destroy.Ok?
    ensures Track(c, e, destroy).gateway.stranded == c.gateway.stranded
  {
    if e.callId.Some? { TeardownStrandsNothing(Untracked(c, e.callId.value), e.callId.value, destroy); }
  }

  lemma TeardownStrandsNothing(c: Calls, call: string, destroy: Reply<()>)
    requires destroy.Ok?
    ensures TeardownBridge(c, call, destroy).gateway.stranded == c.gateway.stranded
  {
    var c1 := c.(pendingDials := c.pendingDials - {call});
    assert DropLeg(c1, call).gateway == c.gateway;
  }

  lemma PumpEventStrandsNothing(cfg: Config, c: Calls, e: CallEvent, r: PumpReplies)
    requires r.destroy.Ok? && BridgeSucceeds(r.bridge)
    ensures PumpEvent(cfg, c, e, r).0.gateway.stranded == c.gateway.stranded
  {
    TrackStrandsNothing(c, e, r.destroy);
    var c2 := RingMusic(cfg, Track(c, e, r.destroy), e);
    if e.callId.Some? && e.callId.value in c2.pendingDials {
      var call := e.callId.value;
      BridgeStrandsNothing(c2.(pendingDials := c2.pendingDials - {call}), call, c2.pendingDials[call], r.bridge);
    }
  }

  lemma NothingStranded(cfg: Config, s: State, step: Step)
    requires NoGatewayFailure(step)
    ensures Apply(cfg, s, step).calls.gateway.stranded == s.calls.gateway.stranded
  {
    match step
    case PumpStep(raw, r) =>
      if MapAriEvent(raw).Some? { PumpEventStrandsNothing(cfg, s.calls, MapAriEvent(raw).value, r); }
    case AnswerStep(cmd, call, key, v, b) =>
      AnswerShape(cfg, s, cmd, call, key, v, b);
      BridgeStrandsNothing(s.calls, call, key, b);
      BridgeStrandsNothing(s.calls.(ringMusic := s.calls.ringMusic - {call}), call, key, b);
    case _ =>
  }

  lemma {:induction false} NothingStrandedInRun(cfg: Config, steps: seq<Step>)
    requires forall i :: 0 <= i < |steps| ==> NoGatewayFailure(steps[i])
    ensures Run(cfg, Initial, steps).calls.gateway.stranded == {}
  {
    if steps != [] {
      var before := steps[..|steps| - 1];
      NothingStrandedInRun(cfg, before);
      NothingStranded(cfg, Run(cfg, Initial, before), steps[|steps| - 1]);
    }
  }

  /** Operator bridges created, less those destroyed and those a gateway failure
      left behind, are as many as the recorded call bridges; without gateway
      failures nothing is left behind. */
  lemma BridgeCount(cfg: Config, steps: seq<Step>)
    requires LegalRun(cfg, Initial, steps)
    ensures var c := Run(cfg, Initial, steps).calls;
      && |c.gateway.created| == |c.bridges| + |c.gateway.destroyed| + |c.gateway.stranded|
      && ((forall i :: 0 <= i < |steps| ==> NoGatewayFailure(steps[i])) ==>
            |c.gateway.created| - |c.gateway.destroyed| == |c.bridges|)
  {
    ReachableStatesConsistent(cfg, steps);
    var c := Run(cfg, Initial, steps).calls;
    InjectiveCount(c.bridges);
    if forall i :: 0 <= i < |steps| ==> NoGatewayFailure(steps[i]) {
      NothingStrandedInRun(cfg, steps);
    }
  }

  // ---- commands are idempotent ----------------------------------------------------

  /** The command id a step carries, if it is a command. */
  function CommandOf(step: Step): Option<string> {
    match step
    case PumpStep(_, _) => None
    case DrainStep(_) => None
    case DialStep(cmd, _, _) => Some(cmd)
    case AnswerStep(cmd, _, _, _, _) => Some(cmd)
    case VerbStep(cmd, _, _, _) => Some(cmd)
    case HoldStep(cmd, _, _) => Some(cmd)
    case ResumeStep(cmd, _, _) => Some(cmd)
    case DtmfStep(cmd, _, _, _) => Some(cmd)
  }

  /** A replayed command changes nothing at all. */
  lemma ReplayIsSilent(cfg: Config, s: State, step: Step)
    requires CommandOf(step).Some? && CommandOf(step).value in s.seen
    ensures Apply(cfg, s, step) == s
  {
  }

  /** Recording one acknowledgement, or none. */
  predicate SeenGrows(before: map<string, Ack>, after: map<string, Ack>, cmd: string) {
    after == before || (cmd !in before && cmd in after && after - {cmd} == before)
  }

  /** What `answer` does outside the call records. */
  lemma AnswerLogs(cfg: Config, s: State, cmd: string, call: string, key: string,
                   verb: Reply<()>, bridge: BridgeReplies)
    ensures var t := Answer(cfg, s, cmd, call, key, verb, bridge).0;
      && t.dtmf == s.dtmf && t.drained == s.drained
      && SeenGrows(s.seen, t.seen, cmd)
      && (t.buffer == s.buffer || (cmd !in s.seen && t.buffer == s.buffer + [Synthetic(call, CallAnswered)]))
  {
    if cmd !in s.seen {
      PickUpLogs(cfg, s, cmd, call, verb);
      var (s1, out) := PickUp(cfg, s, cmd, call, verb);
      JoinLogs(s1, cmd, call, key, bridge, out);
    }
  }

  lemma PickUpLogs(cfg: Config, s: State, cmd: string, call: string, verb: Reply<()>)
    requires cmd !in s.seen
    ensures var t := PickUp(cfg, s, cmd, call, verb).0;
      && t.dtmf == s.dtmf && t.drained == s.drained && (cmd !in t.seen ==> t.seen == s.seen) && t.seen - {cmd} == s.seen
      && (t.buffer == s.buffer || t.buffer == s.buffer + [Synthetic(call, CallAnswered)])
  {
  }

  lemma JoinLogs(s: State, cmd: string, call: string, key: string, bridge: BridgeReplies, out: Outcome)
    ensures var t := JoinOperator(s, cmd, call, key, bridge, out).0;
      && t.dtmf == s.dtmf && t.drained == s.drained && t.buffer == s.buffer
      && (t.seen == s.seen || (cmd in t.seen && t.seen - {cmd} == s.seen - {cmd}))
  {
  }

  /** A command records at most its own acknowledgement, and only when it had none. */
  lemma StepAcks(cfg: Config, s: State, step: Step)
    ensures var t := Apply(cfg, s, step);
      if CommandOf(step).None? then t.seen == s.seen else SeenGrows(s.seen, t.seen, CommandOf(step).value)
  {
    match step
    case AnswerStep(cmd, call, key, v, b) => AnswerLogs(cfg, s, cmd, call, key, v, b);
    case _ =>
  }

  /** A DTMF request is sent only by a command that had no acknowledgement and has one afterwards. */
  lemma StepDtmf(cfg: Config, s: State, step: Step)
    ensures var t := Apply(cfg, s, step);
      || t.dtmf == s.dtmf
      || exists d: Dtmf :: t.dtmf == s.dtmf + [d] && d.commandId !in s.seen && d.commandId in t.seen
  {
    match step
    case AnswerStep(cmd, call, key, v, b) => AnswerLogs(cfg, s, cmd, call, key, v, b);
    case DtmfStep(cmd, call, digits, v) =>
      var t := Apply(cfg, s, step);
      if t.dtmf != s.dtmf {
        var d := Dtmf(cmd, s.calls.channels[call], digits);
        assert t.dtmf == s.dtmf + [d] && d.commandId !in s.seen && d.commandId in t.seen;
      }
    case _ =>
  }

  /** No command id is sent as DTMF twice, and every command sent is acknowledged. */
  predicate SentOnce(s: State) {
    && (forall i, j :: 0 <= i < j < |s.dtmf| ==> s.dtmf[i].commandId != s.dtmf[j].commandId)
    && (forall i :: 0 <= i < |s.dtmf| ==> s.dtmf[i].commandId in s.seen)
  }

  lemma StepSendsOnce(cfg: Config, s: State, step: Step)
    requires SentOnce(s)
    ensures var t := Apply(cfg, s, step);
      SentOnce(t) && forall k :: k in s.seen ==> k in t.seen && t.seen[k] == s.seen[k]
  {
    var t := Apply(cfg, s, step);
    StepAcks(cfg, s, step);
    StepDtmf(cfg, s, step);
    forall k | k in s.seen ensures k in t.seen && t.seen[k] == s.seen[k] {
      if t.seen != s.seen { assert k in t.seen - {CommandOf(step).value}; }
    }
  }

  /** What every state of the adapter satisfies. */
  ghost predicate Sound(s: State) {
    Inv(s.calls) && SentOnce(s)
  }

  lemma StepKeepsSound(cfg: Config, s: State, step: Step)
    requires Sound(s) && Legal(s, step)
    ensures Sound(Apply(cfg, s, step))
  {
    StepKeeps(cfg, s, step);
    StepSendsOnce(cfg, s, step);
  }

  // ---- what a command is told is what its replays are told ----------------------------

  /** What the caller of a step gets back, if it is a command. */
  function OutcomeOf(cfg: Config, s: State, step: Step): Option<Outcome> {
    match step
    case PumpStep(_, _) => None
    case DrainStep(_) => None
    case DialStep(cmd, key, r) => Some(Dial(cfg, s, cmd, key, r).1)
    case AnswerStep(cmd, call, key, v, b) => Some(Answer(cfg, s, cmd, call, key, v, b).1)
    case VerbStep(cmd, call, name, v) => Some(OnChannel(cfg, s, cmd, call, name, v).1)
    case HoldStep(cmd, call, v) => Some(Hold(cfg, s, cmd, call, v).1)
    case ResumeStep(cmd, call, v) => Some(Resume(cfg, s, cmd, call, v).1)
    case DtmfStep(cmd, call, digits, v) => Some(SendDtmf(cfg, s, cmd, call, digits, v).1)
  }

  lemma AnswerRecords(cfg: Config, s: State, cmd: string, call: string, key: string, v: Reply<()>, b: BridgeReplies)
    ensures var (t, out) := Answer(cfg, s, cmd, call, key, v, b);
      out.Acked? ==> cmd in t.seen && t.seen[cmd] == out.ack
  {
  }

  /** An acknowledged command is recorded with that acknowledgement. */
  lemma OutcomeIsRecorded(cfg: Config, s: State, step: Step)
    ensures var cmd, out := CommandOf(step), OutcomeOf(cfg, s, step);
      && (out.Some? <==> cmd.Some?)
      && (out.Some? && out.value.Acked? ==>
            cmd.value in Apply(cfg, s, step).seen && Apply(cfg, s, step).seen[cmd.value] == out.value.ack)
  {
    match step
    case AnswerStep(cmd, call, key, v, b) => AnswerRecords(cfg, s, cmd, call, key, v, b);
    case _ =>
  }

  lemma SeenStays(cfg: Config, s: State, step: Step, k: string)
    requires k in s.seen
    ensures k in Apply(cfg, s, step).seen && Apply(cfg, s, step).seen[k] == s.seen[k]
  {
    var t := Apply(cfg, s, step);
    StepAcks(cfg, s, step);
    if t.seen != s.seen { assert k in t.seen - {CommandOf(step).value}; }
  }

  lemma {:induction false} SeenStaysInRun(cfg: Config, s: State, steps: seq<Step>, k: string)
    requires k in s.seen
    ensures k in Run(cfg, s, steps).seen && Run(cfg, s, steps).seen[k] == s.seen[k]
  {
    if steps != [] {
      SeenStaysInRun(cfg, s, steps[..|steps| - 1], k);
      SeenStays(cfg, Run(cfg, s, steps[..|steps| - 1]), steps[|steps| - 1], k);
    }
  }

  lemma ReplayAnswers(cfg: Config, s: State, step: Step)
    requires CommandOf(step).Some? && CommandOf(step).value in s.seen
    ensures OutcomeOf(cfg, s, step) == Some(Acked(s.seen[CommandOf(step).value]))
  {
  }

  /** Whatever happens after a command was acknowledged, in any run, sending its id again
      with whatever verb is answered with the very same acknowledgement and changes nothing. */
  lemma ReplaysRepeatTheAnswer(cfg: Config, s: State, step: Step, later: seq<Step>, again: Step)
    requires OutcomeOf(cfg, s, step).Some? && OutcomeOf(cfg, s, step).value.Acked?
    requires CommandOf(again) == CommandOf(step)
    ensures var t := Run(cfg, Apply(cfg, s, step), later);
      OutcomeOf(cfg, t, again) == OutcomeOf(cfg, s, step) && Apply(cfg, t, again) == t
  {
    OutcomeIsRecorded(cfg, s, step);
    var k, t := CommandOf(step).value, Run(cfg, Apply(cfg, s, step), later);
    SeenStaysInRun(cfg, Apply(cfg, s, step), later, k);
    ReplayAnswers(cfg, t, again);
    ReplayIsSilent(cfg, t, again);
  }

  /** Over a whole run no command id is sent as DTMF twice (the door never opens
      twice), and the acknowledgements of any earlier state are still the ones replayed. */
  lemma {:induction false} DoorOpensOnce(cfg: Config, s: State, steps: seq<Step>)
    requires SentOnce(s)
    ensures var t := Run(cfg, s, steps);
      SentOnce(t) && forall k :: k in s.seen ==> k in t.seen && t.seen[k] == s.seen[k]
  {
    if steps != [] {
      var before := steps[..|steps| - 1];
      DoorOpensOnce(cfg, s, before);
      StepSendsOnce(cfg, Run(cfg, s, before), steps[|steps| - 1]);
    }
  }

  // ---- queue music hides the automatic pickup ------------------------------------

  /** Everything ever surfaced, oldest first: drained events, then buffered ones. */
  function History(s: State): seq<CallEvent> {
    s.drained + s.buffer
  }

  predicate IsAnswerOf(e: CallEvent, call: string) {
    e.eventType == CallAnswered && e.callId == Some(call)
  }

  /** A new answer command for the call, or its disconnect. */
  predicate EndsRinging(s: State, step: Step, call: string) {
    match step
    case PumpStep(raw, _) => EndsCall(s.calls, raw, call)
    case AnswerStep(cmd, c, _, _, _) => c == call && cmd !in s.seen
    case _ => false
  }

  /** What the pump's event map says about a surfaced event. */
  lemma MapShape(raw: RawEvent)
    ensures MapAriEvent(raw).Some? ==>
      var e := MapAriEvent(raw).value;
      && e.callId == CallIdOf(raw) && e.channel == ChannelOf(raw)
      && (e.eventType == CallDisconnected ==> IsEndKind(raw.kind))
  {
  }

  lemma EventStillRinging(cfg: Config, c: Calls, e: CallEvent, r: PumpReplies, call: string)
    requires call in c.ringMusic
    requires !(e.eventType == CallDisconnected && e.callId == Some(call) && e.channel.Some?)
    ensures var (c', surfaced) := PumpEvent(cfg, c, e, r);
      call in c'.ringMusic && (IsAnswerOf(e, call) ==> !surfaced)
  {
    TrackStillRinging(c, e, r.destroy, call);
    var c2 := RingMusic(cfg, Track(c, e, r.destroy), e);
    assert call in c2.ringMusic;
    if e.callId.Some? && e.callId.value in c2.pendingDials {
      var other := e.callId.value;
      BridgingLeavesRingMusic(c2.(pendingDials := c2.pendingDials - {other}), other, c2.pendingDials[other], r.bridge);
    }
  }

  lemma TrackStillRinging(c: Calls, e: CallEvent, destroy: Reply<()>, call: string)
    requires call in c.ringMusic
    requires !(e.eventType == CallDisconnected && e.callId == Some(call) && e.channel.Some?)
    ensures call in Track(c, e, destroy).ringMusic
  {
  }

  lemma PumpStillRinging(cfg: Config, s: State, raw: RawEvent, r: PumpReplies, call: string)
    requires call in s.calls.ringMusic && !EndsCall(s.calls, raw, call)
    ensures var t := Pump(cfg, s, raw, r);
      && call in t.calls.ringMusic && t.drained == s.drained
      && (t.buffer == s.buffer || exists e :: t.buffer == s.buffer + [e] && !IsAnswerOf(e, call))
  {
    MapShape(raw);
    if cfg.configured && !IsOperatorEvent(s.calls, raw) && MapAriEvent(raw).Some? {
      EventStillRinging(cfg, s.calls, MapAriEvent(raw).value, r, call);
    }
  }

  lemma BridgingLeavesRingMusic(c: Calls, call: string, key: string, r: BridgeReplies)
    ensures BridgeOperator(c, call, key, r).0.ringMusic == c.ringMusic
  {
  }

  /** `answer` ends ring music for its own call only, and only for a new command. */
  lemma AnswerRingMusic(cfg: Config, s: State, cmd: string, call: string, key: string,
                        verb: Reply<()>, bridge: BridgeReplies)
    ensures s.calls.ringMusic - {call} <= Answer(cfg, s, cmd, call, key, verb, bridge).0.calls.ringMusic
  {
    AnswerShape(cfg, s, cmd, call, key, verb, bridge);
    BridgingLeavesRingMusic(s.calls, call, key, bridge);
    BridgingLeavesRingMusic(s.calls.(ringMusic := s.calls.ringMusic - {call}), call, key, bridge);
  }

  lemma AnswerStillRinging(cfg: Config, s: State, cmd: string, other: string, key: string,
                           verb: Reply<()>, bridge: BridgeReplies, call: string)
    requires call in s.calls.ringMusic && (other == call ==> cmd in s.seen)
    ensures var t := Answer(cfg, s, cmd, other, key, verb, bridge).0;
      && call in t.calls.ringMusic && t.drained == s.drained
      && (t.buffer == s.buffer || exists e :: t.buffer == s.buffer + [e] && !IsAnswerOf(e, call))
  {
    AnswerRingMusic(cfg, s, cmd, other, key, verb, bridge);
    AnswerLogs(cfg, s, cmd, other, key, verb, bridge);
    assert !IsAnswerOf(Synthetic(other, CallAnswered), call) || other == call;
  }

  /** Every other step surfaces at most one event, and never an answer. */
  lemma OthersStillRinging(cfg: Config, s: State, step: Step, call: string)
    requires !step.PumpStep? && !step.AnswerStep? && !step.DrainStep?
    ensures var t := Apply(cfg, s, step);
      && t.calls.ringMusic == s.calls.ringMusic && t.drained == s.drained
      && (t.buffer == s.buffer || exists e :: t.buffer == s.buffer + [e] && !IsAnswerOf(e, call))
  {
    match step
    case HoldStep(_, c, _) => assert !IsAnswerOf(Synthetic(c, CallHeld), call);
    case ResumeStep(_, c, _) => assert !IsAnswerOf(Synthetic(c, CallResumed), call);
    case _ =>
  }

  lemma StillRinging(cfg: Config, s: State, step: Step, call: string) returns (added: seq<CallEvent>)
    requires call in s.calls.ringMusic && !EndsRinging(s, step, call)
    ensures var t := Apply(cfg, s, step);
      && call in t.calls.ringMusic
      && History(t) == History(s) + added
      && forall i :: 0 <= i < |added| ==> !IsAnswerOf(added[i], call)
  {
    var t := Apply(cfg, s, step);
    added := [];
    if !step.DrainStep? {
      match step {
        case PumpStep(raw, r) => PumpStillRinging(cfg, s, raw, r, call);
        case AnswerStep(cmd, c, key, v, b) => AnswerStillRinging(cfg, s, cmd, c, key, v, b, call);
        case _ => OthersStillRinging(cfg, s, step, call);
      }
      if t.buffer != s.buffer {
        var e :| t.buffer == s.buffer + [e] && !IsAnswerOf(e, call);
        added := [e];
      }
    }
  }

  /** From ring music until the first new answer command or the disconnect, no run
      surfaces a CALL_ANSWERED for the call. */
  lemma {:induction false} QueueMusicHidesPickup(cfg: Config, s: State, steps: seq<Step>, call: string)
    returns (added: seq<CallEvent>)
    requires call in s.calls.ringMusic
    requires forall i :: 0 <= i < |steps| ==> !EndsRinging(Run(cfg, s, steps[..i]), steps[i], call)
    ensures var t := Run(cfg, s, steps);
      && call in t.calls.ringMusic
      && History(t) == History(s) + added
      && forall i :: 0 <= i < |added| ==> !IsAnswerOf(added[i], call)
  {
    if steps == [] {
      added := [];
    } else {
      var before := steps[..|steps| - 1];
      forall i | 0 <= i < |before|
        ensures !EndsRinging(Run(cfg, s, before[..i]), before[i], call)
      {
        assert before[..i] == steps[..i];
      }
      var early := QueueMusicHidesPickup(cfg, s, before, call);
      var late := StillRinging(cfg, Run(cfg, s, before), steps[|steps| - 1], call);
      added := early + late;
    }
  }
}
