/** A dial or an answer for an operator connects that operator to the call. */
module SipConnect {
  import opened Wrappers
  import opened SipEvents
  import opened SipModel
  import opened SipSafety
  import opened SipRecords

  // ---- the operator is connected --------------------------------------------------------------------

  /** The call has its bridge with the trunk in it, and a leg that rings the operator and
      waits to join that bridge. */
  predicate Connected(c: Calls, call: string, key: string, trunk: string, bridge: string, leg: string) {
    && Waits(c, call, bridge, leg) && Rings(c.gateway, key, trunk, bridge, leg)
  }

  predicate Waits(c: Calls, call: string, bridge: string, leg: string) {
    && call in c.bridges && c.bridges[call] == bridge && Owns(c.operatorLegs, call, leg)
    && leg in c.operatorChannels && leg in c.pendingBridges && c.pendingBridges[leg] == bridge
  }

  predicate Rings(g: Gateway, key: string, trunk: string, bridge: string, leg: string) {
    leg in g.legs && g.legs[leg] == key && Member(bridge, trunk) in g.members
  }

  lemma BridgingConnects(c: Calls, call: string, key: string, r: BridgeReplies)
    requires call in c.channels && call !in c.bridges && BridgeSucceeds(r)
    ensures Connected(BridgeOperator(c, call, key, r).0, call, key, c.channels[call], r.create.value,
                      r.originate.value.value)
  {
    BridgeShape(c, call, key, r);
  }

  /** The call was dialled for this operator and the far end has not picked up. */
  predicate DialedFor(c: Calls, call: string, key: string) {
    call in c.pendingDials && c.pendingDials[call] == key && call in c.channels
  }

  /** Neither the end nor the answer of the call, nor another dial of it. */
  predicate LeavesDial(cfg: Config, s: State, step: Step, call: string) {
    !Finishes(cfg, s, step, call, Dialing) && !Dials(cfg, s, step, call)
  }

  predicate DialGoesOn(cfg: Config, s: State, steps: seq<Step>, call: string) {
    steps == [] ||
    var before := steps[..|steps| - 1];
    DialGoesOn(cfg, s, before, call) && LeavesDial(cfg, Run(cfg, s, before), steps[|steps| - 1], call)
  }

  lemma ForgetDial(c: Calls, ended: string, destroy: Reply<()>, call: string, key: string)
    requires DialedFor(c, call, key) && ended != call
    ensures DialedFor(Forget(c, ended, destroy), call, key)
  {
    TornDown(Untracked(c, ended), ended, destroy);
  }

  lemma TrackDial(c: Calls, e: CallEvent, destroy: Reply<()>, call: string, key: string)
    requires DialedFor(c, call, key) && !EndOf(e, call)
    ensures DialedFor(Track(c, e, destroy), call, key)
  {
    if e.callId.Some? && e.callId != Some(call) { ForgetDial(c, e.callId.value, destroy, call, key); }
  }

  lemma EventDial(cfg: Config, c: Calls, e: CallEvent, r: PumpReplies, call: string, key: string)
    requires DialedFor(c, call, key) && !EndOf(e, call)
    requires e.eventType == CallAnswered && e.callId == Some(call) ==> call in c.ringMusic
    ensures DialedFor(PumpEvent(cfg, c, e, r).0, call, key)
  {
    TrackDial(c, e, r.destroy, call, key);
    TrackRecords(c, e, r.destroy, call, Queueing);
    var c2 := RingMusic(cfg, Track(c, e, r.destroy), e);
    if e.callId.Some? && e.callId.value in c2.pendingDials {
      var other := e.callId.value;
      BridgingLeaves(c2.(pendingDials := c2.pendingDials - {other}), other, c2.pendingDials[other], r.bridge);
    }
  }

  lemma StepDial(cfg: Config, s: State, step: Step, call: string, key: string)
    requires DialedFor(s.calls, call, key) && LeavesDial(cfg, s, step, call)
    ensures DialedFor(Apply(cfg, s, step).calls, call, key)
  {
    match step
    case PumpStep(raw, r) => PumpDial(cfg, s, raw, r, call, key);
    case AnswerStep(cmd, other, k, v, b) =>
      AnswerExactly(cfg, s, cmd, other, k, v, b);
      BridgingLeaves(s.calls.(ringMusic := s.calls.ringMusic - {other}), other, k, b);
    case _ =>
  }

  lemma PumpDial(cfg: Config, s: State, raw: RawEvent, r: PumpReplies, call: string, key: string)
    requires DialedFor(s.calls, call, key) && LeavesDial(cfg, s, PumpStep(raw, r), call)
    ensures DialedFor(Pump(cfg, s, raw, r).calls, call, key)
  {
    if Heard(cfg, s, PumpStep(raw, r)) && MapAriEvent(raw).Some? {
      EventOfRaw(cfg, raw, MapAriEvent(raw).value, call);
      EventDial(cfg, s.calls, MapAriEvent(raw).value, r, call, key);
    }
  }

  lemma {:induction false} RunDial(cfg: Config, s: State, steps: seq<Step>, call: string, key: string)
    requires DialedFor(s.calls, call, key) && DialGoesOn(cfg, s, steps, call)
    ensures DialedFor(Run(cfg, s, steps).calls, call, key)
  {
    if steps != [] {
      var before := steps[..|steps| - 1];
      RunDial(cfg, s, before, call, key);
      StepDial(cfg, Run(cfg, s, before), steps[|steps| - 1], call, key);
    }
  }

  /** The trunk channel once the event is tracked. */
  function TrunkOf(c: Calls, raw: RawEvent, call: string): string
    requires call in c.channels
  {
    if ChannelOf(raw).Some? then ChannelOf(raw).value else c.channels[call]
  }

  lemma PickUpConnects(cfg: Config, s: State, raw: RawEvent, r: PumpReplies, call: string, key: string)
    requires DialedFor(s.calls, call, key) && call !in s.calls.ringMusic && PicksUp(cfg, s, PumpStep(raw, r), call)
    ensures var t := Pump(cfg, s, raw, r);
      && t.buffer == s.buffer + [Normalized(raw, CallAnswered, false)] && call !in t.calls.pendingDials
      && (if call in s.calls.bridges then call in t.calls.bridges && t.calls.bridges[call] == s.calls.bridges[call]
          else BridgeSucceeds(r.bridge) ==>
            Connected(t.calls, call, key, TrunkOf(s.calls, raw, call), r.bridge.create.value,
                      r.bridge.originate.value.value))
  {
    MapExactly(raw, CallAnswered);
    var e := Normalized(raw, CallAnswered, false);
    assert MapAriEvent(raw) == Some(e);
    var c2 := Track(s.calls, e, r.destroy);
    assert RingMusic(cfg, c2, e) == c2;
    AnsweredCalls(s.calls, e, r.destroy, call);
    var c3 := c2.(pendingDials := c2.pendingDials - {call});
    BridgingLeaves(c3, call, key, r.bridge);
    assert Pump(cfg, s, raw, r).calls == BridgeOperator(c3, call, key, r.bridge).0;
    if call !in s.calls.bridges && BridgeSucceeds(r.bridge) { BridgingConnects(c3, call, key, r.bridge); }
  }

  lemma AnsweredCalls(c: Calls, e: CallEvent, destroy: Reply<()>, call: string)
    requires call in c.channels && e.eventType == CallAnswered && e.callId == Some(call)
    ensures var t := Track(c, e, destroy);
      && t.pendingDials == c.pendingDials && t.ringMusic == c.ringMusic && t.bridges == c.bridges
      && call in t.channels && t.channels[call] == if e.channel.Some? then e.channel.value else c.channels[call]
  {
  }

  /** After an accepted dial for an operator, whatever happens until the far end picks up,
      the pickup is surfaced and connects exactly that operator: the created bridge is the
      call's, the trunk is in it, and the originated leg rings the operator and will join. */
  lemma DialConnectsOperator(cfg: Config, s: State, dial: Step, steps: seq<Step>, raw: RawEvent, r: PumpReplies,
                             call: string)
    requires dial.DialStep? && Dials(cfg, s, dial, call) && dial.operatorKey != ""
    requires DialGoesOn(cfg, Apply(cfg, s, dial), steps, call)
    requires var t := Run(cfg, Apply(cfg, s, dial), steps);
      && PicksUp(cfg, t, PumpStep(raw, r), call) && call !in t.calls.ringMusic && call !in t.calls.bridges
      && BridgeSucceeds(r.bridge)
    ensures var t := Run(cfg, Apply(cfg, s, dial), steps);
      && call in t.calls.channels && Pump(cfg, t, raw, r).buffer == t.buffer + [Normalized(raw, CallAnswered, false)]
      && Connected(Pump(cfg, t, raw, r).calls, call, dial.operatorKey, TrunkOf(t.calls, raw, call),
                   r.bridge.create.value, r.bridge.originate.value.value)
  {
    RunDial(cfg, Apply(cfg, s, dial), steps, call, dial.operatorKey);
    PickUpConnects(cfg, Run(cfg, Apply(cfg, s, dial), steps), raw, r, call, dial.operatorKey);
  }

  /** An answer that is carried out for an operator connects exactly that operator. */
  lemma AnswerConnectsOperator(cfg: Config, s: State, cmd: string, call: string, key: string, v: Reply<()>,
                               b: BridgeReplies)
    requires CarriedOut(cfg, s, cmd, call, v) && key != "" && call !in s.calls.bridges && BridgeSucceeds(b)
    ensures Connected(Answer(cfg, s, cmd, call, key, v, b).0.calls, call, key, s.calls.channels[call],
                      b.create.value, b.originate.value.value)
    ensures Answer(cfg, s, cmd, call, key, v, b).1 == Acked(Ack(cmd, true, Some(call), Done("answer")))
  {
    AnswerExactly(cfg, s, cmd, call, key, v, b);
    BridgingConnects(s.calls.(ringMusic := s.calls.ringMusic - {call}), call, key, b);
  }

  // ---- and the operator's leg joins the call -----------------------------------------------------------

  /** The pump hears the leg itself, entering or leaving. */
  predicate HearsLeg(cfg: Config, s: State, step: Step, leg: string) {
    && step.PumpStep? && cfg.configured && step.raw.channelId == TextId(leg) && leg in s.calls.operatorChannels
    && (step.raw.kind == "StasisStart" || IsEndKind(step.raw.kind))
  }

  predicate LegGoesOn(cfg: Config, s: State, steps: seq<Step>, call: string, leg: string) {
    steps == [] ||
    var before, step := steps[..|steps| - 1], steps[|steps| - 1];
    var t := Run(cfg, s, before);
    && LegGoesOn(cfg, s, before, call, leg) && Legal(t, step)
    && !Ends(cfg, t, step, call) && !HearsLeg(cfg, t, step, leg)
  }

  lemma ForgetWaits(c: Calls, ended: string, destroy: Reply<()>, call: string, bridge: string, leg: string)
    requires Waits(c, call, bridge, leg) && Injective(c.operatorLegs) && ended != call
    ensures Waits(Forget(c, ended, destroy), call, bridge, leg)
  {
    var c1 := Untracked(c, ended);
    var c2 := c1.(pendingDials := c1.pendingDials - {ended});
    assert Waits(DropLeg(c2, ended), call, bridge, leg);
  }

  lemma TrackWaits(c: Calls, e: CallEvent, destroy: Reply<()>, call: string, bridge: string, leg: string)
    requires Waits(c, call, bridge, leg) && Injective(c.operatorLegs) && !EndOf(e, call)
    ensures Waits(Track(c, e, destroy), call, bridge, leg)
  {
    if e.callId.Some? && e.callId != Some(call) { ForgetWaits(c, e.callId.value, destroy, call, bridge, leg); }
  }

  lemma BridgingWaits(c: Calls, other: string, key: string, r: BridgeReplies, call: string, bridge: string, leg: string)
    requires Waits(c, call, bridge, leg) && leg in c.gateway.legs && Fresh(c, r)
    ensures Waits(BridgeOperator(c, other, key, r).0, call, bridge, leg)
  {
    if other in c.channels { BridgeShape(c, other, key, r); }
  }

  lemma EventWaits(cfg: Config, c: Calls, e: CallEvent, r: PumpReplies, call: string, bridge: string, leg: string)
    requires Waits(c, call, bridge, leg) && Injective(c.operatorLegs) && !EndOf(e, call)
    requires leg in c.gateway.legs && Fresh(c, r.bridge)
    ensures Waits(PumpEvent(cfg, c, e, r).0, call, bridge, leg)
  {
    TrackWaits(c, e, r.destroy, call, bridge, leg);
    TrackIssuesNothing(c, e, r.destroy);
    var c2 := RingMusic(cfg, Track(c, e, r.destroy), e);
    if e.callId.Some? && e.callId.value in c2.pendingDials {
      var other := e.callId.value;
      var c3 := c2.(pendingDials := c2.pendingDials - {other});
      BridgingWaits(c3, other, c2.pendingDials[other], r.bridge, call, bridge, leg);
    }
  }

  lemma OtherLegWaits(c: Calls, kind: string, channel: string, join: Reply<()>, call: string, bridge: string,
                      leg: string)
    requires Waits(c, call, bridge, leg) && (channel == leg ==> kind != "StasisStart" && !IsEndKind(kind))
    ensures Waits(OperatorLeg(c, kind, channel, join), call, bridge, leg)
  {
  }

  lemma StepWaits(cfg: Config, s: State, step: Step, call: string, bridge: string, leg: string)
    requires Waits(s.calls, call, bridge, leg) && Inv(s.calls) && Legal(s, step)
    requires !Ends(cfg, s, step, call) && !HearsLeg(cfg, s, step, leg)
    ensures Waits(Apply(cfg, s, step).calls, call, bridge, leg)
  {
    assert leg in s.calls.operatorLegs.Values;
    match step
    case PumpStep(raw, r) => PumpWaits(cfg, s, raw, r, call, bridge, leg);
    case AnswerStep(cmd, other, key, v, b) => AnswerWaits(cfg, s, cmd, other, key, v, b, call, bridge, leg);
    case _ => OthersLeaveLegs(cfg, s, step);
  }

  lemma AnswerWaits(cfg: Config, s: State, cmd: string, other: string, key: string, v: Reply<()>, b: BridgeReplies,
                    call: string, bridge: string, leg: string)
    requires Waits(s.calls, call, bridge, leg) && leg in s.calls.gateway.legs && Fresh(s.calls, b)
    ensures Waits(Answer(cfg, s, cmd, other, key, v, b).0.calls, call, bridge, leg)
  {
    AnswerExactly(cfg, s, cmd, other, key, v, b);
    BridgingWaits(s.calls.(ringMusic := s.calls.ringMusic - {other}), other, key, b, call, bridge, leg);
  }

  /** Commands other than `answer` touch no bridge and no leg. */
  lemma OthersLeaveLegs(cfg: Config, s: State, step: Step)
    requires !step.PumpStep? && !step.AnswerStep?
    ensures SameLegs(s.calls, Apply(cfg, s, step).calls)
  {
    match step
    case DialStep(cmd, key, r) => DialLeavesLegs(cfg, s, cmd, key, r);
    case HoldStep(cmd, call, v) => HoldLeavesLegs(cfg, s, cmd, call, v);
    case ResumeStep(cmd, call, v) => ResumeLeavesLegs(cfg, s, cmd, call, v);
    case _ =>
  }

  lemma HoldLeavesLegs(cfg: Config, s: State, cmd: string, call: string, v: Reply<()>)
    ensures SameLegs(s.calls, Hold(cfg, s, cmd, call, v).0.calls)
  {
  }

  lemma ResumeLeavesLegs(cfg: Config, s: State, cmd: string, call: string, v: Reply<()>)
    ensures SameLegs(s.calls, Resume(cfg, s, cmd, call, v).0.calls)
  {
  }

  lemma DialLeavesLegs(cfg: Config, s: State, cmd: string, key: string, r: Reply<Originated>)
    ensures SameLegs(s.calls, Dial(cfg, s, cmd, key, r).0.calls)
  {
  }

  predicate SameLegs(c: Calls, d: Calls) {
    && d.bridges == c.bridges && d.operatorLegs == c.operatorLegs && d.operatorChannels == c.operatorChannels
    && d.pendingBridges == c.pendingBridges && d.gateway == c.gateway
  }

  lemma PumpWaits(cfg: Config, s: State, raw: RawEvent, r: PumpReplies, call: string, bridge: string, leg: string)
    requires Waits(s.calls, call, bridge, leg) && Injective(s.calls.operatorLegs)
    requires leg in s.calls.gateway.legs && Fresh(s.calls, r.bridge)
    requires !Ends(cfg, s, PumpStep(raw, r), call) && !HearsLeg(cfg, s, PumpStep(raw, r), leg)
    ensures Waits(Pump(cfg, s, raw, r).calls, call, bridge, leg)
  {
    if cfg.configured {
      if IsOperatorEvent(s.calls, raw) {
        OtherLegWaits(s.calls, raw.kind, raw.channelId.id, r.join, call, bridge, leg);
      } else if MapAriEvent(raw).Some? {
        EventOfRaw(cfg, raw, MapAriEvent(raw).value, call);
        EventWaits(cfg, s.calls, MapAriEvent(raw).value, r, call, bridge, leg);
      }
    }
  }

  lemma {:induction false} RunWaits(cfg: Config, s: State, steps: seq<Step>, call: string, bridge: string, leg: string)
    requires Waits(s.calls, call, bridge, leg) && Inv(s.calls) && LegGoesOn(cfg, s, steps, call, leg)
    ensures Waits(Run(cfg, s, steps).calls, call, bridge, leg) && Inv(Run(cfg, s, steps).calls)
  {
    if steps != [] {
      var before := steps[..|steps| - 1];
      RunWaits(cfg, s, before, call, bridge, leg);
      StepWaits(cfg, Run(cfg, s, before), steps[|steps| - 1], call, bridge, leg);
      StepKeeps(cfg, Run(cfg, s, before), steps[|steps| - 1]);
    }
  }

  lemma BridgingRings(c: Calls, other: string, key': string, r: BridgeReplies, key: string, trunk: string,
                      bridge: string, leg: string)
    requires Rings(c.gateway, key, trunk, bridge, leg) && Fresh(c, r)
    ensures Rings(BridgeOperator(c, other, key', r).0.gateway, key, trunk, bridge, leg)
  {
    if other in c.channels { BridgeShape(c, other, key', r); }
  }

  lemma TrackRings(c: Calls, e: CallEvent, destroy: Reply<()>, key: string, trunk: string, bridge: string, leg: string)
    requires Rings(c.gateway, key, trunk, bridge, leg)
    ensures Rings(Track(c, e, destroy).gateway, key, trunk, bridge, leg)
  {
    TrackIssuesNothing(c, e, destroy);
    if e.callId.Some? { TeardownMembers(Untracked(c, e.callId.value), e.callId.value, destroy); }
  }

  lemma TeardownMembers(c: Calls, call: string, destroy: Reply<()>)
    ensures TeardownBridge(c, call, destroy).gateway.members == c.gateway.members
  {
    assert DropLeg(c.(pendingDials := c.pendingDials - {call}), call).gateway == c.gateway;
  }

  lemma StepRings(cfg: Config, s: State, step: Step, key: string, trunk: string, bridge: string, leg: string)
    requires Rings(s.calls.gateway, key, trunk, bridge, leg) && Legal(s, step)
    ensures Rings(Apply(cfg, s, step).calls.gateway, key, trunk, bridge, leg)
  {
    match step
    case PumpStep(raw, r) => PumpRings(cfg, s, raw, r, key, trunk, bridge, leg);
    case AnswerStep(cmd, other, k, v, b) =>
      AnswerExactly(cfg, s, cmd, other, k, v, b);
      BridgingRings(s.calls.(ringMusic := s.calls.ringMusic - {other}), other, k, b, key, trunk, bridge, leg);
    case _ => OthersLeaveLegs(cfg, s, step);
  }

  lemma PumpRings(cfg: Config, s: State, raw: RawEvent, r: PumpReplies, key: string, trunk: string, bridge: string,
                  leg: string)
    requires Rings(s.calls.gateway, key, trunk, bridge, leg) && Fresh(s.calls, r.bridge)
    ensures Rings(Pump(cfg, s, raw, r).calls.gateway, key, trunk, bridge, leg)
  {
    if Heard(cfg, s, PumpStep(raw, r)) && MapAriEvent(raw).Some? {
      EventRings(cfg, s.calls, MapAriEvent(raw).value, r, key, trunk, bridge, leg);
    }
  }

  lemma EventRings(cfg: Config, c: Calls, e: CallEvent, r: PumpReplies, key: string, trunk: string, bridge: string,
                   leg: string)
    requires Rings(c.gateway, key, trunk, bridge, leg) && Fresh(c, r.bridge)
    ensures Rings(PumpEvent(cfg, c, e, r).0.gateway, key, trunk, bridge, leg)
  {
    TrackRings(c, e, r.destroy, key, trunk, bridge, leg);
    TrackIssuesNothing(c, e, r.destroy);
    var c2 := RingMusic(cfg, Track(c, e, r.destroy), e);
    if e.callId.Some? && e.callId.value in c2.pendingDials {
      var other := e.callId.value;
      BridgingRings(c2.(pendingDials := c2.pendingDials - {other}), other, c2.pendingDials[other], r.bridge,
                    key, trunk, bridge, leg);
    }
  }

  lemma {:induction false} RunRings(cfg: Config, s: State, steps: seq<Step>, call: string, key: string, trunk: string,
                                    bridge: string, leg: string)
    requires Rings(s.calls.gateway, key, trunk, bridge, leg) && LegGoesOn(cfg, s, steps, call, leg)
    ensures Rings(Run(cfg, s, steps).calls.gateway, key, trunk, bridge, leg)
  {
    if steps != [] {
      var before := steps[..|steps| - 1];
      RunRings(cfg, s, before, call, key, trunk, bridge, leg);
      StepRings(cfg, Run(cfg, s, before), steps[|steps| - 1], key, trunk, bridge, leg);
    }
  }

  /** Once connected, whatever happens short of the call's end and the leg's own events, the
      leg's arrival puts the operator into the bridge that has the trunk: both ends of the
      call are in one bridge, and the leg rings the operator the call was meant for. */
  lemma OperatorJoinsCall(cfg: Config, s: State, steps: seq<Step>, raw: RawEvent, r: PumpReplies, call: string,
                          key: string, trunk: string, bridge: string, leg: string)
    requires Inv(s.calls) && Connected(s.calls, call, key, trunk, bridge, leg) && LegGoesOn(cfg, s, steps, call, leg)
    requires cfg.configured && raw.kind == "StasisStart" && raw.channelId == TextId(leg) && r.join.Ok?
    requires Fresh(Run(cfg, s, steps).calls, r.bridge)
    ensures var t := Pump(cfg, Run(cfg, s, steps), raw, r);
      && Member(bridge, trunk) in t.calls.gateway.members && Member(bridge, leg) in t.calls.gateway.members
      && leg in t.calls.gateway.legs && t.calls.gateway.legs[leg] == key
      && call in t.calls.bridges && t.calls.bridges[call] == bridge && leg !in t.calls.pendingBridges
      && t.buffer == Run(cfg, s, steps).buffer
  {
    RunWaits(cfg, s, steps, call, bridge, leg);
    RunRings(cfg, s, steps, call, key, trunk, bridge, leg);
  }

  // ---- which channels are an operator's ------------------------------------------------------------------

  /** The step originates this leg. */
  predicate Originates(cfg: Config, s: State, step: Step, leg: string) {
    || (&& step.PumpStep? && CallIdOf(step.raw).Some? && BridgeSucceeds(step.replies.bridge)
        && var call := CallIdOf(step.raw).value;
           && PicksUp(cfg, s, step, call) && call in s.calls.pendingDials && call !in s.calls.ringMusic
           && call !in s.calls.bridges && leg == step.replies.bridge.originate.value.value)
    || (&& step.AnswerStep? && step.operatorKey != "" && CarriedOut(cfg, s, step.cmd, step.call, step.verb)
        && step.call !in s.calls.bridges && BridgeSucceeds(step.bridge)
        && leg == step.bridge.originate.value.value)
  }

  /** The leg itself ends, or its call does. */
  predicate LegEnds(cfg: Config, s: State, step: Step, leg: string) {
    && step.PumpStep? && cfg.configured
    && (|| (step.raw.channelId == TextId(leg) && leg in s.calls.operatorChannels && IsEndKind(step.raw.kind))
        || (CallIdOf(step.raw).Some? && Ends(cfg, s, step, CallIdOf(step.raw).value)
            && Owns(s.calls.operatorLegs, CallIdOf(step.raw).value, leg)))
  }

  lemma TrackLegs(c: Calls, e: CallEvent, destroy: Reply<()>, leg: string)
    ensures leg in Track(c, e, destroy).operatorChannels <==>
      && leg in c.operatorChannels
      && !(e.callId.Some? && EndOf(e, e.callId.value) && Owns(c.operatorLegs, e.callId.value, leg))
  {
    if e.callId.Some? { TornDownLegs(Untracked(c, e.callId.value), e.callId.value, destroy, leg); }
  }

  lemma TornDownLegs(c: Calls, call: string, destroy: Reply<()>, leg: string)
    ensures leg in TeardownBridge(c, call, destroy).operatorChannels <==>
      leg in c.operatorChannels && !Owns(c.operatorLegs, call, leg)
  {
    var c1 := c.(pendingDials := c.pendingDials - {call});
    assert TeardownBridge(c, call, destroy).operatorChannels == DropLeg(c1, call).operatorChannels;
  }

  lemma BridgingLegs(c: Calls, call: string, key: string, r: BridgeReplies, leg: string)
    requires call in c.channels
    ensures leg in BridgeOperator(c, call, key, r).0.operatorChannels <==>
      leg in c.operatorChannels || (call !in c.bridges && BridgeSucceeds(r) && leg == r.originate.value.value)
  {
    BridgeShape(c, call, key, r);
  }

  lemma EventLegs(cfg: Config, c: Calls, e: CallEvent, r: PumpReplies, leg: string)
    requires c.pendingDials.Keys <= c.channels.Keys
    ensures leg in PumpEvent(cfg, c, e, r).0.operatorChannels <==>
      || (&& e.eventType == CallAnswered && e.callId.Some? && e.callId.value in c.pendingDials
          && e.callId.value !in c.ringMusic && e.callId.value !in c.bridges
          && BridgeSucceeds(r.bridge) && leg == r.bridge.originate.value.value)
      || (leg in c.operatorChannels
          && !(e.callId.Some? && EndOf(e, e.callId.value) && Owns(c.operatorLegs, e.callId.value, leg)))
  {
    TrackLegs(c, e, r.destroy, leg);
    if e.eventType == CallAnswered && e.callId.Some? {
      var c2, call := RingMusic(cfg, Track(c, e, r.destroy), e), e.callId.value;
      RungRecords(cfg, c, e, r.destroy, call, Queueing);
      RungRecords(cfg, c, e, r.destroy, call, Dialing);
      RungRecords(cfg, c, e, r.destroy, call, Connecting);
      if call in c2.pendingDials {
        TrackedStays(cfg, c, e, r.destroy, call);
        BridgingLegs(c2.(pendingDials := c2.pendingDials - {call}), call, c2.pendingDials[call], r.bridge, leg);
      }
    }
  }

  lemma PumpLegs(cfg: Config, s: State, raw: RawEvent, r: PumpReplies, leg: string)
    requires s.calls.pendingDials.Keys <= s.calls.channels.Keys
    ensures var step := PumpStep(raw, r);
      leg in Pump(cfg, s, raw, r).calls.operatorChannels <==>
        Originates(cfg, s, step, leg) || (leg in s.calls.operatorChannels && !LegEnds(cfg, s, step, leg))
  {
    if Heard(cfg, s, PumpStep(raw, r)) {
      MapExactly(raw, CallDisconnected);
      MapExactly(raw, CallAnswered);
      if MapAriEvent(raw).Some? {
        var e := MapAriEvent(raw).value;
        EventLegs(cfg, s.calls, e, r, leg);
        if CallIdOf(raw).Some? { EventOfRaw(cfg, raw, e, CallIdOf(raw).value); }
      }
    }
  }

  lemma StepLegs(cfg: Config, s: State, step: Step, leg: string)
    requires s.calls.pendingDials.Keys <= s.calls.channels.Keys
    ensures leg in Apply(cfg, s, step).calls.operatorChannels <==>
      Originates(cfg, s, step, leg) || (leg in s.calls.operatorChannels && !LegEnds(cfg, s, step, leg))
  {
    match step
    case PumpStep(raw, r) => PumpLegs(cfg, s, raw, r, leg);
    case AnswerStep(cmd, call, key, v, b) => AnswerLegs(cfg, s, cmd, call, key, v, b, leg);
    case _ => OthersLeaveLegs(cfg, s, step);
  }

  lemma AnswerLegs(cfg: Config, s: State, cmd: string, call: string, key: string, v: Reply<()>, b: BridgeReplies,
                   leg: string)
    ensures leg in Answer(cfg, s, cmd, call, key, v, b).0.calls.operatorChannels <==>
      Originates(cfg, s, AnswerStep(cmd, call, key, v, b), leg) || leg in s.calls.operatorChannels
  {
    AnswerExactly(cfg, s, cmd, call, key, v, b);
    if call in s.calls.channels {
      BridgingLegs(s.calls.(ringMusic := s.calls.ringMusic - {call}), call, key, b, leg);
    }
  }

  predicate LegSince(cfg: Config, steps: seq<Step>, leg: string) {
    steps != [] &&
    var before, step := steps[..|steps| - 1], steps[|steps| - 1];
    var s := Run(cfg, Initial, before);
    Originates(cfg, s, step, leg) || (LegSince(cfg, before, leg) && !LegEnds(cfg, s, step, leg))
  }

  /** In every run the channels the pump takes for an operator's own, and never surfaces, are
      exactly the legs that were originated and have not ended, by themselves or with their
      call. */
  lemma {:induction false} OperatorChannelsExactly(cfg: Config, steps: seq<Step>, leg: string)
    requires LegalRun(cfg, Initial, steps)
    ensures leg in Run(cfg, Initial, steps).calls.operatorChannels <==> LegSince(cfg, steps, leg)
  {
    if steps != [] {
      var before := steps[..|steps| - 1];
      OperatorChannelsExactly(cfg, before, leg);
      ReachableStatesConsistent(cfg, before);
      StepLegs(cfg, Run(cfg, Initial, before), steps[|steps| - 1], leg);
    }
  }
}
