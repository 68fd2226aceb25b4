/** What the records of the SIP call controller mean, told by the events and commands of the
    run alone. */
module SipRecords {
  import opened Wrappers
  import opened SipEvents
  import opened SipModel
  import opened SipSafety

  // ---- what a raw event reports --------------------------------------------------------

  predicate Reports(raw: RawEvent, t: EventType) {
    match t
    case CallRinging =>
      raw.kind == "StasisStart" || (raw.kind == "ChannelStateChange" && raw.state in ["Ring", "Ringing"])
    case CallAnswered => raw.kind == "ChannelStateChange" && raw.state == "Up"
    case CallHeld => raw.kind == "ChannelHold"
    case CallResumed => raw.kind == "ChannelUnhold"
    case CallDisconnected => raw.kind in ["StasisEnd", "ChannelHangupRequest", "ChannelDestroyed"]
    case DeviceRegistered => raw.kind == "PeerStatusChange" && raw.peerStatus == "Reachable"
    case DeviceUnregistered => raw.kind == "PeerStatusChange" && raw.peerStatus == "Unreachable"
    case LineInService => false
  }

  /** The line of an event: the Stasis argument, else the channel's name. */
  function LineOf(raw: RawEvent): Option<string> {
    if raw.stasisArg.Some? then raw.stasisArg else raw.name
  }

  /** An event is mapped to the one type it reports, and not at all if it reports none. */
  lemma MapExactly(raw: RawEvent, t: EventType)
    ensures Reports(raw, t) <==> MapAriEvent(raw).Some? && MapAriEvent(raw).value.eventType == t
    ensures MapAriEvent(raw).Some? ==>
      MapAriEvent(raw).value == CallEvent(MapAriEvent(raw).value.eventType, CallIdOf(raw), LineOf(raw), ChannelOf(raw),
                                          raw.kind == "StasisStart", false)
  {
  }

  // ---- steps about a call ----------------------------------------------------------------

  /** The pump takes the event for one of a call or a device. */
  predicate Heard(cfg: Config, s: State, step: Step) {
    step.PumpStep? && cfg.configured && !IsOperatorEvent(s.calls, step.raw)
  }

  predicate HeardOf(cfg: Config, s: State, step: Step, call: string) {
    Heard(cfg, s, step) && CallIdOf(step.raw) == Some(call)
  }

  /** The step is heard as the end of the call. */
  predicate Ends(cfg: Config, s: State, step: Step, call: string) {
    HeardOf(cfg, s, step, call) && ChannelOf(step.raw).Some? && Reports(step.raw, CallDisconnected)
  }

  /** The far end picks up. */
  predicate PicksUp(cfg: Config, s: State, step: Step, call: string) {
    HeardOf(cfg, s, step, call) && Reports(step.raw, CallAnswered)
  }

  /** The step is heard as a sign of life of the call. */
  predicate Lives(cfg: Config, s: State, step: Step, call: string) {
    && HeardOf(cfg, s, step, call) && ChannelOf(step.raw).Some?
    && exists t :: t != CallDisconnected && Reports(step.raw, t)
  }

  /** The call id and the channel of an originated call, if it has a channel id. */
  predicate Places(o: Originated, call: string) {
    o.channelId.Some? && call == if o.sipCallId != "" then o.sipCallId else o.channelId.value
  }

  predicate Dials(cfg: Config, s: State, step: Step, call: string) {
    step.DialStep? && cfg.configured && step.cmd !in s.seen && step.dialed.Ok? && Places(step.dialed.value, call)
  }

  /** A new command on a tracked call that the gateway carries out. */
  predicate CarriedOut(cfg: Config, s: State, cmd: string, call: string, r: Reply<()>) {
    cfg.configured && cmd !in s.seen && call in s.calls.channels && r.Ok?
  }

  // ---- acknowledgements --------------------------------------------------------------------

  /** The call a command on a call is about, and the gateway's reply. */
  function Target(step: Step): Option<(string, Reply<()>)> {
    match step
    case AnswerStep(_, call, _, v, _) => Some((call, v))
    case VerbStep(_, call, _, v) => Some((call, v))
    case HoldStep(_, call, v) => Some((call, v))
    case ResumeStep(_, call, v) => Some((call, v))
    case DtmfStep(_, call, _, v) => Some((call, v))
    case _ => None
  }

  /** A new command on a call is accepted if and only if the call is tracked and the gateway
      carried it out; it is about that call; a dial is accepted if and only if the gateway
      originated it. Without a gateway a new command is an error. */
  lemma AcceptedExactly(cfg: Config, s: State, step: Step)
    requires CommandOf(step).Some? && CommandOf(step).value !in s.seen
    ensures var out := OutcomeOf(cfg, s, step).value;
      && (out.NotConfigured? <==> !cfg.configured)
      && (out.Acked? && Target(step).Some? ==>
            var (call, r) := Target(step).value;
            && out.ack.callId == Some(call)
            && (out.ack.accepted <==> CarriedOut(cfg, s, CommandOf(step).value, call, r)))
      && (out.Acked? && step.DialStep? ==>
            && (out.ack.accepted <==> step.dialed.Ok?)
            && (step.dialed.Ok? ==> forall call :: Places(step.dialed.value, call) ==> out.ack.callId == Some(call)))
  {
    if step.AnswerStep? { AnswerAccepted(cfg, s, step.cmd, step.call, step.operatorKey, step.verb, step.bridge); }
  }

  lemma AnswerAccepted(cfg: Config, s: State, cmd: string, call: string, key: string, v: Reply<()>, b: BridgeReplies)
    requires cmd !in s.seen
    ensures var out := Answer(cfg, s, cmd, call, key, v, b).1;
      && (out.NotConfigured? <==> !cfg.configured)
      && (out.Acked? ==> out.ack.callId == Some(call) && (out.ack.accepted <==> CarriedOut(cfg, s, cmd, call, v)))
  {
  }

  /** What the first failed request of a bridge says. */
  function FailureOf(r: BridgeReplies): Option<Detail> {
    if r.create.Err? then Some(GatewayError(r.create.error))
    else if r.addTrunk.Err? then Some(GatewayError(r.addTrunk.error))
    else if r.originate.Err? then Some(GatewayError(r.originate.error))
    else if r.originate.value.None? then Some(NoOperatorChannel)
    else None
  }

  /** The words for a command that was carried out. */
  function DoneWord(step: Step): Detail {
    match step
    case DialStep(_, _, _) => Done("dial")
    case AnswerStep(_, _, _, _, _) => Done("answer")
    case VerbStep(_, _, name, _) => Done(name)
    case HoldStep(_, _, _) => Done("hold")
    case ResumeStep(_, _, _) => Done("resume")
    case _ => TonesSent
  }

  /** The detail a new command is told: that the call is not tracked, what the gateway said
      (but not of tones), that the operator's leg failed and why, or that it is done. */
  lemma ToldExactly(cfg: Config, s: State, step: Step)
    requires cfg.configured && Target(step).Some? && CommandOf(step).value !in s.seen
    ensures var (call, r) := Target(step).value;
      OutcomeOf(cfg, s, step).value.ack.detail ==
        if call !in s.calls.channels then CallNotTracked
        else if r.Err? then if step.DtmfStep? then TonesRejected else GatewayError(r.error)
        else if step.AnswerStep? && step.operatorKey != "" && call !in s.calls.bridges && FailureOf(step.bridge).Some?
        then Unbridged(FailureOf(step.bridge).value)
        else DoneWord(step)
  {
    if step.AnswerStep? { AnswerTold(cfg, s, step.cmd, step.call, step.operatorKey, step.verb, step.bridge); }
  }

  lemma AnswerTold(cfg: Config, s: State, cmd: string, call: string, key: string, v: Reply<()>, b: BridgeReplies)
    requires cfg.configured && cmd !in s.seen
    ensures Answer(cfg, s, cmd, call, key, v, b).1.ack.detail ==
      if call !in s.calls.channels then CallNotTracked
      else if v.Err? then GatewayError(v.error)
      else if key != "" && call !in s.calls.bridges && FailureOf(b).Some? then Unbridged(FailureOf(b).value)
      else Done("answer")
  {
    PickUpTold(cfg, s, cmd, call, v);
    var (s1, out) := PickUp(cfg, s, cmd, call, v);
    if call in s.calls.channels { BridgingTold(s1.calls, call, key, b); }
  }

  lemma PickUpTold(cfg: Config, s: State, cmd: string, call: string, v: Reply<()>)
    requires cfg.configured && cmd !in s.seen
    ensures var (t, out) := PickUp(cfg, s, cmd, call, v);
      && out == Acked(Ack(cmd, CarriedOut(cfg, s, cmd, call, v), Some(call),
                          if call !in s.calls.channels then CallNotTracked
                          else if v.Err? then GatewayError(v.error) else Done("answer")))
      && t.calls.channels == s.calls.channels && t.calls.bridges == s.calls.bridges
  {
    var s1 := if call in s.calls.ringMusic then s.(calls := s.calls.(ringMusic := s.calls.ringMusic - {call})) else s;
    OnChannelTold(cfg, s1, cmd, call, "answer", v);
  }

  lemma OnChannelTold(cfg: Config, s: State, cmd: string, call: string, verb: string, v: Reply<()>)
    requires cfg.configured && cmd !in s.seen
    ensures var (t, out) := OnChannel(cfg, s, cmd, call, verb, v);
      && out == Acked(Ack(cmd, CarriedOut(cfg, s, cmd, call, v), Some(call),
                          if call !in s.calls.channels then CallNotTracked
                          else if v.Err? then GatewayError(v.error) else Done(verb)))
      && t.calls == s.calls
  {
  }

  lemma BridgingTold(c: Calls, call: string, key: string, r: BridgeReplies)
    requires call in c.channels
    ensures BridgeOperator(c, call, key, r).1 == if call in c.bridges then None else FailureOf(r)
  {
  }

  lemma DialTold(cfg: Config, s: State, cmd: string, key: string, r: Reply<Originated>)
    requires cfg.configured && cmd !in s.seen
    ensures Dial(cfg, s, cmd, key, r).1.ack.detail == if r.Err? then GatewayError(r.error) else Done("dial")
  {
  }

  /** The tones of a door stay secret: nothing but the gateway depends on them, and nothing at
      all on the gateway's words. */
  lemma TonesStaySecret(cfg: Config, s: State, cmd: string, call: string, digits: string, r: Reply<()>,
                        digits': string, r': Reply<()>)
    requires r.Ok? == r'.Ok?
    ensures OutcomeOf(cfg, s, DtmfStep(cmd, call, digits, r)) == OutcomeOf(cfg, s, DtmfStep(cmd, call, digits', r'))
    ensures var t, t' := Apply(cfg, s, DtmfStep(cmd, call, digits, r)), Apply(cfg, s, DtmfStep(cmd, call, digits', r'));
      t.(dtmf := []) == t'.(dtmf := [])
  {
  }

  // ---- call ids ---------------------------------------------------------------------------------

  /** A call that was placed is heard under the id it was placed with: its SIP call id if it
      has one, whatever channel the event comes from, else its channel's id. */
  lemma PlacedCallIsHeard(o: Originated, call: string, raw: RawEvent)
    requires Places(o, call)
    requires if o.sipCallId != "" then raw.sipCallId == Some(o.sipCallId)
             else raw.sipCallId.None? && raw.channelId == TextId(o.channelId.value) && o.channelId.value != ""
    ensures CallIdOf(raw) == Some(call)
  {
  }

  /** An event is about no call exactly if it names none: no SIP call id, and no channel or
      one with an empty id. Only a text names a channel. */
  lemma NamesNoCall(raw: RawEvent)
    ensures CallIdOf(raw).None? <==> raw.sipCallId.None? && (raw.channelId == NoId || raw.channelId == TextId(""))
    ensures raw.sipCallId.None? && raw.channelId.OtherId? ==> CallIdOf(raw) == Some(raw.channelId.text)
    ensures ChannelOf(raw).Some? <==> exists id :: id != "" && raw.channelId == TextId(id) && ChannelOf(raw) == Some(id)
  {
  }

  // ---- since when a call is in a record ------------------------------------------------------

  /** Records a call is in or not: queue music, hold by music, a dial waiting for the far
      end, an operator bridge. */
  datatype Record = Queueing | Holding | Dialing | Connecting

  predicate In(c: Calls, call: string, rec: Record) {
    match rec
    case Queueing => call in c.ringMusic
    case Holding => call in c.heldByMusic
    case Dialing => call in c.pendingDials
    case Connecting => call in c.bridges
  }

  predicate Begins(cfg: Config, s: State, step: Step, call: string, rec: Record) {
    match rec
    case Queueing =>
      && HeardOf(cfg, s, step, call) && ChannelOf(step.raw).Some? && step.raw.kind == "StasisStart"
      && MusicOf(cfg, if LineOf(step.raw).Some? then LineOf(step.raw).value else "").ring != ""
    case Holding =>
      && step.HoldStep? && step.call == call && CarriedOut(cfg, s, step.cmd, call, step.verb)
      && call in s.calls.bridges && MusicOf(cfg, if call in s.calls.lines then s.calls.lines[call] else "").hold != ""
    case Dialing => Dials(cfg, s, step, call) && step.operatorKey != ""
    case Connecting =>
      || (&& PicksUp(cfg, s, step, call) && call in s.calls.pendingDials && call !in s.calls.ringMusic
          && BridgeSucceeds(step.replies.bridge))
      || (&& step.AnswerStep? && step.call == call && step.operatorKey != ""
          && CarriedOut(cfg, s, step.cmd, call, step.verb) && BridgeSucceeds(step.bridge))
  }

  predicate Finishes(cfg: Config, s: State, step: Step, call: string, rec: Record) {
    || Ends(cfg, s, step, call)
    || match rec
       case Queueing => step.AnswerStep? && step.call == call && cfg.configured && step.cmd !in s.seen
       case Holding => step.ResumeStep? && step.call == call && CarriedOut(cfg, s, step.cmd, call, step.verb)
       case Dialing => PicksUp(cfg, s, step, call) && call !in s.calls.ringMusic
       case Connecting => false
  }

  predicate Since(cfg: Config, steps: seq<Step>, call: string, rec: Record) {
    steps != [] &&
    var before, step := steps[..|steps| - 1], steps[|steps| - 1];
    var s := Run(cfg, Initial, before);
    Begins(cfg, s, step, call, rec) || (Since(cfg, before, call, rec) && !Finishes(cfg, s, step, call, rec))
  }

  /** The call's mapped end. */
  predicate EndOf(e: CallEvent, call: string) {
    e.eventType == CallDisconnected && e.callId == Some(call) && e.channel.Some?
  }

  /** A caller rings in on a line with queue music. */
  predicate RingsFor(cfg: Config, e: CallEvent) {
    && e.eventType == CallRinging && e.inbound && e.channel.Some?
    && MusicOf(cfg, if e.lineId.Some? then e.lineId.value else "").ring != ""
  }

  /** The maps that say what a call is, and those that say what is going on with it. */
  predicate SameCalls(c: Calls, d: Calls) {
    && c.channels == d.channels && c.lines == d.lines && c.directions == d.directions
    && c.ringMusic == d.ringMusic && c.heldByMusic == d.heldByMusic
  }

  lemma LegDropped(c: Calls, ended: string)
    ensures var t := DropLeg(c, ended);
      SameCalls(t, c) && t.pendingDials == c.pendingDials && t.bridges == c.bridges
  {
  }

  lemma BridgeDropped(c: Calls, ended: string, destroy: Reply<()>)
    ensures var t := DropBridge(c, ended, destroy);
      SameCalls(t, c) && t.pendingDials == c.pendingDials && t.bridges == c.bridges - {ended}
  {
  }

  lemma TornDown(c: Calls, ended: string, destroy: Reply<()>)
    ensures var t := TeardownBridge(c, ended, destroy);
      SameCalls(t, c) && t.pendingDials == c.pendingDials - {ended} && t.bridges == c.bridges - {ended}
  {
    var c1 := c.(pendingDials := c.pendingDials - {ended});
    LegDropped(c1, ended);
    BridgeDropped(DropLeg(c1, ended), ended, destroy);
  }

  lemma TrackRecords(c: Calls, e: CallEvent, destroy: Reply<()>, call: string, rec: Record)
    ensures In(Track(c, e, destroy), call, rec) <==> In(c, call, rec) && !EndOf(e, call)
  {
    if e.callId.Some? { ForgetRecords(c, e.callId.value, destroy, call, rec); }
  }

  lemma ForgetRecords(c: Calls, ended: string, destroy: Reply<()>, call: string, rec: Record)
    ensures In(Forget(c, ended, destroy), call, rec) <==> In(c, call, rec) && call != ended
  {
    TornDown(Untracked(c, ended), ended, destroy);
  }

  /** Setting up an operator bridge has one of three results. */
  lemma BridgeShape(c: Calls, call: string, key: string, r: BridgeReplies)
    requires call in c.channels
    ensures BridgeOperator(c, call, key, r).0 ==
      if call in c.bridges || r.create.Err? then c
      else if BridgeSucceeds(r) then Bridged(c, call, key, r.create.value, r.originate.value.value)
      else Stranded(c, r.create.value)
  {
  }

  lemma StrandedLeaves(c: Calls, bridge: string)
    ensures var t := Stranded(c, bridge); SameCalls(t, c) && t.pendingDials == c.pendingDials && t.bridges == c.bridges
  {
  }

  lemma BridgedLeaves(c: Calls, call: string, key: string, bridge: string, leg: string)
    requires call in c.channels
    ensures var t := Bridged(c, call, key, bridge, leg);
      SameCalls(t, c) && t.pendingDials == c.pendingDials && t.bridges == c.bridges[call := bridge]
  {
  }

  lemma BridgingLeaves(c: Calls, call: string, key: string, r: BridgeReplies)
    ensures var t := BridgeOperator(c, call, key, r).0;
      && SameCalls(t, c) && t.pendingDials == c.pendingDials
      && t.bridges == (if call in c.channels && call !in c.bridges && BridgeSucceeds(r)
                       then c.bridges[call := r.create.value] else c.bridges)
  {
    if call in c.channels {
      BridgeShape(c, call, key, r);
      if r.create.Ok? {
        StrandedLeaves(c, r.create.value);
        if BridgeSucceeds(r) { BridgedLeaves(c, call, key, r.create.value, r.originate.value.value); }
      }
    }
  }

  lemma BridgingRecords(c: Calls, other: string, key: string, r: BridgeReplies, call: string, rec: Record)
    requires other in c.channels
    ensures In(BridgeOperator(c, other, key, r).0, call, rec) <==>
      In(c, call, rec) || (rec == Connecting && call == other && BridgeSucceeds(r))
  {
    BridgingLeaves(c, other, key, r);
  }

  lemma TrackedStays(cfg: Config, c: Calls, e: CallEvent, destroy: Reply<()>, call: string)
    requires call in c.channels && e.eventType == CallAnswered
    ensures call in RingMusic(cfg, Track(c, e, destroy), e).channels
  {
  }

  /** What an event does to a record of a call. */
  lemma EventRecords(cfg: Config, c: Calls, e: CallEvent, r: PumpReplies, call: string, rec: Record)
    requires c.pendingDials.Keys <= c.channels.Keys
    ensures var up := e.eventType == CallAnswered && e.callId == Some(call) && call !in c.ringMusic;
      In(PumpEvent(cfg, c, e, r).0, call, rec) <==>
        || (rec == Queueing && e.callId == Some(call) && RingsFor(cfg, e))
        || (rec == Connecting && up && call in c.pendingDials && BridgeSucceeds(r.bridge))
        || (In(c, call, rec) && !EndOf(e, call) && !(rec == Dialing && up))
  {
    var c2 := RingMusic(cfg, Track(c, e, r.destroy), e);
    RungRecords(cfg, c, e, r.destroy, call, rec);
    if e.eventType == CallAnswered && e.callId.Some? {
      var other := e.callId.value;
      RungRecords(cfg, c, e, r.destroy, other, Queueing);
      RungRecords(cfg, c, e, r.destroy, other, Dialing);
      if other !in c2.ringMusic && other in c2.pendingDials {
        TrackedStays(cfg, c, e, r.destroy, other);
        var c3 := c2.(pendingDials := c2.pendingDials - {other});
        BridgingRecords(c3, other, c2.pendingDials[other], r.bridge, call, rec);
      }
    }
  }

  lemma RungRecords(cfg: Config, c: Calls, e: CallEvent, destroy: Reply<()>, call: string, rec: Record)
    ensures In(RingMusic(cfg, Track(c, e, destroy), e), call, rec) <==>
      (rec == Queueing && e.callId == Some(call) && RingsFor(cfg, e)) || (In(c, call, rec) && !EndOf(e, call))
  {
    TrackRecords(c, e, destroy, call, rec);
  }

  /** What the mapped event says is what the raw one reports. */
  lemma EventOfRaw(cfg: Config, raw: RawEvent, e: CallEvent, call: string)
    requires MapAriEvent(raw) == Some(e)
    ensures EndOf(e, call) <==>
      CallIdOf(raw) == Some(call) && ChannelOf(raw).Some? && Reports(raw, CallDisconnected)
    ensures (e.eventType == CallAnswered && e.callId == Some(call)) <==>
      CallIdOf(raw) == Some(call) && Reports(raw, CallAnswered)
    ensures RingsFor(cfg, e) <==>
      && ChannelOf(raw).Some? && raw.kind == "StasisStart"
      && MusicOf(cfg, if LineOf(raw).Some? then LineOf(raw).value else "").ring != ""
    ensures e.callId == CallIdOf(raw)
  {
    MapExactly(raw, CallDisconnected);
    MapExactly(raw, CallAnswered);
    MapExactly(raw, CallRinging);
  }

  lemma PumpRecords(cfg: Config, s: State, raw: RawEvent, r: PumpReplies, call: string, rec: Record)
    requires s.calls.pendingDials.Keys <= s.calls.channels.Keys
    ensures var step := PumpStep(raw, r);
      In(Pump(cfg, s, raw, r).calls, call, rec) <==>
        Begins(cfg, s, step, call, rec) || (In(s.calls, call, rec) && !Finishes(cfg, s, step, call, rec))
  {
    if !Heard(cfg, s, PumpStep(raw, r)) {
      UnheardRecords(cfg, s, raw, r, call, rec);
    } else if MapAriEvent(raw).Some? {
      var e := MapAriEvent(raw).value;
      EventOfRaw(cfg, raw, e, call);
      EventRecords(cfg, s.calls, e, r, call, rec);
      assert Pump(cfg, s, raw, r).calls == PumpEvent(cfg, s.calls, e, r).0;
    } else {
      MapExactly(raw, CallDisconnected);
      MapExactly(raw, CallAnswered);
      MapExactly(raw, CallRinging);
      assert Pump(cfg, s, raw, r) == s;
    }
  }

  lemma UnheardRecords(cfg: Config, s: State, raw: RawEvent, r: PumpReplies, call: string, rec: Record)
    requires !Heard(cfg, s, PumpStep(raw, r))
    ensures In(Pump(cfg, s, raw, r).calls, call, rec) <==> In(s.calls, call, rec)
  {
  }

  /** The call records after `answer`: a new command ends queue music, and one that is
      carried out for an operator sets up the bridge. */
  lemma AnswerExactly(cfg: Config, s: State, cmd: string, call: string, key: string, v: Reply<()>, b: BridgeReplies)
    ensures var quiet := s.calls.(ringMusic := s.calls.ringMusic - {call});
      Answer(cfg, s, cmd, call, key, v, b).0.calls ==
        if cmd in s.seen || !cfg.configured then s.calls
        else if CarriedOut(cfg, s, cmd, call, v) && key != "" then BridgeOperator(quiet, call, key, b).0
        else quiet
  {
    if call !in s.calls.ringMusic { assert s.calls.ringMusic - {call} == s.calls.ringMusic; }
  }

  lemma AnsweringRecords(cfg: Config, s: State, cmd: string, other: string, key: string, v: Reply<()>, b: BridgeReplies,
                         call: string, rec: Record)
    ensures var step := AnswerStep(cmd, other, key, v, b);
      In(Answer(cfg, s, cmd, other, key, v, b).0.calls, call, rec) <==>
        Begins(cfg, s, step, call, rec) || (In(s.calls, call, rec) && !Finishes(cfg, s, step, call, rec))
  {
    AnswerExactly(cfg, s, cmd, other, key, v, b);
    var quiet := s.calls.(ringMusic := s.calls.ringMusic - {other});
    if other in s.calls.channels { BridgingRecords(quiet, other, key, b, call, rec); }
  }

  lemma DialRecords(cfg: Config, s: State, cmd: string, key: string, r: Reply<Originated>, call: string, rec: Record)
    ensures var step := DialStep(cmd, key, r);
      In(Dial(cfg, s, cmd, key, r).0.calls, call, rec) <==> Begins(cfg, s, step, call, rec) || In(s.calls, call, rec)
  {
  }

  lemma HoldRecords(cfg: Config, s: State, cmd: string, other: string, v: Reply<()>, call: string, rec: Record)
    ensures In(Hold(cfg, s, cmd, other, v).0.calls, call, rec) <==>
      Begins(cfg, s, HoldStep(cmd, other, v), call, rec) || In(s.calls, call, rec)
  {
  }

  lemma ResumeRecords(cfg: Config, s: State, cmd: string, other: string, v: Reply<()>, call: string, rec: Record)
    ensures In(Resume(cfg, s, cmd, other, v).0.calls, call, rec) <==>
      In(s.calls, call, rec) && !Finishes(cfg, s, ResumeStep(cmd, other, v), call, rec)
  {
  }

  /** One step begins or finishes a record of a call exactly as described. */
  lemma StepRecords(cfg: Config, s: State, step: Step, call: string, rec: Record)
    requires s.calls.pendingDials.Keys <= s.calls.channels.Keys
    ensures In(Apply(cfg, s, step).calls, call, rec) <==>
      Begins(cfg, s, step, call, rec) || (In(s.calls, call, rec) && !Finishes(cfg, s, step, call, rec))
  {
    match step
    case PumpStep(raw, r) => PumpRecords(cfg, s, raw, r, call, rec);
    case AnswerStep(cmd, other, key, v, b) => AnsweringRecords(cfg, s, cmd, other, key, v, b, call, rec);
    case DialStep(cmd, key, r) => DialRecords(cfg, s, cmd, key, r, call, rec);
    case HoldStep(cmd, other, v) => HoldRecords(cfg, s, cmd, other, v, call, rec);
    case ResumeStep(cmd, other, v) => ResumeRecords(cfg, s, cmd, other, v, call, rec);
    case _ =>
  }

  /** In every run: a caller hears queue music, a call is on hold by music, a dial waits for
      the far end, an operator bridge exists, if and only if the run began it and has not
      finished it since. */
  lemma {:induction false} RecordsExactly(cfg: Config, steps: seq<Step>, call: string, rec: Record)
    requires LegalRun(cfg, Initial, steps)
    ensures In(Run(cfg, Initial, steps).calls, call, rec) <==> Since(cfg, steps, call, rec)
  {
    if steps != [] {
      var before := steps[..|steps| - 1];
      RecordsExactly(cfg, before, call, rec);
      ReachableStatesConsistent(cfg, before);
      StepRecords(cfg, Run(cfg, Initial, before), steps[|steps| - 1], call, rec);
    }
  }

  // ---- channel, line and direction of a call ----------------------------------------------------

  datatype View = View(channel: Option<string>, line: Option<string>, direction: Option<Direction>)

  function At<T>(m: map<string, T>, key: string): Option<T> {
    if key in m then Some(m[key]) else None
  }

  function ViewOf(c: Calls, call: string): View {
    View(At(c.channels, call), At(c.lines, call), At(c.directions, call))
  }

  function Else<T>(a: Option<T>, b: Option<T>): Option<T> {
    if a.Some? then a else b
  }

  /** A sign of life brings the latest channel and, if they are not known yet, line and
      direction; a dial brings channel and direction; the end forgets all. */
  function Viewed(cfg: Config, steps: seq<Step>, call: string): View {
    if steps == [] then View(None, None, None)
    else
      var before, step := steps[..|steps| - 1], steps[|steps| - 1];
      var s, v := Run(cfg, Initial, before), Viewed(cfg, before, call);
      ViewAfter(cfg, s, step, call, v)
  }

  function ViewAfter(cfg: Config, s: State, step: Step, call: string, v: View): View {
    if Ends(cfg, s, step, call) then View(None, None, None)
    else if Lives(cfg, s, step, call) then
      View(ChannelOf(step.raw), Else(v.line, LineOf(step.raw)),
           if step.raw.kind == "StasisStart" then Else(v.direction, Some(Inbound)) else v.direction)
    else if Dials(cfg, s, step, call) then View(step.dialed.value.channelId, v.line, Some(Outbound))
    else v
  }

  lemma RefreshView(c: Calls, other: string, channel: string, e: CallEvent, call: string)
    ensures var v := ViewOf(c, call);
      ViewOf(Refresh(c, other, channel, e), call) ==
        if other != call then v
        else View(Some(channel), Else(v.line, e.lineId),
                  if e.inbound then Else(v.direction, Some(Inbound)) else v.direction)
  {
  }

  lemma ForgetView(c: Calls, ended: string, destroy: Reply<()>, call: string)
    ensures ViewOf(Forget(c, ended, destroy), call) == if ended == call then View(None, None, None) else ViewOf(c, call)
  {
    TornDown(Untracked(c, ended), ended, destroy);
  }

  lemma TrackView(c: Calls, e: CallEvent, destroy: Reply<()>, call: string)
    ensures var v := ViewOf(c, call);
      ViewOf(Track(c, e, destroy), call) ==
        if e.callId != Some(call) || e.channel.None? then v
        else if e.eventType == CallDisconnected then View(None, None, None)
        else View(e.channel, Else(v.line, e.lineId),
                  if e.inbound then Else(v.direction, Some(Inbound)) else v.direction)
  {
    if e.callId.Some? && e.channel.Some? {
      ForgetView(c, e.callId.value, destroy, call);
      RefreshView(c, e.callId.value, e.channel.value, e, call);
    }
  }

  lemma BridgingView(c: Calls, other: string, key: string, r: BridgeReplies, call: string)
    ensures ViewOf(BridgeOperator(c, other, key, r).0, call) == ViewOf(c, call)
  {
    BridgingLeaves(c, other, key, r);
  }

  lemma EventView(cfg: Config, c: Calls, e: CallEvent, r: PumpReplies, call: string)
    ensures ViewOf(PumpEvent(cfg, c, e, r).0, call) == ViewOf(Track(c, e, r.destroy), call)
  {
    var c2 := RingMusic(cfg, Track(c, e, r.destroy), e);
    if e.callId.Some? && e.callId.value in c2.pendingDials {
      var other := e.callId.value;
      BridgingView(c2.(pendingDials := c2.pendingDials - {other}), other, c2.pendingDials[other], r.bridge, call);
    }
  }

  lemma PumpView(cfg: Config, s: State, raw: RawEvent, r: PumpReplies, call: string)
    ensures ViewOf(Pump(cfg, s, raw, r).calls, call) == ViewAfter(cfg, s, PumpStep(raw, r), call, ViewOf(s.calls, call))
  {
    MapExactly(raw, CallDisconnected);
    if MapAriEvent(raw).Some? {
      MapExactly(raw, MapAriEvent(raw).value.eventType);
      EventView(cfg, s.calls, MapAriEvent(raw).value, r, call);
      TrackView(s.calls, MapAriEvent(raw).value, r.destroy, call);
    } else {
      forall t ensures !Reports(raw, t) { MapExactly(raw, t); }
    }
  }

  lemma StepView(cfg: Config, s: State, step: Step, call: string)
    ensures ViewOf(Apply(cfg, s, step).calls, call) == ViewAfter(cfg, s, step, call, ViewOf(s.calls, call))
  {
    match step
    case PumpStep(raw, r) => PumpView(cfg, s, raw, r, call);
    case AnswerStep(cmd, other, key, v, b) =>
      AnswerExactly(cfg, s, cmd, other, key, v, b);
      BridgingView(s.calls.(ringMusic := s.calls.ringMusic - {other}), other, key, b, call);
    case DialStep(cmd, key, r) => DialView(cfg, s, cmd, key, r, call);
    case _ =>
  }

  lemma DialView(cfg: Config, s: State, cmd: string, key: string, r: Reply<Originated>, call: string)
    ensures ViewOf(Dial(cfg, s, cmd, key, r).0.calls, call) ==
      ViewAfter(cfg, s, DialStep(cmd, key, r), call, ViewOf(s.calls, call))
  {
  }

  /** In every run the recorded channel, line and direction of a call are the latest channel,
      first line and first direction heard, or dialled, since it last ended. */
  lemma {:induction false} ViewExactly(cfg: Config, steps: seq<Step>, call: string)
    ensures ViewOf(Run(cfg, Initial, steps).calls, call) == Viewed(cfg, steps, call)
  {
    if steps != [] {
      ViewExactly(cfg, steps[..|steps| - 1], call);
      StepView(cfg, Run(cfg, Initial, steps[..|steps| - 1]), steps[|steps| - 1], call);
    }
  }

  // ---- what is surfaced and sent ------------------------------------------------------------------------

  /** The event that announces what a command has done. */
  function Announced(t: EventType, call: string): CallEvent {
    CallEvent(t, Some(call), None, None, false, true)
  }

  /** The events a step surfaces. */
  function Surfaced(cfg: Config, s: State, step: Step): seq<CallEvent> {
    match step
    case PumpStep(raw, _) =>
      if Heard(cfg, s, step) && MapAriEvent(raw).Some?
         && !(Reports(raw, CallAnswered) && CallIdOf(raw).Some? && CallIdOf(raw).value in s.calls.ringMusic)
      then [MapAriEvent(raw).value] else []
    case AnswerStep(cmd, call, _, v, _) =>
      if CarriedOut(cfg, s, cmd, call, v) && call in s.calls.ringMusic then [Announced(CallAnswered, call)] else []
    case HoldStep(cmd, call, v) => if CarriedOut(cfg, s, cmd, call, v) then [Announced(CallHeld, call)] else []
    case ResumeStep(cmd, call, v) => if CarriedOut(cfg, s, cmd, call, v) then [Announced(CallResumed, call)] else []
    case _ => []
  }

  /** The tones a step sends. */
  function Toned(cfg: Config, s: State, step: Step): seq<Dtmf> {
    if step.DtmfStep? && cfg.configured && step.cmd !in s.seen && step.call in s.calls.channels
    then [Dtmf(step.cmd, s.calls.channels[step.call], step.digits)] else []
  }

  function AllSurfaced(cfg: Config, s: State, steps: seq<Step>): seq<CallEvent> {
    if steps == [] then []
    else
      var before := steps[..|steps| - 1];
      AllSurfaced(cfg, s, before) + Surfaced(cfg, Run(cfg, s, before), steps[|steps| - 1])
  }

  function AllToned(cfg: Config, s: State, steps: seq<Step>): seq<Dtmf> {
    if steps == [] then []
    else
      var before := steps[..|steps| - 1];
      AllToned(cfg, s, before) + Toned(cfg, Run(cfg, s, before), steps[|steps| - 1])
  }

  lemma PumpSurfaces(cfg: Config, s: State, raw: RawEvent, r: PumpReplies)
    ensures var t := Pump(cfg, s, raw, r);
      t.buffer == s.buffer + Surfaced(cfg, s, PumpStep(raw, r)) && t.drained == s.drained && t.dtmf == s.dtmf
  {
    MapExactly(raw, CallAnswered);
    if Heard(cfg, s, PumpStep(raw, r)) && MapAriEvent(raw).Some? {
      var e := MapAriEvent(raw).value;
      if e.eventType == CallAnswered && e.callId.Some? {
        TrackRecords(s.calls, e, r.destroy, e.callId.value, Queueing);
      }
    }
  }

  lemma AnswerSurfaces(cfg: Config, s: State, cmd: string, call: string, key: string, v: Reply<()>, b: BridgeReplies)
    ensures var t := Answer(cfg, s, cmd, call, key, v, b).0;
      && t.buffer == s.buffer + Surfaced(cfg, s, AnswerStep(cmd, call, key, v, b))
      && t.drained == s.drained && t.dtmf == s.dtmf
  {
    if cmd !in s.seen {
      var (s1, out) := PickUp(cfg, s, cmd, call, v);
      JoinLogs(s1, cmd, call, key, b, out);
    }
  }

  lemma StepSurfaces(cfg: Config, s: State, step: Step)
    ensures History(Apply(cfg, s, step)) == History(s) + Surfaced(cfg, s, step)
    ensures Apply(cfg, s, step).dtmf == s.dtmf + Toned(cfg, s, step)
  {
    match step
    case PumpStep(raw, r) => PumpSurfaces(cfg, s, raw, r);
    case AnswerStep(cmd, call, key, v, b) => AnswerSurfaces(cfg, s, cmd, call, key, v, b);
    case _ =>
  }

  /** In every run the events handed out or waiting are exactly those the steps surface, in
      order, and the tones sent exactly those of new commands on tracked calls. */
  lemma {:induction false} SurfacedExactly(cfg: Config, steps: seq<Step>)
    ensures History(Run(cfg, Initial, steps)) == AllSurfaced(cfg, Initial, steps)
    ensures Run(cfg, Initial, steps).dtmf == AllToned(cfg, Initial, steps)
  {
    if steps != [] {
      SurfacedExactly(cfg, steps[..|steps| - 1]);
      StepSurfaces(cfg, Run(cfg, Initial, steps[..|steps| - 1]), steps[|steps| - 1]);
    }
  }
}
