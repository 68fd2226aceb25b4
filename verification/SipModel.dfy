/** The SIP call controller as a state machine over values
    (integrations/telephony_sip/adapter.py). Every pump event and every control
    command is one atomic step; the ARI gateway is an adversary whose replies are
    part of the step. `SipProvider` proves the imperative adapter against these
    functions; `SipSafety` proves what every run keeps. */
module SipModel {
  import opened Wrappers
  import opened SipEvents

  datatype Direction = Inbound | Outbound

  /** Music-on-hold classes of a line; "" means not configured. */
  datatype Music = Music(ring: string, hold: string)

  datatype Config = Config(
    configured: bool,                 // an ARI client exists
    music: map<string, Music>)

  /** The detail texts of acknowledgements and bridge errors. */
  datatype Detail =
    | CallNotTracked | NoOperatorChannel
    | GatewayError(message: string)
    | Done(verb: string)
    | Unbridged(error: Detail)          // the call is up but the operator's audio leg is not
    | TonesSent | TonesRejected

  datatype Ack = Ack(commandId: string, accepted: bool, callId: Option<string>, detail: Detail)

  /** What a command returns: its acknowledgement, or SipNotConfiguredError. */
  datatype Outcome = Acked(ack: Ack) | NotConfigured

  /** A reply of the gateway: a value, or AriError with its message. */
  type Reply<+T> = Result<T, string>

  /** Replies to the three requests of `_bridge_operator`, in order; the originate
      reply may lack a channel id. */
  datatype BridgeReplies = BridgeReplies(
    create: Reply<string>, addTrunk: Reply<()>, originate: Reply<Option<string>>)

  datatype Originated = Originated(channelId: Option<string>, sipCallId: string)

  datatype Dtmf = Dtmf(commandId: string, channel: string, digits: string)

  datatype Member = Member(bridge: string, channel: string)

  /** What the gateway has seen: operator bridges created, destroyed and left behind, the
      operator each originated leg rings, and the channels put into the bridges that
      connect an operator. */
  datatype Gateway = Gateway(
    created: set<string>, destroyed: set<string>, stranded: set<string>,
    legs: map<string, string>, members: set<Member>)

  const NoGateway: Gateway := Gateway({}, {}, {}, map[], {})

  /** Everything the adapter records about calls and operator legs. */
  datatype Calls = Calls(
    channels: map<string, string>,         // call -> trunk channel
    directions: map<string, Direction>,
    lines: map<string, string>,            // call -> line
    bridges: map<string, string>,          // call -> mixing bridge
    operatorLegs: map<string, string>,     // call -> operator channel
    operatorChannels: set<string>,
    pendingBridges: map<string, string>,   // operator channel -> bridge to join
    pendingDials: map<string, string>,     // outbound call -> operator key
    heldByMusic: set<string>,
    ringMusic: set<string>,
    gateway: Gateway)

  datatype State = State(
    calls: Calls,
    seen: map<string, Ack>,                // command -> its acknowledgement
    buffer: seq<CallEvent>,
    drained: seq<CallEvent>,
    dtmf: seq<Dtmf>)                       // every DTMF request sent to the gateway

  const NoCalls: Calls :=
    Calls(map[], map[], map[], map[], map[], {}, map[], map[], {}, {}, NoGateway)

  const Initial: State := State(NoCalls, map[], [], [], [])

  // ---- calls and operator legs ------------------------------------------------

  /** The operator's own leg entered or left Stasis; on entering it joins its bridge, if
      the gateway agrees. */
  function OperatorLeg(c: Calls, kind: string, channel: string, join: Reply<()>): Calls {
    if kind == "StasisStart" then
      c.(pendingBridges := c.pendingBridges - {channel},
         gateway := if channel in c.pendingBridges && join.Ok?
           then Joined(c.gateway, c.pendingBridges[channel], channel) else c.gateway)
    else if IsEndKind(kind) then
      c.(operatorChannels := c.operatorChannels - {channel},
         pendingBridges := c.pendingBridges - {channel})
    else c
  }

  function Joined(g: Gateway, bridge: string, channel: string): Gateway {
    g.(members := g.members + {Member(bridge, channel)})
  }

  /** Forget the operator's leg of a call. */
  function DropLeg(c: Calls, call: string): Calls {
    if call !in c.operatorLegs then c else
      c.(operatorLegs := c.operatorLegs - {call},
         operatorChannels := c.operatorChannels - {c.operatorLegs[call]},
         pendingBridges := c.pendingBridges - {c.operatorLegs[call]})
  }

  /** Forget the bridge of a call; it counts as destroyed or left behind. */
  function DropBridge(c: Calls, call: string, destroy: Reply<()>): Calls {
    if call !in c.bridges then c else
      c.(bridges := c.bridges - {call},
         gateway := if destroy.Ok?
           then c.gateway.(destroyed := c.gateway.destroyed + {c.bridges[call]})
           else c.gateway.(stranded := c.gateway.stranded + {c.bridges[call]}))
  }

  function TeardownBridge(c: Calls, call: string, destroy: Reply<()>): Calls {
    DropBridge(DropLeg(c.(pendingDials := c.pendingDials - {call}), call), call, destroy)
  }

  /** A mixing bridge with the trunk channel plus a fresh operator channel. The
      second component is the error text, if any. */
  function BridgeOperator(c: Calls, call: string, operatorKey: string, r: BridgeReplies): (Calls, Option<Detail>) {
    if call !in c.channels then (c, Some(CallNotTracked))
    else if call in c.bridges then (c, None)
    else if r.create.Err? then (c, Some(GatewayError(r.create.error)))
    else
      var bridge := r.create.value;
      if r.addTrunk.Err? then (Stranded(c, bridge), Some(GatewayError(r.addTrunk.error)))
      else if r.originate.Err? then (Stranded(c, bridge), Some(GatewayError(r.originate.error)))
      else if r.originate.value.None? then (Stranded(c, bridge), Some(NoOperatorChannel))
      else (Bridged(c, call, operatorKey, bridge, r.originate.value.value), None)
  }

  /** A bridge was created but the operator leg could not be set up. */
  function Stranded(c: Calls, bridge: string): Calls {
    c.(gateway := c.gateway.(created := c.gateway.created + {bridge},
                             stranded := c.gateway.stranded + {bridge}))
  }

  function Bridged(c: Calls, call: string, operatorKey: string, bridge: string, leg: string): Calls
    requires call in c.channels
  {
    c.(operatorChannels := c.operatorChannels + {leg},
       pendingBridges := c.pendingBridges[leg := bridge],
       bridges := c.bridges[call := bridge],
       operatorLegs := c.operatorLegs[call := leg],
       gateway := Joined(c.gateway.(created := c.gateway.created + {bridge},
                                    legs := c.gateway.legs[leg := operatorKey]), bridge, c.channels[call]))
  }

  /** Forget everything recorded about a call that has ended. */
  function Forget(c: Calls, call: string, destroy: Reply<()>): Calls {
    TeardownBridge(Untracked(c, call), call, destroy)
  }

  function Untracked(c: Calls, call: string): Calls {
    c.(channels := c.channels - {call},
       directions := c.directions - {call},
       lines := c.lines - {call},
       heldByMusic := c.heldByMusic - {call},
       ringMusic := c.ringMusic - {call})
  }

  /** Keep the maps of a call current. */
  function Refresh(c: Calls, call: string, channel: string, e: CallEvent): Calls {
    c.(channels := c.channels[call := channel],
       lines := if e.lineId.Some? && call !in c.lines then c.lines[call := e.lineId.value] else c.lines,
       directions := if e.inbound && call !in c.directions then c.directions[call := Inbound]
                     else c.directions)
  }

  /** The call maps after one mapped event. */
  function Track(c: Calls, e: CallEvent, destroy: Reply<()>): Calls {
    if e.callId.None? || e.channel.None? then c
    else if e.eventType == CallDisconnected then Forget(c, e.callId.value, destroy)
    else Refresh(c, e.callId.value, e.channel.value, e)
  }

  function MusicOf(cfg: Config, line: string): Music {
    if line in cfg.music then cfg.music[line] else Music("", "")
  }

  predicate StartsRingMusic(cfg: Config, c: Calls, e: CallEvent) {
    && e.eventType == CallRinging && e.inbound
    && e.callId.Some? && e.channel.Some? && e.callId.value !in c.ringMusic
    && MusicOf(cfg, if e.lineId.Some? then e.lineId.value else "").ring != ""
  }

  function RingMusic(cfg: Config, c: Calls, e: CallEvent): Calls {
    if StartsRingMusic(cfg, c, e) then c.(ringMusic := c.ringMusic + {e.callId.value}) else c
  }

  // ---- the pump ---------------------------------------------------------------

  datatype PumpReplies = PumpReplies(destroy: Reply<()>, bridge: BridgeReplies, join: Reply<()>)

  /** A mapped event: the new call records, and whether the event is surfaced. */
  function PumpEvent(cfg: Config, c: Calls, e: CallEvent, r: PumpReplies): (Calls, bool) {
    var c2 := RingMusic(cfg, Track(c, e, r.destroy), e);
    if e.eventType != CallAnswered || e.callId.None? then (c2, true)
    else
      var call := e.callId.value;
      if call in c2.ringMusic then (c2, false)        // the ring-music pickup, not a real one
      else if call in c2.pendingDials then
        (BridgeOperator(c2.(pendingDials := c2.pendingDials - {call}), call, c2.pendingDials[call], r.bridge).0, true)
      else (c2, true)
  }

  predicate IsOperatorEvent(c: Calls, raw: RawEvent) {
    raw.channelId.TextId? && raw.channelId.id in c.operatorChannels
  }

  /** One iteration of the pump loop. */
  function Pump(cfg: Config, s: State, raw: RawEvent, r: PumpReplies): State {
    if !cfg.configured then s
    else if IsOperatorEvent(s.calls, raw) then
      s.(calls := OperatorLeg(s.calls, raw.kind, raw.channelId.id, r.join))
    else match MapAriEvent(raw)
      case None => s
      case Some(e) =>
        var (c, surfaced) := PumpEvent(cfg, s.calls, e, r);
        s.(calls := c, buffer := if surfaced then s.buffer + [e] else s.buffer)
  }

  // ---- commands ---------------------------------------------------------------

  function Buffer(s: State, e: CallEvent): State {
    s.(buffer := s.buffer + [e])
  }

  function Acknowledge(s: State, cmd: string, call: Option<string>, accepted: bool, detail: Detail)
    : (State, Outcome)
  {
    var ack := Ack(cmd, accepted, call, detail);
    (s.(seen := s.seen[cmd := ack]), Acked(ack))
  }

  function Synthetic(call: string, t: EventType): CallEvent {
    CallEvent(t, Some(call), None, None, false, true)
  }

  /** A verb applied to the call's channel: answer, hangup, blind transfer. */
  function OnChannel(cfg: Config, s: State, cmd: string, call: string, verb: string, r: Reply<()>)
    : (State, Outcome)
  {
    if cmd in s.seen then (s, Acked(s.seen[cmd]))
    else if !cfg.configured then (s, NotConfigured)
    else if call !in s.calls.channels then Acknowledge(s, cmd, Some(call), false, CallNotTracked)
    else if r.Err? then Acknowledge(s, cmd, Some(call), false, GatewayError(r.error))
    else Acknowledge(s, cmd, Some(call), true, Done(verb))
  }

  function Dialed(c: Calls, call: string, channel: string, operatorKey: string): Calls {
    c.(channels := c.channels[call := channel],
       directions := c.directions[call := Outbound],
       pendingDials := if operatorKey != "" then c.pendingDials[call := operatorKey] else c.pendingDials)
  }

  /** `operatorKey` is "" when absent. */
  function Dial(cfg: Config, s: State, cmd: string, operatorKey: string, r: Reply<Originated>)
    : (State, Outcome)
  {
    if cmd in s.seen then (s, Acked(s.seen[cmd]))
    else if !cfg.configured then (s, NotConfigured)
    else if r.Err? then Acknowledge(s, cmd, None, false, GatewayError(r.error))
    else
      var call := if r.value.sipCallId != "" then Some(r.value.sipCallId) else r.value.channelId;
      var s1 := if call.Some? && r.value.channelId.Some?
        then s.(calls := Dialed(s.calls, call.value, r.value.channelId.value, operatorKey)) else s;
      Acknowledge(s1, cmd, call, true, Done("dial"))
  }

  /** Answering the trunk channel. If the caller was hearing queue music, it ends and the
      CALL_ANSWERED that the pump withheld is surfaced. */
  function PickUp(cfg: Config, s: State, cmd: string, call: string, verb: Reply<()>): (State, Outcome) {
    var wasRinging := call in s.calls.ringMusic;
    var s1 := if wasRinging && cfg.configured
      then s.(calls := s.calls.(ringMusic := s.calls.ringMusic - {call})) else s;
    var (s2, out) := OnChannel(cfg, s1, cmd, call, "answer", verb);
    if wasRinging && out.Acked? && out.ack.accepted then (Buffer(s2, Synthetic(call, CallAnswered)), out)
    else (s2, out)
  }

  /** Bring the operator into a call that was answered with outcome `out`. */
  function JoinOperator(s: State, cmd: string, call: string, operatorKey: string, bridge: BridgeReplies, out: Outcome)
    : (State, Outcome)
  {
    var (c, err) := BridgeOperator(s.calls, call, operatorKey, bridge);
    if err.None? then (s.(calls := c), out)
    else Acknowledge(s.(calls := c), cmd, Some(call), true, Unbridged(err.value))
  }

  function Answer(cfg: Config, s: State, cmd: string, call: string, operatorKey: string,
                  verb: Reply<()>, bridge: BridgeReplies): (State, Outcome)
  {
    if cmd in s.seen then (s, Acked(s.seen[cmd]))
    else
      var (s1, out) := PickUp(cfg, s, cmd, call, verb);
      if out.NotConfigured? || !out.ack.accepted || operatorKey == "" then (s1, out)
      else JoinOperator(s1, cmd, call, operatorKey, bridge, out)
  }

  function HoldMusic(cfg: Config, c: Calls, call: string): string {
    MusicOf(cfg, if call in c.lines then c.lines[call] else "").hold
  }

  function Held(cfg: Config, c: Calls, call: string): Calls {
    if HoldMusic(cfg, c, call) != "" && call in c.bridges
    then c.(heldByMusic := c.heldByMusic + {call}) else c
  }

  function Hold(cfg: Config, s: State, cmd: string, call: string, r: Reply<()>): (State, Outcome) {
    if cmd in s.seen then (s, Acked(s.seen[cmd]))
    else if !cfg.configured then (s, NotConfigured)
    else if call !in s.calls.channels then Acknowledge(s, cmd, Some(call), false, CallNotTracked)
    else if r.Err? then Acknowledge(s, cmd, Some(call), false, GatewayError(r.error))
    else
      Acknowledge(Buffer(s.(calls := Held(cfg, s.calls, call)), Synthetic(call, CallHeld)),
                  cmd, Some(call), true, Done("hold"))
  }

  function Resume(cfg: Config, s: State, cmd: string, call: string, r: Reply<()>): (State, Outcome) {
    if cmd in s.seen then (s, Acked(s.seen[cmd]))
    else if !cfg.configured then (s, NotConfigured)
    else if call !in s.calls.channels then Acknowledge(s, cmd, Some(call), false, CallNotTracked)
    else if r.Err? then Acknowledge(s, cmd, Some(call), false, GatewayError(r.error))
    else
      var c := s.calls.(heldByMusic := s.calls.heldByMusic - {call});
      Acknowledge(Buffer(s.(calls := c), Synthetic(call, CallResumed)), cmd, Some(call), true, Done("resume"))
  }

  function SendDtmf(cfg: Config, s: State, cmd: string, call: string, digits: string, r: Reply<()>)
    : (State, Outcome)
  {
    if cmd in s.seen then (s, Acked(s.seen[cmd]))
    else if !cfg.configured then (s, NotConfigured)
    else if call !in s.calls.channels then Acknowledge(s, cmd, Some(call), false, CallNotTracked)
    else
      var s1 := s.(dtmf := s.dtmf + [Dtmf(cmd, s.calls.channels[call], digits)]);
      if r.Err? then Acknowledge(s1, cmd, Some(call), false, TonesRejected)
      else Acknowledge(s1, cmd, Some(call), true, TonesSent)
  }

  /** Pop up to `limit` buffered events, oldest first. */
  function Drain(s: State, limit: nat): State {
    var n := if limit <= |s.buffer| then limit else |s.buffer|;
    s.(buffer := s.buffer[n..], drained := s.drained + s.buffer[..n])
  }

  // ---- runs -------------------------------------------------------------------

  datatype Step =
    | PumpStep(raw: RawEvent, replies: PumpReplies)
    | DialStep(cmd: string, operatorKey: string, dialed: Reply<Originated>)
    | AnswerStep(cmd: string, call: string, operatorKey: string, verb: Reply<()>, bridge: BridgeReplies)
    | VerbStep(cmd: string, call: string, verbName: string, verb: Reply<()>)   // hangup, blind transfer
    | HoldStep(cmd: string, call: string, verb: Reply<()>)
    | ResumeStep(cmd: string, call: string, verb: Reply<()>)
    | DtmfStep(cmd: string, call: string, digits: string, verb: Reply<()>)
    | DrainStep(limit: nat)

  function Apply(cfg: Config, s: State, step: Step): State {
    match step
    case PumpStep(raw, r) => Pump(cfg, s, raw, r)
    case DialStep(cmd, key, r) => Dial(cfg, s, cmd, key, r).0
    case AnswerStep(cmd, call, key, v, b) => Answer(cfg, s, cmd, call, key, v, b).0
    case VerbStep(cmd, call, name, v) => OnChannel(cfg, s, cmd, call, name, v).0
    case HoldStep(cmd, call, v) => Hold(cfg, s, cmd, call, v).0
    case ResumeStep(cmd, call, v) => Resume(cfg, s, cmd, call, v).0
    case DtmfStep(cmd, call, digits, v) => SendDtmf(cfg, s, cmd, call, digits, v).0
    case DrainStep(limit) => Drain(s, limit)
  }

  function Run(cfg: Config, s: State, steps: seq<Step>): State {
    if steps == [] then s
    else Apply(cfg, Run(cfg, s, steps[..|steps| - 1]), steps[|steps| - 1])
  }

  /** The gateway never reissues an operator bridge or leg id. */
  predicate Fresh(c: Calls, r: BridgeReplies) {
    && (r.create.Ok? ==> r.create.value !in c.gateway.created)
    && (r.originate.Ok? && r.originate.value.Some? ==> r.originate.value.value !in c.gateway.legs)
  }

  predicate Legal(s: State, step: Step) {
    match step
    case PumpStep(_, r) => Fresh(s.calls, r.bridge)
    case AnswerStep(_, _, _, _, b) => Fresh(s.calls, b)
    case _ => true
  }

  predicate LegalRun(cfg: Config, s: State, steps: seq<Step>) {
    steps == [] ||
    (LegalRun(cfg, s, steps[..|steps| - 1]) &&
     Legal(Run(cfg, s, steps[..|steps| - 1]), steps[|steps| - 1]))
  }
}
