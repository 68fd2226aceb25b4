/** The SIP adapter itself: one object whose methods update its maps, sets and event
    queue in place, each proved against the step function of `SipModel`. Gateway
    replies are parameters; requests whose failure the code suppresses need none. */
module SipProvider {
  import opened Wrappers
  import opened SipEvents
  import opened SipModel
  import SipSafety

  class SipTelephonyProvider {
    const cfg: Config
    var channels: map<string, string>
    var callDir: map<string, Direction>
    var callLines: map<string, string>
    var callBridges: map<string, string>
    var callOperatorCh: map<string, string>
    var operatorChannels: set<string>
    var pendingOperatorBridge: map<string, string>
    var dialOperator: map<string, string>
    var heldViaMoh: set<string>
    var ringMoh: set<string>
    var seen: map<string, Ack>
    var queue: seq<CallEvent>
    ghost var drained: seq<CallEvent>   // events already handed out
    ghost var gateway: Gateway          // what the gateway has seen
    ghost var dtmfSent: seq<Dtmf>

    ghost function CallModel(): Calls
      reads this
    {
      Calls(channels, callDir, callLines, callBridges, callOperatorCh, operatorChannels,
            pendingOperatorBridge, dialOperator, heldViaMoh, ringMoh, gateway)
    }

    ghost function Model(): State
      reads this
    {
      State(CallModel(), seen, queue, drained, dtmfSent)
    }

    /** The invariant of the call records, and no command was sent as DTMF twice. It holds
        between public calls; the helpers work in the middle of one. */
    ghost predicate Valid()
      reads this
    {
      SipSafety.Sound(Model())
    }

    constructor (cfg: Config)
      ensures Model() == Initial && this.cfg == cfg && Valid()
    {
      this.cfg := cfg;
      channels, callDir, callLines, callBridges, callOperatorCh := map[], map[], map[], map[], map[];
      operatorChannels, pendingOperatorBridge, dialOperator := {}, map[], map[];
      heldViaMoh, ringMoh, seen, queue := {}, {}, map[], [];
      drained, gateway, dtmfSent := [], NoGateway, [];
    }

    method HandleOperatorLeg(kind: string, channel: string, join: Reply<()>)
      modifies this
      ensures Model() == old(Model()).(calls := OperatorLeg(old(CallModel()), kind, channel, join))
    {
      if kind == "StasisStart" {
        if channel in pendingOperatorBridge && join.Ok? {
          gateway := Joined(gateway, pendingOperatorBridge[channel], channel);
        }
        pendingOperatorBridge := pendingOperatorBridge - {channel};
      } else if IsEndKind(kind) {
        operatorChannels := operatorChannels - {channel};
        pendingOperatorBridge := pendingOperatorBridge - {channel};
      }
    }

    method BridgeOperatorLeg(call: string, operatorKey: string, r: BridgeReplies) returns (err: Option<Detail>)
      modifies this`operatorChannels, this`pendingOperatorBridge, this`callBridges, this`callOperatorCh, this`gateway
      ensures CallModel() == BridgeOperator(old(CallModel()), call, operatorKey, r).0
      ensures err == BridgeOperator(old(CallModel()), call, operatorKey, r).1
    {
      if call !in channels { return Some(CallNotTracked); }
      if call in callBridges { return None; }
      if r.create.Err? { return Some(GatewayError(r.create.error)); }
      var bridge := r.create.value;
      ghost var before := CallModel();
      gateway := gateway.(created := gateway.created + {bridge});
      if r.addTrunk.Err? || r.originate.Err? || r.originate.value.None? {
        gateway := gateway.(stranded := gateway.stranded + {bridge});
        assert CallModel() == Stranded(before, bridge);
        if r.addTrunk.Err? { return Some(GatewayError(r.addTrunk.error)); }
        if r.originate.Err? { return Some(GatewayError(r.originate.error)); }
        return Some(NoOperatorChannel);
      }
      var leg := r.originate.value.value;
      gateway := Joined(gateway.(legs := gateway.legs[leg := operatorKey]), bridge, channels[call]);
      operatorChannels := operatorChannels + {leg};
      pendingOperatorBridge := pendingOperatorBridge[leg := bridge];
      callBridges := callBridges[call := bridge];
      callOperatorCh := callOperatorCh[call := leg];
      assert CallModel() == Bridged(before, call, operatorKey, bridge, leg);
      return None;
    }

    method Teardown(call: string, destroy: Reply<()>)
      modifies this`dialOperator, this`operatorChannels, this`pendingOperatorBridge, this`callBridges,
               this`callOperatorCh, this`gateway
      ensures CallModel() == TeardownBridge(old(CallModel()), call, destroy)
    {
      dialOperator := dialOperator - {call};
      ghost var c1 := CallModel();
      if call in callOperatorCh {
        var leg := callOperatorCh[call];
        callOperatorCh := callOperatorCh - {call};
        operatorChannels := operatorChannels - {leg};
        pendingOperatorBridge := pendingOperatorBridge - {leg};
      }
      ghost var c2 := CallModel();
      assert c2 == DropLeg(c1, call);
      if call in callBridges {
        var bridge := callBridges[call];
        callBridges := callBridges - {call};
        gateway := if destroy.Ok? then gateway.(destroyed := gateway.destroyed + {bridge})
                   else gateway.(stranded := gateway.stranded + {bridge});
      }
    }

    /** The first half of forgetting an ended call; `Teardown` is the second. */
    method Untrack(call: string)
      modifies this`channels, this`callDir, this`callLines, this`heldViaMoh, this`ringMoh
      ensures CallModel() == Untracked(old(CallModel()), call)
    {
      channels := channels - {call};
      callDir := callDir - {call};
      callLines := callLines - {call};
      heldViaMoh := heldViaMoh - {call};
      ringMoh := ringMoh - {call};
    }

    method RefreshCall(call: string, channel: string, e: CallEvent)
      modifies this`channels, this`callDir, this`callLines
      ensures CallModel() == Refresh(old(CallModel()), call, channel, e)
    {
      channels := channels[call := channel];
      if e.lineId.Some? && call !in callLines { callLines := callLines[call := e.lineId.value]; }
      if e.inbound && call !in callDir { callDir := callDir[call := Inbound]; }
    }

    /** The tracking part of the pump: forget an ended call, else keep its maps current. */
    method TrackEvent(e: CallEvent, destroy: Reply<()>)
      modifies this`channels, this`callDir, this`callLines, this`heldViaMoh, this`ringMoh, this`dialOperator,
               this`operatorChannels, this`pendingOperatorBridge, this`callBridges, this`callOperatorCh, this`gateway
      ensures CallModel() == Track(old(CallModel()), e, destroy)
    {
      if e.callId.Some? && e.channel.Some? {
        if e.eventType == CallDisconnected {
          Untrack(e.callId.value);
          Teardown(e.callId.value, destroy);
        } else {
          RefreshCall(e.callId.value, e.channel.value, e);
        }
      }
    }

    /** Queue music for a waiting caller. */
    method MaybeRing(e: CallEvent)
      modifies this`ringMoh
      ensures CallModel() == RingMusic(cfg, old(CallModel()), e)
    {
      if e.eventType == CallRinging && e.inbound && e.callId.Some? && e.channel.Some?
         && e.callId.value !in ringMoh
      {
        var line := if e.lineId.Some? then e.lineId.value else "";
        if line in cfg.music && cfg.music[line].ring != "" {
          ringMoh := ringMoh + {e.callId.value};
        }
      }
    }

    /** The pump's work on one mapped event. */
    method ProcessEvent(e: CallEvent, r: PumpReplies)
      modifies this
      ensures var (c, surfaced) := PumpEvent(cfg, old(CallModel()), e, r);
        Model() == old(Model()).(calls := c,
                                 buffer := if surfaced then old(queue) + [e] else old(queue))
    {
      TrackEvent(e, r.destroy);
      MaybeRing(e);
      ghost var c2 := CallModel();
      assert c2 == RingMusic(cfg, Track(old(CallModel()), e, r.destroy), e);
      if e.eventType == CallAnswered && e.callId.Some? && e.callId.value in ringMoh {
        return;
      }
      if e.eventType == CallAnswered && e.callId.Some? && e.callId.value in dialOperator {
        var operatorKey := dialOperator[e.callId.value];
        dialOperator := dialOperator - {e.callId.value};
        assert CallModel() == c2.(pendingDials := c2.pendingDials - {e.callId.value});
        var _ := BridgeOperatorLeg(e.callId.value, operatorKey, r.bridge);
      }
      queue := queue + [e];
    }

    /** One iteration of the pump loop over the ARI event stream. */
    method PumpOne(raw: RawEvent, r: PumpReplies)
      requires Valid() && Fresh(CallModel(), r.bridge)
      modifies this
      ensures Model() == Pump(cfg, old(Model()), raw, r)
      ensures Valid()
    {
      SipSafety.StepKeepsSound(cfg, Model(), PumpStep(raw, r));
      if !cfg.configured { return; }
      if raw.channelId.TextId? && raw.channelId.id in operatorChannels {
        HandleOperatorLeg(raw.kind, raw.channelId.id, r.join);
        return;
      }
      var mapped := MapAriEvent(raw);
      if mapped.Some? { ProcessEvent(mapped.value, r); }
    }

    /** Pop up to `limit` buffered events, oldest first. */
    method DrainEvents(limit: nat) returns (out: seq<CallEvent>)
      requires Valid()
      modifies this`queue, this`drained
      ensures Model() == Drain(old(Model()), limit)
      ensures drained == old(drained) + out
      ensures Valid()
    {
      SipSafety.StepKeepsSound(cfg, Model(), DrainStep(limit));
      out := PopEvents(limit);
      assert out == old(queue)[..|out|] && queue == old(queue)[|out|..];
      drained := drained + out;
    }

    method PopEvents(limit: nat) returns (out: seq<CallEvent>)
      modifies this`queue
      ensures out + queue == old(queue) && |out| == if |old(queue)| < limit then |old(queue)| else limit
    {
      out := [];
      while |out| < limit && queue != []
        invariant |out| <= limit && out + queue == old(queue)
        decreases |queue|
      {
        out, queue := out + [queue[0]], queue[1..];
      }
    }

    method Acknowledged(cmd: string, call: Option<string>, accepted: bool, detail: Detail)
      returns (out: Outcome)
      modifies this`seen
      ensures (Model(), out) == Acknowledge(old(Model()), cmd, call, accepted, detail)
    {
      var ack := Ack(cmd, accepted, call, detail);
      seen := seen[cmd := ack];
      out := Acked(ack);
    }

    method ChannelVerb(cmd: string, call: string, verb: string, r: Reply<()>) returns (out: Outcome)
      modifies this`seen
      ensures (Model(), out) == OnChannel(cfg, old(Model()), cmd, call, verb, r)
    {
      if cmd in seen { return Acked(seen[cmd]); }
      if !cfg.configured { return NotConfigured; }
      if call !in channels {
        out := Acknowledged(cmd, Some(call), false, CallNotTracked);
      } else if r.Err? {
        out := Acknowledged(cmd, Some(call), false, GatewayError(r.error));
      } else {
        out := Acknowledged(cmd, Some(call), true, Done(verb));
      }
    }

    method HangUp(cmd: string, call: string, r: Reply<()>) returns (out: Outcome)
      requires Valid()
      modifies this`seen
      ensures (Model(), out) == OnChannel(cfg, old(Model()), cmd, call, "hangup", r)
      ensures Valid()
    {
      SipSafety.StepKeepsSound(cfg, Model(), VerbStep(cmd, call, "hangup", r));
      out := ChannelVerb(cmd, call, "hangup", r);
    }

    method DialOut(cmd: string, operatorKey: string, r: Reply<Originated>) returns (out: Outcome)
      requires Valid()
      modifies this
      ensures (Model(), out) == Dial(cfg, old(Model()), cmd, operatorKey, r)
      ensures Valid()
    {
      SipSafety.StepKeepsSound(cfg, Model(), DialStep(cmd, operatorKey, r));
      if cmd in seen { return Acked(seen[cmd]); }
      if !cfg.configured { return NotConfigured; }
      if r.Err? {
        out := Acknowledged(cmd, None, false, GatewayError(r.error));
        return;
      }
      var call := if r.value.sipCallId != "" then Some(r.value.sipCallId) else r.value.channelId;
      if call.Some? && r.value.channelId.Some? {
        channels := channels[call.value := r.value.channelId.value];
        callDir := callDir[call.value := Outbound];
        if operatorKey != "" { dialOperator := dialOperator[call.value := operatorKey]; }
      }
      out := Acknowledged(cmd, call, true, Done("dial"));
    }

    /** The first half of `answer`: end queue music, answer the trunk channel. */
    method PickUpCall(cmd: string, call: string, verb: Reply<()>) returns (out: Outcome)
      modifies this`ringMoh, this`seen, this`queue
      ensures (Model(), out) == PickUp(cfg, old(Model()), cmd, call, verb)
    {
      var wasRinging := call in ringMoh;
      if wasRinging && cfg.configured { ringMoh := ringMoh - {call}; }
      out := ChannelVerb(cmd, call, "answer", verb);
      if wasRinging && out.Acked? && out.ack.accepted { queue := queue + [Synthetic(call, CallAnswered)]; }
    }

    /** The second half: the operator's leg; a failure is told in a new acknowledgement. */
    method JoinOperatorLeg(cmd: string, call: string, operatorKey: string, bridge: BridgeReplies, answered: Outcome)
      returns (out: Outcome)
      modifies this`operatorChannels, this`pendingOperatorBridge, this`callBridges, this`callOperatorCh, this`gateway,
               this`seen
      ensures (Model(), out) == JoinOperator(old(Model()), cmd, call, operatorKey, bridge, answered)
    {
      out := answered;
      var err := BridgeOperatorLeg(call, operatorKey, bridge);
      if err.Some? { out := Acknowledged(cmd, Some(call), true, Unbridged(err.value)); }
    }

    method AnswerCall(cmd: string, call: string, operatorKey: string, verb: Reply<()>, bridge: BridgeReplies)
      returns (out: Outcome)
      requires Valid() && Fresh(CallModel(), bridge)
      modifies this
      ensures (Model(), out) == Answer(cfg, old(Model()), cmd, call, operatorKey, verb, bridge)
      ensures Valid()
    {
      SipSafety.StepKeepsSound(cfg, Model(), AnswerStep(cmd, call, operatorKey, verb, bridge));
      if cmd in seen { return Acked(seen[cmd]); }
      out := PickUpCall(cmd, call, verb);
      if out.Acked? && out.ack.accepted && operatorKey != "" {
        out := JoinOperatorLeg(cmd, call, operatorKey, bridge, out);
      }
    }

    method HoldCall(cmd: string, call: string, r: Reply<()>) returns (out: Outcome)
      requires Valid()
      modifies this
      ensures (Model(), out) == Hold(cfg, old(Model()), cmd, call, r)
      ensures Valid()
    {
      SipSafety.StepKeepsSound(cfg, Model(), HoldStep(cmd, call, r));
      if cmd in seen { return Acked(seen[cmd]); }
      if !cfg.configured { return NotConfigured; }
      if call !in channels {
        out := Acknowledged(cmd, Some(call), false, CallNotTracked);
        return;
      }
      if r.Err? {
        out := Acknowledged(cmd, Some(call), false, GatewayError(r.error));
        return;
      }
      ConfirmHold(call);
      out := Acknowledged(cmd, Some(call), true, Done("hold"));
    }

    /** The gateway has put the call on hold. */
    method ConfirmHold(call: string)
      modifies this`heldViaMoh, this`queue
      ensures Model() ==
        Buffer(old(Model()).(calls := Held(cfg, old(CallModel()), call)), Synthetic(call, CallHeld))
    {
      var line := if call in callLines then callLines[call] else "";
      if line in cfg.music && cfg.music[line].hold != "" && call in callBridges {
        heldViaMoh := heldViaMoh + {call};
      }
      queue := queue + [Synthetic(call, CallHeld)];
    }

    method ResumeCall(cmd: string, call: string, r: Reply<()>) returns (out: Outcome)
      requires Valid()
      modifies this
      ensures (Model(), out) == Resume(cfg, old(Model()), cmd, call, r)
      ensures Valid()
    {
      SipSafety.StepKeepsSound(cfg, Model(), ResumeStep(cmd, call, r));
      if cmd in seen { return Acked(seen[cmd]); }
      if !cfg.configured { return NotConfigured; }
      if call !in channels {
        out := Acknowledged(cmd, Some(call), false, CallNotTracked);
        return;
      }
      if r.Err? {
        out := Acknowledged(cmd, Some(call), false, GatewayError(r.error));
        return;
      }
      if call in heldViaMoh { heldViaMoh := heldViaMoh - {call}; }
      assert heldViaMoh == old(heldViaMoh) - {call};
      queue := queue + [Synthetic(call, CallResumed)];
      out := Acknowledged(cmd, Some(call), true, Done("resume"));
    }

    method SendTones(cmd: string, call: string, digits: string, r: Reply<()>) returns (out: Outcome)
      requires Valid()
      modifies this
      ensures (Model(), out) == SendDtmf(cfg, old(Model()), cmd, call, digits, r)
      ensures Valid()
    {
      SipSafety.StepKeepsSound(cfg, Model(), DtmfStep(cmd, call, digits, r));
      if cmd in seen { return Acked(seen[cmd]); }
      if !cfg.configured { return NotConfigured; }
      if call !in channels {
        out := Acknowledged(cmd, Some(call), false, CallNotTracked);
        return;
      }
      dtmfSent := dtmfSent + [Dtmf(cmd, channels[call], digits)];
      if r.Err? {
        out := Acknowledged(cmd, Some(call), false, TonesRejected);
      } else {
        out := Acknowledged(cmd, Some(call), true, TonesSent);
      }
    }
  }
}
