/** The alphabet of the SIP event pump: ARI channel events and the normalized
    call events they map to (integrations/telephony_sip/events.py). */
module SipEvents {
  import opened Wrappers

  /** `channel["id"]` as it arrives from JSON: absent, a string (possibly empty),
      or some other truthy value whose text form is `text`. */
  datatype ChannelId = NoId | TextId(id: string) | OtherId(text: string)

  datatype RawEvent = RawEvent(
    kind: string,
    channelId: ChannelId,
    sipCallId: Option<string>,   // the SIPCALLID channel variable when truthy
    state: string,
    name: Option<string>,        // the channel name when truthy
    stasisArg: Option<string>,   // first Stasis argument when non-empty
    peerStatus: string)

  datatype EventType =
    | CallRinging
    | CallAnswered
    | CallHeld
    | CallResumed
    | CallDisconnected
    | DeviceRegistered
    | DeviceUnregistered
    | LineInService

  /** The wire name of an event type (the normalized event vocabulary). */
  function TypeName(t: EventType): string {
    match t
    case CallRinging => "CALL_RINGING"
    case CallAnswered => "CALL_ANSWERED"
    case CallHeld => "CALL_HELD"
    case CallResumed => "CALL_RESUMED"
    case CallDisconnected => "CALL_DISCONNECTED"
    case DeviceRegistered => "DEVICE_REGISTERED"
    case DeviceUnregistered => "DEVICE_UNREGISTERED"
    case LineInService => "LINE_IN_SERVICE"
  }

  datatype CallEvent = CallEvent(
    eventType: EventType,
    callId: Option<string>,
    lineId: Option<string>,
    channel: Option<string>,     // metadata["channel_id"] when it is a string
    inbound: bool,               // metadata["direction"] == "inbound"
    synthetic: bool)             // metadata["synthetic"]

  /** The stable call id: SIP Call-ID when known, else the channel id. */
  function CallIdOf(raw: RawEvent): Option<string> {
    if raw.sipCallId.Some? then raw.sipCallId
    else match raw.channelId
      case NoId => None
      case TextId(id) => if id == "" then None else Some(id)
      case OtherId(text) => Some(text)
  }

  /** The diagnostic channel id, kept only when it is a non-empty string. */
  function ChannelOf(raw: RawEvent): Option<string> {
    if raw.channelId.TextId? && raw.channelId.id != "" then Some(raw.channelId.id) else None
  }

  function Normalized(raw: RawEvent, t: EventType, inbound: bool): CallEvent {
    CallEvent(t, CallIdOf(raw), if raw.stasisArg.Some? then raw.stasisArg else raw.name,
              ChannelOf(raw), inbound, false)
  }

  predicate IsEndKind(kind: string) {
    kind in ["StasisEnd", "ChannelHangupRequest", "ChannelDestroyed"]
  }

  /** One ARI event to a normalized event, or `None` for events that are not surfaced. */
  function MapAriEvent(raw: RawEvent): Option<CallEvent> {
    if raw.kind == "StasisStart" then Some(Normalized(raw, CallRinging, true))
    else if raw.kind == "ChannelStateChange" then
      if raw.state == "Up" then Some(Normalized(raw, CallAnswered, false))
      else if raw.state in ["Ring", "Ringing"] then Some(Normalized(raw, CallRinging, false))
      else None
    else if raw.kind == "ChannelHold" then Some(Normalized(raw, CallHeld, false))
    else if raw.kind == "ChannelUnhold" then Some(Normalized(raw, CallResumed, false))
    else if IsEndKind(raw.kind) then Some(Normalized(raw, CallDisconnected, false))
    else if raw.kind == "PeerStatusChange" then
      if raw.peerStatus == "Reachable" then Some(Normalized(raw, DeviceRegistered, false))
      else if raw.peerStatus == "Unreachable" then Some(Normalized(raw, DeviceUnregistered, false))
      else None
    else None
  }
}
