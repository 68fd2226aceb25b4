/** Telephony ingestion through the deduplicating provider inbox
    (server/bbz_core/infra/telephony_ingest.py, server/bbz_core/infra/inbox.py). */
module DedupeKeys {

  /** The fields of a normalized event the key is made of; `callId` is "" when absent. */
  datatype Event = Event(provider: string, eventType: string, callId: string, eventId: string)

  const CALL_TYPES: seq<string> :=
    ["CALL_OFFERED", "CALL_RINGING", "CALL_ANSWERED", "CALL_CONNECTED", "CALL_HELD", "CALL_RESUMED",
     "CALL_TRANSFER_INITIATED", "CALL_TRANSFERRED", "CALL_CONFERENCED", "CALL_DISCONNECTED", "CALL_FAILED"]

  const STATE_TYPES: seq<string> :=
    ["LINE_IN_SERVICE", "LINE_OUT_OF_SERVICE", "DEVICE_REGISTERED", "DEVICE_UNREGISTERED",
     "CTI_PROVIDER_IN_SERVICE", "CTI_PROVIDER_OUT_OF_SERVICE"]

  /** The event schema accepts the type and the event id. */
  predicate Accepted(e: Event) {
    (e.eventType in CALL_TYPES || e.eventType in STATE_TYPES) && e.eventId != ""
  }

  predicate IsCallEvent(e: Event) {
    e.callId != "" && e.eventType in CALL_TYPES
  }

  /** What the key says besides the provider. */
  function Subject(e: Event): string {
    if IsCallEvent(e) then "call:" + (e.callId + (":" + e.eventType)) else "evt:" + e.eventId
  }

  function DedupeKey(e: Event): string {
    "telephony:" + (e.provider + (":" + Subject(e)))
  }

  /** The key under which the event's inbound signal is queued. */
  function SignalKey(e: Event): string {
    "signal:" + DedupeKey(e)
  }

  predicate NoColon(s: string) {
    forall i :: 0 <= i < |s| ==> s[i] != ':'
  }

  /** The same call and type, or the same provider event id: one event, seen again. */
  predicate SameEvent(a: Event, b: Event) {
    && a.provider == b.provider && IsCallEvent(a) == IsCallEvent(b)
    && (if IsCallEvent(a) then a.callId == b.callId && a.eventType == b.eventType else a.eventId == b.eventId)
  }

  lemma CancelPrefix(p: string, x: string, y: string)
    requires p + x == p + y
    ensures x == y
  {
    assert x == (p + x)[|p|..];
    assert y == (p + y)[|p|..];
  }

  /** A colon-free prefix ends at the first colon. */
  lemma SplitFirstColon(p: string, x: string, q: string, y: string)
    requires NoColon(p) && NoColon(q) && p + (":" + x) == q + (":" + y)
    ensures p == q && x == y
  {
    var s := p + (":" + x);
    assert s[|p|] == ':' && s[|q|] == ':';
    assert forall i :: 0 <= i < |p| ==> s[i] == p[i];
    assert forall i :: 0 <= i < |q| ==> s[i] == q[i];
    assert |p| == |q|;
    assert p == s[..|p|] && q == s[..|p|];
    CancelPrefix(p, ":" + x, ":" + y);
    CancelPrefix(":", x, y);
  }

  /** A colon-free suffix starts after the last colon. */
  lemma SplitLastColon(c: string, t: string, d: string, u: string)
    requires NoColon(t) && NoColon(u) && c + (":" + t) == d + (":" + u)
    ensures c == d && t == u
  {
    var s := c + (":" + t);
    assert s[|c|] == ':' && s[|d|] == ':';
    assert forall i :: |c| < i < |s| ==> s[i] == t[i - |c| - 1];
    assert forall i :: |d| < i < |s| ==> s[i] == u[i - |d| - 1];
    assert |c| == |d|;
    assert c == s[..|c|] && d == s[..|c|];
    CancelPrefix(c, ":" + t, ":" + u);
    CancelPrefix(":", t, u);
  }

  lemma CallTypesHaveNoColon(t: string)
    requires t in CALL_TYPES
    ensures NoColon(t)
  {
  }

  /** For one provider the rest of the key identifies the event. */
  lemma SubjectsIdentify(a: Event, b: Event)
    requires a.provider == b.provider && Subject(a) == Subject(b)
    ensures SameEvent(a, b)
  {
    var ra, rb := Subject(a), Subject(b);
    assert ra[0] == (if IsCallEvent(a) then 'c' else 'e');
    assert rb[0] == (if IsCallEvent(b) then 'c' else 'e');
    if IsCallEvent(a) {
      CancelPrefix("call:", a.callId + (":" + a.eventType), b.callId + (":" + b.eventType));
      CallTypesHaveNoColon(a.eventType);
      CallTypesHaveNoColon(b.eventType);
      SplitLastColon(a.callId, a.eventType, b.callId, b.eventType);
    } else {
      CancelPrefix("evt:", a.eventId, b.eventId);
    }
  }

  /** With colon-free provider names two keys are equal exactly for the same event. */
  lemma KeysIdentifyEvents(a: Event, b: Event)
    requires NoColon(a.provider) && NoColon(b.provider)
    ensures DedupeKey(a) == DedupeKey(b) <==> SameEvent(a, b)
  {
    if DedupeKey(a) == DedupeKey(b) {
      CancelPrefix("telephony:", a.provider + (":" + Subject(a)), b.provider + (":" + Subject(b)));
      SplitFirstColon(a.provider, Subject(a), b.provider, Subject(b));
      SubjectsIdentify(a, b);
    }
  }

  // ---- exactly which provider names can be confused ---------------------------------------

  /** The name `q` reads like a key of provider `p`. */
  predicate Extends(p: string, q: string) {
    p + ":evt:" <= q + ":" || p + ":call:" <= q + ":"
  }

  /** No key of one provider is a key of the other for a different event. */
  ghost predicate KeysTellApart(p: string, q: string) {
    forall a: Event, b: Event | a.provider == p && b.provider == q ::
      DedupeKey(a) == DedupeKey(b) <==> SameEvent(a, b)
  }

  /** The same of events that the schema accepts. */
  ghost predicate AcceptedTellApart(p: string, q: string) {
    forall a: Event, b: Event | a.provider == p && b.provider == q && Accepted(a) && Accepted(b) ::
      DedupeKey(a) == DedupeKey(b) <==> SameEvent(a, b)
  }

  lemma SubjectStarts(e: Event)
    ensures "evt:" <= Subject(e) || "call:" <= Subject(e)
  {
  }

  /** Equal keys of providers of different lengths: the longer name extends the shorter. */
  lemma LongerExtends(a: Event, b: Event)
    requires DedupeKey(a) == DedupeKey(b) && |a.provider| < |b.provider|
    ensures Extends(a.provider, b.provider)
  {
    var p, q := a.provider, b.provider;
    CancelPrefix("telephony:", p + (":" + Subject(a)), q + (":" + Subject(b)));
    SubjectStarts(a);
    SubjectExtends(p, Subject(a), q, Subject(b));
  }

  lemma SubjectExtends(p: string, x: string, q: string, y: string)
    requires "evt:" <= x || "call:" <= x
    requires |p| < |q| && p + (":" + x) == q + (":" + y)
    ensures Extends(p, q)
  {
    if "evt:" <= x {
      HeadExtends(p, "evt", x, q, y);
      assert p + (":" + ("evt" + ":")) == p + ":evt:";
    } else {
      HeadExtends(p, "call", x, q, y);
      assert p + (":" + ("call" + ":")) == p + ":call:";
    }
  }

  /** The kind that follows the shorter name ends at a colon of the longer one. */
  lemma HeadExtends(p: string, kind: string, x: string, q: string, y: string)
    requires NoColon(kind) && kind + ":" <= x && |p| < |q|
    requires p + (":" + x) == q + (":" + y)
    ensures p + (":" + (kind + ":")) <= q + ":"
  {
    var s, head := p + (":" + x), p + (":" + (kind + ":"));
    assert head <= s by { assert s == head + x[|kind| + 1..]; }
    assert q + ":" <= s by { assert s == q + ":" + y; }
    assert s[|q|] == ':';
    assert forall i :: |p| < i < |p| + 1 + |kind| ==> s[i] == kind[i - |p| - 1];
  }

  lemma EvtCollides(p: string, q: string) returns (a: Event, b: Event)
    requires p + ":evt:" <= q + ":"
    ensures a.provider == p && b.provider == q && Accepted(a) && Accepted(b) && DedupeKey(a) == DedupeKey(b)
  {
    var head, t := p + ":evt:", STATE_TYPES[0];
    var id := (q + ":" + "evt:x")[|head|..];
    a, b := Event(p, t, "", id), Event(q, t, "", "x");
    assert |id| > 0;
    assert q + ":" + "evt:x" == head + id;
    assert p + (":" + ("evt:" + id)) == head + id;
    assert q + (":" + ("evt:" + "x")) == q + ":" + "evt:x";
  }

  lemma CallCollides(p: string, q: string) returns (a: Event, b: Event)
    requires p + ":call:" <= q + ":"
    ensures a.provider == p && b.provider == q && Accepted(a) && Accepted(b) && DedupeKey(a) == DedupeKey(b)
  {
    var head, t := p + ":call:", CALL_TYPES[0];
    var id := (q + ":" + "call:c")[|head|..];
    a, b := Event(p, t, id, "x"), Event(q, t, "c", "x");
    assert |id| > 0;
    assert q + ":" + "call:c" == head + id;
    assert p + (":" + ("call:" + (id + (":" + t)))) == head + id + (":" + t);
    assert q + (":" + ("call:" + ("c" + (":" + t)))) == q + ":" + "call:c" + (":" + t);
  }

  lemma ExtendingCollides(p: string, q: string) returns (a: Event, b: Event)
    requires Extends(p, q)
    ensures a.provider == p && b.provider == q && p != q
    ensures Accepted(a) && Accepted(b) && DedupeKey(a) == DedupeKey(b)
  {
    if p + ":evt:" <= q + ":" {
      a, b := EvtCollides(p, q);
    } else {
      a, b := CallCollides(p, q);
    }
  }

  /** Two providers' keys identify their events, all or only those the schema accepts,
      exactly when the names are equal or neither continues the other with `:evt` or
      `:call`. */
  lemma KeysExact(p: string, q: string)
    ensures KeysTellApart(p, q) <==> p == q || (!Extends(p, q) && !Extends(q, p))
    ensures AcceptedTellApart(p, q) <==> p == q || (!Extends(p, q) && !Extends(q, p))
  {
    if p != q && Extends(p, q) {
      var a, b := ExtendingCollides(p, q);
      assert !SameEvent(a, b);
    } else if p != q && Extends(q, p) {
      var b, a := ExtendingCollides(q, p);
      assert !SameEvent(a, b);
    } else {
      forall a: Event, b: Event | a.provider == p && b.provider == q && DedupeKey(a) == DedupeKey(b)
        ensures SameEvent(a, b)
      {
        EqualKeysAgree(a, b);
      }
    }
  }

  lemma EqualKeysAgree(a: Event, b: Event)
    requires DedupeKey(a) == DedupeKey(b)
    requires a.provider == b.provider || (!Extends(a.provider, b.provider) && !Extends(b.provider, a.provider))
    ensures SameEvent(a, b)
  {
    var p, q := a.provider, b.provider;
    CancelPrefix("telephony:", p + (":" + Subject(a)), q + (":" + Subject(b)));
    if |p| < |q| {
      LongerExtends(a, b);
    } else if |q| < |p| {
      LongerExtends(b, a);
    } else {
      assert p == (p + (":" + Subject(a)))[..|p|] == q;
      CancelPrefix(p, ":" + Subject(a), ":" + Subject(b));
      CancelPrefix(":", Subject(a), Subject(b));
      SubjectsIdentify(a, b);
    }
  }

  /** Without a call id nothing but the event id tells events apart, whatever their types. */
  lemma UnnamedCalls(a: Event, b: Event)
    requires a.provider == b.provider && a.callId == "" && b.callId == ""
    ensures DedupeKey(a) == DedupeKey(b) <==> a.eventId == b.eventId
  {
    if DedupeKey(a) == DedupeKey(b) {
      CancelPrefix("telephony:", a.provider + (":" + Subject(a)), b.provider + (":" + Subject(b)));
      CancelPrefix(a.provider, ":" + Subject(a), ":" + Subject(b));
      CancelPrefix(":", Subject(a), Subject(b));
      CancelPrefix("evt:", a.eventId, b.eventId);
    }
  }

  /** Of one call, events of two of the eleven call types are two events, and of any other
      type those with two event ids are. */
  lemma CallTypesTellApart(provider: string, call: string, i: nat, j: nat, x: string, y: string)
    requires call != "" && i < j < 11
    ensures |CALL_TYPES| == 11 && CALL_TYPES[i] != CALL_TYPES[j] && CALL_TYPES[i][..5] == "CALL_"
    ensures DedupeKey(Event(provider, CALL_TYPES[i], call, x)) != DedupeKey(Event(provider, CALL_TYPES[j], call, x))
    ensures DedupeKey(Event(provider, CALL_TYPES[i], call, x)) == DedupeKey(Event(provider, CALL_TYPES[i], call, y))
  {
    DistinctTypes(i, j);
    var a, b := Event(provider, CALL_TYPES[i], call, x), Event(provider, CALL_TYPES[j], call, x);
    if DedupeKey(a) == DedupeKey(b) {
      CancelPrefix("telephony:", provider + (":" + Subject(a)), provider + (":" + Subject(b)));
      CancelPrefix(provider, ":" + Subject(a), ":" + Subject(b));
      CancelPrefix(":", Subject(a), Subject(b));
      SubjectsIdentify(a, b);
    }
  }

  lemma DistinctTypes(i: nat, j: nat)
    requires i < j < 11
    ensures |CALL_TYPES| == 11 && CALL_TYPES[i] != CALL_TYPES[j] && CALL_TYPES[i][..5] == "CALL_"
  {
  }

  /** Signal rows and event rows never collide. */
  lemma SignalKeysDisjoint(a: Event, b: Event)
    ensures SignalKey(a) != DedupeKey(b)
  {
    assert SignalKey(a)[0] == 's' && DedupeKey(b)[0] == 't';
  }

  /** Without the colon rule distinct events can share a key. */
  lemma ColonInProviderCollides()
    ensures var a := Event("a", "LINE_IN_SERVICE", "", "b:evt:c");
      var b := Event("a:evt:b", "LINE_IN_SERVICE", "", "c");
      !SameEvent(a, b) && DedupeKey(a) == DedupeKey(b)
  {
    var a := Event("a", "LINE_IN_SERVICE", "", "b:evt:c");
    var b := Event("a:evt:b", "LINE_IN_SERVICE", "", "c");
    assert "a" + (":" + ("evt:" + "b:evt:c")) == "a:evt:b" + (":" + ("evt:" + "c"));
    assert a.provider != b.provider by { assert |a.provider| != |b.provider|; }
  }
}

/** Interleaved ingestion transactions on any number of nodes. */
module Ingest {
  import opened DedupeKeys

  type Node = nat

  /** An open transaction: its event, and whether its insert was the first for the key. */
  datatype Txn = Txn(event: Event, isNew: bool)

  /** Committed keys, open transactions, and the logs of committed ingestions and of
      events handed to the call aggregate by committed transactions. */
  datatype State = State(keys: set<string>, open: map<Node, Txn>,
                         ingested: seq<Event>, dispatched: seq<Event>)

  datatype Step =
    | Begin(n: Node, e: Event)       // insert-if-absent; waits while another open insert holds the key
    | Commit(n: Node)                // dispatch, mark processed and commit together
    | Rollback(n: Node)              // the hand-off raised, or the node crashed

  predicate Blocked(s: State, e: Event) {
    exists m :: m in s.open && s.open[m].isNew && DedupeKey(s.open[m].event) == DedupeKey(e)
  }

  function Apply(s: State, step: Step): State {
    match step
    case Begin(n, e) =>
      if n in s.open || Blocked(s, e) then s
      else s.(open := s.open[n := Txn(e, DedupeKey(e) !in s.keys)])
    case Commit(n) =>
      if n !in s.open then s
      else
        var t := s.open[n];
        State(if t.isNew then s.keys + {DedupeKey(t.event)} else s.keys, s.open - {n},
              s.ingested + [t.event], if t.isNew then s.dispatched + [t.event] else s.dispatched)
    case Rollback(n) => s.(open := s.open - {n})
  }

  function Run(s: State, steps: seq<Step>): State {
    if steps == [] then s else Apply(Run(s, steps[..|steps| - 1]), steps[|steps| - 1])
  }

  const Start: State := State({}, map[], [], [])

  function KeysOf(es: seq<Event>): set<string> {
    set i | 0 <= i < |es| :: DedupeKey(es[i])
  }

  /** The events whose key does not occur earlier. */
  function FirstOccurrences(es: seq<Event>): seq<Event> {
    if es == [] then []
    else
      var init := es[..|es| - 1];
      if DedupeKey(es[|es| - 1]) in KeysOf(init) then FirstOccurrences(init)
      else FirstOccurrences(init) + [es[|es| - 1]]
  }

  ghost predicate Inv(s: State) {
    && s.keys == KeysOf(s.ingested)
    && s.dispatched == FirstOccurrences(s.ingested)
    && (forall n :: n in s.open ==> (s.open[n].isNew <==> DedupeKey(s.open[n].event) !in s.keys))
    && (forall m, n :: m in s.open && n in s.open && m != n && s.open[m].isNew && s.open[n].isNew ==>
          DedupeKey(s.open[m].event) != DedupeKey(s.open[n].event))
  }

  lemma KeysAppend(es: seq<Event>, e: Event)
    ensures KeysOf(es + [e]) == KeysOf(es) + {DedupeKey(e)}
  {
    var all := es + [e];
    forall k | k in KeysOf(es) + {DedupeKey(e)} ensures k in KeysOf(all) {
      if k == DedupeKey(e) {
        assert all[|es|] == e;
      } else {
        var i :| 0 <= i < |es| && DedupeKey(es[i]) == k;
        assert all[i] == es[i];
      }
    }
  }

  lemma StepKeeps(s: State, step: Step)
    requires Inv(s)
    ensures Inv(Apply(s, step))
  {
    match step
    case Commit(n) =>
      if n in s.open {
        var e := s.open[n].event;
        KeysAppend(s.ingested, e);
        assert (s.ingested + [e])[..|s.ingested + [e]| - 1] == s.ingested;
        if s.open[n].isNew {
          forall m | m in s.open && m != n && s.open[m].isNew
            ensures DedupeKey(s.open[m].event) !in s.keys + {DedupeKey(e)} {}
        }
      }
    case _ =>
  }

  /** However replays are interleaved over the nodes, the events handed to the call
      aggregate are exactly the first occurrences per key among the committed ones. */
  lemma {:induction false} DispatchedAreFirstOccurrences(steps: seq<Step>)
    ensures Inv(Run(Start, steps))
    ensures Run(Start, steps).dispatched == FirstOccurrences(Run(Start, steps).ingested)
  {
    if steps != [] {
      DispatchedAreFirstOccurrences(steps[..|steps| - 1]);
      StepKeeps(Run(Start, steps[..|steps| - 1]), steps[|steps| - 1]);
    } else {
      assert KeysOf([]) == {};
    }
  }

  /** First occurrences keep every key once. */
  lemma {:induction false} FirstOccurrencesDistinct(es: seq<Event>)
    ensures KeysOf(FirstOccurrences(es)) == KeysOf(es)
    ensures var f := FirstOccurrences(es);
      forall i, j :: 0 <= i < j < |f| ==> DedupeKey(f[i]) != DedupeKey(f[j])
  {
    if es != [] {
      var init, e := es[..|es| - 1], es[|es| - 1];
      FirstOccurrencesDistinct(init);
      assert es == init + [e];
      KeysAppend(init, e);
      if DedupeKey(e) !in KeysOf(init) {
        var f := FirstOccurrences(init);
        KeysAppend(f, e);
        forall i | 0 <= i < |f| ensures DedupeKey(f[i]) != DedupeKey(e) {
          assert DedupeKey(f[i]) in KeysOf(f);
        }
      }
    }
  }

  /** At most one event per provider, call and type reaches the call aggregate, in any run. */
  lemma OncePerCallAndType(steps: seq<Step>, i: nat, j: nat)
    ensures var d := Run(Start, steps).dispatched;
      i < |d| && j < |d| && SameEvent(d[i], d[j]) ==> i == j
  {
    DispatchedAreFirstOccurrences(steps);
    var s := Run(Start, steps);
    FirstOccurrencesDistinct(s.ingested);
    if i < |s.dispatched| && j < |s.dispatched| && SameEvent(s.dispatched[i], s.dispatched[j]) {
      assert DedupeKey(s.dispatched[i]) == DedupeKey(s.dispatched[j]);
    }
  }

  lemma RunThree(s: State, a: Step, b: Step, c: Step)
    ensures Run(s, [a, b, c]) == Apply(Apply(Apply(s, a), b), c)
  {
    assert [a, b, c][..2] == [a, b] && [a, b][..1] == [a] && [a][..0] == [];
    assert Run(s, [a]) == Apply(Run(s, []), a);
    assert Run(s, [a, b]) == Apply(Run(s, [a]), b);
  }

  /** A transaction that is rolled back leaves no trace: the event, seen again, is still new
      and reaches the call aggregate. */
  lemma RolledBackIsRetried(s: State, n: Node)
    requires Inv(s) && n in s.open && s.open[n].isNew
    ensures var e := s.open[n].event;
      Run(s, [Rollback(n), Begin(n, e), Commit(n)]).dispatched == s.dispatched + [e]
  {
    var e := s.open[n].event;
    RunThree(s, Rollback(n), Begin(n, e), Commit(n));
    assert !Blocked(Apply(s, Rollback(n)), e);
  }

  // ---- the inbox object --------------------------------------------------------------

  datatype Outcome = New | Duplicate

  datatype InboxRow = InboxRow(id: nat, processed: bool)

  class ProviderInbox {
    var rows: map<string, InboxRow>
    var dispatched: seq<Event>

    constructor ()
      ensures rows == map[] && dispatched == []
    {
      rows, dispatched := map[], [];
    }

    /** Insert-if-absent on the dedupe key. */
    method Record(key: string, id: nat) returns (outcome: Outcome, rowId: nat)
      modifies this`rows
      ensures outcome == (if key in old(rows) then Duplicate else New)
      ensures rows == if key in old(rows) then old(rows) else old(rows)[key := InboxRow(id, false)]
      ensures rowId == if key in old(rows) then old(rows)[key].id else id
    {
      if key in rows { return Duplicate, rows[key].id; }
      rows := rows[key := InboxRow(id, false)];
      return New, id;
    }

    /** One ingestion transaction; `raises` says whether the hand-off raises, in which
        case nothing of the transaction stays. */
    method IngestEvent(e: Event, id: nat, raises: bool) returns (outcome: Outcome)
      modifies this
      ensures outcome == if DedupeKey(e) in old(rows) then Duplicate else New
      ensures outcome == Duplicate || raises ==> rows == old(rows) && dispatched == old(dispatched)
      ensures outcome == New && !raises ==>
        dispatched == old(dispatched) + [e] && rows == old(rows)[DedupeKey(e) := InboxRow(id, true)]
    {
      var before := rows;
      var rowId;
      outcome, rowId := Record(DedupeKey(e), id);
      if outcome == New {
        if raises {
          rows := before;
          return;
        }
        dispatched := dispatched + [e];
        rows := rows[DedupeKey(e) := rows[DedupeKey(e)].(processed := true)];
      }
    }
  }
}

/** The SIP adapter's surfaced events after ingestion. */
module SipIngest {
  import opened SipEvents
  import opened SipModel
  import opened SipSafety
  import opened DedupeKeys
  import Ingest

  /** A surfaced event as it is handed to ingestion, under the event id it was given. */
  function Handed(e: CallEvent, id: string): Event {
    Event("telephony_sip", TypeName(e.eventType), if e.callId.Some? then e.callId.value else "", id)
  }

  /** Different types have different names on the wire, and the call types are those whose
      events are about calls. */
  lemma NamesTellTypes(a: EventType, b: EventType)
    ensures TypeName(a) == TypeName(b) <==> a == b
    ensures TypeName(a) in CALL_TYPES <==> a in [CallRinging, CallAnswered, CallHeld, CallResumed, CallDisconnected]
    ensures TypeName(CallHeld) == "CALL_HELD" && TypeName(CallResumed) == "CALL_RESUMED"
  {
  }

  /** The event comes from the adapter's history, under some event id. */
  ghost predicate FromHistory(h: seq<CallEvent>, e: Event) {
    exists i, id :: 0 <= i < |h| && e == Handed(h[i], id)
  }

  ghost predicate Feeds(h: seq<CallEvent>, steps: seq<Ingest.Step>) {
    forall k :: 0 <= k < |steps| && steps[k].Begin? ==> FromHistory(h, steps[k].e)
  }

  predicate AnswersCall(e: Event, call: string) {
    e.callId == call && call != "" && e.eventType == "CALL_ANSWERED"
  }

  /** Everything ingestion has at hand comes from the adapter's history. */
  ghost predicate AllFrom(h: seq<CallEvent>, s: Ingest.State) {
    && (forall k :: 0 <= k < |s.dispatched| ==> FromHistory(h, s.dispatched[k]))
    && (forall n :: n in s.open ==> FromHistory(h, s.open[n].event))
  }

  lemma StepFrom(h: seq<CallEvent>, s: Ingest.State, step: Ingest.Step)
    requires AllFrom(h, s) && (step.Begin? ==> FromHistory(h, step.e))
    ensures AllFrom(h, Ingest.Apply(s, step))
  {
  }

  lemma {:induction false} DispatchedFrom(h: seq<CallEvent>, steps: seq<Ingest.Step>)
    requires Feeds(h, steps)
    ensures AllFrom(h, Ingest.Run(Ingest.Start, steps))
  {
    if steps != [] {
      var before, last := steps[..|steps| - 1], steps[|steps| - 1];
      DispatchedFrom(h, before);
      StepFrom(h, Ingest.Run(Ingest.Start, before), last);
    }
  }

  ghost predicate Surfaced(h: seq<CallEvent>, call: string) {
    exists k :: 0 <= k < |h| && IsAnswerOf(h[k], call)
  }

  lemma AnsweredOnce(h: seq<CallEvent>, steps: seq<Ingest.Step>, call: string, i: nat, j: nat)
    requires Feeds(h, steps)
    requires var d := Ingest.Run(Ingest.Start, steps).dispatched;
      i < |d| && j < |d| && AnswersCall(d[i], call) && AnswersCall(d[j], call)
    ensures i == j
  {
    var d := Ingest.Run(Ingest.Start, steps).dispatched;
    DispatchedFrom(h, steps);
    assert FromHistory(h, d[i]) && FromHistory(h, d[j]);
    assert d[i].provider == d[j].provider;
    assert "CALL_ANSWERED" in CALL_TYPES by { assert CALL_TYPES[2] == "CALL_ANSWERED"; }
    Ingest.OncePerCallAndType(steps, i, j);
  }

  /** Whatever a run of the adapter surfaces — a real CALL_ANSWERED, a synthetic one, or
      both — and however often ingestion sees it, at most one CALL_ANSWERED per call
      reaches the call aggregate, and only if the adapter surfaced one for that call. */
  lemma OneAnswerPerCall(cfg: Config, sip: seq<Step>, steps: seq<Ingest.Step>, call: string, i: nat, j: nat)
    requires Feeds(History(Run(cfg, Initial, sip)), steps)
    ensures var d := Ingest.Run(Ingest.Start, steps).dispatched;
      && (i < |d| && AnswersCall(d[i], call) ==> Surfaced(History(Run(cfg, Initial, sip)), call))
      && (i < |d| && j < |d| && AnswersCall(d[i], call) && AnswersCall(d[j], call) ==> i == j)
  {
    var h, d := History(Run(cfg, Initial, sip)), Ingest.Run(Ingest.Start, steps).dispatched;
    if i < |d| && AnswersCall(d[i], call) {
      DispatchedFrom(h, steps);
      var k := AnswerSurfaced(h, d[i], call);
      if j < |d| && AnswersCall(d[j], call) { AnsweredOnce(h, steps, call, i, j); }
    }
  }

  lemma AnswerSurfaced(h: seq<CallEvent>, e: Event, call: string) returns (k: nat)
    requires FromHistory(h, e) && AnswersCall(e, call)
    ensures k < |h| && IsAnswerOf(h[k], call)
  {
    var i, id :| 0 <= i < |h| && e == Handed(h[i], id);
    OnlyAnsweredIsAnswered(h[i].eventType);
    k := i;
  }

  lemma OnlyAnsweredIsAnswered(t: EventType)
    ensures TypeName(t) == "CALL_ANSWERED" <==> t == CallAnswered
  {
  }

  /** Queue music, end to end: from the start of ring music until the first new answer
      command or the disconnect, no CALL_ANSWERED of that call reaches the aggregate. */
  lemma RingingCallIsNotAnswered(cfg: Config, s: State, sip: seq<Step>, steps: seq<Ingest.Step>, call: string, i: nat)
    requires call in s.calls.ringMusic
    requires forall k :: 0 <= k < |History(s)| ==> !IsAnswerOf(History(s)[k], call)
    requires forall k :: 0 <= k < |sip| ==> !EndsRinging(Run(cfg, s, sip[..k]), sip[k], call)
    requires Feeds(History(Run(cfg, s, sip)), steps)
    ensures var d := Ingest.Run(Ingest.Start, steps).dispatched; i < |d| ==> !AnswersCall(d[i], call)
  {
    var h, d := History(Run(cfg, s, sip)), Ingest.Run(Ingest.Start, steps).dispatched;
    var added := QueueMusicHidesPickup(cfg, s, sip, call);
    DispatchedFrom(h, steps);
    if i < |d| && AnswersCall(d[i], call) {
      NoAnswers(History(s), added, call);
      NotSurfaced(h, d[i], call);
    }
  }

  lemma NoAnswers(a: seq<CallEvent>, b: seq<CallEvent>, call: string)
    requires forall k :: 0 <= k < |a| ==> !IsAnswerOf(a[k], call)
    requires forall k :: 0 <= k < |b| ==> !IsAnswerOf(b[k], call)
    ensures forall k :: 0 <= k < |a + b| ==> !IsAnswerOf((a + b)[k], call)
  {
  }

  lemma NotSurfaced(h: seq<CallEvent>, e: Event, call: string)
    requires FromHistory(h, e) && forall k :: 0 <= k < |h| ==> !IsAnswerOf(h[k], call)
    ensures !AnswersCall(e, call)
  {
    if AnswersCall(e, call) { var k := AnswerSurfaced(h, e, call); }
  }
}
