/** Server catch-up batching and the reconnecting client cursor, as a protocol over a
    growing event log (server/bbz_core/infra/event_stream.py, event_log.py,
    apps/web/src/composables/useEventStream.ts). */
module EventFeed {
  import opened Wrappers

  datatype Event = Event(seqNo: nat, kind: string)

  datatype Frame = EventFrame(e: Event) | CatchUpComplete(head: nat)

  ghost predicate Sorted(log: seq<Event>) {
    forall i, j :: 0 <= i < j < |log| ==> log[i].seqNo < log[j].seqNo
  }

  /** How many events have a sequence number up to `x`. */
  function Upto(log: seq<Event>, x: nat): (n: nat)
    ensures n <= |log|
  {
    if log == [] then 0
    else if log[|log| - 1].seqNo <= x then |log| else Upto(log[..|log| - 1], x)
  }

  lemma {:induction false} UptoSplits(log: seq<Event>, x: nat)
    requires Sorted(log)
    ensures forall i :: 0 <= i < Upto(log, x) ==> log[i].seqNo <= x
    ensures forall i :: Upto(log, x) <= i < |log| ==> log[i].seqNo > x
  {
    if log != [] && log[|log| - 1].seqNo > x {
      UptoSplits(log[..|log| - 1], x);
    }
  }

  /** The only index that splits a sorted log at `x`. */
  lemma UptoUnique(log: seq<Event>, x: nat, n: nat)
    requires Sorted(log) && n <= |log|
    requires forall i :: 0 <= i < n ==> log[i].seqNo <= x
    requires forall i :: n <= i < |log| ==> log[i].seqNo > x
    ensures Upto(log, x) == n
  {
    UptoSplits(log, x);
  }

  /** Highest visible sequence number, 0 on an empty log. */
  function Head(log: seq<Event>): nat {
    if log == [] then 0 else log[|log| - 1].seqNo
  }

  function ReadSince(log: seq<Event>, after: nat, limit: nat): seq<Event> {
    var a := Upto(log, after);
    log[a..if a + limit <= |log| then a + limit else |log|]
  }

  /** Events with lo < seqNo <= hi. */
  function Between(log: seq<Event>, lo: nat, hi: nat): seq<Event> {
    var a, b := Upto(log, lo), Upto(log, hi);
    if a <= b then log[a..b] else []
  }

  /** The events of the types the client listens for. */
  function Known(es: seq<Event>, kinds: set<string>): seq<Event> {
    if es == [] then []
    else
      var init := Known(es[..|es| - 1], kinds);
      if es[|es| - 1].kind in kinds then init + [es[|es| - 1]] else init
  }

  // ---- the protocol ---------------------------------------------------------------------

  /** One connection: the feed's `last` and `caught_up`, whether the empty read has been
      made whose head statement is still to come, everything emitted so far, and how
      many of those frames have reached the client (up to sequence number `pos`). */
  datatype Conn = Conn(last: nat, caughtUp: bool, headPending: bool,
                       emitted: seq<Frame>, delivered: nat, pos: nat)

  datatype State = State(log: seq<Event>, conn: Option<Conn>, cursor: nat, handed: seq<Event>)

  datatype Step =
    | Commit(e: Event)         // an event becomes visible
    | ReadRows                 // the feed reads a batch
    | ReadHead                 // after an empty read: head statement, then the caught-up marker
    | Deliver                  // the next frame reaches the client
    | Drop                     // the connection breaks, frames under way are lost
    | Connect(headKnown: bool) // the client reconnects at its cursor

  function Frames(rows: seq<Event>): seq<Frame> {
    seq(|rows|, i requires 0 <= i < |rows| => EventFrame(rows[i]))
  }

  function Max(a: nat, b: nat): nat { if a < b then b else a }

  /** What one read of rows does to the feed. */
  function FeedRows(c: Conn, rows: seq<Event>): Conn {
    if rows != [] then c.(last := rows[|rows| - 1].seqNo, emitted := c.emitted + Frames(rows))
    else if c.caughtUp then c else c.(headPending := true)
  }

  /** What the head statement after an empty read does to the feed. */
  function FeedHead(c: Conn, head: nat): Conn {
    c.(last := Max(c.last, head), caughtUp := true, headPending := false,
       emitted := c.emitted + [CatchUpComplete(Max(c.last, head))])
  }

  /** A frame at the client: known events move the cursor and are handed on. */
  function Receive(s: State, f: Frame, kinds: set<string>): State {
    if f.EventFrame? && f.e.kind in kinds
    then s.(cursor := Max(s.cursor, f.e.seqNo), handed := s.handed + [f.e]) else s
  }

  function Insert(log: seq<Event>, e: Event): seq<Event> {
    var k := Upto(log, e.seqNo);
    if k > 0 && log[k - 1].seqNo == e.seqNo then log else log[..k] + [e] + log[k..]
  }

  function Apply(s: State, step: Step, kinds: set<string>, limit: nat): State {
    match step
    case Commit(e) => s.(log := Insert(s.log, e))
    case ReadRows =>
      if s.conn.None? || s.conn.value.headPending then s
      else s.(conn := Some(FeedRows(s.conn.value, ReadSince(s.log, s.conn.value.last, limit))))
    case ReadHead =>
      if s.conn.None? || !s.conn.value.headPending then s
      else s.(conn := Some(FeedHead(s.conn.value, Head(s.log))))
    case Deliver =>
      if s.conn.None? || s.conn.value.delivered >= |s.conn.value.emitted| then s
      else
        var c := s.conn.value;
        var f := c.emitted[c.delivered];
        var c' := c.(delivered := c.delivered + 1, pos := if f.EventFrame? then f.e.seqNo else c.pos);
        Receive(s, f, kinds).(conn := Some(c'))
    case Drop => s.(conn := None)
    case Connect(headKnown) =>
      if s.conn.Some? then s
      else
        var cursor := if s.cursor == 0 && headKnown then Head(s.log) else s.cursor;
        s.(cursor := cursor, conn := Some(Conn(cursor, false, false, [], 0, cursor)))
  }

  function Run(s: State, steps: seq<Step>, kinds: set<string>, limit: nat): State {
    if steps == [] then s
    else Apply(Run(s, steps[..|steps| - 1], kinds, limit), steps[|steps| - 1], kinds, limit)
  }

  // ---- per connection: increasing frames, one marker, in every run -----------------------

  predicate Marked(emitted: seq<Frame>) {
    exists i :: 0 <= i < |emitted| && emitted[i].CatchUpComplete?
  }

  /** Event frames strictly increase, and the caught-up marker appears at most once, with a
      number that separates the events before it from those after. */
  ghost predicate WellOrdered(emitted: seq<Frame>) {
    && (forall i, j :: 0 <= i < j < |emitted| && emitted[i].EventFrame? && emitted[j].EventFrame? ==>
          emitted[i].e.seqNo < emitted[j].e.seqNo)
    && (forall i, j :: 0 <= i < j < |emitted| && emitted[i].CatchUpComplete? ==> emitted[j].EventFrame?)
    && (forall i, j ::
          0 <= i < |emitted| && 0 <= j < |emitted| && emitted[i].CatchUpComplete? && emitted[j].EventFrame? ==>
            (emitted[j].e.seqNo <= emitted[i].head <==> j < i))
  }

  ghost predicate ConnOk(c: Conn) {
    && WellOrdered(c.emitted)
    && (forall i :: 0 <= i < |c.emitted| && c.emitted[i].EventFrame? ==> c.emitted[i].e.seqNo <= c.last)
    && (forall i :: 0 <= i < |c.emitted| && c.emitted[i].CatchUpComplete? ==>
          c.emitted[i].head <= c.last && (i == |c.emitted| - 1 ==> c.emitted[i].head == c.last))
    && (Marked(c.emitted) ==> c.caughtUp)
    && (c.headPending ==> !c.caughtUp)
    && c.delivered <= |c.emitted|
  }

  ghost predicate FeedInv(s: State) {
    Sorted(s.log) && (s.conn.Some? ==> ConnOk(s.conn.value))
  }

  lemma InsertKeepsSorted(log: seq<Event>, e: Event)
    requires Sorted(log)
    ensures Sorted(Insert(log, e))
  {
    UptoSplits(log, e.seqNo);
  }

  lemma RowsAreLater(log: seq<Event>, after: nat, limit: nat)
    requires Sorted(log)
    ensures var rows := ReadSince(log, after, limit);
      Sorted(rows) && forall i :: 0 <= i < |rows| ==> after < rows[i].seqNo
  {
    UptoSplits(log, after);
    var rows, a := ReadSince(log, after, limit), Upto(log, after);
    assert forall i :: 0 <= i < |rows| ==> rows[i] == log[a + i];
  }

  lemma FeedRowsOk(c: Conn, rows: seq<Event>)
    requires ConnOk(c) && !c.headPending && Sorted(rows) && forall i :: 0 <= i < |rows| ==> c.last < rows[i].seqNo
    ensures ConnOk(FeedRows(c, rows))
  {
    var c' := FeedRows(c, rows);
    if rows != [] {
      assert forall i :: 0 <= i < |rows| ==> rows[i].seqNo <= c'.last;
      assert Marked(c'.emitted) ==> Marked(c.emitted) by {
        if Marked(c'.emitted) {
          var i :| 0 <= i < |c'.emitted| && c'.emitted[i].CatchUpComplete?;
          assert c.emitted[i].CatchUpComplete?;
        }
      }
    }
  }

  lemma FeedHeadOk(c: Conn, head: nat)
    requires ConnOk(c) && c.headPending
    ensures ConnOk(FeedHead(c, head))
  {
    assert forall i :: 0 <= i < |c.emitted| ==> c.emitted[i].EventFrame?;
  }

  lemma FeedStep(s: State, step: Step, kinds: set<string>, limit: nat)
    requires FeedInv(s)
    ensures FeedInv(Apply(s, step, kinds, limit))
  {
    match step
    case Commit(e) => InsertKeepsSorted(s.log, e);
    case ReadRows =>
      if s.conn.Some? && !s.conn.value.headPending {
        RowsAreLater(s.log, s.conn.value.last, limit);
        FeedRowsOk(s.conn.value, ReadSince(s.log, s.conn.value.last, limit));
      }
    case ReadHead => if s.conn.Some? && s.conn.value.headPending { FeedHeadOk(s.conn.value, Head(s.log)); }
    case _ =>
  }

  /** On every connection of every run, whatever is committed when and whatever the
      batch size, event frames strictly increase, and the marker comes at most once and tells where
      the feed stood. */
  lemma {:induction false} FramesIncrease(s: State, steps: seq<Step>, kinds: set<string>, limit: nat)
    requires FeedInv(s)
    ensures FeedInv(Run(s, steps, kinds, limit))
  {
    if steps != [] {
      FramesIncrease(s, steps[..|steps| - 1], kinds, limit);
      FeedStep(Run(s, steps[..|steps| - 1], kinds, limit), steps[|steps| - 1], kinds, limit);
    }
  }

  /** Whatever frames arrive in whatever order, the client's cursor never moves back. */
  lemma {:induction false} CursorOnlyGrows(s: State, frames: seq<Frame>, kinds: set<string>)
    ensures s.cursor <= ReceiveAll(s, frames, kinds).cursor
    ensures forall i :: 0 <= i < |frames| && frames[i].EventFrame? && frames[i].e.kind in kinds ==>
      frames[i].e.seqNo <= ReceiveAll(s, frames, kinds).cursor
  {
    if frames != [] {
      CursorOnlyGrows(s, frames[..|frames| - 1], kinds);
      assert forall i :: 0 <= i < |frames| - 1 ==> frames[i] == frames[..|frames| - 1][i];
    }
  }

  function ReceiveAll(s: State, frames: seq<Frame>, kinds: set<string>): State {
    if frames == [] then s
    else Receive(ReceiveAll(s, frames[..|frames| - 1], kinds), frames[|frames| - 1], kinds)
  }

  // ---- stretches of the log --------------------------------------------------------------

  /** The events among some frames. */
  function EventsOf(frames: seq<Frame>): seq<Event> {
    if frames == [] then []
    else if frames[0].EventFrame? then [frames[0].e] + EventsOf(frames[1..]) else EventsOf(frames[1..])
  }

  lemma {:induction false} EventsOfConcat(a: seq<Frame>, b: seq<Frame>)
    ensures EventsOf(a + b) == EventsOf(a) + EventsOf(b)
  {
    if a == [] {
      assert a + b == b;
    } else {
      EventsOfConcat(a[1..], b);
      assert (a + b)[1..] == a[1..] + b;
    }
  }

  lemma {:induction false} EventsOfFrames(rows: seq<Event>)
    ensures EventsOf(Frames(rows)) == rows
  {
    if rows != [] {
      assert Frames(rows)[1..] == Frames(rows[1..]);
      EventsOfFrames(rows[1..]);
    }
  }

  lemma {:induction false} KnownConcat(a: seq<Event>, b: seq<Event>, kinds: set<string>)
    ensures Known(a + b, kinds) == Known(a, kinds) + Known(b, kinds)
  {
    if b == [] {
      assert a + b == a;
    } else {
      KnownConcat(a, b[..|b| - 1], kinds);
      assert (a + b)[..|a + b| - 1] == a + b[..|b| - 1];
    }
  }

  lemma {:induction false} UptoMonotone(log: seq<Event>, a: nat, b: nat)
    requires a <= b
    ensures Upto(log, a) <= Upto(log, b)
  {
    if log != [] { UptoMonotone(log[..|log| - 1], a, b); }
  }

  lemma BetweenSplits(log: seq<Event>, a: nat, b: nat, c: nat)
    requires a <= b <= c
    ensures Between(log, a, c) == Between(log, a, b) + Between(log, b, c)
  {
    UptoMonotone(log, a, b);
    UptoMonotone(log, b, c);
  }

  /** A non-empty batch is the whole stretch from the old `last` to the new one. */
  lemma BatchIsStretch(log: seq<Event>, after: nat, limit: nat)
    requires Sorted(log) && ReadSince(log, after, limit) != []
    ensures var rows := ReadSince(log, after, limit);
      var last := rows[|rows| - 1].seqNo;
      && after < last <= Head(log)
      && Upto(log, last) == Upto(log, after) + |rows|
      && Between(log, after, last) == rows
  {
    UptoSplits(log, after);
    var rows := ReadSince(log, after, limit);
    UptoUnique(log, rows[|rows| - 1].seqNo, Upto(log, after) + |rows|);
  }

  /** A batch has as many of the events after the position as there are, up to the limit. */
  lemma BatchIsFull(log: seq<Event>, after: nat, limit: nat)
    requires Sorted(log) && after <= Head(log)
    ensures var rest := Between(log, after, Head(log));
      ReadSince(log, after, limit) == if |rest| <= limit then rest else rest[..limit]
  {
    UptoSplits(log, Head(log));
    UptoMonotone(log, after, Head(log));
    if log != [] { UptoUnique(log, Head(log), |log|); }
  }

  /** The first event after `pos` is the whole stretch up to it. */
  lemma FirstBetween(log: seq<Event>, pos: nat, last: nat)
    requires Sorted(log) && pos <= last && Between(log, pos, last) != []
    ensures var e := Between(log, pos, last)[0];
      && pos < e.seqNo <= last && Between(log, pos, e.seqNo) == [e]
      && Between(log, e.seqNo, last) == Between(log, pos, last)[1..]
  {
    UptoSplits(log, pos);
    UptoSplits(log, last);
    var n := Upto(log, pos);
    UptoUnique(log, log[n].seqNo, n + 1);
  }

  /** What was handed on is strictly increasing, so nothing comes twice. */
  lemma {:induction false} KnownIncreases(es: seq<Event>, kinds: set<string>)
    requires Sorted(es)
    ensures Sorted(Known(es, kinds))
    ensures forall e :: e in Known(es, kinds) <==> e in es && e.kind in kinds
  {
    if es != [] {
      var init := es[..|es| - 1];
      KnownIncreases(init, kinds);
      assert es == init + [es[|es| - 1]];
      forall e | e in Known(init, kinds) ensures e.seqNo < es[|es| - 1].seqNo {}
    }
  }

  // ---- runs ------------------------------------------------------------------------------

  lemma RunAppend(s: State, steps: seq<Step>, step: Step, kinds: set<string>, limit: nat)
    ensures Run(s, steps + [step], kinds, limit) == Apply(Run(s, steps, kinds, limit), step, kinds, limit)
  {
    assert (steps + [step])[..|steps + [step]| - 1] == steps;
  }

  lemma {:induction false} RunConcat(s: State, a: seq<Step>, b: seq<Step>, kinds: set<string>, limit: nat)
    ensures Run(s, a + b, kinds, limit) == Run(Run(s, a, kinds, limit), b, kinds, limit)
  {
    if b == [] {
      assert a + b == a;
    } else {
      RunConcat(s, a, b[..|b| - 1], kinds, limit);
      assert (a + b)[..|a + b| - 1] == a + b[..|b| - 1];
    }
  }

  lemma RunFirst(s: State, step: Step, rest: seq<Step>, kinds: set<string>, limit: nat)
    ensures Run(s, [step] + rest, kinds, limit) == Run(Apply(s, step, kinds, limit), rest, kinds, limit)
  {
    RunAppend(s, [], step, kinds, limit);
    assert [] + [step] == [step];
    RunConcat(s, [step], rest, kinds, limit);
  }

  // ---- the feed and the client as objects ---------------------------------------------------------

  /** One `event_feed` generator; each call of `Round` is one turn of its loop. */
  class Feed {
    var last: nat
    var caughtUp: bool
    ghost var emitted: seq<Frame>

    ghost function Model(): Conn
      reads this
    {
      Conn(last, caughtUp, false, emitted, 0, 0)
    }

    constructor (afterSeq: nat)
      ensures Model() == Conn(afterSeq, false, false, [], 0, 0)
    {
      last, caughtUp, emitted := afterSeq, false, [];
    }

    /** One turn: read a batch, yield its frames; on the first empty batch read the head
        and yield the marker. `rowsLog` and `headLog` are the log as the two statements see it. */
    method Round(rowsLog: seq<Event>, headLog: seq<Event>, limit: nat) returns (frames: seq<Frame>)
      requires Sorted(rowsLog)
      modifies this
      ensures var rows := ReadSince(rowsLog, old(last), limit);
        var c := FeedRows(old(Model()), rows);
        Model() == if c.headPending then FeedHead(c, Head(headLog)) else c
      ensures emitted == old(emitted) + frames
    {
      var rows := ReadSince(rowsLog, last, limit);
      frames := [];
      var i := 0;
      while i < |rows|
        invariant 0 <= i <= |rows|
        invariant last == if i == 0 then old(last) else rows[i - 1].seqNo
        invariant caughtUp == old(caughtUp)
        invariant frames == Frames(rows[..i]) && emitted == old(emitted) + frames
      {
        last := rows[i].seqNo;
        assert Frames(rows[..i + 1]) == Frames(rows[..i]) + [EventFrame(rows[i])];
        frames := frames + [EventFrame(rows[i])];
        emitted := emitted + [EventFrame(rows[i])];
        i := i + 1;
      }
      assert rows[..i] == rows;
      if rows == [] && !caughtUp {
        last := Max(last, Head(headLog));
        caughtUp := true;
        frames := frames + [CatchUpComplete(last)];
        emitted := emitted + [CatchUpComplete(last)];
      }
    }
  }

  /** The client's side of the stream. */
  class EventStream {
    const kinds: set<string>
    var lastSeq: nat
    var handed: seq<Event>

    constructor (kinds: set<string>)
      ensures this.kinds == kinds && lastSeq == 0 && handed == []
    {
      this.kinds := kinds;
      lastSeq, handed := 0, [];
    }

    /** The cursor a connection starts from: the stream head when none is held yet. */
    method Connect(head: Option<nat>) returns (afterSeq: nat)
      modifies this`lastSeq
      ensures afterSeq == lastSeq && (head.None? ==> lastSeq == old(lastSeq))
      ensures forall s: State, ks: set<string>, n: nat {:trigger Apply(s, Step.Connect(head.Some?), ks, n)} ::
        s.conn.None? && s.cursor == old(lastSeq) && (head.Some? ==> Head(s.log) == head.value) ==>
          Apply(s, Step.Connect(head.Some?), ks, n).cursor == lastSeq
    {
      if lastSeq == 0 && head.Some? { lastSeq := head.value; }
      afterSeq := lastSeq;
    }

    method HandleFrame(f: Frame)
      modifies this
      ensures forall s: State {:trigger Receive(s, f, kinds)} :: s.cursor == old(lastSeq) && s.handed == old(handed) ==>
        Receive(s, f, kinds).cursor == lastSeq && Receive(s, f, kinds).handed == handed
    {
      if f.EventFrame? && f.e.kind in kinds {
        if f.e.seqNo != 0 { lastSeq := Max(lastSeq, f.e.seqNo); }
        handed := handed + [f.e];
      }
    }
  }
}
