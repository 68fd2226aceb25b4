/** What a client of the event feed is handed over whole runs: any number of drops and
    reconnects, any order in which commits become visible, any cursor, any batch size. */
module EventDelivery {
  import opened Wrappers
  import opened EventFeed

  // ---- events that are left out -------------------------------------------------------------

  function Without(es: seq<Event>, gone: set<nat>): seq<Event> {
    if es == [] then []
    else
      var init := Without(es[..|es| - 1], gone);
      if es[|es| - 1].seqNo in gone then init else init + [es[|es| - 1]]
  }

  function SeqNos(es: seq<Event>): set<nat> {
    set i | 0 <= i < |es| :: es[i].seqNo
  }

  /** Events with lo < seqNo <= hi that are not left out. */
  function Part(log: seq<Event>, lo: nat, hi: nat, gone: set<nat>): seq<Event> {
    Without(Between(log, lo, hi), gone)
  }

  lemma {:induction false} WithoutConcat(a: seq<Event>, b: seq<Event>, gone: set<nat>)
    ensures Without(a + b, gone) == Without(a, gone) + Without(b, gone)
  {
    if b == [] {
      assert a + b == a;
    } else {
      WithoutConcat(a, b[..|b| - 1], gone);
      assert (a + b)[..|a + b| - 1] == a + b[..|b| - 1];
    }
  }

  lemma {:induction false} WithoutAgree(es: seq<Event>, g: set<nat>, h: set<nat>)
    requires forall i :: 0 <= i < |es| ==> (es[i].seqNo in g <==> es[i].seqNo in h)
    ensures Without(es, g) == Without(es, h)
  {
    if es != [] { WithoutAgree(es[..|es| - 1], g, h); }
  }

  lemma {:induction false} WithoutNone(es: seq<Event>, gone: set<nat>)
    requires forall i :: 0 <= i < |es| ==> es[i].seqNo !in gone
    ensures Without(es, gone) == es
  {
    if es != [] {
      WithoutNone(es[..|es| - 1], gone);
      assert es[..|es| - 1] + [es[|es| - 1]] == es;
    }
  }

  lemma {:induction false} WithoutAll(es: seq<Event>, gone: set<nat>)
    requires forall i :: 0 <= i < |es| ==> es[i].seqNo in gone
    ensures Without(es, gone) == []
  {
    if es != [] { WithoutAll(es[..|es| - 1], gone); }
  }

  lemma BetweenBounds(log: seq<Event>, lo: nat, hi: nat)
    requires Sorted(log)
    ensures forall i :: 0 <= i < |Between(log, lo, hi)| ==> lo < Between(log, lo, hi)[i].seqNo <= hi
  {
    UptoSplits(log, lo);
    UptoSplits(log, hi);
  }

  lemma PartAgree(log: seq<Event>, lo: nat, hi: nat, g: set<nat>, h: set<nat>)
    requires Sorted(log) && forall x :: lo < x <= hi ==> (x in g <==> x in h)
    ensures Part(log, lo, hi, g) == Part(log, lo, hi, h)
  {
    BetweenBounds(log, lo, hi);
    WithoutAgree(Between(log, lo, hi), g, h);
  }

  lemma PartSplits(log: seq<Event>, a: nat, b: nat, c: nat, gone: set<nat>)
    requires a <= b <= c
    ensures Part(log, a, c, gone) == Part(log, a, b, gone) + Part(log, b, c, gone)
  {
    BetweenSplits(log, a, b, c);
    WithoutConcat(Between(log, a, b), Between(log, b, c), gone);
  }

  lemma PartEmpty(log: seq<Event>, a: nat, gone: set<nat>)
    ensures Part(log, a, a, gone) == []
  {
    assert Between(log, a, a) == [];
  }

  // ---- an event becomes visible -------------------------------------------------------------------

  lemma InsertShape(log: seq<Event>, e: Event)
    requires Sorted(log) && e.seqNo !in SeqNos(log)
    ensures var k := Upto(log, e.seqNo); Insert(log, e) == log[..k] + [e] + log[k..]
  {
    var k := Upto(log, e.seqNo);
    if k > 0 { assert log[k - 1].seqNo in SeqNos(log); }
  }

  lemma UptoInsert(log: seq<Event>, e: Event, x: nat)
    requires Sorted(log) && e.seqNo !in SeqNos(log)
    ensures Sorted(Insert(log, e))
    ensures Upto(Insert(log, e), x) == Upto(log, x) + if e.seqNo <= x then 1 else 0
  {
    InsertKeepsSorted(log, e);
    InsertShape(log, e);
    UptoSplits(log, e.seqNo);
    UptoSplits(log, x);
    var k, more, n := Upto(log, e.seqNo), Insert(log, e), Upto(log, x) + if e.seqNo <= x then 1 else 0;
    if e.seqNo <= x { UptoMonotone(log, e.seqNo, x); } else { UptoMonotone(log, x, e.seqNo); }
    forall i | 0 <= i < |more| ensures i < n <==> more[i].seqNo <= x {
      assert more[i] == if i < k then log[i] else if i == k then e else log[i - 1];
    }
    UptoUnique(more, x, n);
  }

  lemma InsertOutside(log: seq<Event>, e: Event, lo: nat, hi: nat)
    requires Sorted(log) && e.seqNo !in SeqNos(log) && lo <= hi && !(lo < e.seqNo <= hi)
    ensures Between(Insert(log, e), lo, hi) == Between(log, lo, hi)
  {
    UptoInsert(log, e, lo);
    UptoInsert(log, e, hi);
    UptoMonotone(log, lo, hi);
    InsertShape(log, e);
    if e.seqNo <= lo { UptoMonotone(log, e.seqNo, lo); } else { UptoMonotone(log, hi, e.seqNo); }
    SliceAround(log, e, Upto(log, e.seqNo), Upto(log, lo), Upto(log, hi));
  }

  lemma SliceAround(log: seq<Event>, e: Event, k: nat, i: nat, j: nat)
    requires k <= |log| && i <= j <= |log|
    ensures var more := log[..k] + [e] + log[k..];
      && (j <= k ==> more[i..j] == log[i..j])
      && (k <= i ==> more[i + 1..j + 1] == log[i..j])
  {
  }

  lemma InsertInside(log: seq<Event>, e: Event, lo: nat, hi: nat)
    requires Sorted(log) && e.seqNo !in SeqNos(log) && lo < e.seqNo <= hi
    ensures Between(Insert(log, e), lo, hi) ==
      Between(log, lo, e.seqNo) + [e] + Between(log, e.seqNo, hi)
  {
    UptoInsert(log, e, lo);
    UptoInsert(log, e, hi);
    UptoMonotone(log, lo, e.seqNo);
    UptoMonotone(log, e.seqNo, hi);
    InsertShape(log, e);
    var i, k, j := Upto(log, lo), Upto(log, e.seqNo), Upto(log, hi);
    SliceThrough(log, e, k, i, j, Insert(log, e));
    BetweenAt(log, lo, e.seqNo, i, k);
    BetweenAt(log, e.seqNo, hi, k, j);
    BetweenAt(Insert(log, e), lo, hi, i, j + 1);
  }

  lemma BetweenAt(log: seq<Event>, lo: nat, hi: nat, i: nat, j: nat)
    requires Upto(log, lo) == i <= j == Upto(log, hi)
    ensures j <= |log| && Between(log, lo, hi) == log[i..j]
  {
  }

  lemma SliceThrough(log: seq<Event>, e: Event, k: nat, i: nat, j: nat, more: seq<Event>)
    requires i <= k <= j <= |log| && more == log[..k] + [e] + log[k..]
    ensures |more| == |log| + 1 && more[i..j + 1] == log[i..k] + [e] + log[k..j]
  {
    assert more[i..k] == log[i..k] && more[k..k + 1] == [e] && more[k + 1..j + 1] == log[k..j];
    assert more[i..j + 1] == more[i..k] + more[k..k + 1] + more[k + 1..j + 1];
  }

  /** A new event that is left out, or lies elsewhere, does not show. */
  lemma PartInsert(log: seq<Event>, e: Event, lo: nat, hi: nat, gone: set<nat>)
    requires Sorted(log) && e.seqNo !in SeqNos(log) && lo <= hi
    ensures Part(Insert(log, e), lo, hi, gone + {e.seqNo}) == Part(log, lo, hi, gone)
    ensures !(lo < e.seqNo <= hi) ==> Part(Insert(log, e), lo, hi, gone) == Part(log, lo, hi, gone)
  {
    var more := gone + {e.seqNo};
    if lo < e.seqNo <= hi {
      var a, b := Between(log, lo, e.seqNo), Between(log, e.seqNo, hi);
      InsertInside(log, e, lo, hi);
      BetweenSplits(log, lo, e.seqNo, hi);
      WithoutConcat(a + [e], b, more);
      WithoutConcat(a, [e], more);
      WithoutAll([e], more);
      WithoutConcat(a, b, more);
      assert a + b == Between(log, lo, hi);
    } else {
      InsertOutside(log, e, lo, hi);
    }
    NotLogged(log, e.seqNo, lo, hi);
    WithoutAgree(Between(log, lo, hi), gone, more);
  }

  lemma NotLogged(log: seq<Event>, x: nat, lo: nat, hi: nat)
    requires x !in SeqNos(log)
    ensures forall i :: 0 <= i < |Between(log, lo, hi)| ==> Between(log, lo, hi)[i].seqNo != x
  {
    var a := Upto(log, lo);
    forall i | 0 <= i < |Between(log, lo, hi)| ensures Between(log, lo, hi)[i].seqNo != x {
      assert Between(log, lo, hi)[i] == log[a + i] && log[a + i].seqNo in SeqNos(log);
    }
  }

  // ---- what a run leaves out -------------------------------------------------------------------------

  /** Sequence numbers the client will never be handed, and those its present connection
      has passed over but a later one could still hand on. */
  datatype Missed = Missed(lost: set<nat>, gap: set<nat>)

  /** How each step adds to what is missed:
      an event that becomes visible at or below the cursor is lost, and one at or below the
      feed's position is in the gap; the head statement puts what it jumps over into the
      gap; a known event that is delivered beyond a part of the gap loses that part; a drop
      closes the gap; a connection without a cursor loses all there is so far. */
  function Track(m: Missed, s: State, step: Step, kinds: set<string>): Missed {
    match step
    case Commit(e) =>
      if e.seqNo in SeqNos(s.log) then m
      else if e.seqNo <= s.cursor then m.(lost := m.lost + {e.seqNo})
      else if s.conn.Some? && e.seqNo <= s.conn.value.last then m.(gap := m.gap + {e.seqNo})
      else m
    case ReadRows => m
    case ReadHead =>
      if s.conn.None? || !s.conn.value.headPending then m
      else m.(gap := m.gap + SeqNos(Between(s.log, s.conn.value.last, Head(s.log))))
    case Deliver =>
      if s.conn.None? || s.conn.value.delivered >= |s.conn.value.emitted| then m
      else
        var f := s.conn.value.emitted[s.conn.value.delivered];
        if f.EventFrame? && f.e.kind in kinds then Pass(m, f.e.seqNo) else m
    case Drop => m.(gap := {})
    case Connect(headKnown) =>
      if s.conn.None? && s.cursor == 0 && headKnown then m.(lost := m.lost + SeqNos(s.log)) else m
  }

  /** The cursor moves to `x`: the gap below it is lost. */
  function Pass(m: Missed, x: nat): Missed {
    var passed := set y | y in m.gap && y < x;
    Missed(m.lost + passed, m.gap - passed)
  }

  function MissedIn(s: State, steps: seq<Step>, kinds: set<string>, limit: nat): Missed {
    if steps == [] then Missed({}, {})
    else
      var before := steps[..|steps| - 1];
      Track(MissedIn(s, before, kinds, limit), Run(s, before, kinds, limit), steps[|steps| - 1], kinds)
  }

  // ---- the invariant of every run -----------------------------------------------------------------------

  /** What is under way continues from where the client stands, but for the gap. */
  ghost predicate WireOk(log: seq<Event>, c: Conn, cursor: nat, gap: set<nat>, kinds: set<string>) {
    && cursor <= c.pos <= c.last <= Head(log)
    && c.delivered <= |c.emitted|
    && (forall x :: x in gap ==> cursor < x <= c.last)
    && Known(Part(log, cursor, c.pos, gap), kinds) == []
    && EventsOf(c.emitted[c.delivered..]) == Part(log, c.pos, c.last, gap)
  }

  /** The client has been handed exactly the known events after `start` up to its cursor,
      but for the lost ones. */
  ghost predicate HandedOk(log: seq<Event>, cursor: nat, handed: seq<Event>, lost: set<nat>, start: nat,
                           kinds: set<string>) {
    && Sorted(log) && start <= cursor <= Head(log)
    && (forall x :: x in lost ==> x <= cursor)
    && handed == Known(Part(log, start, cursor, lost), kinds)
  }

  ghost predicate Inv(s: State, m: Missed, start: nat, kinds: set<string>) {
    && HandedOk(s.log, s.cursor, s.handed, m.lost, start, kinds)
    && (if s.conn.Some? then WireOk(s.log, s.conn.value, s.cursor, m.gap, kinds) else m.gap == {})
  }

  lemma HeadInsert(log: seq<Event>, e: Event)
    requires Sorted(log) && e.seqNo !in SeqNos(log)
    ensures Head(log) <= Head(Insert(log, e)) && Sorted(Insert(log, e))
  {
    UptoInsert(log, e, 0);
    InsertShape(log, e);
    UptoSplits(log, e.seqNo);
  }

  lemma InsertAgain(log: seq<Event>, e: Event)
    requires Sorted(log) && e.seqNo in SeqNos(log)
    ensures Insert(log, e) == log
  {
    var i :| 0 <= i < |log| && log[i].seqNo == e.seqNo;
    UptoUnique(log, e.seqNo, i + 1);
  }

  lemma WireInsertKeeps(log: seq<Event>, e: Event, c: Conn, cursor: nat, gap: set<nat>, kinds: set<string>)
    requires Sorted(log) && e.seqNo !in SeqNos(log) && WireOk(log, c, cursor, gap, kinds)
    ensures WireOk(Insert(log, e), c, cursor, if cursor < e.seqNo <= c.last then gap + {e.seqNo} else gap, kinds)
  {
    var gap' := if cursor < e.seqNo <= c.last then gap + {e.seqNo} else gap;
    HeadInsert(log, e);
    PartInsertIn(log, e, cursor, c.pos, gap, gap');
    PartInsertIn(log, e, c.pos, c.last, gap, gap');
    Rewired(log, Insert(log, e), c, cursor, gap, gap', kinds);
  }

  /** The wire depends on no more of the log than the two parts it is about. */
  lemma Rewired(log: seq<Event>, log': seq<Event>, c: Conn, cursor: nat, gap: set<nat>, gap': set<nat>,
                kinds: set<string>)
    requires WireOk(log, c, cursor, gap, kinds) && Head(log) <= Head(log')
    requires forall x :: x in gap' ==> cursor < x <= c.last
    requires Part(log', cursor, c.pos, gap') == Part(log, cursor, c.pos, gap)
    requires Part(log', c.pos, c.last, gap') == Part(log, c.pos, c.last, gap)
    ensures WireOk(log', c, cursor, gap', kinds)
  {
  }

  lemma PartInsertIn(log: seq<Event>, e: Event, lo: nat, hi: nat, gone: set<nat>, gone': set<nat>)
    requires Sorted(log) && e.seqNo !in SeqNos(log) && lo <= hi
    requires gone' == gone + {e.seqNo} || (gone' == gone && !(lo < e.seqNo <= hi))
    ensures Part(Insert(log, e), lo, hi, gone') == Part(log, lo, hi, gone)
  {
    PartInsert(log, e, lo, hi, gone);
  }

  lemma NewCommitKeeps(s: State, m: Missed, e: Event, start: nat, kinds: set<string>)
    requires Inv(s, m, start, kinds) && e.seqNo !in SeqNos(s.log)
    ensures Inv(s.(log := Insert(s.log, e)), Track(m, s, Commit(e), kinds), start, kinds)
  {
    HeadInsert(s.log, e);
    PartInsert(s.log, e, start, s.cursor, m.lost);
    if s.conn.Some? { WireInsertKeeps(s.log, e, s.conn.value, s.cursor, m.gap, kinds); }
  }

  lemma CommitKeeps(s: State, m: Missed, e: Event, start: nat, kinds: set<string>, limit: nat)
    requires Inv(s, m, start, kinds)
    ensures Inv(Apply(s, Commit(e), kinds, limit), Track(m, s, Commit(e), kinds), start, kinds)
  {
    if e.seqNo in SeqNos(s.log) {
      InsertAgain(s.log, e);
    } else {
      NewCommitKeeps(s, m, e, start, kinds);
    }
  }

  lemma RowsKeep(log: seq<Event>, c: Conn, cursor: nat, gap: set<nat>, kinds: set<string>, limit: nat)
    requires Sorted(log) && WireOk(log, c, cursor, gap, kinds)
    ensures WireOk(log, FeedRows(c, ReadSince(log, c.last, limit)), cursor, gap, kinds)
  {
    var rows := ReadSince(log, c.last, limit);
    if rows != [] {
      var c' := FeedRows(c, rows);
      BatchIsStretch(log, c.last, limit);
      PartSplits(log, c.pos, c.last, c'.last, gap);
      RowsOutsideGap(log, c.last, c'.last, gap);
      RowsAdd(c.emitted, c.delivered, rows);
    }
  }

  lemma RowsOutsideGap(log: seq<Event>, last: nat, next: nat, gap: set<nat>)
    requires Sorted(log) && forall x :: x in gap ==> x <= last
    ensures Part(log, last, next, gap) == Between(log, last, next)
  {
    BetweenBounds(log, last, next);
    WithoutNone(Between(log, last, next), gap);
  }

  lemma RowsAdd(emitted: seq<Frame>, i: nat, rows: seq<Event>)
    requires i <= |emitted|
    ensures EventsOf((emitted + Frames(rows))[i..]) == EventsOf(emitted[i..]) + rows
  {
    assert (emitted + Frames(rows))[i..] == emitted[i..] + Frames(rows);
    EventsOfConcat(emitted[i..], Frames(rows));
    EventsOfFrames(rows);
  }

  lemma HeadKeeps(log: seq<Event>, c: Conn, cursor: nat, gap: set<nat>, kinds: set<string>)
    requires Sorted(log) && WireOk(log, c, cursor, gap, kinds)
    ensures WireOk(log, FeedHead(c, Head(log)), cursor, gap + SeqNos(Between(log, c.last, Head(log))), kinds)
  {
    var more := gap + SeqNos(Between(log, c.last, Head(log)));
    JumpBounds(log, c.last);
    PartAgree(log, cursor, c.pos, gap, more);
    PartOverJump(log, c.pos, c.last, gap);
    MarkerAdds(c.emitted, c.delivered, Head(log));
  }

  lemma JumpBounds(log: seq<Event>, last: nat)
    requires Sorted(log)
    ensures forall x :: x in SeqNos(Between(log, last, Head(log))) ==> last < x <= Head(log)
  {
    BetweenBounds(log, last, Head(log));
  }

  lemma PartOverJump(log: seq<Event>, pos: nat, last: nat, gap: set<nat>)
    requires Sorted(log) && pos <= last <= Head(log)
    ensures Part(log, pos, Head(log), gap + SeqNos(Between(log, last, Head(log)))) == Part(log, pos, last, gap)
  {
    var jumped := Between(log, last, Head(log));
    var more := gap + SeqNos(jumped);
    JumpBounds(log, last);
    PartAgree(log, pos, last, gap, more);
    PartSplits(log, pos, last, Head(log), more);
    WithoutAll(jumped, more);
  }

  lemma MarkerAdds(emitted: seq<Frame>, i: nat, head: nat)
    requires i <= |emitted|
    ensures EventsOf((emitted + [CatchUpComplete(head)])[i..]) == EventsOf(emitted[i..])
  {
    assert (emitted + [CatchUpComplete(head)])[i..] == emitted[i..] + [CatchUpComplete(head)];
    EventsOfConcat(emitted[i..], [CatchUpComplete(head)]);
    assert EventsOf([CatchUpComplete(head)]) == [];
  }

  /** The first event of a part, and what comes after it. */
  lemma {:induction false} FirstOfPart(log: seq<Event>, pos: nat, last: nat, gap: set<nat>)
    requires Sorted(log) && pos <= last && Part(log, pos, last, gap) != []
    ensures var e := Part(log, pos, last, gap)[0];
      && pos < e.seqNo <= last && e.seqNo !in gap
      && Part(log, pos, e.seqNo, gap) == [e]
      && Part(log, e.seqNo, last, gap) == Part(log, pos, last, gap)[1..]
    decreases |Between(log, pos, last)|
  {
    assert Between(log, pos, last) != [];
    FirstBetween(log, pos, last);
    var f := Between(log, pos, last)[0];
    if f.seqNo in gap {
      PartSkips(log, pos, f, last, gap);
      FirstOfPart(log, f.seqNo, last, gap);
      PartSkips(log, pos, f, Part(log, f.seqNo, last, gap)[0].seqNo, gap);
    } else {
      PartTakes(log, pos, f, last, gap);
    }
  }

  lemma PartSkips(log: seq<Event>, pos: nat, f: Event, hi: nat, gap: set<nat>)
    requires Between(log, pos, f.seqNo) == [f] && f.seqNo in gap && pos <= f.seqNo <= hi
    ensures Part(log, pos, hi, gap) == Part(log, f.seqNo, hi, gap)
  {
    WithoutAll([f], gap);
    PartSplits(log, pos, f.seqNo, hi, gap);
  }

  lemma PartTakes(log: seq<Event>, pos: nat, f: Event, hi: nat, gap: set<nat>)
    requires Between(log, pos, f.seqNo) == [f] && f.seqNo !in gap && pos <= f.seqNo <= hi
    ensures Part(log, pos, f.seqNo, gap) == [f]
    ensures Part(log, pos, hi, gap) == [f] + Part(log, f.seqNo, hi, gap)
  {
    WithoutNone([f], gap);
    PartSplits(log, pos, f.seqNo, hi, gap);
  }

  lemma WireSplits(frames: seq<Frame>, i: nat)
    requires i < |frames|
    ensures EventsOf(frames[i..]) ==
      (if frames[i].EventFrame? then [frames[i].e] else []) + EventsOf(frames[i + 1..])
  {
    assert frames[i..][1..] == frames[i + 1..];
  }

  /** An event that reaches the client, wherever the gap is. */
  lemma EventArrives(log: seq<Event>, c: Conn, cursor: nat, gap: set<nat>, kinds: set<string>)
    requires Sorted(log) && WireOk(log, c, cursor, gap, kinds)
    requires c.delivered < |c.emitted| && c.emitted[c.delivered].EventFrame?
    ensures var e := c.emitted[c.delivered].e;
      && c.pos < e.seqNo <= c.last && e.seqNo !in gap
      && Known(Part(log, cursor, e.seqNo, gap), kinds) == (if e.kind in kinds then [e] else [])
      && EventsOf(c.emitted[c.delivered + 1..]) == Part(log, e.seqNo, c.last, gap)
  {
    var e := c.emitted[c.delivered].e;
    WireSplits(c.emitted, c.delivered);
    FirstOfPart(log, c.pos, c.last, gap);
    PartSplits(log, cursor, c.pos, e.seqNo, gap);
    KnownConcat(Part(log, cursor, c.pos, gap), [e], kinds);
    assert Known([e], kinds) == if e.kind in kinds then [e] else [];
  }

  /** The cursor moves past a part of the gap. */
  lemma KnownArrives(log: seq<Event>, start: nat, cursor: nat, m: Missed, e: Event, kinds: set<string>)
    requires Sorted(log) && start <= cursor < e.seqNo && e.seqNo !in m.gap
    requires forall x :: x in m.lost ==> x <= cursor
    requires forall x :: x in m.gap ==> cursor < x
    requires Known(Part(log, cursor, e.seqNo, m.gap), kinds) == [e]
    ensures Known(Part(log, start, e.seqNo, Pass(m, e.seqNo).lost), kinds)
      == Known(Part(log, start, cursor, m.lost), kinds) + [e]
  {
    PartPasses(log, start, cursor, m, e.seqNo);
    KnownConcat(Part(log, start, cursor, m.lost), Part(log, cursor, e.seqNo, m.gap), kinds);
  }

  lemma PartPasses(log: seq<Event>, start: nat, cursor: nat, m: Missed, x: nat)
    requires Sorted(log) && start <= cursor < x && x !in m.gap
    requires forall y :: y in m.lost ==> y <= cursor
    requires forall y :: y in m.gap ==> cursor < y
    ensures Part(log, start, x, Pass(m, x).lost) == Part(log, start, cursor, m.lost) + Part(log, cursor, x, m.gap)
  {
    var lost := Pass(m, x).lost;
    PartSplits(log, start, cursor, x, lost);
    PartAgree(log, start, cursor, lost, m.lost);
    PartAgree(log, cursor, x, lost, m.gap);
  }

  predicate HasNext(s: State) {
    s.conn.Some? && s.conn.value.delivered < |s.conn.value.emitted|
  }

  /** The next frame that reaches the client. */
  function NextFrame(s: State): Frame
    requires HasNext(s)
  {
    s.conn.value.emitted[s.conn.value.delivered]
  }

  predicate IsKnown(f: Frame, kinds: set<string>) {
    f.EventFrame? && f.e.kind in kinds
  }

  lemma DeliverKnownKeeps(s: State, m: Missed, start: nat, kinds: set<string>, limit: nat)
    requires Inv(s, m, start, kinds) && HasNext(s) && IsKnown(NextFrame(s), kinds)
    ensures Inv(Apply(s, Deliver, kinds, limit), Track(m, s, Deliver, kinds), start, kinds)
  {
    var c, e := s.conn.value, NextFrame(s).e;
    KnownKeeps(s.log, c, s.cursor, s.handed, m, start, kinds);
    Connected(s.log, c.(delivered := c.delivered + 1, pos := e.seqNo), e.seqNo, s.handed + [e], Pass(m, e.seqNo),
              start, kinds);
    DeliverKnown(s, kinds, limit);
    TrackKnown(s, m, kinds);
  }

  /** The invariant of a connected state from its two halves. */
  lemma Connected(log: seq<Event>, c: Conn, cursor: nat, handed: seq<Event>, m: Missed, start: nat, kinds: set<string>)
    requires HandedOk(log, cursor, handed, m.lost, start, kinds) && WireOk(log, c, cursor, m.gap, kinds)
    ensures Inv(State(log, Some(c), cursor, handed), m, start, kinds)
  {
  }

  lemma TrackKnown(s: State, m: Missed, kinds: set<string>)
    requires HasNext(s) && IsKnown(NextFrame(s), kinds)
    ensures Track(m, s, Deliver, kinds) == Pass(m, NextFrame(s).e.seqNo)
  {
  }

  lemma DeliverOtherKeeps(s: State, m: Missed, start: nat, kinds: set<string>, limit: nat)
    requires Inv(s, m, start, kinds) && HasNext(s) && !IsKnown(NextFrame(s), kinds)
    ensures Inv(Apply(s, Deliver, kinds, limit), Track(m, s, Deliver, kinds), start, kinds)
  {
    UnknownKeeps(s.log, s.conn.value, s.cursor, m.gap, kinds);
    DeliverOther(s, kinds, limit);
  }

  lemma DeliverKnown(s: State, kinds: set<string>, limit: nat)
    requires HasNext(s) && IsKnown(NextFrame(s), kinds) && s.cursor < NextFrame(s).e.seqNo
    ensures var c := s.conn.value;
      var e := c.emitted[c.delivered].e;
      Apply(s, Deliver, kinds, limit) ==
        State(s.log, Some(c.(delivered := c.delivered + 1, pos := e.seqNo)), e.seqNo, s.handed + [e])
  {
  }

  lemma DeliverOther(s: State, kinds: set<string>, limit: nat)
    requires HasNext(s) && !IsKnown(NextFrame(s), kinds)
    ensures var c := s.conn.value;
      var f := c.emitted[c.delivered];
      Apply(s, Deliver, kinds, limit) ==
        s.(conn := Some(c.(delivered := c.delivered + 1, pos := if f.EventFrame? then f.e.seqNo else c.pos)))
  {
  }

  /** A known event moves the cursor to itself. */
  lemma KnownKeeps(log: seq<Event>, c: Conn, cursor: nat, handed: seq<Event>, m: Missed, start: nat, kinds: set<string>)
    requires HandedOk(log, cursor, handed, m.lost, start, kinds) && WireOk(log, c, cursor, m.gap, kinds)
    requires c.delivered < |c.emitted| && IsKnown(c.emitted[c.delivered], kinds)
    ensures var e := c.emitted[c.delivered].e;
      var m' := Pass(m, e.seqNo);
      && cursor < e.seqNo
      && HandedOk(log, e.seqNo, handed + [e], m'.lost, start, kinds)
      && WireOk(log, c.(delivered := c.delivered + 1, pos := e.seqNo), e.seqNo, m'.gap, kinds)
  {
    var e := c.emitted[c.delivered].e;
    EventArrives(log, c, cursor, m.gap, kinds);
    KnownArrives(log, start, cursor, m, e, kinds);
    WirePasses(log, c.(delivered := c.delivered + 1, pos := e.seqNo), m, kinds);
  }

  /** Other frames only move the wire on. */
  lemma UnknownKeeps(log: seq<Event>, c: Conn, cursor: nat, gap: set<nat>, kinds: set<string>)
    requires Sorted(log) && WireOk(log, c, cursor, gap, kinds) && c.delivered < |c.emitted|
    requires !IsKnown(c.emitted[c.delivered], kinds)
    ensures var f := c.emitted[c.delivered];
      WireOk(log, c.(delivered := c.delivered + 1, pos := if f.EventFrame? then f.e.seqNo else c.pos),
             cursor, gap, kinds)
  {
    WireSplits(c.emitted, c.delivered);
    if c.emitted[c.delivered].EventFrame? { EventArrives(log, c, cursor, gap, kinds); }
  }

  lemma WirePasses(log: seq<Event>, c: Conn, m: Missed, kinds: set<string>)
    requires Sorted(log) && c.pos <= c.last <= Head(log) && c.delivered <= |c.emitted| && c.pos !in m.gap
    requires forall x :: x in m.gap ==> x <= c.last
    requires EventsOf(c.emitted[c.delivered..]) == Part(log, c.pos, c.last, m.gap)
    ensures WireOk(log, c, c.pos, Pass(m, c.pos).gap, kinds)
  {
    PartEmpty(log, c.pos, Pass(m, c.pos).gap);
    PartAgree(log, c.pos, c.last, m.gap, Pass(m, c.pos).gap);
  }

  lemma FreshWire(log: seq<Event>, cursor: nat, kinds: set<string>)
    requires cursor <= Head(log)
    ensures WireOk(log, Conn(cursor, false, false, [], 0, cursor), cursor, {}, kinds)
  {
    PartEmpty(log, cursor, {});
    var none: seq<Frame> := [];
    assert none[0..] == [];
  }

  lemma AllLost(log: seq<Event>, lost: set<nat>, kinds: set<string>)
    requires Sorted(log)
    ensures Known(Part(log, 0, Head(log), lost + SeqNos(log)), kinds) == []
    ensures forall x :: x in SeqNos(log) ==> x <= Head(log)
  {
    BetweenIn(log, 0, Head(log));
    WithoutAll(Between(log, 0, Head(log)), lost + SeqNos(log));
  }

  /** A new connection at a position, with nothing under way yet. */
  function At(log: seq<Event>, cursor: nat, handed: seq<Event>): State {
    State(log, Some(Conn(cursor, false, false, [], 0, cursor)), cursor, handed)
  }

  lemma AtKeeps(log: seq<Event>, cursor: nat, handed: seq<Event>, m: Missed, start: nat, kinds: set<string>)
    requires HandedOk(log, cursor, handed, m.lost, start, kinds) && m.gap == {}
    ensures Inv(At(log, cursor, handed), m, start, kinds)
  {
    FreshWire(log, cursor, kinds);
    Connected(log, Conn(cursor, false, false, [], 0, cursor), cursor, handed, m, start, kinds);
  }

  lemma ConnectsAt(s: State, headKnown: bool, kinds: set<string>, limit: nat)
    requires s.conn.None?
    ensures Apply(s, Connect(headKnown), kinds, limit) ==
      At(s.log, if s.cursor == 0 && headKnown then Head(s.log) else s.cursor, s.handed)
  {
  }

  /** With a cursor, or without being told the head, a connection starts at the cursor. */
  lemma ResumeKeeps(s: State, m: Missed, headKnown: bool, start: nat, kinds: set<string>, limit: nat)
    requires Inv(s, m, start, kinds) && s.conn.None? && (s.cursor > 0 || !headKnown)
    ensures Inv(Apply(s, Connect(headKnown), kinds, limit), m, start, kinds)
  {
    AtKeeps(s.log, s.cursor, s.handed, m, start, kinds);
    ConnectsAt(s, headKnown, kinds, limit);
  }

  lemma StartKeeps(s: State, m: Missed, start: nat, kinds: set<string>, limit: nat)
    requires Inv(s, m, start, kinds) && s.conn.None? && s.cursor == 0
    ensures Inv(Apply(s, Connect(true), kinds, limit), m.(lost := m.lost + SeqNos(s.log)), start, kinds)
  {
    HandedAllLost(s.log, s.handed, m.lost, start, kinds);
    AtKeeps(s.log, Head(s.log), s.handed, m.(lost := m.lost + SeqNos(s.log)), start, kinds);
    ConnectsAt(s, true, kinds, limit);
  }

  lemma HandedAllLost(log: seq<Event>, handed: seq<Event>, lost: set<nat>, start: nat, kinds: set<string>)
    requires HandedOk(log, 0, handed, lost, start, kinds)
    ensures HandedOk(log, Head(log), handed, lost + SeqNos(log), start, kinds)
  {
    PartEmpty(log, 0, lost);
    AllLost(log, lost, kinds);
  }

  lemma BetweenIn(log: seq<Event>, lo: nat, hi: nat)
    ensures forall i :: 0 <= i < |Between(log, lo, hi)| ==> Between(log, lo, hi)[i].seqNo in SeqNos(log)
  {
    var a := Upto(log, lo);
    forall i | 0 <= i < |Between(log, lo, hi)| ensures Between(log, lo, hi)[i].seqNo in SeqNos(log) {
      assert Between(log, lo, hi)[i] == log[a + i];
    }
  }

  lemma DropKeeps(s: State, m: Missed, start: nat, kinds: set<string>)
    requires Inv(s, m, start, kinds)
    ensures Inv(s.(conn := None), Missed(m.lost, {}), start, kinds)
  {
  }

  lemma StepKeeps(s: State, m: Missed, step: Step, start: nat, kinds: set<string>, limit: nat)
    requires Inv(s, m, start, kinds)
    ensures Inv(Apply(s, step, kinds, limit), Track(m, s, step, kinds), start, kinds)
  {
    match step
    case Commit(e) => CommitKeeps(s, m, e, start, kinds, limit);
    case ReadRows => if s.conn.Some? && !s.conn.value.headPending {
        RowsKeep(s.log, s.conn.value, s.cursor, m.gap, kinds, limit);
      }
    case ReadHead => if s.conn.Some? && s.conn.value.headPending {
        HeadKeeps(s.log, s.conn.value, s.cursor, m.gap, kinds);
      }
    case Deliver => if HasNext(s) {
        if IsKnown(NextFrame(s), kinds) {
          DeliverKnownKeeps(s, m, start, kinds, limit);
        } else {
          DeliverOtherKeeps(s, m, start, kinds, limit);
        }
      }
    case Drop => DropKeeps(s, m, start, kinds);
    case Connect(headKnown) => if s.conn.None? {
        if s.cursor == 0 && headKnown {
          StartKeeps(s, m, start, kinds, limit);
        } else {
          ResumeKeeps(s, m, headKnown, start, kinds, limit);
        }
      }
  }

  lemma {:induction false} RunKeeps(s: State, steps: seq<Step>, kinds: set<string>, limit: nat)
    requires Sorted(s.log) && s.conn.None? && s.handed == [] && s.cursor <= Head(s.log)
    ensures Inv(Run(s, steps, kinds, limit), MissedIn(s, steps, kinds, limit), s.cursor, kinds)
  {
    if steps == [] {
      PartEmpty(s.log, s.cursor, {});
    } else {
      var before := steps[..|steps| - 1];
      RunKeeps(s, before, kinds, limit);
      StepKeeps(Run(s, before, kinds, limit), MissedIn(s, before, kinds, limit), steps[|steps| - 1],
                s.cursor, kinds, limit);
    }
  }

  // ---- what exactly is handed on --------------------------------------------------------------------------

  lemma {:induction false} WithoutMembers(es: seq<Event>, gone: set<nat>)
    requires Sorted(es)
    ensures Sorted(Without(es, gone))
    ensures forall e :: e in Without(es, gone) <==> e in es && e.seqNo !in gone
  {
    if es != [] {
      var init := es[..|es| - 1];
      WithoutMembers(init, gone);
      assert es == init + [es[|es| - 1]];
      forall e | e in Without(init, gone) ensures e.seqNo < es[|es| - 1].seqNo {}
    }
  }

  /** In every run, with no assumption on the order in which commits become visible, on what
      the head statement sees, on drops or on the cursor: the client is handed, in
      sequence order and each once, exactly the events of its types after its first cursor
      and up to its present one that the run has not lost. */
  lemma HandedExactly(s: State, steps: seq<Step>, kinds: set<string>, limit: nat)
    requires Sorted(s.log) && s.conn.None? && s.handed == [] && s.cursor <= Head(s.log)
    ensures var t, lost := Run(s, steps, kinds, limit), MissedIn(s, steps, kinds, limit).lost;
      && Sorted(t.handed)
      && (forall e :: e in t.handed <==>
            e in Between(t.log, s.cursor, t.cursor) && e.kind in kinds && e.seqNo !in lost)
  {
    RunKeeps(s, steps, kinds, limit);
    var t, lost := Run(s, steps, kinds, limit), MissedIn(s, steps, kinds, limit).lost;
    var all := Between(t.log, s.cursor, t.cursor);
    assert Sorted(all);
    WithoutMembers(all, lost);
    KnownIncreases(Without(all, lost), kinds);
  }

  /** Nothing is missing if and only if no known event after the first cursor is lost. */
  lemma NothingMissingExactly(s: State, steps: seq<Step>, kinds: set<string>, limit: nat)
    requires Sorted(s.log) && s.conn.None? && s.handed == [] && s.cursor <= Head(s.log)
    ensures var t, lost := Run(s, steps, kinds, limit), MissedIn(s, steps, kinds, limit).lost;
      t.handed == Known(Between(t.log, s.cursor, t.cursor), kinds) <==>
      forall e :: e in Between(t.log, s.cursor, t.cursor) && e.kind in kinds ==> e.seqNo !in lost
  {
    RunKeeps(s, steps, kinds, limit);
    HandedExactly(s, steps, kinds, limit);
    var t, lost := Run(s, steps, kinds, limit), MissedIn(s, steps, kinds, limit).lost;
    var all := Between(t.log, s.cursor, t.cursor);
    assert Sorted(all);
    KnownIncreases(all, kinds);
    if forall e :: e in all && e.kind in kinds ==> e.seqNo !in lost {
      KnownWithout(all, lost, kinds);
    }
  }

  lemma {:induction false} KnownWithout(es: seq<Event>, gone: set<nat>, kinds: set<string>)
    requires forall e :: e in es && e.kind in kinds ==> e.seqNo !in gone
    ensures Known(Without(es, gone), kinds) == Known(es, kinds)
  {
    if es != [] {
      var init, last := es[..|es| - 1], es[|es| - 1];
      assert last in es && forall e :: e in init ==> e in es;
      KnownWithout(init, gone, kinds);
      KnownConcat(Without(init, gone), [last], kinds);
      assert Known([last], kinds) == if last.kind in kinds then [last] else [];
    }
  }

  /** What is lost stays lost: no continuation of the run hands it on. */
  lemma {:induction false} LostForGood(s: State, steps: seq<Step>, more: seq<Step>, kinds: set<string>, limit: nat)
    ensures MissedIn(s, steps, kinds, limit).lost <= MissedIn(s, steps + more, kinds, limit).lost
  {
    if more == [] {
      assert steps + more == steps;
    } else {
      var all := steps + more;
      var before := steps + more[..|more| - 1];
      assert all == before + [all[|all| - 1]];
      LostForGood(s, steps, more[..|more| - 1], kinds, limit);
      MissedLast(s, before, all[|all| - 1], kinds, limit);
      TrackKeepsLost(MissedIn(s, before, kinds, limit), Run(s, before, kinds, limit), all[|all| - 1], kinds);
    }
  }

  lemma TrackKeepsLost(m: Missed, s: State, step: Step, kinds: set<string>)
    ensures m.lost <= Track(m, s, step, kinds).lost
  {
  }

  // ---- the three ways to lose an event -----------------------------------------------------------------------

  lemma MissedLast(s: State, steps: seq<Step>, step: Step, kinds: set<string>, limit: nat)
    ensures MissedIn(s, steps + [step], kinds, limit)
      == Track(MissedIn(s, steps, kinds, limit), Run(s, steps, kinds, limit), step, kinds)
  {
    assert (steps + [step])[..|steps + [step]| - 1] == steps;
  }

  lemma NeverHanded(s: State, steps: seq<Step>, more: seq<Step>, x: nat, kinds: set<string>, limit: nat)
    requires Sorted(s.log) && s.conn.None? && s.handed == [] && s.cursor <= Head(s.log)
    requires x in MissedIn(s, steps, kinds, limit).lost
    ensures forall e :: e in Run(s, steps + more, kinds, limit).handed ==> e.seqNo != x
  {
    LostForGood(s, steps, more, kinds, limit);
    HandedExactly(s, steps + more, kinds, limit);
  }

  /** An event of its types that the client's cursor has passed without handing it on is
      never handed on. */
  lemma PassedOverIsFinal(s: State, steps: seq<Step>, more: seq<Step>, e: Event, kinds: set<string>, limit: nat)
    requires Sorted(s.log) && s.conn.None? && s.handed == [] && s.cursor <= Head(s.log) && e.kind in kinds
    requires var t := Run(s, steps, kinds, limit); e in Between(t.log, s.cursor, t.cursor) && e !in t.handed
    ensures e !in Run(s, steps + more, kinds, limit).handed
  {
    HandedExactly(s, steps, kinds, limit);
    NeverHanded(s, steps, more, e.seqNo, kinds, limit);
  }

  /** An event that becomes visible at or below the client's cursor is never handed on. */
  lemma LateCommitIsLost(s: State, steps: seq<Step>, e: Event, more: seq<Step>, kinds: set<string>, limit: nat)
    requires Sorted(s.log) && s.conn.None? && s.handed == [] && s.cursor <= Head(s.log)
    requires var t := Run(s, steps, kinds, limit); e.seqNo !in SeqNos(t.log) && e.seqNo <= t.cursor
    ensures forall h :: h in Run(s, steps + [Commit(e)] + more, kinds, limit).handed ==> h.seqNo != e.seqNo
  {
    MissedLast(s, steps, Commit(e), kinds, limit);
    NeverHanded(s, steps + [Commit(e)], more, e.seqNo, kinds, limit);
  }

  /** A client that reconnects without a cursor, and is told the head, is never handed what
      the log holds by then. */
  lemma ZeroCursorLoses(s: State, steps: seq<Step>, e: Event, more: seq<Step>, kinds: set<string>, limit: nat)
    requires Sorted(s.log) && s.conn.None? && s.handed == [] && s.cursor <= Head(s.log)
    requires var t := Run(s, steps, kinds, limit); t.conn.None? && t.cursor == 0 && e in t.log
    ensures e !in Run(s, steps + [Connect(true)] + more, kinds, limit).handed
  {
    var t := Run(s, steps, kinds, limit);
    var i :| 0 <= i < |t.log| && t.log[i] == e;
    assert t.log[i].seqNo in SeqNos(t.log);
    MissedLast(s, steps, Connect(true), kinds, limit);
    NeverHanded(s, steps + [Connect(true)], more, e.seqNo, kinds, limit);
  }

  /** A known event delivered on a connection loses what that connection passed over before
      it, by a head statement or a late commit. */
  lemma JumpedOverIsLost(s: State, steps: seq<Step>, x: nat, more: seq<Step>, kinds: set<string>, limit: nat)
    requires Sorted(s.log) && s.conn.None? && s.handed == [] && s.cursor <= Head(s.log)
    requires x in MissedIn(s, steps, kinds, limit).gap
    requires var t := Run(s, steps, kinds, limit);
      HasNext(t) && IsKnown(NextFrame(t), kinds) && x < NextFrame(t).e.seqNo
    ensures forall h :: h in Run(s, steps + [Deliver] + more, kinds, limit).handed ==> h.seqNo != x
  {
    MissedLast(s, steps, Deliver, kinds, limit);
    NeverHanded(s, steps + [Deliver], more, x, kinds, limit);
  }

  // ---- exactly once, in order, when nothing can go missing --------------------------------------------------

  /** Commits become visible in sequence order, the head statement sees the same snapshot as
      the empty read before it, and a client without a cursor is not told the head. */
  predicate Faithful(s: State, step: Step) {
    match step
    case Commit(e) => Head(s.log) < e.seqNo
    case ReadHead => s.conn.Some? && s.conn.value.headPending ==> Head(s.log) <= s.conn.value.last
    case Connect(headKnown) => s.conn.None? && s.cursor == 0 ==> !headKnown
    case _ => true
  }

  ghost predicate FaithfulRun(s: State, steps: seq<Step>, kinds: set<string>, limit: nat) {
    steps == [] ||
    var before := steps[..|steps| - 1];
    FaithfulRun(s, before, kinds, limit) && Faithful(Run(s, before, kinds, limit), steps[|steps| - 1])
  }

  lemma FaithfulMisses(s: State, step: Step, start: nat, kinds: set<string>)
    requires Inv(s, Missed({}, {}), start, kinds) && Faithful(s, step)
    ensures Track(Missed({}, {}), s, step, kinds) == Missed({}, {})
  {
    if step.ReadHead? && s.conn.Some? { assert Between(s.log, Head(s.log), Head(s.log)) == []; }
  }

  lemma {:induction false} FaithfulMissesNothing(s: State, steps: seq<Step>, kinds: set<string>, limit: nat)
    requires Sorted(s.log) && s.conn.None? && s.handed == [] && s.cursor <= Head(s.log)
    requires FaithfulRun(s, steps, kinds, limit)
    ensures MissedIn(s, steps, kinds, limit) == Missed({}, {})
  {
    if steps != [] {
      var before := steps[..|steps| - 1];
      FaithfulMissesNothing(s, before, kinds, limit);
      RunKeeps(s, before, kinds, limit);
      FaithfulMisses(Run(s, before, kinds, limit), steps[|steps| - 1], s.cursor, kinds);
    }
  }

  /** Across any number of drops and reconnects, and for every batch size: the client is
      handed exactly the events of its types after its first cursor and up to its
      present one, each once, in sequence order. */
  lemma ExactlyOnceInOrder(s: State, steps: seq<Step>, kinds: set<string>, limit: nat)
    requires Sorted(s.log) && s.conn.None? && s.handed == [] && s.cursor <= Head(s.log)
    requires FaithfulRun(s, steps, kinds, limit)
    ensures var t := Run(s, steps, kinds, limit);
      t.handed == Known(Between(t.log, s.cursor, t.cursor), kinds) && Sorted(t.handed)
  {
    FaithfulMissesNothing(s, steps, kinds, limit);
    NothingMissingExactly(s, steps, kinds, limit);
    HandedExactly(s, steps, kinds, limit);
  }

  // ---- nothing else stays behind ---------------------------------------------------------------------------------

  /** Nothing left to read and nothing under way. */
  predicate CaughtUp(s: State) {
    && s.conn.Some? && s.conn.value.delivered == |s.conn.value.emitted|
    && Head(s.log) <= s.conn.value.last
  }

  /** When a connection has drained the log, every known event has been handed on that is
      neither lost nor in the gap. */
  lemma DrainedMeansComplete(s: State, m: Missed, start: nat, kinds: set<string>)
    requires Inv(s, m, start, kinds) && CaughtUp(s)
    ensures s.handed == Known(Part(s.log, start, Head(s.log), m.lost + m.gap), kinds)
  {
    var c, both := s.conn.value, m.lost + m.gap;
    assert c.emitted[c.delivered..] == [];
    PartSplits(s.log, start, s.cursor, c.last, both);
    PartSplits(s.log, s.cursor, c.pos, c.last, both);
    PartAgree(s.log, start, s.cursor, both, m.lost);
    PartAgree(s.log, s.cursor, c.pos, both, m.gap);
    PartAgree(s.log, c.pos, c.last, both, m.gap);
    KnownConcat(Part(s.log, start, s.cursor, both), Part(s.log, s.cursor, c.last, both), kinds);
    KnownConcat(Part(s.log, s.cursor, c.pos, both), [], kinds);
  }

  /** Deliver what is under way, else read the next batch. */
  function NextStep(c: Conn): Step {
    if c.delivered < |c.emitted| then Deliver else ReadRows
  }

  /** Each such step reads on or delivers on. */
  lemma DrainMoves(s: State, kinds: set<string>, limit: nat)
    requires limit > 0 && Sorted(s.log) && s.conn.Some? && !s.conn.value.headPending && !CaughtUp(s)
    requires s.conn.value.delivered <= |s.conn.value.emitted|
    ensures var t := Apply(s, NextStep(s.conn.value), kinds, limit);
      t.log == s.log && t.conn.Some? && !t.conn.value.headPending && Shorter(s.log, t.conn.value, s.conn.value)
  {
    var c := s.conn.value;
    if NextStep(c) == ReadRows {
      UptoSplits(s.log, c.last);
      assert ReadSince(s.log, c.last, limit) != [];
      BatchIsStretch(s.log, c.last, limit);
    }
  }

  /** And it misses nothing more. */
  lemma DrainMisses(s: State, m: Missed, kinds: set<string>)
    requires s.conn.Some?
    ensures var n := Track(m, s, NextStep(s.conn.value), kinds); n.lost + n.gap == m.lost + m.gap
  {
  }

  predicate Shorter(log: seq<Event>, c': Conn, c: Conn) {
    || Upto(log, c.last) < Upto(log, c'.last)
    || (c'.last == c.last && c'.emitted == c.emitted && c'.delivered == c.delivered + 1 <= |c.emitted|)
  }

  /** Reading and delivering alone drains any connected state: the wait is only for the
      feed and the wire, whatever the batch size. */
  lemma {:induction false} DrainsEventually(s: State, m: Missed, start: nat, kinds: set<string>, limit: nat)
    returns (steps: seq<Step>)
    requires limit > 0 && Inv(s, m, start, kinds) && s.conn.Some? && !s.conn.value.headPending
    ensures forall i :: 0 <= i < |steps| ==> steps[i].ReadRows? || steps[i].Deliver?
    ensures var t := Run(s, steps, kinds, limit);
      CaughtUp(t) && t.log == s.log && t.handed == Known(Part(s.log, start, Head(s.log), m.lost + m.gap), kinds)
    decreases |s.log| - Upto(s.log, s.conn.value.last), |s.conn.value.emitted| - s.conn.value.delivered
  {
    if CaughtUp(s) {
      steps := [];
      DrainedMeansComplete(s, m, start, kinds);
    } else {
      var step, t, n := DrainStep(s, m, start, kinds, limit);
      var rest := DrainsEventually(t, n, start, kinds, limit);
      steps := [step] + rest;
      RunFirst(s, step, rest, kinds, limit);
    }
  }

  lemma DrainStep(s: State, m: Missed, start: nat, kinds: set<string>, limit: nat)
    returns (step: Step, t: State, n: Missed)
    requires limit > 0 && Inv(s, m, start, kinds) && s.conn.Some? && !s.conn.value.headPending && !CaughtUp(s)
    ensures (step.ReadRows? || step.Deliver?) && t == Apply(s, step, kinds, limit)
    ensures Inv(t, n, start, kinds) && n.lost + n.gap == m.lost + m.gap
    ensures t.log == s.log && t.conn.Some? && !t.conn.value.headPending
    ensures Shorter(s.log, t.conn.value, s.conn.value)
  {
    step := NextStep(s.conn.value);
    t, n := Apply(s, step, kinds, limit), Track(m, s, step, kinds);
    DrainMoves(s, kinds, limit);
    DrainMisses(s, m, kinds);
    StepKeeps(s, m, step, start, kinds, limit);
  }

  /** A reconnect at a cursor makes up for the gap: once the new connection has drained, only
      what was lost before is missing. */
  lemma ReconnectRecovers(s: State, m: Missed, headKnown: bool, start: nat, kinds: set<string>, limit: nat)
    returns (steps: seq<Step>)
    requires limit > 0 && Inv(s, m, start, kinds) && (s.cursor > 0 || !headKnown)
    ensures var t := Run(s, [Drop, Connect(headKnown)] + steps, kinds, limit);
      CaughtUp(t) && t.log == s.log && t.handed == Known(Part(s.log, start, Head(s.log), m.lost), kinds)
  {
    Reconnected(s, m, headKnown, start, kinds, limit);
    var resumed := Apply(Apply(s, Drop, kinds, limit), Connect(headKnown), kinds, limit);
    steps := DrainsEventually(resumed, Missed(m.lost, {}), start, kinds, limit);
    RunTwo(s, Drop, Connect(headKnown), steps, kinds, limit);
    assert m.lost + {} == m.lost;
  }

  lemma Reconnected(s: State, m: Missed, headKnown: bool, start: nat, kinds: set<string>, limit: nat)
    requires Inv(s, m, start, kinds) && (s.cursor > 0 || !headKnown)
    ensures var t := Apply(Apply(s, Drop, kinds, limit), Connect(headKnown), kinds, limit);
      && Inv(t, Missed(m.lost, {}), start, kinds)
      && t.conn.Some? && !t.conn.value.headPending && t.log == s.log
  {
    var dropped := s.(conn := None);
    AtKeeps(s.log, s.cursor, s.handed, Missed(m.lost, {}), start, kinds);
    ConnectsAt(dropped, headKnown, kinds, limit);
  }

  lemma RunTwo(s: State, a: Step, b: Step, steps: seq<Step>, kinds: set<string>, limit: nat)
    ensures Run(s, [a, b] + steps, kinds, limit)
      == Run(Apply(Apply(s, a, kinds, limit), b, kinds, limit), steps, kinds, limit)
  {
    RunFirst(s, a, [b] + steps, kinds, limit);
    RunFirst(Apply(s, a, kinds, limit), b, steps, kinds, limit);
    FirstTwo(a, b, steps);
  }

  lemma FirstTwo(a: Step, b: Step, steps: seq<Step>)
    ensures [a, b] + steps == [a] + ([b] + steps)
  {
  }

  // ---- a run that loses an event ----------------------------------------------------------------------------------

  /** The feed has made its empty read at event 1; 2 is committed before its head statement. */
  lemma RaceAtHead(kind: string)
    ensures Run(State([Event(1, kind)], None, 1, []),
                [Connect(true), ReadRows, Commit(Event(2, kind)), ReadHead], {kind}, 500)
      == State([Event(1, kind), Event(2, kind)], Some(Conn(2, true, false, [CatchUpComplete(2)], 0, 1)), 1, [])
  {
    var k, log := {kind}, [Event(1, kind)];
    var s1 := State(log, Some(Conn(1, false, false, [], 0, 1)), 1, []);
    UptoUnique(log, 1, 1);
    assert ReadSince(log, 1, 500) == [];
    var s2 := State(log, Some(Conn(1, false, true, [], 0, 1)), 1, []);
    assert Apply(s1, ReadRows, k, 500) == s2;
    UptoUnique(log, 2, 1);
    assert Insert(log, Event(2, kind)) == [Event(1, kind), Event(2, kind)];
    var s3 := s2.(log := [Event(1, kind), Event(2, kind)]);
    assert Apply(s2, Commit(Event(2, kind)), k, 500) == s3;
    assert [] + [CatchUpComplete(2)] == [CatchUpComplete(2)];
    FourSteps(State(log, None, 1, []), Connect(true), ReadRows, Commit(Event(2, kind)), ReadHead, k, 500);
  }

  /** The next event is delivered and moves the cursor past the one that was skipped. */
  lemma RaceAfterHead(kind: string)
    ensures var two := [Event(1, kind), Event(2, kind)];
      var t := Run(State(two, Some(Conn(2, true, false, [CatchUpComplete(2)], 0, 1)), 1, []),
                   [Commit(Event(3, kind)), ReadRows, Deliver, Deliver], {kind}, 500);
      t.log == two + [Event(3, kind)] && t.cursor == 3 && t.handed == [Event(3, kind)] && CaughtUp(t)
  {
    var k, two := {kind}, [Event(1, kind), Event(2, kind)];
    var three := two + [Event(3, kind)];
    var s1 := State(two, Some(Conn(2, true, false, [CatchUpComplete(2)], 0, 1)), 1, []);
    UptoUnique(two, 3, 2);
    assert Insert(two, Event(3, kind)) == three;
    assert Apply(s1, Commit(Event(3, kind)), k, 500) == s1.(log := three);
    var wire := [CatchUpComplete(2), EventFrame(Event(3, kind))];
    var s3 := State(three, Some(Conn(3, true, false, wire, 0, 1)), 1, []);
    assert Apply(s1.(log := three), ReadRows, k, 500) == s3 by { RaceReads(kind); }
    FourSteps(s1, Commit(Event(3, kind)), ReadRows, Deliver, Deliver, k, 500);
    assert Apply(s3, Deliver, k, 500) == State(three, Some(Conn(3, true, false, wire, 1, 1)), 1, []);
  }

  lemma RaceReads(kind: string)
    ensures var three := [Event(1, kind), Event(2, kind)] + [Event(3, kind)];
      Apply(State(three, Some(Conn(2, true, false, [CatchUpComplete(2)], 0, 1)), 1, []), ReadRows, {kind}, 500)
      == State(three, Some(Conn(3, true, false, [CatchUpComplete(2), EventFrame(Event(3, kind))], 0, 1)), 1, [])
  {
    var three := [Event(1, kind), Event(2, kind)] + [Event(3, kind)];
    UptoUnique(three, 2, 2);
    assert ReadSince(three, 2, 500) == [Event(3, kind)];
    assert Frames([Event(3, kind)]) == [EventFrame(Event(3, kind))];
    assert [CatchUpComplete(2)] + [EventFrame(Event(3, kind))] == [CatchUpComplete(2), EventFrame(Event(3, kind))];
  }

  lemma FourSteps(s: State, a: Step, b: Step, c: Step, d: Step, kinds: set<string>, limit: nat)
    ensures Run(s, [a, b, c, d], kinds, limit)
      == Apply(Apply(Apply(Apply(s, a, kinds, limit), b, kinds, limit), c, kinds, limit), d, kinds, limit)
  {
    RunTwo(s, a, b, [c, d], kinds, limit);
    assert [a, b] + [c, d] == [a, b, c, d];
    RunTwo(Apply(Apply(s, a, kinds, limit), b, kinds, limit), c, d, [], kinds, limit);
    assert [c, d] + [] == [c, d];
  }

  /** Two statements, two snapshots: an event committed between them is passed over, and lost
      once the next event is delivered, although the client is then caught up. */
  lemma HeadRaceLosesEvent(kind: string) returns (steps: seq<Step>)
    ensures var t := Run(State([Event(1, kind)], None, 1, []), steps, {kind}, 500);
      && t.log == [Event(1, kind), Event(2, kind), Event(3, kind)] && t.cursor == 3
      && t.handed == [Event(3, kind)] && CaughtUp(t)
  {
    RaceAtHead(kind);
    RaceAfterHead(kind);
    var a := [Connect(true), ReadRows, Commit(Event(2, kind)), ReadHead];
    var b := [Commit(Event(3, kind)), ReadRows, Deliver, Deliver];
    RunConcat(State([Event(1, kind)], None, 1, []), a, b, {kind}, 500);
    steps := a + b;
    assert [Event(1, kind), Event(2, kind)] + [Event(3, kind)] == [Event(1, kind), Event(2, kind), Event(3, kind)];
  }

  lemma RaceBetween(kind: string)
    ensures Event(2, kind) in Between([Event(1, kind), Event(2, kind), Event(3, kind)], 1, 3)
  {
    var log := [Event(1, kind), Event(2, kind), Event(3, kind)];
    UptoUnique(log, 1, 1);
    UptoUnique(log, 3, 3);
    assert Between(log, 1, 3)[0] == Event(2, kind);
  }

  /** And no continuation, with reconnects or without, brings it back. */
  lemma HeadRaceIsFinal(kind: string, steps: seq<Step>, more: seq<Step>)
    requires var t := Run(State([Event(1, kind)], None, 1, []), steps, {kind}, 500);
      && t.log == [Event(1, kind), Event(2, kind), Event(3, kind)] && t.cursor == 3
      && t.handed == [Event(3, kind)]
    ensures Event(2, kind) !in Run(State([Event(1, kind)], None, 1, []), steps + more, {kind}, 500).handed
  {
    RaceBetween(kind);
    PassedOverIsFinal(State([Event(1, kind)], None, 1, []), steps, more, Event(2, kind), {kind}, 500);
  }
}
