/** The EPK auto-layout (apps/web/src/lib/workflows.ts): breadth-first depths give rows,
    nodes of a row are spread and the whole is shifted into positive coordinates. */
module Layout {

  const NODE_W: int := 150
  const NODE_H: int := 48
  const PADDING: int := 24
  const ROW_GAP: int := 110
  const COL_GAP: int := 190

  datatype Edge = Edge(src: string, dst: string)

  datatype Graph = Graph(nodes: seq<string>, edges: seq<Edge>, start: string)

  function Keys(g: Graph): set<string> {
    set i | 0 <= i < |g.nodes| :: g.nodes[i]
  }

  predicate IsProper(e: Edge, keys: set<string>) {
    e.src in keys && e.dst in keys
  }

  /** Targets of the edges out of `k`, in edge order; edges with a missing end do not count. */
  function Targets(edges: seq<Edge>, keys: set<string>, k: string): seq<string> {
    if edges == [] then []
    else
      var e := edges[|edges| - 1];
      var init := Targets(edges[..|edges| - 1], keys, k);
      if IsProper(e, keys) && e.src == k then init + [e.dst] else init
  }

  // ---- breadth-first depths -----------------------------------------------------------------

  /** The search: depths so far, keys ever queued, and the queue. */
  datatype Search = Search(depth: map<string, nat>, seen: set<string>, queue: seq<string>)

  function DepthOf(depth: map<string, nat>, k: string): nat {
    if k in depth then depth[k] else 0
  }

  /** Follow one edge from `k`: raise the target's depth, queue it if it is new. */
  function Follow(s: Search, k: string, next: string): Search {
    var d := DepthOf(s.depth, k) + 1;
    var depth := if next !in s.depth || d > s.depth[next] then s.depth[next := d] else s.depth;
    if next in s.seen then s.(depth := depth)
    else Search(depth, s.seen + {next}, s.queue + [next])
  }

  function FollowAll(s: Search, k: string, targets: seq<string>): Search {
    if targets == [] then s
    else Follow(FollowAll(s, k, targets[..|targets| - 1]), k, targets[|targets| - 1])
  }

  ghost predicate Distinct(q: seq<string>) {
    forall i, j :: 0 <= i < j < |q| ==> q[i] != q[j]
  }

  /** Queued keys are distinct, seen, and keys of the graph. */
  ghost predicate SearchOk(s: Search, keys: set<string>) {
    && s.seen <= keys && Distinct(s.queue)
    && (forall i :: 0 <= i < |s.queue| ==> s.queue[i] in s.seen)
    && (forall k :: k in s.seen ==> k in s.depth)
  }

  function QueueSet(q: seq<string>): set<string> {
    set i | 0 <= i < |q| :: q[i]
  }

  /** Keys still to be dequeued: queued now, or not seen yet. */
  function Waiting(s: Search, keys: set<string>): set<string> {
    QueueSet(s.queue) + (keys - s.seen)
  }

  lemma FollowKeeps(s: Search, k: string, next: string, keys: set<string>)
    requires SearchOk(s, keys) && next in keys
    ensures var t := Follow(s, k, next);
      SearchOk(t, keys) && Waiting(t, keys) == Waiting(s, keys) && s.seen <= t.seen && s.queue <= t.queue
  {
    var t := Follow(s, k, next);
    if next !in s.seen {
      assert QueueSet(t.queue) == QueueSet(s.queue) + {next} by {
        assert t.queue[|s.queue|] == next;
        forall x | x in QueueSet(s.queue) ensures x in QueueSet(t.queue) {
          var i :| 0 <= i < |s.queue| && s.queue[i] == x;
          assert t.queue[i] == x;
        }
      }
    }
  }

  lemma {:induction false} FollowAllKeeps(s: Search, k: string, targets: seq<string>, keys: set<string>)
    requires SearchOk(s, keys) && forall i :: 0 <= i < |targets| ==> targets[i] in keys
    ensures var t := FollowAll(s, k, targets);
      SearchOk(t, keys) && Waiting(t, keys) == Waiting(s, keys) && s.seen <= t.seen && s.queue <= t.queue
  {
    if targets != [] {
      var n := |targets| - 1;
      FollowAllKeeps(s, k, targets[..n], keys);
      FollowKeeps(FollowAll(s, k, targets[..n]), k, targets[n], keys);
    }
  }

  lemma {:induction false} TargetsAreKeys(edges: seq<Edge>, keys: set<string>, k: string)
    ensures forall i :: 0 <= i < |Targets(edges, keys, k)| ==> Targets(edges, keys, k)[i] in keys
  {
    if edges != [] { TargetsAreKeys(edges[..|edges| - 1], keys, k); }
  }

  /** One turn of the search loop. */
  function Turn(g: Graph, s: Search): Search
    requires s.queue != []
  {
    FollowAll(s.(queue := s.queue[1..]), s.queue[0], Targets(g.edges, Keys(g), s.queue[0]))
  }

  /** Each turn dequeues one waiting key for good. */
  lemma TurnKeeps(g: Graph, s: Search)
    requires SearchOk(s, Keys(g)) && s.queue != []
    ensures var t := Turn(g, s);
      && SearchOk(t, Keys(g)) && s.seen <= t.seen
      && s.queue[0] in Waiting(s, Keys(g)) && Waiting(t, Keys(g)) == Waiting(s, Keys(g)) - {s.queue[0]}
      && |Waiting(t, Keys(g))| < |Waiting(s, Keys(g))|
  {
    var k, rest := s.queue[0], s.(queue := s.queue[1..]);
    TargetsAreKeys(g.edges, Keys(g), k);
    Dequeues(s, Keys(g));
    FollowAllKeeps(rest, k, Targets(g.edges, Keys(g), k), Keys(g));
  }

  lemma Dequeues(s: Search, keys: set<string>)
    requires SearchOk(s, keys) && s.queue != []
    ensures var k, rest := s.queue[0], s.(queue := s.queue[1..]);
      && SearchOk(rest, keys) && k in Waiting(s, keys)
      && Waiting(rest, keys) == Waiting(s, keys) - {k}
  {
    var k, rest := s.queue[0], s.(queue := s.queue[1..]);
    forall i | 0 <= i < |rest.queue| ensures rest.queue[i] == s.queue[i + 1] {}
    QueueSetFirst(s.queue);
  }

  lemma QueueSetFirst(q: seq<string>)
    requires q != [] && Distinct(q)
    ensures QueueSet(q) == QueueSet(q[1..]) + {q[0]} && q[0] !in QueueSet(q[1..])
  {
    var rest := q[1..];
    forall x | x in QueueSet(q) ensures x in QueueSet(rest) + {q[0]} {
      var i :| 0 <= i < |q| && q[i] == x;
      if i > 0 { assert rest[i - 1] == x; }
    }
    forall i | 0 <= i < |rest| ensures rest[i] in QueueSet(q) && rest[i] != q[0] {
      assert rest[i] == q[i + 1];
    }
  }

  /** The whole search. */
  function Explore(g: Graph, s: Search): Search
    requires SearchOk(s, Keys(g))
    decreases |Waiting(s, Keys(g))|
  {
    if s.queue == [] then s
    else
      TurnKeeps(g, s);
      Explore(g, Turn(g, s))
  }

  function Begin(g: Graph): (s: Search)
    ensures SearchOk(s, Keys(g))
  {
    if g.start in Keys(g) then Search(map[g.start := 0], {g.start}, [g.start])
    else Search(map[g.start := 0], {}, [])
  }

  function Depths(g: Graph): map<string, nat> {
    Explore(g, Begin(g)).depth
  }

  // ---- no depth exceeds the number of edges ---------------------------------------------------

  /** Proper edges that start in a set. */
  function EdgesFrom(edges: seq<Edge>, keys: set<string>, from: set<string>): nat {
    if edges == [] then 0
    else
      var e := edges[|edges| - 1];
      EdgesFrom(edges[..|edges| - 1], keys, from) + if IsProper(e, keys) && e.src in from then 1 else 0
  }

  lemma {:induction false} EdgesWithout(edges: seq<Edge>, keys: set<string>, from: set<string>, k: string)
    requires k in from
    ensures EdgesFrom(edges, keys, from) == EdgesFrom(edges, keys, from - {k}) + |Targets(edges, keys, k)|
  {
    if edges != [] { EdgesWithout(edges[..|edges| - 1], keys, from, k); }
  }

  lemma {:induction false} EdgesBound(edges: seq<Edge>, keys: set<string>, from: set<string>)
    ensures EdgesFrom(edges, keys, from) <= |edges|
  {
    if edges != [] { EdgesBound(edges[..|edges| - 1], keys, from); }
  }

  ghost predicate DepthsUpto(depth: map<string, nat>, n: nat) {
    forall k :: k in depth ==> depth[k] <= n
  }

  lemma {:induction false} FollowAllDepth(s: Search, k: string, targets: seq<string>, n: nat)
    requires DepthsUpto(s.depth, n)
    ensures DepthsUpto(FollowAll(s, k, targets).depth, n + |targets|)
  {
    if targets != [] {
      FollowAllDepth(s, k, targets[..|targets| - 1], n);
    }
  }

  lemma {:induction false} ExploreDepth(g: Graph, s: Search, n: nat)
    requires SearchOk(s, Keys(g)) && DepthsUpto(s.depth, n)
    ensures DepthsUpto(Explore(g, s).depth, n + EdgesFrom(g.edges, Keys(g), Waiting(s, Keys(g))))
    decreases |Waiting(s, Keys(g))|
  {
    if s.queue != [] {
      var k := s.queue[0];
      var targets := Targets(g.edges, Keys(g), k);
      TurnKeeps(g, s);
      FollowAllDepth(s.(queue := s.queue[1..]), k, targets, n);
      EdgesWithout(g.edges, Keys(g), Waiting(s, Keys(g)), k);
      ExploreDepth(g, Turn(g, s), n + |targets|);
    }
  }

  /** For every graph, cyclic or not, no depth exceeds the number of edges. */
  lemma DepthAtMostEdges(g: Graph)
    ensures DepthsUpto(Depths(g), |g.edges|)
  {
    ExploreDepth(g, Begin(g), 0);
    EdgesBound(g.edges, Keys(g), Waiting(Begin(g), Keys(g)));
  }

  // ---- the search loop ----------------------------------------------------------------------------

  method Adjacency(g: Graph) returns (out: map<string, seq<string>>)
    ensures out.Keys == Keys(g)
    ensures forall k :: k in out ==> out[k] == Targets(g.edges, Keys(g), k)
  {
    var keys := Keys(g);
    out := map k | k in keys :: [];
    var i := 0;
    while i < |g.edges|
      invariant 0 <= i <= |g.edges| && out.Keys == keys
      invariant forall k :: k in out ==> out[k] == Targets(g.edges[..i], keys, k)
    {
      var e := g.edges[i];
      assert g.edges[..i + 1][..i] == g.edges[..i];
      if e.src in keys && e.dst in keys {
        out := out[e.src := out[e.src] + [e.dst]];
      }
      i := i + 1;
    }
    assert g.edges[..i] == g.edges;
  }

  /** The inner loop: follow every edge out of `k`. */
  method FollowEdges(depth0: map<string, nat>, seen0: set<string>, queue0: seq<string>, k: string, targets: seq<string>)
    returns (depth: map<string, nat>, seen: set<string>, queue: seq<string>)
    ensures Search(depth, seen, queue) == FollowAll(Search(depth0, seen0, queue0), k, targets)
  {
    depth, seen, queue := depth0, seen0, queue0;
    var j := 0;
    while j < |targets|
      invariant 0 <= j <= |targets|
      invariant Search(depth, seen, queue) == FollowAll(Search(depth0, seen0, queue0), k, targets[..j])
    {
      var next := targets[j];
      assert targets[..j + 1][..j] == targets[..j];
      var d := DepthOf(depth, k) + 1;
      if next !in depth || d > depth[next] { depth := depth[next := d]; }
      if next !in seen {
        seen := seen + {next};
        queue := queue + [next];
      }
      j := j + 1;
    }
    assert targets[..j] == targets;
  }

  /** The keys dequeued so far are distinct keys of the graph that will not come again. */
  ghost predicate DequeuedOk(g: Graph, s: Search, dequeued: seq<string>) {
    && Distinct(dequeued)
    && forall i :: 0 <= i < |dequeued| ==> dequeued[i] in Keys(g) && dequeued[i] !in Waiting(s, Keys(g))
  }

  lemma DequeueKeeps(g: Graph, s: Search, dequeued: seq<string>)
    requires SearchOk(s, Keys(g)) && s.queue != [] && DequeuedOk(g, s, dequeued)
    ensures DequeuedOk(g, Turn(g, s), dequeued + [s.queue[0]])
  {
    TurnKeeps(g, s);
    assert s.queue[0] in Keys(g);
  }

  /** The breadth-first loop: it terminates on every graph, dequeues no key twice, and
      computes the depths of the specification. */
  method BreadthFirst(g: Graph) returns (depth: map<string, nat>, dequeued: seq<string>)
    ensures depth == Depths(g)
    ensures Distinct(dequeued) && forall i :: 0 <= i < |dequeued| ==> dequeued[i] in Keys(g)
  {
    var out := Adjacency(g);
    var queue := if g.start in Keys(g) then [g.start] else [];
    depth := map[g.start := 0];
    var seen := if g.start in Keys(g) then {g.start} else {};
    dequeued := [];
    ghost var s := Begin(g);
    while queue != []
      invariant s == Search(depth, seen, queue) && SearchOk(s, Keys(g))
      invariant Explore(g, s) == Explore(g, Begin(g))
      invariant DequeuedOk(g, s, dequeued)
      decreases |Waiting(s, Keys(g))|
    {
      TurnKeeps(g, s);
      DequeueKeeps(g, s, dequeued);
      assert queue[0] in seen;
      var k := queue[0];
      dequeued := dequeued + [k];
      depth, seen, queue := FollowEdges(depth, seen, queue[1..], k, out[k]);
      s := Turn(g, s);
    }
  }

  // ---- rows and coordinates ---------------------------------------------------------------------------

  datatype Point = Point(x: int, y: int)

  type Rows = map<nat, seq<string>>

  /** Every key sits in the row of its depth, and in no other. */
  ghost predicate RowsOk(rows: Rows, depth: map<string, nat>, nodes: seq<string>) {
    && (forall d, i :: d in rows && 0 <= i < |rows[d]| ==> rows[d][i] in nodes && DepthOf(depth, rows[d][i]) == d)
    && (forall j :: 0 <= j < |nodes| ==> DepthOf(depth, nodes[j]) in rows && nodes[j] in rows[DepthOf(depth, nodes[j])])
  }

  /** The nodes of one depth, in node order. */
  function RowOf(nodes: seq<string>, depth: map<string, nat>, d: nat): seq<string> {
    if nodes == [] then []
    else
      var last := nodes[|nodes| - 1];
      RowOf(nodes[..|nodes| - 1], depth, d) + if DepthOf(depth, last) == d then [last] else []
  }

  function RowAt(rows: Rows, d: nat): seq<string> {
    if d in rows then rows[d] else []
  }

  ghost predicate RowsInOrder(rows: Rows, depth: map<string, nat>, nodes: seq<string>) {
    forall d: nat :: RowAt(rows, d) == RowOf(nodes, depth, d)
  }

  lemma RowNext(nodes: seq<string>, depth: map<string, nat>, n: nat, d: nat)
    requires n < |nodes|
    ensures RowOf(nodes[..n + 1], depth, d) ==
      RowOf(nodes[..n], depth, d) + if DepthOf(depth, nodes[n]) == d then [nodes[n]] else []
  {
    assert nodes[..n + 1][..n] == nodes[..n];
  }

  lemma OrderGrows(rows: Rows, depth: map<string, nat>, nodes: seq<string>, n: nat, rows': Rows)
    requires n < |nodes| && RowsInOrder(rows, depth, nodes[..n])
    requires var d := DepthOf(depth, nodes[n]); rows' == rows[d := RowAt(rows, d) + [nodes[n]]]
    ensures RowsInOrder(rows', depth, nodes[..n + 1])
  {
    forall e: nat ensures RowAt(rows', e) == RowOf(nodes[..n + 1], depth, e) {
      RowNext(nodes, depth, n, e);
      assert RowAt(rows, e) == RowOf(nodes[..n], depth, e);
    }
  }

  method MakeRows(nodes: seq<string>, depth: map<string, nat>) returns (rows: Rows)
    ensures RowsInOrder(rows, depth, nodes)
  {
    rows := map[];
    var n := 0;
    while n < |nodes|
      invariant 0 <= n <= |nodes| && RowsInOrder(rows, depth, nodes[..n])
    {
      var d := DepthOf(depth, nodes[n]);
      var more := rows[d := RowAt(rows, d) + [nodes[n]]];
      OrderGrows(rows, depth, nodes, n, more);
      rows, n := more, n + 1;
    }
    assert nodes[..n] == nodes;
  }

  /** A row has exactly the nodes of its depth, each once if the nodes are distinct. */
  lemma {:induction false} RowMembers(nodes: seq<string>, depth: map<string, nat>, d: nat)
    ensures forall k :: k in RowOf(nodes, depth, d) <==> k in nodes && DepthOf(depth, k) == d
    ensures Distinct(nodes) ==> Distinct(RowOf(nodes, depth, d))
  {
    if nodes != [] {
      var init, last := nodes[..|nodes| - 1], nodes[|nodes| - 1];
      RowMembers(init, depth, d);
      assert nodes == init + [last];
      if Distinct(nodes) { assert last !in init; }
    }
  }

  lemma InOrderIsOk(rows: Rows, depth: map<string, nat>, nodes: seq<string>)
    requires RowsInOrder(rows, depth, nodes)
    ensures RowsOk(rows, depth, nodes)
    ensures Distinct(nodes) ==> forall d :: d in rows ==> Distinct(rows[d])
  {
    forall d | d in rows
      ensures Distinct(nodes) ==> Distinct(rows[d])
      ensures forall i :: 0 <= i < |rows[d]| ==> rows[d][i] in nodes && DepthOf(depth, rows[d][i]) == d
    {
      RowMembers(nodes, depth, d);
      assert RowAt(rows, d) == RowOf(nodes, depth, d);
    }
    forall j | 0 <= j < |nodes|
      ensures DepthOf(depth, nodes[j]) in rows && nodes[j] in rows[DepthOf(depth, nodes[j])]
    {
      RowMembers(nodes, depth, DepthOf(depth, nodes[j]));
      assert nodes[j] in RowAt(rows, DepthOf(depth, nodes[j]));
    }
  }

  /** Centre of place `i` in a row of `len` nodes, the row centred on 0. */
  function CentreAt(i: nat, len: nat): int {
    i * COL_GAP - (len - 1) * COL_GAP / 2
  }

  /** `c` is the centre of one of the places the key has in its row. */
  ghost predicate IsCentre(row: seq<string>, k: string, c: int) {
    exists i :: 0 <= i < |row| && row[i] == k && c == CentreAt(i, |row|)
  }

  method Centres(rows: Rows, depth: map<string, nat>, nodes: seq<string>) returns (centre: map<string, int>)
    requires RowsOk(rows, depth, nodes)
    ensures forall k :: k in nodes ==> k in centre && IsCentre(rows[DepthOf(depth, k)], k, centre[k])
    ensures forall k :: k in centre ==> k in nodes
  {
    centre := map[];
    var todo := rows.Keys;
    while todo != {}
      invariant todo <= rows.Keys && forall k :: k in centre ==> k in nodes
      invariant forall k :: k in nodes && DepthOf(depth, k) in rows.Keys - todo ==>
        k in centre && IsCentre(rows[DepthOf(depth, k)], k, centre[k])
    {
      var d :| d in todo;
      var row := rows[d];
      var i := 0;
      while i < |row|
        invariant 0 <= i <= |row| && forall k :: k in centre ==> k in nodes
        invariant forall k :: k in nodes && DepthOf(depth, k) in rows.Keys - todo ==>
          k in centre && IsCentre(rows[DepthOf(depth, k)], k, centre[k])
        invariant forall j :: 0 <= j < i ==> row[j] in centre && IsCentre(row, row[j], centre[row[j]])
      {
        centre := centre[row[i] := CentreAt(i, |row|)];
        assert IsCentre(row, row[i], CentreAt(i, |row|));
        i := i + 1;
      }
      todo := todo - {d};
    }
  }

  method LeastLeft(centre: map<string, int>) returns (minLeft: int)
    ensures minLeft <= 0 && forall k :: k in centre ==> minLeft <= centre[k] - NODE_W / 2
    ensures minLeft == 0 || exists k :: k in centre && minLeft == centre[k] - NODE_W / 2
  {
    minLeft := 0;
    var todo := centre.Keys;
    while todo != {}
      invariant todo <= centre.Keys && minLeft <= 0
      invariant minLeft == 0 || exists k :: k in centre && minLeft == centre[k] - NODE_W / 2
      invariant forall k :: k in centre.Keys - todo ==> minLeft <= centre[k] - NODE_W / 2
    {
      var k :| k in todo;
      if centre[k] - NODE_W / 2 < minLeft { minLeft := centre[k] - NODE_W / 2; }
      todo := todo - {k};
    }
  }

  /** The boxes of two nodes, 150 by 48, do not overlap. */
  predicate Apart(p: Point, q: Point) {
    p.x + 150 <= q.x || q.x + 150 <= p.x || p.y + 48 <= q.y || q.y + 48 <= p.y
  }

  /** Two keys of one row are a column apart. */
  lemma CentresApart(row: seq<string>, a: string, ca: int, b: string, cb: int)
    requires a != b && IsCentre(row, a, ca) && IsCentre(row, b, cb)
    ensures ca + COL_GAP <= cb || cb + COL_GAP <= ca
  {
    var i :| 0 <= i < |row| && row[i] == a && ca == CentreAt(i, |row|);
    var j :| 0 <= j < |row| && row[j] == b && cb == CentreAt(j, |row|);
    assert i != j;
  }

  /** The first key of a row without repetitions lies left of the middle. */
  lemma FirstIsLeft(row: seq<string>, c: int)
    requires row != [] && Distinct(row) && IsCentre(row, row[0], c)
    ensures c <= 0
  {
    var i :| 0 <= i < |row| && row[i] == row[0] && c == CentreAt(i, |row|);
    assert i == 0;
  }

  lemma SomeIsLeft(rows: Rows, depth: map<string, nat>, nodes: seq<string>, centre: map<string, int>)
    requires nodes != [] && RowsOk(rows, depth, nodes) && forall d :: d in rows ==> Distinct(rows[d])
    requires forall k :: k in nodes ==> k in centre && IsCentre(rows[DepthOf(depth, k)], k, centre[k])
    ensures exists k :: k in centre && centre[k] <= 0
  {
    var row := rows[DepthOf(depth, nodes[0])];
    assert row[0] in nodes;
    FirstIsLeft(row, centre[row[0]]);
  }

  /** Top-left corners: centres shifted into the padding, rows a gap apart. */
  function Place(depth: map<string, nat>, centre: map<string, int>, minLeft: int, k: string): Point
    requires k in centre
  {
    Point(centre[k] - NODE_W / 2 - minLeft + PADDING, DepthOf(depth, k) * ROW_GAP + PADDING)
  }

  ghost predicate CentresOk(rows: Rows, depth: map<string, nat>, nodes: seq<string>, centre: map<string, int>) {
    && RowsOk(rows, depth, nodes)
    && (forall k :: k in nodes ==> k in centre && IsCentre(rows[DepthOf(depth, k)], k, centre[k]))
    && (forall k :: k in centre ==> k in nodes)
  }

  lemma PlacedApart(rows: Rows, depth: map<string, nat>, nodes: seq<string>, centre: map<string, int>,
                    minLeft: int, a: string, b: string)
    requires CentresOk(rows, depth, nodes, centre) && a in nodes && b in nodes && a != b
    ensures Apart(Place(depth, centre, minLeft, a), Place(depth, centre, minLeft, b))
  {
    if DepthOf(depth, a) == DepthOf(depth, b) {
      CentresApart(rows[DepthOf(depth, a)], a, centre[a], b, centre[b]);
    }
  }

  lemma LeftmostAtPadding(rows: Rows, depth: map<string, nat>, nodes: seq<string>, centre: map<string, int>,
                          minLeft: int) returns (k: string)
    requires CentresOk(rows, depth, nodes, centre) && nodes != [] && forall d :: d in rows ==> Distinct(rows[d])
    requires forall x :: x in centre ==> minLeft <= centre[x] - NODE_W / 2
    requires minLeft == 0 || exists x :: x in centre && minLeft == centre[x] - NODE_W / 2
    ensures k in nodes && k in centre && Place(depth, centre, minLeft, k).x == PADDING
  {
    SomeIsLeft(rows, depth, nodes, centre);
    k :| k in centre && minLeft == centre[k] - NODE_W / 2;
  }

  /** The row is spread evenly, a column apart, with its middle on the axis. */
  ghost predicate Centred(pos: map<string, Point>, row: seq<string>, axis: int) {
    forall i :: 0 <= i < |row| ==> PlaceIs(pos, row, i, axis)
  }

  predicate PlaceIs(pos: map<string, Point>, row: seq<string>, i: nat, axis: int)
    requires i < |row|
  {
    row[i] in pos && 2 * pos[row[i]].x + 150 == 2 * axis + (2 * i - (|row| - 1)) * 190
  }

  /** All rows have one axis. */
  ghost predicate OnAxis(pos: map<string, Point>, nodes: seq<string>, depth: map<string, nat>, axis: int) {
    forall d: nat :: Centred(pos, RowOf(nodes, depth, d), axis)
  }

  lemma PlacedOnAxis(rows: Rows, depth: map<string, nat>, nodes: seq<string>, centre: map<string, int>, minLeft: int,
                     pos: map<string, Point>)
    requires CentresOk(rows, depth, nodes, centre) && RowsInOrder(rows, depth, nodes)
    requires forall d :: d in rows ==> Distinct(rows[d])
    requires forall k :: k in centre ==> k in pos && pos[k] == Place(depth, centre, minLeft, k)
    ensures OnAxis(pos, nodes, depth, PADDING - minLeft)
  {
    var axis := PADDING - minLeft;
    forall d: nat ensures Centred(pos, RowOf(nodes, depth, d), axis) {
      if d in rows { RowPlaced(rows, depth, nodes, centre, minLeft, pos, d); }
      assert RowAt(rows, d) == RowOf(nodes, depth, d);
    }
  }

  lemma RowPlaced(rows: Rows, depth: map<string, nat>, nodes: seq<string>, centre: map<string, int>, minLeft: int,
                  pos: map<string, Point>, d: nat)
    requires CentresOk(rows, depth, nodes, centre) && d in rows && Distinct(rows[d])
    requires forall k :: k in centre ==> k in pos && pos[k] == Place(depth, centre, minLeft, k)
    ensures Centred(pos, rows[d], PADDING - minLeft)
  {
    RowCentres(rows, depth, nodes, centre, d);
    RowOnAxis(rows[d], centre, minLeft, pos);
  }

  lemma RowCentres(rows: Rows, depth: map<string, nat>, nodes: seq<string>, centre: map<string, int>, d: nat)
    requires CentresOk(rows, depth, nodes, centre) && d in rows
    ensures CentredBy(rows[d], centre)
  {
    forall i | 0 <= i < |rows[d]| ensures rows[d][i] in centre && IsCentre(rows[d], rows[d][i], centre[rows[d][i]]) {
      assert rows[d][i] in nodes && DepthOf(depth, rows[d][i]) == d;
    }
  }

  ghost predicate CentredBy(row: seq<string>, centre: map<string, int>) {
    forall i :: 0 <= i < |row| ==> row[i] in centre && IsCentre(row, row[i], centre[row[i]])
  }

  lemma RowOnAxis(row: seq<string>, centre: map<string, int>, minLeft: int, pos: map<string, Point>)
    requires Distinct(row) && CentredBy(row, centre)
    requires forall k :: k in centre ==> k in pos && pos[k].x == centre[k] - NODE_W / 2 - minLeft + PADDING
    ensures Centred(pos, row, PADDING - minLeft)
  {
    var axis := PADDING - minLeft;
    forall i | 0 <= i < |row| ensures PlaceIs(pos, row, i, axis) {
      PlaceFollows(pos, row, i, centre[row[i]], minLeft);
    }
  }

  lemma PlaceFollows(pos: map<string, Point>, row: seq<string>, i: nat, c: int, minLeft: int)
    requires i < |row| && Distinct(row) && IsCentre(row, row[i], c)
    requires row[i] in pos && pos[row[i]].x == c - NODE_W / 2 - minLeft + PADDING
    ensures PlaceIs(pos, row, i, PADDING - minLeft)
  {
    CentreIs(row, i, c);
  }

  lemma CentreIs(row: seq<string>, i: nat, c: int)
    requires i < |row| && Distinct(row) && IsCentre(row, row[i], c)
    ensures 2 * c == (2 * i - (|row| - 1)) * 190
  {
    var j :| 0 <= j < |row| && row[j] == row[i] && c == CentreAt(j, |row|);
    assert j == i;
    CentreTwice(i, |row|);
  }

  lemma CentreTwice(i: nat, len: nat)
    ensures 2 * CentreAt(i, len) == (2 * i - (len - 1)) * 190
  {
    var m := len - 1;
    assert m * COL_GAP == 190 * m && 190 * m / 2 == 95 * m;
    assert i * COL_GAP == 190 * i && (2 * i - m) * 190 == 380 * i - 190 * m;
  }

  /** Rows, centres and the shift, given the depths. */
  method Arrange(nodes: seq<string>, depth: map<string, nat>) returns (pos: map<string, Point>)
    ensures forall k :: k in pos <==> k in nodes
    ensures forall k :: k in pos ==> pos[k].y == DepthOf(depth, k) * ROW_GAP + PADDING && pos[k].x >= PADDING
    ensures forall a, b :: a in pos && b in pos && a != b ==> Apart(pos[a], pos[b])
    ensures nodes != [] && Distinct(nodes) ==> exists k :: k in pos && pos[k].x == PADDING
    ensures Distinct(nodes) ==> exists axis :: OnAxis(pos, nodes, depth, axis)
  {
    var rows := MakeRows(nodes, depth);
    InOrderIsOk(rows, depth, nodes);
    var centre := Centres(rows, depth, nodes);
    var minLeft := LeastLeft(centre);
    pos := map k | k in centre :: Place(depth, centre, minLeft, k);
    if Distinct(nodes) { PlacedOnAxis(rows, depth, nodes, centre, minLeft, pos); }
    if nodes != [] && Distinct(nodes) {
      var k := LeftmostAtPadding(rows, depth, nodes, centre, minLeft);
      assert k in pos && pos[k].x == PADDING;
    }
    forall a, b | a in pos && b in pos && a != b ensures Apart(pos[a], pos[b]) {
      PlacedApart(rows, depth, nodes, centre, minLeft, a, b);
    }
  }

  /** The auto-layout of any graph: every node key gets a position inside the padding, in
      a row no deeper than the number of edges, and no two boxes overlap. With unique keys
      the leftmost node stands exactly at the padding, and every row, in node order and a
      column apart, is centred on one axis. */
  method LayoutRows(g: Graph) returns (pos: map<string, Point>)
    ensures pos.Keys == Keys(g)
    ensures forall k :: k in pos ==> pos[k].y == DepthOf(Depths(g), k) * 110 + 24
    ensures forall k :: k in pos ==> pos[k].x >= 24 && 24 <= pos[k].y <= |g.edges| * 110 + 24
    ensures forall a, b :: a in pos && b in pos && a != b ==> Apart(pos[a], pos[b])
    ensures g.nodes != [] && Distinct(g.nodes) ==> exists k :: k in pos && pos[k].x == 24
    ensures Distinct(g.nodes) ==> exists axis :: OnAxis(pos, g.nodes, Depths(g), axis)
  {
    var depth, _ := BreadthFirst(g);
    DepthAtMostEdges(g);
    pos := Arrange(g.nodes, depth);
    assert forall k :: k in Keys(g) <==> k in g.nodes;
  }

  // ---- depths are lengths of walks --------------------------------------------------------------------

  /** There is a walk of `n` proper edges from the start to `k`. */
  ghost predicate Walk(g: Graph, n: nat, k: string)
    decreases n
  {
    if n == 0 then k == g.start && k in Keys(g)
    else exists i :: 0 <= i < |g.edges| && Leads(g, g.edges[i], k) && Walk(g, n - 1, g.edges[i].src)
  }

  predicate Leads(g: Graph, e: Edge, k: string) {
    IsProper(e, Keys(g)) && e.dst == k
  }

  lemma {:induction false} TargetsAreEdges(g: Graph, n: nat, k: string, j: nat)
    requires n <= |g.edges| && j < |Targets(g.edges[..n], Keys(g), k)|
    ensures exists i :: 0 <= i < n && g.edges[i].src == k && Leads(g, g.edges[i], Targets(g.edges[..n], Keys(g), k)[j])
  {
    assert g.edges[..n][..n - 1] == g.edges[..n - 1];
    if j < |Targets(g.edges[..n - 1], Keys(g), k)| {
      TargetsAreEdges(g, n - 1, k, j);
    } else {
      assert Leads(g, g.edges[n - 1], Targets(g.edges[..n], Keys(g), k)[j]);
    }
  }

  lemma {:induction false} EdgesAreTargets(g: Graph, n: nat, i: nat)
    requires i < n <= |g.edges| && IsProper(g.edges[i], Keys(g))
    ensures g.edges[i].dst in Targets(g.edges[..n], Keys(g), g.edges[i].src)
  {
    var k := g.edges[i].src;
    assert g.edges[..n][..n - 1] == g.edges[..n - 1];
    if i < n - 1 { EdgesAreTargets(g, n - 1, i); }
    assert Targets(g.edges[..n], Keys(g), k) == Targets(g.edges[..n - 1], Keys(g), k)
      + if IsProper(g.edges[n - 1], Keys(g)) && g.edges[n - 1].src == k then [g.edges[n - 1].dst] else [];
  }

  ghost predicate DepthsAreWalks(g: Graph, depth: map<string, nat>) {
    forall k :: k in depth ==> Walk(g, depth[k], k)
  }

  lemma WalkOn(g: Graph, n: nat, k: string, next: string)
    requires Walk(g, n, k) && next in Targets(g.edges, Keys(g), k)
    ensures Walk(g, n + 1, next)
  {
    var targets := Targets(g.edges, Keys(g), k);
    var j :| 0 <= j < |targets| && targets[j] == next;
    assert g.edges[..|g.edges|] == g.edges;
    TargetsAreEdges(g, |g.edges|, k, j);
  }

  lemma {:induction false} FollowAllWalks(g: Graph, s: Search, k: string, targets: seq<string>)
    requires k in s.depth && DepthsAreWalks(g, s.depth)
    requires forall i :: 0 <= i < |targets| ==> targets[i] in Targets(g.edges, Keys(g), k)
    ensures k in FollowAll(s, k, targets).depth && DepthsAreWalks(g, FollowAll(s, k, targets).depth)
  {
    if targets != [] {
      var n := |targets| - 1;
      FollowAllWalks(g, s, k, targets[..n]);
      FollowWalks(g, FollowAll(s, k, targets[..n]), k, targets[n]);
    }
  }

  lemma FollowWalks(g: Graph, s: Search, k: string, next: string)
    requires k in s.depth && DepthsAreWalks(g, s.depth) && next in Targets(g.edges, Keys(g), k)
    ensures k in Follow(s, k, next).depth && DepthsAreWalks(g, Follow(s, k, next).depth)
  {
    WalkOn(g, s.depth[k], k, next);
  }

  lemma {:induction false} ExploreWalks(g: Graph, s: Search)
    requires SearchOk(s, Keys(g)) && DepthsAreWalks(g, s.depth)
    ensures DepthsAreWalks(g, Explore(g, s).depth)
    decreases |Waiting(s, Keys(g))|
  {
    if s.queue != [] {
      var k := s.queue[0];
      TurnKeeps(g, s);
      assert k in s.seen;
      FollowAllWalks(g, s.(queue := s.queue[1..]), k, Targets(g.edges, Keys(g), k));
      ExploreWalks(g, Turn(g, s));
    }
  }

  /** Every depth the search assigns is the length of a walk from the start. */
  lemma DepthIsWalkLength(g: Graph)
    requires g.start in Keys(g)
    ensures DepthsAreWalks(g, Depths(g))
  {
    ExploreWalks(g, Begin(g));
  }

  // ---- the search reaches everything a walk reaches ------------------------------------------------------

  function Reached(g: Graph): set<string> {
    Explore(g, Begin(g)).seen
  }

  /** Every key that was seen and is no longer queued has only seen targets. */
  ghost predicate Closed(g: Graph, s: Search) {
    forall k :: k in s.seen && k !in QueueSet(s.queue) ==>
      forall i :: 0 <= i < |Targets(g.edges, Keys(g), k)| ==> Targets(g.edges, Keys(g), k)[i] in s.seen
  }

  lemma {:induction false} FollowAllSees(s: Search, k: string, targets: seq<string>)
    ensures var t := FollowAll(s, k, targets);
      && s.seen <= t.seen <= s.seen + QueueSet(t.queue) && QueueSet(s.queue) <= QueueSet(t.queue)
      && forall i :: 0 <= i < |targets| ==> targets[i] in t.seen
  {
    if targets != [] {
      var n := |targets| - 1;
      FollowAllSees(s, k, targets[..n]);
      QueueSetAppend(FollowAll(s, k, targets[..n]).queue, targets[n]);
    }
  }

  lemma QueueSetAppend(q: seq<string>, x: string)
    ensures QueueSet(q + [x]) == QueueSet(q) + {x}
  {
    var r := q + [x];
    assert r[|q|] == x;
    forall y | y in QueueSet(q) ensures y in QueueSet(r) {
      var i :| 0 <= i < |q| && q[i] == y;
      assert r[i] == y;
    }
  }

  lemma TurnClosed(g: Graph, s: Search)
    requires SearchOk(s, Keys(g)) && s.queue != [] && Closed(g, s)
    ensures Closed(g, Turn(g, s))
  {
    var k, rest := s.queue[0], s.(queue := s.queue[1..]);
    var t := Turn(g, s);
    FollowAllSees(rest, k, Targets(g.edges, Keys(g), k));
    QueueSetFirst(s.queue);
    forall x | x in t.seen && x !in QueueSet(t.queue)
      ensures forall i :: 0 <= i < |Targets(g.edges, Keys(g), x)| ==> Targets(g.edges, Keys(g), x)[i] in t.seen
    {
      assert x in s.seen && (x == k || x !in QueueSet(s.queue));
    }
  }

  lemma {:induction false} ExploreClosed(g: Graph, s: Search)
    requires SearchOk(s, Keys(g)) && Closed(g, s)
    ensures var t := Explore(g, s);
      Closed(g, t) && t.queue == [] && s.seen <= t.seen && SearchOk(t, Keys(g))
    decreases |Waiting(s, Keys(g))|
  {
    if s.queue != [] {
      TurnKeeps(g, s);
      TurnClosed(g, s);
      ExploreClosed(g, Turn(g, s));
    }
  }

  lemma ReachedIsClosed(g: Graph)
    ensures Closed(g, Explore(g, Begin(g))) && Explore(g, Begin(g)).queue == []
    ensures g.start in Keys(g) ==> g.start in Reached(g)
    ensures forall k :: k in Reached(g) ==> k in Depths(g)
  {
    if g.start in Keys(g) { assert [g.start][0] in QueueSet([g.start]); }
    ExploreClosed(g, Begin(g));
  }

  lemma EdgeStaysReached(g: Graph, i: nat)
    requires i < |g.edges| && IsProper(g.edges[i], Keys(g)) && g.edges[i].src in Reached(g)
    ensures g.edges[i].dst in Reached(g)
  {
    ReachedIsClosed(g);
    assert g.edges[..|g.edges|] == g.edges;
    EdgesAreTargets(g, |g.edges|, i);
    var targets := Targets(g.edges, Keys(g), g.edges[i].src);
    var j :| 0 <= j < |targets| && targets[j] == g.edges[i].dst;
  }

  lemma {:induction false} WalksAreReached(g: Graph, n: nat, k: string)
    requires Walk(g, n, k)
    ensures k in Reached(g)
    decreases n
  {
    if n == 0 {
      ReachedIsClosed(g);
    } else {
      var i :| 0 <= i < |g.edges| && Leads(g, g.edges[i], k) && Walk(g, n - 1, g.edges[i].src);
      WalksAreReached(g, n - 1, g.edges[i].src);
      EdgeStaysReached(g, i);
    }
  }

  // ---- the order of the queue, without depths -------------------------------------------------------------

  /** The keys met so far and the queue. */
  datatype Front = Front(seen: set<string>, queue: seq<string>)

  function Enqueue(f: Front, targets: seq<string>): Front {
    if targets == [] then f
    else
      var init, next := Enqueue(f, targets[..|targets| - 1]), targets[|targets| - 1];
      if next in init.seen then init else Front(init.seen + {next}, init.queue + [next])
  }

  function Advance(g: Graph, f: Front): Front
    requires f.queue != []
  {
    Enqueue(Front(f.seen, f.queue[1..]), Targets(g.edges, Keys(g), f.queue[0]))
  }

  function FrontOf(s: Search): Front {
    Front(s.seen, s.queue)
  }

  /** A search at this front, whatever its depths. */
  function Flat(f: Front): Search {
    Search(map k | k in f.seen :: 0, f.seen, f.queue)
  }

  lemma {:induction false} FollowAllEnqueues(s: Search, k: string, targets: seq<string>)
    ensures FrontOf(FollowAll(s, k, targets)) == Enqueue(FrontOf(s), targets)
  {
    if targets != [] { FollowAllEnqueues(s, k, targets[..|targets| - 1]); }
  }

  lemma TurnAdvances(g: Graph, s: Search)
    requires s.queue != []
    ensures FrontOf(Turn(g, s)) == Advance(g, FrontOf(s))
  {
    FollowAllEnqueues(s.(queue := s.queue[1..]), s.queue[0], Targets(g.edges, Keys(g), s.queue[0]));
  }

  ghost predicate FrontOk(f: Front, keys: set<string>) {
    f.seen <= keys && Distinct(f.queue) && forall i :: 0 <= i < |f.queue| ==> f.queue[i] in f.seen
  }

  lemma AdvanceKeeps(g: Graph, f: Front)
    requires FrontOk(f, Keys(g)) && f.queue != []
    ensures FrontOk(Advance(g, f), Keys(g))
    ensures |Waiting(Flat(Advance(g, f)), Keys(g))| < |Waiting(Flat(f), Keys(g))|
  {
    TurnKeeps(g, Flat(f));
    TurnAdvances(g, Flat(f));
  }

  /** The keys in the order in which they leave the queue, from a front on. */
  function QueueOrder(g: Graph, f: Front): seq<string>
    requires FrontOk(f, Keys(g))
    decreases |Waiting(Flat(f), Keys(g))|
  {
    if f.queue == [] then []
    else
      AdvanceKeeps(g, f);
      [f.queue[0]] + QueueOrder(g, Advance(g, f))
  }

  /** The breadth-first order of the graph. */
  function BreadthOrder(g: Graph): seq<string> {
    QueueOrder(g, FrontOf(Begin(g)))
  }

  // ---- depths are the longest walks in that order -----------------------------------------------------------

  /** There is a walk of `n` edges to `k` whose keys before the last are taken in order. */
  ghost predicate Ordered(g: Graph, order: seq<string>, n: nat, k: string)
    decreases |order|
  {
    if n == 0 then k == g.start
    else exists i :: 0 <= i < |order| && Targeted(g, order[i], k) && Ordered(g, order[..i], n - 1, order[i])
  }

  predicate Targeted(g: Graph, k: string, next: string) {
    next in Targets(g.edges, Keys(g), k)
  }

  /** One more key in order: the walks so far, and those that end with an edge from it. */
  lemma OrderedAppend(g: Graph, order: seq<string>, x: string, n: nat, k: string)
    ensures Ordered(g, order + [x], n, k) <==>
      Ordered(g, order, n, k) || (n > 0 && Targeted(g, x, k) && Ordered(g, order, n - 1, x))
  {
    var more := order + [x];
    if n > 0 {
      assert more[..|order|] == order;
      forall i | 0 <= i < |order| ensures more[i] == order[i] && more[..i] == order[..i] {}
      if Ordered(g, more, n, k) {
        var i :| 0 <= i < |more| && Targeted(g, more[i], k) && Ordered(g, more[..i], n - 1, more[i]);
        if i < |order| { assert Targeted(g, order[i], k) && Ordered(g, order[..i], n - 1, order[i]); }
      }
      if Ordered(g, order, n, k) {
        var i :| 0 <= i < |order| && Targeted(g, order[i], k) && Ordered(g, order[..i], n - 1, order[i]);
        assert Targeted(g, more[i], k) && Ordered(g, more[..i], n - 1, more[i]);
      }
      if Targeted(g, x, k) && Ordered(g, order, n - 1, x) {
        assert Targeted(g, more[|order|], k) && Ordered(g, more[..|order|], n - 1, more[|order|]);
      }
    }
  }

  /** `n` is the length of a longest ordered walk to `k`. */
  ghost predicate IsLongestOrdered(g: Graph, order: seq<string>, k: string, n: nat) {
    Ordered(g, order, n, k) && forall m: nat :: Ordered(g, order, m, k) ==> m <= n
  }

  /** The depths after the keys of `order` have been dequeued. */
  ghost predicate DepthsAreOrdered(g: Graph, order: seq<string>, depth: map<string, nat>) {
    && (forall k :: k in depth ==> IsLongestOrdered(g, order, k, depth[k]))
    && (forall k, n: nat :: Ordered(g, order, n, k) ==> k in depth)
  }

  function Higher(a: nat, b: nat): nat { if a > b then a else b }

  /** Following the edges of a key without a loop raises its targets to just below it. */
  lemma {:induction false} FollowAllDepths(s: Search, x: string, targets: seq<string>, k: string)
    requires x in s.depth && x !in targets
    ensures var t := FollowAll(s, x, targets).depth;
      && x in t && t[x] == s.depth[x]
      && (k in t <==> k in s.depth || k in targets)
      && (k in targets ==> t[k] == Higher(DepthOf(s.depth, k), s.depth[x] + 1))
      && (k in s.depth && k !in targets ==> t[k] == s.depth[k])
  {
    if targets != [] {
      var n := |targets| - 1;
      assert targets == targets[..n] + [targets[n]];
      FollowAllDepths(s, x, targets[..n], k);
    }
  }

  lemma RaisedIsLongest(g: Graph, order: seq<string>, x: string, d: nat, k: string, was: nat, now: nat)
    requires IsLongestOrdered(g, order, x, d) && Targeted(g, x, k)
    requires now == Higher(was, d + 1)
    requires IsLongestOrdered(g, order, k, was) || (was == 0 && forall m: nat :: !Ordered(g, order, m, k))
    ensures IsLongestOrdered(g, order + [x], k, now)
  {
    OrderedAppend(g, order, x, now, k);
    forall m: nat | Ordered(g, order + [x], m, k) ensures m <= now { OrderedAppend(g, order, x, m, k); }
  }

  lemma KeptIsLongest(g: Graph, order: seq<string>, x: string, k: string, n: nat)
    requires IsLongestOrdered(g, order, k, n) && !Targeted(g, x, k)
    ensures IsLongestOrdered(g, order + [x], k, n)
  {
    OrderedAppend(g, order, x, n, k);
    forall m: nat | Ordered(g, order + [x], m, k) ensures m <= n { OrderedAppend(g, order, x, m, k); }
  }

  lemma TurnOrders(g: Graph, s: Search, order: seq<string>)
    requires SearchOk(s, Keys(g)) && s.queue != [] && DepthsAreOrdered(g, order, s.depth)
    requires !Targeted(g, s.queue[0], s.queue[0])
    ensures DepthsAreOrdered(g, order + [s.queue[0]], Turn(g, s).depth)
  {
    var x, t := s.queue[0], Turn(g, s).depth;
    assert x in s.seen;
    var rest, targets := s.(queue := s.queue[1..]), Targets(g.edges, Keys(g), x);
    forall k | k in t ensures IsLongestOrdered(g, order + [x], k, t[k]) {
      FollowAllDepths(rest, x, targets, k);
      if Targeted(g, x, k) {
        RaisedIsLongest(g, order, x, s.depth[x], k, DepthOf(s.depth, k), t[k]);
      } else {
        KeptIsLongest(g, order, x, k, s.depth[k]);
      }
    }
    forall k, n: nat | Ordered(g, order + [x], n, k) ensures k in t {
      OrderedAppend(g, order, x, n, k);
      FollowAllDepths(rest, x, targets, k);
    }
  }

  /** No key on a walk has an edge to itself. */
  ghost predicate NoLoops(g: Graph) {
    forall n: nat, k :: Walk(g, n, k) ==> !Targeted(g, k, k)
  }

  lemma {:induction false} ExploreOrders(g: Graph, s: Search, order: seq<string>)
    requires NoLoops(g) && SearchOk(s, Keys(g)) && DepthsAreWalks(g, s.depth) && DepthsAreOrdered(g, order, s.depth)
    ensures DepthsAreOrdered(g, order + QueueOrder(g, FrontOf(s)), Explore(g, s).depth)
    decreases |Waiting(s, Keys(g))|
  {
    if s.queue == [] {
      assert order + [] == order;
    } else {
      var x := s.queue[0];
      TurnKeeps(g, s);
      assert x in s.seen;
      FollowAllWalks(g, s.(queue := s.queue[1..]), x, Targets(g.edges, Keys(g), x));
      assert !Targeted(g, x, x);
      TurnOrders(g, s, order);
      ExploreOrders(g, Turn(g, s), order + [x]);
      OrderUnfolds(g, s, order);
    }
  }

  lemma OrderUnfolds(g: Graph, s: Search, order: seq<string>)
    requires SearchOk(s, Keys(g)) && s.queue != []
    ensures SearchOk(Turn(g, s), Keys(g))
    ensures order + QueueOrder(g, FrontOf(s)) == order + [s.queue[0]] + QueueOrder(g, FrontOf(Turn(g, s)))
  {
    TurnKeeps(g, s);
    TurnAdvances(g, s);
  }

  /** What the search computes, on every graph without loops: the depth of a key is the
      length of the longest walk to it that takes its keys in breadth-first order. */
  lemma DepthIsLongestOrdered(g: Graph)
    requires NoLoops(g) && g.start in Keys(g)
    ensures DepthsAreOrdered(g, BreadthOrder(g), Depths(g))
  {
    assert DepthsAreOrdered(g, [], Begin(g).depth);
    ExploreOrders(g, Begin(g), []);
    assert [] + BreadthOrder(g) == BreadthOrder(g);
  }

  // ---- exactly when rows are longest-path depths -----------------------------------------------------------

  /** `n` is the length of a longest walk from the start to `k`. */
  ghost predicate IsLongest(g: Graph, k: string, n: nat) {
    Walk(g, n, k) && forall m: nat :: Walk(g, m, k) ==> m <= n
  }

  ghost predicate RowsAreLongest(g: Graph) {
    forall k :: k in Reached(g) ==> k in Depths(g) && IsLongest(g, k, Depths(g)[k])
  }

  /** Some walk to `k` in breadth-first order has at least `n` edges. */
  ghost predicate Matched(g: Graph, n: nat, k: string) {
    exists m: nat :: n <= m && Ordered(g, BreadthOrder(g), m, k)
  }

  /** Every walk is matched by one in breadth-first order that is no shorter. */
  ghost predicate WalksMatched(g: Graph) {
    forall n: nat, k :: Walk(g, n, k) ==> Matched(g, n, k)
  }

  lemma LongestHasNoLoops(g: Graph)
    requires RowsAreLongest(g)
    ensures NoLoops(g)
  {
    forall n: nat, k | Walk(g, n, k) ensures !Targeted(g, k, k) {
      WalksAreReached(g, n, k);
      var d := Depths(g)[k];
      assert IsLongest(g, k, d);
      if Targeted(g, k, k) { WalkOn(g, d, k, k); }
    }
  }

  lemma LongestIsMatched(g: Graph, n: nat, k: string)
    requires RowsAreLongest(g) && NoLoops(g) && g.start in Keys(g) && Walk(g, n, k)
    ensures Matched(g, n, k)
  {
    WalksAreReached(g, n, k);
    DepthIsLongestOrdered(g);
    assert IsLongest(g, k, Depths(g)[k]) && IsLongestOrdered(g, BreadthOrder(g), k, Depths(g)[k]);
  }

  lemma MatchedIsLongest(g: Graph, k: string)
    requires NoLoops(g) && WalksMatched(g) && g.start in Keys(g) && k in Reached(g)
    ensures k in Depths(g) && IsLongest(g, k, Depths(g)[k])
  {
    ReachedIsClosed(g);
    DepthIsWalkLength(g);
    DepthIsLongestOrdered(g);
    forall m: nat | Walk(g, m, k) ensures m <= Depths(g)[k] {
      assert Matched(g, m, k);
      assert IsLongestOrdered(g, BreadthOrder(g), k, Depths(g)[k]);
    }
  }

  lemma {:induction false} WalksNeedStart(g: Graph, n: nat, k: string)
    requires Walk(g, n, k)
    ensures g.start in Keys(g)
    decreases n
  {
    if n > 0 {
      var i :| 0 <= i < |g.edges| && Leads(g, g.edges[i], k) && Walk(g, n - 1, g.edges[i].src);
      WalksNeedStart(g, n - 1, g.edges[i].src);
    }
  }

  /** Rows are the longest-path depths the comment promises if and only if no walk meets a
      loop and every walk is matched by one in breadth-first order that is no shorter. The
      condition is about the graph alone. */
  lemma LongestPathExact(g: Graph)
    ensures RowsAreLongest(g) <==> NoLoops(g) && WalksMatched(g)
  {
    if RowsAreLongest(g) {
      LongestHasNoLoops(g);
      forall n: nat, k | Walk(g, n, k) ensures Matched(g, n, k) {
        WalksNeedStart(g, n, k);
        LongestIsMatched(g, n, k);
      }
    }
    if NoLoops(g) && WalksMatched(g) && g.start in Keys(g) {
      forall k | k in Reached(g) ensures k in Depths(g) && IsLongest(g, k, Depths(g)[k]) {
        MatchedIsLongest(g, k);
      }
    }
  }

  // ---- the smallest graph without cycles that goes wrong -----------------------------------------------------

  datatype FourKeys = Four(s: string, a: string, c: string, d: string)

  type Four = n: FourKeys |
    n.s != n.a && n.s != n.c && n.s != n.d && n.a != n.c && n.a != n.d && n.c != n.d
    witness Four("", "1", "2", "3")

  /** s -> c -> d and s -> a -> c, the short way to c first. */
  function Shortcut(n: Four): Graph {
    Graph([n.s, n.a, n.c, n.d], [Edge(n.s, n.c), Edge(n.s, n.a), Edge(n.a, n.c), Edge(n.c, n.d)], n.s)
  }

  lemma ShortcutTargets(n: Four, k: string)
    ensures Keys(Shortcut(n)) == {n.s, n.a, n.c, n.d}
    ensures Targets(Shortcut(n).edges, Keys(Shortcut(n)), k) ==
      if k == n.s then [n.c, n.a] else if k == n.a then [n.c] else if k == n.c then [n.d] else []
  {
    var g := Shortcut(n);
    var keys, e := Keys(g), g.edges;
    assert g.nodes[0] == n.s && g.nodes[1] == n.a && g.nodes[2] == n.c && g.nodes[3] == n.d;
    assert e[..3][..2] == e[..2] && e[..2][..1] == e[..1] && e[..1][..0] == [];
    assert Targets(e[..1], keys, k) == if k == n.s then [n.c] else [];
    assert Targets(e[..2], keys, k) == if k == n.s then [n.c, n.a] else [];
    assert Targets(e[..3], keys, k) == if k == n.s then [n.c, n.a] else if k == n.a then [n.c] else [];
  }

  lemma ForkEnqueues(n: Four)
    ensures Enqueue(Front({n.s}, []), [n.c, n.a]) == Front({n.s, n.c, n.a}, [n.c, n.a])
  {
    assert [n.c, n.a][..1] == [n.c] && [n.c][..0] == [];
    assert Enqueue(Front({n.s}, []), [n.c]) == Front({n.s, n.c}, [n.c]);
  }

  lemma EnqueueOne(f: Front, x: string)
    ensures Enqueue(f, [x]) == if x in f.seen then f else Front(f.seen + {x}, f.queue + [x])
  {
    assert [x][..0] == [];
  }

  /** The front before each turn. */
  function ShortcutFront(n: Four, i: nat): Front
    requires i <= 4
  {
    if i == 0 then Front({n.s}, [n.s])
    else if i == 1 then Front({n.s, n.c, n.a}, [n.c, n.a])
    else Front({n.s, n.c, n.a, n.d}, if i == 2 then [n.a, n.d] else if i == 3 then [n.d] else [])
  }

  lemma ShortcutAdvances(n: Four, i: nat)
    requires i < 4
    ensures Advance(Shortcut(n), ShortcutFront(n, i)) == ShortcutFront(n, i + 1)
  {
    var f := ShortcutFront(n, i);
    ShortcutTargets(n, f.queue[0]);
    if i == 0 {
      ForkEnqueues(n);
    } else if i < 3 {
      EnqueueOne(Front(f.seen, f.queue[1..]), if i == 1 then n.d else n.c);
    }
  }

  lemma {:induction false} ShortcutOrder(n: Four, i: nat)
    requires i <= 4
    ensures FrontOk(ShortcutFront(n, i), Keys(Shortcut(n)))
    ensures QueueOrder(Shortcut(n), ShortcutFront(n, i)) == [n.s, n.c, n.a, n.d][i..]
    decreases 4 - i
  {
    ShortcutTargets(n, n.s);
    if i < 4 {
      ShortcutOrder(n, i + 1);
      ShortcutAdvances(n, i);
    }
  }

  /** There is a walk of three edges to d. */
  lemma LongWay(n: Four)
    ensures Walk(Shortcut(n), 3, n.d)
  {
    var g := Shortcut(n);
    ShortcutTargets(n, n.s);
    ShortcutTargets(n, n.a);
    ShortcutTargets(n, n.c);
    assert Walk(g, 0, n.s);
    WalkOn(g, 0, n.s, n.a);
    WalkOn(g, 1, n.a, n.c);
    WalkOn(g, 2, n.c, n.d);
  }

  /** But c leaves the queue before a, so that no walk of three edges to d is in order. */
  lemma OnlyShortWay(n: Four, m: nat)
    requires m >= 3
    ensures !Ordered(Shortcut(n), [n.s, n.c, n.a, n.d], m, n.d)
  {
    var g, order := Shortcut(n), [n.s, n.c, n.a, n.d];
    forall i | 0 <= i < 4 && Targeted(g, order[i], n.d) ensures !Ordered(g, order[..i], m - 1, order[i]) {
      ShortcutTargets(n, order[i]);
      assert i == 1 && order[..1] == [n.s];
      ShortcutTargets(n, n.s);
      assert [n.s][..0] == [] && !Ordered(g, [], m - 2, n.s);
    }
  }

  /** Without any cycle, rows are not longest-path depths on this graph. */
  lemma NotLongestPath(n: Four)
    ensures !RowsAreLongest(Shortcut(n))
  {
    var g := Shortcut(n);
    ShortcutTargets(n, n.s);
    ShortcutOrder(n, 0);
    assert [n.s, n.c, n.a, n.d][0..] == [n.s, n.c, n.a, n.d];
    LongWay(n);
    forall m: nat | 3 <= m ensures !Ordered(g, BreadthOrder(g), m, n.d) { OnlyShortWay(n, m); }
    assert !Matched(g, 3, n.d);
    LongestPathExact(g);
  }
}
