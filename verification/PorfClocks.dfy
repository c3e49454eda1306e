/** Causal reachability by vector clocks, computed along a topological order of the graph. */
module PorfClocks {
  import opened Optional
  import opened Events
  import opened Reachability
  import opened Consistency
  import opened TopologicalOrder

  /** The events of each thread, in program order. */
  ghost predicate ThreadLists(g: Graph, lists: seq<seq<nat>>)
  {
    && (forall t :: 0 <= t < |lists| ==> lists[t] == ThreadIds(g, t, |g.events|))
    && (forall id :: 0 <= id < |g.events| ==> g.events[id].thread < |lists|)
  }

  // ----- the edges the two passes visit -----

  function Consecutive(list: seq<nat>): (edges: seq<Edge>)
  {
    if |list| < 2 then [] else Consecutive(list[..|list| - 1]) + [(list[|list| - 2], list[|list| - 1])]
  }

  lemma {:induction false} ConsecutiveHas(list: seq<nat>, i: nat)
    requires 0 < i < |list|
    ensures (list[i - 1], list[i]) in Consecutive(list)
  {
    if i < |list| - 1 {
      ConsecutiveHas(list[..|list| - 1], i);
    }
  }

  lemma {:induction false} ConsecutiveFrom(list: seq<nat>, e: Edge) returns (i: nat)
    requires e in Consecutive(list)
    ensures 0 < i < |list| && e == (list[i - 1], list[i])
  {
    if e in Consecutive(list[..|list| - 1]) {
      i := ConsecutiveFrom(list[..|list| - 1], e);
    } else {
      i := |list| - 1;
    }
  }

  function PoPairs(lists: seq<seq<nat>>): (edges: seq<Edge>)
  {
    if lists == [] then [] else PoPairs(lists[..|lists| - 1]) + Consecutive(lists[|lists| - 1])
  }

  lemma {:induction false} PoPairsHas(lists: seq<seq<nat>>, t: nat, e: Edge)
    requires t < |lists| && e in Consecutive(lists[t])
    ensures e in PoPairs(lists)
  {
    if t < |lists| - 1 {
      PoPairsHas(lists[..|lists| - 1], t, e);
    }
  }

  lemma {:induction false} PoPairsFrom(lists: seq<seq<nat>>, e: Edge) returns (t: nat)
    requires e in PoPairs(lists)
    ensures t < |lists| && e in Consecutive(lists[t])
  {
    if e in PoPairs(lists[..|lists| - 1]) {
      t := PoPairsFrom(lists[..|lists| - 1], e);
    } else {
      t := |lists| - 1;
    }
  }

  function RfPairs(g: Graph, k: nat): (edges: seq<Edge>)
    requires k <= |g.events|
    ensures forall e :: e in edges <==> e.1 < k && Reads(g, e.1, e.0)
  {
    if k == 0 then []
    else RfPairs(g, k - 1) + (if k - 1 in g.rf && g.rf[k - 1].From? then [(g.rf[k - 1].send, k - 1)] else [])
  }

  function GraphEdges(g: Graph, lists: seq<seq<nat>>): seq<Edge>
  {
    PoPairs(lists) + RfPairs(g, |g.events|)
  }

  /** Each visited edge is a causal edge between events. */
  lemma EdgeIsCausal(g: Graph, lists: seq<seq<nat>>, e: Edge)
    requires ThreadLists(g, lists) && ValidEndpoints(g) && e in GraphEdges(g, lists)
    ensures PorfEdge(g, e.0, e.1) && e.0 < |g.events| && e.1 < |g.events|
  {
    if e in PoPairs(lists) {
      var t := PoPairsFrom(lists, e);
      var i := ConsecutiveFrom(lists[t], e);
      assert lists[t][i - 1] < lists[t][i];
    }
  }

  /** Program order is a chain of consecutive pairs. */
  lemma {:induction false} ChainReaches(g: Graph, lists: seq<seq<nat>>, t: nat, i: nat, j: nat)
    requires t < |lists| && i < j < |lists[t]|
    ensures Reach(Related(GraphEdges(g, lists)), lists[t][i], lists[t][j])
    decreases j - i
  {
    hide PoPairs, RfPairs, Consecutive, Reach;
    var r := Related(GraphEdges(g, lists));
    var e := (lists[t][j - 1], lists[t][j]);
    ConsecutiveHas(lists[t], j);
    PoPairsHas(lists, t, e);
    assert e in r;
    EdgeReaches(r, lists[t][j - 1], lists[t][j]);
    if i < j - 1 {
      ChainReaches(g, lists, t, i, j - 1);
      ReachTransitive(r, lists[t][i], lists[t][j - 1], lists[t][j]);
    }
  }

  lemma PoIndices(g: Graph, lists: seq<seq<nat>>, a: nat, b: nat) returns (i: nat, j: nat)
    requires ThreadLists(g, lists) && Po(g, a, b)
    ensures var list := lists[g.events[a].thread]; i < j < |list| && list[i] == a && list[j] == b
  {
    var t := g.events[a].thread;
    ThreadIdsMember(g, t, |g.events|, a);
    ThreadIdsMember(g, t, |g.events|, b);
    i :| 0 <= i < |lists[t]| && lists[t][i] == a;
    j :| 0 <= j < |lists[t]| && lists[t][j] == b;
  }

  lemma CausalIsReached(g: Graph, lists: seq<seq<nat>>, a: nat, b: nat)
    requires ThreadLists(g, lists) && PorfEdge(g, a, b)
    ensures Reach(Related(GraphEdges(g, lists)), a, b)
  {
    hide PoPairs, RfPairs, Reach, ThreadIds;
    var r := Related(GraphEdges(g, lists));
    if Po(g, a, b) {
      var t := g.events[a].thread;
      var i, j := PoIndices(g, lists, a, b);
      ChainReaches(g, lists, t, i, j);
    } else {
      var e := (a, b);
      assert e in RfPairs(g, |g.events|);
      assert e in r;
      EdgeReaches(r, a, b);
    }
  }

  /** The visited edges reach exactly what program order and reads-from reach. */
  lemma SameReach(g: Graph, lists: seq<seq<nat>>, a: nat, b: nat)
    requires ThreadLists(g, lists) && ValidEndpoints(g)
    ensures Reach(Related(GraphEdges(g, lists)), a, b) <==> Porf(g, a, b)
  {
    var r := Related(GraphEdges(g, lists));
    if Reach(r, a, b) {
      forall x: nat, y: nat | (x, y) in r ensures Reach(PorfEdges(g), x, y) {
        EdgeIsCausal(g, lists, (x, y));
        PorfStep(g, x, y);
      }
      ReachMonotone(r, PorfEdges(g), a, b);
    }
    if Porf(g, a, b) {
      forall x: nat, y: nat | (x, y) in PorfEdges(g) ensures Reach(r, x, y) {
        CausalIsReached(g, lists, x, y);
      }
      ReachMonotone(PorfEdges(g), r, a, b);
    }
  }

  lemma SameAcyclicity(g: Graph, lists: seq<seq<nat>>)
    requires ThreadLists(g, lists) && ValidEndpoints(g)
    ensures Acyclic(Related(GraphEdges(g, lists))) <==> CausallyAcyclic(g)
  {
    forall a: nat ensures Reach(Related(GraphEdges(g, lists)), a, a) <==> Reach(PorfEdges(g), a, a) {
      SameReach(g, lists, a, a);
    }
  }

  /** Cycle test without clocks. */
  method OrderEvents(g: Graph, lists: seq<seq<nat>>) returns (acyclic: bool, order: seq<nat>)
    requires ThreadLists(g, lists) && ValidEndpoints(g)
    ensures acyclic <==> CausallyAcyclic(g)
    ensures acyclic ==> Listing(|g.events|, GraphEdges(g, lists), order)
  {
    var edges := GraphEdges(g, lists);
    forall i | 0 <= i < |edges| ensures edges[i].0 < |g.events| && edges[i].1 < |g.events| {
      EdgeIsCausal(g, lists, edges[i]);
    }
    acyclic, order := Sort(|g.events|, edges);
    SameAcyclicity(g, lists);
  }

  // ----- clocks -----

  /** Dense clock columns for the threads that have events; where each event stands in its thread. */
  datatype Columns = Columns(index: seq<nat>, width: nat, position: seq<nat>)

  ghost predicate ColumnsFor(g: Graph, lists: seq<seq<nat>>, c: Columns)
  {
    && |c.index| == |lists| && |c.position| == |g.events|
    && (forall t :: 0 <= t < |lists| && lists[t] != [] ==> c.index[t] < c.width)
    && (forall t, u :: 0 <= t < u < |lists| && lists[t] != [] && lists[u] != [] ==> c.index[t] != c.index[u])
    && (forall t :: 0 <= t < |lists| ==> Positioned(lists[t], c.position))
  }

  method AssignIndices(lists: seq<seq<nat>>) returns (index: seq<nat>, width: nat)
    ensures |index| == |lists|
    ensures forall t :: 0 <= t < |lists| && lists[t] != [] ==> index[t] < width
    ensures forall t, u :: 0 <= t < u < |lists| && lists[t] != [] && lists[u] != [] ==> index[t] != index[u]
  {
    index, width := [], 0;
    while |index| < |lists|
      invariant |index| <= |lists|
      invariant forall t :: 0 <= t < |index| && lists[t] != [] ==> index[t] < width
      invariant forall t, u :: 0 <= t < u < |index| && lists[t] != [] && lists[u] != [] ==> index[t] != index[u]
    {
      if lists[|index|] == [] {
        index := index + [0];
      } else {
        index := index + [width];
        width := width + 1;
      }
    }
  }

  ghost predicate Positioned(list: seq<nat>, position: seq<nat>)
  {
    forall i :: 0 <= i < |list| ==> list[i] < |position| && position[list[i]] == i
  }

  method PositionThread(g: Graph, list: seq<nat>, t: nat, position: array<nat>)
    requires list == ThreadIds(g, t, |g.events|) && position.Length == |g.events|
    modifies position
    ensures Positioned(list, position[..])
    ensures forall id :: 0 <= id < |g.events| && g.events[id].thread != t ==> position[id] == old(position[id])
  {
    var i := 0;
    while i < |list|
      invariant 0 <= i <= |list|
      invariant forall k :: 0 <= k < i ==> position[list[k]] == k
      invariant forall id :: 0 <= id < |g.events| && g.events[id].thread != t ==> position[id] == old(position[id])
    {
      position[list[i]] := i;
      i := i + 1;
    }
  }

  method AssignPositions(g: Graph, lists: seq<seq<nat>>) returns (position: seq<nat>)
    requires ThreadLists(g, lists)
    ensures |position| == |g.events| && forall t :: 0 <= t < |lists| ==> Positioned(lists[t], position)
  {
    var table := new nat[|g.events|](_ => 0);
    var t := 0;
    while t < |lists|
      invariant 0 <= t <= |lists|
      invariant forall u :: 0 <= u < t ==> Positioned(lists[u], table[..])
    {
      ghost var before := table[..];
      PositionThread(g, lists[t], t, table);
      forall u | 0 <= u < t ensures Positioned(lists[u], table[..]) {
        PositionsKept(g, lists[u], u, t, before, table[..]);
      }
      t := t + 1;
    }
    position := table[..];
  }

  lemma PositionsKept(g: Graph, list: seq<nat>, u: nat, t: nat, before: seq<nat>, after: seq<nat>)
    requires list == ThreadIds(g, u, |g.events|) && u != t && |before| == |after| == |g.events|
    requires Positioned(list, before)
    requires forall id :: 0 <= id < |g.events| && g.events[id].thread != t ==> after[id] == before[id]
    ensures Positioned(list, after)
  {
  }

  method AssignColumns(g: Graph, lists: seq<seq<nat>>) returns (c: Columns)
    requires ThreadLists(g, lists)
    ensures ColumnsFor(g, lists, c)
  {
    var index, width := AssignIndices(lists);
    var position := AssignPositions(g, lists);
    c := Columns(index, width, position);
  }

  lemma PlaceInList(g: Graph, lists: seq<seq<nat>>, c: Columns, id: nat)
    requires ThreadLists(g, lists) && ColumnsFor(g, lists, c) && id < |g.events|
    ensures var list := lists[g.events[id].thread];
            c.position[id] < |list| && list[c.position[id]] == id && c.index[g.events[id].thread] < c.width
  {
    var t := g.events[id].thread;
    ThreadIdsMember(g, t, |g.events|, id);
    var i :| 0 <= i < |lists[t]| && lists[t][i] == id;
    assert Positioned(lists[t], c.position);
  }

  lemma PositionOrder(g: Graph, lists: seq<seq<nat>>, c: Columns, a: nat, b: nat)
    requires ThreadLists(g, lists) && ColumnsFor(g, lists, c)
    requires a < |g.events| && b < |g.events| && g.events[a].thread == g.events[b].thread
    ensures c.position[a] <= c.position[b] <==> a <= b
  {
    PlaceInList(g, lists, c, a);
    PlaceInList(g, lists, c, b);
  }

  /** The event just before `id` in its thread. */
  function PoPred(g: Graph, lists: seq<seq<nat>>, c: Columns, id: nat): Option<nat>
    requires ThreadLists(g, lists) && ColumnsFor(g, lists, c) && id < |g.events|
  {
    PlaceInList(g, lists, c, id);
    if c.position[id] == 0 then None else Some(lists[g.events[id].thread][c.position[id] - 1])
  }

  function RfSource(g: Graph, id: nat): Option<nat>
  {
    if id in g.rf && g.rf[id].From? then Some(g.rf[id].send) else None
  }

  /** `p` is `x`'s direct predecessor `q`, or causally before it. */
  ghost predicate Via(g: Graph, p: nat, q: Option<nat>)
  {
    q.Some? && (p == q.value || Porf(g, p, q.value))
  }

  lemma PoPredIsCausal(g: Graph, lists: seq<seq<nat>>, c: Columns, id: nat)
    requires ThreadLists(g, lists) && ColumnsFor(g, lists, c) && id < |g.events| && PoPred(g, lists, c, id).Some?
    ensures var p := PoPred(g, lists, c, id).value;
            Po(g, p, id) && (p, id) in GraphEdges(g, lists) && forall z: nat :: Po(g, z, id) && z != p ==> Po(g, z, p)
  {
    var t := g.events[id].thread;
    PlaceInList(g, lists, c, id);
    var i := c.position[id];
    var p := lists[t][i - 1];
    ConsecutiveHas(lists[t], i);
    PoPairsHas(lists, t, (p, id));
    forall z: nat | Po(g, z, id) && z != p ensures Po(g, z, p) {
      PlaceInList(g, lists, c, z);
      assert lists[t][c.position[z]] == z;
      PositionOrder(g, lists, c, z, id);
    }
  }

  lemma NoPoPred(g: Graph, lists: seq<seq<nat>>, c: Columns, id: nat, z: nat)
    requires ThreadLists(g, lists) && ColumnsFor(g, lists, c) && id < |g.events| && PoPred(g, lists, c, id).None?
    ensures !Po(g, z, id)
  {
    if Po(g, z, id) {
      PositionOrder(g, lists, c, id, z);
      PlaceInList(g, lists, c, z);
    }
  }

  /** What is before an event is before, or is, one of its two direct predecessors. */
  lemma PorfByPredecessors(g: Graph, lists: seq<seq<nat>>, c: Columns, y: nat, x: nat)
    requires ThreadLists(g, lists) && ColumnsFor(g, lists, c) && ValidEndpoints(g) && x < |g.events|
    ensures Porf(g, y, x) <==> Via(g, y, PoPred(g, lists, c, x)) || Via(g, y, RfSource(g, x))
  {
    var p, s := PoPred(g, lists, c, x), RfSource(g, x);
    if p.Some? { PoPredIsCausal(g, lists, c, x); }
    if Via(g, y, p) { PorfPrefixEdge(g, y, p.value, x); }
    if Via(g, y, s) { PorfPrefixEdge(g, y, s.value, x); }
    if Porf(g, y, x) {
      var z := ReachLast(PorfEdges(g), y, x);
      if Po(g, z, x) {
        if p.None? { NoPoPred(g, lists, c, x, z); }
        if z != p.value { PorfPrefixEdge(g, y, z, p.value); }
      }
    }
  }

  lemma PorfPrefixEdge(g: Graph, y: nat, z: nat, x: nat)
    requires (y == z || Porf(g, y, z)) && PorfEdge(g, z, x)
    ensures Porf(g, y, x)
  {
    PorfStep(g, z, x);
    if y != z { PorfTransitive(g, y, z, x); }
  }

  /** Row `row` tells, for every event, whether it is `x` or causally before `x`. */
  ghost predicate Tells(g: Graph, c: Columns, row: seq<nat>, x: nat)
  {
    && |row| == c.width && |c.position| == |g.events|
    && forall y :: 0 <= y < |g.events| ==> Told(g, c, row, x, y)
  }

  ghost predicate Told(g: Graph, c: Columns, row: seq<nat>, x: nat, y: nat)
    requires |row| == c.width && |c.position| == |g.events| && y < |g.events|
  {
    && g.events[y].thread < |c.index| && c.index[g.events[y].thread] < c.width
    && (row[c.index[g.events[y].thread]] >= c.position[y] + 1 <==> y == x || Porf(g, y, x))
  }

  function Zeros(width: nat): (row: seq<nat>)
    ensures |row| == width && forall i :: 0 <= i < width ==> row[i] == 0
  {
    seq(width, _ => 0)
  }

  /** Pointwise maximum. */
  method Join(a: seq<nat>, b: seq<nat>) returns (row: seq<nat>)
    requires |a| == |b|
    ensures |row| == |a| && forall i :: 0 <= i < |a| ==> row[i] == if a[i] < b[i] then b[i] else a[i]
  {
    row := a;
    var i := 0;
    while i < |a|
      invariant 0 <= i <= |a| && |row| == |a|
      invariant forall k :: 0 <= k < i ==> row[k] == if a[k] < b[k] then b[k] else a[k]
      invariant forall k :: i <= k < |a| ==> row[k] == a[k]
    {
      row := row[i := if row[i] < b[i] then b[i] else row[i]];
      i := i + 1;
    }
  }

  function At(row: Option<seq<nat>>, i: nat): nat
    requires row.Some? ==> i < |row.value|
  {
    if row.Some? then row.value[i] else 0
  }

  /** `row` is the pointwise maximum of the rows that are there. */
  ghost predicate Joins(width: nat, row: seq<nat>, po: Option<seq<nat>>, rf: Option<seq<nat>>)
  {
    && |row| == width && (po.Some? ==> |po.value| == width) && (rf.Some? ==> |rf.value| == width)
    && forall i :: 0 <= i < width ==> row[i] == if At(po, i) < At(rf, i) then At(rf, i) else At(po, i)
  }

  lemma ClockStep(g: Graph, lists: seq<seq<nat>>, c: Columns, x: nat, row: seq<nat>, po: Option<seq<nat>>,
                  rf: Option<seq<nat>>)
    requires ThreadLists(g, lists) && ColumnsFor(g, lists, c) && ValidEndpoints(g) && CausallyAcyclic(g)
             && x < |g.events|
    requires Joins(c.width, row, po, rf)
    requires po.Some? <==> PoPred(g, lists, c, x).Some?
    requires rf.Some? <==> RfSource(g, x).Some?
    requires po.Some? ==> Tells(g, c, po.value, PoPred(g, lists, c, x).value)
    requires rf.Some? ==> Tells(g, c, rf.value, RfSource(g, x).value)
    ensures c.index[g.events[x].thread] < c.width
    ensures Tells(g, c, row[c.index[g.events[x].thread] := c.position[x] + 1], x)
  {
    PlaceInList(g, lists, c, x);
    var own := c.index[g.events[x].thread];
    var next := row[own := c.position[x] + 1];
    forall y | 0 <= y < |g.events|
      ensures Told(g, c, next, x, y)
    {
      PlaceInList(g, lists, c, y);
      if g.events[y].thread == g.events[x].thread {
        OwnColumn(g, lists, c, x, y);
      } else {
        OtherColumn(g, lists, c, x, y);
        JoinedColumn(g, lists, c, x, row, po, rf, y);
      }
    }
  }

  lemma JoinedColumn(g: Graph, lists: seq<seq<nat>>, c: Columns, x: nat, row: seq<nat>,
                     po: Option<seq<nat>>, rf: Option<seq<nat>>, y: nat)
    requires ThreadLists(g, lists) && ColumnsFor(g, lists, c) && ValidEndpoints(g) && x < |g.events|
    requires y < |g.events| && c.index[g.events[y].thread] < c.width
    requires Joins(c.width, row, po, rf)
    requires po.Some? <==> PoPred(g, lists, c, x).Some?
    requires rf.Some? <==> RfSource(g, x).Some?
    requires po.Some? ==> Tells(g, c, po.value, PoPred(g, lists, c, x).value)
    requires rf.Some? ==> Tells(g, c, rf.value, RfSource(g, x).value)
    ensures row[c.index[g.events[y].thread]] >= c.position[y] + 1 <==> Porf(g, y, x)
  {
    hide PoPred, RfSource, Porf, ValidEndpoints;
    PorfByPredecessors(g, lists, c, y, x);
    var column := c.index[g.events[y].thread];
    assert row[column] == if At(po, column) < At(rf, column) then At(rf, column) else At(po, column);
    if po.Some? { assert Told(g, c, po.value, PoPred(g, lists, c, x).value, y); }
    if rf.Some? { assert Told(g, c, rf.value, RfSource(g, x).value, y); }
  }

  lemma OwnColumn(g: Graph, lists: seq<seq<nat>>, c: Columns, x: nat, y: nat)
    requires ThreadLists(g, lists) && ColumnsFor(g, lists, c) && CausallyAcyclic(g)
    requires x < |g.events| && y < |g.events| && g.events[y].thread == g.events[x].thread
    ensures c.position[x] >= c.position[y] <==> y == x || Porf(g, y, x)
  {
    PositionOrder(g, lists, c, y, x);
    if Porf(g, y, x) { PorfWithinThread(g, y, x); }
    if y < x { PorfStep(g, y, x); }
  }

  lemma OtherColumn(g: Graph, lists: seq<seq<nat>>, c: Columns, x: nat, y: nat)
    requires ThreadLists(g, lists) && ColumnsFor(g, lists, c)
    requires x < |g.events| && y < |g.events| && g.events[y].thread != g.events[x].thread
    ensures c.index[g.events[y].thread] != c.index[g.events[x].thread]
  {
    PlaceInList(g, lists, c, x);
    PlaceInList(g, lists, c, y);
  }

  lemma PredecessorsListed(g: Graph, lists: seq<seq<nat>>, c: Columns, order: seq<nat>, k: nat)
    requires ThreadLists(g, lists) && ColumnsFor(g, lists, c) && ValidEndpoints(g)
    requires Listing(|g.events|, GraphEdges(g, lists), order) && k < |order|
    ensures order[k] < |g.events|
    ensures PoPred(g, lists, c, order[k]).Some? ==> PoPred(g, lists, c, order[k]).value in order[..k]
    ensures RfSource(g, order[k]).Some? ==> RfSource(g, order[k]).value in order[..k]
  {
    var x := order[k];
    assert x in order;
    var p, s := PoPred(g, lists, c, x), RfSource(g, x);
    if p.Some? {
      PoPredIsCausal(g, lists, c, x);
      var e := (p.value, x);
      assert e in GraphEdges(g, lists) && order[k] == e.1;
    }
    if s.Some? {
      var e := (s.value, x);
      assert e in RfPairs(g, |g.events|);
      assert e in GraphEdges(g, lists) && order[k] == e.1;
    }
  }

  method ClockRows(g: Graph, lists: seq<seq<nat>>, c: Columns, order: seq<nat>) returns (rows: seq<seq<nat>>)
    requires ThreadLists(g, lists) && ColumnsFor(g, lists, c) && ValidEndpoints(g) && CausallyAcyclic(g)
    requires Listing(|g.events|, GraphEdges(g, lists), order)
    ensures |rows| == |g.events| && forall x :: 0 <= x < |g.events| ==> Tells(g, c, rows[x], x)
  {
    hide Tells, CausallyAcyclic, ValidEndpoints, GraphEdges, PoPred, ThreadLists, ColumnsFor;
    var clocks := new seq<nat>[|g.events|](_ => []);
    var k := 0;
    while k < |order|
      invariant 0 <= k <= |order| && clocks.Length == |g.events|
      invariant forall i :: 0 <= i < k ==> order[i] < |g.events| && Tells(g, c, clocks[order[i]], order[i])
    {
      var x := order[k];
      PredecessorsListed(g, lists, c, order, k);
      var po, rf: Option<seq<nat>> := None, None;
      var p, s := PoPred(g, lists, c, x), RfSource(g, x);
      if p.Some? {
        ListedRow(g, c, order, k, p.value, clocks);
        po := Some(clocks[p.value]);
      }
      if s.Some? {
        ListedRow(g, c, order, k, s.value, clocks);
        rf := Some(clocks[s.value]);
      }
      var row := if po.Some? then po.value else Zeros(c.width);
      if rf.Some? {
        row := Join(row, rf.value);
      }
      assert Joins(c.width, row, po, rf);
      ClockStep(g, lists, c, x, row, po, rf);
      IndexBound(g, lists, c, x);
      clocks[x] := row[c.index[g.events[x].thread] := c.position[x] + 1];
      k := k + 1;
    }
    rows := clocks[..];
    forall x | 0 <= x < |g.events| ensures Tells(g, c, rows[x], x) {
      assert x in order;
    }
  }

  lemma IndexBound(g: Graph, lists: seq<seq<nat>>, c: Columns, x: nat)
    requires ThreadLists(g, lists) && ColumnsFor(g, lists, c) && x < |g.events|
    ensures g.events[x].thread < |c.index| && |c.position| == |g.events|
  {
  }

  lemma ListedRow(g: Graph, c: Columns, order: seq<nat>, k: nat, p: nat, clocks: array<seq<nat>>)
    requires k <= |order| && p in order[..k] && clocks.Length == |g.events|
    requires forall i :: 0 <= i < k ==> order[i] < |g.events| && Tells(g, c, clocks[order[i]], order[i])
    ensures p < |g.events| && Tells(g, c, clocks[p], p) && |clocks[p]| == c.width
  {
    var i :| 0 <= i < k && order[..k][i] == p;
    assert order[i] == p;
  }

  // ----- the cache -----

  datatype PorfCache = PorfCache(columns: Columns, rows: seq<seq<nat>>, cyclic: bool)

  ghost predicate CacheFor(g: Graph, cache: PorfCache)
  {
    && (cache.cyclic <==> !CausallyAcyclic(g))
    && (!cache.cyclic ==>
          |cache.rows| == |g.events| && forall x :: 0 <= x < |g.events| ==> Tells(g, cache.columns, cache.rows[x], x))
  }

  method BuildCache(g: Graph, lists: seq<seq<nat>>) returns (cache: PorfCache)
    requires ThreadLists(g, lists) && ValidEndpoints(g)
    ensures CacheFor(g, cache)
  {
    hide Tells, CausallyAcyclic, ValidEndpoints, ThreadLists, ColumnsFor, GraphEdges;
    var acyclic, order := OrderEvents(g, lists);
    var columns := AssignColumns(g, lists);
    if acyclic {
      var rows := ClockRows(g, lists, columns, order);
      cache := PorfCache(columns, rows, false);
    } else {
      cache := PorfCache(columns, [], true);
    }
  }

  /** The clock comparison answers causal reachability exactly. */
  method Contains(g: Graph, cache: PorfCache, from: nat, to: nat) returns (r: bool)
    requires CacheFor(g, cache) && !cache.cyclic && from < |g.events| && to < |g.events|
    ensures r <==> Porf(g, from, to)
  {
    assert Tells(g, cache.columns, cache.rows[to], to) && Told(g, cache.columns, cache.rows[to], to, from);
    if from == to {
      assert !Reach(PorfEdges(g), from, from);
      return false;
    }
    var column := cache.columns.index[g.events[from].thread];
    r := cache.rows[to][column] >= cache.columns.position[from] + 1;
  }
}
