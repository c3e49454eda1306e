/** A view of the kept part of a graph: causal reachability and FIFO verdicts without rebuilding it. */
module MaskedContexts {
  import opened Optional
  import opened Events
  import opened Reachability
  import opened Consistency
  import opened Revisits
  import opened Validation

  // ----- what the tables say -----

  /** The kept events below `k`, thread by thread in program order, and where each one stands. */
  ghost predicate KeptLists(g: Graph, keep: Mask, k: nat, lists: seq<seq<nat>>, position: seq<nat>)
  {
    && |keep| == |position| == |g.events| && k <= |g.events|
    && (forall t :: 0 <= t < |lists| ==> KeptList(g, keep, k, t, lists[t]))
    && (forall x :: 0 <= x < k && keep[x] ==> Placed(g, lists, position, x))
  }

  ghost predicate KeptList(g: Graph, keep: Mask, k: nat, t: ThreadId, list: seq<nat>)
  {
    && (forall i ::
          0 <= i < |list| ==>
            list[i] < k && list[i] < |g.events| && Keeps(keep, list[i]) && g.events[list[i]].thread == t)
    && (forall i, j :: 0 <= i < j < |list| ==> list[i] < list[j])
  }

  ghost predicate Placed(g: Graph, lists: seq<seq<nat>>, position: seq<nat>, x: nat)
    requires x < |g.events| && x < |position|
  {
    var t := g.events[x].thread;
    t < |lists| && position[x] < |lists[t]| && lists[t][position[x]] == x
  }

  lemma KeptListGrows(g: Graph, keep: Mask, k: nat, t: ThreadId, list: seq<nat>)
    requires KeptList(g, keep, k, t, list)
    ensures KeptList(g, keep, k + 1, t, list)
    ensures k < |g.events| && Keeps(keep, k) && g.events[k].thread == t ==> KeptList(g, keep, k + 1, t, list + [k])
  {
  }

  method ListKept(g: Graph, keep: Mask) returns (lists: seq<seq<nat>>, position: seq<nat>)
    requires |keep| == |g.events|
    ensures KeptLists(g, keep, |g.events|, lists, position)
  {
    hide KeptList;
    lists, position := [], seq(|g.events|, _ => 0);
    var id := 0;
    while id < |g.events|
      invariant 0 <= id <= |g.events| && KeptLists(g, keep, id, lists, position)
    {
      ghost var before := lists;
      var t := g.events[id].thread;
      if keep[id] {
        if |lists| <= t {
          lists := lists + seq(t + 1 - |lists|, _ => []);
        }
        position := position[id := |lists[t]|];
        lists := lists[t := lists[t] + [id]];
      }
      forall u | 0 <= u < |lists| ensures KeptList(g, keep, id + 1, u, lists[u]) {
        if |before| <= u { NoneKept(g, keep, id, u); }
        KeptListGrows(g, keep, id, u, if u < |before| then before[u] else []);
      }
      id := id + 1;
    }
  }

  lemma NoneKept(g: Graph, keep: Mask, k: nat, t: ThreadId)
    ensures KeptList(g, keep, k, t, [])
  {
  }

  predicate KeptRead(g: Graph, keep: Mask, r: nat, s: nat)
  {
    Reads(g, r, s) && Keeps(keep, r) && Keeps(keep, s)
  }

  ghost predicate ReadersFor(g: Graph, keep: Mask, k: nat, readers: seq<seq<nat>>)
  {
    |readers| == |g.events| && forall s: nat, r: nat ::
          s < |g.events| ==> (r in readers[s] <==> KeptRead(g, keep, r, s) && r < k)
  }

  /** `last` is the greatest kept receive below `k` that reads `s` as the validation pass demands. */
  ghost predicate LastKept(g: Graph, keep: Mask, s: nat, k: nat, last: Option<nat>)
  {
    && (last.Some? ==> last.value < k && KeptRead(g, keep, last.value, s) && GoodRead(g, last.value))
    && (forall r: nat :: r < k && KeptRead(g, keep, r, s) && GoodRead(g, r) ==> last.Some? && r <= last.value)
  }

  ghost predicate ConsumersFor(g: Graph, keep: Mask, k: nat, consumers: seq<Option<nat>>)
  {
    |consumers| == |g.events| && forall s :: 0 <= s < |g.events| ==> LastKept(g, keep, s, k, consumers[s])
  }

  /** Readers of each kept send; the FIFO table keeps the last reader whose destination and value fit. */
  method ListReaders(g: Graph, keep: Mask) returns (readers: seq<seq<nat>>, consumers: seq<Option<nat>>)
    requires |keep| == |g.events|
    ensures ReadersFor(g, keep, Span(g.rf), readers) && ConsumersFor(g, keep, Span(g.rf), consumers)
  {
    hide Span, ReadersFor, ConsumersFor, GoodRead;
    readers, consumers := seq(|g.events|, _ => []), seq(|g.events|, _ => None);
    NoReadersYet(g, keep, readers, consumers);
    var r := 0;
    while r < Span(g.rf)
      invariant 0 <= r <= Span(g.rf)
      invariant ReadersFor(g, keep, r, readers) && ConsumersFor(g, keep, r, consumers)
    {
      ReaderSizes(g, keep, r, readers, consumers);
      if r in g.rf && Keeps(keep, r) && g.rf[r].From? && Keeps(keep, g.rf[r].send) {
        var s := g.rf[r].send;
        ReadersNext(g, keep, r, readers, s);
        readers := readers[s := readers[s] + [r]];
        ConsumersNext(g, keep, r, consumers, s);
        if GoodRead(g, r) {
          consumers := consumers[s := Some(r)];
        }
      } else {
        ReadSkipped(g, keep, r, readers, consumers);
      }
      r := r + 1;
    }
  }

  lemma NoReadersYet(g: Graph, keep: Mask, readers: seq<seq<nat>>, consumers: seq<Option<nat>>)
    requires |readers| == |consumers| == |g.events|
    requires forall s :: 0 <= s < |g.events| ==> readers[s] == [] && consumers[s].None?
    ensures ReadersFor(g, keep, 0, readers) && ConsumersFor(g, keep, 0, consumers)
  {
  }

  lemma ReaderSizes(g: Graph, keep: Mask, r: nat, readers: seq<seq<nat>>, consumers: seq<Option<nat>>)
    requires ReadersFor(g, keep, r, readers) && ConsumersFor(g, keep, r, consumers)
    ensures |readers| == |consumers| == |g.events|
  {
  }

  lemma ReadersNext(g: Graph, keep: Mask, r: nat, readers: seq<seq<nat>>, s: nat)
    requires |keep| == |g.events| && ReadersFor(g, keep, r, readers) && KeptRead(g, keep, r, s)
    ensures ReadersFor(g, keep, r + 1, readers[s := readers[s] + [r]])
  {
  }

  lemma ConsumersNext(g: Graph, keep: Mask, r: nat, consumers: seq<Option<nat>>, s: nat)
    requires |keep| == |g.events| && ConsumersFor(g, keep, r, consumers) && KeptRead(g, keep, r, s)
    ensures ConsumersFor(g, keep, r + 1, if GoodRead(g, r) then consumers[s := Some(r)] else consumers)
  {
    var after := if GoodRead(g, r) then consumers[s := Some(r)] else consumers;
    forall x | 0 <= x < |g.events| ensures LastKept(g, keep, x, r + 1, after[x]) {
      assert LastKept(g, keep, x, r, consumers[x]);
    }
  }

  lemma ReadSkipped(g: Graph, keep: Mask, r: nat, readers: seq<seq<nat>>, consumers: seq<Option<nat>>)
    requires ReadersFor(g, keep, r, readers) && ConsumersFor(g, keep, r, consumers)
    requires forall s: nat :: !KeptRead(g, keep, r, s)
    ensures ReadersFor(g, keep, r + 1, readers) && ConsumersFor(g, keep, r + 1, consumers)
  {
    forall x | 0 <= x < |g.events| ensures LastKept(g, keep, x, r + 1, consumers[x]) {
      assert LastKept(g, keep, x, r, consumers[x]);
    }
  }

  // ----- the successors the search follows -----

  datatype KeptView = KeptView(lists: seq<seq<nat>>, position: seq<nat>, readers: seq<seq<nat>>)

  /** The next kept event of the thread, then the kept readers. */
  function Successors(g: Graph, v: KeptView, x: nat): seq<nat>
    requires x < |g.events| && x < |v.position| && x < |v.readers|
  {
    var t := g.events[x].thread;
    (if t < |v.lists| && v.position[x] + 1 < |v.lists[t]| then [v.lists[t][v.position[x] + 1]] else []) + v.readers[x]
  }

  /** Everything the reachability search looks at. */
  ghost predicate Shows(g: Graph, keep: Mask, v: KeptView)
  {
    KeptLists(g, keep, |g.events|, v.lists, v.position) && ReadersFor(g, keep, Span(g.rf), v.readers)
  }

  ghost function StepEdges(g: Graph, keep: Mask, v: KeptView): Relation
    requires Shows(g, keep, v)
  {
    iset e: (nat, nat) | e.0 < |g.events| && Keeps(keep, e.0) && e.1 in Successors(g, v, e.0)
  }

  lemma StepIsKept(g: Graph, keep: Mask, v: KeptView, a: nat, b: nat)
    requires Shows(g, keep, v) && a < |g.events| && Keeps(keep, a)
    requires b in Successors(g, v, a)
    ensures (a, b) in MaskedEdges(g, keep)
  {
    hide Span;
    var t := g.events[a].thread;
    assert Placed(g, v.lists, v.position, a);
    assert KeptList(g, keep, |g.events|, t, v.lists[t]);
    if b !in v.readers[a] {
      assert v.lists[t][v.position[a]] < v.lists[t][v.position[a] + 1];
    }
  }

  lemma {:induction false} ChainSteps(g: Graph, keep: Mask, v: KeptView, t: ThreadId, i: nat, j: nat)
    requires Shows(g, keep, v) && t < |v.lists| && i < j < |v.lists[t]|
    ensures Reach(StepEdges(g, keep, v), v.lists[t][i], v.lists[t][j])
    decreases j - i
  {
    hide Reach, Span;
    var r := StepEdges(g, keep, v);
    var a, b := v.lists[t][j - 1], v.lists[t][j];
    PositionIs(g, keep, v.lists, v.position, t, j - 1);
    assert Successors(g, v, a)[0] == b;
    assert (a, b) in r;
    EdgeReaches(r, a, b);
    if i < j - 1 {
      ChainSteps(g, keep, v, t, i, j - 1);
      ReachTransitive(r, v.lists[t][i], a, b);
    }
  }

  lemma PositionIs(g: Graph, keep: Mask, lists: seq<seq<nat>>, position: seq<nat>, t: ThreadId, i: nat)
    requires KeptLists(g, keep, |g.events|, lists, position) && t < |lists| && i < |lists[t]|
    ensures var x := lists[t][i]; x < |g.events| && Keeps(keep, x) && g.events[x].thread == t && position[x] == i
  {
    var x := lists[t][i];
    assert KeptList(g, keep, |g.events|, t, lists[t]);
    assert Placed(g, lists, position, x);
  }

  lemma KeptEdgeSteps(g: Graph, keep: Mask, v: KeptView, a: nat, b: nat)
    requires Shows(g, keep, v) && (a, b) in MaskedEdges(g, keep)
    ensures Reach(StepEdges(g, keep, v), a, b)
  {
    hide Reach, Span;
    if Po(g, a, b) {
      var t := g.events[a].thread;
      assert Placed(g, v.lists, v.position, a) && Placed(g, v.lists, v.position, b);
      PlacesAscend(g, keep, v.lists[t], t, v.position[a], v.position[b]);
      ChainSteps(g, keep, v, t, v.position[a], v.position[b]);
    } else {
      var r := StepEdges(g, keep, v);
      assert KeptRead(g, keep, b, a);
      ReaderBelow(g, b);
      assert b in v.readers[a];
      assert (a, b) in r;
      EdgeReaches(r, a, b);
    }
  }

  lemma PlacesAscend(g: Graph, keep: Mask, list: seq<nat>, t: ThreadId, i: nat, j: nat)
    requires KeptList(g, keep, |g.events|, t, list) && i < |list| && j < |list| && list[i] < list[j]
    ensures i < j
  {
  }

  lemma ReaderBelow(g: Graph, r: nat)
    requires r in g.rf
    ensures r < Span(g.rf)
  {
  }

  /** Following immediate successors reaches exactly what the kept edges reach. */
  lemma SameReach(g: Graph, keep: Mask, v: KeptView, a: nat, b: nat)
    requires Shows(g, keep, v)
    ensures Reach(StepEdges(g, keep, v), a, b) <==> Reach(MaskedEdges(g, keep), a, b)
  {
    hide Shows, Reach;
    var r, q := StepEdges(g, keep, v), MaskedEdges(g, keep);
    forall x: nat, y: nat | (x, y) in r ensures Reach(q, x, y) {
      StepInside(g, keep, v, x, y);
      EdgeReaches(q, x, y);
    }
    forall x: nat, y: nat | (x, y) in q ensures Reach(r, x, y) {
      KeptEdgeSteps(g, keep, v, x, y);
    }
    if Reach(r, a, b) { ReachMonotone(r, q, a, b); }
    if Reach(q, a, b) { ReachMonotone(q, r, a, b); }
  }

  lemma StepInside(g: Graph, keep: Mask, v: KeptView, x: nat, y: nat)
    requires Shows(g, keep, v) && (x, y) in StepEdges(g, keep, v)
    ensures (x, y) in MaskedEdges(g, keep)
  {
    StepIsKept(g, keep, v, x, y);
  }

  // ----- breadth-first reachability -----

  ghost predicate Marked(reachable: seq<bool>, x: nat)
  {
    x < |reachable| && reachable[x]
  }

  ghost predicate Expanded(g: Graph, v: KeptView, reachable: seq<bool>, queued: seq<nat>, x: nat)
    requires x < |g.events| && x < |v.position| && x < |v.readers|
  {
    forall y :: y in Successors(g, v, x) ==> Marked(reachable, y) || y in queued
  }

  ghost function Unmarked(reachable: seq<bool>): set<nat>
  {
    set x | 0 <= x < |reachable| && !reachable[x]
  }

  lemma MarkShrinks(reachable: seq<bool>, x: nat)
    requires x < |reachable| && !reachable[x]
    ensures |Unmarked(reachable[x := true])| < |Unmarked(reachable)|
  {
    assert Unmarked(reachable[x := true]) == Unmarked(reachable) - {x};
  }

  ghost predicate Explored(g: Graph, keep: Mask, v: KeptView, from: nat, reachable: seq<bool>, queued: seq<nat>)
  {
    && Shows(g, keep, v) && |reachable| == |g.events| && from < |g.events|
    && (forall x: nat :: Marked(reachable, x) || x in queued ==> Reach(MaskedEdges(g, keep), from, x))
    && (forall x: nat :: x < |g.events| && (x == from || Marked(reachable, x)) ==> Expanded(g, v, reachable, queued, x))
  }

  lemma SuccessorReached(g: Graph, keep: Mask, v: KeptView, from: nat, x: nat, y: nat)
    requires Shows(g, keep, v) && x < |g.events| && Keeps(keep, x)
    requires x == from || Reach(MaskedEdges(g, keep), from, x)
    requires y in Successors(g, v, x)
    ensures Reach(MaskedEdges(g, keep), from, y) && y < |g.events|
  {
    StepIsKept(g, keep, v, x, y);
    if x == from {
      EdgeReaches(MaskedEdges(g, keep), x, y);
    } else {
      ReachAppend(MaskedEdges(g, keep), from, x, y);
    }
  }

  lemma ReachedIsKept(g: Graph, keep: Mask, from: nat, x: nat)
    requires |keep| == |g.events| && Reach(MaskedEdges(g, keep), from, x)
    ensures x < |g.events| && Keeps(keep, x)
  {
    var _ := ReachLast(MaskedEdges(g, keep), from, x);
  }

  /** Taking `x` off the queue: already marked, so nothing is lost. */
  lemma SkipQueued(g: Graph, keep: Mask, v: KeptView, from: nat, reachable: seq<bool>, queued: seq<nat>)
    requires queued != [] && Explored(g, keep, v, from, reachable, queued) && Marked(reachable, queued[0])
    ensures Explored(g, keep, v, from, reachable, queued[1..])
  {
    hide Shows, Successors, Reach;
    var rest := queued[1..];
    assert queued == [queued[0]] + rest;
    ViewSizes(g, keep, v);
    forall x: nat | x < |g.events| && (x == from || Marked(reachable, x))
      ensures Expanded(g, v, reachable, rest, x)
    {
      assert Expanded(g, v, reachable, queued, x);
    }
  }

  lemma MarkQueued(g: Graph, keep: Mask, v: KeptView, from: nat, reachable: seq<bool>, queued: seq<nat>)
    requires queued != [] && Explored(g, keep, v, from, reachable, queued)
    ensures queued[0] < |g.events| && queued[0] < |v.position| && queued[0] < |v.readers|
    ensures Explored(g, keep, v, from, reachable[queued[0] := true],
                     queued[1..] + Successors(g, v, queued[0]))
  {
    hide Shows, Successors, Reach;
    ViewSizes(g, keep, v);
    var current, rest := queued[0], queued[1..];
    assert queued == [current] + rest && current in queued;
    ReachedIsKept(g, keep, from, current);
    var more := Successors(g, v, current);
    var marked, longer := reachable[current := true], rest + more;
    forall x: nat | Marked(marked, x) || x in longer ensures Reach(MaskedEdges(g, keep), from, x) {
      if x in more { SuccessorReached(g, keep, v, from, current, x); }
    }
    forall x: nat | x < |g.events| && (x == from || Marked(marked, x))
      ensures Expanded(g, v, marked, longer, x)
    {
      if x != current { assert Expanded(g, v, reachable, queued, x); }
    }
  }

  lemma ViewSizes(g: Graph, keep: Mask, v: KeptView)
    requires Shows(g, keep, v)
    ensures |keep| == |v.position| == |v.readers| == |g.events|
  {
  }

  lemma StartSearch(g: Graph, keep: Mask, v: KeptView, from: nat)
    requires Shows(g, keep, v) && from < |g.events| && Keeps(keep, from)
    ensures from < |v.position| && from < |v.readers|
    ensures Explored(g, keep, v, from, seq(|g.events|, _ => false), Successors(g, v, from))
  {
    hide Shows, Successors, Reach;
    ViewSizes(g, keep, v);
    var more := Successors(g, v, from);
    forall x: nat | x in more ensures Reach(MaskedEdges(g, keep), from, x) {
      SuccessorReached(g, keep, v, from, from, x);
    }
  }

  /** With the queue empty the marks are closed, so they are everything reachable. */
  lemma SearchIsComplete(g: Graph, keep: Mask, v: KeptView, from: nat, reachable: seq<bool>, x: nat)
    requires Explored(g, keep, v, from, reachable, []) && Keeps(keep, from)
    ensures Marked(reachable, x) <==> Reach(MaskedEdges(g, keep), from, x)
  {
    if Reach(MaskedEdges(g, keep), from, x) {
      SameReach(g, keep, v, from, x);
      var r := StepEdges(g, keep, v);
      var k: nat :| ReachIn(r, k, from, x);
      ClosedPath(g, keep, v, from, reachable, k, from, x);
    }
  }

  lemma {:induction false} ClosedPath(g: Graph, keep: Mask, v: KeptView, from: nat, reachable: seq<bool>, k: nat,
                                      a: nat, b: nat)
    requires Explored(g, keep, v, from, reachable, [])
    requires a == from || Marked(reachable, a)
    requires ReachIn(StepEdges(g, keep, v), k, a, b)
    ensures Marked(reachable, b)
    decreases k
  {
    hide Shows, Successors, Reach;
    ViewSizes(g, keep, v);
    var r := StepEdges(g, keep, v);
    if k == 0 {
      assert (a, b) in r;
      assert Expanded(g, v, reachable, [], a);
    } else {
      var c: nat :| (a, c) in r && ReachIn(r, k - 1, c, b);
      assert Expanded(g, v, reachable, [], a);
      ClosedPath(g, keep, v, from, reachable, k - 1, c, b);
    }
  }

  method Search(g: Graph, keep: Mask, v: KeptView, from: nat) returns (reachable: seq<bool>)
    requires Shows(g, keep, v) && from < |g.events| && Keeps(keep, from)
    ensures |reachable| == |g.events| && forall x: nat :: Marked(reachable, x) <==> Reach(MaskedEdges(g, keep), from, x)
  {
    hide Shows, Explored, Successors, Reach, Unmarked;
    StartSearch(g, keep, v, from);
    reachable := seq(|g.events|, _ => false);
    var pending, cursor := Successors(g, v, from), 0;
    assert pending[0..] == pending;
    while cursor < |pending|
      invariant 0 <= cursor <= |pending| && |reachable| == |g.events|
      invariant Explored(g, keep, v, from, reachable, pending[cursor..])
      decreases |Unmarked(reachable)|, |pending| - cursor
    {
      var current := pending[cursor];
      assert pending[cursor..][1..] == pending[cursor + 1..];
      MarkQueued(g, keep, v, from, reachable, pending[cursor..]);
      if reachable[current] {
        SkipQueued(g, keep, v, from, reachable, pending[cursor..]);
        cursor := cursor + 1;
      } else {
        MarkShrinks(reachable, current);
        var more := Successors(g, v, current);
        assert (pending + more)[cursor + 1..] == pending[cursor + 1..] + more;
        pending, cursor := pending + more, cursor + 1;
        reachable := reachable[current := true];
      }
    }
    forall x: nat ensures Marked(reachable, x) <==> Reach(MaskedEdges(g, keep), from, x) {
      assert pending[cursor..] == [];
      SearchIsComplete(g, keep, v, from, reachable, x);
    }
  }
}
