/** Replay validity: every event is what its thread function answers on the thread's own past. */
module Replay {
  import opened Optional
  import opened Events
  import opened Consistency
  import opened Subgraphs

  /** The distinct values of `choices` in order of first occurrence. */
  function Distinct(choices: seq<Value>): (kept: seq<Value>)
    ensures forall v :: v in kept <==> v in choices
    ensures forall i, j :: 0 <= i < j < |kept| ==> kept[i] != kept[j]
  {
    if choices == [] then []
    else
      var last := choices[|choices| - 1];
      var kept := Distinct(choices[..|choices| - 1]);
      if last in kept then kept else kept + [last]
  }

  /** `u` occurs before `v` first does. */
  ghost predicate ComesFirst(choices: seq<Value>, u: Value, v: Value)
  {
    exists a :: 0 <= a < |choices| && choices[a] == u && v !in choices[..a + 1]
  }

  /** The kept values stand in order of their first occurrence. */
  lemma {:induction false} DistinctOrder(choices: seq<Value>, i: nat, j: nat)
    requires i < j < |Distinct(choices)|
    ensures ComesFirst(choices, Distinct(choices)[i], Distinct(choices)[j])
  {
    var n := |choices| - 1;
    var front, kept := choices[..n], Distinct(choices[..n]);
    var u, v := Distinct(choices)[i], Distinct(choices)[j];
    if j < |kept| {
      DistinctOrder(front, i, j);
      var a :| 0 <= a < |front| && front[a] == u && v !in front[..a + 1];
      assert front[..a + 1] == choices[..a + 1];
    } else {
      assert u in front && v !in front;
      var a :| 0 <= a < |front| && front[a] == u;
      assert choices[..a + 1] == front[..a + 1];
    }
  }

  /** `op` is an event the engine may record when the thread function answers `answer`. */
  ghost predicate Conforms(op: Label, answer: Option<Label>)
  {
    match answer
    case None => false
    case Some(Receive(blocking, matches)) => op == Receive(blocking, matches) || (blocking && op == Block)
    case Some(Choice(chosen, choices)) =>
      if choices == [] then op == Choice(chosen, choices)
      else op.Choice? && op.chosen in choices && op.choices == Distinct(choices)
    case Some(Block) => false
    case Some(other) => op == other
  }

  function Answer(p: Program, g: Graph, id: nat): Option<Label>
    requires id < |g.events|
  {
    var t := g.events[id].thread;
    p.next(t, TraceUpTo(g, t, id), StepsUpTo(g, t, id))
  }

  ghost predicate ReplayValid(p: Program, g: Graph)
  {
    forall id :: 0 <= id < |g.events| ==> Conforms(g.events[id].op, Answer(p, g, id))
  }

  /** Block events end their threads, no Error event is present and only program threads act. */
  ghost predicate Shaped(p: Program, g: Graph)
  {
    && (forall b: nat, x: nat :: IsBlock(g, b) ==> !Po(g, b, x))
    && (forall id :: 0 <= id < |g.events| ==>
          !g.events[id].op.Error? && p.first <= g.events[id].thread < p.first + p.count)
  }

  lemma {:induction false} ThreadIdsFrame(g: Graph, h: Graph, t: ThreadId, n: nat)
    requires n <= |g.events| && n <= |h.events|
    requires forall i :: 0 <= i < n ==> g.events[i].thread == h.events[i].thread
    ensures ThreadIds(g, t, n) == ThreadIds(h, t, n)
    decreases n
  {
    if n > 0 {
      ThreadIdsFrame(g, h, t, n - 1);
    }
  }

  lemma {:induction false} EmitsAllFrame(g: Graph, h: Graph, ids: seq<nat>)
    requires forall i ::
               0 <= i < |ids| ==> ids[i] < |g.events| && ids[i] < |h.events| && Emits(g, ids[i]) == Emits(h, ids[i])
    ensures EmitsAll(g, ids) == EmitsAll(h, ids)
    decreases |ids|
  {
    if ids != [] {
      EmitsAllFrame(g, h, ids[..|ids| - 1]);
    }
  }

  /** A thread's trace depends only on what its own events below `n` emit. */
  lemma TraceFrame(g: Graph, h: Graph, t: ThreadId, n: nat)
    requires n <= |g.events| && n <= |h.events|
    requires forall i :: 0 <= i < n ==> g.events[i].thread == h.events[i].thread
    requires forall i :: 0 <= i < n && g.events[i].thread == t ==> Emits(g, i) == Emits(h, i)
    ensures TraceUpTo(g, t, n) == TraceUpTo(h, t, n)
    ensures StepsUpTo(g, t, n) == StepsUpTo(h, t, n)
  {
    ThreadIdsFrame(g, h, t, n);
    EmitsAllFrame(g, h, ThreadIds(g, t, n));
  }

  /** Appending an event, with or without a source for it, leaves every earlier trace as it was. */
  lemma AppendKeepsTraces(g: Graph, h: Graph, t: ThreadId, n: nat)
    requires ValidEndpoints(g) && n <= |g.events| <= |h.events|
    requires h.events[..|g.events|] == g.events
    requires forall r :: 0 <= r < |g.events| ==> (r in h.rf <==> r in g.rf) && (r in g.rf ==> h.rf[r] == g.rf[r])
    ensures TraceUpTo(h, t, n) == TraceUpTo(g, t, n)
    ensures StepsUpTo(h, t, n) == StepsUpTo(g, t, n)
  {
    forall i | 0 <= i < |g.events|
      ensures h.events[i] == g.events[i] && Emits(g, i) == Emits(h, i)
    {
      assert h.events[i] == h.events[..|g.events|][i];
      if i in g.rf && g.rf[i].From? {
        var s := g.rf[i].send;
        assert h.events[s] == h.events[..|g.events|][s];
      }
    }
    TraceFrame(g, h, t, n);
  }

  // ----- what an event adds to the traces -----

  lemma {:induction false} AppendedIdsOf(g: Graph, h: Graph, t: ThreadId)
    requires |h.events| == |g.events| + 1 && h.events[..|g.events|] == g.events
    ensures var n := |g.events|;
            ThreadIds(h, t, n + 1) == ThreadIds(g, t, n) + if h.events[n].thread == t then [n] else []
  {
    forall i | 0 <= i < |g.events| ensures h.events[i] == g.events[i] {
      assert h.events[i] == h.events[..|g.events|][i];
    }
    ThreadIdsFrame(g, h, t, |g.events|);
  }

  /** An appended event adds what it emits to its own thread's trace and one step, and nothing to any other. */
  lemma TraceAppended(g: Graph, h: Graph, t: ThreadId)
    requires ValidEndpoints(g) && |h.events| == |g.events| + 1 && h.events[..|g.events|] == g.events
    requires forall r :: 0 <= r < |g.events| ==> (r in h.rf <==> r in g.rf) && (r in g.rf ==> h.rf[r] == g.rf[r])
    ensures var own := h.events[|g.events|].thread == t;
            && Trace(h, t) == Trace(g, t) + (if own then Emits(h, |g.events|) else [])
            && Steps(h, t) == Steps(g, t) + (if own then 1 else 0)
  {
    var n := |g.events|;
    AppendKeepsTraces(g, h, t, n);
    AppendedIdsOf(g, h, t);
    AppendedIdsBefore(g, h, t);
    if h.events[n].thread == t {
      assert (ThreadIds(h, t, n) + [n])[..|ThreadIds(h, t, n)|] == ThreadIds(h, t, n);
    } else {
      assert ThreadIds(h, t, n) + [] == ThreadIds(h, t, n);
    }
  }

  lemma AppendedIdsBefore(g: Graph, h: Graph, t: ThreadId)
    requires |h.events| == |g.events| + 1 && h.events[..|g.events|] == g.events
    ensures ThreadIds(h, t, |g.events|) == ThreadIds(g, t, |g.events|)
  {
    forall i | 0 <= i < |g.events| ensures h.events[i] == g.events[i] {
      assert h.events[i] == h.events[..|g.events|][i];
    }
    ThreadIdsFrame(g, h, t, |g.events|);
  }

  /** A thread learns the alternative it took and what its receives got; sends, Blocks and errors teach it nothing, and
      no other thread learns anything. */
  lemma TraceGrows(g: Graph, t: ThreadId, op: Label, u: ThreadId)
    requires ValidEndpoints(g) && !op.Receive?
    ensures Trace(AddEvent(g, t, op), u) == Trace(g, u) + if u == t && op.Choice? then [Seen(op.chosen)] else []
    ensures Steps(AddEvent(g, t, op), u) == Steps(g, u) + if u == t then 1 else 0
  {
    TraceAppended(g, AddEvent(g, t, op), u);
  }

  lemma TraceReceives(g: Graph, t: ThreadId, op: Label, source: Source, u: ThreadId)
    requires ValidEndpoints(g) && op.Receive? && (source.From? ==> IsSend(g, source.send))
    ensures var h := SetSource(AddEvent(g, t, op), |g.events|, source);
            var got := if source.Bottom? then SeenBottom else Seen(g.events[source.send].op.value);
            && Trace(h, u) == Trace(g, u) + (if u == t then [got] else [])
            && Steps(h, u) == Steps(g, u) + (if u == t then 1 else 0)
  {
    var h := SetSource(AddEvent(g, t, op), |g.events|, source);
    if source.From? { assert h.events[source.send] == g.events[source.send]; }
    TraceAppended(g, h, u);
  }

  /** Nothing has been seen at the start. */
  lemma EmptyTrace(u: ThreadId)
    ensures Trace(EmptyGraph, u) == [] && Steps(EmptyGraph, u) == 0
  {
  }

  lemma AppendKeepsReplay(p: Program, g: Graph, h: Graph)
    requires ReplayValid(p, g) && ValidEndpoints(g)
    requires |h.events| == |g.events| + 1 && h.events[..|g.events|] == g.events
    requires forall r :: 0 <= r < |g.events| ==> (r in h.rf <==> r in g.rf) && (r in g.rf ==> h.rf[r] == g.rf[r])
    requires var e := h.events[|g.events|]; Conforms(e.op, p.next(e.thread, Trace(g, e.thread), Steps(g, e.thread)))
    ensures ReplayValid(p, h)
  {
    forall id | 0 <= id < |h.events|
      ensures Conforms(h.events[id].op, Answer(p, h, id))
    {
      AppendKeepsTraces(g, h, h.events[id].thread, id);
      if id < |g.events| {
        assert h.events[id] == h.events[..|g.events|][id];
        assert Answer(p, h, id) == Answer(p, g, id);
      }
    }
  }

  lemma AppendKeepsShape(p: Program, g: Graph, h: Graph)
    requires Shaped(p, g)
    requires |h.events| == |g.events| + 1 && h.events[..|g.events|] == g.events
    requires var e := h.events[|g.events|];
             !e.op.Error? && p.first <= e.thread < p.first + p.count && !Terminated(g, e.thread)
    ensures Shaped(p, h)
  {
    var n := |g.events|;
    forall i | 0 <= i < n ensures h.events[i] == g.events[i] {
      assert h.events[i] == h.events[..n][i];
    }
    forall b: nat, x: nat | IsBlock(h, b)
      ensures !Po(h, b, x)
    {
      if Po(h, b, x) {
        assert IsBlock(g, b);
        if x < n {
          assert Po(g, b, x);
        } else {
          BlockTerminates(p, g, b);
        }
        assert false;
      }
    }
  }

  /** A Block event is the last of its thread, which therefore is terminated. */
  lemma BlockTerminates(p: Program, g: Graph, b: nat)
    requires Shaped(p, g) && IsBlock(g, b)
    ensures LastEvent(g, g.events[b].thread) == Some(b)
    ensures Terminated(g, g.events[b].thread)
  {
    var ids := ThreadIds(g, g.events[b].thread, |g.events|);
    ThreadIdsMember(g, g.events[b].thread, |g.events|, b);
    var i :| 0 <= i < |ids| && ids[i] == b;
    assert i < |ids| - 1 ==> Po(g, b, ids[|ids| - 1]);
  }

  /** An ascending copy that is closed under causality replays as the original does. */
  lemma CausalCopyReplays(p: Program, h: Graph, g: Graph, f: seq<nat>)
    requires Subgraph(h, g, f) && Ascending(f) && PrefixClosed(g, f) && ReadClosed(g, f)
    requires forall i :: 0 <= i < |f| ==> h.events[i] == g.events[f[i]]
    requires ReplayValid(p, g)
    ensures ReplayValid(p, h)
  {
    forall id | 0 <= id < |h.events|
      ensures Conforms(h.events[id].op, Answer(p, h, id))
    {
      CausalCopyAnswers(p, h, g, f, id);
      assert Conforms(g.events[f[id]].op, Answer(p, g, f[id]));
    }
  }

  lemma CausalCopyAnswers(p: Program, h: Graph, g: Graph, f: seq<nat>, id: nat)
    requires Subgraph(h, g, f) && Ascending(f) && PrefixClosed(g, f) && ReadClosed(g, f) && id < |f|
    ensures Answer(p, h, id) == Answer(p, g, f[id])
  {
    var t, x := h.events[id].thread, f[id];
    assert SameEvent(h.events[id], g.events[x]);
    forall y | 0 <= y < x && g.events[y].thread == t
      ensures y in f[..id]
    {
      assert x in f && Po(g, y, x);
      var k :| 0 <= k < |f| && f[k] == y;
      assert k < id;
      assert f[..id][k] == y;
    }
    forall i | 0 <= i < id && g.events[f[i]].thread == t && f[i] in g.rf && g.rf[f[i]].From?
      ensures g.rf[f[i]].send in f
    {
      assert f[i] in f;
    }
    TraceCopied(h, g, f, t, id, x);
  }

  lemma CopyKeepsShape(p: Program, h: Graph, g: Graph, f: seq<nat>)
    requires Subgraph(h, g, f) && Shaped(p, g)
    ensures Shaped(p, h)
  {
    forall b: nat, x: nat | IsBlock(h, b)
      ensures !Po(h, b, x)
    {
      if Po(h, b, x) {
        SubgraphPo(h, g, f, b, x);
        assert SameEvent(h.events[b], g.events[f[b]]);
        assert IsBlock(g, f[b]);
        assert false;
      }
    }
    forall id | 0 <= id < |h.events|
      ensures !h.events[id].op.Error? && p.first <= h.events[id].thread < p.first + p.count
    {
      assert SameEvent(h.events[id], g.events[f[id]]);
    }
  }
}
