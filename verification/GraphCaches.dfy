/** The tables an exploration graph keeps beside its events and sources, and what each must say. */
module GraphCaches {
  import opened Optional
  import opened Events
  import opened Reachability
  import opened Consistency
  import opened Replay
  import opened Journals
  import opened PorfClocks

  datatype ThreadState = ThreadState(count: nat, last: Option<nat>)

  /** What an append overwrote: the thread's state and its next index; `index` is the one the event got. */
  datatype EventUndo = EventUndo(id: nat, thread: ThreadId, index: nat, previous: ThreadState, previousNext: nat)

  function StateOf(ids: seq<nat>): ThreadState
  {
    ThreadState(|ids|, if ids == [] then None else Some(ids[|ids| - 1]))
  }

  /** The sends below `n`, ascending. */
  function SendIds(g: Graph, n: nat): (ids: seq<nat>)
    requires n <= |g.events|
  {
    if n == 0 then []
    else if IsSend(g, n - 1) then SendIds(g, n - 1) + [n - 1]
    else SendIds(g, n - 1)
  }

  function Grown<T>(s: seq<T>, n: nat, fill: T): (r: seq<T>)
    ensures |r| == if |s| < n then n else |s|
    ensures forall i :: 0 <= i < |s| ==> r[i] == s[i]
    ensures forall i :: |s| <= i < |r| ==> r[i] == fill
  {
    if |s| < n then s + seq(n - |s|, _ => fill) else s
  }

  // ----- per-thread lists -----

  ghost predicate ListsFor(g: Graph, lists: seq<seq<nat>>, receives: seq<seq<nat>>, states: seq<ThreadState>)
  {
    && ThreadLists(g, lists) && |lists| == |receives| == |states|
    && (forall t :: 0 <= t < |lists| ==> receives[t] == ReceiveIds(g, t, |g.events|))
    && (forall t :: 0 <= t < |lists| ==> states[t] == StateOf(lists[t]))
  }

  /** A thread with no list has no event. */
  lemma {:induction false} NoList(g: Graph, lists: seq<seq<nat>>, t: ThreadId, n: nat)
    requires ThreadLists(g, lists) && |lists| <= t && n <= |g.events|
    ensures ThreadIds(g, t, n) == [] && ReceiveIds(g, t, n) == []
    decreases n
  {
    if n > 0 {
      NoList(g, lists, t, n - 1);
    }
  }

  lemma {:induction false} ReceiveIdsFrame(g: Graph, h: Graph, t: ThreadId, n: nat)
    requires n <= |g.events| && n <= |h.events|
    requires forall i :: 0 <= i < n ==> g.events[i] == h.events[i]
    ensures ReceiveIds(g, t, n) == ReceiveIds(h, t, n)
    decreases n
  {
    if n > 0 {
      ReceiveIdsFrame(g, h, t, n - 1);
    }
  }

  lemma {:induction false} SendIdsFrame(g: Graph, h: Graph, n: nat)
    requires n <= |g.events| && n <= |h.events|
    requires forall i :: 0 <= i < n ==> g.events[i] == h.events[i]
    ensures SendIds(g, n) == SendIds(h, n)
    decreases n
  {
    if n > 0 {
      SendIdsFrame(g, h, n - 1);
    }
  }

  /** What one more event adds to the lists. */
  lemma AppendedIds(g: Graph, t: ThreadId, op: Label, u: ThreadId)
    ensures var h, n := AddEvent(g, t, op), |g.events|;
            && ThreadIds(h, u, n + 1) == ThreadIds(g, u, n) + (if u == t then [n] else [])
            && ReceiveIds(h, u, n + 1) == ReceiveIds(g, u, n) + (if u == t && op.Receive? then [n] else [])
            && SendIds(h, n + 1) == SendIds(g, n) + (if op.Send? then [n] else [])
  {
    var h, n := AddEvent(g, t, op), |g.events|;
    ThreadIdsFrame(g, h, u, n);
    ReceiveIdsFrame(g, h, u, n);
    SendIdsFrame(g, h, n);
  }

  /** The lists do not depend on the sources. */
  lemma ListsIgnoreSources(g: Graph, h: Graph, lists: seq<seq<nat>>, receives: seq<seq<nat>>, states: seq<ThreadState>)
    requires ListsFor(g, lists, receives, states) && g.events == h.events
    ensures ListsFor(h, lists, receives, states) && SendIds(h, |h.events|) == SendIds(g, |g.events|)
  {
    SendIdsFrame(g, h, |g.events|);
    forall t | 0 <= t < |lists|
      ensures lists[t] == ThreadIds(h, t, |h.events|) && receives[t] == ReceiveIds(h, t, |h.events|)
    {
      ThreadIdsFrame(g, h, t, |g.events|);
      ReceiveIdsFrame(g, h, t, |g.events|);
    }
  }

  /** `id` pushed on the list of thread `t`, growing the table first. */
  function ListsWith(lists: seq<seq<nat>>, t: ThreadId, id: nat): seq<seq<nat>>
  {
    var l := Grown(lists, t + 1, []);
    l[t := l[t] + [id]]
  }

  function StatesWith(states: seq<ThreadState>, t: ThreadId, id: nat): seq<ThreadState>
  {
    var s := Grown(states, t + 1, ThreadState(0, None));
    s[t := ThreadState(s[t].count + 1, Some(id))]
  }

  lemma ListsAppended(g: Graph, t: ThreadId, op: Label, lists: seq<seq<nat>>, receives: seq<seq<nat>>,
                      states: seq<ThreadState>)
    requires ListsFor(g, lists, receives, states)
    ensures ListsFor(AddEvent(g, t, op), ListsWith(lists, t, |g.events|),
                     if op.Receive? then ListsWith(receives, t, |g.events|) else Grown(receives, t + 1, []),
                     StatesWith(states, t, |g.events|))
  {
    hide ThreadIds, ReceiveIds, SendIds, AddEvent, StateOf;
    var h, n := AddEvent(g, t, op), |g.events|;
    var lists', states' := ListsWith(lists, t, n), StatesWith(states, t, n);
    var receives' := if op.Receive? then ListsWith(receives, t, n) else Grown(receives, t + 1, []);
    ThreadsAppended(g, t, op, |lists'|);
    forall u: nat | u < |lists'|
      ensures lists'[u] == ThreadIds(h, u, n + 1) && receives'[u] == ReceiveIds(h, u, n + 1)
              && states'[u] == StateOf(lists'[u])
    {
      ListEntries(g, t, op, lists, receives, states, u);
    }
  }

  lemma ThreadsAppended(g: Graph, t: ThreadId, op: Label, bound: nat)
    requires t < bound && forall id :: 0 <= id < |g.events| ==> g.events[id].thread < bound
    ensures var h := AddEvent(g, t, op);
            |h.events| == |g.events| + 1 && forall id :: 0 <= id < |h.events| ==> h.events[id].thread < bound
  {
  }

  lemma ListEntries(g: Graph, t: ThreadId, op: Label, lists: seq<seq<nat>>, receives: seq<seq<nat>>,
                    states: seq<ThreadState>, u: nat)
    requires ListsFor(g, lists, receives, states)
    requires u < |lists| || u <= t
    ensures var h, n := AddEvent(g, t, op), |g.events|;
            var receives' := if op.Receive? then ListsWith(receives, t, n) else Grown(receives, t + 1, []);
            && ListsWith(lists, t, n)[u] == ThreadIds(h, u, n + 1)
            && receives'[u] == ReceiveIds(h, u, n + 1)
            && StatesWith(states, t, n)[u] == StateOf(ListsWith(lists, t, n)[u])
  {
    hide ThreadIds, ReceiveIds, SendIds, AddEvent;
    AppendedIds(g, t, op, u);
    if |lists| <= u { NoList(g, lists, u, |g.events|); }
  }

  /** Dropping the last event takes its entries back. */
  lemma ListsDropped(g: Graph, t: ThreadId, op: Label, lists: seq<seq<nat>>, receives: seq<seq<nat>>,
                     states: seq<ThreadState>)
    requires ListsFor(AddEvent(g, t, op), lists, receives, states)
    ensures t < |lists| && lists[t] != [] && lists[t][|lists[t]| - 1] == |g.events|
    ensures op.Receive? ==> receives[t] != [] && receives[t][|receives[t]| - 1] == |g.events|
    ensures ListsFor(g, lists[t := lists[t][..|lists[t]| - 1]],
                     if op.Receive? then receives[t := receives[t][..|receives[t]| - 1]] else receives,
                     states[t := StateOf(ThreadIds(g, t, |g.events|))])
  {
    hide ThreadIds, ReceiveIds, SendIds;
    var h, n := AddEvent(g, t, op), |g.events|;
    assert h.events[n].thread == t;
    AppendedIds(g, t, op, t);
    var lists' := lists[t := lists[t][..|lists[t]| - 1]];
    var receives' := if op.Receive? then receives[t := receives[t][..|receives[t]| - 1]] else receives;
    forall id | 0 <= id < n ensures g.events[id].thread < |lists'| {
      assert h.events[id] == g.events[id];
    }
    forall u | 0 <= u < |lists'|
      ensures lists'[u] == ThreadIds(g, u, n) && receives'[u] == ReceiveIds(g, u, n)
    {
      AppendedIds(g, t, op, u);
    }
  }

  // ----- reader counts -----

  ghost function Readers(rf: map<nat, Source>, s: nat): set<nat>
  {
    set r | r in rf && rf[r] == From(s)
  }

  ghost predicate CountsFor(g: Graph, counts: seq<nat>, unread: seq<bool>)
  {
    && |counts| == |unread| == |g.events|
    && (forall s :: 0 <= s < |g.events| ==> counts[s] == if IsSend(g, s) then |Readers(g.rf, s)| else 0)
    && (forall s :: 0 <= s < |g.events| ==> (unread[s] <==> IsSend(g, s) && counts[s] == 0))
  }

  predicate Counted(g: Graph, source: Option<Source>)
  {
    source.Some? && source.value.From? && IsSend(g, source.value.send)
  }

  function RfOf(g: Graph, r: nat): Option<Source>
  {
    if r in g.rf then Some(g.rf[r]) else None
  }

  lemma ReadersWithout(rf: map<nat, Source>, r: nat, s: nat)
    requires r in rf
    ensures |Readers(rf - {r}, s)| == |Readers(rf, s)| - if rf[r] == From(s) then 1 else 0
  {
    assert Readers(rf - {r}, s) == Readers(rf, s) - {r};
  }

  lemma ReadersWith(rf: map<nat, Source>, r: nat, source: Source, s: nat)
    requires r !in rf
    ensures |Readers(rf[r := source], s)| == |Readers(rf, s)| + if source == From(s) then 1 else 0
  {
    assert Readers(rf[r := source], s) == if source == From(s) then Readers(rf, s) + {r} else Readers(rf, s);
  }

  /** Forgetting a source frees the send it named; the count was positive. */
  lemma CountsReleased(g: Graph, r: nat, counts: seq<nat>, unread: seq<bool>)
    requires CountsFor(g, counts, unread)
    ensures var h := g.(rf := g.rf - {r});
            if Counted(g, RfOf(g, r)) then
              var s := g.rf[r].send;
              counts[s] > 0 && CountsFor(h, counts[s := counts[s] - 1], unread[s := counts[s] == 1])
            else CountsFor(h, counts, unread)
  {
    if r !in g.rf {
      assert g.rf - {r} == g.rf;
    } else {
      forall s | 0 <= s < |g.events|
        ensures |Readers(g.rf - {r}, s)| == |Readers(g.rf, s)| - if g.rf[r] == From(s) then 1 else 0
      {
        ReadersWithout(g.rf, r, s);
      }
    }
  }

  lemma CountsClaimed(g: Graph, r: nat, source: Source, counts: seq<nat>, unread: seq<bool>)
    requires CountsFor(g, counts, unread) && r !in g.rf
    ensures var h := SetSource(g, r, source);
            if Counted(g, Some(source)) then
              var s := source.send;
              CountsFor(h, counts[s := counts[s] + 1], unread[s := false])
            else CountsFor(h, counts, unread)
  {
    forall s | 0 <= s < |g.events|
      ensures |Readers(g.rf[r := source], s)| == |Readers(g.rf, s)| + if source == From(s) then 1 else 0
    {
      ReadersWith(g.rf, r, source, s);
    }
  }

  /** No entry or logged entry names an event that does not exist. */
  ghost predicate Tidy(j: Journal)
  {
    && (forall r :: r in j.graph.rf ==> Inside(j.graph, j.graph.rf[r]))
    && (forall i :: 0 <= i < |j.bindings| ==>
          j.bindings[i].previous.Some? ==> Inside(j.graph, j.bindings[i].previous.value))
  }

  predicate Inside(g: Graph, source: Source)
  {
    source.From? ==> source.send < |g.events|
  }

  /** Some entry names event `id`. */
  predicate Named(g: Graph, id: nat)
  {
    exists r :: r in g.rf && g.rf[r] == From(id)
  }

  lemma NamedCount(g: Graph, id: nat)
    ensures Named(g, id) <==> |Readers(g.rf, id)| > 0
  {
    if Named(g, id) {
      var r :| r in g.rf && g.rf[r] == From(id);
      assert r in Readers(g.rf, id);
    } else {
      assert Readers(g.rf, id) == {};
    }
  }

  /** A fresh event enters the tables with no reader and, if a send, as unread: right exactly unless it is a send
      that an entry already names. */
  lemma CountsAppended(g: Graph, t: ThreadId, op: Label, counts: seq<nat>, unread: seq<bool>)
    requires CountsFor(g, counts, unread)
    ensures CountsFor(AddEvent(g, t, op), counts + [0], unread + [op.Send?]) <==> !(op.Send? && Named(g, |g.events|))
  {
    var h, n := AddEvent(g, t, op), |g.events|;
    NamedCount(g, n);
    forall s | 0 <= s < n ensures h.events[s] == g.events[s] {}
    assert IsSend(h, n) <==> op.Send?;
    assert (counts + [0])[n] == 0;
  }

  function Appended(g: Graph, added: seq<Event>): Graph
  {
    g.(events := g.events + added)
  }

  function Zeros(n: nat): (zeros: seq<nat>)
    ensures |zeros| == n && forall i :: 0 <= i < n ==> zeros[i] == 0
  {
    seq(n, _ => 0)
  }

  function SendFlags(added: seq<Event>): (flags: seq<bool>)
    ensures |flags| == |added| && forall i :: 0 <= i < |added| ==> flags[i] == added[i].op.Send?
  {
    seq(|added|, i requires 0 <= i < |added| => added[i].op.Send?)
  }

  /** The count tables after the appends are those of the graph with the events appended. */
  ghost predicate FollowsAppends(g: Graph, counts: seq<nat>, unread: seq<bool>, added: seq<Event>)
  {
    CountsFor(Appended(g, added), counts + Zeros(|added|), unread + SendFlags(added))
  }

  /** Over any further appends: the tables are right afterwards exactly if no entry bound before named one of the
      sends that were still to come. */
  lemma EarlySourcesAreMissed(g: Graph, added: seq<Event>, counts: seq<nat>, unread: seq<bool>)
    requires CountsFor(g, counts, unread)
    ensures FollowsAppends(g, counts, unread, added)
            <==> forall i :: 0 <= i < |added| && added[i].op.Send? ==> !Named(g, |g.events| + i)
  {
    hide CountsFor, Named;
    if forall i :: 0 <= i < |added| && added[i].op.Send? ==> !Named(g, |g.events| + i) {
      NoneMissed(g, added, counts, unread);
    } else {
      var i :| 0 <= i < |added| && added[i].op.Send? && Named(g, |g.events| + i);
      OneMissed(g, added, counts, unread, i);
    }
  }

  lemma NoneMissed(g: Graph, added: seq<Event>, counts: seq<nat>, unread: seq<bool>)
    requires CountsFor(g, counts, unread)
    requires forall i :: 0 <= i < |added| && added[i].op.Send? ==> !Named(g, |g.events| + i)
    ensures FollowsAppends(g, counts, unread, added)
  {
    hide Named, Zeros, SendFlags;
    var h, n := Appended(g, added), |g.events|;
    forall s | 0 <= s < |h.events|
      ensures (counts + Zeros(|added|))[s] == if IsSend(h, s) then |Readers(h.rf, s)| else 0
      ensures (unread + SendFlags(added))[s] <==> IsSend(h, s) && (counts + Zeros(|added|))[s] == 0
    {
      if s < n {
        assert h.events[s] == g.events[s];
      } else {
        assert h.events[s] == added[s - n];
        if added[s - n].op.Send? {
          assert !Named(g, n + (s - n));
          NamedCount(g, s);
        }
      }
    }
  }

  lemma OneMissed(g: Graph, added: seq<Event>, counts: seq<nat>, unread: seq<bool>, i: nat)
    requires CountsFor(g, counts, unread) && i < |added| && added[i].op.Send? && Named(g, |g.events| + i)
    ensures !FollowsAppends(g, counts, unread, added)
  {
    hide Named, SendFlags;
    var h, s := Appended(g, added), |g.events| + i;
    NamedCount(g, s);
    assert h.events[s] == added[i] && (counts + Zeros(|added|))[s] == 0;
  }

  /** The last event's count is zero exactly unless it is a send that is still read; then it can be dropped. */
  lemma CountsDropped(g: Graph, t: ThreadId, op: Label, counts: seq<nat>, unread: seq<bool>)
    requires CountsFor(AddEvent(g, t, op), counts, unread)
    ensures |counts| == |g.events| + 1 && (counts[|g.events|] == 0 <==> !(op.Send? && Named(g, |g.events|)))
    ensures CountsFor(g, counts[..|g.events|], unread[..|g.events|])
  {
    var h, n := AddEvent(g, t, op), |g.events|;
    NamedCount(g, n);
    forall s | 0 <= s < n ensures h.events[s] == g.events[s] {}
    assert IsSend(h, n) <==> op.Send?;
  }

  /** The unread flag is what a scan of the sources would find. */
  lemma UnreadFlag(g: Graph, counts: seq<nat>, unread: seq<bool>, s: nat)
    requires CountsFor(g, counts, unread) && s < |g.events|
    ensures unread[s] <==> Unread(g, s)
  {
    if IsSend(g, s) {
      if r :| r in g.rf && g.rf[r] == From(s) {
        assert r in Readers(g.rf, s);
      } else {
        assert Readers(g.rf, s) == {};
      }
    }
  }

  // ----- per-thread event indices -----

  /** An event's index is the number of its thread's earlier events, a thread's next index how many it has. */
  ghost predicate IndicesFor(g: Graph, index: seq<nat>, next: seq<nat>)
  {
    && |index| == |g.events|
    && (forall id :: 0 <= id < |g.events| ==> g.events[id].thread < |next|)
    && (forall id :: 0 <= id < |g.events| ==> index[id] == StepsUpTo(g, g.events[id].thread, id))
    && (forall t :: 0 <= t < |next| ==> next[t] == Steps(g, t))
  }

  lemma {:induction false} StepsFrame(g: Graph, h: Graph, t: ThreadId, n: nat)
    requires n <= |g.events| && n <= |h.events|
    requires forall i :: 0 <= i < n ==> g.events[i] == h.events[i]
    ensures StepsUpTo(g, t, n) == StepsUpTo(h, t, n)
    decreases n
  {
    if n > 0 { StepsFrame(g, h, t, n - 1); }
  }

  lemma {:induction false} NoSteps(g: Graph, bound: nat, t: ThreadId, n: nat)
    requires n <= |g.events| && bound <= t && forall id :: 0 <= id < |g.events| ==> g.events[id].thread < bound
    ensures StepsUpTo(g, t, n) == 0
    decreases n
  {
    if n > 0 { NoSteps(g, bound, t, n - 1); }
  }

  function NextIndex(next: seq<nat>, t: ThreadId): nat
  {
    if t < |next| then next[t] else 0
  }

  function NextWith(next: seq<nat>, t: ThreadId): seq<nat>
  {
    Grown(next, t + 1, 0)[t := NextIndex(next, t) + 1]
  }

  lemma NextIndexIs(g: Graph, index: seq<nat>, next: seq<nat>, t: ThreadId)
    requires IndicesFor(g, index, next)
    ensures NextIndex(next, t) == Steps(g, t)
  {
    if |next| <= t { NoSteps(g, |next|, t, |g.events|); }
  }

  lemma StepsAppended(g: Graph, t: ThreadId, op: Label, u: ThreadId)
    ensures Steps(AddEvent(g, t, op), u) == Steps(g, u) + if u == t then 1 else 0
  {
    var h, n := AddEvent(g, t, op), |g.events|;
    StepsFrame(g, h, u, n);
    assert h.events[n].thread == t;
  }

  lemma IndicesAppended(g: Graph, t: ThreadId, op: Label, index: seq<nat>, next: seq<nat>)
    requires IndicesFor(g, index, next)
    ensures IndicesFor(AddEvent(g, t, op), index + [NextIndex(next, t)], NextWith(next, t))
  {
    hide Steps, StepsUpTo, NextIndex;
    var h, n := AddEvent(g, t, op), |g.events|;
    var index', next' := index + [NextIndex(next, t)], NextWith(next, t);
    NextIndexIs(g, index, next, t);
    forall id | 0 <= id < |h.events|
      ensures h.events[id].thread < |next'| && index'[id] == StepsUpTo(h, h.events[id].thread, id)
    {
      StepsFrame(g, h, h.events[id].thread, id);
      if id == n { StepsAre(g, t); }
    }
    forall u | 0 <= u < |next'| ensures next'[u] == Steps(h, u) {
      StepsAppended(g, t, op, u);
      NextIndexIs(g, index, next, u);
      NextIndexOf(next, u);
    }
  }

  lemma StepsAre(g: Graph, t: ThreadId)
    ensures Steps(g, t) == StepsUpTo(g, t, |g.events|)
  {
  }

  lemma NextIndexOf(next: seq<nat>, t: ThreadId)
    ensures NextIndex(next, t) == if t < |next| then next[t] else 0
  {
  }

  lemma IndicesDropped(g: Graph, t: ThreadId, op: Label, index: seq<nat>, next: seq<nat>)
    requires IndicesFor(AddEvent(g, t, op), index, next)
    ensures t < |next| && index[|g.events|] == Steps(g, t)
    ensures IndicesFor(g, index[..|g.events|], next[t := Steps(g, t)])
  {
    hide Steps, StepsUpTo;
    var h, n := AddEvent(g, t, op), |g.events|;
    assert h.events[n].thread == t;
    StepsFrame(g, h, t, n);
    StepsAre(g, t);
    forall id | 0 <= id < n
      ensures g.events[id].thread < |next| && index[id] == StepsUpTo(g, g.events[id].thread, id)
    {
      assert h.events[id] == g.events[id];
      StepsFrame(g, h, g.events[id].thread, id);
    }
    forall u | 0 <= u < |next| ensures next[t := Steps(g, t)][u] == Steps(g, u) {
      StepsAppended(g, t, op, u);
    }
  }

  lemma IndicesIgnoreSources(g: Graph, h: Graph, index: seq<nat>, next: seq<nat>)
    requires IndicesFor(g, index, next) && g.events == h.events
    ensures IndicesFor(h, index, next)
  {
    hide StepsUpTo;
    forall id | 0 <= id < |h.events| ensures index[id] == StepsUpTo(h, h.events[id].thread, id) {
      StepsFrame(g, h, h.events[id].thread, id);
    }
    forall t | 0 <= t < |next| ensures next[t] == Steps(h, t) {
      StepsFrame(g, h, t, |g.events|);
    }
  }

  /** Within a thread the indices order the events as their ids do. */
  lemma {:induction false} IndicesAscend(g: Graph, index: seq<nat>, next: seq<nat>, a: nat, b: nat)
    requires IndicesFor(g, index, next) && a < |g.events| && b < |g.events| && g.events[a].thread == g.events[b].thread
    ensures index[a] < index[b] <==> a < b
  {
    var t := g.events[a].thread;
    if a < b {
      StepsGrow(g, t, a, b);
    } else if b < a {
      StepsGrow(g, t, b, a);
    }
  }

  lemma {:induction false} StepsGrow(g: Graph, t: ThreadId, a: nat, b: nat)
    requires a < b <= |g.events| && g.events[a].thread == t
    ensures StepsUpTo(g, t, a) < StepsUpTo(g, t, b)
    decreases b
  {
    if a < b - 1 { StepsGrow(g, t, a, b - 1); }
  }

  // ----- the append log -----

  ghost predicate LogFor(g: Graph, log: seq<EventUndo>)
  {
    && |log| <= |g.events|
    && (forall i :: 0 <= i < |log| ==> Logged(g, |g.events| - |log| + i, log[i]))
  }

  ghost predicate Logged(g: Graph, id: nat, undo: EventUndo)
  {
    && id < |g.events| && undo.id == id && undo.thread == g.events[id].thread
    && undo.previous == StateOf(ThreadIds(g, undo.thread, id))
    && undo.index == undo.previousNext == StepsUpTo(g, undo.thread, id)
  }

  lemma LoggedFrame(g: Graph, h: Graph, id: nat, undo: EventUndo)
    requires Logged(g, id, undo) && id < |h.events| && g.events[..id + 1] == h.events[..id + 1]
    ensures Logged(h, id, undo)
  {
    forall i | 0 <= i <= id ensures g.events[i] == h.events[i] {
      assert g.events[i] == g.events[..id + 1][i];
      assert h.events[i] == h.events[..id + 1][i];
    }
    ThreadIdsFrame(g, h, undo.thread, id);
  }

  /** What appending an event of thread `t` logs. */
  ghost function UndoOf(g: Graph, t: ThreadId): EventUndo
  {
    EventUndo(|g.events|, t, Steps(g, t), StateOf(ThreadIds(g, t, |g.events|)), Steps(g, t))
  }

  lemma LogAppended(g: Graph, t: ThreadId, op: Label, log: seq<EventUndo>)
    requires LogFor(g, log)
    ensures LogFor(AddEvent(g, t, op), log + [UndoOf(g, t)])
  {
    var h, n := AddEvent(g, t, op), |g.events|;
    var log' := log + [UndoOf(g, t)];
    ThreadIdsFrame(g, h, t, n);
    forall i | 0 <= i < |log'| ensures Logged(h, |h.events| - |log'| + i, log'[i]) {
      if i < |log| {
        var id := n - |log| + i;
        assert h.events[..id + 1] == g.events[..id + 1];
        LoggedFrame(g, h, id, log[i]);
      }
    }
  }

  lemma LogDropped(g: Graph, t: ThreadId, op: Label, log: seq<EventUndo>)
    requires LogFor(AddEvent(g, t, op), log) && log != []
    ensures log[|log| - 1] == UndoOf(g, t)
    ensures LogFor(g, log[..|log| - 1])
  {
    var h, n := AddEvent(g, t, op), |g.events|;
    assert Logged(h, n, log[|log| - 1]);
    ThreadIdsFrame(g, h, t, n);
    var log' := log[..|log| - 1];
    forall i | 0 <= i < |log'| ensures Logged(g, n - |log'| + i, log'[i]) {
      var id := n - |log'| + i;
      assert Logged(h, id, log[i]);
      assert h.events[..id + 1] == g.events[..id + 1];
      LoggedFrame(h, g, id, log[i]);
    }
  }

  lemma LogIgnoresSources(g: Graph, h: Graph, log: seq<EventUndo>)
    requires LogFor(g, log) && g.events == h.events
    ensures LogFor(h, log)
  {
    forall i | 0 <= i < |log| ensures Logged(h, |h.events| - |log| + i, log[i]) {
      LoggedFrame(g, h, |g.events| - |log| + i, log[i]);
    }
  }

  // ----- the acyclicity flag -----

  /** Acyclic, and every entry joins existing events of the right kinds. */
  ghost predicate Causal(g: Graph)
  {
    CausallyAcyclic(g) && ValidEndpoints(g)
  }

  /** What the flag and the fresh receive beside it promise. */
  ghost predicate FlagsFor(g: Graph, known: bool, pending: Option<nat>)
  {
    && (known ==> Causal(g))
    && (pending.Some? ==> pending.value == |g.events| - 1 && IsReceive(g, pending.value))
  }

  /** An appended event has no causal successor. */
  lemma CausalAppended(g: Graph, t: ThreadId, op: Label)
    requires Causal(g)
    ensures Causal(AddEvent(g, t, op))
  {
    var h, n := AddEvent(g, t, op), |g.events|;
    forall x: nat, y: nat | (x, y) in PorfEdges(h)
      ensures (x, y) in PorfEdges(g) || y == n
    {
      if y < n && x < n {
        assert h.events[x] == g.events[x] && h.events[y] == g.events[y];
      }
    }
    EdgesIntoSink(PorfEdges(g), PorfEdges(h), n);
  }

  /** Binding the receive added last to any send closes no cycle. */
  lemma CausalFreshReceive(g: Graph, r: nat, source: Source)
    requires Causal(g) && r == |g.events| - 1 && IsReceive(g, r) && (source.From? ==> IsSend(g, source.send))
    ensures Causal(SetSource(g, r, source))
  {
    var h := SetSource(g, r, source);
    forall x: nat, y: nat | (x, y) in PorfEdges(h)
      ensures (x, y) in PorfEdges(g) || y == r
    {
    }
    EdgesIntoSink(PorfEdges(g), PorfEdges(h), r);
  }

  lemma CausalBottom(g: Graph, r: nat)
    requires Causal(g) && IsReceive(g, r)
    ensures Causal(SetSource(g, r, Bottom))
  {
    var h := SetSource(g, r, Bottom);
    forall a: nat ensures !Reach(PorfEdges(h), a, a) {
      if Reach(PorfEdges(h), a, a) {
        forall x: nat, y: nat | (x, y) in PorfEdges(h) ensures Reach(PorfEdges(g), x, y) {
          PorfStep(g, x, y);
        }
        ReachMonotone(PorfEdges(h), PorfEdges(g), a, a);
        assert false;
      }
    }
  }

  lemma FlagsAppended(g: Graph, known: bool, pending: Option<nat>, t: ThreadId, op: Label)
    requires FlagsFor(g, known, pending)
    ensures FlagsFor(AddEvent(g, t, op), known, if known && op.Receive? then Some(|g.events|) else None)
  {
    if known { CausalAppended(g, t, op); }
  }

  // ----- the clock cache -----

  lemma NoClocks(g: Graph)
    ensures ClocksFor(g, None)
  {
  }

  ghost predicate ClocksFor(g: Graph, cache: Option<PorfCache>)
  {
    cache.Some? ==> (g.events == [] || ValidEndpoints(g)) && CacheFor(g, cache.value)
  }

  lemma EmptyCache(g: Graph)
    requires g.events == []
    ensures CacheFor(g, PorfCache(Columns([], 0, []), [], false))
  {
    EmptyIsCausal(g.rf);
    assert g == Graph([], g.rf);
  }

  lemma EmptyIsCausal(rf: map<nat, Source>)
    ensures CausallyAcyclic(Graph([], rf))
  {
    RankedIsAcyclic(PorfEdges(Graph([], rf)), x => x);
  }

  // ----- rollback -----

  /** A checkpoint: where the logs were, and the acyclicity flag at the time. */
  datatype Checkpoint = Checkpoint(mark: Mark, known: bool, pending: Option<nat>)

  /** Undoing `j` to the checkpoint gives a graph the checkpoint speaks the truth about. */
  ghost predicate Describes(at: Checkpoint, j: Journal)
    requires Sound(j) && MarkLe(at.mark, MarkOf(j))
  {
    Tidy(Undo(j, at.mark)) && FlagsFor(Undo(j, at.mark).graph, at.known, at.pending)
  }

  predicate TidyChange(j: Journal, c: Change)
  {
    c.Binding? ==> Inside(j.graph, c.source)
  }

  /** A checkpoint stays good for every later state reached through the logged operations. */
  lemma CheckpointLasts(j: Journal, at: Checkpoint, changes: seq<Change>)
    requires Sound(j) && Tidy(j) && at.mark == MarkOf(j) && FlagsFor(j.graph, at.known, at.pending)
    ensures var k := PerformAll(j, changes); Sound(k) && MarkLe(at.mark, MarkOf(k)) && Describes(at, k)
  {
    RollbackRestores(j, changes);
  }

  lemma TidyMoreEvents(j: Journal, k: Journal)
    requires Tidy(j) && j.graph.rf == k.graph.rf && j.bindings == k.bindings && |j.graph.events| <= |k.graph.events|
    ensures Tidy(k)
  {
  }

  lemma TidyRebound(j: Journal, r: nat, source: Source)
    requires Tidy(j) && Inside(j.graph, source)
    ensures Tidy(Fresh(SetSource(j.graph, r, source)))
  {
  }

  lemma TidyPerformed(j: Journal, c: Change)
    requires Tidy(j) && TidyChange(j, c)
    ensures Tidy(Perform(j, c))
  {
    match c
    case Appending(t, op) =>
      TidyMoreEvents(j, Append(j, t, op));
    case Binding(r, source) =>
      var k := Bind(j, r, source);
      forall i | 0 <= i < |k.bindings| && k.bindings[i].previous.Some?
        ensures Inside(k.graph, k.bindings[i].previous.value)
      {
        if i < |j.bindings| { assert k.bindings[i] == j.bindings[i]; }
      }
  }

  // ----- all tables together -----

  datatype Tables = Tables(states: seq<ThreadState>, lists: seq<seq<nat>>, receives: seq<seq<nat>>, sends: seq<nat>,
                           counts: seq<nat>, unread: seq<bool>, index: seq<nat>, next: seq<nat>, log: seq<EventUndo>)

  /** Every table equals what a scan of the events and sources would compute. */
  ghost predicate ScansFor(j: Journal, c: Tables)
  {
    && ListsFor(j.graph, c.lists, c.receives, c.states)
    && c.sends == SendIds(j.graph, |j.graph.events|)
    && CountsFor(j.graph, c.counts, c.unread)
    && IndicesFor(j.graph, c.index, c.next)
    && LogFor(j.graph, c.log) && |c.log| == j.appended
  }

  function TablesWith(c: Tables, t: ThreadId, op: Label, id: nat): Tables
  {
    var previous := if t < |c.states| then c.states[t] else ThreadState(0, None);
    var index := NextIndex(c.next, t);
    Tables(StatesWith(c.states, t, id),
           ListsWith(c.lists, t, id),
           if op.Receive? then ListsWith(c.receives, t, id) else Grown(c.receives, t + 1, []),
           if op.Send? then c.sends + [id] else c.sends,
           c.counts + [0],
           c.unread + [op.Send?],
           c.index + [index],
           NextWith(c.next, t),
           c.log + [EventUndo(id, t, index, previous, index)])
  }

  /** After an append the tables are right exactly unless the event is a send that an entry already names. */
  lemma TablesAppended(j: Journal, c: Tables, t: ThreadId, op: Label)
    requires ScansFor(j, c)
    ensures ScansFor(Append(j, t, op), TablesWith(c, t, op, |j.graph.events|)) <==>
              !(op.Send? && Named(j.graph, |j.graph.events|))
  {
    hide ListsFor, CountsFor, IndicesFor, LogFor, SendIds, ThreadIds, ReceiveIds, ListsWith, StatesWith, NextWith,
         NextIndex, Grown, AddEvent, Named, Steps;
    StateBefore(j, c, t);
    NextIndexIs(j.graph, c.index, c.next, t);
    ListsAppended(j.graph, t, op, c.lists, c.receives, c.states);
    CountsAppended(j.graph, t, op, c.counts, c.unread);
    IndicesAppended(j.graph, t, op, c.index, c.next);
    AppendedIds(j.graph, t, op, t);
    LogAppended(j.graph, t, op, c.log);
    AddedCount(j.graph, t, op);
  }

  lemma AddedCount(g: Graph, t: ThreadId, op: Label)
    ensures |AddEvent(g, t, op).events| == |g.events| + 1
  {
  }

  lemma StateBefore(j: Journal, c: Tables, t: ThreadId)
    requires ScansFor(j, c)
    ensures (if t < |c.states| then c.states[t] else ThreadState(0, None))
            == StateOf(ThreadIds(j.graph, t, |j.graph.events|))
  {
    if |c.lists| <= t { NoList(j.graph, c.lists, t, |j.graph.events|); }
  }

  /** The reader counts after one entry naming `source` is added or removed. */
  function Adjusted(g: Graph, c: Tables, source: Option<Source>, up: bool): Tables
    requires |c.counts| == |c.unread| == |g.events|
    requires !up && Counted(g, source) ==> c.counts[source.value.send] > 0
  {
    if !Counted(g, source) then c
    else
      var s := source.value.send;
      var count := if up then c.counts[s] + 1 else c.counts[s] - 1;
      c.(counts := c.counts[s := count], unread := c.unread[s := count == 0])
  }

  /** An underflow of the reader count cannot happen. */
  lemma NoUnderflow(j: Journal, c: Tables, r: nat)
    requires ScansFor(j, c)
    ensures |c.counts| == |c.unread| == |j.graph.events|
    ensures Counted(j.graph, RfOf(j.graph, r)) ==> c.counts[j.graph.rf[r].send] > 0
  {
    CountsReleased(j.graph, r, c.counts, c.unread);
  }

  function Resourced(g: Graph, r: nat, source: Option<Source>): Graph
  {
    g.(rf := if source.None? then g.rf - {r} else g.rf[r := source.value])
  }

  lemma CountsRebound(g: Graph, c: Tables, r: nat, source: Option<Source>)
    requires CountsFor(g, c.counts, c.unread)
    requires Counted(g, RfOf(g, r)) ==> c.counts[g.rf[r].send] > 0
    ensures var d := Adjusted(g, Adjusted(g, c, RfOf(g, r), false), source, true);
            CountsFor(Resourced(g, r, source), d.counts, d.unread)
  {
    hide CountsFor;
    CountsSizes(g, c);
    var mid := Adjusted(g, c, RfOf(g, r), false);
    var h := g.(rf := g.rf - {r});
    CountsReleased(g, r, c.counts, c.unread);
    CountsSizes(h, mid);
    if source.Some? {
      CountsClaimed(h, r, source.value, mid.counts, mid.unread);
      assert Counted(h, source) == Counted(g, source);
      assert SetSource(h, r, source.value) == Resourced(g, r, source) by {
        assert (g.rf - {r})[r := source.value] == g.rf[r := source.value];
      }
    }
  }

  lemma CountsSizes(g: Graph, c: Tables)
    requires CountsFor(g, c.counts, c.unread)
    ensures |c.counts| == |c.unread| == |g.events|
  {
  }

  /** The tables follow a change of one source. */
  lemma TablesRebound(j: Journal, c: Tables, r: nat, source: Option<Source>, k: Journal)
    requires ScansFor(j, c) && k.graph == Resourced(j.graph, r, source) && k.appended == j.appended
    requires |c.counts| == |c.unread| == |j.graph.events|
    requires Counted(j.graph, RfOf(j.graph, r)) ==> c.counts[j.graph.rf[r].send] > 0
    ensures ScansFor(k, Adjusted(j.graph, Adjusted(j.graph, c, RfOf(j.graph, r), false), source, true))
  {
    hide ListsFor, CountsFor, IndicesFor, LogFor, SendIds, Counted;
    CountsRebound(j.graph, c, r, source);
    ListsIgnoreSources(j.graph, k.graph, c.lists, c.receives, c.states);
    IndicesIgnoreSources(j.graph, k.graph, c.index, c.next);
    LogIgnoresSources(j.graph, k.graph, c.log);
  }

  /** The flag after an assignment: kept only for the receive added last, bound to bottom or to a send. */
  predicate StaysAcyclic(g: Graph, known: bool, pending: Option<nat>, r: nat, source: Source)
  {
    known && pending == Some(r) && IsReceive(g, r) && (source.From? ==> IsSend(g, source.send))
  }

  lemma FlagsBound(g: Graph, known: bool, pending: Option<nat>, r: nat, source: Source)
    requires FlagsFor(g, known, pending)
    ensures FlagsFor(SetSource(g, r, source), StaysAcyclic(g, known, pending, r, source), None)
  {
    if StaysAcyclic(g, known, pending, r, source) { CausalFreshReceive(g, r, source); }
  }

  /** The tables without the entries of the last event. */
  function TablesWithout(c: Tables, op: Label, undo: EventUndo): Tables
    requires TailMatches(c, op, undo, undo.id) && c.log != []
  {
    var t := undo.thread;
    Tables(c.states[t := undo.previous],
           c.lists[t := c.lists[t][..|c.lists[t]| - 1]],
           if op.Receive? then c.receives[t := c.receives[t][..|c.receives[t]| - 1]] else c.receives,
           if op.Send? then c.sends[..|c.sends| - 1] else c.sends,
           c.counts[..|c.counts| - 1],
           c.unread[..|c.unread| - 1],
           c.index[..|c.index| - 1],
           c.next[t := undo.previousNext],
           c.log[..|c.log| - 1])
  }

  /** The tail checks of the rollback: each cache ends with the event being dropped, and nobody reads it. */
  predicate TailMatches(c: Tables, op: Label, undo: EventUndo, id: nat)
  {
    TailListed(c, op, undo, id) && (op.Send? ==> c.counts[|c.counts| - 1] == 0)
  }

  predicate TailListed(c: Tables, op: Label, undo: EventUndo, id: nat)
  {
    var t := undo.thread;
    && undo.id == id && t < |c.states| && t < |c.lists| && t < |c.receives| && t < |c.next|
    && c.lists[t] != [] && c.lists[t][|c.lists[t]| - 1] == id
    && (op.Receive? ==> c.receives[t] != [] && c.receives[t][|c.receives[t]| - 1] == id)
    && c.counts != [] && c.unread != []
    && c.index != [] && c.index[|c.index| - 1] == undo.index
    && (op.Send? ==> c.sends != [] && c.sends[|c.sends| - 1] == id)
  }

  /** Of the tail checks only the reader count can fail, and it does exactly on a send that is still named. */
  lemma TablesDropped(j: Journal, c: Tables, k: Journal)
    requires ScansFor(j, c) && c.log != []
    requires j.graph.events != [] && k.graph == j.graph.(events := j.graph.events[..|j.graph.events| - 1])
    requires k.appended == j.appended - 1
    ensures var n := |k.graph.events|;
            var op := j.graph.events[n].op;
            var undo := c.log[|c.log| - 1];
            && undo.thread == j.graph.events[n].thread
            && TailListed(c, op, undo, n)
            && (TailMatches(c, op, undo, n) <==> !(op.Send? && Named(k.graph, n)))
            && (TailMatches(c, op, undo, n) ==> ScansFor(k, TablesWithout(c, op, undo)))
  {
    hide ListsFor, CountsFor, IndicesFor, LogFor, SendIds, ThreadIds, StateOf, Named, Steps;
    var n := |k.graph.events|;
    var e := j.graph.events[n];
    assert j.graph.events == k.graph.events + [Event(e.thread, e.op)];
    assert j.graph == AddEvent(k.graph, e.thread, e.op);
    ListsDropped(k.graph, e.thread, e.op, c.lists, c.receives, c.states);
    ListSizes(j.graph, c);
    CountsDropped(k.graph, e.thread, e.op, c.counts, c.unread);
    CountsSizes(j.graph, c);
    IndicesDropped(k.graph, e.thread, e.op, c.index, c.next);
    IndexSizes(j.graph, c);
    LogDropped(k.graph, e.thread, e.op, c.log);
    AppendedIds(k.graph, e.thread, e.op, e.thread);
  }

  lemma IndexSizes(g: Graph, c: Tables)
    requires IndicesFor(g, c.index, c.next)
    ensures |c.index| == |g.events|
  {
  }

  lemma ListSizes(g: Graph, c: Tables)
    requires ListsFor(g, c.lists, c.receives, c.states)
    ensures |c.lists| == |c.receives| == |c.states|
  {
  }

  lemma ScansSound(j: Journal, c: Tables)
    requires ScansFor(j, c)
    ensures Sound(j) && |c.log| == j.appended
  {
  }

  lemma AdjustedTwice(g: Graph, c: Tables, previous: Option<Source>, source: Option<Source>)
    requires |c.counts| == |c.unread| == |g.events|
    requires Counted(g, previous) ==> c.counts[previous.value.send] > 0
    ensures var d := Adjusted(g, c, previous, false);
            |d.counts| == |d.unread| == |g.events| && Adjusted(g, d, source, true).log == c.log
  {
  }

  lemma WithoutSizes(c: Tables, op: Label, undo: EventUndo, id: nat)
    requires TailMatches(c, op, undo, id) && c.log != []
    ensures |TablesWithout(c, op, undo).log| == |c.log| - 1
  {
  }

  /** The last logged assignment taken back. */
  lemma UndoOneRead(j: Journal)
    requires j.bindings != []
    ensures var undo := j.bindings[|j.bindings| - 1];
            UndoReads(j, |j.bindings| - 1)
            == Journal(Resourced(j.graph, undo.receive, undo.previous), j.appended, j.bindings[..|j.bindings| - 1])
  {
    var last := |j.bindings| - 1;
    var k := Journal(j.graph.(rf := RestoreRead(j.graph.rf, j.bindings[last])), j.appended, j.bindings[..last]);
    assert UndoReads(k, last) == k;
  }

  lemma UndoReadsAll(j: Journal)
    ensures UndoReads(j, |j.bindings|) == j
  {
  }

  lemma UndoAppendsAll(j: Journal)
    requires Sound(j)
    ensures UndoAppends(j, j.appended) == j
  {
  }

  lemma UndoAppendsTwice(j: Journal, n: nat, k: nat)
    requires Sound(j) && k <= n <= j.appended
    ensures UndoAppends(UndoAppends(j, n), k) == UndoAppends(j, k)
  {
  }

  // ----- what a rollback may drop -----

  /** Some entry names a send from position `m` on. */
  ghost predicate StillRead(g: Graph, m: nat)
  {
    exists s: nat :: m <= s && IsSend(g, s) && Named(g, s)
  }

  lemma NoneStillRead(g: Graph, m: nat)
    requires |g.events| <= m
    ensures !StillRead(g, m)
  {
  }

  lemma NamedIgnoresEvents(g: Graph, h: Graph, id: nat)
    requires g.rf == h.rf
    ensures Named(g, id) == Named(h, id)
  {
  }

  datatype RollbackOutcome = Done | Refused | Failed

  /** Going back to the mark would drop a send that is read even there. */
  ghost predicate DropsRead(mark: Mark, j: Journal)
    requires Sound(j) && MarkLe(mark, MarkOf(j))
  {
    StillRead(UndoReads(j, mark.bindings).graph, |Undo(j, mark).graph.events|)
  }

  lemma DescribedIsUnread(at: Checkpoint, j: Journal)
    requires Sound(j) && MarkLe(at.mark, MarkOf(j)) && Describes(at, j)
    ensures !DropsRead(at.mark, j)
  {
    TidyIsUnread(UndoReads(j, at.mark.bindings).graph, Undo(j, at.mark).graph);
  }

  lemma TidyAppended(j: Journal, t: ThreadId, op: Label)
    requires Tidy(j)
    ensures Tidy(Append(j, t, op)) && !Named(j.graph, |j.graph.events|)
  {
    TidyMoreEvents(j, Append(j, t, op));
  }

  lemma TidyIsUnread(g: Graph, h: Graph)
    requires |h.events| <= |g.events| && g.rf == h.rf && forall r :: r in h.rf ==> Inside(h, h.rf[r])
    ensures !StillRead(g, |h.events|)
  {
  }

  lemma StillReadDropped(g: Graph, m: nat)
    requires m < |g.events|
    ensures var n := |g.events| - 1;
            var h := g.(events := g.events[..n]);
            StillRead(g, m) <==> (IsSend(g, n) && Named(g, n)) || StillRead(h, m)
  {
    var n := |g.events| - 1;
    var h := g.(events := g.events[..n]);
    forall s: nat | s < n ensures IsSend(h, s) == IsSend(g, s) && Named(h, s) == Named(g, s) {}
  }

  /** An entry that names a send before it exists, whatever the distance: the tables are right until that send is
      appended, and from then on it passes for unread although it is read. */
  lemma EarlySourceIsMissed(g: Graph, counts: seq<nat>, unread: seq<bool>, r: nat, added: seq<Event>)
    requires CountsFor(g, counts, unread) && added != [] && added[|added| - 1].op.Send?
    requires Reads(g, r, |g.events| + |added| - 1) && forall q :: q in g.rf && q != r ==> Inside(g, g.rf[q])
    ensures forall k :: 0 <= k < |added| ==> FollowsAppends(g, counts, unread, added[..k])
    ensures !FollowsAppends(g, counts, unread, added)
    ensures var e := |g.events| + |added| - 1;
            Reads(Appended(g, added), r, e) && |unread| == |g.events| && (unread + SendFlags(added))[e]
  {
    hide FollowsAppends;
    var n := |g.events|;
    forall k | 0 <= k < |added| ensures FollowsAppends(g, counts, unread, added[..k]) {
      EarlySourcesAreMissed(g, added[..k], counts, unread);
    }
    EarlySourcesAreMissed(g, added, counts, unread);
    assert Named(g, n + (|added| - 1));
  }
}
