/** Events, labels and execution graphs.

    A graph is the sequence of its events in insertion order (the position is the event id) and the
    reads-from assignment of its receives. Event ids ascend along program order within a thread. */
module Events {
  import opened Optional

  type ThreadId = nat

  /** Payloads. The engine only compares them, so any totally ordered type will do. */
  type Value = int

  /** What a thread learns from a receive or a nondeterministic choice. */
  datatype Observed = Seen(value: Value) | SeenBottom

  datatype Label =
    | Receive(blocking: bool, matches: Value -> bool)
    | Send(destination: ThreadId, value: Value)
    | Choice(chosen: Value, choices: seq<Value>)
    | Block
    | Error(message: string)

  datatype Event = Event(thread: ThreadId, op: Label)

  datatype Source = Bottom | From(send: nat)

  datatype Graph = Graph(events: seq<Event>, rf: map<nat, Source>)

  datatype CommunicationModel = Async | FifoP2P

  /** Thread functions are pure: the same trace and step always give the same answer. */
  datatype Program = Program(first: ThreadId, count: nat, next: (ThreadId, seq<Observed>, nat) -> Option<Label>)

  const EmptyGraph := Graph([], map[])

  predicate IsReceive(g: Graph, r: nat)
  {
    r < |g.events| && g.events[r].op.Receive?
  }

  predicate IsSend(g: Graph, s: nat)
  {
    s < |g.events| && g.events[s].op.Send?
  }

  predicate IsBlock(g: Graph, b: nat)
  {
    b < |g.events| && g.events[b].op.Block?
  }

  /** Program order: insertion order within one thread. */
  predicate Po(g: Graph, a: nat, b: nat)
  {
    a < b < |g.events| && g.events[a].thread == g.events[b].thread
  }

  predicate Reads(g: Graph, r: nat, s: nat)
  {
    r in g.rf && g.rf[r] == From(s)
  }

  /** Receive `r` would take the payload of send `s`. */
  predicate Accepts(g: Graph, r: nat, s: nat)
  {
    IsReceive(g, r) && IsSend(g, s) && g.events[r].op.matches(g.events[s].op.value)
  }

  predicate Unread(g: Graph, s: nat)
  {
    IsSend(g, s) && forall r :: r in g.rf ==> g.rf[r] != From(s)
  }

  /** A send that a receive of thread `t` with label `op` could consume now. */
  predicate CompatibleUnread(g: Graph, t: ThreadId, op: Label, s: nat)
  {
    && Unread(g, s)
    && g.events[s].op.destination == t
    && op.Receive?
    && op.matches(g.events[s].op.value)
  }

  function AddEvent(g: Graph, t: ThreadId, op: Label): Graph
  {
    g.(events := g.events + [Event(t, op)])
  }

  function SetSource(g: Graph, r: nat, source: Source): Graph
  {
    g.(rf := g.rf[r := source])
  }

  /** The ids below `n` of thread `t`, ascending. */
  function ThreadIds(g: Graph, t: ThreadId, n: nat): (ids: seq<nat>)
    requires n <= |g.events|
    ensures forall i :: 0 <= i < |ids| ==> ids[i] < n && g.events[ids[i]].thread == t
    ensures forall i, j :: 0 <= i < j < |ids| ==> ids[i] < ids[j]
  {
    if n == 0 then []
    else if g.events[n - 1].thread == t then ThreadIds(g, t, n - 1) + [n - 1]
    else ThreadIds(g, t, n - 1)
  }

  lemma {:induction false} ThreadIdsMember(g: Graph, t: ThreadId, n: nat, x: nat)
    requires n <= |g.events|
    ensures x in ThreadIds(g, t, n) <==> x < n && g.events[x].thread == t
    decreases n
  {
    if n > 0 {
      ThreadIdsMember(g, t, n - 1, x);
    }
  }

  /** The receives of thread `t` below `n`, ascending. */
  function ReceiveIds(g: Graph, t: ThreadId, n: nat): (ids: seq<nat>)
    requires n <= |g.events|
    ensures forall i :: 0 <= i < |ids| ==> ids[i] < n && IsReceive(g, ids[i]) && g.events[ids[i]].thread == t
  {
    if n == 0 then []
    else if g.events[n - 1].thread == t && IsReceive(g, n - 1) then ReceiveIds(g, t, n - 1) + [n - 1]
    else ReceiveIds(g, t, n - 1)
  }

  /** What event `id` adds to its thread's trace. */
  function Emits(g: Graph, id: nat): seq<Observed>
    requires id < |g.events|
  {
    match g.events[id].op
    case Receive(_, _) =>
      if id !in g.rf then []
      else if g.rf[id].Bottom? then [SeenBottom]
      else if IsSend(g, g.rf[id].send) then [Seen(g.events[g.rf[id].send].op.value)]
      else []
    case Choice(chosen, _) => [Seen(chosen)]
    case _ => []
  }

  function EmitsAll(g: Graph, ids: seq<nat>): seq<Observed>
    requires forall i :: 0 <= i < |ids| ==> ids[i] < |g.events|
  {
    if ids == [] then []
    else EmitsAll(g, ids[..|ids| - 1]) + Emits(g, ids[|ids| - 1])
  }

  /** The values thread `t` has observed through its events below `n`, in program order. */
  function TraceUpTo(g: Graph, t: ThreadId, n: nat): seq<Observed>
    requires n <= |g.events|
  {
    EmitsAll(g, ThreadIds(g, t, n))
  }

  function StepsUpTo(g: Graph, t: ThreadId, n: nat): nat
    requires n <= |g.events|
  {
    |ThreadIds(g, t, n)|
  }

  function Trace(g: Graph, t: ThreadId): seq<Observed>
  {
    TraceUpTo(g, t, |g.events|)
  }

  function Steps(g: Graph, t: ThreadId): nat
  {
    StepsUpTo(g, t, |g.events|)
  }

  function LastEvent(g: Graph, t: ThreadId): Option<nat>
  {
    var ids := ThreadIds(g, t, |g.events|);
    if ids == [] then None else Some(ids[|ids| - 1])
  }

  /** The thread's last event is a Block or an Error. */
  predicate Terminated(g: Graph, t: ThreadId)
  {
    match LastEvent(g, t)
    case None => false
    case Some(id) => id < |g.events| && (g.events[id].op.Block? || g.events[id].op.Error?)
  }

  /** The thread's last event: one of its own after which it has no other. */
  lemma LastIsLast(g: Graph, t: ThreadId, id: nat)
    ensures LastEvent(g, t) == Some(id) <==>
            id < |g.events| && g.events[id].thread == t && forall x: nat :: !Po(g, id, x)
    ensures LastEvent(g, t) == None <==> forall x: nat :: x < |g.events| ==> g.events[x].thread != t
  {
    var ids := ThreadIds(g, t, |g.events|);
    forall x: nat ensures x in ids <==> x < |g.events| && g.events[x].thread == t {
      ThreadIdsMember(g, t, |g.events|, x);
    }
    if ids != [] {
      var last := ids[|ids| - 1];
      forall x: nat ensures !Po(g, last, x) {
        if x in ids { var i :| 0 <= i < |ids| && ids[i] == x; }
      }
      assert last in ids;
      assert id < last && id in ids ==> Po(g, id, last);
    }
  }

  /** A terminated thread has come to a Block or an Error and done nothing since; no other thread is terminated. */
  lemma TerminatedMeans(g: Graph, t: ThreadId)
    ensures Terminated(g, t) <==>
            exists id: nat :: id < |g.events| && g.events[id].thread == t && (forall x: nat :: !Po(g, id, x))
                              && (g.events[id].op.Block? || g.events[id].op.Error?)
  {
    hide LastEvent;
    if Terminated(g, t) { LastIsLast(g, t, LastEvent(g, t).value); }
    if id: nat :| id < |g.events| && g.events[id].thread == t && (forall x: nat :: !Po(g, id, x))
                  && (g.events[id].op.Block? || g.events[id].op.Error?) {
      LastIsLast(g, t, id);
    }
  }

  predicate HasBlockedThread(g: Graph)
  {
    exists b :: 0 <= b < |g.events| && LastEvent(g, g.events[b].thread) == Some(b) && IsBlock(g, b)
  }
}
