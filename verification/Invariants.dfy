/** Every graph the engine extends is consistent, replay-valid and well shaped, although most children
    are entered without a consistency check. */
module Invariants {
  import opened Optional
  import opened Events
  import opened Reachability
  import opened Consistency
  import opened Subgraphs
  import opened Replay
  import opened Revisits
  import opened Engine

  ghost predicate Good(cfg: Config, g: Graph)
  {
    Consistent(g, cfg.model) && ReplayValid(cfg.program, g) && Shaped(cfg.program, g)
  }

  lemma GoodParts(cfg: Config, g: Graph)
    requires Good(cfg, g)
    ensures WellFormed(g) && ReadsTotal(g) && CausallyAcyclic(g) && ReplayValid(cfg.program, g)
    ensures Shaped(cfg.program, g) && (cfg.model.FifoP2P? ==> FifoClauseB(g) && FifoClauseC(g))
  {
  }

  /** What holds of a queued child: only the FIFO clauses of a guarded one are still open. */
  ghost predicate Pending(cfg: Config, task: Task)
  {
    && Consistent(task.graph, Async)
    && (!task.guarded ==> Consistent(task.graph, cfg.model))
    && ReplayValid(cfg.program, task.graph) && Shaped(cfg.program, task.graph)
  }

  ghost predicate AllPending(cfg: Config, tasks: seq<Task>)
  {
    forall i :: 0 <= i < |tasks| ==> Pending(cfg, tasks[i])
  }

  lemma AllPendingConcat(cfg: Config, a: seq<Task>, b: seq<Task>)
    requires AllPending(cfg, a) && AllPending(cfg, b)
    ensures AllPending(cfg, a + b)
  {
  }

  // ----- appending -----

  lemma AsyncPart(g: Graph, m: CommunicationModel)
    requires Consistent(g, m)
    ensures Consistent(g, Async) && WellFormed(g)
  {
  }

  lemma AppendWellFormed(g: Graph, t: ThreadId, op: Label)
    requires WellFormed(g)
    ensures WellFormed(AddEvent(g, t, op))
  {
    var h := AddEvent(g, t, op);
    forall r | r in h.rf
      ensures GoodRead(h, r)
    {
      assert GoodRead(g, r);
    }
  }

  lemma AppendEdges(g: Graph, t: ThreadId, op: Label, x: nat, y: nat)
    requires WellFormed(g) && PorfEdge(AddEvent(g, t, op), x, y)
    ensures PorfEdge(g, x, y) || (y == |g.events| && x < y)
  {
    if y in g.rf { assert GoodRead(g, y); }
  }

  lemma AppendAcyclic(g: Graph, t: ThreadId, op: Label)
    requires WellFormed(g) && CausallyAcyclic(g)
    ensures CausallyAcyclic(AddEvent(g, t, op))
  {
    var h, n := AddEvent(g, t, op), |g.events|;
    forall a: nat
      ensures !Reach(PorfEdges(h), a, a)
    {
      if Porf(h, a, a) {
        var k: nat :| ReachIn(PorfEdges(h), k, a, a);
        AppendPath(g, t, op, k, a, a);
        assert false;
      }
    }
  }

  /** No path leaves a freshly appended event. */
  lemma {:induction false} AppendPath(g: Graph, t: ThreadId, op: Label, k: nat, a: nat, b: nat)
    requires WellFormed(g) && ReachIn(PorfEdges(AddEvent(g, t, op)), k, a, b)
    ensures a < |g.events|
    ensures b < |g.events| ==> Porf(g, a, b)
    decreases k
  {
    var h := AddEvent(g, t, op);
    if k == 0 {
      AppendEdges(g, t, op, a, b);
      if b < |g.events| { PorfStep(g, a, b); }
    } else {
      var c: nat :| (a, c) in PorfEdges(h) && ReachIn(PorfEdges(h), k - 1, c, b);
      AppendPath(g, t, op, k - 1, c, b);
      AppendEdges(g, t, op, a, c);
      PorfStep(g, a, c);
      if b < |g.events| { PorfTransitive(g, a, c, b); }
    }
  }

  /** A fresh unread event cannot break a FIFO clause: (b) needs a channel successor that is read, (c) needs
      reads at the send. */
  lemma AppendClauses(g: Graph, t: ThreadId, op: Label, m: CommunicationModel)
    requires WellFormed(g) && ModelClauses(g, m)
    ensures ModelClauses(AddEvent(g, t, op), m)
  {
    var h := AddEvent(g, t, op);
    if m.FifoP2P? {
      forall early: nat, late: nat, r: nat
        ensures !SkipsUnread(h, early, late, r)
      {
        if SkipsUnread(h, early, late, r) {
          assert GoodRead(g, r);
          assert SkipsUnread(g, early, late, r);
        }
      }
      forall early: nat, late: nat, r: nat, q: nat
        ensures !Overtakes(h, early, late, r, q)
      {
        if Overtakes(h, early, late, r, q) {
          assert GoodRead(g, r) && GoodRead(g, q);
          assert Overtakes(g, early, late, r, q);
        }
      }
    }
  }

  /** Appending a choice, send or Block keeps a graph consistent under either model. */
  lemma AppendConsistent(g: Graph, t: ThreadId, op: Label, m: CommunicationModel)
    requires Consistent(g, m) && !op.Receive?
    ensures Consistent(AddEvent(g, t, op), m)
  {
    AppendWellFormed(g, t, op);
    AppendAcyclic(g, t, op);
    AppendClauses(g, t, op, m);
    var h := AddEvent(g, t, op);
    forall r | 0 <= r < |h.events| && IsReceive(h, r)
      ensures r in h.rf
    {
      assert IsReceive(g, r);
    }
  }

  lemma AddReceiveAsyncConsistent(g: Graph, t: ThreadId, op: Label, source: Source)
    requires Consistent(g, Async) && op.Receive?
    requires match source case Bottom => !op.blocking case From(s) => CompatibleUnread(g, t, op, s)
    ensures Consistent(AddReceive(g, t, op, source), Async)
  {
    var h, c, n := AddEvent(g, t, op), AddReceive(g, t, op, source), |g.events|;
    AppendWellFormed(g, t, op);
    AppendAcyclic(g, t, op);
    forall r | r in c.rf
      ensures GoodRead(c, r)
    {
      if r != n { assert GoodRead(h, r); }
    }
    NoReadBeyond(g);
    forall r | 0 <= r < |c.events| && IsReceive(c, r)
      ensures r in c.rf
    {
      if r < n { assert IsReceive(g, r); }
    }
    forall y: nat ensures (n, y) !in PorfEdges(c) {
      if y in g.rf { assert GoodRead(g, y); }
    }
    EdgesIntoSink(PorfEdges(h), PorfEdges(c), n);
  }

  // ----- children are pending -----

  lemma AppendPending(cfg: Config, g: Graph, t: ThreadId, op: Label)
    requires Good(cfg, g) && !op.Receive? && !op.Error? && !Terminated(g, t)
    requires cfg.program.first <= t < cfg.program.first + cfg.program.count
    requires Conforms(op, cfg.program.next(t, Trace(g, t), Steps(g, t)))
    ensures Pending(cfg, Task(AddEvent(g, t, op), false))
  {
    var h := AddEvent(g, t, op);
    AppendConsistent(g, t, op, cfg.model);
    WellFormedEndpoints(g);
    AppendKeepsReplay(cfg.program, g, h);
    AppendKeepsShape(cfg.program, g, h);
  }

  lemma ReceivePending(cfg: Config, g: Graph, t: ThreadId, op: Label, source: Source)
    requires Good(cfg, g) && op.Receive? && !Terminated(g, t)
    requires cfg.program.first <= t < cfg.program.first + cfg.program.count
    requires cfg.program.next(t, Trace(g, t), Steps(g, t)) == Some(op)
    requires match source case Bottom => !op.blocking case From(s) => CompatibleUnread(g, t, op, s)
    ensures Pending(cfg, Task(AddReceive(g, t, op, source), true))
  {
    hide Consistent, Trace, Steps, Terminated, CompatibleUnread;
    var c := AddReceive(g, t, op, source);
    AsyncPart(g, cfg.model);
    AddReceiveAsyncConsistent(g, t, op, source);
    WellFormedEndpoints(g);
    NoReadBeyond(g);
    AppendKeepsReplay(cfg.program, g, c);
    AppendKeepsShape(cfg.program, g, c);
  }

  lemma RevisitPending(cfg: Config, g: Graph, recv: nat, s: nat)
    requires Good(cfg, g) && FreshRevisit(g, recv, s, cfg.model)
    ensures Pending(cfg, Task(RevisitChild(g, recv, s), true))
  {
    RevisitChildIsAsyncConsistent(g, recv, s, cfg.model);
    RevisitChildReplays(cfg.program, g, recv, s, cfg.model);
    RevisitChildKeepsShape(cfg.program, g, recv, s);
  }

  /** The receives a fresh send is addressed to. */
  ghost predicate Addressed(g: Graph, s: nat, receives: seq<nat>)
    requires IsSend(g, s)
  {
    forall i :: 0 <= i < |receives| ==>
      IsReceive(g, receives[i]) && g.events[receives[i]].thread == g.events[s].op.destination
  }

  lemma FirstRevisitPending(cfg: Config, g: Graph, s: nat, recv: nat)
    requires Good(cfg, g) && s + 1 == |g.events| && Unread(g, s) && Addressed(g, s, [recv])
    requires RevisitAllowed(g, recv, s, cfg.model)
    ensures AllPending(cfg, [Task(RevisitChild(g, recv, s), true)])
  {
    assert IsReceive(g, [recv][0]);
    RevisitPending(cfg, g, recv, s);
  }

  lemma {:induction false} RevisitTasksPending(cfg: Config, g: Graph, s: nat, receives: seq<nat>)
    requires Good(cfg, g) && s + 1 == |g.events| && Unread(g, s) && Addressed(g, s, receives)
    ensures AllPending(cfg, RevisitTasks(g, s, cfg.model, receives))
    decreases |receives|
  {
    hide Good, Pending, RevisitAllowed, RevisitChild;
    if receives != [] {
      var rest := RevisitTasks(g, s, cfg.model, receives[1..]);
      RevisitTasksPending(cfg, g, s, receives[1..]);
      if RevisitAllowed(g, receives[0], s, cfg.model) {
        FirstRevisitPending(cfg, g, s, receives[0]);
        AllPendingConcat(cfg, [Task(RevisitChild(g, receives[0], s), true)], rest);
      } else {
        assert [] + rest == rest;
      }
    }
  }

  lemma FreshSendIsUnread(g: Graph, t: ThreadId, op: Label)
    requires WellFormed(g) && op.Send?
    ensures Unread(AddEvent(g, t, op), |g.events|)
  {
    forall r | r in g.rf
      ensures g.rf[r] != From(|g.events|)
    {
      assert GoodRead(g, r);
    }
  }

  lemma SendPending(cfg: Config, g: Graph, t: ThreadId, op: Label)
    requires Good(cfg, g) && op.Send? && EngineStep(cfg, g, t, op)
    ensures Good(cfg, AddEvent(g, t, op)) && Unread(AddEvent(g, t, op), |g.events|)
    ensures AllPending(cfg, [Task(AddEvent(g, t, op), false)])
  {
    AppendPending(cfg, g, t, op);
    FreshSendIsUnread(g, t, op);
  }

  lemma SendTasksPending(cfg: Config, g: Graph, t: ThreadId, op: Label)
    requires Good(cfg, g) && op.Send? && EngineStep(cfg, g, t, op)
    ensures AllPending(cfg, SendTasks(g, t, op, cfg.model))
  {
    hide Good, Pending, AllPending, EngineStep;
    var h, s := AddEvent(g, t, op), |g.events|;
    SendPending(cfg, g, t, op);
    var receives := DestinationReceives(h, s);
    RevisitTasksPending(cfg, h, s, receives);
    AllPendingConcat(cfg, RevisitTasks(h, s, cfg.model, receives), [Task(h, false)]);
  }

  lemma ChoiceTasksPending(cfg: Config, g: Graph, t: ThreadId, op: Label)
    requires Good(cfg, g) && op.Choice? && op.choices != [] && EngineStep(cfg, g, t, op)
    ensures AllPending(cfg, ChoiceTasks(g, t, Distinct(op.choices), Distinct(op.choices)))
  {
    var values := Distinct(op.choices);
    forall i | 0 <= i < |values|
      ensures Pending(cfg, Task(AddEvent(g, t, Choice(values[i], values)), false))
    {
      assert values[i] in op.choices;
      AppendPending(cfg, g, t, Choice(values[i], values));
    }
  }

  lemma ReceiveTasksPending(cfg: Config, g: Graph, t: ThreadId, op: Label)
    requires Good(cfg, g) && op.Receive? && EngineStep(cfg, g, t, op)
    ensures AllPending(cfg, SourceTasks(g, t, op, CompatibleSends(g, t, op)) + BottomTasks(g, t, op, !op.blocking))
  {
    var sends := CompatibleSends(g, t, op);
    forall i | 0 <= i < |sends|
      ensures Pending(cfg, Task(AddReceive(g, t, op, From(sends[i])), true))
    {
      assert sends[i] in sends;
      ReceivePending(cfg, g, t, op, From(sends[i]));
    }
    if !op.blocking {
      ReceivePending(cfg, g, t, op, Bottom);
    }
    AllPendingConcat(cfg, SourceTasks(g, t, op, sends), BottomTasks(g, t, op, !op.blocking));
  }

  /** Every child of a good graph is pending. */
  lemma ChildrenPending(cfg: Config, g: Graph, t: ThreadId, op: Label)
    requires Good(cfg, g) && EngineStep(cfg, g, t, op) && ValidProgram(cfg.program)
    ensures AllPending(cfg, Children(cfg, g, t, op))
  {
    match op
    case Choice(_, choices) =>
      if choices == [] { AppendPending(cfg, g, t, op); } else { ChoiceTasksPending(cfg, g, t, op); }
    case Receive(_, _) => ReceiveTasksPending(cfg, g, t, op);
    case Send(_, _) => SendTasksPending(cfg, g, t, op);
    case Block => AppendPending(cfg, g, t, op);
    case Error(_) =>
  }

  // ----- rescheduling -----

  lemma AllButBlockIsClosed(p: Program, g: Graph, b: nat)
    requires Shaped(p, g) && WellFormed(g) && IsBlock(g, b)
    ensures PrefixClosed(g, KeptIds(AllBut(|g.events|, b))) && ReadClosed(g, KeptIds(AllBut(|g.events|, b)))
  {
    var f := KeptIds(AllBut(|g.events|, b));
    forall x: nat, y: nat | Po(g, x, y) && y in f
      ensures x in f
    {
      assert !Po(g, b, y);
    }
    forall r | r in f && r in g.rf && g.rf[r].From?
      ensures g.rf[r].send in f
    {
      assert GoodRead(g, r);
    }
  }

  lemma DroppedIsSubgraph(g: Graph, b: nat)
    ensures Subgraph(DropEvent(g, b), g, KeptIds(AllBut(|g.events|, b)))
  {
    hide Subgraph;
    RestrictIsSubgraph(g, AllBut(|g.events|, b));
  }

  /** Removing a thread's trailing Block event keeps a graph good. */
  lemma DropBlockGood(cfg: Config, g: Graph, b: nat)
    requires Good(cfg, g) && IsBlock(g, b)
    ensures Good(cfg, DropEvent(g, b))
  {
    hide PrefixClosed, ReadClosed, Subgraph, ReplayValid, Shaped, WellFormed, CausallyAcyclic, ModelClauses, ReadsTotal;
    var keep := AllBut(|g.events|, b);
    var h, f := DropEvent(g, b), KeptIds(keep);
    RestrictIsSubgraph(g, keep);
    AllButBlockIsClosed(cfg.program, g, b);
    CausalCopyIsConsistent(h, g, f, cfg.model);
    CausalCopyReplays(cfg.program, h, g, f);
    CopyKeepsShape(cfg.program, h, g, f);
  }

  lemma {:induction false} TailOfThread(p: Program, g: Graph, b: nat, n: nat)
    requires Shaped(p, g) && IsBlock(g, b) && b < n <= |g.events|
    ensures ThreadIds(g, g.events[b].thread, n) == ThreadIds(g, g.events[b].thread, b) + [b]
    decreases n
  {
    if n > b + 1 {
      assert !Po(g, b, n - 1);
      TailOfThread(p, g, b, n - 1);
    }
  }

  lemma EmitsAllSnoc(g: Graph, ids: seq<nat>, id: nat)
    requires id < |g.events| && forall i :: 0 <= i < |ids| ==> ids[i] < |g.events|
    ensures EmitsAll(g, ids + [id]) == EmitsAll(g, ids) + Emits(g, id)
  {
    assert (ids + [id])[..|ids|] == ids;
  }

  /** A blocked thread, asked again without its Block event, gives the answer that blocked it. */
  lemma BlockedAnswer(p: Program, g: Graph, b: nat)
    requires ReplayValid(p, g) && Shaped(p, g) && IsBlock(g, b)
    ensures var t := g.events[b].thread;
            && Trace(g, t) == TraceUpTo(g, t, b) && Steps(g, t) == StepsUpTo(g, t, b) + 1
            && WaitsOnReceive(p.next(t, Trace(g, t), Steps(g, t) - 1))
  {
    hide ThreadIds, EmitsAll, Shaped;
    var t := g.events[b].thread;
    TailOfThread(p, g, b, |g.events|);
    EmitsAllSnoc(g, ThreadIds(g, t, b), b);
    assert Conforms(g.events[b].op, Answer(p, g, b));
  }

  ghost predicate WaitsOnReceive(answer: Option<Label>)
  {
    answer.Some? && answer.value.Receive? && answer.value.blocking
  }

  /** A thread at a Block event has no compatible unread send for the receive it waits on. */
  ghost predicate Stuck(p: Program, g: Graph, t: ThreadId)
  {
    forall b: nat :: IsBlock(g, b) && g.events[b].thread == t ==> StuckAt(p, g, b)
  }

  ghost predicate StuckAt(p: Program, g: Graph, b: nat)
    requires IsBlock(g, b)
  {
    var answer := Answer(p, g, b);
    WaitsOnReceive(answer) && CompatibleSends(g, g.events[b].thread, answer.value) == []
  }

  lemma OneBlockPerThread(p: Program, g: Graph, b: nat, c: nat)
    requires Shaped(p, g) && IsBlock(g, b) && IsBlock(g, c) && g.events[b].thread == g.events[c].thread
    ensures b == c
  {
    assert !Po(g, b, c) && !Po(g, c, b);
  }

  lemma BlockStuck(cfg: Config, g: Graph, b: nat)
    requires Good(cfg, g) && IsBlock(g, b) && StuckAt(cfg.program, g, b)
    ensures Stuck(cfg.program, g, g.events[b].thread)
  {
    hide StuckAt;
    forall c: nat | IsBlock(g, c) && g.events[c].thread == g.events[b].thread
      ensures StuckAt(cfg.program, g, c)
    {
      OneBlockPerThread(cfg.program, g, b, c);
    }
  }

  lemma UnblockedStuck(p: Program, g: Graph, t: ThreadId)
    requires Shaped(p, g) && (LastEvent(g, t).None? || !IsBlock(g, LastEvent(g, t).value))
    ensures Stuck(p, g, t)
  {
    hide StuckAt;
    if b: nat :| IsBlock(g, b) && g.events[b].thread == t {
      BlockTerminates(p, g, b);
      assert false;
    }
  }

  /** The thread's trailing Block event, if it has one. */
  ghost function TrailingBlock(g: Graph, t: ThreadId): Option<nat>
  {
    if LastEvent(g, t).Some? && IsBlock(g, LastEvent(g, t).value) then LastEvent(g, t) else None
  }

  lemma RescheduleUnfold(p: Program, g: Graph, t: ThreadId)
    requires p.first <= t < p.first + p.count
    ensures TrailingBlock(g, t).None? ==> RescheduleFrom(p, g, t) == RescheduleFrom(p, g, t + 1)
    ensures TrailingBlock(g, t).Some? && Steps(g, t) > 0 ==>
              var answer := p.next(t, Trace(g, t), Steps(g, t) - 1);
              WaitsOnReceive(answer) ==>
                RescheduleFrom(p, g, t) == if CompatibleSends(g, t, answer.value) == [] then RescheduleFrom(p, g, t + 1)
                                           else Ready(DropEvent(g, TrailingBlock(g, t).value))
  {
    hide DropEvent, CompatibleSends, Trace;
  }

  lemma TrailingBlockOfThread(g: Graph, t: ThreadId)
    requires TrailingBlock(g, t).Some?
    ensures g.events[TrailingBlock(g, t).value].thread == t
  {
  }

  lemma RescheduleStep(cfg: Config, g: Graph, t: ThreadId)
    requires Good(cfg, g) && cfg.program.first <= t < cfg.program.first + cfg.program.count
    ensures var r := RescheduleFrom(cfg.program, g, t);
            || (r.Ready? && Good(cfg, r.graph))
            || (r == RescheduleFrom(cfg.program, g, t + 1) && Stuck(cfg.program, g, t))
  {
    hide Stuck, Consistent, ReplayValid, Shaped, RescheduleFrom, DropEvent, CompatibleSends, ThreadIds, Trace;
    RescheduleUnfold(cfg.program, g, t);
    var b := TrailingBlock(g, t);
    if b.Some? {
      TrailingBlockOfThread(g, t);
      BlockedAnswer(cfg.program, g, b.value);
      DropBlockGood(cfg, g, b.value);
      if CompatibleSends(g, t, cfg.program.next(t, Trace(g, t), Steps(g, t) - 1).value) == [] {
        BlockStuck(cfg, g, b.value);
      }
    } else {
      UnblockedStuck(cfg.program, g, t);
    }
  }

  lemma {:induction false} RescheduleFromGood(cfg: Config, g: Graph, t: ThreadId)
    requires Good(cfg, g) && cfg.program.first <= t <= cfg.program.first + cfg.program.count
    ensures var r := RescheduleFrom(cfg.program, g, t);
            && !r.Violation?
            && (r.Ready? ==> Good(cfg, r.graph))
            && (r.NoneReady? ==>
                  forall u :: t <= u < cfg.program.first + cfg.program.count ==> Stuck(cfg.program, g, u))
    decreases cfg.program.first + cfg.program.count - t
  {
    hide Good, Stuck, DropEvent, CompatibleSends, Trace, Steps, LastEvent, IsBlock;
    if t < cfg.program.first + cfg.program.count {
      RescheduleStep(cfg, g, t);
      RescheduleFromGood(cfg, g, t + 1);
    }
  }

  /** The thread woken is the first that can be: its receive has a compatible unread send, no earlier thread's has. */
  lemma {:induction false} RescheduleIsFirst(cfg: Config, g: Graph, from: ThreadId) returns (t: ThreadId)
    requires Good(cfg, g) && cfg.program.first <= from <= cfg.program.first + cfg.program.count
    requires RescheduleFrom(cfg.program, g, from).Ready?
    ensures from <= t < cfg.program.first + cfg.program.count && TrailingBlock(g, t).Some?
    ensures RescheduleFrom(cfg.program, g, from).graph == DropEvent(g, TrailingBlock(g, t).value)
    ensures !Stuck(cfg.program, g, t) && forall u :: from <= u < t ==> Stuck(cfg.program, g, u)
    decreases cfg.program.first + cfg.program.count - from
  {
    hide Good, Stuck, DropEvent, CompatibleSends, Trace, LastEvent, IsBlock, TrailingBlock, RescheduleFrom;
    EndOfReschedule(cfg.program, g, from);
    if Stuck(cfg.program, g, from) {
      StuckIsPassed(cfg, g, from);
      t := RescheduleIsFirst(cfg, g, from + 1);
    } else {
      t := from;
      UnstuckIsWoken(cfg, g, from);
    }
  }

  lemma EndOfReschedule(p: Program, g: Graph, t: ThreadId)
    requires p.first <= t <= p.first + p.count && RescheduleFrom(p, g, t).Ready?
    ensures t < p.first + p.count
  {
    hide DropEvent, CompatibleSends, Trace, Steps, LastEvent;
  }

  lemma UnstuckIsWoken(cfg: Config, g: Graph, t: ThreadId)
    requires Good(cfg, g) && cfg.program.first <= t < cfg.program.first + cfg.program.count
    requires !Stuck(cfg.program, g, t)
    ensures TrailingBlock(g, t).Some?
    ensures RescheduleFrom(cfg.program, g, t) == Ready(DropEvent(g, TrailingBlock(g, t).value))
  {
    hide Stuck, Consistent, ReplayValid, Shaped, RescheduleFrom, DropEvent, CompatibleSends, ThreadIds, Trace;
    RescheduleUnfold(cfg.program, g, t);
    var b := TrailingBlock(g, t);
    if b.None? {
      UnblockedStuck(cfg.program, g, t);
    } else {
      TrailingBlockOfThread(g, t);
      BlockedAnswer(cfg.program, g, b.value);
      if CompatibleSends(g, t, cfg.program.next(t, Trace(g, t), Steps(g, t) - 1).value) == [] {
        BlockStuck(cfg, g, b.value);
      }
    }
  }

  lemma StuckIsPassed(cfg: Config, g: Graph, t: ThreadId)
    requires Good(cfg, g) && cfg.program.first <= t < cfg.program.first + cfg.program.count
    requires Stuck(cfg.program, g, t)
    ensures RescheduleFrom(cfg.program, g, t) == RescheduleFrom(cfg.program, g, t + 1)
  {
    hide Consistent, ReplayValid, Shaped, RescheduleFrom, DropEvent, CompatibleSends, ThreadIds, Trace;
    RescheduleUnfold(cfg.program, g, t);
    var b := TrailingBlock(g, t);
    if b.Some? {
      TrailingBlockOfThread(g, t);
      BlockedAnswer(cfg.program, g, b.value);
      assert StuckAt(cfg.program, g, b.value);
    }
  }

  // ----- the published executions -----

  ghost predicate InProgram(p: Program, t: ThreadId)
  {
    p.first <= t < p.first + p.count
  }

  /** All but the last event. */
  ghost function Front(g: Graph): Graph
    requires |g.events| > 0
  {
    g.(events := g.events[..|g.events| - 1])
  }

  /** The last event is an error a live thread answered with in a good graph. */
  ghost predicate ErrorStep(cfg: Config, g: Graph)
  {
    && |g.events| > 0 && g.events[|g.events| - 1].op.Error?
    && Good(cfg, Front(g))
    && EngineStep(cfg, Front(g), g.events[|g.events| - 1].thread, g.events[|g.events| - 1].op)
  }

  /** What a published execution of each kind is. */
  ghost predicate TerminalSound(cfg: Config, e: Terminal)
  {
    match e.kind
    case Full =>
      && Good(cfg, e.graph)
      && forall t :: InProgram(cfg.program, t) ==>
           !Terminated(e.graph, t) && cfg.program.next(t, Trace(e.graph, t), Steps(e.graph, t)) == None
    case Blocked =>
      && Good(cfg, e.graph) && HasBlockedThread(e.graph)
      && forall t :: InProgram(cfg.program, t) ==>
           && Stuck(cfg.program, e.graph, t)
           && (Terminated(e.graph, t) || cfg.program.next(t, Trace(e.graph, t), Steps(e.graph, t)) == None)
    case ErrorFound =>
      Consistent(e.graph, cfg.model) && ReplayValid(cfg.program, e.graph)
      && ErrorStep(cfg, e.graph)
    case DepthLimit => Good(cfg, e.graph)
    case ThreadEventLimit =>
      Good(cfg, e.graph) && exists t :: InProgram(cfg.program, t) && Capped(cfg, e.graph, t)
  }

  lemma UnsuppressedAllIdle(cfg: Config, g: Graph, t: ThreadId)
    requires NextEvent(cfg, g) == NoNext(false) && InProgram(cfg.program, t)
    ensures Terminated(g, t) || cfg.program.next(t, Trace(g, t), Steps(g, t)) == None
  {
    hide Terminated, AtCap, Trace, Steps, NextFrom;
    NextIsFirstReady(cfg, g, cfg.program.first, false);
    SuppressedMeansCapped(cfg, g, cfg.program.first, false);
    assert Idle(cfg, g, t) && !Capped(cfg, g, t);
  }

  lemma MaximalSound(cfg: Config, g: Graph)
    requires Good(cfg, g) && NextEvent(cfg, g).NoNext? && Reschedule(cfg.program, g).NoneReady?
    ensures TerminalSound(cfg, Terminal(g, MaximalKind(g, NextEvent(cfg, g).suppressed)))
  {
    hide Stuck, Terminated, Consistent, ReplayValid, NextFrom, RescheduleFrom, Trace, Steps, HasBlockedThread,
         NextEvent, Capped;
    RescheduleFromGood(cfg, g, cfg.program.first);
    NextSuppressedCapped(cfg, g);
    if NextEvent(cfg, g) == NoNext(false) {
      forall t | InProgram(cfg.program, t)
        ensures Terminated(g, t) || cfg.program.next(t, Trace(g, t), Steps(g, t)) == None
        ensures !HasBlockedThread(g) ==> !Terminated(g, t)
      {
        UnsuppressedAllIdle(cfg, g, t);
        if !HasBlockedThread(g) { UnblockedNotTerminated(cfg.program, g, t); }
      }
    }
  }

  lemma NextSuppressedCapped(cfg: Config, g: Graph)
    ensures NextEvent(cfg, g) == NoNext(true) ==> exists t :: InProgram(cfg.program, t) && Capped(cfg, g, t)
  {
    hide Capped, NextFrom;
    SuppressedMeansCapped(cfg, g, cfg.program.first, false);
    if t :| cfg.program.first <= t < cfg.program.first + cfg.program.count && Capped(cfg, g, t) {
      assert InProgram(cfg.program, t);
    }
  }

  lemma UnblockedNotTerminated(p: Program, g: Graph, t: ThreadId)
    requires Shaped(p, g) && !HasBlockedThread(g)
    ensures !Terminated(g, t)
  {
    var last := LastEvent(g, t);
    if last.Some? && last.value < |g.events| {
      assert g.events[last.value].thread == t;
    }
  }

  lemma ErrorSound(cfg: Config, g: Graph, t: ThreadId, op: Label)
    requires Good(cfg, g) && EngineStep(cfg, g, t, op) && op.Error?
    ensures TerminalSound(cfg, Terminal(AddEvent(g, t, op), ErrorFound))
  {
    AppendConsistent(g, t, op, cfg.model);
    WellFormedEndpoints(g);
    AppendKeepsReplay(cfg.program, g, AddEvent(g, t, op));
    assert Front(AddEvent(g, t, op)) == g;
  }

  lemma PendingIsGood(cfg: Config, task: Task)
    requires Pending(cfg, task) && (task.guarded ==> Consistent(task.graph, cfg.model))
    ensures Good(cfg, task.graph)
  {
  }

  lemma GoodIsPending(cfg: Config, g: Graph)
    requires Good(cfg, g)
    ensures Pending(cfg, Task(g, false))
  {
  }

  lemma DepthLimitSound(cfg: Config, g: Graph)
    requires Good(cfg, g)
    ensures TerminalSound(cfg, Terminal(g, DepthLimit))
  {
  }

  lemma {:induction false} VisitSound(cfg: Config, g: Graph, depth: nat, guarded: bool)
    requires ValidProgram(cfg.program) && Pending(cfg, Task(g, guarded))
    ensures forall e :: e in Visit(cfg, g, depth, guarded) ==> TerminalSound(cfg, e)
    decreases cfg.maxDepth - depth, 0, |g.events|
  {
    hide Good, Pending, TerminalSound, Consistent, NextFrom, RescheduleFrom, Children, EngineStep, Idle;
    if guarded && !Consistent(g, cfg.model) {
      return;
    }
    PendingIsGood(cfg, Task(g, guarded));
    if depth >= cfg.maxDepth {
      DepthLimitSound(cfg, g);
    } else {
      match NextEvent(cfg, g)
      case NoNext(_) =>
        RescheduleFromGood(cfg, g, cfg.program.first);
        match Reschedule(cfg.program, g) {
          case NoneReady => MaximalSound(cfg, g);
          case Ready(h) =>
            GoodIsPending(cfg, h);
            VisitSound(cfg, h, depth, false);
        }
      case Next(t, op) =>
        NextIsFirstReady(cfg, g, cfg.program.first, false);
        if op.Error? {
          ErrorSound(cfg, g, t, op);
        } else {
          ChildrenPending(cfg, g, t, op);
          VisitAllSound(cfg, Children(cfg, g, t, op), depth + 1);
        }
    }
  }

  lemma {:induction false} VisitAllSound(cfg: Config, tasks: seq<Task>, depth: nat)
    requires ValidProgram(cfg.program)
    requires AllPending(cfg, tasks)
    ensures forall e :: e in VisitAll(cfg, tasks, depth) ==> TerminalSound(cfg, e)
    decreases cfg.maxDepth - depth, 1, |tasks|
  {
    if tasks != [] {
      VisitSound(cfg, tasks[0].graph, depth, tasks[0].guarded);
      VisitAllSound(cfg, tasks[1..], depth);
    }
  }

  lemma EmptyGraphPending(cfg: Config)
    ensures Pending(cfg, Task(EmptyGraph, false))
  {
    RankedIsAcyclic(PorfEdges(EmptyGraph), x => x);
  }

  /** Every execution `verify` publishes is what its kind says. */
  lemma ExecutionsSound(cfg: Config)
    requires ValidProgram(cfg.program)
    ensures forall e :: e in Executions(cfg) ==> TerminalSound(cfg, e)
  {
    EmptyGraphPending(cfg);
    VisitSound(cfg, EmptyGraph, 0, false);
  }
}
