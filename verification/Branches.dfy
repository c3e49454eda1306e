/** Going down the search tree: the graphs whose whole subtree is published, and the children each of them has. */
module Branches {
  import opened Optional
  import opened Events
  import opened Consistency
  import opened Replay
  import opened Revisits
  import opened Engine
  import opened Invariants
  import opened Oracle

  /** The search published complete executions only: no error was found and no bound was hit. */
  ghost predicate Unhindered(cfg: Config)
  {
    ValidProgram(cfg.program) && forall e :: e in Executions(cfg) ==> e.kind.Full? || e.kind.Blocked?
  }

  /** A graph the search extends: all that is found below it is published. */
  ghost predicate Below(cfg: Config, g: Graph, depth: nat)
  {
    Good(cfg, g) && forall e :: e in Visit(cfg, g, depth, false) ==> e in Executions(cfg)
  }

  lemma BelowStarts(cfg: Config)
    ensures Below(cfg, EmptyGraph, 0)
  {
    EmptyGraphPending(cfg);
    PendingIsGood(cfg, Task(EmptyGraph, false));
  }

  lemma {:induction false} VisitAllHas(cfg: Config, tasks: seq<Task>, depth: nat, i: nat)
    requires i < |tasks|
    ensures forall e :: e in Visit(cfg, tasks[i].graph, depth, tasks[i].guarded) ==> e in VisitAll(cfg, tasks, depth)
    decreases |tasks|
  {
    hide Visit;
    if i > 0 {
      VisitAllHas(cfg, tasks[1..], depth, i - 1);
      assert tasks[1..][i - 1] == tasks[i];
    }
  }

  lemma VisitNext(cfg: Config, g: Graph, depth: nat)
    requires depth < cfg.maxDepth && NextEvent(cfg, g).Next?
    ensures var t, op := NextEvent(cfg, g).thread, NextEvent(cfg, g).op;
            Visit(cfg, g, depth, false) ==
            if op.Error? then [Terminal(AddEvent(g, t, op), ErrorFound)]
            else VisitAll(cfg, Children(cfg, g, t, op), depth + 1)
  {
    hide NextFrom, Children, VisitAll;
  }

  lemma VisitLimit(cfg: Config, g: Graph, depth: nat)
    ensures depth >= cfg.maxDepth ==> Visit(cfg, g, depth, false) == [Terminal(g, DepthLimit)]
  {
  }

  lemma VisitRest(cfg: Config, g: Graph, depth: nat)
    requires depth < cfg.maxDepth && NextEvent(cfg, g).NoNext?
    ensures Reschedule(cfg.program, g).NoneReady? ==>
              Visit(cfg, g, depth, false) == [Terminal(g, MaximalKind(g, NextEvent(cfg, g).suppressed))]
    ensures Reschedule(cfg.program, g).Ready? ==>
              Visit(cfg, g, depth, false) == Visit(cfg, Reschedule(cfg.program, g).graph, depth, false)
  {
    hide NextFrom, RescheduleFrom, MaximalKind;
  }

  lemma VisitGuarded(cfg: Config, g: Graph, depth: nat, guarded: bool)
    requires Consistent(g, cfg.model)
    ensures Visit(cfg, g, depth, guarded) == Visit(cfg, g, depth, false)
  {
    hide NextFrom, Children, VisitAll, RescheduleFrom;
  }

  /** Nothing hinders the search at such a graph. */
  lemma BelowLive(cfg: Config, g: Graph, depth: nat)
    requires Unhindered(cfg) && Below(cfg, g, depth)
    ensures depth < cfg.maxDepth
    ensures NextEvent(cfg, g).Next? ==> !NextEvent(cfg, g).op.Error?
  {
    hide Good, ValidProgram, Visit;
    VisitLimit(cfg, g, depth);
    assert depth >= cfg.maxDepth ==> Terminal(g, DepthLimit) in Visit(cfg, g, depth, false);
    if NextEvent(cfg, g).Next? {
      VisitNext(cfg, g, depth);
      var found := Terminal(AddEvent(g, NextEvent(cfg, g).thread, NextEvent(cfg, g).op), ErrorFound);
      assert NextEvent(cfg, g).op.Error? ==> found in Visit(cfg, g, depth, false);
    }
  }

  /** So are its consistent children. */
  lemma BelowChild(cfg: Config, g: Graph, depth: nat, i: nat)
    requires Unhindered(cfg) && Below(cfg, g, depth) && NextEvent(cfg, g).Next?
    requires var tasks := Children(cfg, g, NextEvent(cfg, g).thread, NextEvent(cfg, g).op);
             i < |tasks| && Consistent(tasks[i].graph, cfg.model)
    ensures Below(cfg, Children(cfg, g, NextEvent(cfg, g).thread, NextEvent(cfg, g).op)[i].graph, depth + 1)
  {
    hide Visit, VisitAll, Children, NextEvent, Consistent, Good, Pending, EngineStep;
    var t, op := NextEvent(cfg, g).thread, NextEvent(cfg, g).op;
    var tasks := Children(cfg, g, t, op);
    BelowLive(cfg, g, depth);
    VisitNext(cfg, g, depth);
    VisitAllHas(cfg, tasks, depth + 1, i);
    VisitGuarded(cfg, tasks[i].graph, depth + 1, tasks[i].guarded);
    NextSteps(cfg, g);
    ChildrenPending(cfg, g, t, op);
    assert Pending(cfg, tasks[i]);
    PendingIsGood(cfg, tasks[i]);
  }

  lemma NextSteps(cfg: Config, g: Graph)
    requires NextEvent(cfg, g).Next?
    ensures EngineStep(cfg, g, NextEvent(cfg, g).thread, NextEvent(cfg, g).op)
  {
    hide NextFrom, EngineStep, Idle;
    NextIsFirstReady(cfg, g, cfg.program.first, false);
  }

  /** So is the graph in which a blocked thread was woken. */
  lemma BelowReady(cfg: Config, g: Graph, depth: nat)
    requires Unhindered(cfg) && Below(cfg, g, depth) && NextEvent(cfg, g).NoNext? && Reschedule(cfg.program, g).Ready?
    ensures Below(cfg, Reschedule(cfg.program, g).graph, depth)
  {
    hide Visit, NextEvent, Reschedule, Good, RescheduleFrom;
    BelowLive(cfg, g, depth);
    VisitRest(cfg, g, depth);
    RescheduleGood(cfg, g);
  }

  lemma RescheduleGood(cfg: Config, g: Graph)
    requires Good(cfg, g)
    ensures !Reschedule(cfg.program, g).Violation?
    ensures Reschedule(cfg.program, g).Ready? ==> Good(cfg, Reschedule(cfg.program, g).graph)
  {
    hide Good, RescheduleFrom, Stuck;
    RescheduleFromGood(cfg, g, cfg.program.first);
  }

  /** At the end of a branch the graph itself is published, with every thread done or stuck. */
  lemma BelowEnds(cfg: Config, g: Graph, depth: nat)
    requires Unhindered(cfg) && Below(cfg, g, depth)
    requires NextEvent(cfg, g).NoNext? && Reschedule(cfg.program, g).NoneReady?
    ensures Terminal(g, MaximalKind(g, false)) in Executions(cfg)
    ensures forall t :: InProgram(cfg.program, t) ==>
              && Stuck(cfg.program, g, t)
              && (Terminated(g, t) || cfg.program.next(t, Trace(g, t), Steps(g, t)) == None)
  {
    hide Visit, NextFrom, RescheduleFrom, Good, Stuck, Terminated, Trace, Steps, HasBlockedThread;
    BelowLive(cfg, g, depth);
    VisitRest(cfg, g, depth);
    var kind := MaximalKind(g, NextEvent(cfg, g).suppressed);
    assert Terminal(g, kind) in Visit(cfg, g, depth, false);
    RescheduleFromGood(cfg, g, cfg.program.first);
    forall t | InProgram(cfg.program, t)
      ensures Terminated(g, t) || cfg.program.next(t, Trace(g, t), Steps(g, t)) == None
    {
      UnsuppressedAllIdle(cfg, g, t);
    }
  }

  // ----- the children cover what the enumerator offers -----

  /** The same graph, up to the recorded alternatives of a choice. */
  ghost predicate SameButChoices(g: Graph, h: Graph)
  {
    && |g.events| == |h.events| && g.rf == h.rf
    && forall i :: 0 <= i < |g.events| ==>
         g.events[i].thread == h.events[i].thread
         && (g.events[i].op == h.events[i].op
             || (g.events[i].op.Choice? && h.events[i].op.Choice? && g.events[i].op.chosen == h.events[i].op.chosen))
  }

  /** Whatever the enumerator may do with the thread the engine has picked, some child does; an error is published. */
  lemma ChildrenCoverOffers(cfg: Config, g: Graph, depth: nat, tr: Transition)
    requires depth < cfg.maxDepth && NextEvent(cfg, g).Next? && NextEvent(cfg, g).thread == tr.thread
    requires Enabled(cfg.program, g, tr)
    ensures var op := NextEvent(cfg, g).op;
            if tr.op.Error? then Terminal(Apply(g, tr), ErrorFound) in Visit(cfg, g, depth, false)
            else exists i :: 0 <= i < |Children(cfg, g, tr.thread, op)|
                             && SameButChoices(Children(cfg, g, tr.thread, op)[i].graph, Apply(g, tr))
  {
    hide NextFrom, Visit, Trace, Steps, Terminated;
    NextSteps(cfg, g);
    VisitNext(cfg, g, depth);
    var t, op := tr.thread, NextEvent(cfg, g).op;
    if !tr.op.Error? {
      var i := ChildFor(cfg, g, t, op, tr);
      assert SameButChoices(Children(cfg, g, t, op)[i].graph, Apply(g, tr));
    }
  }

  lemma ChildFor(cfg: Config, g: Graph, t: ThreadId, op: Label, tr: Transition) returns (i: nat)
    requires EngineStep(cfg, g, t, op) && Enabled(cfg.program, g, tr) && tr.thread == t && !tr.op.Error?
    ensures i < |Children(cfg, g, t, op)| && SameButChoices(Children(cfg, g, t, op)[i].graph, Apply(g, tr))
  {
    hide Trace, Steps, Terminated;
    var answer := Asked(cfg.program, g, t).value;
    i := 0;
    match answer
    case Choice(_, choices) =>
      if choices != [] {
        var values := Distinct(choices);
        assert tr.op.chosen in values;
        i :| 0 <= i < |values| && values[i] == tr.op.chosen;
      }
    case Receive(blocking, _) =>
      var sends := CompatibleSends(g, t, answer);
      if tr.source.Some? && tr.source.value.From? {
        assert tr.source.value.send in sends;
        i :| 0 <= i < |sends| && sends[i] == tr.source.value.send;
      } else if tr.source.Some? {
        i := |sends|;
      }
    case Send(_, _) =>
      i := |Children(cfg, g, t, op)| - 1;
    case _ =>
  }

  // ----- which children are entered -----

  lemma InChildren(cfg: Config, g: Graph, depth: nat, task: Task)
    requires Unhindered(cfg) && Below(cfg, g, depth) && NextEvent(cfg, g).Next?
    requires task in Children(cfg, g, NextEvent(cfg, g).thread, NextEvent(cfg, g).op)
    requires Consistent(task.graph, cfg.model)
    ensures Below(cfg, task.graph, depth + 1)
  {
    hide Children, NextEvent, Below, Unhindered, Consistent;
    var tasks := Children(cfg, g, NextEvent(cfg, g).thread, NextEvent(cfg, g).op);
    var i :| 0 <= i < |tasks| && tasks[i] == task;
    BelowChild(cfg, g, depth, i);
  }

  /** A send, a Block or a choice among nothing. */
  lemma AppendChild(cfg: Config, g: Graph, depth: nat, t: ThreadId, op: Label)
    requires Unhindered(cfg) && Below(cfg, g, depth) && NextEvent(cfg, g) == Next(t, op)
    requires op.Send? || op.Block? || (op.Choice? && op.choices == [])
    ensures Below(cfg, AddEvent(g, t, op), depth + 1)
  {
    hide NextFrom, Visit, Consistent, ReplayValid, Shaped, Unhindered, RevisitTasks;
    AppendConsistent(g, t, op, cfg.model);
    var tasks := Children(cfg, g, t, op);
    assert tasks[|tasks| - 1] == Task(AddEvent(g, t, op), false);
    InChildren(cfg, g, depth, Task(AddEvent(g, t, op), false));
  }

  /** Any alternative of a choice. */
  lemma ChoiceChild(cfg: Config, g: Graph, depth: nat, t: ThreadId, op: Label, v: Value)
    requires Unhindered(cfg) && Below(cfg, g, depth) && NextEvent(cfg, g) == Next(t, op)
    requires op.Choice? && v in op.choices
    ensures Below(cfg, AddEvent(g, t, Choice(v, Distinct(op.choices))), depth + 1)
  {
    hide NextFrom, Visit, Consistent, ReplayValid, Shaped, Unhindered;
    var values := Distinct(op.choices);
    var i :| 0 <= i < |values| && values[i] == v;
    AppendConsistent(g, t, Choice(v, values), cfg.model);
    assert Children(cfg, g, t, op)[i] == Task(AddEvent(g, t, Choice(v, values)), false);
    InChildren(cfg, g, depth, Task(AddEvent(g, t, Choice(v, values)), false));
  }

  /** Nothing, for a non-blocking receive. */
  lemma BottomChild(cfg: Config, g: Graph, depth: nat, t: ThreadId, op: Label)
    requires Unhindered(cfg) && Below(cfg, g, depth) && NextEvent(cfg, g) == Next(t, op)
    requires op.Receive? && !op.blocking
    ensures Below(cfg, AddReceive(g, t, op, Bottom), depth + 1)
  {
    hide NextFrom, Visit, Consistent, ReplayValid, Shaped, Unhindered, CompatibleSends;
    ReceiveConsistent(g, t, op, Bottom, cfg.model);
    var sends := CompatibleSends(g, t, op);
    assert Children(cfg, g, t, op)[|sends|] == Task(AddReceive(g, t, op, Bottom), true);
    InChildren(cfg, g, depth, Task(AddReceive(g, t, op, Bottom), true));
  }

  /** Any compatible unread send that skips none of its channel. */
  lemma SourceChild(cfg: Config, g: Graph, depth: nat, t: ThreadId, op: Label, c: nat)
    requires Unhindered(cfg) && Below(cfg, g, depth) && NextEvent(cfg, g) == Next(t, op)
    requires CompatibleUnread(g, t, op, c) && (cfg.model.FifoP2P? ==> FirstOfChannel(g, op, c))
    ensures Below(cfg, AddReceive(g, t, op, From(c)), depth + 1)
  {
    hide NextFrom, Visit, Consistent, ReplayValid, Shaped, Unhindered, FirstOfChannel;
    ReceiveConsistent(g, t, op, From(c), cfg.model);
    var sends := CompatibleSends(g, t, op);
    assert c in sends;
    var i :| 0 <= i < |sends| && sends[i] == c;
    assert Children(cfg, g, t, op)[i] == Task(AddReceive(g, t, op, From(c)), true);
    InChildren(cfg, g, depth, Task(AddReceive(g, t, op, From(c)), true));
  }

  /** Every earlier send of its channel that `op` accepts has been read. */
  ghost predicate FirstOfChannel(g: Graph, op: Label, c: nat)
  {
    op.Receive? && forall early: nat ::
          SameChannel(g, early, c) && op.matches(g.events[early].op.value) ==> !Unread(g, early)
  }

  lemma ReceiveConsistent(g: Graph, t: ThreadId, op: Label, source: Source, m: CommunicationModel)
    requires Consistent(g, m) && op.Receive?
    requires match source case Bottom => !op.blocking case From(s) => CompatibleUnread(g, t, op, s)
    requires m.FifoP2P? && source.From? ==> FirstOfChannel(g, op, source.send)
    ensures Consistent(AddReceive(g, t, op, source), m)
  {
    AddReceiveAsyncConsistent(g, t, op, source);
    if m.FifoP2P? {
      hide CausallyAcyclic, ReadsTotal;
      var h := AddReceive(g, t, op, source);
      forall early: nat, late: nat, r: nat ensures !SkipsUnread(h, early, late, r) {
        ReceiveSkipsNothing(g, t, op, source, early, late, r);
      }
      forall early: nat, late: nat, r: nat, q: nat ensures !Overtakes(h, early, late, r, q) {
        ReceiveOvertakesNothing(g, t, op, source, early, late, r, q);
      }
    }
  }

  lemma ReceiveSkipsNothing(g: Graph, t: ThreadId, op: Label, source: Source, early: nat, late: nat, r: nat)
    requires WellFormed(g) && FifoClauseB(g)
    requires source.From? ==> CompatibleUnread(g, t, op, source.send) && FirstOfChannel(g, op, source.send)
    ensures !SkipsUnread(AddReceive(g, t, op, source), early, late, r)
  {
    var h := AddReceive(g, t, op, source);
    NoReadBeyond(g);
    if SkipsUnread(h, early, late, r) {
      forall k | k in g.rf ensures g.rf[k] != From(early) { assert h.rf[k] == g.rf[k]; }
      if r != |g.events| { assert GoodRead(g, r); }
      assert SameChannel(g, early, late) && Unread(g, early);
      assert r != |g.events| ==> SkipsUnread(g, early, late, r);
      assert false;
    }
  }

  lemma ReceiveOvertakesNothing(g: Graph, t: ThreadId, op: Label, source: Source, early: nat, late: nat, r: nat, q: nat)
    requires WellFormed(g) && FifoClauseB(g) && FifoClauseC(g)
    requires source.From? ==> CompatibleUnread(g, t, op, source.send)
    ensures !Overtakes(AddReceive(g, t, op, source), early, late, r, q)
  {
    var h := AddReceive(g, t, op, source);
    NoReadBeyond(g);
    if Overtakes(h, early, late, r, q) {
      assert GoodRead(g, r);
      assert SameChannel(g, early, late);
      assert q < |g.events| ==> Overtakes(g, early, late, r, q);
      assert q == |g.events| ==> SkipsUnread(g, early, late, r);
      assert false;
    }
  }

  lemma {:induction false} RevisitListed(g: Graph, s: nat, m: CommunicationModel, receives: seq<nat>, r: nat)
    requires s < |g.events| && forall i :: 0 <= i < |receives| ==> receives[i] < |g.events|
    requires r in receives && RevisitAllowed(g, r, s, m)
    ensures Task(RevisitChild(g, r, s), true) in RevisitTasks(g, s, m, receives)
    decreases |receives|
  {
    hide RevisitAllowed, RevisitChild;
    if receives[0] != r { RevisitListed(g, s, m, receives[1..], r); }
  }

  /** Every receive the send may redirect, unless that breaks the channel order. */
  lemma RedirectedChild(cfg: Config, g: Graph, depth: nat, t: ThreadId, op: Label, r: nat)
    requires Unhindered(cfg) && Below(cfg, g, depth) && NextEvent(cfg, g) == Next(t, op) && op.Send?
    requires var h := AddEvent(g, t, op);
             && IsReceive(h, r) && h.events[r].thread == op.destination
             && RevisitAllowed(h, r, |g.events|, cfg.model)
             && Consistent(RevisitChild(h, r, |g.events|), cfg.model)
    ensures Below(cfg, RevisitChild(AddEvent(g, t, op), r, |g.events|), depth + 1)
  {
    hide NextFrom, Visit, Consistent, ReplayValid, Shaped, Unhindered, RevisitAllowed, RevisitChild;
    var h, n := AddEvent(g, t, op), |g.events|;
    ReceivesListed(h, op.destination, |h.events|);
    RevisitListed(h, n, cfg.model, DestinationReceives(h, n), r);
    assert Task(RevisitChild(h, r, n), true) in Children(cfg, g, t, op);
    InChildren(cfg, g, depth, Task(RevisitChild(h, r, n), true));
  }
}
