/** The stack machine publishes exactly what the recursive visit publishes, in the same order. */
module MachineRefinement {
  import opened Events
  import opened Consistency
  import opened Replay
  import opened Revisits
  import opened Engine
  import opened Journals
  import opened Machine

  lemma VisitAllOne(cfg: Config, task: Task, depth: nat)
    ensures VisitAll(cfg, [task], depth) == Visit(cfg, task.graph, depth, task.guarded)
    ensures CostAll(cfg, [task], depth) == 1 + Cost(cfg, task.graph, depth, task.guarded)
  {
    hide Visit, Cost;
    assert [task][1..] == [];
  }

  lemma VisitAllFirst(cfg: Config, tasks: seq<Task>, depth: nat)
    requires tasks != []
    ensures VisitAll(cfg, tasks, depth)
            == Visit(cfg, tasks[0].graph, depth, tasks[0].guarded) + VisitAll(cfg, tasks[1..], depth)
    ensures CostAll(cfg, tasks, depth)
            == 1 + Cost(cfg, tasks[0].graph, depth, tasks[0].guarded) + CostAll(cfg, tasks[1..], depth)
  {
    hide Visit, Cost;
  }

  // ----- frames under the topmost one -----

  /** Both journals roll back to the same graphs, as far as `limit`. */
  ghost predicate AgreeBelow(j: Journal, k: Journal, limit: Mark)
  {
    && Sound(j) && Sound(k) && MarkLe(limit, MarkOf(j)) && MarkLe(limit, MarkOf(k))
    && forall mark: Mark :: MarkLe(mark, limit) ==> Undo(j, mark) == Undo(k, mark)
  }

  lemma AppendAgrees(j: Journal, t: ThreadId, op: Label, limit: Mark)
    requires Sound(j) && MarkLe(limit, MarkOf(j))
    ensures AgreeBelow(Append(j, t, op), j, limit)
  {
    forall mark: Mark | MarkLe(mark, limit) ensures Undo(Append(j, t, op), mark) == Undo(j, mark) {
      UndoAppend(j, t, op, mark);
    }
  }

  lemma AppendBoundAgrees(j: Journal, t: ThreadId, op: Label, source: Source, limit: Mark)
    requires Sound(j) && MarkLe(limit, MarkOf(j))
    ensures AgreeBelow(AppendBound(j, t, op, source), j, limit)
  {
    forall mark: Mark | MarkLe(mark, limit) ensures Undo(AppendBound(j, t, op, source), mark) == Undo(j, mark) {
      UndoBind(Append(j, t, op), |j.graph.events|, source, mark);
      UndoAppend(j, t, op, mark);
    }
  }

  lemma UndoAgrees(j: Journal, limit: Mark)
    requires Sound(j) && MarkLe(limit, MarkOf(j))
    ensures AgreeBelow(Undo(j, limit), j, limit)
  {
    forall mark: Mark | MarkLe(mark, limit) ensures Undo(Undo(j, limit), mark) == Undo(j, mark) {
      UndoTwice(j, limit, mark);
    }
  }

  lemma AgreeTransitive(i: Journal, j: Journal, k: Journal, limit: Mark)
    requires AgreeBelow(i, j, limit) && AgreeBelow(j, k, limit)
    ensures AgreeBelow(i, k, limit)
  {
  }

  lemma FrameAgrees(cfg: Config, j: Journal, k: Journal, f: Frame, limit: Mark)
    requires AgreeBelow(j, k, limit) && Resumable(f) && MarkLe(f.mark, limit)
    ensures FrameRemaining(cfg, j, f) == FrameRemaining(cfg, k, f)
    ensures FrameCost(cfg, j, f) == FrameCost(cfg, k, f)
  {
    hide VisitAll, CostAll, Undo;
    assert Undo(j, f.mark) == Undo(k, f.mark);
  }

  lemma {:induction false} UnderAgrees(cfg: Config, j: Journal, k: Journal, frames: seq<Frame>, limit: Mark)
    requires AgreeBelow(j, k, limit) && MarksAscend(frames, limit)
    ensures MarksAscend(frames, MarkOf(j)) && MarksAscend(frames, MarkOf(k))
    ensures UnderRemaining(cfg, j, frames) == UnderRemaining(cfg, k, frames)
    ensures UnderCost(cfg, j, frames) == UnderCost(cfg, k, frames)
    decreases |frames|
  {
    hide FrameRemaining, FrameCost, Undo;
    if frames != [] {
      FrameAgrees(cfg, j, k, Top(frames), limit);
      UnderAgrees(cfg, j, k, Below(frames), limit);
    }
  }

  // ----- pushing and popping -----

  lemma RemainingPush(cfg: Config, rest: seq<Context>, c: Context)
    requires AllStacked(rest) && Stacked(c)
    ensures AllStacked(rest + [c])
    ensures Remaining(cfg, rest + [c]) == ContextRemaining(cfg, c) + Remaining(cfg, rest)
    ensures StepsLeft(cfg, rest + [c]) == ContextCost(cfg, c) + StepsLeft(cfg, rest)
  {
    hide ContextRemaining, ContextCost, Stacked;
    assert Below(rest + [c]) == rest && Top(rest + [c]) == c;
  }

  lemma MarksAscendPush(frames: seq<Frame>, f: Frame, limit: Mark)
    requires Resumable(f) && MarkLe(f.mark, limit) && MarksAscend(frames, f.mark)
    ensures MarksAscend(frames + [f], limit) && MarksAscend(frames, limit)
  {
  }

  lemma MarksAscendPop(frames: seq<Frame>, limit: Mark)
    requires MarksAscend(frames, limit) && frames != []
    ensures Resumable(Top(frames)) && MarkLe(Top(frames).mark, limit) && MarksAscend(Below(frames), Top(frames).mark)
  {
  }

  /** A context whose topmost frame is done goes on with the frames under it. */
  lemma SettleRemaining(cfg: Config, rest: seq<Context>, j: Journal, under: seq<Frame>)
    requires AllStacked(rest) && Sound(j) && MarksAscend(under, MarkOf(j))
    ensures AllStacked(Settle(rest, Context(j, under)))
    ensures Remaining(cfg, Settle(rest, Context(j, under))) == UnderRemaining(cfg, j, under) + Remaining(cfg, rest)
    ensures StepsLeft(cfg, Settle(rest, Context(j, under))) == UnderCost(cfg, j, under) + StepsLeft(cfg, rest)
  {
    hide FrameRemaining, FrameCost;
    if under != [] {
      MarksAscendPop(under, MarkOf(j));
      RemainingPush(cfg, rest, Context(j, under));
    }
  }

  /** Entering a child: its subtree comes before what its parent frame still holds. */
  lemma EnterChild(cfg: Config, rest: seq<Context>, j: Journal, under: seq<Frame>, f: Frame, depth: nat, guarded: bool)
    requires AllStacked(rest) && Sound(j) && Resumable(f) && MarkLe(f.mark, MarkOf(j)) && MarksAscend(under, f.mark)
    ensures MarksAscend(under, MarkOf(j))
    ensures var contexts := rest + [Context(j, under + [f, Enter(depth, guarded)])];
            && AllStacked(contexts)
            && Remaining(cfg, contexts) ==
                 Visit(cfg, j.graph, depth, guarded) + (FrameRemaining(cfg, j, f) + UnderRemaining(cfg, j, under))
                 + Remaining(cfg, rest)
            && StepsLeft(cfg, contexts) ==
                 Cost(cfg, j.graph, depth, guarded) + FrameCost(cfg, j, f) + UnderCost(cfg, j, under)
                 + StepsLeft(cfg, rest)
  {
    hide Visit, Cost, VisitAll, CostAll;
    var frames := under + [f, Enter(depth, guarded)];
    assert Below(frames) == under + [f] && Top(frames) == Enter(depth, guarded);
    assert Below(under + [f]) == under && Top(under + [f]) == f;
    MarksAscendPush(under, f, MarkOf(j));
    RemainingPush(cfg, rest, Context(j, frames));
    VisitAllOne(cfg, Task(j.graph, guarded), depth);
  }

  lemma ResumeStacked(j: Journal, under: seq<Frame>, f: Frame)
    requires Sound(j) && !f.Enter? && MarkLe(f.mark, MarkOf(j)) && MarksAscend(under, f.mark)
    requires f.ResumeRevisits? ==> RevisitsLive(j, f)
    ensures MarksAscend(under, MarkOf(j)) && Stacked(Context(j, under + [f]))
    ensures Top(under + [f]) == f && Below(under + [f]) == under
  {
    assert Below(under + [f]) == under && Top(under + [f]) == f;
  }

  lemma ContextParts(cfg: Config, j: Journal, under: seq<Frame>, f: Frame)
    requires Stacked(Context(j, under + [f])) && Sound(j) && !f.Enter? && MarkLe(f.mark, MarkOf(j))
             && MarksAscend(under, MarkOf(j))
    requires f.ResumeRevisits? ==> RevisitsLive(j, f)
    requires Top(under + [f]) == f && Below(under + [f]) == under
    ensures ContextRemaining(cfg, Context(j, under + [f]))
            == VisitAll(cfg, Alternatives(cfg, j, f), f.depth + 1) + UnderRemaining(cfg, j, under)
    ensures ContextCost(cfg, Context(j, under + [f]))
            == 1 + CostAll(cfg, Alternatives(cfg, j, f), f.depth + 1) + UnderCost(cfg, j, under)
  {
    hide Alternatives, VisitAll, CostAll, Stacked, MarksAscend, UnderRemaining, UnderCost, Top, Below;
  }

  /** A context with a single resumable frame on top of `under`. */
  lemma ResumeFrame(cfg: Config, rest: seq<Context>, j: Journal, under: seq<Frame>, f: Frame)
    requires AllStacked(rest) && Sound(j) && !f.Enter? && MarkLe(f.mark, MarkOf(j)) && MarksAscend(under, f.mark)
    requires f.ResumeRevisits? ==> RevisitsLive(j, f)
    ensures MarksAscend(under, MarkOf(j))
    ensures var contexts := rest + [Context(j, under + [f])];
            && AllStacked(contexts)
            && Remaining(cfg, contexts) ==
                 VisitAll(cfg, Alternatives(cfg, j, f), f.depth + 1) + UnderRemaining(cfg, j, under)
                 + Remaining(cfg, rest)
            && StepsLeft(cfg, contexts) ==
                 1 + CostAll(cfg, Alternatives(cfg, j, f), f.depth + 1) + UnderCost(cfg, j, under)
                 + StepsLeft(cfg, rest)
  {
    hide *;
    ResumeStacked(j, under, f);
    ContextParts(cfg, j, under, f);
    RemainingPush(cfg, rest, Context(j, under + [f]));
  }

  lemma EnterFrame(cfg: Config, rest: seq<Context>, j: Journal, under: seq<Frame>, depth: nat, guarded: bool)
    requires AllStacked(rest) && Sound(j) && MarksAscend(under, MarkOf(j))
    ensures var contexts := rest + [Context(j, under + [Enter(depth, guarded)])];
            && AllStacked(contexts)
            && Remaining(cfg, contexts) == Visit(cfg, j.graph, depth, guarded) + UnderRemaining(cfg, j, under)
               + Remaining(cfg, rest)
            && StepsLeft(cfg, contexts) == Cost(cfg, j.graph, depth, guarded) + UnderCost(cfg, j, under)
               + StepsLeft(cfg, rest)
  {
    hide Visit, Cost;
    var frames := under + [Enter(depth, guarded)];
    assert Below(frames) == under && Top(frames) == Enter(depth, guarded);
    RemainingPush(cfg, rest, Context(j, frames));
    VisitAllOne(cfg, Task(j.graph, guarded), depth);
  }

  // ----- one step -----

  /** A step hands over exactly what it publishes, and gets closer to the end. */
  ghost predicate Advances(cfg: Config, before: seq<Context>, r: StepResult)
  {
    && AllStacked(before) && AllStacked(r.contexts)
    && Remaining(cfg, before) == r.published + Remaining(cfg, r.contexts)
    && StepsLeft(cfg, r.contexts) < StepsLeft(cfg, before)
  }

  lemma MakeAdvances(cfg: Config, before: seq<Context>, r: StepResult)
    requires AllStacked(before) && AllStacked(r.contexts)
    requires Remaining(cfg, before) == r.published + Remaining(cfg, r.contexts)
    requires StepsLeft(cfg, r.contexts) < StepsLeft(cfg, before)
    ensures Advances(cfg, before, r)
  {
  }

  /** The visit of a graph with a next event is the visit of its children. */
  lemma VisitNext(cfg: Config, g: Graph, depth: nat, guarded: bool, t: ThreadId, op: Label)
    requires !(guarded && !Consistent(g, cfg.model)) && depth < cfg.maxDepth && NextEvent(cfg, g) == Next(t, op)
             && !op.Error?
    ensures Visit(cfg, g, depth, guarded) == VisitAll(cfg, Children(cfg, g, t, op), depth + 1)
    ensures Cost(cfg, g, depth, guarded) == 2 + CostAll(cfg, Children(cfg, g, t, op), depth + 1)
  {
    hide Consistent, NextFrom, Children, VisitAll, CostAll;
  }

  /** Entering at depth `depth` leads to event `op` of thread `t`. */
  ghost predicate Entered(cfg: Config, rest: seq<Context>, j: Journal, under: seq<Frame>, depth: nat, guarded: bool,
                          t: ThreadId, op: Label)
  {
    && AllStacked(rest) && Sound(j) && MarksAscend(under, MarkOf(j))
    && !(guarded && !Consistent(j.graph, cfg.model)) && depth < cfg.maxDepth && NextEvent(cfg, j.graph) == Next(t, op)
  }

  lemma EnteredFacts(cfg: Config, rest: seq<Context>, j: Journal, under: seq<Frame>, depth: nat, guarded: bool,
                     t: ThreadId, op: Label)
    requires Entered(cfg, rest, j, under, depth, guarded, t, op)
    ensures AllStacked(rest) && Sound(j) && MarksAscend(under, MarkOf(j))
    ensures !(guarded && !Consistent(j.graph, cfg.model)) && depth < cfg.maxDepth
            && NextEvent(cfg, j.graph) == Next(t, op)
  {
  }

  lemma LinearChild(cfg: Config, rest: seq<Context>, j: Journal, under: seq<Frame>, depth: nat, t: ThreadId, op: Label)
    requires Sound(j) && (op.Block? || (op.Choice? && op.choices == []))
    ensures StepNext(cfg, rest, j, under, depth, t, op)
            == StepResult(rest + [Context(Append(j, t, op),
                                          under + [ExitLinear(depth, MarkOf(j)), Enter(depth + 1, false)])], [])
    ensures Children(cfg, j.graph, t, op) == [Task(Append(j, t, op).graph, false)]
    ensures Sound(Append(j, t, op)) && MarkLe(MarkOf(j), MarkOf(Append(j, t, op)))
  {
  }

  lemma LinearAdvances(cfg: Config, rest: seq<Context>, j: Journal, under: seq<Frame>, depth: nat, guarded: bool,
                       t: ThreadId, op: Label)
    requires Entered(cfg, rest, j, under, depth, guarded, t, op)
    requires op.Block? || (op.Choice? && op.choices == [])
    ensures Advances(cfg, rest + [Context(j, under + [Enter(depth, guarded)])],
                     StepNext(cfg, rest, j, under, depth, t, op))
  {
    hide *;
    EnteredFacts(cfg, rest, j, under, depth, guarded, t, op);
    LinearChild(cfg, rest, j, under, depth, t, op);
    var k, f := Append(j, t, op), ExitLinear(depth, MarkOf(j));
    var after := StepResult(rest + [Context(k, under + [f, Enter(depth + 1, false)])], []);
    ExitResumable(depth, MarkOf(j));
    VisitNext(cfg, j.graph, depth, guarded, t, op);
    VisitAllOne(cfg, Task(k.graph, false), depth + 1);
    EnterFrame(cfg, rest, j, under, depth, guarded);
    EnterChild(cfg, rest, k, under, f, depth + 1, false);
    ExitIsEmpty(cfg, k, f);
    AppendAgrees(j, t, op, MarkOf(j));
    UnderAgrees(cfg, k, j, under, MarkOf(j));
    var v, u, r := Visit(cfg, k.graph, depth + 1, false), UnderRemaining(cfg, j, under), Remaining(cfg, rest);
    assert v + u + r == [] + (v + ([] + u) + r);
    MakeAdvances(cfg, rest + [Context(j, under + [Enter(depth, guarded)])], after);
  }

  /** A branching event leaves a frame with all its alternatives. */
  lemma BranchAdvances(cfg: Config, rest: seq<Context>, j: Journal, under: seq<Frame>, depth: nat, guarded: bool,
                       t: ThreadId, op: Label, k: Journal, f: Frame)
    requires Entered(cfg, rest, j, under, depth, guarded, t, op) && !op.Error?
    requires !f.Enter? && f.depth == depth && f.mark == MarkOf(j) && AgreeBelow(k, j, MarkOf(j))
    requires Sound(k) && MarkLe(f.mark, MarkOf(k)) && (f.ResumeRevisits? ==> RevisitsLive(k, f))
    requires Alternatives(cfg, k, f) == Children(cfg, j.graph, t, op)
    ensures Advances(cfg, rest + [Context(j, under + [Enter(depth, guarded)])],
                     StepResult(rest + [Context(k, under + [f])], []))
  {
    hide *;
    EnteredFacts(cfg, rest, j, under, depth, guarded, t, op);
    VisitNext(cfg, j.graph, depth, guarded, t, op);
    EnterFrame(cfg, rest, j, under, depth, guarded);
    ResumeFrame(cfg, rest, k, under, f);
    UnderAgrees(cfg, k, j, under, MarkOf(j));
    var after := StepResult(rest + [Context(k, under + [f])], []);
    assert [] + Remaining(cfg, after.contexts) == Remaining(cfg, after.contexts);
    MakeAdvances(cfg, rest + [Context(j, under + [Enter(depth, guarded)])], after);
  }

  lemma AgreeReflexive(j: Journal, limit: Mark)
    requires Sound(j) && MarkLe(limit, MarkOf(j))
    ensures AgreeBelow(j, j, limit)
  {
  }

  lemma ChoiceAdvances(cfg: Config, rest: seq<Context>, j: Journal, under: seq<Frame>, depth: nat, guarded: bool,
                       t: ThreadId, op: Label)
    requires Entered(cfg, rest, j, under, depth, guarded, t, op)
    requires op.Choice? && op.choices != []
    ensures Advances(cfg, rest + [Context(j, under + [Enter(depth, guarded)])],
                     StepNext(cfg, rest, j, under, depth, t, op))
  {
    hide NextEvent, Consistent, ChoiceTasks, Advances, AllStacked, MarksAscend;
    var values := Distinct(op.choices);
    var f := ResumeChoice(depth, MarkOf(j), t, values, 0);
    UndoNothing(j);
    assert values[0..] == values;
    DistinctNonEmpty(op.choices);
    AgreeReflexive(j, MarkOf(j));
    BranchAdvances(cfg, rest, j, under, depth, guarded, t, op, j, f);
  }

  lemma DistinctNonEmpty(choices: seq<Value>)
    requires choices != []
    ensures Distinct(choices) != []
  {
    assert choices[0] in Distinct(choices);
  }

  lemma ReceiveAdvances(cfg: Config, rest: seq<Context>, j: Journal, under: seq<Frame>, depth: nat, guarded: bool,
                        t: ThreadId, op: Label)
    requires Entered(cfg, rest, j, under, depth, guarded, t, op) && op.Receive?
    ensures Advances(cfg, rest + [Context(j, under + [Enter(depth, guarded)])],
                     StepNext(cfg, rest, j, under, depth, t, op))
  {
    hide NextEvent, Consistent, SourceTasks, BottomTasks, CompatibleSends, Advances, AllStacked, MarksAscend;
    var sends := CompatibleSends(j.graph, t, op);
    var f := ResumeReceive(depth, MarkOf(j), t, op, sends, 0, !op.blocking);
    UndoNothing(j);
    assert sends[0..] == sends;
    NoSourceTasks(j.graph, t, op, sends);
    AgreeReflexive(j, MarkOf(j));
    BranchAdvances(cfg, rest, j, under, depth, guarded, t, op, j, f);
  }

  lemma NoSourceTasks(g: Graph, t: ThreadId, op: Label, sends: seq<nat>)
    ensures sends == [] ==> SourceTasks(g, t, op, sends) == []
  {
  }

  lemma SendAdvances(cfg: Config, rest: seq<Context>, j: Journal, under: seq<Frame>, depth: nat, guarded: bool,
                     t: ThreadId, op: Label)
    requires Entered(cfg, rest, j, under, depth, guarded, t, op) && op.Send?
    ensures Advances(cfg, rest + [Context(j, under + [Enter(depth, guarded)])],
                     StepNext(cfg, rest, j, under, depth, t, op))
  {
    hide NextEvent, Consistent, RevisitTasks, Advances, AllStacked, MarksAscend, AgreeBelow;
    var k, s := Append(j, t, op), |j.graph.events|;
    var receives := DestinationReceives(k.graph, s);
    var f := ResumeRevisits(depth, MarkOf(j), s, receives, 0);
    AppendAgrees(j, t, op, MarkOf(j));
    assert receives[0..] == receives;
    NoRevisitTasks(k.graph, s, cfg.model, receives);
    BranchAdvances(cfg, rest, j, under, depth, guarded, t, op, k, f);
  }

  lemma NoRevisitTasks(g: Graph, s: nat, m: CommunicationModel, receives: seq<nat>)
    requires s < |g.events| && forall i :: 0 <= i < |receives| ==> receives[i] < |g.events|
    ensures receives == [] ==> RevisitTasks(g, s, m, receives) == []
  {
  }

  lemma LeafAdvances(cfg: Config, rest: seq<Context>, j: Journal, under: seq<Frame>, depth: nat, guarded: bool,
                     published: seq<Terminal>)
    requires AllStacked(rest) && Sound(j) && MarksAscend(under, MarkOf(j))
    requires Visit(cfg, j.graph, depth, guarded) == published && Cost(cfg, j.graph, depth, guarded) == 1
    ensures Advances(cfg, rest + [Context(j, under + [Enter(depth, guarded)])],
                     StepResult(Settle(rest, Context(j, under)), published))
  {
    hide *;
    EnterFrame(cfg, rest, j, under, depth, guarded);
    SettleRemaining(cfg, rest, j, under);
    var u, r := UnderRemaining(cfg, j, under), Remaining(cfg, rest);
    assert published + u + r == published + (u + r);
    MakeAdvances(cfg, rest + [Context(j, under + [Enter(depth, guarded)])],
                 StepResult(Settle(rest, Context(j, under)), published));
  }

  lemma NewContextRemaining(cfg: Config, rest: seq<Context>, g: Graph, depth: nat, guarded: bool)
    requires AllStacked(rest)
    ensures var contexts := rest + [NewContext(g, depth, guarded)];
            && AllStacked(contexts)
            && Remaining(cfg, contexts) == Visit(cfg, g, depth, guarded) + Remaining(cfg, rest)
            && StepsLeft(cfg, contexts) == Cost(cfg, g, depth, guarded) + StepsLeft(cfg, rest)
  {
    hide Visit, Cost, AllStacked, Remaining, StepsLeft;
    assert [] + [Enter(depth, guarded)] == [Enter(depth, guarded)];
    EnterFrame(cfg, rest, Fresh(g), [], depth, guarded);
    assert Visit(cfg, g, depth, guarded) + [] == Visit(cfg, g, depth, guarded);
  }

  lemma RescheduleAdvances(cfg: Config, rest: seq<Context>, j: Journal, under: seq<Frame>, depth: nat, guarded: bool,
                           h: Graph)
    requires AllStacked(rest) && Sound(j) && MarksAscend(under, MarkOf(j))
    requires Visit(cfg, j.graph, depth, guarded) == Visit(cfg, h, depth, false)
    requires Cost(cfg, j.graph, depth, guarded) == 1 + Cost(cfg, h, depth, false)
    ensures Advances(cfg, rest + [Context(j, under + [Enter(depth, guarded)])],
                     StepResult(Settle(rest, Context(j, under)) + [NewContext(h, depth, false)], []))
  {
    hide *;
    var settled := Settle(rest, Context(j, under));
    EnterFrame(cfg, rest, j, under, depth, guarded);
    SettleRemaining(cfg, rest, j, under);
    NewContextRemaining(cfg, settled, h, depth, false);
    var v, u, r := Visit(cfg, h, depth, false), UnderRemaining(cfg, j, under), Remaining(cfg, rest);
    assert v + u + r == [] + (v + (u + r));
    MakeAdvances(cfg, rest + [Context(j, under + [Enter(depth, guarded)])],
                 StepResult(settled + [NewContext(h, depth, false)], []));
  }

  lemma EnterAdvances(cfg: Config, rest: seq<Context>, j: Journal, under: seq<Frame>, depth: nat, guarded: bool)
    requires AllStacked(rest) && Sound(j) && MarksAscend(under, MarkOf(j))
    ensures Advances(cfg, rest + [Context(j, under + [Enter(depth, guarded)])],
                     StepEnter(cfg, rest, j, under, depth, guarded))
  {
    hide Advances, Settle, Consistent, NextFrom, RescheduleFrom, MaximalKind, VisitAll, CostAll;
    var g := j.graph;
    if guarded && !Consistent(g, cfg.model) {
      LeafAdvances(cfg, rest, j, under, depth, guarded, []);
    } else if depth >= cfg.maxDepth {
      LeafAdvances(cfg, rest, j, under, depth, guarded, [Terminal(g, DepthLimit)]);
    } else {
      match NextEvent(cfg, g)
      case NoNext(suppressed) =>
        match Reschedule(cfg.program, g) {
          case NoneReady => LeafAdvances(cfg, rest, j, under, depth, guarded,
                                         [Terminal(g, MaximalKind(g, suppressed))]);
          case Ready(h) => RescheduleAdvances(cfg, rest, j, under, depth, guarded, h);
          case Violation(_) => LeafAdvances(cfg, rest, j, under, depth, guarded, []);
        }
      case Next(t, op) =>
        match op {
          case Error(_) => LeafAdvances(cfg, rest, j, under, depth, guarded,
                                        [Terminal(AddEvent(g, t, op), ErrorFound)]);
          case Choice(_, choices) =>
            if choices == [] {
              LinearAdvances(cfg, rest, j, under, depth, guarded, t, op);
            } else {
              ChoiceAdvances(cfg, rest, j, under, depth, guarded, t, op);
            }
          case Receive(_, _) => ReceiveAdvances(cfg, rest, j, under, depth, guarded, t, op);
          case Send(_, _) => SendAdvances(cfg, rest, j, under, depth, guarded, t, op);
          case Block => LinearAdvances(cfg, rest, j, under, depth, guarded, t, op);
        }
    }
  }

  /** The first alternative is entered, the others stay with the frame. */
  lemma AlternativeAdvances(cfg: Config, rest: seq<Context>, j: Journal, under: seq<Frame>, f: Frame, f': Frame,
                            k: Journal, guarded: bool)
    requires !f.Enter? && !f.ResumeRevisits? && !f'.Enter? && !f'.ResumeRevisits?
    requires AllStacked(rest) && Sound(j) && MarkLe(f.mark, MarkOf(j)) && MarksAscend(under, f.mark)
    requires Resumable(f') && f'.mark == f.mark && f'.depth == f.depth && AgreeBelow(k, j, f.mark) && Sound(k)
             && MarkLe(f.mark, MarkOf(k))
    requires Alternatives(cfg, j, f) != [] && Alternatives(cfg, j, f)[0] == Task(k.graph, guarded)
    requires Alternatives(cfg, k, f') == Alternatives(cfg, j, f)[1..]
    ensures Advances(cfg, rest + [Context(j, under + [f])],
                     StepResult(rest + [Context(k, under + [f', Enter(f.depth + 1, guarded)])], []))
  {
    hide *;
    var after := StepResult(rest + [Context(k, under + [f', Enter(f.depth + 1, guarded)])], []);
    ResumeFrame(cfg, rest, j, under, f);
    EnterChild(cfg, rest, k, under, f', f.depth + 1, guarded);
    EnterChildFrame(cfg, k, f');
    UnderAgrees(cfg, k, j, under, f.mark);
    VisitAllFirst(cfg, Alternatives(cfg, j, f), f.depth + 1);
    var v, w := Visit(cfg, k.graph, f.depth + 1, guarded), VisitAll(cfg, Alternatives(cfg, k, f'), f.depth + 1);
    var u, r := UnderRemaining(cfg, j, under), Remaining(cfg, rest);
    assert v + w + u + r == [] + (v + (w + u) + r);
    MakeAdvances(cfg, rest + [Context(j, under + [f])], after);
  }

  lemma EnterChildFrame(cfg: Config, k: Journal, f: Frame)
    requires Sound(k) && Resumable(f) && MarkLe(f.mark, MarkOf(k))
    ensures FrameRemaining(cfg, k, f) == VisitAll(cfg, Alternatives(cfg, k, f), f.depth + 1)
    ensures FrameCost(cfg, k, f) == 1 + CostAll(cfg, Alternatives(cfg, k, f), f.depth + 1)
  {
    hide Alternatives, VisitAll, CostAll;
  }

  lemma AgreeBounds(k: Journal, j: Journal, limit: Mark)
    requires AgreeBelow(k, j, limit)
    ensures Sound(k) && Sound(j) && MarkLe(limit, MarkOf(k)) && MarkLe(limit, MarkOf(j))
    ensures Undo(k, limit) == Undo(j, limit)
  {
  }

  lemma VisitNothing(cfg: Config, depth: nat)
    ensures VisitAll(cfg, [], depth) == [] && CostAll(cfg, [], depth) == 0
  {
  }

  lemma ExhaustedAdvances(cfg: Config, rest: seq<Context>, j: Journal, under: seq<Frame>, f: Frame)
    requires !f.Enter? && !f.ResumeRevisits?
    requires AllStacked(rest) && Sound(j) && MarkLe(f.mark, MarkOf(j)) && MarksAscend(under, f.mark)
    requires Alternatives(cfg, j, f) == []
    ensures Advances(cfg, rest + [Context(j, under + [f])],
                     StepResult(Settle(rest, Context(Undo(j, f.mark), under)), []))
  {
    hide *;
    var base := Undo(j, f.mark);
    ResumeFrame(cfg, rest, j, under, f);
    VisitNothing(cfg, f.depth + 1);
    UndoAgrees(j, f.mark);
    UnderAgrees(cfg, base, j, under, f.mark);
    SettleRemaining(cfg, rest, base, under);
    var u, r := UnderRemaining(cfg, j, under), Remaining(cfg, rest);
    assert [] + u + r == [] + (u + r);
    MakeAdvances(cfg, rest + [Context(j, under + [f])], StepResult(Settle(rest, Context(base, under)), []));
  }

  lemma ChoiceResumeAdvances(cfg: Config, rest: seq<Context>, j: Journal, under: seq<Frame>, f: Frame)
    requires f.ResumeChoice? && AllStacked(rest) && Sound(j) && MarkLe(f.mark, MarkOf(j)) && MarksAscend(under, f.mark)
    ensures Advances(cfg, rest + [Context(j, under + [f])], StepChoice(rest, j, under, f))
  {
    hide Undo, Advances, AgreeBelow, AllStacked, MarksAscend, ChoiceTasks;
    if f.cursor >= |f.choices| {
      ExhaustedAdvances(cfg, rest, j, under, f);
    } else {
      var base := Undo(j, f.mark);
      var op := Choice(f.choices[f.cursor], f.choices);
      var k := Append(base, f.thread, op);
      var f' := ResumeChoice(f.depth, f.mark, f.thread, f.choices, f.cursor + 1);
      UndoAgrees(j, f.mark);
      AppendAgrees(base, f.thread, op, f.mark);
      AgreeTransitive(k, base, j, f.mark);
      AgreeBounds(k, j, f.mark);
      ChoiceTasksTail(base.graph, f.thread, f.choices, f.cursor);
      AlternativeAdvances(cfg, rest, j, under, f, f', k, false);
    }
  }

  lemma ChoiceTasksTail(g: Graph, t: ThreadId, choices: seq<Value>, cursor: nat)
    requires cursor < |choices|
    ensures var tasks := ChoiceTasks(g, t, choices[cursor..], choices);
            && tasks != [] && tasks[0] == Task(AddEvent(g, t, Choice(choices[cursor], choices)), false)
            && tasks[1..] == (if cursor + 1 >= |choices| then [] else ChoiceTasks(g, t, choices[cursor + 1..], choices))
  {
  }

  lemma ReceiveResumeAdvances(cfg: Config, rest: seq<Context>, j: Journal, under: seq<Frame>, f: Frame)
    requires f.ResumeReceive? && AllStacked(rest) && Sound(j) && MarkLe(f.mark, MarkOf(j)) && MarksAscend(under, f.mark)
    ensures Advances(cfg, rest + [Context(j, under + [f])], StepReceive(rest, j, under, f))
  {
    hide Undo, Advances, AgreeBelow, AllStacked, MarksAscend, SourceTasks;
    if f.cursor >= |f.sends| && !f.bottom {
      ExhaustedAdvances(cfg, rest, j, under, f);
    } else {
      var base := Undo(j, f.mark);
      var source := if f.cursor < |f.sends| then From(f.sends[f.cursor]) else Bottom;
      var k := AppendBound(base, f.thread, f.op, source);
      var f' := if f.cursor < |f.sends| then NextSource(f) else WithoutBottom(f);
      UndoAgrees(j, f.mark);
      AppendBoundAgrees(base, f.thread, f.op, source, f.mark);
      AgreeTransitive(k, base, j, f.mark);
      AgreeBounds(k, j, f.mark);
      if f.cursor < |f.sends| {
        SourceTasksTail(base.graph, f.thread, f.op, f.sends, f.cursor, f.bottom);
      }
      AlternativeAdvances(cfg, rest, j, under, f, f', k, true);
    }
  }

  lemma SourceTasksTail(g: Graph, t: ThreadId, op: Label, sends: seq<nat>, cursor: nat, bottom: bool)
    requires cursor < |sends|
    ensures var last := BottomTasks(g, t, op, bottom);
            var tasks := SourceTasks(g, t, op, sends[cursor..]) + last;
            && tasks != [] && tasks[0] == Task(AddReceive(g, t, op, From(sends[cursor])), true)
            && tasks[1..] == (if cursor + 1 >= |sends| then [] else SourceTasks(g, t, op, sends[cursor + 1..])) + last
  {
    var a := SourceTasks(g, t, op, sends[cursor..]);
    assert a[1..] == SourceTasks(g, t, op, sends[cursor + 1..]);
    assert (a + BottomTasks(g, t, op, bottom))[1..] == a[1..] + BottomTasks(g, t, op, bottom);
  }

  lemma {:induction false} NextRevisitTasks(g: Graph, s: nat, m: CommunicationModel, receives: seq<nat>, cursor: nat)
    requires s < |g.events| && forall i :: 0 <= i < |receives| ==> receives[i] < |g.events|
    ensures var r := NextRevisit(g, s, m, receives, cursor);
            var tasks := if cursor >= |receives| then [] else RevisitTasks(g, s, m, receives[cursor..]);
            match r.1
            case None => tasks == []
            case Some(child) =>
              tasks == [Task(child, true)] + (if r.0 >= |receives| then [] else RevisitTasks(g, s, m, receives[r.0..]))
    decreases |receives| - cursor
  {
    hide RevisitAllowed, RevisitChild;
    if cursor < |receives| {
      assert receives[cursor..][1..] == receives[cursor + 1..];
      NextRevisitTasks(g, s, m, receives, cursor + 1);
    }
  }

  lemma RevisitAlternatives(cfg: Config, j: Journal, f: Frame)
    requires f.ResumeRevisits? && RevisitsLive(j, f) && Sound(j) && MarkLe(f.mark, MarkOf(j))
    ensures var next := NextRevisit(j.graph, f.send, cfg.model, f.receives, f.cursor);
            match next.1
            case None => Alternatives(cfg, j, f) == [Task(j.graph, false)]
            case Some(child) =>
              var f' := ResumeRevisits(f.depth, f.mark, f.send, f.receives, next.0);
              && RevisitsLive(j, f') && Alternatives(cfg, j, f) != []
              && Alternatives(cfg, j, f)[0] == Task(child, true)
                 && Alternatives(cfg, j, f)[1..] == Alternatives(cfg, j, f')
  {
    hide RevisitTasks, NextRevisit;
    NextRevisitTasks(j.graph, f.send, cfg.model, f.receives, f.cursor);
  }

  lemma RevisitStarts(cfg: Config, rest: seq<Context>, j: Journal, under: seq<Frame>, f: Frame, f': Frame, child: Graph)
    requires f.ResumeRevisits? && RevisitsLive(j, f) && f'.ResumeRevisits? && RevisitsLive(j, f')
    requires AllStacked(rest) && Sound(j) && MarkLe(f.mark, MarkOf(j)) && MarksAscend(under, f.mark)
    requires f'.depth == f.depth && f'.mark == f.mark
    requires Alternatives(cfg, j, f) != [] && Alternatives(cfg, j, f)[0] == Task(child, true)
    requires Alternatives(cfg, j, f)[1..] == Alternatives(cfg, j, f')
    ensures Advances(cfg, rest + [Context(j, under + [f])],
                     StepResult(rest + [Context(j, under + [f']), NewContext(child, f.depth + 1, true)], []))
  {
    hide *;
    var lower := rest + [Context(j, under + [f'])];
    var after := StepResult(rest + [Context(j, under + [f']), NewContext(child, f.depth + 1, true)], []);
    ResumeFrame(cfg, rest, j, under, f);
    ResumeFrame(cfg, rest, j, under, f');
    VisitAllFirst(cfg, Alternatives(cfg, j, f), f.depth + 1);
    NewContextRemaining(cfg, lower, child, f.depth + 1, true);
    assert lower + [NewContext(child, f.depth + 1, true)] == after.contexts;
    var v, w := Visit(cfg, child, f.depth + 1, true), VisitAll(cfg, Alternatives(cfg, j, f'), f.depth + 1);
    var u, r := UnderRemaining(cfg, j, under), Remaining(cfg, rest);
    assert v + w + u + r == [] + (v + (w + u + r));
    MakeAdvances(cfg, rest + [Context(j, under + [f])], after);
  }

  lemma ExitResumable(depth: nat, mark: Mark)
    ensures Resumable(ExitLinear(depth, mark))
  {
  }

  lemma RevisitsDone(cfg: Config, rest: seq<Context>, j: Journal, under: seq<Frame>, f: Frame)
    requires f.ResumeRevisits? && RevisitsLive(j, f)
    requires AllStacked(rest) && Sound(j) && MarkLe(f.mark, MarkOf(j)) && MarksAscend(under, f.mark)
    requires Alternatives(cfg, j, f) == [Task(j.graph, false)]
    ensures Advances(cfg, rest + [Context(j, under + [f])],
                     StepResult(rest + [Context(j, under + [ExitLinear(f.depth, f.mark), Enter(f.depth + 1, false)])],
                                []))
  {
    hide *;
    ExitResumable(f.depth, f.mark);
    var after := StepResult(rest + [Context(j, under + [ExitLinear(f.depth, f.mark), Enter(f.depth + 1, false)])], []);
    ResumeFrame(cfg, rest, j, under, f);
    VisitAllOne(cfg, Task(j.graph, false), f.depth + 1);
    EnterChild(cfg, rest, j, under, ExitLinear(f.depth, f.mark), f.depth + 1, false);
    ExitIsEmpty(cfg, j, ExitLinear(f.depth, f.mark));
    var v, u, r := Visit(cfg, j.graph, f.depth + 1, false), UnderRemaining(cfg, j, under), Remaining(cfg, rest);
    assert v + u + r == [] + (v + ([] + u) + r);
    MakeAdvances(cfg, rest + [Context(j, under + [f])], after);
  }

  lemma RevisitsResumeAdvances(cfg: Config, rest: seq<Context>, j: Journal, under: seq<Frame>, f: Frame)
    requires f.ResumeRevisits? && RevisitsLive(j, f)
    requires AllStacked(rest) && Sound(j) && MarkLe(f.mark, MarkOf(j)) && MarksAscend(under, f.mark)
    ensures Advances(cfg, rest + [Context(j, under + [f])], StepRevisits(cfg, rest, j, under, f))
  {
    hide AllStacked, MarksAscend, Alternatives, NextRevisit, Advances;
    var next := NextRevisit(j.graph, f.send, cfg.model, f.receives, f.cursor);
    RevisitAlternatives(cfg, j, f);
    match next.1
    case Some(child) =>
      RevisitStarts(cfg, rest, j, under, f, ResumeRevisits(f.depth, f.mark, f.send, f.receives, next.0), child);
    case None =>
      RevisitsDone(cfg, rest, j, under, f);
  }

  lemma ExitIsEmpty(cfg: Config, j: Journal, f: Frame)
    requires f.ExitLinear? && Sound(j) && MarkLe(f.mark, MarkOf(j))
    ensures FrameRemaining(cfg, j, f) == [] && FrameCost(cfg, j, f) == 1
  {
  }

  /** One step of the machine: nothing is lost, repeated or reordered, and fewer steps are left. */
  lemma StepAdvances(cfg: Config, contexts: seq<Context>)
    requires contexts != [] && AllStacked(contexts)
    ensures Advances(cfg, contexts, Step(cfg, contexts))
  {
    hide Advances, StepEnter, StepChoice, StepReceive, StepRevisits;
    var rest, c := Below(contexts), Top(contexts);
    assert Stacked(c);
    var j, under, f := c.journal, Below(c.frames), Top(c.frames);
    assert contexts == rest + [c] && c == Context(j, under + [f]);
    match f
    case Enter(depth, guarded) => EnterAdvances(cfg, rest, j, under, depth, guarded);
    case ExitLinear(_, _) => ExhaustedAdvances(cfg, rest, j, under, f);
    case ResumeChoice(_, _, _, _, _) => ChoiceResumeAdvances(cfg, rest, j, under, f);
    case ResumeReceive(_, _, _, _, _, _, _) => ReceiveResumeAdvances(cfg, rest, j, under, f);
    case ResumeRevisits(_, _, _, _, _) => RevisitsResumeAdvances(cfg, rest, j, under, f);
  }

  // ----- handing off -----

  /** What is handed off and what is kept make up what there was. */
  ghost predicate Divides(cfg: Config, before: seq<Context>, h: Handoff)
  {
    && AllStacked(before) && AllStacked(h.contexts)
    && Remaining(cfg, before) == Visit(cfg, h.task.graph, h.depth, h.task.guarded) + Remaining(cfg, h.contexts)
    && StepsLeft(cfg, h.contexts) + Cost(cfg, h.task.graph, h.depth, h.task.guarded) < StepsLeft(cfg, before)
  }

  /** The frame keeps the alternatives after the first, over a journal that rolls back alike. */
  lemma HandoffDivides(cfg: Config, rest: seq<Context>, j: Journal, under: seq<Frame>, f: Frame, f': Frame,
                       k: Journal, task: Task)
    requires !f.Enter? && !f'.Enter? && f'.mark == f.mark && f'.depth == f.depth
    requires AllStacked(rest) && Sound(j) && MarkLe(f.mark, MarkOf(j)) && MarksAscend(under, f.mark)
    requires AgreeBelow(k, j, f.mark) && Sound(k) && MarkLe(f.mark, MarkOf(k))
    requires (f.ResumeRevisits? ==> RevisitsLive(j, f)) && (f'.ResumeRevisits? ==> RevisitsLive(k, f'))
    requires Alternatives(cfg, j, f) != [] && Alternatives(cfg, j, f)[0] == task
    requires Alternatives(cfg, k, f') == Alternatives(cfg, j, f)[1..]
    ensures Divides(cfg, rest + [Context(j, under + [f])],
                    Handoff(task, f.depth + 1, rest + [Context(k, under + [f'])]))
  {
    hide *;
    ResumeFrame(cfg, rest, j, under, f);
    ResumeFrame(cfg, rest, k, under, f');
    UnderAgrees(cfg, k, j, under, f.mark);
    VisitAllFirst(cfg, Alternatives(cfg, j, f), f.depth + 1);
    var v, w := Visit(cfg, task.graph, f.depth + 1, task.guarded), VisitAll(cfg, Alternatives(cfg, k, f'), f.depth + 1);
    var u, r := UnderRemaining(cfg, j, under), Remaining(cfg, rest);
    assert v + w + u + r == v + (w + u + r);
    MakeDivides(cfg, rest + [Context(j, under + [f])], Handoff(task, f.depth + 1, rest + [Context(k, under + [f'])]));
  }

  lemma MakeDivides(cfg: Config, before: seq<Context>, h: Handoff)
    requires AllStacked(before) && AllStacked(h.contexts)
    requires Remaining(cfg, before) == Visit(cfg, h.task.graph, h.depth, h.task.guarded) + Remaining(cfg, h.contexts)
    requires StepsLeft(cfg, h.contexts) + Cost(cfg, h.task.graph, h.depth, h.task.guarded) < StepsLeft(cfg, before)
    ensures Divides(cfg, before, h)
  {
  }

  lemma ChoiceSplits(cfg: Config, rest: seq<Context>, j: Journal, under: seq<Frame>, f: Frame)
    requires f.ResumeChoice? && f.cursor + 1 < |f.choices|
    requires AllStacked(rest) && Sound(j) && MarkLe(f.mark, MarkOf(j)) && MarksAscend(under, f.mark)
    ensures var base := Undo(j, f.mark);
            Divides(cfg, rest + [Context(j, under + [f])],
                    Handoff(Task(AddEvent(base.graph, f.thread, Choice(f.choices[f.cursor], f.choices)), false),
                            f.depth + 1, rest + [Context(base,
                                                         under + [ResumeChoice(f.depth, f.mark, f.thread, f.choices,
                                                             f.cursor + 1)])]))
  {
    hide Undo, Divides, AgreeBelow, AllStacked, MarksAscend, ChoiceTasks;
    var base := Undo(j, f.mark);
    var f' := ResumeChoice(f.depth, f.mark, f.thread, f.choices, f.cursor + 1);
    UndoAgrees(j, f.mark);
    AgreeBounds(base, j, f.mark);
    ChoiceTasksTail(base.graph, f.thread, f.choices, f.cursor);
    HandoffDivides(cfg, rest, j, under, f, f', base,
                   Task(AddEvent(base.graph, f.thread, Choice(f.choices[f.cursor], f.choices)), false));
  }

  lemma ReceiveSplits(cfg: Config, rest: seq<Context>, j: Journal, under: seq<Frame>, f: Frame)
    requires f.ResumeReceive? && f.cursor < |f.sends|
    requires AllStacked(rest) && Sound(j) && MarkLe(f.mark, MarkOf(j)) && MarksAscend(under, f.mark)
    ensures var base := Undo(j, f.mark);
            Divides(cfg, rest + [Context(j, under + [f])],
                    Handoff(Task(AddReceive(base.graph, f.thread, f.op, From(f.sends[f.cursor])), true), f.depth + 1,
                            rest + [Context(base, under + [NextSource(f)])]))
  {
    hide Undo, Divides, AgreeBelow, AllStacked, MarksAscend, SourceTasks;
    var base := Undo(j, f.mark);
    UndoAgrees(j, f.mark);
    AgreeBounds(base, j, f.mark);
    SourceTasksTail(base.graph, f.thread, f.op, f.sends, f.cursor, f.bottom);
    HandoffDivides(cfg, rest, j, under, f, NextSource(f), base,
                   Task(AddReceive(base.graph, f.thread, f.op, From(f.sends[f.cursor])), true));
  }

  lemma RevisitSplits(cfg: Config, rest: seq<Context>, j: Journal, under: seq<Frame>, f: Frame)
    requires f.ResumeRevisits? && RevisitsLive(j, f)
    requires AllStacked(rest) && Sound(j) && MarkLe(f.mark, MarkOf(j)) && MarksAscend(under, f.mark)
    ensures var next := NextRevisit(j.graph, f.send, cfg.model, f.receives, f.cursor);
            next.1.Some? ==>
              Divides(cfg, rest + [Context(j, under + [f])],
                      Handoff(Task(next.1.value, true), f.depth + 1,
                              rest + [Context(j, under + [ResumeRevisits(f.depth, f.mark, f.send, f.receives,
                                  next.0)])]))
  {
    hide AllStacked, MarksAscend, Alternatives, NextRevisit, Divides, AgreeBelow;
    var next := NextRevisit(j.graph, f.send, cfg.model, f.receives, f.cursor);
    RevisitAlternatives(cfg, j, f);
    if next.1.Some? {
      AgreeReflexive(j, f.mark);
      HandoffDivides(cfg, rest, j, under, f, ResumeRevisits(f.depth, f.mark, f.send, f.receives, next.0), j,
                     Task(next.1.value, true));
    }
  }

  /** A successful hand-off loses and repeats nothing. */
  lemma SplitDivides(cfg: Config, contexts: seq<Context>)
    requires contexts != [] && AllStacked(contexts)
    ensures Stacked(Top(contexts))
    ensures Split(cfg, contexts).Some? ==> Divides(cfg, contexts, Split(cfg, contexts).value)
  {
    hide Divides, Undo, NextRevisit, AddReceive;
    var rest, c := Below(contexts), Top(contexts);
    assert Stacked(c);
    var j, under, f := c.journal, Below(c.frames), Top(c.frames);
    assert contexts == rest + [c] && c == Context(j, under + [f]);
    if f.ResumeChoice? && f.cursor + 1 < |f.choices| {
      ChoiceSplits(cfg, rest, j, under, f);
    } else if f.ResumeReceive? && f.cursor < |f.sends| {
      ReceiveSplits(cfg, rest, j, under, f);
    } else if f.ResumeRevisits? {
      RevisitSplits(cfg, rest, j, under, f);
    }
  }
}
