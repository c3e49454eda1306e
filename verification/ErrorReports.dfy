/** Errors: within its bounds the search reports one exactly when the exhaustive enumeration can run into one; and an
    error it reports can hide executions. */
module ErrorReports {
  import opened Optional
  import opened Events
  import opened Consistency
  import opened Subgraphs
  import opened Replay
  import opened Revisits
  import opened Engine
  import opened Invariants
  import opened Oracle
  import opened OracleSoundness
  import opened Branches
  import opened Completeness

  /** Some branch of the enumeration comes to a graph in which a live thread answers with an error. */
  ghost predicate ErrorReachable(p: Program, m: CommunicationModel)
  {
    exists graphs: seq<Graph>, tr: Transition ::
      Branch(p, m, graphs) && Enabled(p, graphs[|graphs| - 1], tr) && tr.op.Error?
  }

  ghost predicate ErrorPublished(published: seq<Terminal>)
  {
    exists e :: e in published && e.kind.ErrorFound?
  }

  /** Neither the depth bound nor the bound on a thread's events was hit. */
  ghost predicate WithinBounds(published: seq<Terminal>)
  {
    forall e :: e in published ==> !e.kind.DepthLimit? && !e.kind.ThreadEventLimit?
  }

  /** No reachable error is missed. */
  lemma ErrorIsFound(cfg: Config)
    requires ValidProgram(cfg.program) && WithinBounds(Executions(cfg)) && ErrorReachable(cfg.program, cfg.model)
    ensures ErrorPublished(Executions(cfg))
  {
    hide Visit, ValidProgram, Enabled, Edge;
    var graphs: seq<Graph>, tr: Transition :|
      Branch(cfg.program, cfg.model, graphs) && Enabled(cfg.program, graphs[|graphs| - 1], tr) && tr.op.Error?;
    if !ErrorPublished(Executions(cfg)) {
      assert Unhindered(cfg);
      BranchGood(cfg, graphs, |graphs| - 1);
      StepIsNoError(cfg, graphs[|graphs| - 1], tr);
      ErrorAnswered(cfg.program, graphs[|graphs| - 1], tr);
    }
  }

  lemma ErrorAnswered(p: Program, g: Graph, tr: Transition)
    requires Enabled(p, g, tr) && tr.op.Error?
    ensures Asked(p, g, tr.thread).Some? && Asked(p, g, tr.thread).value.Error?
  {
    hide Trace, Steps, Terminated, CompatibleSends, CompatibleUnread;
  }

  // ----- a reported error is reachable -----

  ghost function StepMask(g: Graph): (keep: Mask)
    ensures |keep| == |g.events| && forall y: nat :: Keeps(keep, y) <==> y < |g.events| && !IsBlock(g, y)
  {
    seq(|g.events|, (y: nat) => !IsBlock(g, y))
  }

  /** The graph without its Blocks. */
  ghost function Unblocked(g: Graph): Graph
  {
    Restrict(g, StepMask(g))
  }

  lemma UnblockedIsCausal(p: Program, g: Graph)
    requires Shaped(p, g) && WellFormed(g)
    ensures var f := KeptIds(StepMask(g)); Subgraph(Unblocked(g), g, f) && PrefixClosed(g, f) && ReadClosed(g, f)
  {
    var f := KeptIds(StepMask(g));
    RestrictIsSubgraph(g, StepMask(g));
    forall r | r in f && r in g.rf && g.rf[r].From? ensures g.rf[r].send in f { assert GoodRead(g, r); }
  }

  lemma UnblockedGood(cfg: Config, g: Graph)
    requires Good(cfg, g)
    ensures Good(cfg, Unblocked(g)) && AllStuck(cfg.program, Unblocked(g))
  {
    hide PrefixClosed, ReadClosed, Subgraph, ReplayValid, Shaped, WellFormed, CausallyAcyclic, ModelClauses, ReadsTotal,
         StuckAt, StepMask;
    var h, f := Unblocked(g), KeptIds(StepMask(g));
    UnblockedIsCausal(cfg.program, g);
    CausalCopyIsConsistent(h, g, f, cfg.model);
    CausalCopyReplays(cfg.program, h, g, f);
    CopyKeepsShape(cfg.program, h, g, f);
    forall b: nat ensures !IsBlock(h, b) { UnblockedEvent(g, b); }
  }

  lemma UnblockedEvent(g: Graph, b: nat)
    ensures !IsBlock(Unblocked(g), b)
  {
    var f := KeptIds(StepMask(g));
    if b < |f| { assert f[b] in f; }
  }

  /** A thread that has no Block gives the same answer there. */
  lemma UnblockedThread(p: Program, g: Graph, t: ThreadId)
    requires Shaped(p, g) && WellFormed(g) && !Terminated(g, t)
    ensures Asked(p, Unblocked(g), t) == Asked(p, g, t) && !Terminated(Unblocked(g), t)
  {
    hide Shaped, WellFormed, TraceUpTo, StepsUpTo, PrefixClosed;
    var h, f := Unblocked(g), KeptIds(StepMask(g));
    UnblockedIsCausal(p, g);
    SubgraphLength(h, g, f);
    UnblockedCovers(p, g, t);
    ReadClosedThread(g, f, t);
    TraceCopied(h, g, f, t, |f|, |g.events|);
    UnblockedLive(p, g, t);
  }

  lemma UnblockedCovers(p: Program, g: Graph, t: ThreadId)
    requires Shaped(p, g) && !Terminated(g, t)
    ensures var f := KeptIds(StepMask(g)); Selection(g, f) && CoversThread(g, f, t, |f|, |g.events|)
  {
    var f := KeptIds(StepMask(g));
    assert f[..|f|] == f;
    forall y | 0 <= y < |g.events| && g.events[y].thread == t ensures y in f {
      if IsBlock(g, y) { BlockTerminates(p, g, y); }
    }
  }

  lemma UnblockedLive(p: Program, g: Graph, t: ThreadId)
    requires Shaped(p, g)
    ensures !Terminated(Unblocked(g), t)
  {
    var h, last := Unblocked(g), LastEvent(Unblocked(g), t);
    if last.Some? {
      UnblockedEvent(g, last.value);
      assert h.events[last.value] == g.events[KeptIds(StepMask(g))[last.value]];
    }
  }

  /** An error that is published can be run into. */
  lemma ErrorIsReal(cfg: Config, e: Terminal)
    requires ValidProgram(cfg.program) && e in Executions(cfg) && e.kind.ErrorFound?
    ensures ErrorReachable(cfg.program, cfg.model)
  {
    hide Visit, ValidProgram, TerminalSound, Good, AllStuck, Schedule, Subgraph, Edge, Unblocked, Enabled;
    ExecutionsSound(cfg);
    ErrorParts(cfg, e);
    var g, t, op := Front(e.graph), e.graph.events[|e.graph.events| - 1].thread,
        e.graph.events[|e.graph.events| - 1].op;
    var x := Unblocked(g);
    UnblockedGood(cfg, g);
    GoodParts(cfg, g);
    GoodParts(cfg, x);
    UnblockedThread(cfg.program, g, t);
    var order := ScheduleExists(cfg.program, x);
    var graphs := ReplayedRun(cfg, x, order, |order|);
    assert order[..|order|] == order;
    FullCopyThread(cfg.program, graphs[|graphs| - 1], x, order, t);
    ErrorEnabled(cfg.program, graphs[|graphs| - 1], t, op);
    assert Enabled(cfg.program, graphs[|graphs| - 1], Transition(t, op, None));
  }

  lemma ErrorParts(cfg: Config, e: Terminal)
    requires TerminalSound(cfg, e) && e.kind.ErrorFound?
    ensures |e.graph.events| > 0 && Good(cfg, Front(e.graph))
    ensures var last := e.graph.events[|e.graph.events| - 1];
            && last.op.Error? && InProgram(cfg.program, last.thread) && !Terminated(Front(e.graph), last.thread)
            && Asked(cfg.program, Front(e.graph), last.thread) == Some(last.op)
  {
    hide Good, Consistent, ReplayValid, Terminated, Trace, Steps, AtCap, CompatibleSends;
  }

  lemma ErrorEnabled(p: Program, g: Graph, t: ThreadId, op: Label)
    requires InProgram(p, t) && !Terminated(g, t) && Asked(p, g, t) == Some(op) && op.Error?
    ensures Enabled(p, g, Transition(t, op, None))
  {
    hide Trace, Steps, Terminated;
  }

  /** Within its bounds the search reports an error if and only if one can be run into. */
  lemma ErrorsAreExact(cfg: Config)
    requires ValidProgram(cfg.program) && WithinBounds(Executions(cfg))
    ensures ErrorPublished(Executions(cfg)) <==> ErrorReachable(cfg.program, cfg.model)
  {
    hide Visit, ValidProgram, ErrorReachable;
    if ErrorReachable(cfg.program, cfg.model) { ErrorIsFound(cfg); }
    if e :| e in Executions(cfg) && e.kind.ErrorFound? { ErrorIsReal(cfg, e); }
  }

  /** What was published says all there is to say: with nothing cut off, whether an error can be run into; and then, if
      none can, every execution there is and no other. */
  ghost predicate MatchesEnumeration(cfg: Config, published: seq<Terminal>)
  {
    WithinBounds(published) ==>
      && (ErrorPublished(published) <==> ErrorReachable(cfg.program, cfg.model))
      && (!ErrorPublished(published) ==>
            && (forall e :: e in published ==> Recorded(cfg.program, cfg.model, e.graph))
            && (forall graphs: seq<Graph> ::
                  Branch(cfg.program, cfg.model, graphs) && Leaf(cfg.program, graphs[|graphs| - 1]) ==>
                    Published(published, graphs[|graphs| - 1])))
  }

  lemma SearchMatchesEnumeration(cfg: Config)
    requires ValidProgram(cfg.program)
    ensures MatchesEnumeration(cfg, Executions(cfg))
  {
    hide Visit, ValidProgram, ErrorReachable, Recorded, Edge, Leaf, Published;
    if WithinBounds(Executions(cfg)) {
      ErrorsAreExact(cfg);
      if !ErrorPublished(Executions(cfg)) {
        assert Unhindered(cfg);
        forall e | e in Executions(cfg) ensures Recorded(cfg.program, cfg.model, e.graph) {
          PublishedIsRecorded(cfg, e);
        }
        forall graphs: seq<Graph> | Branch(cfg.program, cfg.model, graphs) && Leaf(cfg.program, graphs[|graphs| - 1])
          ensures Published(Executions(cfg), graphs[|graphs| - 1])
        {
          RecordedIsPublished(cfg, graphs);
        }
      }
    }
  }

  // ----- a reported error can hide executions -----

  const ANY: Label := Receive(false, (v: Value) => true)

  /** Thread 0 polls once and fails when nothing has arrived; thread 1 sends it a message. */
  function HastyNext(t: ThreadId, trace: seq<Observed>, step: nat): Option<Label>
  {
    if t == 0 then
      if trace == [] then Some(ANY) else if trace == [SeenBottom] then Some(Error("nothing arrived")) else None
    else if t == 1 && step == 0 then Some(Send(0, 7))
    else None
  }

  ghost function Hasty(m: CommunicationModel): Config
  {
    Config(Program(0, 2, HastyNext), 2, 0, m)
  }

  ghost function Polled(): Graph
  {
    AddReceive(EmptyGraph, 0, ANY, Bottom)
  }

  lemma HastyPolls(m: CommunicationModel)
    ensures NextEvent(Hasty(m), EmptyGraph) == Next(0, ANY)
    ensures Children(Hasty(m), EmptyGraph, 0, ANY) == [Task(Polled(), true)]
  {
    EmptyTrace(0);
    assert CompatibleSends(EmptyGraph, 0, ANY) == [];
    assert SourceTasks(EmptyGraph, 0, ANY, []) == [];
  }

  lemma HastyFails(m: CommunicationModel)
    ensures NextEvent(Hasty(m), Polled()) == Next(0, Error("nothing arrived"))
  {
    hide Trace, Steps, CompatibleSends;
    EmptyTrace(0);
    TraceReceives(EmptyGraph, 0, ANY, Bottom, 0);
    PolledIsLive();
    assert Trace(Polled(), 0) == [SeenBottom];
  }

  lemma PolledIsLive()
    ensures !Terminated(Polled(), 0)
  {
    assert ThreadIds(Polled(), 0, 1) == [0];
  }

  lemma HastyExecutions(m: CommunicationModel)
    ensures |Executions(Hasty(m))| == 1 && Executions(Hasty(m))[0].kind.ErrorFound?
  {
    hide NextEvent, Visit, VisitAll, Children, Polled, Good, Consistent;
    var cfg := Hasty(m);
    HastyPolls(m);
    VisitNext(cfg, EmptyGraph, 0);
    OneTask(cfg, Task(Polled(), true), 1);
    EmptyGraphPending(cfg);
    assert Consistent(EmptyGraph, m);
    PolledConsistent(m);
    VisitGuarded(cfg, Polled(), 1, true);
    HastyFails(m);
    VisitNext(cfg, Polled(), 1);
  }

  lemma OneTask(cfg: Config, task: Task, depth: nat)
    ensures VisitAll(cfg, [task], depth) == Visit(cfg, task.graph, depth, task.guarded)
  {
    hide Visit;
    assert [task][1..] == [];
    assert VisitAll(cfg, [], depth) == [];
  }

  lemma PolledConsistent(m: CommunicationModel)
    requires Consistent(EmptyGraph, m)
    ensures Consistent(Polled(), m)
  {
    hide Consistent;
    ReceiveConsistent(EmptyGraph, 0, ANY, Bottom, m);
  }

  // the run in which the message arrives in time

  ghost function Posted(): Graph
  {
    AddEvent(EmptyGraph, 1, Send(0, 7))
  }

  ghost function Delivered(): Graph
  {
    AddReceive(Posted(), 0, ANY, From(0))
  }

  lemma PostedStep(m: CommunicationModel)
    ensures Edge(Hasty(m).program, m, EmptyGraph, Posted()) && Consistent(Posted(), m)
  {
    hide Consistent;
    EmptyTrace(1);
    EmptyGraphPending(Hasty(m));
    assert Consistent(EmptyGraph, m);
    AppendConsistent(EmptyGraph, 1, Send(0, 7), m);
    var tr := Transition(1, Send(0, 7), None);
    assert Enabled(Hasty(m).program, EmptyGraph, tr) && Posted() == Apply(EmptyGraph, tr);
  }

  lemma DeliveredStep(m: CommunicationModel)
    requires Consistent(Posted(), m)
    ensures Edge(Hasty(m).program, m, Posted(), Delivered())
  {
    hide Consistent;
    EmptyTrace(0);
    TraceGrows(EmptyGraph, 1, Send(0, 7), 0);
    assert ThreadIds(Posted(), 0, 1) == [];
    assert CompatibleUnread(Posted(), 0, ANY, 0);
    ReceiveConsistent(Posted(), 0, ANY, From(0), m);
    var tr := Transition(0, ANY, Some(From(0)));
    assert Enabled(Hasty(m).program, Posted(), tr) && Delivered() == Apply(Posted(), tr);
  }

  lemma DeliveredAnswers(m: CommunicationModel, t: ThreadId)
    ensures Asked(Hasty(m).program, Delivered(), t) == None
  {
    hide Trace, Steps;
    EmptyTrace(t);
    TraceGrows(EmptyGraph, 1, Send(0, 7), t);
    TraceReceives(Posted(), 0, ANY, From(0), t);
    assert Trace(Delivered(), t) == if t == 0 then [Seen(7)] else [];
  }

  lemma DeliveredIsLeaf(m: CommunicationModel)
    ensures Leaf(Hasty(m).program, Delivered())
  {
    hide Offers, Terminated, Asked, CompatibleSends, DropEvent;
    forall tr: Transition ensures !Enabled(Hasty(m).program, Delivered(), tr) { DeliveredAnswers(m, tr.thread); }
    assert forall b: nat :: !IsBlock(Delivered(), b);
  }

  /** Under either model there is a program of which the search, hitting no bound, publishes an error and misses an
      execution the enumeration records. */
  lemma ErrorHidesExecutions(m: CommunicationModel)
    ensures exists cfg: Config, graphs: seq<Graph> ::
              && ValidProgram(cfg.program) && cfg.model == m && WithinBounds(Executions(cfg))
                 && ErrorPublished(Executions(cfg))
              && Branch(cfg.program, m, graphs) && Leaf(cfg.program, graphs[|graphs| - 1])
              && !Published(Executions(cfg), graphs[|graphs| - 1])
  {
    hide Visit, Edge, Leaf, Polled, Delivered, Posted;
    var cfg, graphs := Hasty(m), [EmptyGraph, Posted(), Delivered()];
    HastyExecutions(m);
    assert forall e :: e in Executions(cfg) ==> e == Executions(cfg)[0];
    assert Executions(cfg)[0] in Executions(cfg);
    PostedStep(m);
    DeliveredStep(m);
    DeliveredIsLeaf(m);
    assert ValidProgram(cfg.program);
    assert Branch(cfg.program, m, graphs) && Leaf(cfg.program, graphs[|graphs| - 1]);
    assert !Published(Executions(cfg), graphs[|graphs| - 1]);
  }
}
