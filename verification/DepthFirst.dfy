/** The depth-first explorer: it mutates one graph per context in place and rolls it back. */
module DepthFirst {
  import opened Optional
  import opened Events
  import opened Consistency
  import opened Engine
  import opened Invariants
  import opened Journals
  import opened Machine
  import opened MachineRefinement
  import opened GraphCaches
  import opened ExplorationGraphs
  import opened MaskedTiebreaker
  import opened RevisitSearch
  import opened EngineSteps
  import opened ExplorerFrames

  /** A graph object, the frames under the topmost one and the topmost one. */
  ghost predicate TopOk(cfg: Config, graph: ExplorationGraph, under: seq<SavedFrame>, f: SavedFrame)
    reads graph
  {
    && graph.Valid() && FramesOk(cfg, graph.JournalOf(), under) && FrameOk(cfg, graph.JournalOf(), f)
    && Stacked(Context(graph.JournalOf(), FramesOf(under) + [f.frame]))
  }

  /** The context once its topmost frame was handled; `base` is what popping all frames goes back to. */
  ghost predicate Handled(cfg: Config, graph: ExplorationGraph, frames: seq<SavedFrame>, base: Journal, rooted: bool)
    reads graph
  {
    && graph.Valid() && FramesOk(cfg, graph.JournalOf(), frames)
    && (rooted ==> Rooted(base, graph.JournalOf(), FramesOf(frames)))
  }

  lemma StackedMeans(j: Journal, under: seq<Frame>, f: Frame)
    requires Stacked(Context(j, under + [f]))
    ensures Sound(j) && Fits(j, f) && MarksAscend(under, if f.Enter? then MarkOf(j) else f.mark)
  {
    var frames := under + [f];
    assert Top(frames) == f && Below(frames) == under;
  }

  lemma AddedFrames(under: seq<SavedFrame>, a: SavedFrame, b: SavedFrame)
    ensures FramesOf(under + [a, b]) == FramesOf(under) + [a.frame, b.frame]
  {
  }

  method RollbackTo(cfg: Config, graph: ExplorationGraph, f: SavedFrame)
    requires graph.Valid() && FrameOk(cfg, graph.JournalOf(), f) && !f.frame.Enter?
    modifies graph
    ensures graph.Valid() && graph.JournalOf() == Undo(old(graph.JournalOf()), f.frame.mark)
  {
    hide ScansFor, FlagsFor, ClocksFor, Alternatives, AllPending, Undo, Tidy;
    var _ := graph.Rollback(CheckpointOf(f));
  }

  method HandleResumeChoice(cfg: Config, graph: ExplorationGraph, under: seq<SavedFrame>, f: SavedFrame,
                            ghost rest: seq<Context>, ghost base: Journal)
    returns (frames: seq<SavedFrame>)
    requires TopOk(cfg, graph, under, f) && f.frame.ResumeChoice?
    modifies graph
    ensures Handled(cfg, graph, frames, base, old(Rooted(base, graph.JournalOf(), FramesOf(under) + [f.frame])))
    ensures Fits(old(graph.JournalOf()), f.frame)
    ensures StepChoice(rest, old(graph.JournalOf()), FramesOf(under), f.frame)
            == StepResult(Settle(rest, Context(graph.JournalOf(), FramesOf(frames))), [])
  {
    hide ScansFor, Tidy, FlagsFor, ClocksFor, FrameOk, FramesOk, Stacked, Undo, AgreeBelow, Rooted, MarksAscend,
         Pending, FramesOf;
    ghost var j := graph.JournalOf();
    StackedMeans(j, FramesOf(under), f.frame);
    RollbackTo(cfg, graph, f);
    if f.frame.cursor >= |f.frame.choices| {
      PopRolledBack(cfg, base, j, under, f);
      return under;
    }
    var op := Choice(f.frame.choices[f.frame.cursor], f.frame.choices);
    var _ := graph.AddEvent(f.frame.thread, op);
    ChoiceNext(cfg, j, f, graph.JournalOf());
    var enter := SavedFrame(Enter(f.frame.depth + 1, false), false, None);
    PushChild(cfg, base, j, graph.JournalOf(), under, f, NextChoice(f), enter);
    AddedFrames(under, NextChoice(f), enter);
    frames := under + [NextChoice(f), enter];
  }

  method HandleResumeReceive(cfg: Config, graph: ExplorationGraph, under: seq<SavedFrame>, f: SavedFrame,
                             ghost rest: seq<Context>, ghost base: Journal)
    returns (frames: seq<SavedFrame>)
    requires TopOk(cfg, graph, under, f) && f.frame.ResumeReceive?
    modifies graph
    ensures Handled(cfg, graph, frames, base, old(Rooted(base, graph.JournalOf(), FramesOf(under) + [f.frame])))
    ensures Fits(old(graph.JournalOf()), f.frame)
    ensures StepReceive(rest, old(graph.JournalOf()), FramesOf(under), f.frame)
            == StepResult(Settle(rest, Context(graph.JournalOf(), FramesOf(frames))), [])
  {
    hide ScansFor, Tidy, FlagsFor, ClocksFor, FrameOk, FramesOk, Stacked, Undo, AgreeBelow, Rooted, MarksAscend,
         Pending, FramesOf;
    ghost var j := graph.JournalOf();
    StackedMeans(j, FramesOf(under), f.frame);
    RollbackTo(cfg, graph, f);
    if f.frame.cursor >= |f.frame.sends| && !f.frame.bottom {
      PopRolledBack(cfg, base, j, under, f);
      return under;
    }
    ghost var k := AppendBound(graph.JournalOf(), f.frame.thread, f.frame.op, SourceAt(f.frame));
    ReceiveNext(cfg, j, f, k);
    SourceInside(cfg, graph.JournalOf(), f.frame);
    var id := graph.AddEvent(f.frame.thread, f.frame.op);
    graph.SetReadsFromSource(id, SourceAt(f.frame));
    var enter := SavedFrame(Enter(f.frame.depth + 1, true), false, None);
    PushChild(cfg, base, j, graph.JournalOf(), under, f, AfterSource(f), enter);
    AddedFrames(under, AfterSource(f), enter);
    frames := under + [AfterSource(f), enter];
  }

  /** A pending child binds its receive to an existing send. */
  lemma SourceInside(cfg: Config, j: Journal, f: Frame)
    requires f.ResumeReceive? && Pending(cfg, Task(AppendBound(j, f.thread, f.op, SourceAt(f)).graph, true))
    ensures Inside(Append(j, f.thread, f.op).graph, SourceAt(f))
  {
    var k := AppendBound(j, f.thread, f.op, SourceAt(f));
    assert GoodRead(k.graph, |j.graph.events|);
  }

  // ----- revisits -----

  /** A graph object to be entered in a context of its own. */
  datatype Child = Child(graph: ExplorationGraph, depth: nat, guarded: bool)

  ghost function ChildContexts(child: Option<Child>): seq<Context>
    reads if child.Some? then {child.value.graph} else {}
  {
    if child.Some? then [NewContext(child.value.graph.graph, child.value.depth, child.value.guarded)] else []
  }

  ghost predicate ChildOk(cfg: Config, child: Option<Child>)
    reads if child.Some? then {child.value.graph} else {}
  {
    child.Some? ==>
      && child.value.graph.Valid()
      && child.value.graph.JournalOf() == Fresh(child.value.graph.graph)
      && Pending(cfg, Task(child.value.graph.graph, child.value.guarded))
  }

  lemma GoodIsConsistent(cfg: Config, g: Graph)
    requires Good(cfg, g)
    ensures Consistent(g, cfg.model) && WellFormed(g)
  {
  }

  /** The topmost frame moved on; the graph did not change. */
  lemma TopAdvanced(cfg: Config, base: Journal, j: Journal, under: seq<SavedFrame>, f: SavedFrame, f': SavedFrame)
    requires FramesOk(cfg, j, under) && FrameOk(cfg, j, f') && !f.frame.Enter? && !f'.frame.Enter?
             && f.frame.mark == f'.frame.mark
    ensures FramesOk(cfg, j, under + [f'])
    ensures Rooted(base, j, FramesOf(under) + [f.frame]) ==> Rooted(base, j, FramesOf(under + [f']))
  {
    hide FrameOk, Undo;
    FramesOfPush(under, f');
  }

  lemma ExitForRevisits(cfg: Config, j: Journal, f: SavedFrame)
    requires f.frame.ResumeRevisits? && FrameOk(cfg, j, f)
    ensures FrameOk(cfg, j, SavedFrame(ExitLinear(f.frame.depth, f.frame.mark), f.known, f.pending))
  {
    ExitOk(cfg, j, SavedFrame(ExitLinear(f.frame.depth, f.frame.mark), f.known, f.pending));
  }

  lemma RevisitFacts(cfg: Config, j: Journal, f: SavedFrame)
    requires f.frame.ResumeRevisits? && FrameOk(cfg, j, f)
    ensures Revisiting(j.graph, f.frame.send, f.frame.receives) && RevisitsLive(j, f.frame)
  {
  }

  method HandleResumeRevisits(cfg: Config, scratch: MaskedContext, graph: ExplorationGraph, under: seq<SavedFrame>,
                              f: SavedFrame, ghost rest: seq<Context>, ghost base: Journal)
    returns (frames: seq<SavedFrame>, child: Option<Child>)
    requires TopOk(cfg, graph, under, f) && f.frame.ResumeRevisits?
    modifies graph, scratch
    ensures Handled(cfg, graph, frames, base, old(Rooted(base, graph.JournalOf(), FramesOf(under) + [f.frame])))
    ensures ChildOk(cfg, child) && (child.Some? ==> fresh(child.value.graph))
    ensures RevisitsLive(old(graph.JournalOf()), f.frame)
    ensures StepRevisits(cfg, rest, old(graph.JournalOf()), FramesOf(under), f.frame)
            == StepResult(Settle(rest, Context(graph.JournalOf(), FramesOf(frames))) + ChildContexts(child), [])
  {
    hide ScansFor, Tidy, FlagsFor, ClocksFor, FrameOk, FramesOk, Stacked, Undo, AgreeBelow, Rooted, MarksAscend,
         Pending, FramesOf, Good, Consistent, Revisiting, NextRevisit, RevisitsLive;
    ghost var j := graph.JournalOf();
    StackedMeans(j, FramesOf(under), f.frame);
    RevisitGraphGood(cfg, j, f);
    GoodIsConsistent(cfg, j.graph);
    RevisitFacts(cfg, j, f);
    RevisitNext(cfg, j, f);
    var next, found := NextBackwardRevisitChild(scratch, graph, f.frame.send, cfg.model, f.frame.receives,
                                                f.frame.cursor);
    if found.Some? {
      var f' := AfterRevisit(f, next);
      TopAdvanced(cfg, base, j, under, f, f');
      FramesOfPush(under, f');
      frames, child := under + [f'], Some(Child(found.value, f.frame.depth + 1, true));
      return;
    }
    var exit := SavedFrame(ExitLinear(f.frame.depth, f.frame.mark), f.known, f.pending);
    var enter := SavedFrame(Enter(f.frame.depth + 1, false), false, None);
    ExitForRevisits(cfg, j, f);
    AgreeReflexive(j, f.frame.mark);
    UnguardedIsGood(cfg, j.graph);
    PushChild(cfg, base, j, j, under, f, exit, enter);
    AddedFrames(under, exit, enter);
    frames, child := under + [exit, enter], None;
  }

  // ----- entering -----

  lemma TakenHere(graph: ExplorationGraph, at: Checkpoint)
    requires graph.Valid() && at == Checkpoint(MarkOf(graph.JournalOf()), graph.knownAcyclic, graph.pendingFresh)
    ensures TakenAt(at, graph.JournalOf())
  {
    ScansSound(graph.JournalOf(), graph.tables);
  }

  /** A good graph object about to record `op` of thread `t`, its Enter frame on top. */
  ghost predicate Recording(cfg: Config, graph: ExplorationGraph, under: seq<SavedFrame>, f: SavedFrame, t: ThreadId,
                            op: Label)
    reads graph
  {
    && graph.Valid() && f.frame.Enter? && FramesOk(cfg, graph.JournalOf(), under)
    && MarksAscend(FramesOf(under), MarkOf(graph.JournalOf())) && Recordable(cfg, graph.graph, t, op)
  }

  lemma RecordedFrames(cfg: Config, base: Journal, j: Journal, k: Journal, under: seq<SavedFrame>, f: SavedFrame,
                       f': SavedFrame)
    requires f.frame.Enter? && FramesOk(cfg, j, under) && MarksAscend(FramesOf(under), MarkOf(j))
             && AgreeBelow(k, j, MarkOf(j))
    requires !f'.frame.Enter? && f'.frame.mark == MarkOf(j) && FrameOk(cfg, k, f')
    ensures FramesOk(cfg, k, under + [f'])
    ensures Rooted(base, j, FramesOf(under) + [f.frame]) ==> Rooted(base, k, FramesOf(under + [f']))
  {
    hide FrameOk, AgreeBelow, Rooted;
    ReplaceEnter(cfg, base, j, k, under, f, [f']);
  }

  lemma RecordedLinear(cfg: Config, base: Journal, j: Journal, k: Journal, under: seq<SavedFrame>, f: SavedFrame,
                       exit: SavedFrame, enter: SavedFrame)
    requires f.frame.Enter? && FramesOk(cfg, j, under) && MarksAscend(FramesOf(under), MarkOf(j))
             && AgreeBelow(k, j, MarkOf(j))
    requires exit.frame.ExitLinear? && exit.frame.mark == MarkOf(j) && FrameOk(cfg, k, exit)
    requires enter.frame.Enter? && Pending(cfg, Task(k.graph, enter.frame.guarded))
    ensures FramesOk(cfg, k, under + [exit, enter])
    ensures Rooted(base, j, FramesOf(under) + [f.frame]) ==> Rooted(base, k, FramesOf(under + [exit, enter]))
  {
    hide FrameOk, AgreeBelow, Rooted, Pending;
    AgreeSound(k, j, MarkOf(j));
    EnterOk(cfg, k, enter.frame.depth, enter.frame.guarded, enter.known, enter.pending);
    ReplaceEnter(cfg, base, j, k, under, f, [exit, enter]);
  }

  method RecordLinear(cfg: Config, graph: ExplorationGraph, under: seq<SavedFrame>, f: SavedFrame, t: ThreadId,
                      op: Label, ghost rest: seq<Context>, ghost base: Journal)
    returns (frames: seq<SavedFrame>)
    requires Recording(cfg, graph, under, f, t, op) && (op.Block? || (op.Choice? && op.choices == []))
    modifies graph
    ensures Handled(cfg, graph, frames, base, old(Rooted(base, graph.JournalOf(), FramesOf(under) + [f.frame])))
    ensures StepNext(cfg, rest, old(graph.JournalOf()), FramesOf(under), f.frame.depth, t, op)
            == StepResult(Settle(rest, Context(graph.JournalOf(), FramesOf(frames))), [])
  {
    hide ScansFor, Tidy, FlagsFor, ClocksFor, FrameOk, FramesOk, Undo, AgreeBelow, Rooted, MarksAscend, Pending,
         FramesOf, Recordable, TakenAt, Describes;
    ghost var j := graph.JournalOf();
    var at := graph.TakeCheckpoint();
    TakenHere(graph, at);
    var _ := graph.AddEvent(t, op);
    TakenDescribesAppended(at, j, t, op);
    StartLinear(cfg, j, at, f.frame.depth, t, op);
    var exit := SavedFrame(ExitLinear(f.frame.depth, at.mark), at.known, at.pending);
    var enter := SavedFrame(Enter(f.frame.depth + 1, false), false, None);
    RecordedLinear(cfg, base, j, graph.JournalOf(), under, f, exit, enter);
    AddedFrames(under, exit, enter);
    frames := under + [exit, enter];
  }

  method RecordChoice(cfg: Config, graph: ExplorationGraph, under: seq<SavedFrame>, f: SavedFrame, t: ThreadId,
                      op: Label, ghost rest: seq<Context>, ghost base: Journal)
    returns (frames: seq<SavedFrame>)
    requires Recording(cfg, graph, under, f, t, op) && op.Choice? && op.choices != []
    ensures Handled(cfg, graph, frames, base, Rooted(base, graph.JournalOf(), FramesOf(under) + [f.frame]))
    ensures StepNext(cfg, rest, graph.JournalOf(), FramesOf(under), f.frame.depth, t, op)
            == StepResult(Settle(rest, Context(graph.JournalOf(), FramesOf(frames))), [])
  {
    hide ScansFor, Tidy, FlagsFor, ClocksFor, FrameOk, FramesOk, Undo, AgreeBelow, Rooted, MarksAscend, Pending,
         FramesOf, Recordable, TakenAt, Describes;
    ghost var j := graph.JournalOf();
    var at := graph.TakeCheckpoint();
    TakenHere(graph, at);
    var choices := new Value[|op.choices|](i requires 0 <= i < |op.choices| => op.choices[i]);
    assert choices[..] == op.choices;
    var kept := EraseDuplicateChoices(choices);
    StartChoice(cfg, j, at, f.frame.depth, t, op);
    var f' := SavedFrame(ResumeChoice(f.frame.depth, at.mark, t, choices[..kept], 0), at.known, at.pending);
    AgreeReflexive(j, MarkOf(j));
    RecordedFrames(cfg, base, j, j, under, f, f');
    FramesOfPush(under, f');
    frames := under + [f'];
  }

  method RecordReceive(cfg: Config, graph: ExplorationGraph, under: seq<SavedFrame>, f: SavedFrame, t: ThreadId,
                       op: Label, ghost rest: seq<Context>, ghost base: Journal)
    returns (frames: seq<SavedFrame>)
    requires Recording(cfg, graph, under, f, t, op) && op.Receive?
    ensures Handled(cfg, graph, frames, base, Rooted(base, graph.JournalOf(), FramesOf(under) + [f.frame]))
    ensures StepNext(cfg, rest, graph.JournalOf(), FramesOf(under), f.frame.depth, t, op)
            == StepResult(Settle(rest, Context(graph.JournalOf(), FramesOf(frames))), [])
  {
    hide ScansFor, Tidy, FlagsFor, ClocksFor, FrameOk, FramesOk, Undo, AgreeBelow, Rooted, MarksAscend, Pending,
         FramesOf, Recordable, TakenAt, Describes, CompatibleSends;
    ghost var j := graph.JournalOf();
    var at := graph.TakeCheckpoint();
    TakenHere(graph, at);
    var sends := graph.CompatibleUnreadSends(t, op);
    StartReceive(cfg, j, at, f.frame.depth, t, op);
    var f' := SavedFrame(ResumeReceive(f.frame.depth, at.mark, t, op, sends, 0, !op.blocking), at.known, at.pending);
    AgreeReflexive(j, MarkOf(j));
    RecordedFrames(cfg, base, j, j, under, f, f');
    FramesOfPush(under, f');
    frames := under + [f'];
  }

  method RecordSend(cfg: Config, graph: ExplorationGraph, under: seq<SavedFrame>, f: SavedFrame, t: ThreadId, op: Label,
                    ghost rest: seq<Context>, ghost base: Journal)
    returns (frames: seq<SavedFrame>)
    requires Recording(cfg, graph, under, f, t, op) && op.Send?
    modifies graph
    ensures Handled(cfg, graph, frames, base, old(Rooted(base, graph.JournalOf(), FramesOf(under) + [f.frame])))
    ensures StepNext(cfg, rest, old(graph.JournalOf()), FramesOf(under), f.frame.depth, t, op)
            == StepResult(Settle(rest, Context(graph.JournalOf(), FramesOf(frames))), [])
  {
    hide ScansFor, Tidy, FlagsFor, ClocksFor, FrameOk, FramesOk, Undo, AgreeBelow, Rooted, MarksAscend, Pending,
         FramesOf, Recordable, TakenAt, Describes, DestinationReceives;
    ghost var j := graph.JournalOf();
    var at := graph.TakeCheckpoint();
    TakenHere(graph, at);
    var send := graph.AddEvent(t, op);
    TakenDescribesAppended(at, j, t, op);
    StartSend(cfg, j, at, f.frame.depth, t, op);
    assert IsSend(graph.graph, send);
    var receives := graph.ReceivesInDestination(send);
    var f' := SavedFrame(ResumeRevisits(f.frame.depth, at.mark, send, receives.value, 0), at.known, at.pending);
    RecordedFrames(cfg, base, j, graph.JournalOf(), under, f, f');
    FramesOfPush(under, f');
    frames := under + [f'];
  }

  /** An error is published with its event in place, then taken back. */
  method RecordError(cfg: Config, graph: ExplorationGraph, under: seq<SavedFrame>, f: SavedFrame, t: ThreadId,
                     op: Label, ghost rest: seq<Context>, ghost base: Journal)
    returns (frames: seq<SavedFrame>, published: seq<Terminal>)
    requires Recording(cfg, graph, under, f, t, op) && op.Error?
    modifies graph
    ensures Handled(cfg, graph, frames, base, old(Rooted(base, graph.JournalOf(), FramesOf(under) + [f.frame])))
    ensures StepNext(cfg, rest, old(graph.JournalOf()), FramesOf(under), f.frame.depth, t, op)
            == StepResult(Settle(rest, Context(graph.JournalOf(), FramesOf(frames))), published)
  {
    hide ScansFor, Tidy, FlagsFor, ClocksFor, FrameOk, FramesOk, Undo, AgreeBelow, Rooted, MarksAscend, Pending,
         FramesOf, Recordable, TakenAt, Describes, Settle;
    ghost var j := graph.JournalOf();
    var at := graph.TakeCheckpoint();
    TakenHere(graph, at);
    var _ := graph.AddEvent(t, op);
    published := [Terminal(graph.graph, ErrorFound)];
    TakenDescribesAppended(at, j, t, op);
    var _ := graph.Rollback(at);
    UndoAppend(j, t, op, MarkOf(j));
    UndoNothing(j);
    PopEnter(cfg, base, j, under, f);
    frames := under;
  }

  /** The Enter frame of a maximal graph: reschedule a blocked thread, or publish. */
  method EndOfThreads(cfg: Config, graph: ExplorationGraph, depth: nat, suppressed: bool)
    returns (child: Option<Child>, published: seq<Terminal>)
    requires graph.Valid() && Good(cfg, graph.graph)
    ensures ChildOk(cfg, child) && (child.Some? ==> fresh(child.value.graph))
    ensures match Reschedule(cfg.program, graph.graph)
            case NoneReady => child.None? && published == [Terminal(graph.graph, MaximalKind(graph.graph, suppressed))]
            case Ready(h) => ChildContexts(child) == [NewContext(h, depth, false)] && published == []
            case Violation(_) => false
  {
    hide ScansFor, Tidy, FlagsFor, ClocksFor, Good, Pending, RescheduleFrom, WellFormed, Consistent;
    GoodIsConsistent(cfg, graph.graph);
    NoReadBeyond(graph.graph);
    RescheduleFromGood(cfg, graph.graph, cfg.program.first);
    var outcome, h := FindReschedule(cfg.program, graph);
    child, published := None, [];
    if h.Some? {
      UnguardedIsGood(cfg, outcome.graph);
      child := Some(Child(h.value, depth, false));
    } else {
      var blocked := graph.HasBlockedThread();
      var kind := if suppressed then ThreadEventLimit else if blocked then Blocked else Full;
      published := [Terminal(graph.graph, kind)];
    }
  }

  method HandleNext(cfg: Config, graph: ExplorationGraph, under: seq<SavedFrame>, f: SavedFrame, t: ThreadId, op: Label,
                    ghost rest: seq<Context>, ghost base: Journal)
    returns (frames: seq<SavedFrame>, published: seq<Terminal>)
    requires Recording(cfg, graph, under, f, t, op)
    modifies graph
    ensures Handled(cfg, graph, frames, base, old(Rooted(base, graph.JournalOf(), FramesOf(under) + [f.frame])))
    ensures StepNext(cfg, rest, old(graph.JournalOf()), FramesOf(under), f.frame.depth, t, op)
            == StepResult(Settle(rest, Context(graph.JournalOf(), FramesOf(frames))), published)
  {
    hide Handled, Recording, StepNext, Rooted, Settle;
    published := [];
    match op {
      case Error(_) => frames, published := RecordError(cfg, graph, under, f, t, op, rest, base);
      case Choice(_, choices) =>
        if choices == [] {
          frames := RecordLinear(cfg, graph, under, f, t, op, rest, base);
        } else {
          frames := RecordChoice(cfg, graph, under, f, t, op, rest, base);
        }
      case Receive(_, _) => frames := RecordReceive(cfg, graph, under, f, t, op, rest, base);
      case Send(_, _) => frames := RecordSend(cfg, graph, under, f, t, op, rest, base);
      case Block => frames := RecordLinear(cfg, graph, under, f, t, op, rest, base);
    }
  }

  method HandleEnter(cfg: Config, graph: ExplorationGraph, under: seq<SavedFrame>, f: SavedFrame,
                     ghost rest: seq<Context>, ghost base: Journal)
    returns (frames: seq<SavedFrame>, child: Option<Child>, published: seq<Terminal>)
    requires TopOk(cfg, graph, under, f) && f.frame.Enter? && ValidProgram(cfg.program)
    modifies graph
    ensures Handled(cfg, graph, frames, base, old(Rooted(base, graph.JournalOf(), FramesOf(under) + [f.frame])))
    ensures ChildOk(cfg, child) && (child.Some? ==> fresh(child.value.graph))
    ensures StepEnter(cfg, rest, old(graph.JournalOf()), FramesOf(under), f.frame.depth, f.frame.guarded)
            == StepResult(Settle(rest, Context(graph.JournalOf(), FramesOf(frames))) + ChildContexts(child), published)
  {
    hide ScansFor, Tidy, FlagsFor, ClocksFor, FrameOk, FramesOk, Stacked, Undo, Rooted, MarksAscend, Pending,
         FramesOf, Good, Consistent, Recordable, NextFrom, RescheduleFrom, MaximalKind, StepNext, Settle, ValidProgram;
    ghost var j := graph.JournalOf();
    StackedMeans(j, FramesOf(under), f.frame);
    EnterMeans(cfg, j, f);
    PopEnter(cfg, base, j, under, f);
    frames, child, published := under, None, [];
    if f.frame.guarded {
      var consistent := IsConsistent(graph, cfg.model);
      if !consistent {
        return;
      }
    }
    CheckedIsGood(cfg, j.graph, f.frame.guarded);
    if f.frame.depth >= cfg.maxDepth {
      published := [Terminal(graph.graph, DepthLimit)];
      return;
    }
    NextIsStep(cfg, j.graph);
    var next := ComputeNextEvent(cfg, graph);
    match next {
      case NoNext(suppressed) => child, published := EndOfThreads(cfg, graph, f.frame.depth, suppressed);
      case Next(t, op) => frames, published := HandleNext(cfg, graph, under, f, t, op, rest, base);
    }
  }
}
