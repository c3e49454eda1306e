/** What the frames of the explorer promise about the graph they roll back to. */
module ExplorerFrames {
  import opened Optional
  import opened Events
  import opened Consistency
  import opened Replay
  import opened Engine
  import opened Invariants
  import opened Journals
  import opened Machine
  import opened MachineRefinement
  import opened GraphCaches
  import opened RevisitSearch

  /** A frame with the acyclicity flag of its checkpoint. */
  datatype SavedFrame = SavedFrame(frame: Frame, known: bool, pending: Option<nat>)

  function FramesOf(frames: seq<SavedFrame>): (plain: seq<Frame>)
    ensures |plain| == |frames| && forall i :: 0 <= i < |frames| ==> plain[i] == frames[i].frame
  {
    seq(|frames|, i requires 0 <= i < |frames| => frames[i].frame)
  }

  function CheckpointOf(f: SavedFrame): Checkpoint
    requires !f.frame.Enter?
  {
    Checkpoint(f.frame.mark, f.known, f.pending)
  }

  ghost predicate Fits(j: Journal, f: Frame)
  {
    Sound(j) && (f.Enter? || MarkLe(f.mark, MarkOf(j))) && (f.ResumeRevisits? ==> RevisitsLive(j, f))
  }

  /** The alternatives left are pending graphs, and the checkpoint speaks the truth. */
  ghost predicate FrameOk(cfg: Config, j: Journal, f: SavedFrame)
  {
    && Fits(j, f.frame)
    && AllPending(cfg, Alternatives(cfg, j, f.frame))
    && (f.frame.ResumeRevisits? ==> Revisiting(j.graph, f.frame.send, f.frame.receives))
    && (!f.frame.Enter? ==> Describes(CheckpointOf(f), j))
  }

  ghost predicate FramesOk(cfg: Config, j: Journal, frames: seq<SavedFrame>)
  {
    forall i :: 0 <= i < |frames| ==> FrameOk(cfg, j, frames[i])
  }

  lemma FrameOkAgrees(cfg: Config, j: Journal, k: Journal, f: SavedFrame, limit: Mark)
    requires FrameOk(cfg, j, f) && AgreeBelow(k, j, limit) && Resumable(f.frame) && MarkLe(f.frame.mark, limit)
    ensures FrameOk(cfg, k, f)
  {
    hide AllPending, Undo, Tidy, FlagsFor;
    assert Undo(k, f.frame.mark) == Undo(j, f.frame.mark);
  }

  /** Changes above a mark leave the frames below it alone. */
  lemma UnderOkAgrees(cfg: Config, j: Journal, k: Journal, under: seq<SavedFrame>, limit: Mark)
    requires FramesOk(cfg, j, under) && AgreeBelow(k, j, limit) && MarksAscend(FramesOf(under), limit)
    ensures FramesOk(cfg, k, under)
  {
    hide FrameOk, AgreeBelow;
    forall i | 0 <= i < |under| ensures FrameOk(cfg, k, under[i]) {
      assert Resumable(FramesOf(under)[i]) && MarkLe(FramesOf(under)[i].mark, limit);
      FrameOkAgrees(cfg, j, k, under[i], limit);
    }
  }

  lemma FramesOfPush(frames: seq<SavedFrame>, f: SavedFrame)
    ensures FramesOf(frames + [f]) == FramesOf(frames) + [f.frame]
  {
  }

  lemma EnterOk(cfg: Config, j: Journal, depth: nat, guarded: bool, known: bool, pending: Option<nat>)
    requires Sound(j) && Pending(cfg, Task(j.graph, guarded))
    ensures FrameOk(cfg, j, SavedFrame(Enter(depth, guarded), known, pending))
  {
  }

  lemma EnterMeans(cfg: Config, j: Journal, f: SavedFrame)
    requires FrameOk(cfg, j, f) && f.frame.Enter?
    ensures Pending(cfg, Task(j.graph, f.frame.guarded))
  {
    assert Alternatives(cfg, j, f.frame)[0] == Task(j.graph, f.frame.guarded);
  }

  lemma CheckedIsGood(cfg: Config, g: Graph, guarded: bool)
    requires Pending(cfg, Task(g, guarded)) && (guarded ==> Consistent(g, cfg.model))
    ensures Good(cfg, g)
  {
  }

  lemma UnguardedIsGood(cfg: Config, g: Graph)
    ensures Good(cfg, g) <==> Pending(cfg, Task(g, false))
  {
    hide ReplayValid, Shaped, WellFormed, ReadsTotal, CausallyAcyclic, FifoClauseB, FifoClauseC;
  }

  lemma ExitOk(cfg: Config, j: Journal, f: SavedFrame)
    requires f.frame.ExitLinear? && Sound(j) && MarkLe(f.frame.mark, MarkOf(j)) && Describes(CheckpointOf(f), j)
    ensures FrameOk(cfg, j, f)
  {
  }

  /** Fewer alternatives of the same frame. */
  lemma TailPending(cfg: Config, tasks: seq<Task>)
    requires AllPending(cfg, tasks) && tasks != []
    ensures Pending(cfg, tasks[0]) && AllPending(cfg, tasks[1..])
  {
    hide Pending;
  }

  // ----- the graph the outermost frame goes back to -----

  /** Popping all frames restores `base`. */
  ghost predicate Rooted(base: Journal, j: Journal, frames: seq<Frame>)
  {
    && Sound(j)
    && if frames == [] then j == base
       else if frames[0].Enter? then |frames| == 1 && j == base
       else MarkLe(frames[0].mark, MarkOf(j)) && Undo(j, frames[0].mark) == base
  }

  /** The outermost frame stays and the journal changed only above its mark. */
  lemma RootedAgrees(base: Journal, j: Journal, k: Journal, frames: seq<Frame>, frames': seq<Frame>, limit: Mark)
    requires Rooted(base, j, frames) && AgreeBelow(k, j, limit)
    requires frames != [] && frames' != [] && !frames[0].Enter? && !frames'[0].Enter?
    requires frames[0].mark == frames'[0].mark && MarkLe(frames[0].mark, limit)
    ensures Rooted(base, k, frames')
  {
    hide Undo;
  }

  /** An Enter frame at the bottom is replaced by one that rolls back to where it was. */
  lemma RootedEnter(base: Journal, j: Journal, k: Journal, frames: seq<Frame>, frames': seq<Frame>)
    requires Rooted(base, j, frames) && |frames| == 1 && frames[0].Enter?
    requires AgreeBelow(k, j, MarkOf(j)) && frames' != [] && !frames'[0].Enter? && frames'[0].mark == MarkOf(j)
    ensures Rooted(base, k, frames')
  {
    UndoNothing(j);
    assert Undo(k, MarkOf(j)) == Undo(j, MarkOf(j));
  }

  // ----- popping and pushing -----

  /** Rolling back to the topmost frame's checkpoint and popping it. */
  lemma PopRolledBack(cfg: Config, base: Journal, j: Journal, under: seq<SavedFrame>, f: SavedFrame)
    requires !f.frame.Enter? && FramesOk(cfg, j, under) && Fits(j, f.frame)
             && MarksAscend(FramesOf(under), f.frame.mark)
    ensures FramesOk(cfg, Undo(j, f.frame.mark), under)
    ensures Rooted(base, j, FramesOf(under) + [f.frame]) ==> Rooted(base, Undo(j, f.frame.mark), FramesOf(under))
  {
    hide FrameOk, AgreeBelow, Undo, Alternatives;
    var k, plain := Undo(j, f.frame.mark), FramesOf(under);
    UndoAgrees(j, f.frame.mark);
    UnderOkAgrees(cfg, j, k, under, f.frame.mark);
    if Rooted(base, j, plain + [f.frame]) && under != [] {
      assert Resumable(plain[0]) && MarkLe(plain[0].mark, f.frame.mark);
      RootedAgrees(base, j, k, plain + [f.frame], plain, f.frame.mark);
    }
  }

  /** Popping an Enter frame changes nothing. */
  lemma PopEnter(cfg: Config, base: Journal, j: Journal, under: seq<SavedFrame>, f: SavedFrame)
    requires f.frame.Enter? && FramesOk(cfg, j, under)
    ensures Rooted(base, j, FramesOf(under) + [f.frame]) ==> Rooted(base, j, FramesOf(under))
  {
  }

  /** A frame replaced by its successor with a child entered above it. */
  lemma PushChild(cfg: Config, base: Journal, j: Journal, k: Journal, under: seq<SavedFrame>, f: SavedFrame,
                  f': SavedFrame, enter: SavedFrame)
    requires !f.frame.Enter? && Resumable(f'.frame) && f'.frame.mark == f.frame.mark
             && MarksAscend(FramesOf(under), f.frame.mark)
    requires FramesOk(cfg, j, under) && AgreeBelow(k, j, f.frame.mark) && FrameOk(cfg, k, f')
    requires enter.frame.Enter? && Pending(cfg, Task(k.graph, enter.frame.guarded))
    ensures FramesOk(cfg, k, under + [f', enter])
    ensures Rooted(base, j, FramesOf(under) + [f.frame]) ==> Rooted(base, k, FramesOf(under) + [f'.frame, enter.frame])
  {
    hide FrameOk, AgreeBelow, Undo, Pending, Alternatives;
    AgreeSound(k, j, f.frame.mark);
    UnderOkAgrees(cfg, j, k, under, f.frame.mark);
    EnterOk(cfg, k, enter.frame.depth, enter.frame.guarded, enter.known, enter.pending);
    var plain := FramesOf(under);
    if Rooted(base, j, plain + [f.frame]) {
      if under != [] { assert Resumable(plain[0]) && MarkLe(plain[0].mark, f.frame.mark); }
      RootedAgrees(base, j, k, plain + [f.frame], plain + [f'.frame, enter.frame], f.frame.mark);
    }
  }

  lemma AgreeSound(k: Journal, j: Journal, limit: Mark)
    requires AgreeBelow(k, j, limit)
    ensures Sound(k) && Sound(j) && MarkLe(limit, MarkOf(k))
  {
  }

  /** An Enter frame replaced by frames that roll back to where it stood. */
  lemma ReplaceEnter(cfg: Config, base: Journal, j: Journal, k: Journal, under: seq<SavedFrame>, f: SavedFrame,
                     frames: seq<SavedFrame>)
    requires f.frame.Enter? && FramesOk(cfg, j, under) && MarksAscend(FramesOf(under), MarkOf(j))
             && AgreeBelow(k, j, MarkOf(j))
    requires frames != [] && !frames[0].frame.Enter? && frames[0].frame.mark == MarkOf(j) && FramesOk(cfg, k, frames)
    ensures FramesOk(cfg, k, under + frames)
    ensures Rooted(base, j, FramesOf(under) + [f.frame]) ==> Rooted(base, k, FramesOf(under + frames))
  {
    hide FrameOk, AgreeBelow, Undo, Alternatives;
    UnderOkAgrees(cfg, j, k, under, MarkOf(j));
    var before, after := FramesOf(under) + [f.frame], FramesOf(under + frames);
    if Rooted(base, j, before) {
      if under == [] {
        RootedEnter(base, j, k, before, after);
      } else {
        assert Resumable(FramesOf(under)[0]) && MarkLe(FramesOf(under)[0].mark, MarkOf(j));
        RootedAgrees(base, j, k, before, after, MarkOf(j));
      }
    }
  }

  // ----- resuming -----

  function NextChoice(f: SavedFrame): SavedFrame
    requires f.frame.ResumeChoice?
  {
    f.(frame := ResumeChoice(f.frame.depth, f.frame.mark, f.frame.thread, f.frame.choices, f.frame.cursor + 1))
  }

  lemma DescribesAgrees(j: Journal, k: Journal, at: Checkpoint, limit: Mark)
    requires AgreeBelow(k, j, limit) && MarkLe(at.mark, limit) && Describes(at, j)
    ensures Describes(at, k)
  {
  }

  lemma ChoiceNext(cfg: Config, j: Journal, f: SavedFrame, k: Journal)
    requires f.frame.ResumeChoice? && FrameOk(cfg, j, f) && f.frame.cursor < |f.frame.choices|
    requires k == Append(Undo(j, f.frame.mark), f.frame.thread,
                         Choice(f.frame.choices[f.frame.cursor], f.frame.choices))
    ensures AgreeBelow(k, j, f.frame.mark) && FrameOk(cfg, k, NextChoice(f)) && Pending(cfg, Task(k.graph, false))
  {
    hide Undo, AgreeBelow, ChoiceTasks, Pending, AllPending, Describes, AddEvent;
    var op := Choice(f.frame.choices[f.frame.cursor], f.frame.choices);
    var mark, back := f.frame.mark, Undo(j, f.frame.mark);
    UndoAgrees(j, mark);
    AppendAgrees(back, f.frame.thread, op, mark);
    AgreeTransitive(k, back, j, mark);
    AgreeSound(k, j, mark);
    AgreeAt(k, j, mark);
    ChoiceTasksTail(back.graph, f.frame.thread, f.frame.choices, f.frame.cursor);
    TailPending(cfg, Alternatives(cfg, j, f.frame));
    DescribesAgrees(j, k, CheckpointOf(f), mark);
    NothingPending(cfg);
  }

  lemma AgreeAt(k: Journal, j: Journal, limit: Mark)
    requires AgreeBelow(k, j, limit)
    ensures MarkLe(limit, MarkOf(j)) && Undo(k, limit) == Undo(j, limit)
  {
  }

  lemma NothingPending(cfg: Config)
    ensures AllPending(cfg, [])
  {
  }

  function AfterSource(f: SavedFrame): SavedFrame
    requires f.frame.ResumeReceive?
  {
    f.(frame := if f.frame.cursor < |f.frame.sends| then NextSource(f.frame) else WithoutBottom(f.frame))
  }

  function SourceAt(f: Frame): Source
    requires f.ResumeReceive?
  {
    if f.cursor < |f.sends| then From(f.sends[f.cursor]) else Bottom
  }

  lemma ReceiveNext(cfg: Config, j: Journal, f: SavedFrame, k: Journal)
    requires f.frame.ResumeReceive? && FrameOk(cfg, j, f) && (f.frame.cursor < |f.frame.sends| || f.frame.bottom)
    requires k == AppendBound(Undo(j, f.frame.mark), f.frame.thread, f.frame.op, SourceAt(f.frame))
    ensures AgreeBelow(k, j, f.frame.mark) && FrameOk(cfg, k, AfterSource(f)) && Pending(cfg, Task(k.graph, true))
  {
    hide Undo, AgreeBelow, SourceTasks, Pending, AllPending, Describes, AddEvent, SetSource;
    var mark, back, source := f.frame.mark, Undo(j, f.frame.mark), SourceAt(f.frame);
    UndoAgrees(j, mark);
    AppendBoundAgrees(back, f.frame.thread, f.frame.op, source, mark);
    AgreeTransitive(k, back, j, mark);
    AgreeSound(k, j, mark);
    AgreeAt(k, j, mark);
    if f.frame.cursor < |f.frame.sends| {
      SourceTasksTail(back.graph, f.frame.thread, f.frame.op, f.frame.sends, f.frame.cursor, f.frame.bottom);
    }
    assert Alternatives(cfg, k, AfterSource(f).frame) == Alternatives(cfg, j, f.frame)[1..];
    TailPending(cfg, Alternatives(cfg, j, f.frame));
    DescribesAgrees(j, k, CheckpointOf(f), mark);
    NothingPending(cfg);
  }

  function AfterRevisit(f: SavedFrame, cursor: nat): SavedFrame
    requires f.frame.ResumeRevisits?
  {
    f.(frame := ResumeRevisits(f.frame.depth, f.frame.mark, f.frame.send, f.frame.receives, cursor))
  }

  lemma RevisitNext(cfg: Config, j: Journal, f: SavedFrame)
    requires f.frame.ResumeRevisits? && FrameOk(cfg, j, f)
    ensures var next := NextRevisit(j.graph, f.frame.send, cfg.model, f.frame.receives, f.frame.cursor);
            match next.1
            case Some(child) => FrameOk(cfg, j, AfterRevisit(f, next.0)) && Pending(cfg, Task(child, true))
            case None => Good(cfg, j.graph)
  {
    hide Alternatives, NextRevisit, Pending, AllPending, Describes, Good, Revisiting;
    var next := NextRevisit(j.graph, f.frame.send, cfg.model, f.frame.receives, f.frame.cursor);
    RevisitAlternatives(cfg, j, f.frame);
    TailPendingUnless(cfg, Alternatives(cfg, j, f.frame));
    UnguardedIsGood(cfg, j.graph);
  }

  lemma TailPendingUnless(cfg: Config, tasks: seq<Task>)
    requires AllPending(cfg, tasks)
    ensures tasks != [] ==> Pending(cfg, tasks[0]) && AllPending(cfg, tasks[1..])
  {
    hide Pending;
  }

  lemma RevisitGraphGood(cfg: Config, j: Journal, f: SavedFrame)
    requires f.frame.ResumeRevisits? && FrameOk(cfg, j, f)
    ensures Good(cfg, j.graph)
  {
    hide RevisitTasks, Pending, Good, Describes;
    var tasks := Alternatives(cfg, j, f.frame);
    assert tasks[|tasks| - 1] == Task(j.graph, false);
    UnguardedIsGood(cfg, j.graph);
  }

  // ----- entering -----

  /** A checkpoint taken at `j`. */
  ghost predicate TakenAt(at: Checkpoint, j: Journal)
  {
    Sound(j) && Tidy(j) && at.mark == MarkOf(j) && FlagsFor(j.graph, at.known, at.pending)
  }

  lemma TakenDescribes(at: Checkpoint, j: Journal)
    requires TakenAt(at, j)
    ensures Describes(at, j)
  {
    UndoNothing(j);
  }

  lemma TakenDescribesAppended(at: Checkpoint, j: Journal, t: ThreadId, op: Label)
    requires TakenAt(at, j)
    ensures AgreeBelow(Append(j, t, op), j, MarkOf(j)) && Describes(at, Append(j, t, op))
  {
    TakenDescribes(at, j);
    AppendAgrees(j, t, op, MarkOf(j));
    DescribesAgrees(j, Append(j, t, op), at, MarkOf(j));
  }

  ghost predicate Recordable(cfg: Config, g: Graph, t: ThreadId, op: Label)
  {
    Good(cfg, g) && EngineStep(cfg, g, t, op) && ValidProgram(cfg.program)
  }

  lemma StartChoice(cfg: Config, j: Journal, at: Checkpoint, depth: nat, t: ThreadId, op: Label)
    requires TakenAt(at, j) && Recordable(cfg, j.graph, t, op) && op.Choice? && op.choices != []
    ensures FrameOk(cfg, j, SavedFrame(ResumeChoice(depth, at.mark, t, Distinct(op.choices), 0), at.known, at.pending))
  {
    hide Undo, Good, EngineStep, ChoiceTasks, Pending, AllPending, Describes, Distinct;
    UndoNothing(j);
    TakenDescribes(at, j);
    ChildrenPending(cfg, j.graph, t, op);
    var choices := Distinct(op.choices);
    assert choices[0..] == choices;
    NothingPending(cfg);
    if choices != [] { assert Children(cfg, j.graph, t, op) == ChoiceTasks(j.graph, t, choices[0..], choices); }
  }

  lemma StartReceive(cfg: Config, j: Journal, at: Checkpoint, depth: nat, t: ThreadId, op: Label)
    requires TakenAt(at, j) && Recordable(cfg, j.graph, t, op) && op.Receive?
    ensures FrameOk(cfg, j, SavedFrame(ResumeReceive(depth, at.mark, t, op, CompatibleSends(j.graph, t, op), 0,
                                                     !op.blocking), at.known, at.pending))
  {
    hide Undo, Good, EngineStep, SourceTasks, Pending, AllPending, Describes, CompatibleSends;
    UndoNothing(j);
    TakenDescribes(at, j);
    ChildrenPending(cfg, j.graph, t, op);
    var sends := CompatibleSends(j.graph, t, op);
    assert sends[0..] == sends;
    NoSourceTasks(j.graph, t, op, sends);
    var f := ResumeReceive(depth, at.mark, t, op, sends, 0, !op.blocking);
    assert Alternatives(cfg, j, f) == Children(cfg, j.graph, t, op);
  }

  lemma StartSend(cfg: Config, j: Journal, at: Checkpoint, depth: nat, t: ThreadId, op: Label)
    requires TakenAt(at, j) && Recordable(cfg, j.graph, t, op) && op.Send?
    ensures var k, n := Append(j, t, op), |j.graph.events|;
            FrameOk(cfg, k, SavedFrame(ResumeRevisits(depth, at.mark, n, DestinationReceives(k.graph, n), 0),
                                       at.known, at.pending))
  {
    hide Undo, Good, EngineStep, RevisitTasks, Pending, AllPending, Describes, DestinationReceives, Unread;
    var k, n := Append(j, t, op), |j.graph.events|;
    TakenDescribesAppended(at, j, t, op);
    AgreeSound(k, j, MarkOf(j));
    SendPending(cfg, j.graph, t, op);
    ChildrenPending(cfg, j.graph, t, op);
    var receives := DestinationReceives(k.graph, n);
    assert receives[0..] == receives;
    NoRevisitTasks(k.graph, n, cfg.model, receives);
    var f := ResumeRevisits(depth, at.mark, n, receives, 0);
    assert RevisitsLive(k, f);
    assert Alternatives(cfg, k, f) == Children(cfg, j.graph, t, op);
    assert Addressed(k.graph, n, receives);
  }

  lemma StartLinear(cfg: Config, j: Journal, at: Checkpoint, depth: nat, t: ThreadId, op: Label)
    requires TakenAt(at, j) && Recordable(cfg, j.graph, t, op) && (op.Block? || (op.Choice? && op.choices == []))
    ensures var k := Append(j, t, op);
            FrameOk(cfg, k, SavedFrame(ExitLinear(depth, at.mark), at.known, at.pending))
                && Pending(cfg, Task(k.graph, false))
  {
    hide Undo, Good, EngineStep, Pending, Describes;
    var k := Append(j, t, op);
    TakenDescribesAppended(at, j, t, op);
    AgreeSound(k, j, MarkOf(j));
    ExitOk(cfg, k, SavedFrame(ExitLinear(depth, at.mark), at.known, at.pending));
    ChildrenPending(cfg, j.graph, t, op);
    assert Children(cfg, j.graph, t, op)[0] == Task(k.graph, false);
  }

  lemma NextIsStep(cfg: Config, g: Graph)
    requires Good(cfg, g) && ValidProgram(cfg.program)
    ensures NextEvent(cfg, g).Next? ==> Recordable(cfg, g, NextEvent(cfg, g).thread, NextEvent(cfg, g).op)
  {
    NextIsFirstReady(cfg, g, cfg.program.first, false);
  }
}
