/** Runs of the depth-first explorer: what is published, when it stops and what it leaves behind. */
module SearchRuns {
  import opened Optional
  import opened Consistency
  import opened Engine
  import opened Invariants
  import opened Journals
  import opened Machine
  import opened MachineRefinement
  import opened GraphCaches
  import opened ExplorationGraphs
  import opened MaskedTiebreaker
  import opened ExplorerFrames
  import opened DepthFirst
  import opened ErrorReports

  /** A context: a graph object and its frames, the last one topmost. */
  datatype Cell = Cell(graph: ExplorationGraph, frames: seq<SavedFrame>)

  ghost predicate CellIs(cfg: Config, cell: Cell, c: Context)
    reads cell.graph
  {
    && cell.graph.Valid() && cell.graph.JournalOf() == c.journal
    && FramesOf(cell.frames) == c.frames && FramesOk(cfg, c.journal, cell.frames)
  }

  ghost predicate Mirrors(cfg: Config, cells: seq<Cell>, model: seq<Context>)
    reads set i | 0 <= i < |cells| :: cells[i].graph
  {
    |cells| == |model| && forall i :: 0 <= i < |cells| ==> CellIs(cfg, cells[i], model[i])
  }

  ghost predicate Apart(cells: seq<Cell>)
  {
    forall i, k :: 0 <= i < k < |cells| ==> cells[i].graph != cells[k].graph
  }

  // ----- what is published before a stop -----

  /** The terminals published in order until the observer asks to stop. */
  ghost function Cut(stop: seq<Terminal> -> bool, done: seq<Terminal>, rest: seq<Terminal>): seq<Terminal>
    decreases |rest|
  {
    if rest == [] then done
    else
      var more := done + [rest[0]];
      if stop(more) then more else Cut(stop, more, rest[1..])
  }

  lemma CutNothing(stop: seq<Terminal> -> bool, done: seq<Terminal>, rest: seq<Terminal>)
    ensures Cut(stop, done, [] + rest) == Cut(stop, done, rest)
  {
    assert [] + rest == rest;
  }

  lemma CutOne(stop: seq<Terminal> -> bool, done: seq<Terminal>, t: Terminal, rest: seq<Terminal>)
    ensures Cut(stop, done, [t] + rest) == if stop(done + [t]) then done + [t] else Cut(stop, done + [t], rest)
  {
    assert ([t] + rest)[1..] == rest;
  }

  /** A run without a stop publishes everything. */
  lemma {:induction false} CutNever(stop: seq<Terminal> -> bool, done: seq<Terminal>, rest: seq<Terminal>)
    requires forall s :: !stop(s)
    ensures Cut(stop, done, rest) == done + rest
    decreases |rest|
  {
    if rest == [] {
      assert done + rest == done;
    } else {
      CutNever(stop, done + [rest[0]], rest[1..]);
      assert done + [rest[0]] + rest[1..] == done + rest;
    }
  }

  /** What is published is always a prefix of the whole. */
  lemma {:induction false} CutIsPrefix(stop: seq<Terminal> -> bool, done: seq<Terminal>, rest: seq<Terminal>)
    ensures Cut(stop, done, rest) <= done + rest
    decreases |rest|
  {
    if rest != [] {
      var more := done + [rest[0]];
      assert more + rest[1..] == done + rest;
      CutIsPrefix(stop, more, rest[1..]);
    }
  }

  lemma PublishesOneAtMost(cfg: Config, contexts: seq<Context>)
    requires contexts != [] && Stacked(Top(contexts))
    ensures |Step(cfg, contexts).published| <= 1
  {
    hide Stacked, Consistent, NextFrom, RescheduleFrom, Settle, NextRevisit, Undo, DestinationReceives,
         CompatibleSends, MaximalKind;
  }

  // ----- unwinding -----

  ghost function Unwound(contexts: seq<Context>): seq<Context>
    requires contexts != [] && Stacked(Top(contexts))
  {
    var rest, c := Below(contexts), Top(contexts);
    var f := Top(c.frames);
    Settle(rest, Context(if f.Enter? then c.journal else Undo(c.journal, f.mark), Below(c.frames)))
  }

  ghost function FrameTotal(contexts: seq<Context>): nat
  {
    if contexts == [] then 0 else |Top(contexts).frames| + FrameTotal(Below(contexts))
  }

  lemma UnwindingStacked(cfg: Config, contexts: seq<Context>)
    requires contexts != [] && AllStacked(contexts)
    ensures AllStacked(Unwound(contexts)) && FrameTotal(Unwound(contexts)) < FrameTotal(contexts)
  {
    hide Undo;
    var rest, c := Below(contexts), Top(contexts);
    assert Stacked(c);
    var j, under, f := c.journal, Below(c.frames), Top(c.frames);
    var k := if f.Enter? then j else Undo(j, f.mark);
    assert MarksAscend(under, MarkOf(k));
    SettleRemaining(cfg, rest, k, under);
    if under != [] {
      assert Below(rest + [Context(k, under)]) == rest && Top(rest + [Context(k, under)]) == Context(k, under);
    }
  }

  // ----- one step as seen from the topmost context -----

  lemma StepOf(cfg: Config, rest: seq<Context>, j: Journal, under: seq<Frame>, f: Frame)
    requires Stacked(Context(j, under + [f]))
    ensures Fits(j, f)
    ensures Step(cfg, rest + [Context(j, under + [f])]) ==
            match f
            case Enter(depth, guarded) => StepEnter(cfg, rest, j, under, depth, guarded)
            case ExitLinear(_, mark) => StepResult(Settle(rest, Context(Undo(j, mark), under)), [])
            case ResumeChoice(_, _, _, _, _) => StepChoice(rest, j, under, f)
            case ResumeReceive(_, _, _, _, _, _, _) => StepReceive(rest, j, under, f)
            case ResumeRevisits(_, _, _, _, _) => StepRevisits(cfg, rest, j, under, f)
  {
    hide StepEnter, StepChoice, StepReceive, StepRevisits, Settle, Undo;
    var frames := under + [f];
    var c := Context(j, frames);
    assert Top(frames) == f && Below(frames) == under;
    assert Top(rest + [c]) == c && Below(rest + [c]) == rest;
  }

  lemma SplitFrames(frames: seq<SavedFrame>)
    requires frames != []
    ensures FramesOf(frames) == FramesOf(frames[..|frames| - 1]) + [frames[|frames| - 1].frame]
  {
  }

  lemma SplitOk(cfg: Config, j: Journal, frames: seq<SavedFrame>)
    requires frames != [] && FramesOk(cfg, j, frames)
    ensures FramesOk(cfg, j, frames[..|frames| - 1]) && FrameOk(cfg, j, frames[|frames| - 1])
  {
    hide FrameOk;
  }

  /** Handles the topmost frame of one context. */
  method Handle(cfg: Config, scratch: MaskedContext, cell: Cell, ghost rest: seq<Context>, ghost c: Context,
                ghost base: Journal)
    returns (frames: seq<SavedFrame>, child: Option<Child>, published: seq<Terminal>)
    requires CellIs(cfg, cell, c) && Stacked(c) && ValidProgram(cfg.program)
    modifies cell.graph, scratch
    ensures Handled(cfg, cell.graph, frames, base, Rooted(base, c.journal, c.frames))
    ensures ChildOk(cfg, child) && (child.Some? ==> fresh(child.value.graph))
    ensures Top(rest + [c]) == c
    ensures Step(cfg, rest + [c])
            == StepResult(Settle(rest, Context(cell.graph.JournalOf(), FramesOf(frames))) + ChildContexts(child),
                          published)
  {
    hide FrameOk, FramesOk, Rooted, Settle, StepEnter, StepChoice, StepReceive, StepRevisits, Stacked, Undo, FramesOf,
         Step, ScansFor, Tidy, FlagsFor, ClocksFor, ValidProgram;
    FramesExist(cell, c);
    var under, f := cell.frames[..|cell.frames| - 1], cell.frames[|cell.frames| - 1];
    SplitFrames(cell.frames);
    SplitOk(cfg, c.journal, cell.frames);
    StepOf(cfg, rest, c.journal, FramesOf(under), f.frame);
    assert c == Context(c.journal, FramesOf(under) + [f.frame]);
    child, published := None, [];
    match f.frame {
      case Enter(_, _) => frames, child, published := HandleEnter(cfg, cell.graph, under, f, rest, base);
      case ExitLinear(_, _) => frames := HandleExit(cfg, cell.graph, under, f, base);
      case ResumeChoice(_, _, _, _, _) => frames := HandleResumeChoice(cfg, cell.graph, under, f, rest, base);
      case ResumeReceive(_, _, _, _, _, _, _) => frames := HandleResumeReceive(cfg, cell.graph, under, f, rest, base);
      case ResumeRevisits(_, _, _, _, _) => frames,
        child := HandleResumeRevisits(cfg, scratch, cell.graph, under, f, rest, base);
    }
  }

  lemma FramesExist(cell: Cell, c: Context)
    requires FramesOf(cell.frames) == c.frames && Stacked(c)
    ensures cell.frames != []
  {
  }

  /** Rolls back and pops. */
  method HandleExit(cfg: Config, graph: ExplorationGraph, under: seq<SavedFrame>, f: SavedFrame, ghost base: Journal)
    returns (frames: seq<SavedFrame>)
    requires TopOk(cfg, graph, under, f) && !f.frame.Enter?
    modifies graph
    ensures frames == under && Fits(old(graph.JournalOf()), f.frame)
    ensures graph.JournalOf() == Undo(old(graph.JournalOf()), f.frame.mark)
    ensures Handled(cfg, graph, frames, base, old(Rooted(base, graph.JournalOf(), FramesOf(under) + [f.frame])))
  {
    hide ScansFor, Tidy, FlagsFor, ClocksFor, FrameOk, FramesOk, Stacked, Undo, Rooted, MarksAscend, FramesOf;
    ghost var j := graph.JournalOf();
    StackedMeans(j, FramesOf(under), f.frame);
    PopRolledBack(cfg, base, j, under, f);
    RollbackTo(cfg, graph, f);
    frames := under;
  }

  // ----- the explorer -----

  /** The contexts once the topmost one was handled. */
  function Replaced(cells: seq<Cell>, frames: seq<SavedFrame>, child: Option<Child>): seq<Cell>
    requires cells != []
  {
    var rest, graph := cells[..|cells| - 1], cells[|cells| - 1].graph;
    (if frames == [] then rest else rest + [Cell(graph, frames)])
    + (if child.Some? then [Cell(child.value.graph,
                                 [SavedFrame(Enter(child.value.depth, child.value.guarded), false, None)])] else [])
  }

  lemma ChildCell(cfg: Config, child: Option<Child>)
    requires child.Some? && ChildOk(cfg, child)
    ensures CellIs(cfg, Cell(child.value.graph,
                             [SavedFrame(Enter(child.value.depth, child.value.guarded), false, None)]),
                             NewContext(child.value.graph.graph, child.value.depth, child.value.guarded))
  {
    hide ScansFor, Tidy, FlagsFor, ClocksFor, FrameOk, Pending;
    var j := child.value.graph.JournalOf();
    EnterOk(cfg, j, child.value.depth, child.value.guarded, false, None);
  }

  /** The new contexts mirror the new state of the machine. */
  lemma ReplacedMirrors(cfg: Config, cells: seq<Cell>, model: seq<Context>, frames: seq<SavedFrame>,
                        child: Option<Child>)
    requires cells != [] && |model| == |cells| && Apart(cells)
    requires forall i :: 0 <= i < |cells| - 1 ==> CellIs(cfg, cells[i], model[i])
    requires cells[|cells| - 1].graph.Valid() && FramesOk(cfg, cells[|cells| - 1].graph.JournalOf(), frames)
             && ChildOk(cfg, child)
    requires child.Some? ==> forall i :: 0 <= i < |cells| ==> cells[i].graph != child.value.graph
    ensures var after := Settle(model[..|model| - 1], Context(cells[|cells| - 1].graph.JournalOf(), FramesOf(frames)))
            + ChildContexts(child);
            Mirrors(cfg, Replaced(cells, frames, child), after) && Apart(Replaced(cells, frames, child))
  {
    hide ScansFor, Tidy, FlagsFor, ClocksFor, FramesOk, FramesOf, CellIs;
    var graph := cells[|cells| - 1].graph;
    if frames != [] { CellHere(cfg, graph, frames); }
    FramesOfNone(frames);
    if child.Some? { ChildCell(cfg, child); }
  }

  lemma CellHere(cfg: Config, graph: ExplorationGraph, frames: seq<SavedFrame>)
    requires graph.Valid() && FramesOk(cfg, graph.JournalOf(), frames)
    ensures CellIs(cfg, Cell(graph, frames), Context(graph.JournalOf(), FramesOf(frames)))
  {
  }

  lemma FramesOfNone(frames: seq<SavedFrame>)
    ensures FramesOf(frames) == [] <==> frames == []
  {
  }

  /** The graph the run started from: at its base once its context is gone. */
  ghost predicate RootOk(cells: seq<Cell>, model: seq<Context>, root: ExplorationGraph, base: Journal)
    requires |cells| == |model|
    reads root
  {
    if cells != [] && cells[0].graph == root then Rooted(base, model[0].journal, model[0].frames)
    else root.Valid() && root.JournalOf() == base && forall i :: 0 <= i < |cells| ==> cells[i].graph != root
  }

  ghost function GraphsOf(cells: seq<Cell>): set<ExplorationGraph>
  {
    set i | 0 <= i < |cells| :: cells[i].graph
  }

  lemma ReplacedGraphs(cells: seq<Cell>, frames: seq<SavedFrame>, child: Option<Child>)
    requires cells != []
    ensures GraphsOf(Replaced(cells, frames, child)) <= GraphsOf(cells) +
            if child.Some? then {child.value.graph} else {}
  {
  }

  lemma AdvancesMeans(cfg: Config, contexts: seq<Context>)
    requires contexts != [] && AllStacked(contexts) && Advances(cfg, contexts, Step(cfg, contexts))
    ensures AllStacked(Step(cfg, contexts).contexts)
  {
  }

  lemma HandledMeans(cfg: Config, graph: ExplorationGraph, frames: seq<SavedFrame>, base: Journal, rooted: bool)
    requires Handled(cfg, graph, frames, base, rooted)
    ensures graph.Valid() && FramesOk(cfg, graph.JournalOf(), frames)
    ensures rooted ==> Rooted(base, graph.JournalOf(), FramesOf(frames))
  {
  }

  lemma MakeHandled(cfg: Config, graph: ExplorationGraph, frames: seq<SavedFrame>, base: Journal, rooted: bool)
    requires graph.Valid() && FramesOk(cfg, graph.JournalOf(), frames)
    requires rooted ==> Rooted(base, graph.JournalOf(), FramesOf(frames))
    ensures Handled(cfg, graph, frames, base, rooted)
  {
  }

  /** The outermost context is untouched, or it is the one that was handled. */
  lemma ReplacedRoot(cells: seq<Cell>, model: seq<Context>, frames: seq<SavedFrame>, child: Option<Child>,
                     root: ExplorationGraph, base: Journal)
    requires cells != [] && |cells| == |model| && Apart(cells)
    requires cells[0].graph == root ==> |cells| > 1 ==> Rooted(base, model[0].journal, model[0].frames)
    requires cells[0].graph == root && |cells| == 1 ==> root.Valid() && Rooted(base, root.JournalOf(), FramesOf(frames))
    requires cells[0].graph != root ==>
               root.Valid() && root.JournalOf() == base && forall i :: 0 <= i < |cells| ==> cells[i].graph != root
    requires child.Some? ==> child.value.graph != root
    ensures var after := Settle(model[..|model| - 1], Context(cells[|cells| - 1].graph.JournalOf(), FramesOf(frames)))
            + ChildContexts(child);
            |Replaced(cells, frames, child)| == |after| && RootOk(Replaced(cells, frames, child), after, root, base)
  {
    hide ScansFor, Tidy, FlagsFor, ClocksFor, FramesOf;
    FramesOfNone(frames);
  }

  /** Both of the above, from what the handler promises. */
  lemma HandledReplaces(cfg: Config, cells: seq<Cell>, model: seq<Context>, frames: seq<SavedFrame>,
                        child: Option<Child>, root: ExplorationGraph, base: Journal)
    requires cells != [] && |model| == |cells| && Apart(cells) && RootOk(cells, model, root, base)
             && ChildOk(cfg, child)
    requires forall i :: 0 <= i < |cells| - 1 ==> CellIs(cfg, cells[i], model[i])
    requires var c := model[|model| - 1];
             Handled(cfg, cells[|cells| - 1].graph, frames, base, Rooted(base, c.journal, c.frames))
    requires child.Some? ==>
               child.value.graph != root && forall i :: 0 <= i < |cells| ==> cells[i].graph != child.value.graph
    ensures var after := Settle(model[..|model| - 1], Context(cells[|cells| - 1].graph.JournalOf(), FramesOf(frames)))
            + ChildContexts(child);
            && Mirrors(cfg, Replaced(cells, frames, child), after) && Apart(Replaced(cells, frames, child))
            && RootOk(Replaced(cells, frames, child), after, root, base)
  {
    hide CellIs, FramesOk, FramesOf, Rooted, Settle, ChildOk, ChildContexts, Replaced, ScansFor, Tidy, FlagsFor,
         ClocksFor;
    var c := model[|model| - 1];
    HandledMeans(cfg, cells[|cells| - 1].graph, frames, base, Rooted(base, c.journal, c.frames));
    ReplacedMirrors(cfg, cells, model, frames, child);
    ReplacedRoot(cells, model, frames, child, root, base);
  }

  lemma CellParts(cfg: Config, cell: Cell, c: Context)
    requires CellIs(cfg, cell, c) && Stacked(c)
    ensures cell.frames != [] && cell.graph.JournalOf() == c.journal
    ensures var under, f := cell.frames[..|cell.frames| - 1], cell.frames[|cell.frames| - 1];
            c.frames == FramesOf(under) + [f.frame] && TopOk(cfg, cell.graph, under, f)
  {
    hide ScansFor, Tidy, FlagsFor, ClocksFor, FrameOk;
    SplitFrames(cell.frames);
    SplitOk(cfg, c.journal, cell.frames);
    assert c == Context(c.journal, c.frames);
  }

  lemma UnwoundIs(rest: seq<Context>, c: Context, under: seq<Frame>, f: Frame)
    requires Stacked(c) && c.frames == under + [f]
    ensures Fits(c.journal, f) && Top(rest + [c]) == c
    ensures Unwound(rest + [c]) == Settle(rest, Context(if f.Enter? then c.journal else Undo(c.journal, f.mark), under))
  {
    hide Undo, Settle;
    assert Top(rest + [c]) == c && Below(rest + [c]) == rest;
    assert Top(c.frames) == f && Below(c.frames) == under;
  }

  lemma NoChild(contexts: seq<Context>)
    ensures contexts + ChildContexts(None) == contexts
  {
  }

  class DepthFirstExplorer {
    const cfg: Config
    const stop: seq<Terminal> -> bool
    const scratch: MaskedContext
    var contexts: seq<Cell>
    var published: seq<Terminal>
    var stopped: bool
    ghost var model: seq<Context>

    ghost predicate Valid()
      reads this, set i | 0 <= i < |contexts| :: contexts[i].graph
    {
      Mirrors(cfg, contexts, model) && Apart(contexts) && AllStacked(model)
    }

    constructor (cfg: Config, stop: seq<Terminal> -> bool)
      ensures this.cfg == cfg && this.stop == stop && fresh(scratch)
      ensures contexts == [] && published == [] && !stopped && model == []
    {
      var context := new MaskedContext();
      this.cfg, this.stop, scratch := cfg, stop, context;
      contexts, published, stopped, model := [], [], false, [];
    }

    /** Handles the topmost frame; the contexts are replaced by the caller. */
    method HandleTop(ghost root: ExplorationGraph, ghost base: Journal)
      returns (frames: seq<SavedFrame>, child: Option<Child>, more: seq<Terminal>)
      requires Valid() && contexts != [] && ValidProgram(cfg.program) && RootOk(contexts, model, root, base)
      modifies contexts[|contexts| - 1].graph, scratch
      ensures child.Some? ==> fresh(child.value.graph)
      ensures AllStacked(Step(cfg, model).contexts) && more == Step(cfg, model).published
      ensures var cells, after := Replaced(contexts, frames, child), Step(cfg, model).contexts;
              Mirrors(cfg, cells, after) && Apart(cells) && RootOk(cells, after, root, base)
    {
      hide CellIs, FramesOk, FramesOf, Rooted, Stacked, Step, Settle, Handled, ChildOk, ChildContexts, Replaced,
           ScansFor, Tidy, FlagsFor, ClocksFor, ValidProgram;
      var last := |contexts| - 1;
      var cell := contexts[last];
      ghost var rest, c := model[..last], model[last];
      assert model == rest + [c];
      StepAdvances(cfg, model);
      AdvancesMeans(cfg, model);
      frames, child, more := Handle(cfg, scratch, cell, rest, c, base);
      forall i | 0 <= i < last ensures CellIs(cfg, contexts[i], model[i]) {
        assert contexts[i].graph != cell.graph;
      }
      HandledReplaces(cfg, contexts, model, frames, child, root, base);
    }

    /** One step of the machine, on the objects. */
    method StepOnce(ghost root: ExplorationGraph, ghost base: Journal)
      requires Valid() && contexts != [] && !stopped && ValidProgram(cfg.program) && RootOk(contexts, model, root, base)
      modifies this, contexts[|contexts| - 1].graph, scratch
      ensures Valid() && model == Step(cfg, old(model)).contexts
      ensures published == old(published) + Step(cfg, old(model)).published
      ensures stopped == (Step(cfg, old(model)).published != [] && stop(published))
      ensures RootOk(contexts, model, root, base)
      ensures forall x :: x in GraphsOf(contexts) ==> x in old(GraphsOf(contexts)) || fresh(x)
    {
      hide CellIs, Apart, Step, Stacked, RootOk, Replaced, GraphsOf, ValidProgram;
      var frames, child, more := HandleTop(root, base);
      ReplacedGraphs(contexts, frames, child);
      contexts := Replaced(contexts, frames, child);
      model := Step(cfg, model).contexts;
      if more != [] {
        published := published + more;
        stopped := stop(published);
      }
      forall i | 0 <= i < |contexts| ensures CellIs(cfg, contexts[i], model[i]) {
        assert contexts[i].graph as object != this;
      }
    }

    /** Pops the topmost frame, rolling its graph back where the frame holds a checkpoint. */
    method UnwindTop(ghost root: ExplorationGraph, ghost base: Journal) returns (frames: seq<SavedFrame>)
      requires Valid() && contexts != [] && RootOk(contexts, model, root, base)
      modifies contexts[|contexts| - 1].graph
      ensures AllStacked(Unwound(model)) && FrameTotal(Unwound(model)) < FrameTotal(model)
      ensures var cells, after := Replaced(contexts, frames, None), Unwound(model);
              Mirrors(cfg, cells, after) && Apart(cells) && RootOk(cells, after, root, base)
    {
      hide CellIs, FramesOk, FramesOf, Rooted, Stacked, Settle, Handled, Replaced, ScansFor, Tidy, FlagsFor,
           ClocksFor, FrameOk, Undo, Unwound;
      var last := |contexts| - 1;
      var cell := contexts[last];
      ghost var rest, c := model[..last], model[last];
      assert model == rest + [c];
      UnwindingStacked(cfg, model);
      CellParts(cfg, cell, c);
      var under, f := cell.frames[..|cell.frames| - 1], cell.frames[|cell.frames| - 1];
      UnwoundIs(rest, c, FramesOf(under), f.frame);
      if f.frame.Enter? {
        PopEnter(cfg, base, c.journal, under, f);
        MakeHandled(cfg, cell.graph, under, base, Rooted(base, c.journal, c.frames));
        frames := under;
      } else {
        frames := HandleExit(cfg, cell.graph, under, f, base);
      }
      forall i | 0 <= i < last ensures CellIs(cfg, contexts[i], model[i]) {
        assert contexts[i].graph != cell.graph;
      }
      HandledReplaces(cfg, contexts, model, frames, None, root, base);
      NoChild(Unwound(model));
    }

    method UnwindOnce(ghost root: ExplorationGraph, ghost base: Journal)
      requires Valid() && contexts != [] && RootOk(contexts, model, root, base)
      modifies this`contexts, this`model, contexts[|contexts| - 1].graph
      ensures Valid() && model == Unwound(old(model)) && RootOk(contexts, model, root, base)
      ensures FrameTotal(model) < old(FrameTotal(model))
      ensures forall x :: x in GraphsOf(contexts) ==> x in old(GraphsOf(contexts))
    {
      hide CellIs, Apart, Stacked, RootOk, Replaced, GraphsOf, Unwound;
      var frames := UnwindTop(root, base);
      ReplacedGraphs(contexts, frames, None);
      contexts := Replaced(contexts, frames, None);
      model := Unwound(model);
      forall i | 0 <= i < |contexts| ensures CellIs(cfg, contexts[i], model[i]) {
        assert contexts[i].graph as object != this;
      }
    }

    /** Explores from `graph` until everything is published or the observer stops the run; `graph` is restored. */
    method Run(graph: ExplorationGraph, depth: nat, guarded: bool)
      requires graph.Valid() && Pending(cfg, Task(graph.graph, guarded)) && ValidProgram(cfg.program) && !stopped
      modifies this, graph, scratch
      ensures contexts == [] && graph.Valid() && graph.JournalOf() == old(graph.JournalOf())
      ensures published == Cut(stop, old(published), Visit(cfg, old(graph.graph), depth, guarded))
    {
      hide Pending, ValidProgram, CellIs, Apart, Stacked, Step, RootOk, GraphsOf, Remaining, StepsLeft, FrameTotal,
           Cut, Visit, ScansFor, Tidy, FlagsFor, ClocksFor;
      ghost var base := graph.JournalOf();
      ghost var goal := Cut(stop, published, Visit(cfg, graph.graph, depth, guarded));
      StartRun(cfg, graph, depth, guarded);
      contexts := [Cell(graph, [SavedFrame(Enter(depth, guarded), false, None)])];
      model := [Context(graph.JournalOf(), [Enter(depth, guarded)])];
      StartCell(cfg, graph, contexts, model, depth, guarded);
      while contexts != []
        invariant Valid() && RootOk(contexts, model, graph, base)
        invariant forall x :: x in GraphsOf(contexts) ==> x == graph || fresh(x)
        invariant if stopped then published == goal else Cut(stop, published, Remaining(cfg, model)) == goal
        decreases if stopped then 0 else 1, if stopped then FrameTotal(model) else StepsLeft(cfg, model)
      {
        TopIsListed(contexts);
        if stopped {
          UnwindOnce(graph, base);
        } else {
          RunAdvances(cfg, stop, published, model);
          StepOnce(graph, base);
        }
      }
      NothingLeft(cfg, stop, published, model, graph, base);
    }
  }

  /** What a step does to the rest of the run. */
  lemma RunAdvances(cfg: Config, stop: seq<Terminal> -> bool, published: seq<Terminal>, model: seq<Context>)
    requires model != [] && AllStacked(model)
    ensures AllStacked(Step(cfg, model).contexts) && StepsLeft(cfg, Step(cfg, model).contexts) < StepsLeft(cfg, model)
    ensures var more := Step(cfg, model).published;
            Cut(stop, published, Remaining(cfg, model)) ==
            if more != [] && stop(published + more) then published + more
            else Cut(stop, published + more, Remaining(cfg, Step(cfg, model).contexts))
  {
    hide Step, Remaining, StepsLeft, Cut, Stacked;
    StepAdvances(cfg, model);
    PublishesOneAtMost(cfg, model);
    var more, left := Step(cfg, model).published, Remaining(cfg, Step(cfg, model).contexts);
    if more == [] {
      CutNothing(stop, published, left);
      assert published + more == published;
    } else {
      assert more == [more[0]];
      CutOne(stop, published, more[0], left);
    }
  }

  lemma StartRun(cfg: Config, graph: ExplorationGraph, depth: nat, guarded: bool)
    requires graph.Valid()
    ensures var model := [Context(graph.JournalOf(), [Enter(depth, guarded)])];
            AllStacked(model) && Remaining(cfg, model) == Visit(cfg, graph.graph, depth, guarded)
  {
    hide Visit, ScansFor, Tidy, FlagsFor, ClocksFor;
    var j := graph.JournalOf();
    ScansSound(j, graph.tables);
    EnterFrame(cfg, [], j, [], depth, guarded);
    assert [] + [Context(j, [] + [Enter(depth, guarded)])] == [Context(j, [Enter(depth, guarded)])];
    assert Visit(cfg, j.graph, depth, guarded) + [] + [] == Visit(cfg, j.graph, depth, guarded);
  }

  lemma StartCell(cfg: Config, graph: ExplorationGraph, cells: seq<Cell>, model: seq<Context>, depth: nat,
                  guarded: bool)
    requires graph.Valid() && Pending(cfg, Task(graph.graph, guarded))
    requires cells == [Cell(graph, [SavedFrame(Enter(depth, guarded), false, None)])]
    requires model == [Context(graph.JournalOf(), [Enter(depth, guarded)])]
    ensures Mirrors(cfg, cells, model) && Apart(cells) && RootOk(cells, model, graph, graph.JournalOf())
            && GraphsOf(cells) == {graph}
  {
    hide Pending, ScansFor, Tidy, FlagsFor, ClocksFor, FrameOk;
    ScansSound(graph.JournalOf(), graph.tables);
    EnterOk(cfg, graph.JournalOf(), depth, guarded, false, None);
    assert GraphsOf(cells) == {cells[0].graph};
  }

  lemma TopIsListed(cells: seq<Cell>)
    requires cells != []
    ensures cells[|cells| - 1].graph in GraphsOf(cells)
  {
  }

  lemma NothingLeft(cfg: Config, stop: seq<Terminal> -> bool, published: seq<Terminal>, model: seq<Context>,
                    root: ExplorationGraph, base: Journal)
    requires model == [] && RootOk([], model, root, base)
    ensures Cut(stop, published, Remaining(cfg, model)) == published && root.Valid() && root.JournalOf() == base
  {
    hide ScansFor, Tidy, FlagsFor, ClocksFor;
  }

  /** The sequential entry point: explores from the empty graph. */
  method Verify(cfg: Config, stop: seq<Terminal> -> bool) returns (published: seq<Terminal>)
    requires ValidProgram(cfg.program)
    ensures published == Cut(stop, [], Executions(cfg))
  {
    hide Pending, ValidProgram, Visit, Cut, ScansFor, Tidy, FlagsFor, ClocksFor;
    EmptyGraphPending(cfg);
    var explorer := new DepthFirstExplorer(cfg, stop);
    var graph := new ExplorationGraph();
    explorer.Run(graph, 0, false);
    published := explorer.published;
  }

  /** A run that is never stopped publishes exactly the executions of the recursive search: all are sound, and they
      match the exhaustive enumeration. */
  method VerifyAll(cfg: Config) returns (published: seq<Terminal>)
    requires ValidProgram(cfg.program)
    ensures published == Executions(cfg)
    ensures forall e :: e in published ==> TerminalSound(cfg, e)
    ensures MatchesEnumeration(cfg, published)
  {
    hide ValidProgram, Executions, Cut, MatchesEnumeration;
    published := Verify(cfg, _ => false);
    CutNever(_ => false, [], Executions(cfg));
    ExecutionsSound(cfg);
    SearchMatchesEnumeration(cfg);
  }
}
