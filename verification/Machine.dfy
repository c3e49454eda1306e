/** The iterative explorer as a stack machine: contexts own a journaled graph and a stack of frames, and
    one step of the machine handles the topmost frame. */
module Machine {
  import opened Optional
  import opened Events
  import opened Consistency
  import opened Replay
  import opened Revisits
  import opened Engine
  import opened Journals

  /** Continuations within one graph. The mark is where the graph is rolled back to on resumption. */
  datatype Frame =
    | Enter(depth: nat, guarded: bool)
    | ExitLinear(depth: nat, mark: Mark)
    | ResumeChoice(depth: nat, mark: Mark, thread: ThreadId, choices: seq<Value>, cursor: nat)
    | ResumeReceive(depth: nat, mark: Mark, thread: ThreadId, op: Label, sends: seq<nat>, cursor: nat, bottom: bool)
    | ResumeRevisits(depth: nat, mark: Mark, send: nat, receives: seq<nat>, cursor: nat)

  /** One graph and its frames; the last frame is the topmost. */
  datatype Context = Context(journal: Journal, frames: seq<Frame>)

  datatype StepResult = StepResult(contexts: seq<Context>, published: seq<Terminal>)

  // ----- the step -----

  function Top<T>(s: seq<T>): T
    requires s != []
  {
    s[|s| - 1]
  }

  function Below<T>(s: seq<T>): seq<T>
    requires s != []
  {
    s[..|s| - 1]
  }

  /** Put back a context unless its frames are exhausted. */
  function Settle(rest: seq<Context>, c: Context): seq<Context>
  {
    if c.frames == [] then rest else rest + [c]
  }

  function NewContext(g: Graph, depth: nat, guarded: bool): Context
  {
    Context(Fresh(g), [Enter(depth, guarded)])
  }

  ghost function StepNext(cfg: Config, rest: seq<Context>, j: Journal, under: seq<Frame>, depth: nat, t: ThreadId,
                          op: Label): StepResult
  {
    match op
    case Error(_) => StepResult(Settle(rest, Context(j, under)), [Terminal(AddEvent(j.graph, t, op), ErrorFound)])
    case Choice(_, choices) =>
      if choices == [] then
        StepResult(rest + [Context(Append(j, t, op),
                                   under + [ExitLinear(depth, MarkOf(j)), Enter(depth + 1, false)])], [])
      else
        StepResult(rest + [Context(j, under + [ResumeChoice(depth, MarkOf(j), t, Distinct(choices), 0)])], [])
    case Receive(blocking, _) =>
      StepResult(rest + [Context(j, under
                                 + [ResumeReceive(depth, MarkOf(j), t, op, CompatibleSends(j.graph, t, op), 0,
                                                  !blocking)])], [])
    case Send(_, _) =>
      var k := Append(j, t, op);
      StepResult(rest + [Context(k, under + [ResumeRevisits(depth, MarkOf(j), |j.graph.events|,
                                                            DestinationReceives(k.graph, |j.graph.events|), 0)])], [])
    case Block =>
      StepResult(rest + [Context(Append(j, t, op), under + [ExitLinear(depth, MarkOf(j)), Enter(depth + 1, false)])],
                 [])
  }

  ghost function StepEnter(cfg: Config, rest: seq<Context>, j: Journal, under: seq<Frame>, depth: nat,
                           guarded: bool): StepResult
  {
    var done := Settle(rest, Context(j, under));
    if guarded && !Consistent(j.graph, cfg.model) then StepResult(done, [])
    else if depth >= cfg.maxDepth then StepResult(done, [Terminal(j.graph, DepthLimit)])
    else
      match NextEvent(cfg, j.graph)
      case NoNext(suppressed) =>
        (match Reschedule(cfg.program, j.graph)
         case NoneReady => StepResult(done, [Terminal(j.graph, MaximalKind(j.graph, suppressed))])
         case Ready(h) => StepResult(done + [NewContext(h, depth, false)], [])
         case Violation(_) => StepResult(done, []))
      case Next(t, op) => StepNext(cfg, rest, j, under, depth, t, op)
  }

  function StepChoice(rest: seq<Context>, j: Journal, under: seq<Frame>, f: Frame): StepResult
    requires f.ResumeChoice? && Sound(j) && MarkLe(f.mark, MarkOf(j))
  {
    var base := Undo(j, f.mark);
    if f.cursor >= |f.choices| then StepResult(Settle(rest, Context(base, under)), [])
    else
      var child := Append(base, f.thread, Choice(f.choices[f.cursor], f.choices));
      StepResult(rest + [Context(child, under
                                 + [ResumeChoice(f.depth, f.mark, f.thread, f.choices, f.cursor + 1),
                                    Enter(f.depth + 1, false)])], [])
  }

  function AppendBound(j: Journal, t: ThreadId, op: Label, source: Source): Journal
  {
    Bind(Append(j, t, op), |j.graph.events|, source)
  }

  function NextSource(f: Frame): Frame
    requires f.ResumeReceive?
  {
    ResumeReceive(f.depth, f.mark, f.thread, f.op, f.sends, f.cursor + 1, f.bottom)
  }

  function WithoutBottom(f: Frame): Frame
    requires f.ResumeReceive?
  {
    ResumeReceive(f.depth, f.mark, f.thread, f.op, f.sends, f.cursor, false)
  }

  function StepReceive(rest: seq<Context>, j: Journal, under: seq<Frame>, f: Frame): StepResult
    requires f.ResumeReceive? && Sound(j) && MarkLe(f.mark, MarkOf(j))
  {
    var base := Undo(j, f.mark);
    if f.cursor < |f.sends| then
      var child := AppendBound(base, f.thread, f.op, From(f.sends[f.cursor]));
      StepResult(rest + [Context(child, under + [NextSource(f), Enter(f.depth + 1, true)])], [])
    else if f.bottom then
      var child := AppendBound(base, f.thread, f.op, Bottom);
      StepResult(rest + [Context(child, under + [WithoutBottom(f), Enter(f.depth + 1, true)])], [])
    else StepResult(Settle(rest, Context(base, under)), [])
  }

  /** The next permitted revisit from `cursor` on, and where to continue afterwards. */
  ghost function NextRevisit(g: Graph, s: nat, m: CommunicationModel, receives: seq<nat>,
                             cursor: nat): (r: (nat, Option<Graph>))
    requires s < |g.events| && forall i :: 0 <= i < |receives| ==> receives[i] < |g.events|
    ensures r.1.Some? ==> cursor < r.0 <= |receives|
    decreases |receives| - cursor
  {
    if cursor >= |receives| then (|receives|, None)
    else if RevisitAllowed(g, receives[cursor], s, m) then (cursor + 1, Some(RevisitChild(g, receives[cursor], s)))
    else NextRevisit(g, s, m, receives, cursor + 1)
  }

  ghost predicate RevisitsLive(j: Journal, f: Frame)
    requires f.ResumeRevisits?
  {
    f.send < |j.graph.events| && forall i :: 0 <= i < |f.receives| ==> f.receives[i] < |j.graph.events|
  }

  ghost function StepRevisits(cfg: Config, rest: seq<Context>, j: Journal, under: seq<Frame>, f: Frame): StepResult
    requires f.ResumeRevisits? && RevisitsLive(j, f)
  {
    var next := NextRevisit(j.graph, f.send, cfg.model, f.receives, f.cursor);
    match next.1
    case Some(child) =>
      StepResult(rest + [Context(j, under + [ResumeRevisits(f.depth, f.mark, f.send, f.receives, next.0)]),
                         NewContext(child, f.depth + 1, true)], [])
    case None =>
      StepResult(rest + [Context(j, under + [ExitLinear(f.depth, f.mark), Enter(f.depth + 1, false)])], [])
  }

  /** A frame that may lie under another one, with the mark it will roll back to. */
  ghost predicate Resumable(f: Frame)
  {
    f.ExitLinear? || f.ResumeChoice? || f.ResumeReceive?
  }

  ghost predicate MarksAscend(frames: seq<Frame>, limit: Mark)
  {
    && (forall i :: 0 <= i < |frames| ==> Resumable(frames[i]) && MarkLe(frames[i].mark, limit))
    && (forall i, k :: 0 <= i < k < |frames| ==> MarkLe(frames[i].mark, frames[k].mark))
  }

  /** The frames under the topmost one roll back ever further; so does the topmost one, if it rolls back. */
  ghost predicate Stacked(c: Context)
  {
    && Sound(c.journal) && c.frames != []
    && var f := Top(c.frames);
       match f
       case Enter(_, _) => MarksAscend(Below(c.frames), MarkOf(c.journal))
       case ResumeRevisits(_, mark, _, _, _) =>
         MarkLe(mark, MarkOf(c.journal)) && MarksAscend(Below(c.frames), mark) && RevisitsLive(c.journal, f)
       case _ => MarkLe(f.mark, MarkOf(c.journal)) && MarksAscend(Below(c.frames), f.mark)
  }

  ghost predicate AllStacked(contexts: seq<Context>)
  {
    forall i :: 0 <= i < |contexts| ==> Stacked(contexts[i])
  }

  ghost function Step(cfg: Config, contexts: seq<Context>): StepResult
    requires contexts != [] && Stacked(Top(contexts))
  {
    var rest, c := Below(contexts), Top(contexts);
    var j, under := c.journal, Below(c.frames);
    match Top(c.frames)
    case Enter(depth, guarded) => StepEnter(cfg, rest, j, under, depth, guarded)
    case ExitLinear(_, mark) => StepResult(Settle(rest, Context(Undo(j, mark), under)), [])
    case ResumeChoice(_, _, _, _, _) => StepChoice(rest, j, under, Top(c.frames))
    case ResumeReceive(_, _, _, _, _, _, _) => StepReceive(rest, j, under, Top(c.frames))
    case ResumeRevisits(_, _, _, _, _) => StepRevisits(cfg, rest, j, under, Top(c.frames))
  }

  // ----- handing an alternative to another worker -----

  datatype Handoff = Handoff(task: Task, depth: nat, contexts: seq<Context>)

  /** The alternative the topmost frame may give away, and the machine without it. A choice or receive frame
      keeps its last alternative; the bottom branch is never given away. */
  ghost function Split(cfg: Config, contexts: seq<Context>): Option<Handoff>
    requires contexts != [] && Stacked(Top(contexts))
  {
    var rest, c := Below(contexts), Top(contexts);
    var j, under, f := c.journal, Below(c.frames), Top(c.frames);
    match f
    case ResumeChoice(depth, mark, t, choices, cursor) =>
      if cursor + 1 < |choices| then
        var base := Undo(j, mark);
        Some(Handoff(Task(AddEvent(base.graph, t, Choice(choices[cursor], choices)), false), depth + 1,
                     rest + [Context(base, under + [ResumeChoice(depth, mark, t, choices, cursor + 1)])]))
      else None
    case ResumeReceive(depth, mark, t, op, sends, cursor, bottom) =>
      if cursor < |sends| && (cursor + 1 < |sends| || bottom) then
        var base := Undo(j, mark);
        Some(Handoff(Task(AddReceive(base.graph, t, op, From(sends[cursor])), true), depth + 1,
                     rest + [Context(base, under + [NextSource(f)])]))
      else None
    case ResumeRevisits(depth, mark, send, receives, cursor) =>
      var next := NextRevisit(j.graph, send, cfg.model, receives, cursor);
      if next.1.Some? then
        Some(Handoff(Task(next.1.value, true), depth + 1,
                     rest + [Context(j, under + [ResumeRevisits(depth, mark, send, receives, next.0)])]))
      else None
    case _ => None
  }

  // ----- what a stack of frames still has to publish -----

  ghost function ChoiceRemaining(j: Journal, f: Frame): seq<Task>
    requires f.ResumeChoice? && Sound(j) && MarkLe(f.mark, MarkOf(j))
  {
    if f.cursor >= |f.choices| then []
        else ChoiceTasks(Undo(j, f.mark).graph, f.thread, f.choices[f.cursor..], f.choices)
  }

  ghost function ReceiveRemaining(j: Journal, f: Frame): seq<Task>
    requires f.ResumeReceive? && Sound(j) && MarkLe(f.mark, MarkOf(j))
  {
    var base := Undo(j, f.mark).graph;
    (if f.cursor >= |f.sends| then [] else SourceTasks(base, f.thread, f.op, f.sends[f.cursor..]))
    + BottomTasks(base, f.thread, f.op, f.bottom)
  }

  ghost function RevisitRemaining(cfg: Config, j: Journal, f: Frame): seq<Task>
    requires f.ResumeRevisits? && RevisitsLive(j, f)
  {
    (if f.cursor >= |f.receives| then [] else RevisitTasks(j.graph, f.send, cfg.model, f.receives[f.cursor..]))
    + [Task(j.graph, false)]
  }

  /** The alternatives a resumable frame has yet to start. */
  ghost function Alternatives(cfg: Config, j: Journal, f: Frame): seq<Task>
    requires Sound(j) && (f.Enter? || MarkLe(f.mark, MarkOf(j))) && (f.ResumeRevisits? ==> RevisitsLive(j, f))
  {
    match f
    case Enter(_, guarded) => [Task(j.graph, guarded)]
    case ExitLinear(_, _) => []
    case ResumeChoice(_, _, _, _, _) => ChoiceRemaining(j, f)
    case ResumeReceive(_, _, _, _, _, _, _) => ReceiveRemaining(j, f)
    case ResumeRevisits(_, _, _, _, _) => RevisitRemaining(cfg, j, f)
  }

  function ChildDepth(f: Frame): nat
  {
    if f.Enter? then f.depth else f.depth + 1
  }

  ghost function FrameRemaining(cfg: Config, j: Journal, f: Frame): seq<Terminal>
    requires Sound(j) && (f.Enter? || MarkLe(f.mark, MarkOf(j))) && (f.ResumeRevisits? ==> RevisitsLive(j, f))
  {
    VisitAll(cfg, Alternatives(cfg, j, f), ChildDepth(f))
  }

  ghost function UnderRemaining(cfg: Config, j: Journal, frames: seq<Frame>): seq<Terminal>
    requires Sound(j) && MarksAscend(frames, MarkOf(j))
    decreases |frames|
  {
    if frames == [] then []
    else FrameRemaining(cfg, j, Top(frames)) + UnderRemaining(cfg, j, Below(frames))
  }

  ghost predicate FitsUnder(c: Context)
    requires c.frames != []
  {
    MarksAscend(Below(c.frames), MarkOf(c.journal))
  }

  lemma StackedFits(c: Context)
    requires Stacked(c)
    ensures FitsUnder(c)
  {
  }

  ghost function ContextRemaining(cfg: Config, c: Context): seq<Terminal>
    requires Stacked(c)
  {
    StackedFits(c);
    FrameRemaining(cfg, c.journal, Top(c.frames)) + UnderRemaining(cfg, c.journal, Below(c.frames))
  }

  /** Everything the machine has yet to publish, in order. */
  ghost function Remaining(cfg: Config, contexts: seq<Context>): seq<Terminal>
    requires AllStacked(contexts)
    decreases |contexts|
  {
    if contexts == [] then []
    else ContextRemaining(cfg, Top(contexts)) + Remaining(cfg, Below(contexts))
  }

  // ----- how many steps are left -----

  /** Machine steps needed to explore a subtree. */
  ghost function Cost(cfg: Config, g: Graph, depth: nat, guarded: bool): nat
    decreases cfg.maxDepth - depth, 0, |g.events|
  {
    if (guarded && !Consistent(g, cfg.model)) || depth >= cfg.maxDepth then 1
    else
      match NextEvent(cfg, g)
      case NoNext(_) =>
        (match Reschedule(cfg.program, g)
         case Ready(h) => 1 + Cost(cfg, h, depth, false)
         case _ => 1)
      case Next(t, op) => if op.Error? then 1 else 2 + CostAll(cfg, Children(cfg, g, t, op), depth + 1)
  }

  ghost function CostAll(cfg: Config, tasks: seq<Task>, depth: nat): nat
    decreases cfg.maxDepth - depth, 1, |tasks|
  {
    if tasks == [] then 0
    else 1 + Cost(cfg, tasks[0].graph, depth, tasks[0].guarded) + CostAll(cfg, tasks[1..], depth)
  }

  ghost function FrameCost(cfg: Config, j: Journal, f: Frame): nat
    requires Sound(j) && (f.Enter? || MarkLe(f.mark, MarkOf(j))) && (f.ResumeRevisits? ==> RevisitsLive(j, f))
  {
    if f.Enter? then Cost(cfg, j.graph, f.depth, f.guarded) else 1 + CostAll(cfg, Alternatives(cfg, j, f), f.depth + 1)
  }

  ghost function UnderCost(cfg: Config, j: Journal, frames: seq<Frame>): nat
    requires Sound(j) && MarksAscend(frames, MarkOf(j))
    decreases |frames|
  {
    if frames == [] then 0
    else FrameCost(cfg, j, Top(frames)) + UnderCost(cfg, j, Below(frames))
  }

  ghost function ContextCost(cfg: Config, c: Context): nat
    requires Stacked(c)
  {
    StackedFits(c);
    FrameCost(cfg, c.journal, Top(c.frames)) + UnderCost(cfg, c.journal, Below(c.frames))
  }

  ghost function StepsLeft(cfg: Config, contexts: seq<Context>): nat
    requires AllStacked(contexts)
    decreases |contexts|
  {
    if contexts == [] then 0
    else ContextCost(cfg, Top(contexts)) + StepsLeft(cfg, Below(contexts))
  }
}
