/** Algorithm 1 as a recursive visit: next event, children, and the terminal executions published. */
module Engine {
  import opened Optional
  import opened Events
  import opened Consistency
  import opened Subgraphs
  import opened Replay
  import opened Revisits

  datatype Config = Config(program: Program, maxDepth: nat, maxThreadEvents: nat, model: CommunicationModel)

  datatype Kind = Full | Blocked | ErrorFound | DepthLimit | ThreadEventLimit

  datatype Terminal = Terminal(graph: Graph, kind: Kind)

  /** A graph still to be visited; a guarded one is dropped when it is inconsistent. */
  datatype Task = Task(graph: Graph, guarded: bool)

  datatype NextResult = Next(thread: ThreadId, op: Label) | NoNext(suppressed: bool)

  datatype Rescheduling = NoneReady | Ready(graph: Graph) | Violation(thread: ThreadId)

  /** Thread functions never answer with a Block label: Block events are the engine's own. */
  ghost predicate ValidProgram(p: Program)
  {
    forall t: ThreadId, trace: seq<Observed>, step: nat :: p.next(t, trace, step) != Some(Block)
  }

  /** The compatible unread sends with ids below `n`, ascending. */
  function CompatibleBelow(g: Graph, t: ThreadId, op: Label, n: nat): (ids: seq<nat>)
    requires n <= |g.events|
    ensures forall s :: s in ids <==> 0 <= s < n && CompatibleUnread(g, t, op, s)
  {
    if n == 0 then []
    else
      var ids := CompatibleBelow(g, t, op, n - 1);
      if CompatibleUnread(g, t, op, n - 1) then ids + [n - 1] else ids
  }

  function CompatibleSends(g: Graph, t: ThreadId, op: Label): (ids: seq<nat>)
    ensures forall s :: s in ids <==> 0 <= s < |g.events| && CompatibleUnread(g, t, op, s)
  {
    CompatibleBelow(g, t, op, |g.events|)
  }

  /** Sources are tried in insertion order. */
  lemma {:induction false} SourcesAscend(g: Graph, t: ThreadId, op: Label, n: nat)
    requires n <= |g.events|
    ensures Ascending(CompatibleBelow(g, t, op, n))
    decreases n
  {
    hide CompatibleUnread;
    if n > 0 {
      SourcesAscend(g, t, op, n - 1);
      var ids := CompatibleBelow(g, t, op, n - 1);
      assert forall i :: 0 <= i < |ids| ==> ids[i] in ids;
    }
  }

  /** A send looks at the receives of its destination, all of them, in program order. */
  lemma {:induction false} ReceivesListed(g: Graph, t: ThreadId, n: nat)
    requires n <= |g.events|
    ensures Ascending(ReceiveIds(g, t, n))
    ensures forall r: nat :: r in ReceiveIds(g, t, n) <==> r < n && IsReceive(g, r) && g.events[r].thread == t
    decreases n
  {
    if n > 0 { ReceivesListed(g, t, n - 1); }
  }

  predicate AtCap(cfg: Config, g: Graph, t: ThreadId)
  {
    cfg.maxThreadEvents != 0 && Steps(g, t) >= cfg.maxThreadEvents
  }

  /** `op` is what the engine records when thread `t`, asked now, answers. */
  ghost predicate EngineStep(cfg: Config, g: Graph, t: ThreadId, op: Label)
  {
    && cfg.program.first <= t < cfg.program.first + cfg.program.count
    && !Terminated(g, t) && !AtCap(cfg, g, t)
    && var answer := cfg.program.next(t, Trace(g, t), Steps(g, t));
       && answer.Some?
       && if answer.value.Receive? && answer.value.blocking
          && CompatibleSends(g, t, answer.value) == [] then op == Block
          else op == answer.value
  }

  /** The thread will not be asked, or answers that it is done. */
  ghost predicate Idle(cfg: Config, g: Graph, t: ThreadId)
  {
    Terminated(g, t) || AtCap(cfg, g, t) || cfg.program.next(t, Trace(g, t), Steps(g, t)) == None
  }

  function NextFrom(cfg: Config, g: Graph, t: ThreadId, suppressed: bool): NextResult
    requires cfg.program.first <= t <= cfg.program.first + cfg.program.count
    decreases cfg.program.first + cfg.program.count - t
  {
    if t == cfg.program.first + cfg.program.count then NoNext(suppressed)
    else if Terminated(g, t) then NextFrom(cfg, g, t + 1, suppressed)
    else if AtCap(cfg, g, t) then NextFrom(cfg, g, t + 1, true)
    else
      match cfg.program.next(t, Trace(g, t), Steps(g, t))
      case None => NextFrom(cfg, g, t + 1, suppressed)
      case Some(op) =>
        if op.Receive? && op.blocking && CompatibleSends(g, t, op) == [] then Next(t, Block)
        else Next(t, op)
  }

  function NextEvent(cfg: Config, g: Graph): NextResult
  {
    NextFrom(cfg, g, cfg.program.first, false)
  }

  /** The engine records the answer of the first thread that is neither terminated, capped nor done. */
  lemma {:induction false} NextIsFirstReady(cfg: Config, g: Graph, t: ThreadId, suppressed: bool)
    requires cfg.program.first <= t <= cfg.program.first + cfg.program.count
    ensures var r := NextFrom(cfg, g, t, suppressed);
            && (r.Next? ==> t <= r.thread && EngineStep(cfg, g, r.thread, r.op))
            && (forall u ::
                  t <= u < (if r.Next? then r.thread else cfg.program.first + cfg.program.count) ==> Idle(cfg, g, u))
    decreases cfg.program.first + cfg.program.count - t
  {
    hide Terminated, Trace, Steps, AtCap, CompatibleSends;
    if t < cfg.program.first + cfg.program.count {
      NextIsFirstReady(cfg, g, t + 1, suppressed);
      NextIsFirstReady(cfg, g, t + 1, true);
    }
  }

  /** A silent scan is suppressed exactly when it skipped a live thread at the per-thread bound. */
  lemma {:induction false} SuppressedMeansCapped(cfg: Config, g: Graph, t: ThreadId, suppressed: bool)
    requires cfg.program.first <= t <= cfg.program.first + cfg.program.count
    ensures var r := NextFrom(cfg, g, t, suppressed);
            r.NoNext? ==>
              (r.suppressed <==>
                 suppressed || exists u :: t <= u < cfg.program.first + cfg.program.count && Capped(cfg, g, u))
    decreases cfg.program.first + cfg.program.count - t
  {
    hide Terminated, Trace, Steps, AtCap, CompatibleSends;
    if t < cfg.program.first + cfg.program.count {
      SuppressedMeansCapped(cfg, g, t + 1, suppressed);
      SuppressedMeansCapped(cfg, g, t + 1, true);
      assert Capped(cfg, g, t) <==> !Terminated(g, t) && AtCap(cfg, g, t);
    }
  }

  ghost predicate Capped(cfg: Config, g: Graph, t: ThreadId)
  {
    !Terminated(g, t) && AtCap(cfg, g, t)
  }

  function AllBut(n: nat, x: nat): (keep: Mask)
    ensures |keep| == n
    ensures forall y: nat :: Keeps(keep, y) <==> y < n && y != x
  {
    seq(n, (y: nat) => y != x)
  }

  function DropEvent(g: Graph, x: nat): Graph
  {
    Restrict(g, AllBut(|g.events|, x))
  }

  lemma DropShrinks(g: Graph, x: nat)
    requires x < |g.events|
    ensures |DropEvent(g, x).events| == |g.events| - 1
  {
    var keep := AllBut(|g.events|, x);
    var others := seq(|g.events| - 1, (i: nat) => if i < x then i else i + 1);
    forall y: nat ensures y in others <==> y in KeptIds(keep) {
      if y in KeptIds(keep) {
        assert others[if y < x then y else y - 1] == y;
      }
    }
    AscendingUnique(others, KeptIds(keep));
  }

  /** The first blocked thread, from `t` on, whose receive now has a compatible unread send. */
  function RescheduleFrom(p: Program, g: Graph, t: ThreadId): (r: Rescheduling)
    requires p.first <= t <= p.first + p.count
    ensures r.Ready? ==> |r.graph.events| < |g.events|
    decreases p.first + p.count - t
  {
    if t == p.first + p.count then NoneReady
    else
      var last := LastEvent(g, t);
      if last.None? || !IsBlock(g, last.value) then RescheduleFrom(p, g, t + 1)
      else
        match p.next(t, Trace(g, t), Steps(g, t) - 1)
        case Some(Receive(true, matches)) =>
          if CompatibleSends(g, t, Receive(true, matches)) == [] then RescheduleFrom(p, g, t + 1)
          else DropShrinks(g, last.value); Ready(DropEvent(g, last.value))
        case _ => Violation(t)
  }

  function Reschedule(p: Program, g: Graph): (r: Rescheduling)
    ensures r.Ready? ==> |r.graph.events| < |g.events|
  {
    RescheduleFrom(p, g, p.first)
  }

  function MaximalKind(g: Graph, suppressed: bool): Kind
  {
    if suppressed then ThreadEventLimit else if HasBlockedThread(g) then Blocked else Full
  }

  // ----- children -----

  function ChoiceTasks(g: Graph, t: ThreadId, values: seq<Value>, choices: seq<Value>): (tasks: seq<Task>)
    ensures |tasks| == |values|
  {
    seq(|values|, i requires 0 <= i < |values| => Task(AddEvent(g, t, Choice(values[i], choices)), false))
  }

  /** Append a receive and bind it. */
  function AddReceive(g: Graph, t: ThreadId, op: Label, source: Source): Graph
  {
    SetSource(AddEvent(g, t, op), |g.events|, source)
  }

  function SourceTasks(g: Graph, t: ThreadId, op: Label, sends: seq<nat>): (tasks: seq<Task>)
    ensures |tasks| == |sends|
  {
    seq(|sends|, i requires 0 <= i < |sends| => Task(AddReceive(g, t, op, From(sends[i])), true))
  }

  function BottomTasks(g: Graph, t: ThreadId, op: Label, pending: bool): seq<Task>
  {
    if pending then [Task(AddReceive(g, t, op, Bottom), true)] else []
  }

  /** The receives of the thread a send is addressed to. */
  function DestinationReceives(g: Graph, s: nat): (ids: seq<nat>)
    requires IsSend(g, s)
    ensures forall i :: 0 <= i < |ids| ==> IsReceive(g, ids[i]) && g.events[ids[i]].thread == g.events[s].op.destination
  {
    ReceiveIds(g, g.events[s].op.destination, |g.events|)
  }

  ghost function RevisitTasks(g: Graph, s: nat, m: CommunicationModel, receives: seq<nat>): seq<Task>
    requires s < |g.events| && forall i :: 0 <= i < |receives| ==> receives[i] < |g.events|
  {
    if receives == [] then []
    else
      (if RevisitAllowed(g, receives[0], s, m) then [Task(RevisitChild(g, receives[0], s), true)] else [])
      + RevisitTasks(g, s, m, receives[1..])
  }

  ghost function SendTasks(g: Graph, t: ThreadId, op: Label, m: CommunicationModel): seq<Task>
    requires op.Send?
  {
    var h := AddEvent(g, t, op);
    RevisitTasks(h, |g.events|, m, DestinationReceives(h, |g.events|)) + [Task(h, false)]
  }

  /** The subtrees below a graph whose next event is `op` of thread `t`, in visiting order. */
  ghost function Children(cfg: Config, g: Graph, t: ThreadId, op: Label): seq<Task>
  {
    match op
    case Choice(_, choices) =>
      if choices == [] then [Task(AddEvent(g, t, op), false)]
      else ChoiceTasks(g, t, Distinct(choices), Distinct(choices))
    case Receive(blocking, _) =>
      SourceTasks(g, t, op, CompatibleSends(g, t, op)) + BottomTasks(g, t, op, !blocking)
    case Send(_, _) => SendTasks(g, t, op, cfg.model)
    case Block => [Task(AddEvent(g, t, op), false)]
    case Error(_) => []
  }

  // ----- the visit -----

  ghost function Visit(cfg: Config, g: Graph, depth: nat, guarded: bool): seq<Terminal>
    decreases cfg.maxDepth - depth, 0, |g.events|
  {
    if guarded && !Consistent(g, cfg.model) then []
    else if depth >= cfg.maxDepth then [Terminal(g, DepthLimit)]
    else
      match NextEvent(cfg, g)
      case NoNext(suppressed) =>
        (match Reschedule(cfg.program, g)
         case NoneReady => [Terminal(g, MaximalKind(g, suppressed))]
         case Ready(h) => Visit(cfg, h, depth, false)
         case Violation(_) => [])
      case Next(t, op) =>
        if op.Error? then [Terminal(AddEvent(g, t, op), ErrorFound)]
        else VisitAll(cfg, Children(cfg, g, t, op), depth + 1)
  }

  ghost function VisitAll(cfg: Config, tasks: seq<Task>, depth: nat): seq<Terminal>
    decreases cfg.maxDepth - depth, 1, |tasks|
  {
    if tasks == [] then []
    else Visit(cfg, tasks[0].graph, depth, tasks[0].guarded) + VisitAll(cfg, tasks[1..], depth)
  }

  /** Everything `verify` publishes. */
  ghost function Executions(cfg: Config): seq<Terminal>
  {
    Visit(cfg, EmptyGraph, 0, false)
  }
}
