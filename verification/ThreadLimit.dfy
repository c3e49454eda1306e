/** The per-thread event bound explores exactly what the unbounded engine explores on thread functions that stop
    at the bound. */
module ThreadLimit {
  import opened Optional
  import opened Events
  import opened Consistency
  import opened Subgraphs
  import opened Replay
  import opened Revisits
  import opened Engine

  /** Every thread function wrapped to be done from step `n` on. */
  function Cap(p: Program, n: nat): Program
  {
    Program(p.first, p.count, (t: ThreadId, trace: seq<Observed>, step: nat) =>
            if step >= n then None else p.next(t, trace, step))
  }

  function Bounded(p: Program, depth: nat, n: nat, m: CommunicationModel): Config
  {
    Config(p, depth, n, m)
  }

  function Wrapped(p: Program, depth: nat, n: nat, m: CommunicationModel): Config
  {
    Config(Cap(p, n), depth, 0, m)
  }

  ghost predicate WithinCap(g: Graph, n: nat)
  {
    forall t: ThreadId :: Steps(g, t) <= n
  }

  /** Kinds agree, except that a branch the bound may have cut short says so. */
  ghost predicate KindAgrees(bounded: Kind, wrapped: Kind)
  {
    bounded == wrapped || (bounded.ThreadEventLimit? && (wrapped.Full? || wrapped.Blocked?))
  }

  ghost predicate SameGraphs(bounded: seq<Terminal>, wrapped: seq<Terminal>)
  {
    && |bounded| == |wrapped|
    && forall i ::
         0 <= i < |bounded| ==> bounded[i].graph == wrapped[i].graph && KindAgrees(bounded[i].kind, wrapped[i].kind)
  }

  ghost predicate AllWithin(terminals: seq<Terminal>, n: nat)
  {
    forall i :: 0 <= i < |terminals| ==> WithinCap(terminals[i].graph, n)
  }

  lemma {:induction false} NextAgrees(p: Program, depth: nat, n: nat, m: CommunicationModel, g: Graph, t: ThreadId,
                                      suppressed: bool)
    requires n > 0 && p.first <= t <= p.first + p.count
    ensures var a, b := NextFrom(Bounded(p, depth, n, m), g, t, suppressed),
            NextFrom(Wrapped(p, depth, n, m), g, t, false);
            (a.Next? || b.Next? ==> a == b) && (b.NoNext? ==> !b.suppressed)
    decreases p.first + p.count - t
  {
    hide Terminated, Trace, Steps, CompatibleSends;
    if t < p.first + p.count {
      NextAgrees(p, depth, n, m, g, t + 1, suppressed);
      NextAgrees(p, depth, n, m, g, t + 1, true);
    }
  }

  lemma {:induction false} RescheduleAgrees(p: Program, n: nat, g: Graph, t: ThreadId)
    requires WithinCap(g, n) && p.first <= t <= p.first + p.count
    ensures RescheduleFrom(p, g, t) == RescheduleFrom(Cap(p, n), g, t)
    decreases p.first + p.count - t
  {
    hide Trace, CompatibleSends, DropEvent;
    if t < p.first + p.count {
      assert Steps(g, t) <= n;
      RescheduleAgrees(p, n, g, t + 1);
    }
  }

  lemma {:induction false} ChildrenAgree(p: Program, depth: nat, n: nat, m: CommunicationModel, g: Graph, t: ThreadId,
                                         op: Label)
    ensures Children(Bounded(p, depth, n, m), g, t, op) == Children(Wrapped(p, depth, n, m), g, t, op)
  {
    hide SendTasks, SourceTasks, BottomTasks, ChoiceTasks;
  }

  // ----- the bound is kept -----

  /** An ascending sequence drawn from another is no longer. */
  lemma {:induction false} AscendingSubset(a: seq<nat>, b: seq<nat>)
    requires Ascending(a) && Ascending(b) && forall x :: x in a ==> x in b
    ensures |a| <= |b|
    decreases |b|
  {
    if a != [] {
      var n := |a| - 1;
      assert a[n] in b;
      var k :| 0 <= k < |b| && b[k] == a[n];
      forall x | x in a[..n] ensures x in b[..k] {
        var i :| 0 <= i < n && a[i] == x;
        assert x in a && x in b;
        var q :| 0 <= q < |b| && b[q] == x;
        assert q < k;
        assert b[..k][q] == x;
      }
      AscendingSubset(a[..n], b[..k]);
    }
  }

  lemma CopyStepsFewer(h: Graph, g: Graph, f: seq<nat>, t: ThreadId)
    requires Subgraph(h, g, f)
    ensures Steps(h, t) <= Steps(g, t)
  {
    var ids := ThreadIds(h, t, |h.events|);
    CoveredIdsAscend(h, g, f, t, ids);
    forall x | x in Mapped(f, ids) ensures x in ThreadIds(g, t, |g.events|) {
      var i :| 0 <= i < |ids| && Mapped(f, ids)[i] == x;
      assert SameEvent(h.events[ids[i]], g.events[f[ids[i]]]);
      ThreadIdsMember(g, t, |g.events|, x);
    }
    AscendingSubset(Mapped(f, ids), ThreadIds(g, t, |g.events|));
  }

  lemma RestrictWithin(g: Graph, keep: Mask, n: nat)
    requires WithinCap(g, n) && |keep| == |g.events|
    ensures WithinCap(Restrict(g, keep), n)
  {
    hide Steps;
    RestrictIsSubgraph(g, keep);
    forall t: ThreadId ensures Steps(Restrict(g, keep), t) <= n {
      CopyStepsFewer(Restrict(g, keep), g, KeptIds(keep), t);
    }
  }

  lemma SameEventsSameSteps(g: Graph, h: Graph, n: nat)
    requires WithinCap(g, n) && h.events == g.events
    ensures WithinCap(h, n)
  {
    forall t: ThreadId ensures Steps(h, t) <= n {
      ThreadIdsFrame(g, h, t, |g.events|);
      assert Steps(g, t) <= n;
    }
  }

  lemma AppendWithin(g: Graph, t: ThreadId, op: Label, n: nat)
    requires WithinCap(g, n) && Steps(g, t) < n
    ensures WithinCap(AddEvent(g, t, op), n)
  {
    var h := AddEvent(g, t, op);
    forall u: ThreadId ensures Steps(h, u) <= n {
      ThreadIdsFrame(g, h, u, |g.events|);
      assert Steps(g, u) <= n;
    }
  }

  ghost predicate TasksWithin(tasks: seq<Task>, n: nat)
  {
    forall i :: 0 <= i < |tasks| ==> WithinCap(tasks[i].graph, n)
  }

  lemma {:induction false} RevisitTasksWithin(g: Graph, s: nat, m: CommunicationModel, receives: seq<nat>, n: nat)
    requires WithinCap(g, n) && s < |g.events| && forall i :: 0 <= i < |receives| ==> receives[i] < |g.events|
    ensures TasksWithin(RevisitTasks(g, s, m, receives), n)
    decreases |receives|
  {
    hide WithinCap, RevisitAllowed, Restrict;
    if receives != [] {
      RevisitTasksWithin(g, s, m, receives[1..], n);
      var recv := receives[0];
      var keep := SurvivorMask(g, recv, s);
      RestrictWithin(g, keep, n);
      SameEventsSameSteps(Restrict(g, keep), RevisitChild(g, recv, s), n);
    }
  }

  lemma ChildrenWithin(cfg: Config, g: Graph, t: ThreadId, op: Label)
    requires cfg.maxThreadEvents > 0 && WithinCap(g, cfg.maxThreadEvents) && Steps(g, t) < cfg.maxThreadEvents
    ensures TasksWithin(Children(cfg, g, t, op), cfg.maxThreadEvents)
  {
    hide WithinCap, Steps, RevisitTasks, CompatibleSends;
    var n := cfg.maxThreadEvents;
    match op
    case Choice(_, choices) =>
      AppendWithin(g, t, op, n);
      var values := Distinct(choices);
      forall i | 0 <= i < |values| ensures WithinCap(AddEvent(g, t, Choice(values[i], values)), n) {
        AppendWithin(g, t, Choice(values[i], values), n);
      }
    case Receive(_, _) =>
      AppendWithin(g, t, op, n);
      forall source: Source ensures WithinCap(AddReceive(g, t, op, source), n) {
        SameEventsSameSteps(AddEvent(g, t, op), AddReceive(g, t, op, source), n);
      }
    case Send(_, _) =>
      AppendWithin(g, t, op, n);
      var h := AddEvent(g, t, op);
      RevisitTasksWithin(h, |g.events|, cfg.model, DestinationReceives(h, |g.events|), n);
    case Block => AppendWithin(g, t, op, n);
    case Error(_) =>
  }

  lemma {:induction false} RescheduleWithin(p: Program, g: Graph, t: ThreadId, n: nat)
    requires WithinCap(g, n) && p.first <= t <= p.first + p.count
    ensures RescheduleFrom(p, g, t).Ready? ==> WithinCap(RescheduleFrom(p, g, t).graph, n)
    decreases p.first + p.count - t
  {
    hide WithinCap, Trace, Steps, CompatibleSends, LastEvent, Restrict;
    if t < p.first + p.count {
      RescheduleWithin(p, g, t + 1, n);
      if LastEvent(g, t).Some? {
        RestrictWithin(g, AllBut(|g.events|, LastEvent(g, t).value), n);
      }
    }
  }

  // ----- the two visits -----

  lemma SameGraphsConcat(a: seq<Terminal>, b: seq<Terminal>, a': seq<Terminal>, b': seq<Terminal>, n: nat)
    requires SameGraphs(a, a') && SameGraphs(b, b') && AllWithin(a, n) && AllWithin(b, n)
    ensures SameGraphs(a + b, a' + b') && AllWithin(a + b, n)
  {
    hide WithinCap, KindAgrees;
  }

  lemma SameGraphsOne(g: Graph, k: Kind, k': Kind, n: nat)
    requires KindAgrees(k, k') && WithinCap(g, n)
    ensures SameGraphs([Terminal(g, k)], [Terminal(g, k')]) && AllWithin([Terminal(g, k)], n)
  {
  }

  lemma VisitUnfold(cfg: Config, g: Graph, depth: nat, guarded: bool)
    requires !(guarded && !Consistent(g, cfg.model)) && depth < cfg.maxDepth
    ensures match NextEvent(cfg, g)
            case NoNext(suppressed) =>
              (match Reschedule(cfg.program, g)
               case NoneReady => Visit(cfg, g, depth, guarded) == [Terminal(g, MaximalKind(g, suppressed))]
               case Ready(h) => Visit(cfg, g, depth, guarded) == Visit(cfg, h, depth, false)
               case Violation(_) => Visit(cfg, g, depth, guarded) == [])
            case Next(t, op) =>
              Visit(cfg, g, depth, guarded)
              == if op.Error? then [Terminal(AddEvent(g, t, op), ErrorFound)]
                  else VisitAll(cfg, Children(cfg, g, t, op), depth + 1)
  {
    hide Consistent, NextFrom, RescheduleFrom, Children, VisitAll, MaximalKind;
  }

  lemma VisitLeaf(cfg: Config, g: Graph, depth: nat, guarded: bool)
    ensures guarded && !Consistent(g, cfg.model) ==> Visit(cfg, g, depth, guarded) == []
    ensures !(guarded && !Consistent(g, cfg.model)) && depth >= cfg.maxDepth ==>
              Visit(cfg, g, depth, guarded) == [Terminal(g, DepthLimit)]
  {
    hide Consistent, NextFrom, RescheduleFrom, Children, VisitAll, MaximalKind;
  }

  lemma MaximalAgrees(g: Graph, suppressed: bool)
    ensures KindAgrees(MaximalKind(g, suppressed), MaximalKind(g, false))
  {
  }

  lemma StepBelowCap(cfg: Config, g: Graph)
    requires cfg.maxThreadEvents > 0 && NextEvent(cfg, g).Next?
    ensures Steps(g, NextEvent(cfg, g).thread) < cfg.maxThreadEvents
  {
    hide Terminated, Trace, Steps, CompatibleSends, NextFrom;
    NextIsFirstReady(cfg, g, cfg.program.first, false);
  }

  lemma {:induction false} VisitAgrees(p: Program, max: nat, n: nat, m: CommunicationModel, g: Graph, depth: nat,
                                       guarded: bool)
    requires n > 0 && WithinCap(g, n)
    ensures SameGraphs(Visit(Bounded(p, max, n, m), g, depth, guarded), Visit(Wrapped(p, max, n, m), g, depth, guarded))
    ensures AllWithin(Visit(Bounded(p, max, n, m), g, depth, guarded), n)
    decreases max - depth, 0, |g.events|
  {
    hide WithinCap, Consistent, NextFrom, RescheduleFrom, Children, VisitAll, Visit, MaximalKind, KindAgrees, Steps;
    var a, b := Bounded(p, max, n, m), Wrapped(p, max, n, m);
    VisitLeaf(a, g, depth, guarded);
    VisitLeaf(b, g, depth, guarded);
    if !(guarded && !Consistent(g, m)) {
      if depth >= max {
        KindReflexive(DepthLimit);
        SameGraphsOne(g, DepthLimit, DepthLimit, n);
      } else {
        VisitUnfold(a, g, depth, guarded);
        VisitUnfold(b, g, depth, guarded);
        NextAgrees(p, max, n, m, g, p.first, false);
        RescheduleAgrees(p, n, g, p.first);
        RescheduleWithin(p, g, p.first, n);
        match NextEvent(a, g)
        case NoNext(suppressed) =>
          match Reschedule(p, g) {
            case NoneReady =>
              MaximalAgrees(g, suppressed);
              SameGraphsOne(g, MaximalKind(g, suppressed), MaximalKind(g, false), n);
            case Ready(h) => VisitAgrees(p, max, n, m, h, depth, false);
            case Violation(_) =>
          }
        case Next(t, op) =>
          StepBelowCap(a, g);
          if op.Error? {
            AppendWithin(g, t, op, n);
            KindReflexive(ErrorFound);
            SameGraphsOne(AddEvent(g, t, op), ErrorFound, ErrorFound, n);
          } else {
            ChildrenWithin(a, g, t, op);
            ChildrenAgree(p, max, n, m, g, t, op);
            VisitAllAgrees(p, max, n, m, Children(a, g, t, op), depth + 1);
          }
      }
    }
  }

  lemma KindReflexive(k: Kind)
    ensures KindAgrees(k, k)
  {
  }

  lemma {:induction false} VisitAllAgrees(p: Program, max: nat, n: nat, m: CommunicationModel, tasks: seq<Task>,
                                          depth: nat)
    requires n > 0 && TasksWithin(tasks, n)
    ensures SameGraphs(VisitAll(Bounded(p, max, n, m), tasks, depth), VisitAll(Wrapped(p, max, n, m), tasks, depth))
    ensures AllWithin(VisitAll(Bounded(p, max, n, m), tasks, depth), n)
    decreases max - depth, 1, |tasks|
  {
    hide WithinCap, Visit, KindAgrees;
    if tasks != [] {
      var a, b := Bounded(p, max, n, m), Wrapped(p, max, n, m);
      VisitAgrees(p, max, n, m, tasks[0].graph, depth, tasks[0].guarded);
      VisitAllAgrees(p, max, n, m, tasks[1..], depth);
      SameGraphsConcat(Visit(a, tasks[0].graph, depth, tasks[0].guarded), VisitAll(a, tasks[1..], depth),
                       Visit(b, tasks[0].graph, depth, tasks[0].guarded), VisitAll(b, tasks[1..], depth), n);
    }
  }

  /** Running with a bound of `n` events per thread publishes the graphs of the unbounded run on wrapped thread
      functions, in the same order; only a truncated branch is classified differently, and no published graph
      has a thread with more than `n` events. */
  lemma BoundIsWrapping(p: Program, max: nat, n: nat, m: CommunicationModel)
    requires n > 0
    ensures SameGraphs(Executions(Bounded(p, max, n, m)), Executions(Wrapped(p, max, n, m)))
    ensures AllWithin(Executions(Bounded(p, max, n, m)), n)
  {
    VisitAgrees(p, max, n, m, EmptyGraph, 0, false);
  }
}
