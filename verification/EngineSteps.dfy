/** The questions a step of the search asks of the current graph object. */
module EngineSteps {
  import opened Optional
  import opened Events
  import opened Consistency
  import opened Replay
  import opened Revisits
  import opened GraphCaches
  import opened ExplorationGraphs
  import opened Checkers
  import opened Engine
  import Journals

  method IsConsistent(graph: ExplorationGraph, m: CommunicationModel) returns (r: bool)
    requires graph.Valid()
    modifies graph
    ensures graph.Valid() && graph.JournalOf() == old(graph.JournalOf())
    ensures r <==> Consistent(graph.graph, m)
  {
    hide ScansFor, Tidy, FlagsFor, ClocksFor, Issues, Consistent;
    var issues := CheckExplorationGraph(graph, m, _ => false);
    NothingTolerated(graph.graph, m);
    r := issues == [];
  }

  method HasCompatibleUnreadSend(graph: ExplorationGraph, t: ThreadId, op: Label) returns (r: bool)
    requires graph.Valid()
    ensures r <==> CompatibleSends(graph.graph, t, op) != []
  {
    hide ScansFor, Tidy, FlagsFor, ClocksFor, CompatibleSends;
    var ids := graph.CompatibleUnreadSends(t, op);
    r := ids != [];
  }

  /** The first thread with something to record, in ascending order. */
  method ComputeNextEvent(cfg: Config, graph: ExplorationGraph) returns (next: NextResult)
    requires graph.Valid()
    ensures next == NextEvent(cfg, graph.graph)
  {
    hide ScansFor, Tidy, FlagsFor, ClocksFor, CompatibleSends, Terminated, Trace, Steps;
    ghost var g := graph.graph;
    var suppressed, buffer := false, [];
    var t := cfg.program.first;
    while t < cfg.program.first + cfg.program.count
      invariant cfg.program.first <= t <= cfg.program.first + cfg.program.count
      invariant NextFrom(cfg, g, t, suppressed) == NextFrom(cfg, g, cfg.program.first, false)
    {
      var terminated := graph.ThreadIsTerminated(t);
      var step := graph.ThreadEventCount(t);
      if terminated {
      } else if cfg.maxThreadEvents != 0 && step >= cfg.maxThreadEvents {
        suppressed := true;
      } else {
        buffer := graph.ThreadTraceInto(t, buffer);
        var answer := cfg.program.next(t, buffer, step);
        if answer.Some? {
          var op := answer.value;
          if op.Receive? && op.blocking {
            var ready := HasCompatibleUnreadSend(graph, t, op);
            if !ready {
              return Next(t, Block);
            }
          }
          return Next(t, op);
        }
      }
      t := t + 1;
    }
    next := NoNext(suppressed);
  }

  lemma LastIsInside(g: Graph, t: ThreadId)
    requires LastEvent(g, t).Some?
    ensures LastEvent(g, t).value < |g.events| && Steps(g, t) > 0
  {
  }

  /** The keep mask that drops one event. */
  method KeepAllBut(n: nat, x: nat) returns (keep: Mask)
    requires x < n
    ensures keep == AllBut(n, x)
  {
    keep := seq(n, _ => true);
    keep := keep[x := false];
    forall y | 0 <= y < n ensures keep[y] == AllBut(n, x)[y] {
      assert Keeps(AllBut(n, x), y) <==> y != x;
    }
  }

  method LastEventId(graph: ExplorationGraph, t: ThreadId) returns (last: Option<nat>)
    requires graph.Valid()
    ensures last == LastEvent(graph.graph, t)
  {
    hide FlagsFor, ClocksFor, CountsFor, LogFor, Tidy, ThreadIds;
    if t >= |graph.tables.states| {
      NoList(graph.graph, graph.tables.lists, t, |graph.graph.events|);
      return None;
    }
    last := graph.tables.states[t].last;
  }

  /** The first blocked thread whose receive can now be served, with the graph that lacks its Block event. */
  method FindReschedule(p: Program, graph: ExplorationGraph)
    returns (outcome: Rescheduling, child: Option<ExplorationGraph>)
    requires graph.Valid() && forall x :: x in graph.graph.rf ==> x < |graph.graph.events|
    ensures outcome == Reschedule(p, graph.graph) && (child.Some? <==> outcome.Ready?)
    ensures child.Some? ==>
              fresh(child.value) && child.value.Valid() && child.value.JournalOf() == Journals.Fresh(outcome.graph)
  {
    hide ScansFor, Tidy, FlagsFor, ClocksFor, CompatibleSends, Trace, Steps, Restrict, LastEvent;
    var g := graph.graph;
    child := None;
    var buffer := [];
    var t := p.first;
    while t < p.first + p.count
      invariant p.first <= t <= p.first + p.count
      invariant RescheduleFrom(p, g, t) == RescheduleFrom(p, g, p.first)
    {
      var last := LastEventId(graph, t);
      if last.Some? { LastIsInside(g, t); }
      if last.Some? && g.events[last.value].op.Block? {
        buffer := graph.ThreadTraceInto(t, buffer);
        var count := graph.ThreadEventCount(t);
        var answer := p.next(t, buffer, count - 1);
        if answer.None? || !answer.value.Receive? || !answer.value.blocking {
          return Violation(t), None;
        }
        var ready := HasCompatibleUnreadSend(graph, t, answer.value);
        if ready {
          var keep := KeepAllBut(|g.events|, last.value);
          child := graph.RestrictFromKeepMask(keep);
          outcome := Ready(child.value.graph);
          return;
        }
      }
      t := t + 1;
    }
    outcome := NoneReady;
  }

  method FindBelow(a: array<Value>, kept: nat, v: Value) returns (found: bool)
    requires kept <= a.Length
    ensures found <==> v in a[..kept]
  {
    var k := 0;
    while k < kept
      invariant 0 <= k <= kept && v !in a[..k]
    {
      if a[k] == v {
        return true;
      }
      k := k + 1;
    }
    found := false;
  }

  lemma DistinctNext(given: seq<Value>, i: nat)
    requires i < |given|
    ensures var kept := Distinct(given[..i]);
            Distinct(given[..i + 1]) == if given[i] in kept then kept else kept + [given[i]]
  {
    assert given[..i + 1][..i] == given[..i];
  }

  lemma NothingDistinct(given: seq<Value>)
    ensures Distinct(given[..0]) == []
  {
  }

  /** Drops repeated values in place, keeping first occurrences in order; returns how many are left. */
  method EraseDuplicateChoices(a: array<Value>) returns (kept: nat)
    modifies a
    ensures kept <= a.Length && a[..kept] == Distinct(old(a[..]))
  {
    hide Distinct;
    kept := 0;
    ghost var given := a[..];
    NothingDistinct(given);
    var i := 0;
    while i < a.Length
      invariant 0 <= kept <= i <= a.Length
      invariant a[..kept] == Distinct(given[..i])
      invariant forall k :: i <= k < a.Length ==> a[k] == given[k]
    {
      DistinctNext(given, i);
      var repeated := FindBelow(a, kept, a[i]);
      if !repeated {
        if kept != i {
          a[kept] := a[i];
        }
        assert a[..kept + 1] == Distinct(given[..i]) + [given[i]];
        kept := kept + 1;
      }
      i := i + 1;
    }
    assert given[..a.Length] == given;
  }
}
