/** The consistency checkers: the reference one, and the one that uses what an exploration graph knows. */
module Checkers {
  import opened Optional
  import opened Events
  import opened Reachability
  import opened Consistency
  import opened GraphCaches
  import opened ExplorationGraphs
  import opened Validation
  import opened FifoChecks

  /** Consistency that forgives a missing source for the tolerated receives. */
  ghost predicate ConsistentExcept(g: Graph, m: CommunicationModel, tolerated: nat -> bool)
  {
    && WellFormed(g)
    && (forall r :: 0 <= r < |g.events| && IsReceive(g, r) ==> r in g.rf || tolerated(r))
    && CausallyAcyclic(g)
    && ModelClauses(g, m)
  }

  lemma NothingTolerated(g: Graph, m: CommunicationModel)
    ensures ConsistentExcept(g, m, _ => false) <==> Consistent(g, m)
  {
  }

  lemma OthersTolerated(g: Graph, m: CommunicationModel, target: nat)
    ensures ConsistentExcept(g, m, (r: nat) => r != target) <==> ConsistentAround(g, m, target)
  {
  }

  // ----- the issues of a graph -----

  ghost function AsyncIssues(g: Graph, tolerated: nat -> bool): seq<Issue>
  {
    ValidationIssues(g, tolerated) + (if Acyclic(CheckedEdges(g)) then [] else [CausalCycle])
  }

  ghost function Issues(g: Graph, m: CommunicationModel, tolerated: nat -> bool): seq<Issue>
  {
    var issues := AsyncIssues(g, tolerated);
    if m.FifoP2P? && issues == [] then FifoIssues(g) else issues
  }

  lemma CleanAsync(g: Graph, tolerated: nat -> bool)
    ensures AsyncIssues(g, tolerated) == [] <==>
            WellFormed(g) && CausallyAcyclic(g)
            && forall r :: 0 <= r < |g.events| && IsReceive(g, r) ==> r in g.rf || tolerated(r)
  {
    hide ValidationIssues, WellFormed, CheckedEdges;
    CleanValidation(g, tolerated);
    if WellFormed(g) {
      WellFormedEndpoints(g);
      CheckedIsCausal(g);
    }
  }

  /** No issue is reported exactly when the graph is consistent. */
  lemma NoIssuesMeansConsistent(g: Graph, m: CommunicationModel, tolerated: nat -> bool)
    ensures Issues(g, m, tolerated) == [] <==> ConsistentExcept(g, m, tolerated)
  {
    hide AsyncIssues, FifoIssues, WellFormed, CausallyAcyclic, FifoClauseB, FifoClauseC;
    CleanAsync(g, tolerated);
    CleanFifo(g);
  }

  /** When a code is reported: a fault of the entries, a cycle of program order and the reads between fitting events,
      or, under FIFO and only when nothing else is wrong, a pair of sends that breaks the clause. */
  ghost predicate Reported(g: Graph, m: CommunicationModel, tolerated: nat -> bool, code: Issue)
  {
    match code
    case CausalCycle => !Acyclic(CheckedEdges(g))
    case FifoP2PUnreadEarlierMatchingSend =>
      && m.FifoP2P? && ConsistentExcept(g, Async, tolerated)
      && exists early: nat, late: nat, r: nat :: SkipsUnread(g, early, late, r)
    case FifoP2PReceiveOrderViolation =>
      && m.FifoP2P? && ConsistentExcept(g, Async, tolerated)
      && exists early: nat, late: nat, r: nat, q: nat :: Overtakes(g, early, late, r, q)
    case _ => Fault(g, tolerated, code)
  }

  lemma FifoCodes(g: Graph, code: Issue)
    ensures code in FifoIssues(g) <==>
            || (code == FifoP2PUnreadEarlierMatchingSend
                && exists early: nat, late: nat, r: nat :: SkipsUnread(g, early, late, r))
            || (code == FifoP2PReceiveOrderViolation
                && exists early: nat, late: nat, r: nat, q: nat :: Overtakes(g, early, late, r, q))
  {
    hide SkipsUnread, Overtakes, Breaks;
    RepeatedCode(IssueOf(UnreadEarlier), |Breakers(g, UnreadEarlier)|, code);
    RepeatedCode(IssueOf(ReceiveOrder), |Breakers(g, ReceiveOrder)|, code);
    NoBreakers(g, UnreadEarlier);
    NoBreakers(g, ReceiveOrder);
    if early: nat, late: nat, r: nat :| SkipsUnread(g, early, late, r) {
      assert BreaksWith(g, UnreadEarlier, early, late);
    }
    if early: nat, late: nat, r: nat, q: nat :| Overtakes(g, early, late, r, q) {
      assert BreaksWith(g, ReceiveOrder, early, late);
    }
  }

  lemma RepeatedCode(issue: Issue, n: nat, code: Issue)
    ensures code in Repeat(issue, n) <==> n > 0 && code == issue
  {
    if n > 0 { assert Repeat(issue, n)[0] == issue; }
  }

  /** The list names exactly the codes that apply. */
  lemma IssueCodes(g: Graph, m: CommunicationModel, tolerated: nat -> bool, code: Issue)
    ensures code in Issues(g, m, tolerated) <==> Reported(g, m, tolerated, code)
  {
    hide ValidationIssues, FifoIssues, Fault, SkipsUnread, Overtakes, ConsistentExcept, CheckedEdges, Acyclic;
    ValidationCodes(g, tolerated, code);
    NotOfTheEntries(g, tolerated, code);
    FifoCodes(g, code);
    NoIssuesMeansConsistent(g, Async, tolerated);
    if AsyncIssues(g, tolerated) == [] {
      ValidationCodes(g, tolerated, code);
    }
  }

  lemma NotOfTheEntries(g: Graph, tolerated: nat -> bool, code: Issue)
    ensures code.CausalCycle? || code.FifoP2PUnreadEarlierMatchingSend? || code.FifoP2PReceiveOrderViolation? ==>
              !Fault(g, tolerated, code)
  {
  }

  // ----- the checkers -----

  method CheckAsyncExecution(g: Graph, tolerated: nat -> bool) returns (issues: seq<Issue>)
    ensures issues == AsyncIssues(g, tolerated)
  {
    hide ValidationIssues, CheckedEdges, Span;
    var found, _, edges := ValidateGraph(g, tolerated);
    var cycle := HasCausalCycle(g, edges);
    issues := found + if cycle then [CausalCycle] else [];
  }

  /** The reference checker. */
  method CheckExecutionGraph(g: Graph, m: CommunicationModel, tolerated: nat -> bool) returns (issues: seq<Issue>)
    ensures issues == Issues(g, m, tolerated)
    ensures issues == [] <==> ConsistentExcept(g, m, tolerated)
    ensures forall code :: code in issues <==> Reported(g, m, tolerated, code)
  {
    hide AsyncIssues, FifoIssues, Reported;
    issues := CheckAsyncExecution(g, tolerated);
    if m.FifoP2P? && issues == [] {
      CleanAsync(g, tolerated);
      issues := CheckFifo(g);
    }
    NoIssuesMeansConsistent(g, m, tolerated);
    forall code ensures code in issues <==> Reported(g, m, tolerated, code) { IssueCodes(g, m, tolerated, code); }
  }

  /** Uses the graph's acyclicity flag or its clocks instead of a fresh search, and sets the flag on success. */
  method CheckAsyncExploration(graph: ExplorationGraph, tolerated: nat -> bool) returns (issues: seq<Issue>)
    requires graph.Kept()
    modifies graph
    ensures graph.Kept() && graph.JournalOf() == old(graph.JournalOf())
    ensures issues == AsyncIssues(graph.graph, tolerated)
    ensures forall code :: code in issues <==> Reported(graph.graph, Async, tolerated, code)
    ensures issues == [] ==> graph.knownAcyclic
  {
    forall code ensures code in AsyncIssues(graph.graph, tolerated) <==> Reported(graph.graph, Async, tolerated, code) {
      IssueCodes(graph.graph, Async, tolerated, code);
    }
    hide ValidationIssues, Reported, Fault, CheckedEdges, Span, ScansFor, Tidy, ClocksFor, ValidEndpoints, Acyclic;
    var g := graph.graph;
    var found, safe, _ := ValidateGraph(g, tolerated);
    if !safe {
      issues := CheckAsyncExecution(g, tolerated);
      CleanAsync(g, tolerated);
      if issues == [] { WellFormedEndpoints(g); }
      return;
    }
    CheckedIsCausal(g);
    issues := found;
    if graph.knownAcyclic {
      graph.KnownMeansCausal();
    } else {
      var cycle: Option<bool>;
      if graph.cache.Some? {
        cycle := graph.HasCausalCycle();
      } else {
        cycle := graph.HasCausalCycleWithoutCache();
      }
      if cycle.value {
        issues := issues + [CausalCycle];
        return;
      }
    }
    assert issues == AsyncIssues(g, tolerated);
    if issues == [] {
      EndpointsAreCausal(g);
      graph.MarkKnownAcyclic();
    }
  }

  lemma EndpointsAreCausal(g: Graph)
    requires ValidEndpoints(g) && CausallyAcyclic(g)
    ensures Causal(g)
  {
  }

  /** The exploration checker reports exactly what the reference checker reports. */
  method CheckExplorationGraph(graph: ExplorationGraph, m: CommunicationModel, tolerated: nat -> bool)
    returns (issues: seq<Issue>)
    requires graph.Kept()
    modifies graph
    ensures graph.Kept() && graph.JournalOf() == old(graph.JournalOf())
    ensures issues == Issues(graph.graph, m, tolerated)
    ensures issues == [] <==> ConsistentExcept(graph.graph, m, tolerated)
    ensures forall code :: code in issues <==> Reported(graph.graph, m, tolerated, code)
  {
    hide AsyncIssues, FifoIssues, ScansFor, Tidy, FlagsFor, ClocksFor, Reported;
    issues := CheckAsyncExploration(graph, tolerated);
    if m.FifoP2P? && issues == [] {
      CleanAsync(graph.graph, tolerated);
      issues := CheckFifo(graph.graph);
    }
    NoIssuesMeansConsistent(graph.graph, m, tolerated);
    forall code ensures code in issues <==> Reported(graph.graph, m, tolerated, code) {
      IssueCodes(graph.graph, m, tolerated, code);
    }
  }
}
