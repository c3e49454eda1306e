/** The two tiebreaker searches: on a mask, and on the rebuilt graph with the full consistency check. */
module TiebreakerSearch {
  import opened Optional
  import opened Events
  import opened Reachability
  import opened Consistency
  import opened Subgraphs
  import opened Revisits
  import opened Tiebreakers
  import opened MaskedContexts
  import opened MaskedTiebreaker
  import opened GraphCaches
  import opened ExplorationGraphs
  import opened Validation
  import opened Checkers
  import Journals

  // ----- ordering the candidates -----

  ghost predicate Ordered(g: Graph, ids: seq<nat>)
  {
    forall i, j :: 0 <= i < j < |ids| ==> !Before(g, ids[j], ids[i])
  }

  method Insert(g: Graph, sorted: seq<nat>, x: nat) returns (r: seq<nat>)
    requires Ordered(g, sorted) && x < |g.events| && forall i :: 0 <= i < |sorted| ==> sorted[i] < |g.events|
    ensures Ordered(g, r) && multiset(r) == multiset(sorted) + multiset{x}
  {
    var k := 0;
    while k < |sorted| && Before(g, sorted[k], x)
      invariant 0 <= k <= |sorted|
      invariant forall i :: 0 <= i < k ==> Before(g, sorted[i], x)
    {
      k := k + 1;
    }
    r := sorted[..k] + [x] + sorted[k..];
    assert sorted == sorted[..k] + sorted[k..];
    InsertedOrder(g, sorted, x, k);
  }

  lemma InsertedOrder(g: Graph, sorted: seq<nat>, x: nat, k: nat)
    requires Ordered(g, sorted) && x < |g.events| && k <= |sorted|
             && forall i :: 0 <= i < |sorted| ==> sorted[i] < |g.events|
    requires forall i :: 0 <= i < k ==> Before(g, sorted[i], x)
    requires k < |sorted| ==> !Before(g, sorted[k], x)
    ensures Ordered(g, sorted[..k] + [x] + sorted[k..])
  {
    var r := sorted[..k] + [x] + sorted[k..];
    forall i, j | 0 <= i < j < |r| ensures !Before(g, r[j], r[i]) {
      var a, b := if i < k then i else i - 1, if j < k then j else j - 1;
      if i < k {
        if j > k { assert r[j] == sorted[b] && r[i] == sorted[a]; }
      } else if i == k {
        assert r[j] == sorted[b];
        if b > k { assert !Before(g, sorted[b], sorted[k]); }
      } else {
        assert r[j] == sorted[b] && r[i] == sorted[a];
      }
    }
  }

  /** Ascending by sender thread, then by id. */
  ghost predicate BySender(g: Graph, sorted: seq<nat>)
  {
    && (forall i :: 0 <= i < |sorted| ==> sorted[i] < |g.events|)
    && (forall i, j :: 0 <= i < j < |sorted| ==>
          || g.events[sorted[i]].thread < g.events[sorted[j]].thread
          || (g.events[sorted[i]].thread == g.events[sorted[j]].thread && sorted[i] <= sorted[j]))
  }

  lemma OrderedBySender(g: Graph, sorted: seq<nat>, ids: seq<nat>)
    requires Ordered(g, sorted) && multiset(sorted) == multiset(ids)
    requires forall i :: 0 <= i < |ids| ==> ids[i] < |g.events|
    ensures BySender(g, sorted)
  {
    forall i | 0 <= i < |sorted| ensures sorted[i] < |g.events| { SameMembers(sorted, ids, sorted[i]); }
    forall i, j | 0 <= i < j < |sorted|
      ensures || g.events[sorted[i]].thread < g.events[sorted[j]].thread
              || (g.events[sorted[i]].thread == g.events[sorted[j]].thread && sorted[i] <= sorted[j])
    {
      assert !Before(g, sorted[j], sorted[i]);
    }
  }

  method SortCandidates(g: Graph, ids: seq<nat>) returns (sorted: seq<nat>)
    requires forall i :: 0 <= i < |ids| ==> ids[i] < |g.events|
    ensures Ordered(g, sorted) && multiset(sorted) == multiset(ids)
    ensures BySender(g, sorted)
  {
    hide Before, BySender;
    sorted := [];
    var k := 0;
    while k < |ids|
      invariant 0 <= k <= |ids| && Ordered(g, sorted) && multiset(sorted) == multiset(ids[..k])
    {
      assert ids[..k + 1] == ids[..k] + [ids[k]];
      forall i | 0 <= i < |sorted| ensures sorted[i] < |g.events| {
        assert sorted[i] in multiset(sorted);
        assert sorted[i] in ids[..k];
      }
      sorted := Insert(g, sorted, ids[k]);
      k := k + 1;
    }
    assert ids[..|ids|] == ids;
    OrderedBySender(g, sorted, ids);
  }

  lemma SameMembers(a: seq<nat>, b: seq<nat>, x: nat)
    requires multiset(a) == multiset(b)
    ensures x in a <==> x in b
  {
    assert x in a <==> x in multiset(a);
    assert x in b <==> x in multiset(b);
  }

  // ----- on a mask -----

  /** What the search demands of its receive before it looks for a source. */
  predicate Searchable(g: Graph, keep: Mask, recv: nat)
  {
    && |keep| == |g.events| && Keeps(keep, recv)
    && IsReceive(g, recv) && g.events[recv].op.blocking
    && recv in g.rf && g.rf[recv].From? && Keeps(keep, g.rf[recv].send)
  }

  predicate Fits(g: Graph, recv: nat, s: nat)
  {
    IsReceive(g, recv) && IsSend(g, s) && g.events[s].op.destination == g.events[recv].thread && Accepts(g, recv, s)
  }

  method MaskedCandidates(context: MaskedContext, recv: nat) returns (ids: seq<nat>)
    requires context.Valid() && Searchable(context.graph, context.keep, recv)
    ensures forall c: nat :: c in ids <==> Candidate(context.graph, context.keep, recv, c)
  {
    hide KeptLists, ConsumersFor, ChannelsFor;
    var g, keep := context.graph, context.keep;
    ids := [];
    var s := 0;
    while s < |g.events|
      invariant 0 <= s <= |g.events|
      invariant forall c: nat :: c in ids <==> c < s && Fits(g, recv, c) && MaskedUnread(g, keep, c)
    {
      NoReaders(g, keep, context.view.readers, s);
      if keep[s] && context.view.readers[s] == [] && Fits(g, recv, s) {
        ids := ids + [s];
      }
      s := s + 1;
    }
    var current := g.rf[recv].send;
    if Fits(g, recv, current) {
      ids := ids + [current];
    }
  }

  lemma NoReaders(g: Graph, keep: Mask, readers: seq<seq<nat>>, s: nat)
    requires |keep| == |g.events| && ReadersFor(g, keep, Span(g.rf), readers) && s < |g.events|
    ensures |readers| == |g.events|
    ensures IsSend(g, s) && Keeps(keep, s) ==> (readers[s] == [] <==> MaskedUnread(g, keep, s))
  {
    if IsSend(g, s) && Keeps(keep, s) {
      if readers[s] != [] {
        assert readers[s][0] in readers[s];
        assert KeptRead(g, keep, readers[s][0], s);
      } else {
        forall r | r in g.rf && Keeps(keep, r) ensures g.rf[r] != From(s) {
          ReaderBelow(g, r);
          assert r in readers[s] <==> KeptRead(g, keep, r, s);
        }
      }
    }
  }

  /** `found` is among the sends, and every other one is of a later sender thread, or of the same and inserted later. */
  ghost predicate LeastSender(g: Graph, sends: iset<nat>, found: nat)
  {
    && found in sends && (forall c :: c in sends ==> c < |g.events|)
    && (forall c :: c in sends && c != found ==>
          || g.events[found].thread < g.events[c].thread
          || (g.events[found].thread == g.events[c].thread && found < c))
  }

  lemma TiebreakerIsLeast(g: Graph, keep: Mask, recv: nat, m: CommunicationModel, s: nat)
    requires IsTiebreaker(g, keep, recv, m, s)
    ensures LeastSender(g, (iset c: nat | Acceptable(g, keep, recv, m, c)), s)
  {
    hide Reach, MaskedClauses;
  }

  lemma EligibleIsLeast(h: Graph, i: nat, m: CommunicationModel, tolerant: bool, s: nat)
    requires IsFirstEligible(h, i, m, tolerant, s)
    ensures LeastSender(h, (iset c: nat | Eligible(h, i, m, tolerant, c)), s)
  {
    hide Passes;
  }

  /** The first acceptable candidate in the order is the tiebreaker. */
  lemma FirstIsTiebreaker(g: Graph, keep: Mask, recv: nat, m: CommunicationModel, sorted: seq<nat>, k: nat)
    requires k < |sorted| && Ordered(g, sorted) && Acceptable(g, keep, recv, m, sorted[k])
    requires forall c: nat :: c in sorted <==> Candidate(g, keep, recv, c)
    requires forall i :: 0 <= i < k ==> !Acceptable(g, keep, recv, m, sorted[i])
    ensures IsTiebreaker(g, keep, recv, m, sorted[k])
  {
    forall c: nat | Acceptable(g, keep, recv, m, c) && c != sorted[k] ensures Before(g, sorted[k], c) {
      assert Candidate(g, keep, recv, c);
      var i :| 0 <= i < |sorted| && sorted[i] == c;
      assert !Before(g, sorted[i], sorted[k]);
    }
  }

  method MaskedVerdict(context: MaskedContext, recv: nat, m: CommunicationModel, reachable: seq<bool>, c: nat)
    returns (ok: bool)
    requires context.Valid() && WellFormed(context.graph) && context.fifo == m.FifoP2P?
    requires Searchable(context.graph, context.keep, recv)
    requires Candidate(context.graph, context.keep, recv, c) && |reachable| == |context.graph.events|
    requires forall x: nat :: Marked(reachable, x) <==> Reach(MaskedEdges(context.graph, context.keep), recv, x)
    modifies context`consumers
    ensures context.Valid() && context.consumers == old(context.consumers)
    ensures ok <==> Acceptable(context.graph, context.keep, recv, m, c)
  {
    hide WellFormed, Shows, ConsumersFor, ChannelsFor, Reach, MaskedSkips, MaskedOvertakes;
    if reachable[c] {
      assert Marked(reachable, c);
      return false;
    }
    assert !Marked(reachable, c);
    ok := true;
    if m.FifoP2P? {
      var violated := context.FifoRewriteViolates(recv, c, context.graph.rf[recv].send);
      ok := !violated;
    }
  }

  /** The tiebreaker on the kept events, or nothing when the receive is unfit or no source is acceptable. */
  method GetConsTiebreakerMasked(context: MaskedContext, g: Graph, keep: Mask, recv: nat, m: CommunicationModel)
    returns (r: Option<nat>)
    requires WellFormed(g)
    modifies context
    ensures r.Some? <==> Searchable(g, keep, recv) && exists c: nat :: Acceptable(g, keep, recv, m, c)
    ensures r.Some? ==> IsTiebreaker(g, keep, recv, m, r.value)
    ensures r.Some? ==> LeastSender(g, (iset c: nat | Acceptable(g, keep, recv, m, c)), r.value)
  {
    hide WellFormed, Shows, ConsumersFor, ChannelsFor, Reach, Candidate, MaskedClauses, Before, Ordered, BySender,
         LeastSender;
    var ok := context.Reset(g, keep, m.FifoP2P?);
    if !ok || !Searchable(g, keep, recv) {
      return None;
    }
    var ids := MaskedCandidates(context, recv);
    forall i | 0 <= i < |ids| ensures ids[i] < |g.events| { CandidateExists(g, keep, recv, ids, i); }
    var sorted := SortCandidates(g, ids);
    forall c: nat ensures c in sorted <==> Candidate(g, keep, recv, c) { SameMembers(sorted, ids, c); }
    var reachable := context.ReachableFrom(recv);
    var k := 0;
    while k < |sorted|
      invariant 0 <= k <= |sorted| && context.Valid() && context.graph == g && context.keep == keep
                && context.fifo == m.FifoP2P?
      invariant forall i :: 0 <= i < k ==> !Acceptable(g, keep, recv, m, sorted[i])
    {
      assert sorted[k] in sorted;
      var good := MaskedVerdict(context, recv, m, reachable.value, sorted[k]);
      if good {
        FirstIsTiebreaker(g, keep, recv, m, sorted, k);
        TiebreakerIsLeast(g, keep, recv, m, sorted[k]);
        return Some(sorted[k]);
      }
      k := k + 1;
    }
    r := None;
  }

  lemma CandidateExists(g: Graph, keep: Mask, recv: nat, ids: seq<nat>, i: nat)
    requires i < |ids| && forall c: nat :: c in ids <==> Candidate(g, keep, recv, c)
    ensures ids[i] < |g.events|
  {
    assert ids[i] in ids;
  }

  // ----- on a graph of its own -----

  predicate RefSearchable(h: Graph, i: nat)
  {
    IsReceive(h, i) && h.events[i].op.blocking && i in h.rf && h.rf[i].From?
  }

  method RefCandidates(graph: ExplorationGraph, i: nat) returns (ids: seq<nat>)
    requires graph.Valid() && RefSearchable(graph.graph, i)
    ensures forall c: nat :: c in ids <==> RefCandidate(graph.graph, i, c)
  {
    hide ScansFor, Tidy, FlagsFor, ClocksFor, Unread;
    var h := graph.graph;
    ids := graph.CompatibleUnreadSends(h.events[i].thread, h.events[i].op);
    var current := h.rf[i].send;
    if Fits(h, i, current) {
      ids := ids + [current];
    }
    forall c: nat ensures c in ids <==> RefCandidate(h, i, c) { CompatibleFits(h, i, c); }
  }

  lemma CompatibleFits(h: Graph, i: nat, c: nat)
    requires IsReceive(h, i)
    ensures CompatibleUnread(h, h.events[i].thread, h.events[i].op, c) <==> Fits(h, i, c) && Unread(h, c)
    ensures Unread(h, c) ==> c < |h.events|
  {
  }

  lemma RewritingKeepsCausal(h: Graph, i: nat, c: nat)
    requires Causal(h) && IsReceive(h, i) && IsSend(h, c) && !Porf(h, i, c)
    ensures Causal(SetSource(h, i, From(c)))
  {
    var k := SetSource(h, i, From(c));
    assert Rewires(PorfEdges(h), PorfEdges(k), c, i);
    RewiringCycle(PorfEdges(h), PorfEdges(k), c, i);
  }

  lemma SetSourceTwice(h: Graph, i: nat, a: Source, b: Source)
    ensures SetSource(SetSource(h, i, a), i, b) == SetSource(h, i, b)
  {
    assert h.rf[i := a][i := b] == h.rf[i := b];
  }

  /** The rewritten graph: copied for the first candidate, rebound in place for the others. */
  method Rewrite(graph: ExplorationGraph, scratch: Option<ExplorationGraph>, i: nat, c: nat, preserve: bool)
    returns (rewritten: ExplorationGraph)
    requires graph.Valid() && c < |graph.graph.events| && (preserve ==> Causal(SetSource(graph.graph, i, From(c))))
    requires scratch.Some? ==> scratch.value != graph && scratch.value.Valid()
    requires scratch.Some? ==> exists a :: scratch.value.JournalOf() == Journals.Fresh(SetSource(graph.graph, i, a))
    modifies if scratch.Some? then {scratch.value} else {}
    ensures rewritten.Valid() && rewritten.JournalOf() == Journals.Fresh(SetSource(graph.graph, i, From(c)))
    ensures if scratch.Some? then rewritten == scratch.value else fresh(rewritten)
  {
    hide ScansFor, Tidy, FlagsFor, ClocksFor, Causal;
    if scratch.Some? {
      rewritten := scratch.value;
      ghost var a :| rewritten.JournalOf() == Journals.Fresh(SetSource(graph.graph, i, a));
      SetSourceTwice(graph.graph, i, a, From(c));
      var _ := rewritten.RebindRf(i, c, preserve);
    } else {
      rewritten := graph.CopyWithSource(i, From(c), preserve);
    }
  }

  // ----- the verdict on a candidate -----

  /** The test of the search: the full check, forgiving missing sources of other receives when it is told to; a strict
      search under Async builds no rewritten graph and looks for a cycle only. */
  ghost predicate Passes(h: Graph, i: nat, m: CommunicationModel, tolerant: bool, c: nat)
  {
    if tolerant then ConsistentAround(SetSource(h, i, From(c)), m, i)
    else if m.Async? then !Porf(h, i, c)
    else Consistent(SetSource(h, i, From(c)), m)
  }

  ghost predicate Eligible(h: Graph, i: nat, m: CommunicationModel, tolerant: bool, c: nat)
  {
    RefCandidate(h, i, c) && Passes(h, i, m, tolerant, c)
  }

  ghost predicate IsFirstEligible(h: Graph, i: nat, m: CommunicationModel, tolerant: bool, s: nat)
  {
    && Eligible(h, i, m, tolerant, s)
    && forall c: nat :: Eligible(h, i, m, tolerant, c) && c != s ==> Before(h, s, c)
  }

  /** The tolerant search is the reference tiebreaker. */
  lemma TolerantIsReference(h: Graph, i: nat, m: CommunicationModel, c: nat)
    ensures Eligible(h, i, m, true, c) <==> RefAcceptable(h, i, m, c)
    ensures IsFirstEligible(h, i, m, true, c) <==> IsRefTiebreaker(h, i, m, c)
  {
    hide RefCandidate, ConsistentAround, Before;
    forall s: nat ensures Eligible(h, i, m, true, s) <==> RefAcceptable(h, i, m, s) {}
  }

  /** Looking for a cycle alone decides Async consistency exactly when no other receive lacks a source. */
  lemma CycleTestIsFullCheck(h: Graph, i: nat, c: nat)
    requires WellFormed(h) && CausallyAcyclic(h) && RefCandidate(h, i, c)
    ensures Consistent(SetSource(h, i, From(c)), Async) <==>
            !Porf(h, i, c) && forall r :: 0 <= r < |h.events| && IsReceive(h, r) && r != i ==> r in h.rf
  {
    hide WellFormed, RefCandidate;
    var k := SetSource(h, i, From(c));
    RewrittenIsWellFormed(h, i, c);
    RefCandidateKinds(h, i, c);
    assert Rewires(PorfEdges(h), PorfEdges(k), c, i);
    RewiringCycle(PorfEdges(h), PorfEdges(k), c, i);
    forall r | 0 <= r < |h.events| ensures IsReceive(k, r) == IsReceive(h, r) && (r in k.rf <==> r == i || r in h.rf) {}
  }

  lemma FirstIsFirst(h: Graph, i: nat, m: CommunicationModel, tolerant: bool, sorted: seq<nat>, k: nat)
    requires k < |sorted| && Ordered(h, sorted) && Eligible(h, i, m, tolerant, sorted[k])
    requires forall c: nat :: c in sorted <==> RefCandidate(h, i, c)
    requires forall j :: 0 <= j < k ==> !Eligible(h, i, m, tolerant, sorted[j])
    ensures IsFirstEligible(h, i, m, tolerant, sorted[k])
  {
    hide Passes;
    forall c: nat | Eligible(h, i, m, tolerant, c) && c != sorted[k] ensures Before(h, sorted[k], c) {
      assert RefCandidate(h, i, c);
      var j :| 0 <= j < |sorted| && sorted[j] == c;
      assert !Before(h, sorted[j], sorted[k]);
    }
  }

  /** May the flag be kept for this candidate? Judged on the graph the search started from. */
  method PreservesAcyclicity(graph: ExplorationGraph, i: nat, c: nat) returns (preserve: bool)
    requires graph.Valid() && ValidEndpoints(graph.graph) && CausallyAcyclic(graph.graph)
    requires IsReceive(graph.graph, i) && IsSend(graph.graph, c)
    modifies graph`cache
    ensures graph.Valid() && (preserve ==> Causal(SetSource(graph.graph, i, From(c))))
  {
    hide ScansFor, Tidy, FlagsFor, ClocksFor, ValidEndpoints, CausallyAcyclic, Porf, Causal;
    preserve := false;
    if graph.knownAcyclic {
      var reaches := graph.PorfContains(i, c);
      preserve := !reaches.value;
      if preserve {
        graph.KnownMeansCausal();
        RewritingKeepsCausal(graph.graph, i, c);
      }
    }
  }

  /** The graph the candidates are tried on, if it was built already. */
  ghost predicate ScratchOk(graph: ExplorationGraph, h: Graph, scratch: Option<ExplorationGraph>, i: nat)
    reads if scratch.Some? then {scratch.value} else {}
  {
    scratch.Some? ==>
      && scratch.value != graph && scratch.value.Valid()
      && exists a :: scratch.value.JournalOf() == Journals.Fresh(SetSource(h, i, a))
  }

  /** Rewrites the scratch graph for the candidate and checks it. */
  method FullCheckVerdict(graph: ExplorationGraph, scratch: Option<ExplorationGraph>, i: nat, m: CommunicationModel,
                          tolerant: bool, c: nat)
    returns (ok: bool, rewritten: ExplorationGraph)
    requires graph.Valid() && ValidEndpoints(graph.graph) && CausallyAcyclic(graph.graph)
             && RefCandidate(graph.graph, i, c)
    requires ScratchOk(graph, graph.graph, scratch, i)
    modifies graph`cache, if scratch.Some? then {scratch.value} else {}
    ensures graph.Valid() && ScratchOk(graph, graph.graph, Some(rewritten), i)
    ensures if scratch.Some? then rewritten == scratch.value else fresh(rewritten)
    ensures ok <==> if tolerant then ConsistentAround(SetSource(graph.graph, i, From(c)), m, i)
                    else Consistent(SetSource(graph.graph, i, From(c)), m)
  {
    hide ScansFor, Tidy, FlagsFor, ClocksFor, CausallyAcyclic, RefCandidate, ConsistentAround, Consistent, Issues,
         Causal, ValidEndpoints;
    RefCandidateKinds(graph.graph, i, c);
    var preserve := PreservesAcyclicity(graph, i, c);
    rewritten := Rewrite(graph, scratch, i, c, preserve);
    ghost var h := SetSource(graph.graph, i, From(c));
    var issues;
    if tolerant {
      issues := CheckExplorationGraph(rewritten, m, (x: nat) => x != i);
      OthersTolerated(h, m, i);
    } else {
      issues := CheckExplorationGraph(rewritten, m, (x: nat) => false);
      NothingTolerated(h, m);
    }
    ok := issues == [];
    assert rewritten.JournalOf() == Journals.Fresh(SetSource(graph.graph, i, From(c)));
  }

  /** The first candidate, by sender and id, that passes. */
  method GetConsTiebreaker(graph: ExplorationGraph, i: nat, m: CommunicationModel, tolerant: bool)
    returns (r: Option<nat>)
    requires graph.Valid() && WellFormed(graph.graph) && CausallyAcyclic(graph.graph)
    modifies graph`cache
    ensures graph.Valid()
    ensures r.Some? <==> RefSearchable(graph.graph, i) && exists c: nat :: Eligible(graph.graph, i, m, tolerant, c)
    ensures r.Some? ==> IsFirstEligible(graph.graph, i, m, tolerant, r.value)
    ensures r.Some? ==> LeastSender(graph.graph, (iset c: nat | Eligible(graph.graph, i, m, tolerant, c)), r.value)
  {
    hide ScansFor, Tidy, FlagsFor, ClocksFor, WellFormed, CausallyAcyclic, RefCandidate, ConsistentAround, Consistent,
         Before, Ordered, Causal, ValidEndpoints, ScratchOk, IsFirstEligible, Porf, BySender, LeastSender;
    var h := graph.graph;
    WellFormedEndpoints(h);
    if !RefSearchable(h, i) {
      return None;
    }
    var ids := RefCandidates(graph, i);
    forall k | 0 <= k < |ids| ensures ids[k] < |h.events| { RefCandidateExists(h, i, ids, k); }
    var sorted := SortCandidates(h, ids);
    forall c: nat ensures c in sorted <==> RefCandidate(h, i, c) { SameMembers(sorted, ids, c); }
    var scratch: Option<ExplorationGraph> := None;
    NoScratch(graph, i);
    var k := 0;
    while k < |sorted|
      invariant 0 <= k <= |sorted| && graph.Valid() && graph.graph == h
      invariant forall j :: 0 <= j < k ==> !Eligible(h, i, m, tolerant, sorted[j])
      invariant ScratchOk(graph, h, scratch, i) && (scratch.Some? ==> fresh(scratch.value))
    {
      var c := sorted[k];
      assert c in sorted;
      var ok: bool;
      if m.Async? && !tolerant {
        RefCandidateKinds(h, i, c);
        var reaches := graph.PorfContains(i, c);
        ok := !reaches.value;
      } else {
        var rewritten;
        ok, rewritten := FullCheckVerdict(graph, scratch, i, m, tolerant, c);
        scratch := Some(rewritten);
      }
      if ok {
        FirstIsFirst(h, i, m, tolerant, sorted, k);
        EligibleIsLeast(h, i, m, tolerant, c);
        return Some(c);
      }
      k := k + 1;
    }
    r := None;
  }

  lemma NoScratch(graph: ExplorationGraph, i: nat)
    ensures ScratchOk(graph, graph.graph, None, i)
  {
  }

  lemma RefCandidateKinds(h: Graph, i: nat, c: nat)
    requires RefCandidate(h, i, c)
    ensures IsReceive(h, i) && IsSend(h, c)
  {
  }

  lemma RefCandidateExists(h: Graph, i: nat, ids: seq<nat>, k: nat)
    requires k < |ids| && forall c: nat :: c in ids <==> RefCandidate(h, i, c)
    ensures ids[k] < |h.events|
  {
    assert ids[k] in ids;
  }

  // ----- the reference search through restriction -----

  lemma RestrictedSearchable(g: Graph, keep: Mask, recv: nat)
    requires |keep| == |g.events| && Keeps(keep, recv)
    ensures RefSearchable(Restrict(g, keep), IndexOf(KeptIds(keep), recv)) <==> Searchable(g, keep, recv)
  {
    var f, h := KeptIds(keep), Restrict(g, keep);
    RestrictIsSubgraph(g, keep);
    var i := IndexOf(f, recv);
    assert SameEvent(h.events[i], g.events[f[i]]) && SourceCopied(h, g, f, i);
  }

  lemma RestrictedIsGood(g: Graph, keep: Mask)
    requires WellFormed(g) && CausallyAcyclic(g) && |keep| == |g.events|
    ensures WellFormed(Restrict(g, keep)) && CausallyAcyclic(Restrict(g, keep))
  {
    RestrictIsSubgraph(g, keep);
    SubgraphWellFormed(Restrict(g, keep), g, KeptIds(keep));
    SubgraphAcyclic(Restrict(g, keep), g, KeptIds(keep));
  }

  /** Rebuild the kept graph, search there and translate the answer back. */
  method GetConsTiebreakerViaRestriction(graph: ExplorationGraph, keep: Mask, recv: nat, m: CommunicationModel)
    returns (r: Option<nat>)
    requires graph.Valid() && WellFormed(graph.graph) && CausallyAcyclic(graph.graph)
    ensures r.Some? <==>
              Searchable(graph.graph, keep, recv) && exists c: nat :: Acceptable(graph.graph, keep, recv, m, c)
    ensures r.Some? ==> IsTiebreaker(graph.graph, keep, recv, m, r.value)
    ensures r.Some? ==> LeastSender(graph.graph, (iset c: nat | Acceptable(graph.graph, keep, recv, m, c)), r.value)
  {
    hide ScansFor, Tidy, FlagsFor, ClocksFor, WellFormed, CausallyAcyclic, Restrict, KeptIds, Renumbers, Acceptable,
         RefAcceptable, IsTiebreaker, IsRefTiebreaker, Eligible, IsFirstEligible, LeastSender;
    var g := graph.graph;
    NoReadBeyond(g);
    var restricted := graph.RestrictFromKeepMask(keep);
    if restricted.None? {
      return None;
    }
    if !Keeps(keep, recv) {
      return None;
    }
    var kept, idMap := ExplorationGraph.MapKept(keep);
    PlaceOf(keep, kept, idMap, recv);
    RestrictedSearchable(g, keep, recv);
    RestrictedIsGood(g, keep);
    var i := idMap[recv].value;
    var found := GetConsTiebreaker(restricted.value, i, m, true);
    NoneInBoth(g, keep, recv, m);
    forall c: nat ensures Eligible(Restrict(g, keep), i, m, true, c) <==> RefAcceptable(Restrict(g, keep), i, m, c) {
      TolerantIsReference(Restrict(g, keep), i, m, c);
    }
    if found.None? {
      return None;
    }
    TolerantIsReference(Restrict(g, keep), i, m, found.value);
    RefTiebreakerIsKept(g, keep, i, m, found.value);
    KeptAt(keep, found.value);
    TiebreakersAgree(g, keep, recv, m, kept[found.value]);
    TiebreakerIsLeast(g, keep, recv, m, kept[found.value]);
    r := Some(kept[found.value]);
  }

  lemma PlaceOf(keep: Mask, kept: seq<nat>, idMap: seq<Option<nat>>, x: nat)
    requires kept == KeptIds(keep) && Renumbers(keep, kept, idMap) && Keeps(keep, x)
    ensures x < |idMap| && idMap[x].Some? && x in kept && idMap[x].value == IndexOf(kept, x)
  {
    var i, j := idMap[x].value, IndexOf(kept, x);
    assert Ascending(kept) && kept[i] == kept[j];
  }

  lemma RefTiebreakerIsKept(g: Graph, keep: Mask, i: nat, m: CommunicationModel, c: nat)
    requires |keep| == |g.events| && IsRefTiebreaker(Restrict(g, keep), i, m, c)
    ensures c < |KeptIds(keep)|
  {
    RefAcceptableIsKept(g, keep, i, m, c);
  }

  lemma TiebreakerIsUnique(g: Graph, keep: Mask, recv: nat, m: CommunicationModel, a: nat, b: nat)
    requires IsTiebreaker(g, keep, recv, m, a) && IsTiebreaker(g, keep, recv, m, b)
    ensures a == b
  {
  }

  /** The build that cross-checks the fast search against the reference never sees them disagree. */
  method CrossCheck(context: MaskedContext, graph: ExplorationGraph, keep: Mask, recv: nat, m: CommunicationModel)
    returns (agree: bool)
    requires graph.Valid() && WellFormed(graph.graph) && CausallyAcyclic(graph.graph)
    modifies context
    ensures agree
  {
    hide ScansFor, Tidy, FlagsFor, ClocksFor, WellFormed, CausallyAcyclic, Acceptable;
    var fast := GetConsTiebreakerMasked(context, graph.graph, keep, recv, m);
    var slow := GetConsTiebreakerViaRestriction(graph, keep, recv, m);
    if fast.Some? && slow.Some? {
      TiebreakerIsUnique(graph.graph, keep, recv, m, fast.value, slow.value);
    }
    agree := fast == slow;
  }
}
