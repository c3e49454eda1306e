/** Revisit conditions and revisit children, computed on an exploration graph. */
module RevisitSearch {
  import opened Optional
  import opened Events
  import opened Consistency
  import opened Subgraphs
  import opened Revisits
  import opened MaskedTiebreaker
  import opened GraphCaches
  import opened ExplorationGraphs
  import opened TiebreakerSearch
  import opened Validation
  import opened Machine
  import opened Invariants
  import Journals

  /** A valid graph object whose graph is consistent. */
  ghost predicate Sane(graph: ExplorationGraph, m: CommunicationModel)
    reads graph
  {
    graph.Valid() && Consistent(graph.graph, m)
  }

  method CausallyBefore(graph: ExplorationGraph, x: nat, s: nat, ghost m: CommunicationModel) returns (r: bool)
    requires Sane(graph, m) && x < |graph.graph.events| && s < |graph.graph.events|
    modifies graph`cache
    ensures Sane(graph, m) && (r <==> Porf(graph.graph, x, s))
  {
    hide ScansFor, Tidy, FlagsFor, ClocksFor, WellFormed, CausallyAcyclic, Porf, ModelClauses, ReadsTotal,
         ValidEndpoints;
    WellFormedEndpoints(graph.graph);
    var answer := graph.PorfContains(x, s);
    r := answer.value;
  }

  method IsPrevious(graph: ExplorationGraph, e: nat, s: nat, x: nat, ghost m: CommunicationModel) returns (r: bool)
    requires Sane(graph, m) && s < |graph.graph.events|
    modifies graph`cache
    ensures Sane(graph, m) && (r <==> InPrevious(graph.graph, e, s, x))
  {
    hide ScansFor, Tidy, FlagsFor, ClocksFor, Consistent, Porf;
    if x >= |graph.graph.events| {
      return false;
    }
    if x <= e {
      return true;
    }
    r := CausallyBefore(graph, x, s, m);
  }

  method PreviousSet(graph: ExplorationGraph, e: nat, s: nat, ghost m: CommunicationModel) returns (keep: Mask)
    requires Sane(graph, m) && s < |graph.graph.events|
    modifies graph`cache
    ensures Sane(graph, m) && keep == PreviousMask(graph.graph, e, s)
  {
    hide ScansFor, Tidy, FlagsFor, ClocksFor, Consistent, InPrevious;
    ghost var g := graph.graph;
    keep := [];
    while |keep| < |graph.graph.events|
      invariant |keep| <= |graph.graph.events| && Sane(graph, m) && graph.graph == g
      invariant forall x: nat :: x < |keep| ==> (keep[x] <==> InPrevious(g, e, s, x))
    {
      var inside := IsPrevious(graph, e, s, |keep|, m);
      keep := keep + [inside];
    }
    SameMask(g, e, s, keep);
  }

  lemma SameMask(g: Graph, e: nat, s: nat, keep: Mask)
    requires |keep| == |g.events| && forall x: nat :: x < |keep| ==> (keep[x] <==> InPrevious(g, e, s, x))
    ensures keep == PreviousMask(g, e, s)
  {
    var mask := PreviousMask(g, e, s);
    forall x | 0 <= x < |keep| ensures keep[x] == mask[x] {
      assert Keeps(mask, x) <==> InPrevious(g, e, s, x);
    }
  }

  /** Does a receive of Previous read `e`? */
  method ReadInPrevious(graph: ExplorationGraph, e: nat, s: nat, ghost m: CommunicationModel) returns (r: bool)
    requires Sane(graph, m) && s < |graph.graph.events|
    modifies graph`cache
    ensures Sane(graph, m)
    ensures r <==>
              exists q: nat :: IsReceive(graph.graph, q) && Reads(graph.graph, q, e) && InPrevious(graph.graph, e, s, q)
  {
    hide ScansFor, Tidy, FlagsFor, ClocksFor, Consistent, InPrevious, Span;
    ghost var g := graph.graph;
    var q := 0;
    while q < Span(graph.graph.rf)
      invariant 0 <= q <= Span(g.rf) && Sane(graph, m) && graph.graph == g
      invariant forall x: nat :: x < q && IsReceive(g, x) && Reads(g, x, e) ==> !InPrevious(g, e, s, x)
    {
      if q in graph.graph.rf && graph.graph.rf[q] == From(e) && IsReceive(graph.graph, q) {
        var inside := IsPrevious(graph, e, s, q, m);
        if inside {
          return true;
        }
      }
      q := q + 1;
    }
    r := false;
  }

  lemma BlockingReads(g: Graph, m: CommunicationModel, e: nat)
    requires Consistent(g, m) && IsReceive(g, e)
    ensures e in g.rf && (g.events[e].op.blocking ==> g.rf[e].From? && g.rf[e].send < |g.events|)
  {
    assert GoodRead(g, e);
  }

  lemma TiebreakerIs(g: Graph, e: nat, s: nat, m: CommunicationModel, found: Option<nat>)
    requires Consistent(g, m) && IsReceive(g, e) && g.events[e].op.blocking && e in g.rf && g.rf[e].From?
    requires InPrevious(g, e, s, g.rf[e].send)
    requires found.Some? <==>
               Searchable(g, PreviousMask(g, e, s), e) && exists c: nat :: Acceptable(g, PreviousMask(g, e, s), e, m, c)
    requires found.Some? ==> IsTiebreaker(g, PreviousMask(g, e, s), e, m, found.value)
    ensures found.Some? && (found.value == g.rf[e].send <==> IsTiebreaker(g, PreviousMask(g, e, s), e, m, g.rf[e].send))
  {
    hide Acceptable, Consistent, InPrevious;
    var keep := PreviousMask(g, e, s);
    EventIsPrevious(g, e, s);
    assert Keeps(keep, e) && Keeps(keep, g.rf[e].send);
    CurrentSourceIsAcceptable(g, e, s, m);
    if IsTiebreaker(g, keep, e, m, g.rf[e].send) {
      TiebreakerIsUnique(g, keep, e, m, found.value, g.rf[e].send);
    }
  }

  lemma EventIsPrevious(g: Graph, e: nat, s: nat)
    requires e < |g.events|
    ensures InPrevious(g, e, s, e)
  {
  }

  /** The four branches of the revisit condition. */
  method MeetsRevisitCondition(context: MaskedContext, graph: ExplorationGraph, e: nat, s: nat, m: CommunicationModel)
    returns (r: bool)
    requires Sane(graph, m) && e < |graph.graph.events| && s < |graph.graph.events|
    modifies graph`cache, context
    ensures Sane(graph, m) && (r <==> RevisitCondition(graph.graph, e, s, m))
  {
    hide ScansFor, Tidy, FlagsFor, ClocksFor, Consistent, InPrevious, IsTiebreaker, Acceptable, Searchable;
    var g := graph.graph;
    match g.events[e].op {
      case Receive(blocking, _) =>
        BlockingReads(g, m, e);
        if !blocking {
          return g.rf[e].Bottom?;
        }
        var source := g.rf[e].send;
        var inside := IsPrevious(graph, e, s, source, m);
        if !inside {
          return false;
        }
        var keep := PreviousSet(graph, e, s, m);
        ConsistentIsWellFormed(g, m);
        var found := GetConsTiebreakerMasked(context, g, keep, e, m);
        TiebreakerIs(g, e, s, m, found);
        r := found.value == source;
      case Choice(chosen, choices) =>
        r := choices == [] || chosen == Least(choices);
      case _ =>
        var read := ReadInPrevious(graph, e, s, m);
        r := !read;
    }
  }

  lemma ConsistentIsWellFormed(g: Graph, m: CommunicationModel)
    requires Consistent(g, m)
    ensures WellFormed(g)
  {
  }

  // ----- the next revisit child -----

  /** Does a revisit of `recv` by `s` drop event `x`? */
  method IsDeleted(graph: ExplorationGraph, recv: nat, s: nat, x: nat, ghost m: CommunicationModel) returns (r: bool)
    requires Sane(graph, m) && x < |graph.graph.events| && s < |graph.graph.events|
    modifies graph`cache
    ensures Sane(graph, m) && (r <==> Deleted(graph.graph, recv, s, x))
  {
    hide ScansFor, Tidy, FlagsFor, ClocksFor, Consistent, Porf;
    if x == s || x <= recv {
      return false;
    }
    var before := CausallyBefore(graph, x, s, m);
    r := !before;
  }

  /** The survivors, unless some dropped event forbids the revisit. */
  method Survivors(context: MaskedContext, graph: ExplorationGraph, recv: nat, s: nat, m: CommunicationModel)
    returns (keep: Option<Mask>)
    requires Sane(graph, m) && recv < |graph.graph.events| && s < |graph.graph.events|
    modifies graph`cache, context
    ensures Sane(graph, m)
    ensures keep.Some? <==> forall x: nat :: Deleted(graph.graph, recv, s, x) ==> RevisitCondition(graph.graph, x, s, m)
    ensures keep.Some? ==> keep.value == SurvivorMask(graph.graph, recv, s)
  {
    hide ScansFor, Tidy, FlagsFor, ClocksFor, Consistent, Deleted, RevisitCondition;
    ghost var g := graph.graph;
    var kept: Mask := [];
    while |kept| < |graph.graph.events|
      invariant |kept| <= |graph.graph.events| && Sane(graph, m) && graph.graph == g
      invariant forall x: nat :: x < |kept| ==> (kept[x] <==> !Deleted(g, recv, s, x))
      invariant forall x: nat :: x < |kept| && Deleted(g, recv, s, x) ==> RevisitCondition(g, x, s, m)
    {
      var dropped := IsDeleted(graph, recv, s, |kept|, m);
      if dropped {
        var fine := MeetsRevisitCondition(context, graph, |kept|, s, m);
        if !fine {
          return None;
        }
      }
      kept := kept + [!dropped];
    }
    DeletedInside(g, recv, s);
    SameSurvivors(g, recv, s, kept);
    keep := Some(kept);
  }

  lemma DeletedInside(g: Graph, recv: nat, s: nat)
    ensures forall x: nat :: Deleted(g, recv, s, x) ==> x < |g.events|
  {
  }

  lemma SameSurvivors(g: Graph, recv: nat, s: nat, keep: Mask)
    requires |keep| == |g.events| && forall x: nat :: x < |keep| ==> (keep[x] <==> !Deleted(g, recv, s, x))
    ensures keep == SurvivorMask(g, recv, s)
  {
    var mask := SurvivorMask(g, recv, s);
    forall x | 0 <= x < |keep| ensures keep[x] == mask[x] {
      assert Keeps(mask, x) <==> !Deleted(g, recv, s, x);
    }
  }

  /** A fresh unread send and receives of the thread it is addressed to. */
  ghost predicate Revisiting(g: Graph, s: nat, receives: seq<nat>)
  {
    s + 1 == |g.events| && Unread(g, s) && Addressed(g, s, receives)
  }

  lemma RevisitingReceive(g: Graph, s: nat, receives: seq<nat>, k: nat, m: CommunicationModel)
    requires Revisiting(g, s, receives) && k < |receives| && Consistent(g, m)
    ensures receives[k] < |g.events| && IsReceive(g, receives[k]) && IsSend(g, s)
    ensures RevisitAllowed(g, receives[k], s, m) ==> FreshRevisit(g, receives[k], s, m)
  {
  }

  lemma SurvivorsHaveBoth(g: Graph, recv: nat, s: nat)
    requires recv < |g.events| && s < |g.events|
    ensures Keeps(SurvivorMask(g, recv, s), recv) && Keeps(SurvivorMask(g, recv, s), s)
  {
  }

  lemma RevisitChildIsCausal(g: Graph, recv: nat, s: nat, m: CommunicationModel)
    requires FreshRevisit(g, recv, s, m)
    ensures Causal(RevisitChild(g, recv, s))
  {
    RevisitChildIsAsyncConsistent(g, recv, s, m);
    var c := RevisitChild(g, recv, s);
    WellFormedEndpoints(c);
  }

  /** The rebound events keep their kinds, so the rebuilt graph keeps its flag. */
  lemma RevisitChildKinds(g: Graph, recv: nat, s: nat, m: CommunicationModel)
    requires FreshRevisit(g, recv, s, m)
    ensures var keep := SurvivorMask(g, recv, s);
            var kept := KeptIds(keep);
            && recv in kept && s in kept
            && IsReceive(Restrict(g, keep), IndexOf(kept, recv)) && IsSend(Restrict(g, keep), IndexOf(kept, s))
  {
    RevisitChildIsCausal(g, recv, s, m);
    SurvivorsHaveBoth(g, recv, s);
    var kept := KeptIds(SurvivorMask(g, recv, s));
    assert RevisitChild(g, recv, s).rf[IndexOf(kept, recv)] == From(IndexOf(kept, s));
  }

  /** The survivors rebuilt as a graph of their own, with the receive rebound. */
  method MaterialiseChild(graph: ExplorationGraph, keep: Mask, recv: nat, s: nat, m: CommunicationModel)
    returns (child: ExplorationGraph)
    requires Sane(graph, m) && FreshRevisit(graph.graph, recv, s, m) && keep == SurvivorMask(graph.graph, recv, s)
    ensures fresh(child) && child.Valid() && child.JournalOf() == Journals.Fresh(RevisitChild(graph.graph, recv, s))
    ensures child.knownAcyclic == graph.knownAcyclic && child.pendingFresh.None?
  {
    hide ScansFor, Tidy, FlagsFor, ClocksFor, Consistent, Causal, Restrict, KeptIds, Renumbers, RevisitAllowed,
         Unread, SurvivorMask;
    ghost var g := graph.graph;
    ConsistentIsWellFormed(g, m);
    NoReadBeyond(g);
    SurvivorsHaveBoth(g, recv, s);
    var restricted := graph.RestrictFromKeepMask(keep);
    child := restricted.value;
    var kept, idMap := ExplorationGraph.MapKept(keep);
    PlaceOf(keep, kept, idMap, recv);
    PlaceOf(keep, kept, idMap, s);
    RevisitChildIsCausal(g, recv, s, m);
    RevisitChildKinds(g, recv, s, m);
    RestrictedSize(g, keep);
    var i, j := idMap[recv].value, idMap[s].value;
    var preserve := child.knownAcyclic && IsReceive(child.graph, i) && IsSend(child.graph, j);
    var _ := child.RebindRf(i, j, preserve);
  }

  /** The next receive from `start` on that `s` may redirect, with the child it yields. */
  method NextBackwardRevisitChild(context: MaskedContext, graph: ExplorationGraph, s: nat, m: CommunicationModel,
                                  receives: seq<nat>, start: nat)
    returns (next: nat, child: Option<ExplorationGraph>)
    requires Sane(graph, m) && Revisiting(graph.graph, s, receives)
    modifies graph`cache, context
    ensures Sane(graph, m)
    ensures s < |graph.graph.events| && forall i :: 0 <= i < |receives| ==> receives[i] < |graph.graph.events|
    ensures child.Some? ==>
              fresh(child.value) && child.value.Valid() && child.value.JournalOf() == Journals.Fresh(child.value.graph)
    ensures child.Some? ==> child.value.knownAcyclic == graph.knownAcyclic
    ensures NextRevisit(graph.graph, s, m, receives, start)
            == (next, if child.Some? then Some(child.value.graph) else None)
  {
    hide ScansFor, Tidy, FlagsFor, ClocksFor, Consistent, RevisitCondition, Deleted, Porf, RevisitChild, FreshRevisit,
         Revisiting, Accepts;
    ghost var g := graph.graph;
    forall i | 0 <= i < |receives| ensures receives[i] < |g.events| { RevisitingReceive(g, s, receives, i, m); }
    RevisitingSend(g, s, receives);
    var k := start;
    while k < |receives|
      invariant start <= k && Sane(graph, m) && graph.graph == g
      invariant NextRevisit(g, s, m, receives, k) == NextRevisit(g, s, m, receives, start)
      decreases |receives| - k
    {
      var recv := receives[k];
      RevisitingReceive(g, s, receives, k, m);
      if Accepts(graph.graph, recv, s) {
        var reaches := CausallyBefore(graph, recv, s, m);
        if !reaches {
          var meets := MeetsRevisitCondition(context, graph, recv, s, m);
          if meets {
            var keep := Survivors(context, graph, recv, s, m);
            if keep.Some? {
              var built := MaterialiseChild(graph, keep.value, recv, s, m);
              return k + 1, Some(built);
            }
          }
        }
      }
      k := k + 1;
    }
    next, child := |receives|, None;
  }

  lemma RevisitingSend(g: Graph, s: nat, receives: seq<nat>)
    requires Revisiting(g, s, receives)
    ensures IsSend(g, s)
  {
  }
}
