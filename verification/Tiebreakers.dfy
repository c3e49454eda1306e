/** The tiebreaker judged on a mask agrees with the one that rebuilds the kept graph and checks it. */
module Tiebreakers {
  import opened Optional
  import opened Events
  import opened Reachability
  import opened Consistency
  import opened Subgraphs
  import opened Revisits

  // ----- the reference: candidates and verdicts on a graph of its own -----

  predicate RefCandidate(h: Graph, i: nat, c: nat)
  {
    && IsReceive(h, i) && IsSend(h, c)
    && h.events[c].op.destination == h.events[i].thread
    && Accepts(h, i, c)
    && (Unread(h, c) || Reads(h, i, c))
  }

  /** Binding `i` to `c` is consistent, receives other than `i` being allowed to lack a source. */
  ghost predicate RefAcceptable(h: Graph, i: nat, m: CommunicationModel, c: nat)
  {
    RefCandidate(h, i, c) && ConsistentAround(SetSource(h, i, From(c)), m, i)
  }

  ghost predicate IsRefTiebreaker(h: Graph, i: nat, m: CommunicationModel, s: nat)
  {
    && RefAcceptable(h, i, m, s)
    && forall c: nat :: RefAcceptable(h, i, m, c) && c != s ==> Before(h, s, c)
  }

  // ----- what restriction copies -----

  lemma {:induction false} IndexOfSelf(f: seq<nat>, k: nat)
    requires k < |f| && forall i, j :: 0 <= i < j < |f| ==> f[i] != f[j]
    ensures f[k] in f && IndexOf(f, f[k]) == k
  {
  }

  lemma CopiedSourceRebound(g: Graph, f: seq<nat>, i: nat, j: nat, x: nat)
    requires i < |f| && j < |f| && x < |f| && forall a, b :: 0 <= a < b < |f| ==> f[a] != f[b]
    ensures CopiedSource(SetSource(g, f[i], From(f[j])), f, x) ==
            if x == i then Some(From(j)) else CopiedSource(g, f, x)
  {
    IndexOfSelf(f, j);
  }

  lemma CopyRebound(g: Graph, f: seq<nat>, i: nat, j: nat)
    requires i < |f| && j < |f| && (forall a, b :: 0 <= a < b < |f| ==> f[a] != f[b])
             && forall x :: 0 <= x < |f| ==> f[x] < |g.events|
    ensures SetSource(Copy(g, f), i, From(j)) == Copy(SetSource(g, f[i], From(f[j])), f)
  {
    hide CopiedSource;
    forall x | 0 <= x < |f|
      ensures CopiedSource(SetSource(g, f[i], From(f[j])), f, x) ==
              if x == i then Some(From(j)) else CopiedSource(g, f, x)
    {
      CopiedSourceRebound(g, f, i, j, x);
    }
    assert SetSource(Copy(g, f), i, From(j)).rf == Copy(SetSource(g, f[i], From(f[j])), f).rf;
  }

  /** Rebinding commutes with restriction. */
  lemma RebindRestricted(g: Graph, keep: Mask, recv: nat, c: nat)
    requires |keep| == |g.events| && Keeps(keep, recv) && Keeps(keep, c)
    ensures var f := KeptIds(keep);
            SetSource(Restrict(g, keep), IndexOf(f, recv), From(IndexOf(f, c)))
                == Restrict(SetSource(g, recv, From(c)), keep)
  {
    hide Copy;
    var f := KeptIds(keep);
    assert Ascending(f);
    CopyRebound(g, f, IndexOf(f, recv), IndexOf(f, c));
  }

  lemma UnreadCopied(h: Graph, g: Graph, keep: Mask, a: nat)
    requires |keep| == |g.events| && h == Restrict(g, keep) && a < |KeptIds(keep)|
    ensures Unread(h, a) <==> MaskedUnread(g, keep, KeptIds(keep)[a])
  {
    var f := KeptIds(keep);
    RestrictIsSubgraph(g, keep);
    assert SameEvent(h.events[a], g.events[f[a]]) && Keeps(keep, f[a]);
    if Unread(h, a) {
      forall r | r in g.rf && Keeps(keep, r) ensures g.rf[r] != From(f[a]) {
        var k := IndexOf(f, r);
        SubgraphReads(h, g, f, k, a);
      }
    } else if MaskedUnread(g, keep, f[a]) {
      var r :| r in h.rf && h.rf[r] == From(a);
      SubgraphReads(h, g, f, r, a);
      assert false;
    }
  }

  lemma SkipsCopied(h: Graph, g: Graph, keep: Mask, early: nat, late: nat, r: nat)
    requires |keep| == |g.events| && h == Restrict(g, keep)
    requires early < |KeptIds(keep)| && late < |KeptIds(keep)| && r < |KeptIds(keep)|
    ensures var f := KeptIds(keep); SkipsUnread(h, early, late, r) <==> MaskedSkips(g, keep, f[early], f[late], f[r])
  {
    var f := KeptIds(keep);
    RestrictIsSubgraph(g, keep);
    hide Unread, MaskedUnread;
    UnreadCopied(h, g, keep, early);
    assert Keeps(keep, f[late]) && Keeps(keep, f[r]);
    assert SameEvent(h.events[early], g.events[f[early]]) && SameEvent(h.events[late], g.events[f[late]]);
    SubgraphPo(h, g, f, early, late);
    SubgraphReads(h, g, f, r, late);
    SubgraphAccepts(h, g, f, r, early);
  }

  lemma OvertakesCopied(h: Graph, g: Graph, keep: Mask, early: nat, late: nat, r: nat, q: nat)
    requires |keep| == |g.events| && h == Restrict(g, keep)
    requires early < |KeptIds(keep)| && late < |KeptIds(keep)| && r < |KeptIds(keep)| && q < |KeptIds(keep)|
    ensures var f := KeptIds(keep); Overtakes(h, early, late, r, q) <==>
              MaskedOvertakes(g, keep, f[early], f[late], f[r], f[q])
  {
    var f := KeptIds(keep);
    RestrictIsSubgraph(g, keep);
    assert Keeps(keep, f[early]) && Keeps(keep, f[late]) && Keeps(keep, f[r]) && Keeps(keep, f[q]);
    assert SameEvent(h.events[early], g.events[f[early]]) && SameEvent(h.events[late], g.events[f[late]]);
    SubgraphPo(h, g, f, early, late);
    SubgraphPo(h, g, f, r, q);
    SubgraphReads(h, g, f, r, late);
    SubgraphReads(h, g, f, q, early);
    SubgraphAccepts(h, g, f, r, early);
  }

  /** The masked clauses are the clauses of the restricted graph. */
  lemma ClausesCopied(g: Graph, keep: Mask, m: CommunicationModel)
    requires |keep| == |g.events|
    ensures ModelClauses(Restrict(g, keep), m) <==> MaskedClauses(g, keep, m)
  {
    if m.FifoP2P? {
      SkipClauseCopied(g, keep);
      OvertakeClauseCopied(g, keep);
    }
  }

  lemma SkipClauseCopied(g: Graph, keep: Mask)
    requires |keep| == |g.events|
    ensures FifoClauseB(Restrict(g, keep)) <==>
              forall early: nat, late: nat, r: nat :: !MaskedSkips(g, keep, early, late, r)
  {
    hide SkipsUnread, MaskedSkips, Restrict, KeptIds;
    var f, h := KeptIds(keep), Restrict(g, keep);
    if early: nat, late: nat, r: nat :| SkipsUnread(h, early, late, r) {
      SkipsInside(h, g, keep, early, late, r);
      SkipsCopied(h, g, keep, early, late, r);
    }
    if early: nat, late: nat, r: nat :| MaskedSkips(g, keep, early, late, r) {
      MaskedSkipsInside(g, keep, early, late, r);
      SkipsCopied(h, g, keep, IndexOf(f, early), IndexOf(f, late), IndexOf(f, r));
    }
  }

  lemma SkipsInside(h: Graph, g: Graph, keep: Mask, early: nat, late: nat, r: nat)
    requires |keep| == |g.events| && h == Restrict(g, keep) && SkipsUnread(h, early, late, r)
    ensures early < |KeptIds(keep)| && late < |KeptIds(keep)| && r < |KeptIds(keep)|
  {
  }

  lemma MaskedSkipsInside(g: Graph, keep: Mask, early: nat, late: nat, r: nat)
    requires MaskedSkips(g, keep, early, late, r)
    ensures early in KeptIds(keep) && late in KeptIds(keep) && r in KeptIds(keep)
  {
  }

  lemma OvertakeClauseCopied(g: Graph, keep: Mask)
    requires |keep| == |g.events|
    ensures FifoClauseC(Restrict(g, keep)) <==>
            forall early: nat, late: nat, r: nat, q: nat :: !MaskedOvertakes(g, keep, early, late, r, q)
  {
    hide Overtakes, MaskedOvertakes, Restrict, KeptIds;
    var f, h := KeptIds(keep), Restrict(g, keep);
    if early: nat, late: nat, r: nat, q: nat :| Overtakes(h, early, late, r, q) {
      OvertakesInside(h, g, keep, early, late, r, q);
      OvertakesCopied(h, g, keep, early, late, r, q);
    }
    if early: nat, late: nat, r: nat, q: nat :| MaskedOvertakes(g, keep, early, late, r, q) {
      MaskedOvertakesInside(g, keep, early, late, r, q);
      OvertakesCopied(h, g, keep, IndexOf(f, early), IndexOf(f, late), IndexOf(f, r), IndexOf(f, q));
    }
  }

  lemma OvertakesInside(h: Graph, g: Graph, keep: Mask, early: nat, late: nat, r: nat, q: nat)
    requires |keep| == |g.events| && h == Restrict(g, keep) && Overtakes(h, early, late, r, q)
    ensures early < |KeptIds(keep)| && late < |KeptIds(keep)| && r < |KeptIds(keep)| && q < |KeptIds(keep)|
  {
  }

  lemma MaskedOvertakesInside(g: Graph, keep: Mask, early: nat, late: nat, r: nat, q: nat)
    requires MaskedOvertakes(g, keep, early, late, r, q)
    ensures early in KeptIds(keep) && late in KeptIds(keep) && r in KeptIds(keep) && q in KeptIds(keep)
  {
  }

  // ----- causality on the mask -----

  lemma EdgeCopied(h: Graph, g: Graph, keep: Mask, a: nat, b: nat)
    requires |keep| == |g.events| && h == Restrict(g, keep) && a < |KeptIds(keep)| && b < |KeptIds(keep)|
    ensures var f := KeptIds(keep); (a, b) in PorfEdges(h) <==> (f[a], f[b]) in MaskedEdges(g, keep)
  {
    var f := KeptIds(keep);
    RestrictIsSubgraph(g, keep);
    assert Keeps(keep, f[a]) && Keeps(keep, f[b]);
    hide Subgraph, Restrict, KeptIds;
    SubgraphPo(h, g, f, a, b);
    SubgraphReads(h, g, f, b, a);
    RestrictedSize(g, keep);
  }

  ghost function IndexIn(f: seq<nat>): nat -> nat
  {
    (x: nat) => if x in f then IndexOf(f, x) else 0
  }

  /** The restricted graph is acyclic exactly when the kept edges are. */
  lemma AcyclicCopied(g: Graph, keep: Mask)
    requires |keep| == |g.events|
    ensures CausallyAcyclic(Restrict(g, keep)) <==> Acyclic(MaskedEdges(g, keep))
  {
    var f, h := KeptIds(keep), Restrict(g, keep);
    var r, q := PorfEdges(h), MaskedEdges(g, keep);
    if a: nat :| Reach(r, a, a) {
      forall x: nat, y: nat | (x, y) in r ensures Reach(q, Lookup(f)(x), Lookup(f)(y)) {
        EdgeCopied(h, g, keep, x, y);
        EdgeReaches(q, f[x], f[y]);
      }
      ReachImage(r, q, Lookup(f), a, a);
    }
    if a: nat :| Reach(q, a, a) {
      forall x: nat, y: nat | (x, y) in q ensures Reach(r, IndexIn(f)(x), IndexIn(f)(y)) {
        EdgeCopied(h, g, keep, IndexOf(f, x), IndexOf(f, y));
        EdgeReaches(r, IndexOf(f, x), IndexOf(f, y));
      }
      ReachImage(q, r, IndexIn(f), a, a);
    }
  }

  lemma MaskedRewires(g: Graph, keep: Mask, recv: nat, c: nat)
    requires |keep| == |g.events| && Keeps(keep, recv) && Keeps(keep, c)
    ensures Rewires(MaskedEdges(g, keep), MaskedEdges(SetSource(g, recv, From(c)), keep), c, recv)
  {
  }

  lemma MaskedIsAcyclic(g: Graph, keep: Mask)
    requires CausallyAcyclic(g)
    ensures Acyclic(MaskedEdges(g, keep))
  {
    var r, q := MaskedEdges(g, keep), PorfEdges(g);
    forall a: nat ensures !Reach(r, a, a) {
      if Reach(r, a, a) {
        forall x: nat, y: nat | (x, y) in r ensures Reach(q, x, y) {
          PorfStep(g, x, y);
        }
        ReachMonotone(r, q, a, a);
        assert false;
      }
    }
  }

  /** Rebinding a kept receive closes a cycle exactly when it reaches the new source through kept events. */
  lemma RewrittenIsAcyclic(g: Graph, keep: Mask, recv: nat, c: nat)
    requires |keep| == |g.events| && Keeps(keep, recv) && Keeps(keep, c) && c != recv && CausallyAcyclic(g)
    ensures CausallyAcyclic(Restrict(SetSource(g, recv, From(c)), keep)) <==> !Reach(MaskedEdges(g, keep), recv, c)
  {
    var g' := SetSource(g, recv, From(c));
    AcyclicCopied(g', keep);
    MaskedIsAcyclic(g, keep);
    MaskedRewires(g, keep, recv, c);
    RewiringCycle(MaskedEdges(g, keep), MaskedEdges(g', keep), c, recv);
  }

  // ----- well-formedness -----

  lemma CandidateCopied(g: Graph, keep: Mask, recv: nat, c: nat)
    requires |keep| == |g.events| && Keeps(keep, recv) && Keeps(keep, c)
    ensures var f := KeptIds(keep);
            Candidate(g, keep, recv, c) <==> RefCandidate(Restrict(g, keep), IndexOf(f, recv), IndexOf(f, c))
  {
    var f, h := KeptIds(keep), Restrict(g, keep);
    hide Unread, MaskedUnread;
    var i, j := IndexOf(f, recv), IndexOf(f, c);
    RestrictIsSubgraph(g, keep);
    assert SameEvent(h.events[i], g.events[f[i]]) && SameEvent(h.events[j], g.events[f[j]]);
    SubgraphAccepts(h, g, f, i, j);
    SubgraphReads(h, g, f, i, j);
    UnreadCopied(h, g, keep, j);
  }

  /** A candidate is free for the receive, so the rewritten graph stays well formed. */
  lemma RewrittenIsWellFormed(h: Graph, i: nat, c: nat)
    requires WellFormed(h) && RefCandidate(h, i, c)
    ensures WellFormed(SetSource(h, i, From(c)))
  {
    var k := SetSource(h, i, From(c));
    forall r | r in k.rf ensures GoodRead(k, r) {
      if r != i { assert GoodRead(h, r); }
    }
    forall r | r in h.rf && r != i ensures h.rf[r] != From(c) {
      if h.rf[r] == From(c) { assert false; }
    }
  }

  // ----- the agreement -----

  /** One candidate: the masked verdict is the verdict of the full check on the rebuilt graph. */
  lemma VerdictsAgree(g: Graph, keep: Mask, recv: nat, m: CommunicationModel, c: nat)
    requires WellFormed(g) && CausallyAcyclic(g) && |keep| == |g.events| && Keeps(keep, recv) && Keeps(keep, c)
    ensures var f := KeptIds(keep);
            Acceptable(g, keep, recv, m, c) <==> RefAcceptable(Restrict(g, keep), IndexOf(f, recv), m, IndexOf(f, c))
  {
    hide Candidate, RefCandidate, MaskedClauses, ModelClauses, CausallyAcyclic, WellFormed, Restrict, KeptIds,
         MaskedEdges;
    var f, h := KeptIds(keep), Restrict(g, keep);
    CandidateCopied(g, keep, recv, c);
    if Candidate(g, keep, recv, c) {
      CandidateKinds(g, keep, recv, c);
      RebindRestricted(g, keep, recv, c);
      RestrictIsSubgraph(g, keep);
      SubgraphWellFormed(h, g, f);
      RewrittenIsWellFormed(h, IndexOf(f, recv), IndexOf(f, c));
      RewrittenIsAcyclic(g, keep, recv, c);
      ClausesCopied(SetSource(g, recv, From(c)), keep, m);
    }
  }

  lemma CandidateKinds(g: Graph, keep: Mask, recv: nat, c: nat)
    requires Candidate(g, keep, recv, c)
    ensures IsReceive(g, recv) && IsSend(g, c) && recv != c
  {
  }

  lemma OrderCopied(g: Graph, keep: Mask, a: nat, b: nat)
    requires |keep| == |g.events| && Keeps(keep, a) && Keeps(keep, b)
    ensures var f := KeptIds(keep); Before(g, a, b) <==> Before(Restrict(g, keep), IndexOf(f, a), IndexOf(f, b))
  {
    var f := KeptIds(keep);
    var i, j := IndexOf(f, a), IndexOf(f, b);
    RestrictIsSubgraph(g, keep);
    assert Ascending(f);
    assert i < j ==> f[i] < f[j];
    assert j < i ==> f[j] < f[i];
  }

  lemma AcceptableIsKept(g: Graph, keep: Mask, recv: nat, m: CommunicationModel, c: nat)
    requires Acceptable(g, keep, recv, m, c)
    ensures Keeps(keep, c)
  {
  }

  lemma RefAcceptableIsKept(g: Graph, keep: Mask, i: nat, m: CommunicationModel, c: nat)
    requires |keep| == |g.events| && RefAcceptable(Restrict(g, keep), i, m, c)
    ensures c < |KeptIds(keep)|
  {
  }

  /** The same send is chosen, and there is none to choose in the same cases. */
  lemma TiebreakersAgree(g: Graph, keep: Mask, recv: nat, m: CommunicationModel, s: nat)
    requires WellFormed(g) && CausallyAcyclic(g) && |keep| == |g.events| && Keeps(keep, recv) && Keeps(keep, s)
    ensures var f := KeptIds(keep);
            IsTiebreaker(g, keep, recv, m, s) <==>
                  IsRefTiebreaker(Restrict(g, keep), IndexOf(f, recv), m, IndexOf(f, s))
  {
    hide Acceptable, RefAcceptable, WellFormed, CausallyAcyclic, Before, Restrict, KeptIds;
    var f, h := KeptIds(keep), Restrict(g, keep);
    var i := IndexOf(f, recv);
    VerdictsAgree(g, keep, recv, m, s);
    if IsTiebreaker(g, keep, recv, m, s) {
      forall c: nat | RefAcceptable(h, i, m, c) && c != IndexOf(f, s) ensures Before(h, IndexOf(f, s), c) {
        RefAcceptableIsKept(g, keep, i, m, c);
        KeptAt(keep, c);
        VerdictsAgree(g, keep, recv, m, f[c]);
        OrderCopied(g, keep, s, f[c]);
      }
    }
    if IsRefTiebreaker(h, i, m, IndexOf(f, s)) {
      forall c: nat | Acceptable(g, keep, recv, m, c) && c != s ensures Before(g, s, c) {
        AcceptableIsKept(g, keep, recv, m, c);
        VerdictsAgree(g, keep, recv, m, c);
        OrderCopied(g, keep, s, c);
      }
    }
  }

  lemma KeptAt(keep: Mask, k: nat)
    requires k < |KeptIds(keep)|
    ensures Keeps(keep, KeptIds(keep)[k]) && IndexOf(KeptIds(keep), KeptIds(keep)[k]) == k
  {
    assert Ascending(KeptIds(keep));
    IndexOfSelf(KeptIds(keep), k);
  }

  lemma NoneInBoth(g: Graph, keep: Mask, recv: nat, m: CommunicationModel)
    requires WellFormed(g) && CausallyAcyclic(g) && |keep| == |g.events| && Keeps(keep, recv)
    ensures (exists c: nat :: Acceptable(g, keep, recv, m, c))
            <==> exists c: nat :: RefAcceptable(Restrict(g, keep), IndexOf(KeptIds(keep), recv), m, c)
  {
    hide Acceptable, RefAcceptable, WellFormed, CausallyAcyclic, Restrict, KeptIds;
    var f, i := KeptIds(keep), IndexOf(KeptIds(keep), recv);
    if c: nat :| Acceptable(g, keep, recv, m, c) {
      AcceptableIsKept(g, keep, recv, m, c);
      VerdictsAgree(g, keep, recv, m, c);
    }
    if c: nat :| RefAcceptable(Restrict(g, keep), i, m, c) {
      RefAcceptableIsKept(g, keep, i, m, c);
      KeptAt(keep, c);
      VerdictsAgree(g, keep, recv, m, f[c]);
    }
  }
}
