/** What the child that redirects a receive looks like when the send has been worked towards. */
module Redirections {
  import opened Events
  import opened Consistency
  import opened Subgraphs
  import opened Revisits
  import opened Invariants
  import opened Tracking
  import opened Canonical

  // ----- copies of copies -----

  lemma CopiesCopied(h: Graph, g: Graph, f: seq<nat>, x: Graph, e: map<nat, nat>)
    requires Subgraph(h, g, f) && Ascending(f) && Copies(g, x, e) && forall a :: a in e ==> e[a] in f
    ensures Copies(h, x, Moved(e, f))
  {
    hide Subgraph, Copies, SameEvent, Po, PorfEdge;
    var e' := Moved(e, f);
    CopiesInside(g, x, e);
    SubgraphSize(h, g, f);
    forall a | a in e' ensures SameEvent(h.events[e'[a]], x.events[a]) { CopiedTwice(h, g, f, x, e, a); }
    forall a, b | a in e' && b in e' && Po(x, a, b) ensures e'[a] < e'[b] {
      CopiesAscend(g, x, e, a, b);
      AscendingInjective(f, e'[a], e'[b]);
    }
    forall b, y: nat | b in e' && Po(h, y, e'[b]) ensures y in e'.Values { CopiedPrefix(h, g, f, x, e, b, y); }
    forall a: nat, b: nat | b in e' && PorfEdge(x, a, b) ensures a in e' { CopiesClosed(g, x, e, a, b); }
    forall b | b in e' && b in x.rf
      ensures (x.rf[b].From? ==> x.rf[b].send in e') && e'[b] in h.rf && h.rf[e'[b]] == ImageOf(e', x.rf[b])
    {
      CopiedTwiceSource(h, g, f, x, e, b);
    }
    MakeCopies(h, x, e');
  }

  lemma SubgraphSize(h: Graph, g: Graph, f: seq<nat>)
    requires Subgraph(h, g, f)
    ensures |h.events| == |f| && forall i :: 0 <= i < |f| ==> f[i] < |g.events|
  {
  }

  lemma CopiesAscend(g: Graph, x: Graph, e: map<nat, nat>, a: nat, b: nat)
    requires Copies(g, x, e) && a in e && b in e && Po(x, a, b)
    ensures e[a] < e[b]
  {
  }

  lemma CopiedTwice(h: Graph, g: Graph, f: seq<nat>, x: Graph, e: map<nat, nat>, a: nat)
    requires Subgraph(h, g, f) && Copies(g, x, e) && a in e && e[a] in f
    ensures a < |x.events| && IndexOf(f, e[a]) < |h.events|
    ensures SameEvent(h.events[IndexOf(f, e[a])], x.events[a])
  {
    var i := IndexOf(f, e[a]);
    assert SameEvent(h.events[i], g.events[f[i]]) && SameEvent(g.events[e[a]], x.events[a]);
  }

  lemma CopiedPrefix(h: Graph, g: Graph, f: seq<nat>, x: Graph, e: map<nat, nat>, b: nat, y: nat)
    requires Subgraph(h, g, f) && Ascending(f) && Copies(g, x, e) && forall a :: a in e ==> e[a] in f
    requires b in e && Po(h, y, IndexOf(f, e[b]))
    ensures y in Moved(e, f).Values
  {
    var e' := Moved(e, f);
    SubgraphPo(h, g, f, y, IndexOf(f, e[b]));
    assert Po(g, f[y], e[b]);
    var a := CopyAt(e, f[y]);
    AscendingInjective(f, e'[a], y);
  }

  lemma CopiedTwiceSource(h: Graph, g: Graph, f: seq<nat>, x: Graph, e: map<nat, nat>, b: nat)
    requires Subgraph(h, g, f) && Ascending(f) && Copies(g, x, e) && forall a :: a in e ==> e[a] in f
    requires b in e && b in x.rf
    ensures var e' := Moved(e, f);
            (x.rf[b].From? ==> x.rf[b].send in e') && e'[b] in h.rf && h.rf[e'[b]] == ImageOf(e', x.rf[b])
  {
    var e' := Moved(e, f);
    CopiedSourceOf(g, x, e, b);
    assert SourceCopied(h, g, f, e'[b]);
    if x.rf[b].From? { AscendingInjective(f, h.rf[e'[b]].send, e'[x.rf[b].send]); }
  }

  /** Rebinding what is no copy changes no copy. */
  lemma CopiesRebound(g: Graph, x: Graph, e: map<nat, nat>, y: nat, source: Source)
    requires Copies(g, x, e) && y !in e.Values
    ensures Copies(SetSource(g, y, source), x, e)
  {
    hide SameEvent;
    var h := SetSource(g, y, source);
    forall b, z: nat | b in e && Po(h, z, e[b]) ensures z in e.Values { assert Po(g, z, e[b]); }
  }

  // ----- channel order after rebinding -----

  /** Whoever could be skipped by reading `j` is read, and not by `i`. */
  ghost predicate ClearFor(h: Graph, i: nat, j: nat)
  {
    forall early: nat ::
          SameChannel(h, early, j) && Accepts(h, i, early) ==> exists r: nat :: r != i && Reads(h, r, early)
  }

  lemma RebindConsistent(h: Graph, i: nat, j: nat, m: CommunicationModel)
    requires Consistent(h, m) && RebindsLast(h, i, j) && (forall y: nat :: !Po(h, j, y))
    requires m.FifoP2P? ==> ClearFor(h, i, j)
    ensures Consistent(SetSource(h, i, From(j)), m)
  {
    hide CausallyAcyclic, ReadsTotal, ClearFor, RebindsLast;
    AsyncPart(h, m);
    RebindIsAsyncConsistent(h, i, j);
    if m.FifoP2P? {
      var c := SetSource(h, i, From(j));
      forall early: nat, late: nat, r: nat ensures !SkipsUnread(c, early, late, r) {
        RebindSkipsNothing(h, i, j, early, late, r);
      }
      forall early: nat, late: nat, r: nat, q: nat ensures !Overtakes(c, early, late, r, q) {
        RebindOvertakesNothing(h, i, j, early, late, r, q);
      }
    }
  }

  lemma RebindSkipsNothing(h: Graph, i: nat, j: nat, early: nat, late: nat, r: nat)
    requires WellFormed(h) && FifoClauseB(h) && FifoClauseC(h) && RebindsLast(h, i, j) && ClearFor(h, i, j)
    ensures !SkipsUnread(SetSource(h, i, From(j)), early, late, r)
  {
    var c := SetSource(h, i, From(j));
    if SameChannel(h, early, late) && Reads(c, r, late) && Accepts(h, r, early) {
      var q := StillRead(h, i, j, early, late, r);
    }
  }

  lemma StillRead(h: Graph, i: nat, j: nat, early: nat, late: nat, r: nat) returns (q: nat)
    requires WellFormed(h) && FifoClauseB(h) && FifoClauseC(h) && RebindsLast(h, i, j) && ClearFor(h, i, j)
    requires SameChannel(h, early, late) && Reads(SetSource(h, i, From(j)), r, late) && Accepts(h, r, early)
    ensures Reads(SetSource(h, i, From(j)), q, early)
  {
    if r == i {
      q :| q != i && Reads(h, q, early);
    } else {
      assert !SkipsUnread(h, early, late, r);
      q :| q in h.rf && h.rf[q] == From(early);
      assert GoodRead(h, r) && GoodRead(h, q);
      assert !Overtakes(h, early, late, r, q) && !Po(h, i, r);
    }
  }

  lemma RebindOvertakesNothing(h: Graph, i: nat, j: nat, early: nat, late: nat, r: nat, q: nat)
    requires FifoClauseC(h) && RebindsLast(h, i, j) && (forall y: nat :: !Po(h, j, y))
    ensures !Overtakes(SetSource(h, i, From(j)), early, late, r, q)
  {
    var c := SetSource(h, i, From(j));
    assert !Po(h, i, q) && !Po(h, j, late) && !Overtakes(h, early, late, r, q);
  }

  // ----- the survivors -----

  lemma {:induction false} PrefixIds(ids: seq<nat>, y: nat, i: nat)
    requires Ascending(ids) && (forall z: nat :: z <= y ==> z in ids) && i <= y
    ensures i < |ids| && ids[i] == i
    decreases i
  {
    assert i in ids;
    var k :| 0 <= k < |ids| && ids[k] == i;
    if i > 0 {
      PrefixIds(ids, y, i - 1);
    }
    assert k >= i && (i > 0 ==> ids[i - 1] < ids[i]);
    AscendingInjective(ids, i, k);
  }

  /** The send `s` of `x` comes next in `w`; receive `y`, and everything since beside the past of `s`, is canonical. */
  ghost predicate Poised(w: Graph, x: Graph, s: nat, e: map<nat, nat>, y: nat, m: CommunicationModel)
  {
    && Primed(w, x, s, e) && Consistent(w, m) && IsReceive(w, y) && y !in e.Values
    && w.events[y].thread == x.events[s].op.destination && w.events[y].op.matches(x.events[s].op.value)
    && forall z: nat :: y <= z < |w.events| && z !in e.Values ==> CanonAt(w, x, Past(x, s), e, z)
  }

  /** So the send may redirect it. */
  lemma PoisedAllowed(w: Graph, x: Graph, s: nat, e: map<nat, nat>, y: nat, m: CommunicationModel)
    requires Poised(w, x, s, e, y, m)
    ensures IsReceive(Sent(w, x, s), y) && Sent(w, x, s).events[y].thread == x.events[s].op.destination
    ensures RevisitAllowed(Sent(w, x, s), y, |w.events|, m)
    ensures FreshRevisit(Sent(w, x, s), y, |w.events|, m)
  {
    hide Primed, Sent, Consistent, CanonAt, RevisitCondition, Porf;
    var h, n := Sent(w, x, s), |w.events|;
    SentParts(w, x, s, e);
    SentConsistent(w, x, s, e, m);
    SentUnread(w, x, s, e);
    PastOfSent(w, x, s, e, y);
    CanonMeets(w, x, s, e, y, m);
    forall z: nat | Deleted(h, y, n, z) ensures RevisitCondition(h, z, n, m) {
      PastOfSent(w, x, s, e, z);
      CanonMeets(w, x, s, e, z, m);
    }
  }

  lemma SentUnread(w: Graph, x: Graph, s: nat, e: map<nat, nat>)
    requires Primed(w, x, s, e)
    ensures Unread(Sent(w, x, s), |w.events|)
  {
    FreshSendIsUnread(w, x.events[s].thread, x.events[s].op);
  }

  ghost function Kept(w: Graph, x: Graph, s: nat, y: nat): (ids: seq<nat>)
    ensures Ascending(ids)
  {
    KeptIds(SurvivorMask(Sent(w, x, s), y, |w.events|))
  }

  /** What came up to the receive and what was copied. */
  lemma KeptMember(w: Graph, x: Graph, s: nat, e: map<nat, nat>, y: nat, z: nat)
    requires Primed(w, x, s, e) && y < |w.events|
    ensures z in Kept(w, x, s, y) <==> z <= y || z in e.Values || z == |w.events|
  {
    hide Primed, Sent, Porf;
    SentParts(w, x, s, e);
    PastOfSent(w, x, s, e, z);
    PrimedKeys(w, x, s, e);
    if z in e.Values { var a := CopyAt(e, z); }
  }

  lemma KeptPrefix(w: Graph, x: Graph, s: nat, e: map<nat, nat>, y: nat, i: nat)
    requires Primed(w, x, s, e) && y < |w.events| && i <= y
    ensures i < |Kept(w, x, s, y)| && Kept(w, x, s, y)[i] == i
  {
    hide Primed, Kept;
    forall z: nat | z <= y ensures z in Kept(w, x, s, y) { KeptMember(w, x, s, e, y, z); }
    PrefixIds(Kept(w, x, s, y), y, i);
  }

  /** The copies, the send just appended included. */
  ghost function Including(w: Graph, s: nat, e: map<nat, nat>): map<nat, nat>
  {
    e[s := |w.events|]
  }

  /** Where the copies are in the child. */
  ghost function Landed(w: Graph, x: Graph, s: nat, e: map<nat, nat>, y: nat): map<nat, nat>
  {
    map a | a in Including(w, s, e) && Including(w, s, e)[a] in Kept(w, x, s, y) ::
      IndexOf(Kept(w, x, s, y), Including(w, s, e)[a])
  }

  lemma LandedParts(w: Graph, x: Graph, s: nat, e: map<nat, nat>, y: nat)
    requires Primed(w, x, s, e) && y < |w.events|
    ensures var e', ids := Landed(w, x, s, e, y), Kept(w, x, s, y);
            && s !in e && e'.Keys == e.Keys + {s}
            && (forall a :: a in e ==> e'[a] < |ids| && ids[e'[a]] == e[a])
            && e'[s] < |ids| && ids[e'[s]] == |w.events|
            && (forall a :: a in Including(w, s, e) ==> Including(w, s, e)[a] in ids)
            && e' == Moved(Including(w, s, e), ids)
  {
    hide Primed, Kept;
    LandedInside(w, x, s, e, y);
    var e', ids := Landed(w, x, s, e, y), Kept(w, x, s, y);
    forall a | a in e ensures a in e' && e'[a] < |ids| && ids[e'[a]] == e[a] {
      assert a in Including(w, s, e) && Including(w, s, e)[a] == e[a];
    }
    assert s in Including(w, s, e);
  }

  lemma LandedInside(w: Graph, x: Graph, s: nat, e: map<nat, nat>, y: nat)
    requires Primed(w, x, s, e) && y < |w.events|
    ensures s !in e && forall a :: a in Including(w, s, e) ==> Including(w, s, e)[a] in Kept(w, x, s, y)
  {
    hide Primed, Kept;
    PrimedKeys(w, x, s, e);
    forall a | a in Including(w, s, e) ensures Including(w, s, e)[a] in Kept(w, x, s, y) {
      KeptMember(w, x, s, e, y, Including(w, s, e)[a]);
      if a in e { assert e[a] in e.Values; }
    }
  }

  lemma LandedValue(w: Graph, x: Graph, s: nat, e: map<nat, nat>, y: nat, i: nat)
    requires Primed(w, x, s, e) && y < |w.events| && i < |Kept(w, x, s, y)|
    ensures var k := Kept(w, x, s, y)[i]; i in Landed(w, x, s, e, y).Values <==> k in e.Values || k == |w.events|
  {
    hide Primed, Kept;
    var ids, e' := Kept(w, x, s, y), Landed(w, x, s, e, y);
    LandedParts(w, x, s, e, y);
    if i in e'.Values { var a := CopyAt(e', i); assert a == s || ids[i] == e[a]; }
    if ids[i] in e.Values {
      var a := CopyAt(e, ids[i]);
      AscendingInjective(ids, e'[a], i);
    }
    if ids[i] == |w.events| { AscendingInjective(ids, e'[s], i); }
  }

  // ----- the child -----

  ghost function Child(w: Graph, x: Graph, s: nat, y: nat): Graph
    requires y < |w.events| < |Sent(w, x, s).events|
  {
    RevisitChild(Sent(w, x, s), y, |w.events|)
  }

  lemma ChildSubgraph(w: Graph, x: Graph, s: nat, e: map<nat, nat>, y: nat)
    requires Primed(w, x, s, e) && y < |w.events|
    ensures var ids, h := Kept(w, x, s, y), Restrict(Sent(w, x, s), SurvivorMask(Sent(w, x, s), y, |w.events|));
            && |w.events| < |Sent(w, x, s).events|
            && Subgraph(h, Sent(w, x, s), ids)
            && s in Landed(w, x, s, e, y)
            && Child(w, x, s, y) == SetSource(h, y, From(Landed(w, x, s, e, y)[s]))
            && forall i ::
                 0 <= i < |ids| ==> ids[i] < |Sent(w, x, s).events| && h.events[i] == Sent(w, x, s).events[ids[i]]
  {
    hide Primed, Sent;
    SentParts(w, x, s, e);
    LandedParts(w, x, s, e, y);
    var h0 := Sent(w, x, s);
    RestrictIsSubgraph(h0, SurvivorMask(h0, y, |w.events|));
    var ids := Kept(w, x, s, y);
    KeptMember(w, x, s, e, y, y);
    KeptMember(w, x, s, e, y, |w.events|);
    KeptPrefix(w, x, s, e, y, y);
    AscendingInjective(ids, IndexOf(ids, y), y);
    AscendingInjective(ids, IndexOf(ids, |w.events|), Landed(w, x, s, e, y)[s]);
  }

  lemma SentCopies(w: Graph, x: Graph, s: nat, e: map<nat, nat>, d: set<nat>)
    requires Primed(w, x, s, e) && d == Past(x, s) + {s} && ClosedIn(x, d) && Tracks(w, x, d, e)
    ensures Copies(Sent(w, x, s), x, Including(w, s, e))
  {
    hide Copies, Porf;
    PrimedKeys(w, x, s, e);
    forall a: nat | PorfEdge(x, a, s) ensures a in e {
      PorfStep(x, a, s);
      PastMember(x, s, a);
    }
    forall z: nat | z < |w.events| && w.events[z].thread == x.events[s].thread ensures !IsBlock(w, z) {
      var a := CopyAt(e, z);
      NotABlock(w, x, d, e, a);
    }
    OnlyReceivesRead(x, s);
    PerformsCopies(w, Sent(w, x, s), x, d, e, s);
  }

  lemma ChildCopies(w: Graph, x: Graph, s: nat, e: map<nat, nat>, y: nat, d: set<nat>)
    requires Primed(w, x, s, e) && d == Past(x, s) + {s} && ClosedIn(x, d) && Tracks(w, x, d, e)
    requires y < |w.events| && y !in e.Values
    ensures |w.events| < |Sent(w, x, s).events| && y !in Landed(w, x, s, e, y).Values
    ensures Copies(Child(w, x, s, y), x, Landed(w, x, s, e, y))
  {
    hide Primed, Copies, Tracks, ClosedIn, Subgraph, Kept, Sent, Child;
    ChildSubgraph(w, x, s, e, y);
    SentCopies(w, x, s, e, d);
    LandedParts(w, x, s, e, y);
    var h0, ids := Sent(w, x, s), Kept(w, x, s, y);
    var h := Restrict(h0, SurvivorMask(h0, y, |w.events|));
    CopiesCopied(h, h0, ids, x, Including(w, s, e));
    KeptPrefix(w, x, s, e, y, y);
    LandedValue(w, x, s, e, y, y);
    CopiesRebound(h, x, Landed(w, x, s, e, y), y, From(Landed(w, x, s, e, y)[s]));
  }

  lemma ChildBelow(w: Graph, x: Graph, s: nat, e: map<nat, nat>, y: nat, i: nat)
    requires Primed(w, x, s, e) && y < |w.events| < |Sent(w, x, s).events| && i < y
    ensures i < |Child(w, x, s, y).events| && Child(w, x, s, y).events[i] == w.events[i]
    ensures i in Child(w, x, s, y).rf ==> i in w.rf
    ensures i in w.rf && (w.rf[i].From? ==> w.rf[i].send < y) ==>
              i in Child(w, x, s, y).rf && Child(w, x, s, y).rf[i] == w.rf[i]
  {
    hide Primed, Sent, Kept, Restrict, Landed, Child;
    SentParts(w, x, s, e);
    ChildSubgraph(w, x, s, e, y);
    KeptPrefix(w, x, s, e, y, i);
    var h0, ids := Sent(w, x, s), Kept(w, x, s, y);
    var h := Restrict(h0, SurvivorMask(h0, y, |w.events|));
    assert SourceCopied(h, h0, ids, i);
    if i in w.rf && w.rf[i].From? && w.rf[i].send < y {
      var q := w.rf[i].send;
      KeptPrefix(w, x, s, e, y, q);
      assert ids[q] in ids;
      AscendingInjective(ids, h.rf[i].send, q);
    }
  }

  /** Up to the receive the child is what the search started from. */
  lemma ChildGrown(g: Graph, w: Graph, f: seq<nat>, x: Graph, s: nat, e: map<nat, nat>, y: nat)
    requires Grown(g, w, f) && |f| == y && Primed(w, x, s, e) && y < |w.events| < |Sent(w, x, s).events|
    ensures Grown(g, Child(w, x, s, y), f)
  {
    hide Primed, Sent, Child;
    var c := Child(w, x, s, y);
    forall i | 0 <= i < |f|
      ensures i < |c.events| && c.events[i] == g.events[f[i]] && (i in c.rf <==> f[i] in g.rf)
      ensures i in c.rf ==> SourceMoved(f, g.rf[f[i]], c.rf[i])
    {
      ChildBelow(w, x, s, e, y, i);
      if i in w.rf { assert SourceMoved(f, g.rf[f[i]], w.rf[i]); }
    }
    if y > 0 { ChildBelow(w, x, s, e, y, y - 1); }
  }

  /** The receive itself reads the send, and all that follows it was copied. */
  lemma ChildAbove(w: Graph, x: Graph, s: nat, e: map<nat, nat>, y: nat)
    requires Primed(w, x, s, e) && y < |w.events| < |Sent(w, x, s).events|
    ensures var c, e' := Child(w, x, s, y), Landed(w, x, s, e, y);
            && y < |c.events| && c.events[y] == w.events[y] && s in e' && y in c.rf && c.rf[y] == From(e'[s])
            && forall z: nat :: y < z < |c.events| ==> z in e'.Values
  {
    hide Primed, Sent, Kept, Restrict, Landed, Child, Subgraph;
    SentParts(w, x, s, e);
    ChildSubgraph(w, x, s, e, y);
    KeptPrefix(w, x, s, e, y, y);
    var ids, c := Kept(w, x, s, y), Child(w, x, s, y);
    SubgraphSize(Restrict(Sent(w, x, s), SurvivorMask(Sent(w, x, s), y, |w.events|)), Sent(w, x, s), ids);
    forall z: nat | y < z < |c.events| ensures z in Landed(w, x, s, e, y).Values {
      AscendingInjective(ids, y, z);
      assert ids[z] in ids;
      KeptMember(w, x, s, e, y, ids[z]);
      LandedValue(w, x, s, e, y, z);
    }
  }

  // ----- channel order in the child -----

  /** In `g` everything that reading `s` could skip has been read. */
  ghost predicate Clear(g: Graph, x: Graph, e: map<nat, nat>, op: Label, s: nat)
  {
    forall a: nat ::
          op.Receive? && SameChannel(x, a, s) && op.matches(x.events[a].op.value) ==> a in e && !Unread(g, e[a])
  }

  lemma ChannelCopied(w: Graph, x: Graph, s: nat, e: map<nat, nat>, early: nat) returns (a: nat)
    requires Primed(w, x, s, e) && SameChannel(Sent(w, x, s), early, |w.events|)
    ensures a in e && e[a] == early < |w.events| && SameChannel(x, a, s) && a < |x.events|
    ensures w.events[early].op == x.events[a].op && IsSend(x, a)
  {
    hide Porf;
    a := CopyAt(e, early);
    assert SameEvent(w.events[early], x.events[a]);
    PastMember(x, s, a);
    PorfWithinThread(x, a, s);
  }

  lemma StillReadIn(g: Graph, w: Graph, f: seq<nat>, e: map<nat, nat>, e': map<nat, nat>, a: nat) returns (k: nat)
    requires Grown(g, w, f) && Carries(e, e', f) && WellFormed(g) && a in e && IsSend(g, e[a]) && !Unread(g, e[a])
    ensures k < |f| && a in e' && Reads(w, k, e'[a])
  {
    var r: nat :| r in g.rf && g.rf[r] == From(e[a]);
    assert GoodRead(g, r);
    k := KeptEvent(g, w, f, r);
    GrownReads(g, w, f, k, e'[a]);
  }

  lemma ChildClear(g: Graph, w: Graph, f: seq<nat>, x: Graph, s: nat, e: map<nat, nat>, e': map<nat, nat>, y: nat)
    requires Grown(g, w, f) && |f| == y && Carries(e, e', f) && WellFormed(g) && Copies(g, x, e)
    requires Primed(w, x, s, e') && IsReceive(w, y) && Clear(g, x, e, w.events[y].op, s)
    ensures var h0 := Sent(w, x, s);
            s in Landed(w, x, s, e', y)
            && ClearFor(Restrict(h0, SurvivorMask(h0, y, |w.events|)), y, Landed(w, x, s, e', y)[s])
  {
    hide Primed, Kept, Restrict, Landed, Grown, Carries, Copies, Subgraph, Sent, SameChannel;
    SentParts(w, x, s, e');
    ChildSubgraph(w, x, s, e', y);
    LandedParts(w, x, s, e', y);
    var h0, ids := Sent(w, x, s), Kept(w, x, s, y);
    var h, j := Restrict(h0, SurvivorMask(h0, y, |w.events|)), Landed(w, x, s, e', y)[s];
    forall early: nat | SameChannel(h, early, j) && Accepts(h, y, early)
        ensures exists r: nat :: r != y && Reads(h, r, early) {
      var k := ReaderInChild(g, w, f, x, s, e, e', y, h, early);
    }
  }

  lemma ReaderInChild(g: Graph, w: Graph, f: seq<nat>, x: Graph, s: nat, e: map<nat, nat>, e': map<nat, nat>, y: nat,
                      h: Graph, early: nat) returns (k: nat)
    requires Grown(g, w, f) && |f| == y && Carries(e, e', f) && WellFormed(g) && Copies(g, x, e)
    requires Primed(w, x, s, e') && IsReceive(w, y) && Clear(g, x, e, w.events[y].op, s)
    requires h == Restrict(Sent(w, x, s), SurvivorMask(Sent(w, x, s), y, |w.events|)) && s in Landed(w, x, s, e', y)
    requires SameChannel(h, early, Landed(w, x, s, e', y)[s]) && Accepts(h, y, early)
    ensures k != y && Reads(h, k, early)
  {
    hide Primed, Kept, Restrict, Landed, Grown, Carries, Copies, Subgraph, Sent, SameChannel, Clear;
    SentParts(w, x, s, e');
    ChildSubgraph(w, x, s, e', y);
    LandedParts(w, x, s, e', y);
    var h0, ids := Sent(w, x, s), Kept(w, x, s, y);
    SubgraphChannel(h, h0, ids, early, Landed(w, x, s, e', y)[s]);
    var a := ChannelCopied(w, x, s, e', ids[early]);
    KeptPrefix(w, x, s, e', y, y);
    ClearCopy(g, x, e, w.events[y].op, s, a);
    k := StillReadIn(g, w, f, e, e', a);
    KeptPrefix(w, x, s, e', y, k);
    SubgraphReads(h, h0, ids, k, early);
  }

  lemma ClearCopy(g: Graph, x: Graph, e: map<nat, nat>, op: Label, s: nat, a: nat)
    requires Clear(g, x, e, op, s) && Copies(g, x, e)
    requires op.Receive? && SameChannel(x, a, s) && op.matches(x.events[a].op.value)
    ensures a in e && IsSend(g, e[a]) && !Unread(g, e[a])
  {
    assert SameEvent(g.events[e[a]], x.events[a]);
  }

  lemma SubgraphChannel(h: Graph, g: Graph, f: seq<nat>, early: nat, late: nat)
    requires Subgraph(h, g, f) && SameChannel(h, early, late)
    ensures early < |f| && late < |f| && SameChannel(g, f[early], f[late]) && f[early] < |g.events|
    ensures h.events[early].op == g.events[f[early]].op
  {
    assert SameEvent(h.events[early], g.events[f[early]]) && SameEvent(h.events[late], g.events[f[late]]);
    SubgraphPo(h, g, f, early, late);
  }

  /** The child passes the guard. */
  lemma ChildConsistent(g: Graph, w: Graph, f: seq<nat>, x: Graph, s: nat, e: map<nat, nat>, e': map<nat, nat>, y: nat,
                        m: CommunicationModel)
    requires Poised(w, x, s, e', y, m) && Grown(g, w, f) && |f| == y && Carries(e, e', f) && WellFormed(g)
             && Copies(g, x, e)
    requires m.FifoP2P? ==> Clear(g, x, e, w.events[y].op, s)
    ensures |w.events| < |Sent(w, x, s).events| && Consistent(Child(w, x, s, y), m)
  {
    hide Primed, Restrict, Grown, Carries, Copies, Subgraph, Sent, Clear, ClearFor, Consistent, FreshRevisit, CanonAt,
         Landed, RebindsLast, RevisitAllowed;
    PoisedAllowed(w, x, s, e', y, m);
    ChildSubgraph(w, x, s, e', y);
    var h0, n := Sent(w, x, s), |w.events|;
    var h, j := Restrict(h0, SurvivorMask(h0, y, n)), Landed(w, x, s, e', y)[s];
    RestrictedRevisitIsConsistent(h0, y, n, m);
    SurvivorsRebind(h0, y, n, m);
    LandedPlaces(w, x, s, e', y);
    if m.FifoP2P? { ChildClear(g, w, f, x, s, e, e', y); }
    NothingAfterSend(w, x, s, e', y);
    RebindConsistent(h, y, j, m);
  }

  lemma LandedPlaces(w: Graph, x: Graph, s: nat, e: map<nat, nat>, y: nat)
    requires Primed(w, x, s, e) && y < |w.events|
    ensures var ids := Kept(w, x, s, y);
            && y in ids && |w.events| in ids && IndexOf(ids, y) == y
            && s in Landed(w, x, s, e, y) && IndexOf(ids, |w.events|) == Landed(w, x, s, e, y)[s]
  {
    hide Primed, Kept, Landed;
    LandedParts(w, x, s, e, y);
    var ids := Kept(w, x, s, y);
    KeptMember(w, x, s, e, y, y);
    KeptMember(w, x, s, e, y, |w.events|);
    KeptPrefix(w, x, s, e, y, y);
    AscendingInjective(ids, IndexOf(ids, y), y);
    AscendingInjective(ids, IndexOf(ids, |w.events|), Landed(w, x, s, e, y)[s]);
  }

  lemma NothingAfterSend(w: Graph, x: Graph, s: nat, e: map<nat, nat>, y: nat)
    requires Primed(w, x, s, e) && y < |w.events|
    ensures var h0 := Sent(w, x, s);
            s in Landed(w, x, s, e, y) && |w.events| < |h0.events|
            && forall z: nat :: !Po(Restrict(h0, SurvivorMask(h0, y, |w.events|)), Landed(w, x, s, e, y)[s], z)
  {
    hide Primed, Kept, Landed, Sent, Restrict, Subgraph;
    SentParts(w, x, s, e);
    LandedParts(w, x, s, e, y);
    ChildSubgraph(w, x, s, e, y);
    var h0, ids, j := Sent(w, x, s), Kept(w, x, s, y), Landed(w, x, s, e, y)[s];
    var h := Restrict(h0, SurvivorMask(h0, y, |w.events|));
    SubgraphSize(h, h0, ids);
    forall z: nat ensures !Po(h, j, z) {
      if z < |ids| { AscendingInjective(ids, j, z); }
    }
  }
}
