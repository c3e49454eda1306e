/** Joining what a redirection performed with what had been performed before it. */
module Targets {
  import opened Events
  import opened Reachability
  import opened Consistency
  import opened Subgraphs
  import opened Revisits
  import opened Engine
  import opened Invariants
  import opened Branches
  import opened Tracking
  import opened Canonical
  import opened Progress
  import opened Performing

  ghost function UpTo(x: Graph, s: nat): set<nat>
  {
    Past(x, s) + {s}
  }

  ghost function Within(e: map<nat, nat>, q: set<nat>): map<nat, nat>
  {
    map a | a in e && a in q :: e[a]
  }

  lemma {:induction false} ClosedPath(x: Graph, p: set<nat>, k: nat, a: nat, c: nat)
    requires ClosedIn(x, p) && c in p && ReachIn(PorfEdges(x), k, a, c)
    ensures a in p
    decreases k
  {
    hide ClosedIn;
    if k == 0 {
      ClosedEdge(x, p, a, c);
    } else {
      var b: nat :| (a, b) in PorfEdges(x) && ReachIn(PorfEdges(x), k - 1, b, c);
      ClosedPath(x, p, k - 1, b, c);
      ClosedEdge(x, p, a, b);
    }
  }

  lemma ClosedEdge(x: Graph, p: set<nat>, a: nat, c: nat)
    requires ClosedIn(x, p) && c in p && (a, c) in PorfEdges(x)
    ensures a in p
  {
    assert PorfEdge(x, a, c);
  }

  /** The past of an event of a closed set is in it. */
  lemma PastInside(x: Graph, p: set<nat>, c: nat)
    requires ClosedIn(x, p) && c in p && CausallyAcyclic(x)
    ensures UpTo(x, c) <= p && c !in Past(x, c) && |Past(x, c)| < |p|
  {
    hide ClosedIn;
    forall a | a in Past(x, c) ensures a in p {
      PastMember(x, c, a);
      var k: nat :| ReachIn(PorfEdges(x), k, a, c);
      ClosedPath(x, p, k, a, c);
    }
    PastMember(x, c, c);
    SelfIsNotPast(x, c);
    ProperSubsetIsSmaller(Past(x, c), p);
  }

  /** What tracks more tracks less. */
  lemma TracksWithin(g: Graph, x: Graph, d: set<nat>, e: map<nat, nat>, q: set<nat>)
    requires Tracks(g, x, d, e) && ClosedIn(x, d) && ClosedIn(x, q) && q <= d
    ensures Tracks(g, x, q, Within(e, q))
  {
    hide Copies, ClosedIn;
    TracksParts(g, x, d, e);
    CopiesWithin(g, x, e, q);
    var e' := Within(e, q);
    forall y: nat, a: nat | y < |g.events| && !IsBlock(g, y) && y !in e'.Values && a in q
                            && x.events[a].thread == g.events[y].thread
      ensures a in e'
    {
      if y in e.Values {
        var b := CopyAt(e, y);
        WithinValue(e, q, b);
        CopiedEvent(g, x, e, b);
        OthersInThread(g, x, e, q, b, a);
      }
    }
  }

  lemma OthersInThread(g: Graph, x: Graph, e: map<nat, nat>, q: set<nat>, b: nat, a: nat)
    requires Copies(g, x, e) && ClosedIn(x, q) && b in e && b !in q && a in q
    requires x.events[a].thread == x.events[b].thread
    ensures a in Within(e, q)
  {
    assert b < a ==> PorfEdge(x, b, a);
    assert a < b ==> PorfEdge(x, a, b);
  }

  lemma WithinValue(e: map<nat, nat>, q: set<nat>, b: nat)
    requires b in e
    ensures b in q ==> e[b] in Within(e, q).Values
  {
    if b in q { assert Within(e, q)[b] == e[b]; }
  }

  lemma CopiesWithin(g: Graph, x: Graph, e: map<nat, nat>, q: set<nat>)
    requires Copies(g, x, e) && ClosedIn(x, q)
    ensures Copies(g, x, Within(e, q))
  {
    var e' := Within(e, q);
    forall b, y: nat | b in e' && Po(g, y, e'[b]) ensures y in e'.Values {
      var a := CopyAt(e, y);
      assert SameEvent(g.events[e[a]], x.events[a]) && SameEvent(g.events[e[b]], x.events[b]);
      CopiesOrder(g, x, e, a, b);
      assert PorfEdge(x, a, b);
      assert e'[a] == y;
    }
    forall b | b in e' && b in x.rf
      ensures (x.rf[b].From? ==> x.rf[b].send in e') && e'[b] in g.rf && g.rf[e'[b]] == ImageOf(e', x.rf[b])
    {
      if x.rf[b].From? { SourceWithin(g, x, e, q, b); }
    }
  }

  lemma SourceWithin(g: Graph, x: Graph, e: map<nat, nat>, q: set<nat>, b: nat)
    requires Copies(g, x, e) && ClosedIn(x, q) && b in e && b in q && b in x.rf && x.rf[b].From?
    ensures x.rf[b].send in e && x.rf[b].send in q
  {
    assert PorfEdge(x, x.rf[b].send, b);
  }

  // ----- two copies at once -----

  ghost predicate Agree(a: map<nat, nat>, b: map<nat, nat>)
  {
    forall k :: k in a && k in b ==> a[k] == b[k]
  }

  lemma MergedValues(a: map<nat, nat>, b: map<nat, nat>, y: nat)
    requires Agree(a, b)
    ensures y in (a + b).Values <==> y in a.Values || y in b.Values
  {
    if y in a.Values {
      var k := CopyAt(a, y);
      assert (a + b)[k] == y;
    }
    if y in b.Values {
      var k := CopyAt(b, y);
      assert (a + b)[k] == y;
    }
  }

  lemma MergeCopies(g: Graph, x: Graph, a: map<nat, nat>, b: map<nat, nat>)
    requires Copies(g, x, a) && Copies(g, x, b) && Agree(a, b)
    ensures Copies(g, x, a + b)
  {
    hide Copies, SameEvent, Po, PorfEdge;
    var e := a + b;
    assert forall k :: k in a ==> e[k] == a[k];
    CopiesInside(g, x, a);
    CopiesInside(g, x, b);
    forall k | k in e ensures SameEvent(g.events[e[k]], x.events[k]) {
      if k in b { CopiedEvent(g, x, b, k); } else { CopiedEvent(g, x, a, k); }
    }
    forall i, j | i in e && j in e && Po(x, i, j) ensures e[i] < e[j] {
      if j in b { CopiedBefore(g, x, b, i, j); } else { CopiedBefore(g, x, a, i, j); }
    }
    forall j, y: nat | j in e && Po(g, y, e[j]) ensures y in e.Values {
      MergedValues(a, b, y);
      if j in b { CopiedDown(g, x, b, y, j); } else { CopiedDown(g, x, a, y, j); }
    }
    forall i: nat, j: nat | j in e && PorfEdge(x, i, j) ensures i in e {
      if j in b { CopiesClosed(g, x, b, i, j); } else { CopiesClosed(g, x, a, i, j); }
    }
    forall j | j in e && j in x.rf
      ensures (x.rf[j].From? ==> x.rf[j].send in e) && e[j] in g.rf && g.rf[e[j]] == ImageOf(e, x.rf[j])
    {
      if j in b { CopiedSourceOf(g, x, b, j); } else { CopiedSourceOf(g, x, a, j); }
    }
    MakeCopies(g, x, e);
  }

  lemma CopiedEvent(g: Graph, x: Graph, e: map<nat, nat>, k: nat)
    requires Copies(g, x, e) && k in e
    ensures k < |x.events| && e[k] < |g.events| && SameEvent(g.events[e[k]], x.events[k])
  {
  }

  lemma CopiedBefore(g: Graph, x: Graph, e: map<nat, nat>, i: nat, j: nat)
    requires Copies(g, x, e) && j in e && Po(x, i, j)
    ensures i in e && e[i] < e[j]
  {
    assert PorfEdge(x, i, j);
  }

  lemma CopiedDown(g: Graph, x: Graph, e: map<nat, nat>, y: nat, j: nat)
    requires Copies(g, x, e) && j in e && Po(g, y, e[j])
    ensures y in e.Values
  {
  }

  // ----- what a redirection leaves -----

  /** Receive `op` of thread `t`, which came next in `g`, was made to read `s`; beside it only the past of `s` was
      performed. */
  ghost predicate Redirected(cfg: Config, x: Graph, g: Graph,
                             e: map<nat, nat>, depth: nat, t: ThreadId, op: Label, s: nat, h: Graph, f: seq<nat>,
                             e': map<nat, nat>, depth': nat)
  {
    && Below(cfg, h, depth') && depth < depth'
    && Grown(g, h, f) && Carries(e, e', f) && Copies(h, x, e') && e'.Keys == UpTo(x, s)
    && |f| < |h.events| && h.events[|f|] == Event(t, op) && |f| !in e'.Values
    && |f| in h.rf && h.rf[|f|] == From(e'[s])
    && forall z: nat :: |f| < z < |h.events| ==> z in e'.Values
  }

  lemma JoinAgrees(e: map<nat, nat>, f: seq<nat>, e': map<nat, nat>, q: set<nat>, k: nat)
    requires Ascending(f) && Carries(Within(e, q), e', f) && e'.Keys <= q && k in e && e[k] in f && k in e'
    ensures IndexOf(f, e[k]) == e'[k]
  {
    assert k in Within(e, q);
    AscendingInjective(f, IndexOf(f, e[k]), e'[k]);
  }

  lemma JoinCarries(e: map<nat, nat>, f: seq<nat>, moved: map<nat, nat>, e': map<nat, nat>, q: set<nat>)
    requires Carries(e, moved, f) && moved.Keys == e.Keys && Agree(moved, e') && Carries(Within(e, q), e', f)
    ensures Carries(e, moved + e', f)
  {
    var all := moved + e';
    forall a | a in e ensures a in all && all[a] < |f| && f[all[a]] == e[a] {
      assert all[a] == moved[a];
    }
  }

  /** `all` joins what had been performed with what a redirection to `c` performed. */
  ghost predicate Joint(x: Graph, e: map<nat, nat>, c: nat, h: Graph, f: seq<nat>, all: map<nat, nat>)
  {
    && Copies(h, x, all) && Carries(e, all, f) && all.Keys == e.Keys + UpTo(x, c)
    && |f| < |h.events| && |f| in h.rf && c in all && h.rf[|f|] == From(all[c]) && |f| !in all.Values
    && forall z: nat :: |f| < z < |h.events| ==> z in all.Values
  }

  lemma Joins(cfg: Config, x: Graph, d: set<nat>, g: Graph, e: map<nat, nat>, depth: nat, t: ThreadId,
              op: Label, c: nat, h: Graph, f: seq<nat>, e': map<nat, nat>, depth': nat) returns (all: map<nat, nat>)
    requires Tracks(g, x, d, e) && ClosedIn(x, d)
    requires Redirected(cfg, x, g, Within(e, UpTo(x, c)), depth, t, op, c, h, f, e', depth')
    ensures Joint(x, e, c, h, f, all)
  {
    hide Below, Copies, Grown, Carries, Tracks, ClosedIn, Past, UpTo, Within, Moved;
    TracksParts(g, x, d, e);
    NoBlocksIn(x, d);
    CopiesGrown(g, h, f, x, e);
    GrownAscends(g, h, f);
    var moved := Moved(e, f);
    MovedParts(e, f);
    forall k | k in moved && k in e' ensures moved[k] == e'[k] { JoinAgrees(e, f, e', UpTo(x, c), k); }
    MergeCopies(h, x, moved, e');
    JoinCarries(e, f, moved, e', UpTo(x, c));
    all := moved + e';
    InUpTo(x, c);
    MergedValues(moved, e', |f|);
    if |f| in moved.Values { MovedBelow(e, f, |f|); }
    forall z: nat | |f| < z < |h.events| ensures z in all.Values { MergedValues(moved, e', z); }
  }

  lemma InUpTo(x: Graph, c: nat)
    ensures c in UpTo(x, c)
  {
  }

  lemma MovedParts(e: map<nat, nat>, f: seq<nat>)
    requires forall a :: a in e ==> e[a] in f
    ensures Moved(e, f).Keys == e.Keys && forall a :: a in e ==> Moved(e, f)[a] == IndexOf(f, e[a])
  {
  }

  lemma MovedBelow(e: map<nat, nat>, f: seq<nat>, y: nat)
    requires (forall a :: a in e ==> e[a] in f) && y in Moved(e, f).Values
    ensures y < |f|
  {
  }

  lemma NoBlocksIn(x: Graph, d: set<nat>)
    requires ClosedIn(x, d)
    ensures forall a :: a in d ==> a < |x.events| && !IsBlock(x, a)
  {
  }

  // ----- the receive was to be performed -----

  /** One more copy: the event at `n`. */
  lemma AddCopy(h: Graph, x: Graph, e: map<nat, nat>, b: nat, n: nat)
    requires Copies(h, x, e) && b !in e && b < |x.events| && n < |h.events| && SameEvent(h.events[n], x.events[b])
    requires (forall a: nat :: PorfEdge(x, a, b) ==> a in e) && (forall a: nat :: Po(x, a, b) && a in e ==> e[a] < n)
    requires forall z: nat :: Po(h, z, n) ==> z in e.Values
    requires b in x.rf ==> (x.rf[b].From? ==> x.rf[b].send in e) && n in h.rf && h.rf[n] == ImageOf(e, x.rf[b])
    ensures Copies(h, x, e[b := n])
  {
    hide SameEvent, Copies, Po, PorfEdge;
    var e': map<nat, nat> := e[b := n];
    NewValues(e, b, n);
    CopiesInside(h, x, e);
    forall k | k in e' ensures SameEvent(h.events[e'[k]], x.events[k]) {
      if k != b { CopiedEvent(h, x, e, k); }
    }
    forall i, j | i in e' && j in e' && Po(x, i, j) ensures e'[i] < e'[j] {
      PoIsEdge(x, i, j);
      if j != b { CopiedBefore(h, x, e, i, j); }
    }
    forall j, y: nat | j in e' && Po(h, y, e'[j]) ensures y in e'.Values {
      if j != b { CopiedDown(h, x, e, y, j); }
    }
    forall i: nat, j: nat | j in e' && PorfEdge(x, i, j) ensures i in e' {
      if j != b { CopiesClosed(h, x, e, i, j); }
    }
    forall j | j in e' && j in x.rf
      ensures (x.rf[j].From? ==> x.rf[j].send in e') && e'[j] in h.rf && h.rf[e'[j]] == ImageOf(e', x.rf[j])
    {
      if j != b { CopiedSourceOf(h, x, e, j); }
    }
    MakeCopies(h, x, e');
  }

  lemma PoIsEdge(x: Graph, a: nat, b: nat)
    requires Po(x, a, b)
    ensures PorfEdge(x, a, b)
  {
  }

  /** Apart from the new receive everything new is a copy, so nobody has overstepped. */
  lemma TracksJoined(g: Graph, h: Graph, f: seq<nat>, x: Graph, d: set<nat>, e: map<nat, nat>, e': map<nat, nat>)
    requires Tracks(g, x, d, e) && Grown(g, h, f) && Carries(e, e', f) && Copies(h, x, e') && e'.Keys <= d
    requires forall z: nat :: |f| < z < |h.events| ==> z in e'.Values
    requires |f| < |h.events|
    requires |f| in e'.Values || forall a :: a in d && x.events[a].thread == h.events[|f|].thread ==> a in e
    ensures Tracks(h, x, d, e')
  {
    hide Copies;
    CarriedParts(e, e', f);
    forall y: nat, a: nat | y < |h.events| && !IsBlock(h, y) && y !in e'.Values && a in d
                            && x.events[a].thread == h.events[y].thread
      ensures a in e'
    {
      if y < |f| { CarriedValue(e, e', f, y); }
    }
  }

  lemma PrefixOfNew(g: Graph, h: Graph, f: seq<nat>, x: Graph, d: set<nat>, e: map<nat, nat>, e': map<nat, nat>,
                    b: nat, z: nat)
    requires Tracks(g, x, d, e) && Grown(g, h, f) && Carries(e, e', f) && Waits(x, d, e, b) && b < |x.events|
    requires |f| < |h.events| && h.events[|f|].thread == x.events[b].thread && Po(h, z, |f|)
    requires forall y: nat :: y < |g.events| && g.events[y].thread == x.events[b].thread ==> !IsBlock(g, y)
    ensures z in e'.Values
  {
    hide Copies;
    OnlyCopiesInThread(g, x, d, e, b, f[z]);
    CarriedValue(e, e', f, z);
  }

  /** The receive that came next was `b`, and `b` reads `c`. */
  lemma WaitingRedirected(cfg: Config, x: Graph, p: set<nat>, d: set<nat>, g: Graph, e: map<nat, nat>, depth: nat,
                          t: ThreadId, op: Label, b: nat, c: nat, h: Graph, f: seq<nat>, e': map<nat, nat>, depth': nat)
      returns (all: map<nat, nat>)
    requires Situation(cfg, x, p, d, g, e, depth) && c in p && c !in e && NextEvent(cfg, g) == Next(t, op)
    requires Redirected(cfg, x, g, Within(e, UpTo(x, c)), depth, t, op, c, h, f, e', depth')
    requires b in p && b < |x.events| && x.events[b] == Event(t, op) && Waits(x, d, e, b) && Reads(x, b, c)
    ensures Advances(cfg, x, p, d, g, e, depth, h, f, all, depth')
  {
    hide Below, Copies, Grown, Carries, Tracks, ClosedIn, Unhindered, NextEvent, Good, EngineStep, Past, Waits, UpTo,
         Within, CanonAt, Joint, Redirected;
    RedirectedParts(cfg, x, g, Within(e, UpTo(x, c)), depth, t, op, c, h, f, e', depth');
    GoodParts(cfg, x);
    var most := Joins(cfg, x, d, g, e, depth, t, op, c, h, f, e', depth');
    all := most[b := |f|];
    PastInside(x, p, c);
    WaitingIsNoBlock(x, d, e, b);
    WaitingNotInPast(x, c, b);
    JointParts(x, e, c, h, f, most);
    JointPerforms(cfg, x, d, g, e, depth, t, op, b, c, h, f, most);
    AddCarries(e, most, f, b);
    AddKey(most, b, |f|, p);
    NewAreCopies(x, e, c, h, f, most, b, all);
    TracksJoined(g, h, f, x, d, e, all);
  }

  lemma NewAreCopies(x: Graph, e: map<nat, nat>, c: nat, h: Graph, f: seq<nat>, most: map<nat, nat>, b: nat,
                    all: map<nat, nat>)
    requires Joint(x, e, c, h, f, most) && b !in most && all == most[b := |f|]
    ensures forall z: nat :: |f| <= z < |h.events| ==> z in all.Values
  {
    hide Copies, Carries, UpTo;
    forall z: nat | |f| <= z < |h.events| ensures z in all.Values {
      if z == |f| {
        assert all[b] == z;
      } else {
        var a := CopyAt(most, z);
        assert all[a] == z;
      }
    }
  }

  lemma AddKey(e: map<nat, nat>, b: nat, n: nat, p: set<nat>)
    requires e.Keys <= p && b in p
    ensures e[b := n].Keys <= p
  {
  }

  lemma JointParts(x: Graph, e: map<nat, nat>, c: nat, h: Graph, f: seq<nat>, all: map<nat, nat>)
    requires Joint(x, e, c, h, f, all)
    ensures Copies(h, x, all) && Carries(e, all, f) && all.Keys == e.Keys + UpTo(x, c) && |f| < |h.events|
  {
  }

  lemma RedirectedParts(cfg: Config, x: Graph, g: Graph, e: map<nat, nat>, depth: nat, t: ThreadId, op: Label, s: nat,
                        h: Graph, f: seq<nat>, e': map<nat, nat>, depth': nat)
    requires Redirected(cfg, x, g, e, depth, t, op, s, h, f, e', depth')
    ensures Below(cfg, h, depth') && depth < depth' && Grown(g, h, f)
    ensures |f| < |h.events| && h.events[|f|] == Event(t, op)
  {
  }

  lemma JointPerforms(cfg: Config, x: Graph, d: set<nat>, g: Graph, e: map<nat, nat>, depth: nat,
                      t: ThreadId, op: Label, b: nat, c: nat, h: Graph, f: seq<nat>, most: map<nat, nat>)
    requires Below(cfg, g, depth) && NextEvent(cfg, g) == Next(t, op)
    requires Tracks(g, x, d, e) && Grown(g, h, f) && Joint(x, e, c, h, f, most) && h.events[|f|] == Event(t, op)
    requires b < |x.events| && x.events[b] == Event(t, op) && Waits(x, d, e, b) && Reads(x, b, c) && b !in most
    ensures Copies(h, x, most[b := |f|])
  {
    hide Below, Copies, Grown, Carries, Tracks, NextEvent, Good, EngineStep, Past, Waits, UpTo, Po, PorfEdge;
    GoodEndpoints(cfg, g, depth);
    NextSteps(cfg, g);
    NextHasNoBlock(cfg, g, t, op);
    forall a: nat | PorfEdge(x, a, b) ensures a in most && (Po(x, a, b) ==> most[a] < |f|) {
      WaitingEdge(x, d, e, a, b, c);
      if a in e { CarriedAt(e, most, f, a); }
    }
    forall a: nat | Po(x, a, b) && a in most ensures most[a] < |f| { PoIsEdge(x, a, b); }
    forall z: nat | Po(h, z, |f|) ensures z in most.Values { PrefixOfNew(g, h, f, x, d, e, most, b, z); }
    AddCopy(h, x, most, b, |f|);
  }

  lemma CarriedAt(e: map<nat, nat>, e': map<nat, nat>, f: seq<nat>, a: nat)
    requires Carries(e, e', f) && a in e
    ensures a in e' && e'[a] < |f| && f[e'[a]] == e[a]
  {
  }

  lemma AddCarries(e: map<nat, nat>, e': map<nat, nat>, f: seq<nat>, b: nat)
    requires Carries(e, e', f) && b !in e'
    ensures Carries(e, e'[b := |f|], f)
  {
  }

  lemma WaitingNotInPast(x: Graph, c: nat, b: nat)
    requires CausallyAcyclic(x) && WellFormed(x) && Reads(x, b, c)
    ensures b !in UpTo(x, c)
  {
    assert GoodRead(x, b);
    PorfStep(x, c, b);
    if b in Past(x, c) {
      PastMember(x, c, b);
      PorfTransitive(x, b, c, b);
    }
    SelfIsNotPast(x, b);
  }

  lemma WaitingEdge(x: Graph, d: set<nat>, e: map<nat, nat>, a: nat, b: nat, c: nat)
    requires Waits(x, d, e, b) && Reads(x, b, c) && PorfEdge(x, a, b)
    ensures a in e || a == c
    ensures Po(x, a, b) ==> a in e
  {
  }

  // ----- the receive was done beside it -----

  /** The send was the first the receive could take, those still to come included. */
  ghost predicate FirstChoice(g: Graph, x: Graph, p: set<nat>, e: map<nat, nat>, t: ThreadId, op: Label, c: nat)
  {
    && Comes(x, p, e, t, op, c)
    && (forall a: nat :: Comes(x, p, e, t, op, a) && a != c ==> Before(x, c, a))
    && (forall q: nat :: CompatibleUnread(g, t, op, q) ==> x.events[c].thread < g.events[q].thread)
  }

  lemma OpenBefore(g: Graph, h: Graph, f: seq<nat>, x: Graph, p: set<nat>, e: map<nat, nat>, all: map<nat, nat>,
                   t: ThreadId, op: Label, c: nat, q: nat)
    requires Grown(g, h, f) && WellFormed(g) && Copies(h, x, all) && Carries(e, all, f) && all.Keys <= p
    requires |f| < |h.events| && h.events[|f|] == Event(t, op) && c in all && c !in e
    requires FirstChoice(g, x, p, e, t, op, c) && Open(h, all, |f|, q) && q != all[c]
    ensures Before(h, all[c], q)
  {
    assert SameEvent(h.events[all[c]], x.events[c]);
    if q < |f| {
      forall r | r in g.rf ensures g.rf[r] != From(f[q]) {
        if g.rf[r] == From(f[q]) {
          assert GoodRead(g, r);
          var k := KeptEvent(g, h, f, r);
          GrownReads(g, h, f, k, q);
        }
      }
      assert CompatibleUnread(g, t, op, f[q]);
    } else {
      var a := CopyAt(all, q);
      assert SameEvent(h.events[q], x.events[a]);
      assert Comes(x, p, e, t, op, a);
      if x.events[a].thread == x.events[c].thread { CopiesOrder(h, x, all, c, a); }
    }
  }

  lemma RedirectedIsFirst(g: Graph, h: Graph, f: seq<nat>, x: Graph, p: set<nat>, e: map<nat, nat>, all: map<nat, nat>,
                          t: ThreadId, op: Label, c: nat)
    requires Grown(g, h, f) && WellFormed(g) && Copies(h, x, all) && Carries(e, all, f) && all.Keys <= p
    requires |f| < |h.events| && h.events[|f|] == Event(t, op) && c in all && c !in e
    requires FirstChoice(g, x, p, e, t, op, c)
    ensures First(h, x, p, all, |f|, all[c])
  {
    hide Open, Grown, WellFormed, Carries, Copies;
    CopiedEvent(h, x, all, c);
    CarriedParts(e, all, f);
    assert all[c] in all.Values;
    forall q: nat | Open(h, all, |f|, q) && q != all[c] ensures Before(h, all[c], q) {
      OpenBefore(g, h, f, x, p, e, all, t, op, c, q);
    }
    forall a: nat | Comes(x, p, all, t, op, a) ensures a < |x.events| && h.events[all[c]].thread <= x.events[a].thread {
      assert Comes(x, p, e, t, op, a);
    }
  }

  /** The receive that came next took the first send there is or will be. */
  lemma ExtraRedirected(cfg: Config, x: Graph, p: set<nat>, d: set<nat>, g: Graph, e: map<nat, nat>, depth: nat,
                        t: ThreadId, op: Label, c: nat, h: Graph, f: seq<nat>, e': map<nat, nat>, depth': nat)
      returns (all: map<nat, nat>)
    requires Situation(cfg, x, p, d, g, e, depth) && NextEvent(cfg, g) == Next(t, op)
    requires op.Receive? && op.blocking && FirstChoice(g, x, p, e, t, op, c)
    requires Redirected(cfg, x, g, Within(e, UpTo(x, c)), depth, t, op, c, h, f, e', depth')
    requires forall a :: a in d && a < |x.events| && x.events[a].thread == t ==> a in e
    ensures Advances(cfg, x, p, d, g, e, depth, h, f, all, depth') && |f| !in all.Values
    ensures |f| < |h.events| && h.events[|f|] == Event(t, op)
  {
    hide Below, Copies, Grown, Carries, Tracks, ClosedIn, Unhindered, NextEvent, Good, Past, UpTo, Within, Redirected,
         FirstChoice, First, WellFormed;
    GoodParts(cfg, x);
    GoodEndpoints(cfg, g, depth);
    RedirectedParts(cfg, x, g, Within(e, UpTo(x, c)), depth, t, op, c, h, f, e', depth');
    all := Joins(cfg, x, d, g, e, depth, t, op, c, h, f, e', depth');
    ChoiceComes(g, x, p, e, t, op, c);
    PastInside(x, p, c);
    RedirectedIsFirst(g, h, f, x, p, e, all, t, op, c);
    TracksInside(g, x, d, e);
    TracksJoined(g, h, f, x, d, e, all);
  }

  lemma ChoiceComes(g: Graph, x: Graph, p: set<nat>, e: map<nat, nat>, t: ThreadId, op: Label, c: nat)
    requires FirstChoice(g, x, p, e, t, op, c)
    ensures c in p && c !in e && IsSend(x, c) && x.events[c].op.destination == t && op.Receive?
    ensures op.matches(x.events[c].op.value)
  {
  }
}
