/** What a search does on the side while it works towards a send: the choices that let a revisit drop it again. */
module Canonical {
  import opened Events
  import opened Reachability
  import opened Consistency
  import opened Subgraphs
  import opened Replay
  import opened Revisits
  import opened Invariants
  import opened Tracking

  // ----- the causal past of the send that is aimed at -----

  ghost function Past(x: Graph, s: nat): set<nat>
  {
    set a: nat | 0 <= a < |x.events| && Porf(x, a, s)
  }

  lemma PastMember(x: Graph, s: nat, a: nat)
    ensures a in Past(x, s) <==> Porf(x, a, s)
  {
    if Porf(x, a, s) { PorfInside(x, a, s); }
  }

  lemma PastClosed(p: Program, x: Graph, s: nat)
    requires Shaped(p, x) && WellFormed(x) && CausallyAcyclic(x) && IsSend(x, s)
    ensures s !in Past(x, s) && ClosedIn(x, Past(x, s)) && ClosedIn(x, Past(x, s) + {s})
  {
    hide Porf, Shaped, WellFormed;
    PastMember(x, s, s);
    SelfIsNotPast(x, s);
    forall a: nat, b: nat | (b in Past(x, s) || b == s) && PorfEdge(x, a, b) ensures a in Past(x, s) {
      PastMember(x, s, b);
      PorfPrefixIsClosed(x, a, b, s);
      PastMember(x, s, a);
    }
    forall a | a in Past(x, s) ensures !IsBlock(x, a) {
      PastMember(x, s, a);
      CauseIsNoBlock(p, x, a, s);
    }
  }

  lemma SelfIsNotPast(x: Graph, s: nat)
    requires CausallyAcyclic(x)
    ensures !Porf(x, s, s)
  {
  }

  lemma CauseIsNoBlock(p: Program, x: Graph, a: nat, s: nat)
    requires Shaped(p, x) && WellFormed(x) && Porf(x, a, s)
    ensures !IsBlock(x, a)
  {
    var k: nat :| ReachIn(PorfEdges(x), k, a, s);
    var c: nat :| (a, c) in PorfEdges(x);
    if Reads(x, c, a) { assert GoodRead(x, c); }
  }

  // ----- the past of the send, once appended, is what was copied -----

  /** `w` has performed exactly the past of `s`, whose thread comes next. */
  ghost predicate Primed(w: Graph, x: Graph, s: nat, e: map<nat, nat>)
  {
    && Copies(w, x, e) && e.Keys == Past(x, s) && IsSend(x, s)
    && WellFormed(w) && WellFormed(x) && ReadsTotal(x) && CausallyAcyclic(x)
    && (forall y: nat :: y < |w.events| && w.events[y].thread == x.events[s].thread ==> y in e.Values)
  }

  ghost function Sent(w: Graph, x: Graph, s: nat): Graph
  {
    if s < |x.events| then AddEvent(w, x.events[s].thread, x.events[s].op) else w
  }

  lemma CopiedEdge(w: Graph, x: Graph, s: nat, e: map<nat, nat>, a: nat, b: nat)
    requires Primed(w, x, s, e) && a in e && (b in e || b == s) && PorfEdge(x, a, b)
    ensures PorfEdge(Sent(w, x, s), e[a], if b in e then e[b] else |w.events|)
  {
    assert SameEvent(w.events[e[a]], x.events[a]);
    OnlyReceivesRead(x, s);
    if b in e {
      assert SameEvent(w.events[e[b]], x.events[b]);
      if Po(x, a, b) {
        assert e[a] < e[b];
      } else {
        assert w.rf[e[b]] == ImageOf(e, x.rf[b]);
      }
    }
  }

  lemma {:induction false} CopiedPath(w: Graph, x: Graph, s: nat, e: map<nat, nat>, k: nat, a: nat)
    requires Primed(w, x, s, e) && ReachIn(PorfEdges(x), k, a, s)
    ensures a in e && Porf(Sent(w, x, s), e[a], |w.events|)
    decreases k
  {
    hide Primed, Sent, Porf;
    PathIsPast(x, k, a, s);
    var h := Sent(w, x, s);
    PrimedKeys(w, x, s, e);
    if k == 0 {
      CopiedEdge(w, x, s, e, a, s);
      PorfStep(h, e[a], |w.events|);
    } else {
      var c: nat :| (a, c) in PorfEdges(x) && ReachIn(PorfEdges(x), k - 1, c, s);
      CopiedPath(w, x, s, e, k - 1, c);
      CopiedEdge(w, x, s, e, a, c);
      PorfPrefixIsClosed(h, e[a], e[c], |w.events|);
    }
  }

  lemma PathIsPast(x: Graph, k: nat, a: nat, s: nat)
    requires ReachIn(PorfEdges(x), k, a, s)
    ensures a in Past(x, s) && Porf(x, a, s)
  {
    assert Porf(x, a, s);
    PastMember(x, s, a);
  }

  lemma PrimedKeys(w: Graph, x: Graph, s: nat, e: map<nat, nat>)
    requires Primed(w, x, s, e)
    ensures e.Keys == Past(x, s) && forall a :: a in e ==> e[a] < |w.events| && a < |x.events|
    ensures s !in e
  {
    PastMember(x, s, s);
    SelfIsNotPast(x, s);
  }

  /** What leads to a copy is a copy. */
  lemma EdgeIntoCopy(w: Graph, x: Graph, s: nat, e: map<nat, nat>, y: nat, z: nat)
    requires Primed(w, x, s, e) && PorfEdge(Sent(w, x, s), y, z) && (z in e.Values || z == |w.events|)
    ensures y in e.Values
  {
    var h := Sent(w, x, s);
    OnlyReceivesRead(w, |w.events|);
    if z != |w.events| {
      var b := CopyAt(e, z);
      assert SameEvent(w.events[z], x.events[b]);
      if Po(h, y, z) {
        assert Po(w, y, z);
      } else {
        assert GoodRead(w, z);
        assert IsReceive(x, b);
        assert w.rf[z] == ImageOf(e, x.rf[b]);
      }
    }
  }

  lemma {:induction false} PathIntoCopy(w: Graph, x: Graph, s: nat, e: map<nat, nat>, k: nat, y: nat, z: nat)
    requires Primed(w, x, s, e) && ReachIn(PorfEdges(Sent(w, x, s)), k, y, z) && (z in e.Values || z == |w.events|)
    ensures y in e.Values
    decreases k
  {
    hide Primed, Sent;
    var r := PorfEdges(Sent(w, x, s));
    if k == 0 {
      EdgeIntoCopy(w, x, s, e, y, z);
    } else {
      var c: nat :| (y, c) in r && ReachIn(r, k - 1, c, z);
      PathIntoCopy(w, x, s, e, k - 1, c, z);
      EdgeIntoCopy(w, x, s, e, y, c);
    }
  }

  /** The causal past of the appended send is what was copied. */
  lemma PastOfSent(w: Graph, x: Graph, s: nat, e: map<nat, nat>, y: nat)
    requires Primed(w, x, s, e)
    ensures Porf(Sent(w, x, s), y, |w.events|) <==> y in e.Values
  {
    hide Primed, Sent;
    if Porf(Sent(w, x, s), y, |w.events|) {
      var k: nat :| ReachIn(PorfEdges(Sent(w, x, s)), k, y, |w.events|);
      PathIntoCopy(w, x, s, e, k, y, |w.events|);
    }
    if y in e.Values {
      var a := CopyAt(e, y);
      PrimedKeys(w, x, s, e);
      PastMember(x, s, a);
      var k: nat :| ReachIn(PorfEdges(x), k, a, s);
      CopiedPath(w, x, s, e, k, a);
    }
  }

  // ----- canonical side steps -----

  /** A send aimed at that is still to come and that a receive of thread `t` would take. */
  ghost predicate Comes(x: Graph, p: set<nat>, e: map<nat, nat>, t: ThreadId, op: Label, a: nat)
  {
    && a in p && a !in e && IsSend(x, a) && x.events[a].op.destination == t
    && op.Receive? && op.matches(x.events[a].op.value)
  }

  /** A send receive `z` could take: there before it, or a copy, and not taken by anything before `z`. */
  ghost predicate Open(g: Graph, e: map<nat, nat>, z: nat, q: nat)
  {
    && Accepts(g, z, q) && g.events[q].op.destination == g.events[z].thread && (q < z || q in e.Values)
    && forall r: nat :: Reads(g, r, q) ==> r >= z
  }

  /** Receive `z` took the first of the sends it could take, those still to come included. */
  ghost predicate First(g: Graph, x: Graph, p: set<nat>, e: map<nat, nat>, z: nat, c: nat)
  {
    && z < |g.events| && c < |g.events| && (c < z || c in e.Values)
    && (forall q: nat :: Open(g, e, z, q) && q != c ==> Before(g, c, q))
    && (forall a: nat :: Comes(x, p, e, g.events[z].thread, g.events[z].op, a) ==>
          a < |x.events| && g.events[c].thread <= x.events[a].thread)
  }

  ghost predicate CanonAt(g: Graph, x: Graph, p: set<nat>, e: map<nat, nat>, z: nat)
  {
    z < |g.events| &&
    match g.events[z].op
    case Receive(blocking, _) =>
      z in g.rf && if blocking then g.rf[z].From? && First(g, x, p, e, z, g.rf[z].send) else g.rf[z].Bottom?
    case Choice(chosen, choices) => choices == [] || chosen == Least(choices)
    case _ => forall r: nat :: Reads(g, r, z) ==> z < r
  }

  // ----- canonical steps stay canonical -----

  lemma OpenKept(g: Graph, h: Graph, f: seq<nat>, e: map<nat, nat>, e': map<nat, nat>, i: nat, q: nat)
    requires Grown(g, h, f) && Carries(e, e', f) && WellFormed(g) && i < |f| && q < |f| && Open(h, e', i, q)
    ensures Open(g, e, f[i], f[q])
  {
    CarriedValue(e, e', f, q);
    AscendingInjective(f, q, i);
    forall r: nat | Reads(g, r, f[q]) ensures r >= f[i] {
      assert GoodRead(g, r);
      var k := KeptEvent(g, h, f, r);
      GrownReads(g, h, f, k, q);
      AscendingInjective(f, k, i);
    }
  }

  lemma FirstKept(g: Graph, h: Graph, f: seq<nat>, x: Graph,
                  p: set<nat>, e: map<nat, nat>, e': map<nat, nat>, i: nat, c: nat)
    requires Grown(g, h, f) && Carries(e, e', f) && WellFormed(g) && Copies(h, x, e') && e'.Keys <= p
    requires i < |f| && c < |f| && First(g, x, p, e, f[i], f[c])
    ensures First(h, x, p, e', i, c)
  {
    hide Grown, Copies, Carries, Open, Comes, WellFormed;
    GrownEvent(g, h, f, i);
    GrownEvent(g, h, f, c);
    AscendingInjective(f, c, i);
    CarriedValue(e, e', f, c);
    forall q: nat | Open(h, e', i, q) && q != c ensures Before(h, c, q) {
      FirstStays(g, h, f, x, p, e, e', i, c, q);
    }
    forall a: nat | Comes(x, p, e', h.events[i].thread, h.events[i].op, a)
      ensures a < |x.events| && h.events[c].thread <= x.events[a].thread
    {
      StillComes(x, p, e, e', f, h.events[i].thread, h.events[i].op, a);
    }
  }

  lemma GrownEvent(g: Graph, h: Graph, f: seq<nat>, i: nat)
    requires Grown(g, h, f) && i < |f|
    ensures Ascending(f) && i < |h.events| && f[i] < |g.events| && h.events[i] == g.events[f[i]]
  {
  }

  lemma StillComes(x: Graph, p: set<nat>,
                   e: map<nat, nat>, e': map<nat, nat>, f: seq<nat>, t: ThreadId, op: Label, a: nat)
    requires Carries(e, e', f) && Comes(x, p, e', t, op, a)
    ensures Comes(x, p, e, t, op, a)
  {
  }

  lemma FirstStays(g: Graph, h: Graph, f: seq<nat>, x: Graph,
                   p: set<nat>, e: map<nat, nat>, e': map<nat, nat>, i: nat, c: nat, q: nat)
    requires Grown(g, h, f) && Carries(e, e', f) && WellFormed(g) && Copies(h, x, e') && e'.Keys <= p
    requires i < |f| && c < |f| && First(g, x, p, e, f[i], f[c]) && Open(h, e', i, q) && q != c
    ensures Before(h, c, q)
  {
    hide Grown, Copies, Carries, Open, Comes, WellFormed;
    GrownEvent(g, h, f, i);
    GrownEvent(g, h, f, c);
    if q < |f| {
      GrownEvent(g, h, f, q);
      OpenKept(g, h, f, e, e', i, q);
      AscendingInjective(f, c, q);
    } else {
      var a := OpenIsNew(g, h, f, x, p, e, e', i, q);
    }
  }

  lemma CarriedParts(e: map<nat, nat>, e': map<nat, nat>, f: seq<nat>)
    requires Carries(e, e', f)
    ensures e.Keys <= e'.Keys
  {
  }

  /** A new send that is open is one that was still to come. */
  lemma OpenIsNew(g: Graph, h: Graph, f: seq<nat>, x: Graph,
                  p: set<nat>, e: map<nat, nat>, e': map<nat, nat>, i: nat, q: nat)
      returns (a: nat)
    requires Grown(g, h, f) && Carries(e, e', f) && Copies(h, x, e') && e'.Keys <= p
    requires i < |f| <= q && Open(h, e', i, q)
    ensures q < |h.events| && a < |x.events| && h.events[q].thread == x.events[a].thread
    ensures Comes(x, p, e, h.events[i].thread, h.events[i].op, a)
  {
    a := CopyAt(e', q);
    assert a !in e;
    assert SameEvent(h.events[q], x.events[a]);
    assert Comes(x, p, e, h.events[i].thread, h.events[i].op, a);
  }

  lemma CanonKept(g: Graph, h: Graph, f: seq<nat>, x: Graph, p: set<nat>, e: map<nat, nat>, e': map<nat, nat>, i: nat)
    requires Grown(g, h, f) && Carries(e, e', f) && WellFormed(g) && WellFormed(h) && Copies(h, x, e') && e'.Keys <= p
    requires i < |f| && CanonAt(g, x, p, e, f[i])
    ensures CanonAt(h, x, p, e', i)
  {
    hide First, Copies, Carries, WellFormed;
    assert h.events[i] == g.events[f[i]];
    match h.events[i].op
    case Receive(blocking, _) =>
      assert SourceMoved(f, g.rf[f[i]], h.rf[i]);
      if blocking { FirstKept(g, h, f, x, p, e, e', i, h.rf[i].send); }
    case Choice(_, _) =>
    case _ =>
      forall r: nat | Reads(h, r, i) ensures i < r {
        if r < |f| {
          GrownReads(g, h, f, r, i);
          AscendingInjective(f, r, i);
        }
      }
  }

  // ----- what is canonical meets the revisit condition -----

  lemma SentParts(w: Graph, x: Graph, s: nat, e: map<nat, nat>)
    requires Primed(w, x, s, e)
    ensures Sent(w, x, s).events == w.events + [Event(x.events[s].thread, x.events[s].op)] && Sent(w, x, s).rf == w.rf
    ensures IsSend(Sent(w, x, s), |w.events|)
  {
  }

  lemma PreviousOfSent(w: Graph, x: Graph, s: nat, e: map<nat, nat>, z: nat, y: nat)
    requires Primed(w, x, s, e) && z < |w.events|
    ensures InPrevious(Sent(w, x, s), z, |w.events|, y) <==> y <= z || y in e.Values
  {
    hide Primed, Porf, Sent;
    SentParts(w, x, s, e);
    PastOfSent(w, x, s, e, y);
    PrimedKeys(w, x, s, e);
    if y in e.Values { var a := CopyAt(e, y); }
  }

  lemma CandidateIsOpen(w: Graph, x: Graph, s: nat, e: map<nat, nat>, z: nat, q: nat)
    requires Primed(w, x, s, e) && z < |w.events|
    requires Candidate(Sent(w, x, s), PreviousMask(Sent(w, x, s), z, |w.events|), z, q) && !Reads(w, z, q)
    ensures Open(w, e, z, q)
  {
    hide Primed, Sent, InPrevious, PreviousMask;
    var h := Sent(w, x, s);
    SentParts(w, x, s, e);
    PrimedKeys(w, x, s, e);
    PreviousOfSent(w, x, s, e, z, q);
    if q in e.Values { var a := CopyAt(e, q); }
    forall r: nat | Reads(w, r, q) ensures r >= z {
      PreviousOfSent(w, x, s, e, z, r);
    }
  }

  lemma CanonicalSource(w: Graph, x: Graph, s: nat, e: map<nat, nat>, z: nat, m: CommunicationModel)
    requires Primed(w, x, s, e) && Consistent(w, m) && z < |w.events|
    requires z in w.rf && w.rf[z].From? && First(w, x, Past(x, s), e, z, w.rf[z].send)
    ensures var h := Sent(w, x, s);
            && InPrevious(h, z, |w.events|, w.rf[z].send)
            && IsTiebreaker(h, PreviousMask(h, z, |w.events|), z, m, w.rf[z].send)
  {
    hide Primed, Sent, InPrevious, PreviousMask, Consistent, Past, Candidate, Open, MaskedClauses;
    var h, n, c := Sent(w, x, s), |w.events|, w.rf[z].send;
    var keep := PreviousMask(h, z, n);
    SentParts(w, x, s, e);
    SentConsistent(w, x, s, e, m);
    PreviousOfSent(w, x, s, e, z, c);
    CurrentSourceIsAcceptable(h, z, n, m);
    forall q: nat | Acceptable(h, keep, z, m, q) && q != c ensures Before(h, c, q) {
      CandidateIsOpen(w, x, s, e, z, q);
    }
  }

  lemma SentConsistent(w: Graph, x: Graph, s: nat, e: map<nat, nat>, m: CommunicationModel)
    requires Primed(w, x, s, e) && Consistent(w, m)
    ensures Consistent(Sent(w, x, s), m)
  {
    hide Consistent;
    AppendConsistent(w, x.events[s].thread, x.events[s].op, m);
  }

  lemma UncopiedReader(w: Graph, x: Graph, e: map<nat, nat>, z: nat, r: nat)
    requires Copies(w, x, e) && ReadsTotal(x) && WellFormed(w) && Reads(w, r, z)
    ensures r in e.Values ==> z in e.Values
  {
    if r in e.Values {
      var b := CopyAt(e, r);
      assert GoodRead(w, r);
      assert SameEvent(w.events[r], x.events[b]);
      assert IsReceive(x, b);
      CopiedSourceOf(w, x, e, b);
    }
  }

  lemma PrimedParts(w: Graph, x: Graph, s: nat, e: map<nat, nat>)
    requires Primed(w, x, s, e)
    ensures Copies(w, x, e) && ReadsTotal(x) && WellFormed(w) && WellFormed(x)
  {
  }

  /** Everything done on the side meets the revisit condition of the send. */
  lemma CanonMeets(w: Graph, x: Graph, s: nat, e: map<nat, nat>, z: nat, m: CommunicationModel)
    requires Primed(w, x, s, e) && Consistent(w, m) && z !in e.Values && CanonAt(w, x, Past(x, s), e, z)
    ensures z < |Sent(w, x, s).events| && RevisitCondition(Sent(w, x, s), z, |w.events|, m)
  {
    hide Primed, Sent, Consistent, First, IsTiebreaker, InPrevious, Past;
    SentParts(w, x, s, e);
    match w.events[z].op
    case Receive(blocking, _) =>
      if blocking { CanonicalSource(w, x, s, e, z, m); }
    case Choice(_, _) =>
    case _ =>
      var h := Sent(w, x, s);
      PrimedParts(w, x, s, e);
      forall r: nat | IsReceive(h, r) && Reads(h, r, z) ensures !InPrevious(h, z, |w.events|, r) {
        assert Reads(w, r, z);
        UncopiedReader(w, x, e, z, r);
        PreviousOfSent(w, x, s, e, z, r);
      }
  }
}
