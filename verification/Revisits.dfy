/** Backward revisits: which receives a fresh send may redirect, and the graph each redirection yields. */
module Revisits {
  import opened Events
  import opened Reachability
  import opened Consistency
  import opened Subgraphs
  import opened Replay

  /** A keep mask: one flag per event. */
  type Mask = seq<bool>

  predicate Keeps(keep: Mask, x: nat)
  {
    x < |keep| && keep[x]
  }

  /** The kept ids below `n`, ascending. */
  function KeptBelow(keep: Mask, n: nat): (ids: seq<nat>)
    requires n <= |keep|
    ensures forall i, j :: 0 <= i < j < |ids| ==> ids[i] < ids[j]
    ensures forall x :: x in ids <==> 0 <= x < n && keep[x]
  {
    if n == 0 then []
    else
      var ids := KeptBelow(keep, n - 1);
      assert forall i :: 0 <= i < |ids| ==> ids[i] in ids;
      if keep[n - 1] then ids + [n - 1] else ids
  }

  function KeptIds(keep: Mask): (ids: seq<nat>)
    ensures Ascending(ids)
    ensures forall x :: x in ids <==> Keeps(keep, x)
    ensures forall i :: 0 <= i < |ids| ==> Keeps(keep, ids[i])
  {
    var ids := KeptBelow(keep, |keep|);
    assert forall i :: 0 <= i < |ids| ==> ids[i] in ids;
    ids
  }

  /** The graph rebuilt from the kept events alone, ids renumbered densely. */
  function Restrict(g: Graph, keep: Mask): Graph
    requires |keep| == |g.events|
  {
    Copy(g, KeptIds(keep))
  }

  lemma RestrictIsSubgraph(g: Graph, keep: Mask)
    requires |keep| == |g.events|
    ensures Subgraph(Restrict(g, keep), g, KeptIds(keep))
  {
    CopyIsSubgraph(g, KeptIds(keep));
  }

  // ----- Previous and the tiebreaker -----

  /** Previous(e, s): inserted no later than `e`, or causally before `s`. */
  ghost predicate InPrevious(g: Graph, e: nat, s: nat, x: nat)
  {
    x < |g.events| && (x <= e || Porf(g, x, s))
  }

  ghost function PreviousMask(g: Graph, e: nat, s: nat): (keep: Mask)
    ensures |keep| == |g.events|
    ensures forall x: nat :: Keeps(keep, x) <==> InPrevious(g, e, s, x)
  {
    seq(|g.events|, (x: nat) => InPrevious(g, e, s, x))
  }

  ghost function MaskedEdges(g: Graph, keep: Mask): Relation
  {
    iset e: (nat, nat) | Keeps(keep, e.0) && Keeps(keep, e.1) && PorfEdge(g, e.0, e.1)
  }

  predicate MaskedUnread(g: Graph, keep: Mask, s: nat)
  {
    && IsSend(g, s) && Keeps(keep, s)
    && forall r :: r in g.rf && Keeps(keep, r) ==> g.rf[r] != From(s)
  }

  /** A send `recv` may be bound to: unread among the kept events, or the one it reads already. */
  predicate Candidate(g: Graph, keep: Mask, recv: nat, s: nat)
  {
    && IsReceive(g, recv) && IsSend(g, s) && Keeps(keep, s)
    && g.events[s].op.destination == g.events[recv].thread
    && Accepts(g, recv, s)
    && (MaskedUnread(g, keep, s) || Reads(g, recv, s))
  }

  predicate MaskedSkips(g: Graph, keep: Mask, early: nat, late: nat, r: nat)
  {
    && Keeps(keep, late) && Keeps(keep, r)
    && SameChannel(g, early, late) && Reads(g, r, late) && MaskedUnread(g, keep, early) && Accepts(g, r, early)
  }

  predicate MaskedOvertakes(g: Graph, keep: Mask, early: nat, late: nat, r: nat, q: nat)
  {
    && Keeps(keep, early) && Keeps(keep, late) && Keeps(keep, r) && Keeps(keep, q)
    && Overtakes(g, early, late, r, q)
  }

  ghost predicate MaskedClauses(g: Graph, keep: Mask, m: CommunicationModel)
  {
    m.FifoP2P? ==>
      && (forall early: nat, late: nat, r: nat :: !MaskedSkips(g, keep, early, late, r))
      && (forall early: nat, late: nat, r: nat, q: nat :: !MaskedOvertakes(g, keep, early, late, r, q))
  }

  /** Binding `recv` to `s` keeps the kept part of `g` consistent, judged without rebuilding it. */
  ghost predicate Acceptable(g: Graph, keep: Mask, recv: nat, m: CommunicationModel, s: nat)
  {
    && Candidate(g, keep, recv, s)
    && !Reach(MaskedEdges(g, keep), recv, s)
    && MaskedClauses(SetSource(g, recv, From(s)), keep, m)
  }

  /** Candidate order: sender thread first, then event id. */
  predicate Before(g: Graph, a: nat, b: nat)
  {
    && a < |g.events| && b < |g.events|
    && (g.events[a].thread < g.events[b].thread || (g.events[a].thread == g.events[b].thread && a < b))
  }

  /** `s` is the first acceptable candidate. */
  ghost predicate IsTiebreaker(g: Graph, keep: Mask, recv: nat, m: CommunicationModel, s: nat)
  {
    && Acceptable(g, keep, recv, m, s)
    && forall c: nat :: Acceptable(g, keep, recv, m, c) && c != s ==> Before(g, s, c)
  }

  // ----- the revisit condition -----

  function Least(values: seq<Value>): (v: Value)
    requires values != []
    ensures v in values && forall w :: w in values ==> v <= w
  {
    if |values| == 1 then values[0]
    else
      var last, v := values[|values| - 1], Least(values[..|values| - 1]);
      assert values == values[..|values| - 1] + [last];
      if last < v then last else v
  }

  /** Of the alternatives of a choice, as an event records them, exactly one meets the revisit condition: the least. */
  lemma OneChoiceMeets(g: Graph, e: nat, s: nat, m: CommunicationModel)
    requires e < |g.events| && g.events[e].op.Choice? && g.events[e].op.choices != []
    ensures RevisitCondition(g, e, s, m) <==>
            && g.events[e].op.chosen in g.events[e].op.choices
            && forall v :: v in g.events[e].op.choices ==> g.events[e].op.chosen <= v
    ensures exists v :: v in g.events[e].op.choices
                        && RevisitCondition(Rechosen(g, e, v), e, s, m)
                        && forall w :: RevisitCondition(Rechosen(g, e, w), e, s, m) ==> w == v
  {
    var choices := g.events[e].op.choices;
    assert RevisitCondition(Rechosen(g, e, Least(choices)), e, s, m);
  }

  /** The graph with another alternative of choice `e` taken. */
  function Rechosen(g: Graph, e: nat, v: Value): Graph
    requires e < |g.events| && g.events[e].op.Choice?
  {
    g.(events := g.events[e := g.events[e].(op := g.events[e].op.(chosen := v))])
  }

  ghost predicate RevisitCondition(g: Graph, e: nat, s: nat, m: CommunicationModel)
    requires e < |g.events|
  {
    match g.events[e].op
    case Receive(blocking, _) =>
      if !blocking then e in g.rf && g.rf[e].Bottom?
      else
        && e in g.rf && g.rf[e].From?
        && InPrevious(g, e, s, g.rf[e].send)
        && IsTiebreaker(g, PreviousMask(g, e, s), e, m, g.rf[e].send)
    case Choice(chosen, choices) => choices == [] || chosen == Least(choices)
    case _ => forall r: nat :: IsReceive(g, r) && Reads(g, r, e) ==> !InPrevious(g, e, s, r)
  }

  ghost predicate Deleted(g: Graph, recv: nat, s: nat, x: nat)
  {
    x < |g.events| && x != s && recv < x && !Porf(g, x, s)
  }

  ghost function SurvivorMask(g: Graph, recv: nat, s: nat): (keep: Mask)
    ensures |keep| == |g.events|
    ensures forall x: nat :: Keeps(keep, x) <==> x < |g.events| && !Deleted(g, recv, s, x)
  {
    seq(|g.events|, (x: nat) => !Deleted(g, recv, s, x))
  }

  /** Send `s` may redirect receive `recv`. */
  ghost predicate RevisitAllowed(g: Graph, recv: nat, s: nat, m: CommunicationModel)
  {
    && Accepts(g, recv, s)
    && !Porf(g, recv, s)
    && RevisitCondition(g, recv, s, m)
    && (forall x: nat :: Deleted(g, recv, s, x) ==> RevisitCondition(g, x, s, m))
  }

  lemma RestrictedSize(g: Graph, keep: Mask)
    requires |keep| == |g.events|
    ensures |Restrict(g, keep).events| == |KeptIds(keep)|
  {
  }

  /** Everything neither inserted before `recv` nor causally before `s` is dropped; `recv` reads `s`. */
  ghost function RevisitChild(g: Graph, recv: nat, s: nat): Graph
    requires recv < |g.events| && s < |g.events|
  {
    var ids := KeptIds(SurvivorMask(g, recv, s));
    SetSource(Restrict(g, SurvivorMask(g, recv, s)), IndexOf(ids, recv), From(IndexOf(ids, s)))
  }

  // ----- what a revisit keeps -----

  /** A graph that just gained the unread send `s`, and a receive `s` may redirect. */
  ghost predicate FreshRevisit(g: Graph, recv: nat, s: nat, m: CommunicationModel)
  {
    && s + 1 == |g.events| && Unread(g, s) && Consistent(g, m)
    && IsReceive(g, recv) && g.events[s].op.destination == g.events[recv].thread
    && RevisitAllowed(g, recv, s, m)
  }

  lemma SurvivorsPrefixClosed(g: Graph, recv: nat, s: nat)
    requires s + 1 == |g.events|
    ensures PrefixClosed(g, KeptIds(SurvivorMask(g, recv, s)))
  {
    var f := KeptIds(SurvivorMask(g, recv, s));
    forall a: nat, b: nat | Po(g, a, b) && b in f
      ensures a in f
    {
      if recv < a && a != s {
        PorfPrefixIsClosed(g, a, b, s);
      }
    }
  }

  /** No surviving receive reads a dropped send. */
  lemma SurvivorsReadClosed(g: Graph, recv: nat, s: nat, m: CommunicationModel)
    requires FreshRevisit(g, recv, s, m)
    ensures ReadClosed(g, KeptIds(SurvivorMask(g, recv, s)))
  {
    var f := KeptIds(SurvivorMask(g, recv, s));
    forall r | r in f && r in g.rf && g.rf[r].From?
      ensures g.rf[r].send in f
    {
      var d := g.rf[r].send;
      assert GoodRead(g, r);
      if Deleted(g, recv, s, d) {
        assert RevisitCondition(g, d, s, m);
        assert Reads(g, r, d);
        assert false;
      }
    }
  }

  /** The redirected receive ends its thread among the survivors. */
  lemma RevisitedReceiveIsLast(g: Graph, recv: nat, s: nat, x: nat)
    requires s + 1 == |g.events| && recv < s && !Porf(g, recv, s)
    requires Po(g, recv, x)
    ensures Deleted(g, recv, s, x)
  {
    if x == s || Porf(g, x, s) {
      PorfPrefixIsClosed(g, recv, x, s);
    }
  }

  lemma RestrictedRevisitIsConsistent(g: Graph, recv: nat, s: nat, m: CommunicationModel)
    requires FreshRevisit(g, recv, s, m)
    ensures Consistent(Restrict(g, SurvivorMask(g, recv, s)), m)
  {
    var keep := SurvivorMask(g, recv, s);
    RestrictIsSubgraph(g, keep);
    SurvivorsPrefixClosed(g, recv, s);
    SurvivorsReadClosed(g, recv, s, m);
    CausalCopyIsConsistent(Restrict(g, keep), g, KeptIds(keep), m);
  }

  /** Rebinding the last receive of a thread to an unread send it accepts. */
  ghost predicate RebindsLast(h: Graph, i: nat, j: nat)
  {
    && Accepts(h, i, j) && Unread(h, j)
    && h.events[j].op.destination == h.events[i].thread
    && (forall y: nat :: !Po(h, i, y))
  }

  lemma SurvivorsRebind(g: Graph, recv: nat, s: nat, m: CommunicationModel)
    requires FreshRevisit(g, recv, s, m)
    ensures var f := KeptIds(SurvivorMask(g, recv, s));
            RebindsLast(Restrict(g, SurvivorMask(g, recv, s)), IndexOf(f, recv), IndexOf(f, s))
  {
    var keep := SurvivorMask(g, recv, s);
    RestrictIsSubgraph(g, keep);
    SubgraphRebind(Restrict(g, keep), g, KeptIds(keep), recv, s);
  }

  lemma SubgraphRebind(h: Graph, g: Graph, f: seq<nat>, recv: nat, s: nat)
    requires Subgraph(h, g, f) && Accepts(g, recv, s) && Unread(g, s) && s + 1 == |g.events| && !Porf(g, recv, s)
    requires g.events[s].op.destination == g.events[recv].thread
    requires forall x: nat :: x in f <==> x < |g.events| && !Deleted(g, recv, s, x)
    ensures recv in f && s in f && RebindsLast(h, IndexOf(f, recv), IndexOf(f, s))
  {
    var i, j := IndexOf(f, recv), IndexOf(f, s);
    assert SameEvent(h.events[i], g.events[recv]) && SameEvent(h.events[j], g.events[s]);
    SubgraphAccepts(h, g, f, i, j);
    forall r | r in h.rf
      ensures h.rf[r] != From(j)
    {
      assert SourceCopied(h, g, f, r);
    }
    forall y: nat
      ensures !Po(h, i, y)
    {
      if Po(h, i, y) {
        SubgraphPo(h, g, f, i, y);
        assert f[y] in f;
        RevisitedReceiveIsLast(g, recv, s, f[y]);
        assert false;
      }
    }
  }

  lemma RebindIsAsyncConsistent(h: Graph, i: nat, j: nat)
    requires Consistent(h, Async) && RebindsLast(h, i, j)
    ensures Consistent(SetSource(h, i, From(j)), Async)
  {
    var c := SetSource(h, i, From(j));
    forall r | r in c.rf
      ensures GoodRead(c, r)
    {
      if r != i { assert GoodRead(h, r); }
    }
    forall y: nat ensures (i, y) !in PorfEdges(c) {
      assert !Po(h, i, y);
      if y in h.rf { assert GoodRead(h, y); }
    }
    EdgesIntoSink(PorfEdges(h), PorfEdges(c), i);
  }

  lemma RebindKeepsAnswers(p: Program, h: Graph, i: nat, j: nat, id: nat)
    requires id < |h.events| && i < |h.events| && !Po(h, i, id)
    ensures Answer(p, SetSource(h, i, From(j)), id) == Answer(p, h, id)
  {
    var c := SetSource(h, i, From(j));
    assert c.events == h.events;
    forall k | 0 <= k < id && h.events[k].thread == h.events[id].thread
      ensures Emits(h, k) == Emits(c, k)
    {
      assert k != i;
    }
    TraceFrame(h, c, h.events[id].thread, id);
  }

  lemma RebindReplays(p: Program, h: Graph, i: nat, j: nat)
    requires ReplayValid(p, h) && RebindsLast(h, i, j)
    ensures ReplayValid(p, SetSource(h, i, From(j)))
  {
    forall id | 0 <= id < |h.events|
      ensures Conforms(h.events[id].op, Answer(p, SetSource(h, i, From(j)), id))
    {
      RebindKeepsAnswers(p, h, i, j, id);
    }
  }

  /** The child is well formed, total and acyclic, whatever the model: under Async it is never rejected. */
  lemma RevisitChildIsAsyncConsistent(g: Graph, recv: nat, s: nat, m: CommunicationModel)
    requires FreshRevisit(g, recv, s, m)
    ensures Consistent(RevisitChild(g, recv, s), Async)
  {
    RestrictedRevisitIsConsistent(g, recv, s, m);
    SurvivorsRebind(g, recv, s, m);
    var f := KeptIds(SurvivorMask(g, recv, s));
    RebindIsAsyncConsistent(Restrict(g, SurvivorMask(g, recv, s)), IndexOf(f, recv), IndexOf(f, s));
  }

  lemma RevisitChildReplays(p: Program, g: Graph, recv: nat, s: nat, m: CommunicationModel)
    requires FreshRevisit(g, recv, s, m) && ReplayValid(p, g)
    ensures ReplayValid(p, RevisitChild(g, recv, s))
  {
    hide PrefixClosed, ReadClosed, Subgraph, ReplayValid, RevisitAllowed, Consistent, RebindsLast;
    var keep := SurvivorMask(g, recv, s);
    var f, h := KeptIds(keep), Restrict(g, keep);
    RestrictIsSubgraph(g, keep);
    SurvivorsPrefixClosed(g, recv, s);
    SurvivorsReadClosed(g, recv, s, m);
    CausalCopyReplays(p, h, g, f);
    SurvivorsRebind(g, recv, s, m);
    RebindReplays(p, h, IndexOf(f, recv), IndexOf(f, s));
  }

  lemma RevisitChildKeepsShape(p: Program, g: Graph, recv: nat, s: nat)
    requires Shaped(p, g) && recv < |g.events| && s < |g.events|
    ensures Shaped(p, RevisitChild(g, recv, s))
  {
    var keep := SurvivorMask(g, recv, s);
    RestrictIsSubgraph(g, keep);
    CopyKeepsShape(p, Restrict(g, keep), g, KeptIds(keep));
    var h, c := Restrict(g, keep), RevisitChild(g, recv, s);
    forall b: nat, x: nat | IsBlock(c, b) ensures !Po(c, b, x) {
      assert IsBlock(h, b);
      assert !Po(h, b, x);
    }
  }

  // ----- the tiebreaker always finds a source -----

  lemma PreviousPrefixClosed(g: Graph, e: nat, s: nat, a: nat, b: nat)
    requires Po(g, a, b) && InPrevious(g, e, s, b)
    ensures InPrevious(g, e, s, a)
  {
    if b > e {
      PorfPrefixIsClosed(g, a, b, s);
    }
  }

  /** Binding a receive to the source it has is always acceptable on Previous, so the search for a
      consistent source never comes back empty. */
  lemma CurrentSourceIsAcceptable(g: Graph, e: nat, s: nat, m: CommunicationModel)
    requires Consistent(g, m) && e in g.rf && g.rf[e].From?
    requires InPrevious(g, e, s, g.rf[e].send)
    ensures Acceptable(g, PreviousMask(g, e, s), e, m, g.rf[e].send)
  {
    var keep, source := PreviousMask(g, e, s), g.rf[e].send;
    assert GoodRead(g, e);
    if Reach(MaskedEdges(g, keep), e, source) {
      forall x: nat, y: nat | (x, y) in MaskedEdges(g, keep)
        ensures Reach(PorfEdges(g), x, y)
      {
        PorfStep(g, x, y);
      }
      ReachMonotone(MaskedEdges(g, keep), PorfEdges(g), e, source);
      PorfStep(g, source, e);
      PorfTransitive(g, e, source, e);
      assert false;
    }
    assert SetSource(g, e, From(source)) == g;
    if m.FifoP2P? {
      forall early: nat, late: nat, r: nat
        ensures !MaskedSkips(g, keep, early, late, r)
      {
        PreviousSkipsNothing(g, e, s, m, early, late, r);
      }
      forall early: nat, late: nat, r: nat, q: nat
        ensures !MaskedOvertakes(g, keep, early, late, r, q)
      {
        assert !Overtakes(g, early, late, r, q);
      }
    }
  }

  lemma PreviousSkipsNothing(g: Graph, e: nat, s: nat, m: CommunicationModel, early: nat, late: nat, r: nat)
    requires Consistent(g, m) && m.FifoP2P?
    ensures !MaskedSkips(g, PreviousMask(g, e, s), early, late, r)
  {
    var keep := PreviousMask(g, e, s);
    if MaskedSkips(g, keep, early, late, r) {
      assert !SkipsUnread(g, early, late, r);
      var q: nat :| q in g.rf && g.rf[q] == From(early);
      assert GoodRead(g, q) && GoodRead(g, r);
      assert !Overtakes(g, early, late, r, q);
      assert Po(g, q, r);
      PreviousPrefixClosed(g, e, s, q, r);
      assert false;
    }
  }

  // ----- exactly one source meets the revisit condition -----

  lemma {:induction false} LeastEvent(g: Graph, ids: set<nat>) returns (c: nat)
    requires ids != {} && forall q :: q in ids ==> q < |g.events|
    ensures c in ids && forall q :: q in ids && q != c ==> Before(g, c, q)
    decreases |ids|
  {
    var first :| first in ids;
    var rest := ids - {first};
    c := first;
    if rest != {} {
      var other := LeastEvent(g, rest);
      if Before(g, other, first) { c := other; }
    }
    forall q | q in ids && q != c ensures Before(g, c, q) { assert q == first || q in rest; }
  }

  lemma ReboundEdges(g: Graph, e: nat, source: Source)
    ensures SameButInto(PorfEdges(g), PorfEdges(SetSource(g, e, source)), e)
    ensures forall keep: Mask :: SameButInto(MaskedEdges(g, keep), MaskedEdges(SetSource(g, e, source), keep), e)
  {
  }

  /** What counts as inserted before does not depend on the source of a receive the send does not follow. */
  lemma ReboundPrevious(g: Graph, e: nat, s: nat, source: Source)
    requires s != e && !Porf(g, e, s)
    ensures PreviousMask(SetSource(g, e, source), e, s) == PreviousMask(g, e, s)
  {
    var h := SetSource(g, e, source);
    ReboundEdges(g, e, source);
    forall x: nat ensures InPrevious(h, e, s, x) <==> InPrevious(g, e, s, x) {
      EdgesIntoNode(PorfEdges(g), PorfEdges(h), e, x, s);
    }
    var a, b := PreviousMask(h, e, s), PreviousMask(g, e, s);
    forall x: nat | x < |g.events| ensures a[x] == b[x] { assert Keeps(a, x) <==> Keeps(b, x); }
  }

  lemma ReboundCandidate(g: Graph, keep: Mask, e: nat, c: nat, d: nat)
    requires WellFormed(g) && e in g.rf && g.rf[e].From? && Keeps(keep, e) && Candidate(g, keep, e, c)
    ensures Candidate(SetSource(g, e, From(c)), keep, e, d) <==> Candidate(g, keep, e, d)
  {
    var h := SetSource(g, e, From(c));
    if d != c {
      assert MaskedUnread(h, keep, d) <== MaskedUnread(g, keep, d);
      if Reads(g, e, d) && IsSend(g, d) && Keeps(keep, d) {
        forall r | r in h.rf && Keeps(keep, r) ensures h.rf[r] != From(d) {
          assert r != e ==> h.rf[r] == g.rf[r];
        }
      }
      if MaskedUnread(h, keep, d) && !Reads(g, e, d) {
        forall r | r in g.rf && Keeps(keep, r) ensures g.rf[r] != From(d) {
          assert r != e ==> h.rf[r] == g.rf[r];
        }
      }
    }
  }

  lemma ReboundAcceptable(g: Graph, keep: Mask, e: nat, m: CommunicationModel, c: nat, d: nat)
    requires WellFormed(g) && e in g.rf && g.rf[e].From? && Keeps(keep, e) && Acceptable(g, keep, e, m, c)
    ensures Acceptable(SetSource(g, e, From(c)), keep, e, m, d) <==> Acceptable(g, keep, e, m, d)
  {
    hide MaskedClauses, WellFormed, Candidate;
    var h := SetSource(g, e, From(c));
    ReboundCandidate(g, keep, e, c, d);
    ReboundEdges(g, e, From(c));
    if Candidate(g, keep, e, d) { CandidateIsSend(g, keep, e, d); }
    if d != e { EdgesIntoNode(MaskedEdges(g, keep), MaskedEdges(h, keep), e, e, d); }
    assert SetSource(h, e, From(d)) == SetSource(g, e, From(d));
  }

  lemma CandidateIsSend(g: Graph, keep: Mask, e: nat, d: nat)
    requires Candidate(g, keep, e, d)
    ensures d != e && d < |g.events| && Keeps(keep, d)
  {
  }

  /** The first acceptable source of receive `e`, given that it has one. */
  lemma FirstAcceptable(g: Graph, keep: Mask, e: nat, m: CommunicationModel, d: nat) returns (c: nat)
    requires Acceptable(g, keep, e, m, d)
    ensures IsTiebreaker(g, keep, e, m, c)
  {
    hide MaskedClauses;
    var ids := set q: nat | 0 <= q < |g.events| && Acceptable(g, keep, e, m, q);
    assert d in ids;
    c := LeastEvent(g, ids);
    forall q: nat | Acceptable(g, keep, e, m, q) && q != c ensures Before(g, c, q) { assert q in ids; }
  }

  lemma BeforeIsStrict(g: Graph, a: nat, b: nat)
    ensures !(Before(g, a, b) && Before(g, b, a))
  {
  }

  /** The tiebreaker of a receive is the same whichever acceptable source it has. */
  lemma ReboundTiebreaker(g: Graph, keep: Mask, e: nat, m: CommunicationModel, c: nat, d: nat)
    requires WellFormed(g) && e in g.rf && g.rf[e].From? && Keeps(keep, e) && IsTiebreaker(g, keep, e, m, c)
    requires Acceptable(g, keep, e, m, d)
    ensures IsTiebreaker(SetSource(g, e, From(d)), keep, e, m, d) <==> d == c
  {
    hide Acceptable, WellFormed;
    var h := SetSource(g, e, From(d));
    forall q: nat ensures Acceptable(h, keep, e, m, q) <==> Acceptable(g, keep, e, m, q) {
      ReboundAcceptable(g, keep, e, m, d, q);
    }
    BeforeIsStrict(g, c, d);
    assert forall a: nat, b: nat :: Before(h, a, b) <==> Before(g, a, b);
  }

  /** Of the sources a blocking receive could acceptably have, exactly one meets the revisit condition: whatever a
      revisit deletes it would meet again in one way only. A non-blocking receive meets it with no message only. */
  lemma OneSourceMeets(g: Graph, e: nat, s: nat, m: CommunicationModel)
    requires Consistent(g, m) && IsReceive(g, e) && s != e && !Porf(g, e, s)
    ensures !g.events[e].op.blocking ==>
              forall source :: RevisitCondition(SetSource(g, e, source), e, s, m) <==> source.Bottom?
    ensures g.events[e].op.blocking && InPrevious(g, e, s, g.rf[e].send) ==>
              exists c: nat ::
                && Acceptable(g, PreviousMask(g, e, s), e, m, c)
                && forall d: nat :: Acceptable(g, PreviousMask(g, e, s), e, m, d) ==>
                     (RevisitCondition(SetSource(g, e, From(d)), e, s, m) <==> d == c)
  {
    assert e in g.rf && GoodRead(g, e);
    if g.events[e].op.blocking && InPrevious(g, e, s, g.rf[e].send) {
      hide Acceptable, WellFormed, IsTiebreaker, Porf, RevisitCondition, CausallyAcyclic, ModelClauses, InPrevious,
           PreviousMask;
      var keep := PreviousMask(g, e, s);
      CurrentSourceIsAcceptable(g, e, s, m);
      var c := FirstAcceptable(g, keep, e, m, g.rf[e].send);
      TiebreakerAcceptable(g, keep, e, m, c);
      PreviousKeepsItself(g, e, s);
      forall d: nat | Acceptable(g, keep, e, m, d)
        ensures RevisitCondition(SetSource(g, e, From(d)), e, s, m) <==> d == c
      {
        ReboundCondition(g, e, s, m, d);
        ReboundTiebreaker(g, keep, e, m, c, d);
      }
    }
  }

  lemma TiebreakerAcceptable(g: Graph, keep: Mask, e: nat, m: CommunicationModel, c: nat)
    requires IsTiebreaker(g, keep, e, m, c)
    ensures Acceptable(g, keep, e, m, c)
  {
  }

  lemma PreviousKeepsItself(g: Graph, e: nat, s: nat)
    requires e < |g.events|
    ensures Keeps(PreviousMask(g, e, s), e)
  {
  }

  lemma ReboundCondition(g: Graph, e: nat, s: nat, m: CommunicationModel, d: nat)
    requires IsReceive(g, e) && g.events[e].op.blocking && s != e && !Porf(g, e, s)
    requires Acceptable(g, PreviousMask(g, e, s), e, m, d)
    ensures var h := SetSource(g, e, From(d));
            RevisitCondition(h, e, s, m) <==> IsTiebreaker(h, PreviousMask(g, e, s), e, m, d)
  {
    hide Porf, IsTiebreaker, MaskedClauses;
    var h := SetSource(g, e, From(d));
    ReboundPrevious(g, e, s, From(d));
    assert Keeps(PreviousMask(h, e, s), d);
  }

  // ----- siblings that differ in what a revisit deletes -----

  lemma RechosenDeleted(g: Graph, recv: nat, s: nat, x: nat, v: Value)
    requires x < |g.events| && g.events[x].op.Choice?
    ensures Deleted(Rechosen(g, x, v), recv, s, x) <==> Deleted(g, recv, s, x)
  {
    var h := Rechosen(g, x, v);
    assert forall a: nat, b: nat :: PorfEdge(h, a, b) <==> PorfEdge(g, a, b);
    assert PorfEdges(h) == PorfEdges(g);
  }

  /** Of the graphs that differ only in the alternative a choice took, at most one lets `s` redirect `recv` so that the
      choice is deleted. */
  lemma ChoiceDeletedOnce(g: Graph, recv: nat, s: nat, m: CommunicationModel, x: nat, v: Value)
    requires x < |g.events| && g.events[x].op.Choice? && g.events[x].op.choices != [] && Deleted(g, recv, s, x)
    requires RevisitAllowed(g, recv, s, m) && RevisitAllowed(Rechosen(g, x, v), recv, s, m)
    ensures v == g.events[x].op.chosen
  {
    hide Porf;
    RechosenDeleted(g, recv, s, x, v);
    assert RevisitCondition(g, x, s, m) && RevisitCondition(Rechosen(g, x, v), x, s, m);
  }

  /** And of those that differ only in the source of a receive. */
  lemma ReceiveDeletedOnce(g: Graph, recv: nat, s: nat, m: CommunicationModel, x: nat, d: nat)
    requires Consistent(g, m) && IsReceive(g, x) && g.events[x].op.blocking && Deleted(g, recv, s, x)
    requires Acceptable(g, PreviousMask(g, x, s), x, m, d)
    requires RevisitAllowed(g, recv, s, m) && RevisitAllowed(SetSource(g, x, From(d)), recv, s, m)
    ensures g.rf[x] == From(d)
  {
    hide Porf, Acceptable, IsTiebreaker, WellFormed, CausallyAcyclic, ModelClauses, PreviousMask;
    var h := SetSource(g, x, From(d));
    ReboundDeleted(g, recv, s, x, From(d));
    assert RevisitCondition(g, x, s, m) && RevisitCondition(h, x, s, m);
    var c := g.rf[x].send;
    PreviousKeepsItself(g, x, s);
    TiebreakerAcceptable(g, PreviousMask(g, x, s), x, m, c);
    ReboundCondition(g, x, s, m, d);
    ReboundTiebreaker(g, PreviousMask(g, x, s), x, m, c, d);
  }

  lemma ReboundDeleted(g: Graph, recv: nat, s: nat, x: nat, source: Source)
    requires Deleted(g, recv, s, x)
    ensures Deleted(SetSource(g, x, source), recv, s, x)
  {
    ReboundEdges(g, x, source);
    EdgesIntoNode(PorfEdges(g), PorfEdges(SetSource(g, x, source)), x, x, s);
  }
}
