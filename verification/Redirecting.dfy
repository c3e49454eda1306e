/** Making the next receive of a thread read a send that has not been performed yet. */
module Redirecting {
  import opened Optional
  import opened Events
  import opened Reachability
  import opened Consistency
  import opened Subgraphs
  import opened Replay
  import opened Revisits
  import opened Engine
  import opened Invariants
  import opened Oracle
  import opened Branches
  import opened Tracking
  import opened Canonical
  import opened Progress
  import opened Performing
  import opened Redirections
  import opened Targets

  /** The receive that comes next, of thread `t`, may take `s`, and thread `t` has no part in what leads to `s`. */
  ghost predicate Redirectable(cfg: Config, x: Graph, g: Graph,
                               e: map<nat, nat>, depth: nat, t: ThreadId, op: Label, s: nat)
  {
    && Unhindered(cfg) && Good(cfg, x) && Below(cfg, g, depth) && NextEvent(cfg, g) == Next(t, op) && op.Receive?
    && IsSend(x, s) && x.events[s].op.destination == t && op.matches(x.events[s].op.value)
    && Tracks(g, x, UpTo(x, s), e) && e.Keys <= Past(x, s)
    && (forall a :: a in UpTo(x, s) && x.events[a].thread == t ==> a in e)
    && (cfg.model.FifoP2P? ==> Clear(g, x, e, op, s))
  }

  lemma RedirectSituation(cfg: Config, x: Graph, g: Graph, e: map<nat, nat>, depth: nat, t: ThreadId, op: Label, s: nat)
    requires Redirectable(cfg, x, g, e, depth, t, op, s)
    ensures Situation(cfg, x, Past(x, s), UpTo(x, s), g, e, depth)
  {
    hide Below, Tracks, Unhindered, NextEvent, Past, Clear, Consistent, ReplayValid, ClosedIn;
    GoodParts(cfg, x);
    PastClosed(cfg.program, x, s);
  }

  // ----- when a source is missing -----

  /** The next receive is `b`, and its source `c` has not been performed. */
  lemma WaitingRedirectable(cfg: Config, x: Graph, p: set<nat>, d: set<nat>, g: Graph, e: map<nat, nat>, depth: nat,
                            t: ThreadId, op: Label, b: nat, c: nat)
    requires Situation(cfg, x, p, d, g, e, depth) && NextEvent(cfg, g) == Next(t, op) && op.Receive?
    requires b in p && b < |x.events| && x.events[b] == Event(t, op) && Waits(x, d, e, b) && Reads(x, b, c) && c !in e
    ensures c in p && Redirectable(cfg, x, g, Within(e, UpTo(x, c)), depth, t, op, c)
  {
    hide Below, Tracks, Unhindered, NextEvent, Past, Clear, Consistent, ReplayValid, Waits, Shaped, FifoClauseB,
         FifoClauseC;
    GoodParts(cfg, x);
    assert GoodRead(x, b);
    assert PorfEdge(x, c, b);
    NarrowSituation(cfg, x, p, d, g, e, c);
    forall a | a in UpTo(x, c) && x.events[a].thread == t ensures a in Within(e, UpTo(x, c)) {
      WaitingPast(x, d, e, a, b, c);
    }
    if cfg.model.FifoP2P? { WaitingClear(x, d, g, e, b, c); }
  }

  lemma NarrowSituation(cfg: Config, x: Graph, p: set<nat>, d: set<nat>, g: Graph, e: map<nat, nat>, c: nat)
    requires Good(cfg, x) && ClosedIn(x, p) && ClosedIn(x, d) && p <= d && Tracks(g, x, d, e)
    requires c in p && c !in e && IsSend(x, c)
    ensures Tracks(g, x, UpTo(x, c), Within(e, UpTo(x, c))) && Within(e, UpTo(x, c)).Keys <= Past(x, c)
    ensures UpTo(x, c) <= p
  {
    hide Tracks, Past, ClosedIn, Good;
    GoodParts(cfg, x);
    PastClosed(cfg.program, x, c);
    PastInside(x, p, c);
    TracksWithin(g, x, d, e, UpTo(x, c));
  }

  lemma WaitingPast(x: Graph, d: set<nat>, e: map<nat, nat>, a: nat, b: nat, c: nat)
    requires CausallyAcyclic(x) && WellFormed(x) && Waits(x, d, e, b) && Reads(x, b, c)
    requires a in UpTo(x, c) && a < |x.events| && b < |x.events| && x.events[a].thread == x.events[b].thread
    ensures a in e
  {
    hide CausallyAcyclic, Porf;
    assert GoodRead(x, b);
    PorfStep(x, c, b);
    PastMember(x, c, a);
    if a != c { PorfTransitive(x, a, c, b); }
    PorfWithinThread(x, a, b);
    assert Po(x, a, b);
  }

  lemma WaitingClear(x: Graph, d: set<nat>, g: Graph, e: map<nat, nat>, b: nat, c: nat)
    requires WellFormed(x) && FifoClauseB(x) && FifoClauseC(x) && Tracks(g, x, d, e)
    requires Waits(x, d, e, b) && Reads(x, b, c) && b < |x.events|
    ensures Clear(g, x, Within(e, UpTo(x, c)), x.events[b].op, c)
  {
    hide FifoClauseB, FifoClauseC, Porf;
    assert GoodRead(x, b);
    forall a: nat | SameChannel(x, a, c) && x.events[b].op.matches(x.events[a].op.value)
      ensures a in Within(e, UpTo(x, c)) && !Unread(g, e[a])
    {
      var q := ReadBefore(x, b, c, a);
      CopiedSourceOf(g, x, e, q);
      PorfStep(x, a, c);
      PastMember(x, c, a);
    }
  }

  /** The next receive takes the first send there is or will be, and that one is still to come. */
  lemma ExtraRedirectable(cfg: Config, x: Graph, p: set<nat>, d: set<nat>, g: Graph, e: map<nat, nat>, depth: nat,
                          t: ThreadId, op: Label, c: nat)
    requires Situation(cfg, x, p, d, g, e, depth) && NextEvent(cfg, g) == Next(t, op) && op.Receive?
    requires FirstChoice(g, x, p, e, t, op, c)
    requires forall a :: a in d && a < |x.events| && x.events[a].thread == t ==> a in e
    ensures c in p && Redirectable(cfg, x, g, Within(e, UpTo(x, c)), depth, t, op, c)
  {
    hide Below, Tracks, Unhindered, NextEvent, Past, Clear, Consistent, ReplayValid, Shaped, FirstChoice;
    GoodParts(cfg, x);
    ChoiceComes(g, x, p, e, t, op, c);
    NarrowSituation(cfg, x, p, d, g, e, c);
    forall a | a in UpTo(x, c) && x.events[a].thread == t ensures a in Within(e, UpTo(x, c)) {
    }
    ExtraClear(x, p, d, g, e, t, op, c);
  }

  lemma ExtraClear(x: Graph, p: set<nat>, d: set<nat>, g: Graph, e: map<nat, nat>, t: ThreadId, op: Label, c: nat)
    requires Tracks(g, x, d, e) && FirstChoice(g, x, p, e, t, op, c) && UpTo(x, c) <= p
    ensures Clear(g, x, Within(e, UpTo(x, c)), op, c)
  {
    hide Porf;
    forall a: nat | SameChannel(x, a, c) && op.matches(x.events[a].op.value)
      ensures a in Within(e, UpTo(x, c)) && !Unread(g, e[a])
    {
      PorfStep(x, a, c);
      PastMember(x, c, a);
      assert !Before(x, c, a);
      assert !Comes(x, p, e, t, op, a);
      assert SameEvent(g.events[e[a]], x.events[a]);
      assert !CompatibleUnread(g, t, op, e[a]);
    }
  }

  // ----- the first send there is -----

  ghost predicate FirstThere(g: Graph, x: Graph, p: set<nat>, e: map<nat, nat>, t: ThreadId, op: Label, c: nat)
  {
    && CompatibleUnread(g, t, op, c)
    && (forall q: nat :: CompatibleUnread(g, t, op, q) && q != c ==> Before(g, c, q))
    && (forall a: nat :: Comes(x, p, e, t, op, a) ==> g.events[c].thread <= x.events[a].thread)
  }

  lemma FirstOf(g: Graph, x: Graph, p: set<nat>, e: map<nat, nat>, t: ThreadId, op: Label) returns (c: nat)
    requires CompatibleSends(g, t, op) != []
    ensures FirstThere(g, x, p, e, t, op, c) || FirstChoice(g, x, p, e, t, op, c)
  {
    var there := set q: nat | q in CompatibleSends(g, t, op);
    assert CompatibleSends(g, t, op)[0] in there;
    c := LeastEvent(g, there);
    var coming := set a | a in p && Comes(x, p, e, t, op, a);
    if coming != {} {
      var other := LeastEvent(x, coming);
      if x.events[other].thread < g.events[c].thread {
        forall q: nat | CompatibleUnread(g, t, op, q) ensures x.events[other].thread < g.events[q].thread {
          assert q in there;
        }
        forall a: nat | Comes(x, p, e, t, op, a) && a != other ensures Before(x, other, a) { assert a in coming; }
        c := other;
        return;
      }
      forall a: nat | Comes(x, p, e, t, op, a) ensures g.events[c].thread <= x.events[a].thread { assert a in coming; }
    }
    forall q: nat | CompatibleUnread(g, t, op, q) && q != c ensures Before(g, c, q) { assert q in there; }
    forall a: nat ensures Comes(x, p, e, t, op, a) ==> a in coming { }
  }

  lemma ThereIsFirst(g: Graph, x: Graph, p: set<nat>, e: map<nat, nat>, t: ThreadId, op: Label, c: nat)
    requires FirstThere(g, x, p, e, t, op, c) && WellFormed(g) && (forall a :: a in e ==> e[a] < |g.events|)
    ensures CanonAt(AddReceive(g, t, op, From(c)), x, p, e, |g.events|) || !op.blocking
    ensures FirstOfChannel(g, op, c)
  {
    var h, n := AddReceive(g, t, op, From(c)), |g.events|;
    forall q: nat | Open(h, e, n, q) && q != c ensures Before(h, c, q) {
      if q in e.Values { var a := CopyAt(e, q); }
      forall r | r in g.rf ensures g.rf[r] != From(q) {
        assert GoodRead(g, r);
        assert h.rf[r] == g.rf[r];
        assert g.rf[r] == From(q) ==> Reads(h, r, q);
      }
      assert CompatibleUnread(g, t, op, q);
    }
    forall early: nat | SameChannel(g, early, c) && op.matches(g.events[early].op.value) ensures !Unread(g, early) {
      assert !Before(g, c, early);
      assert !CompatibleUnread(g, t, op, early);
    }
  }

  /** The next receive takes the first send there is. */
  lemma ThereNext(cfg: Config, x: Graph, p: set<nat>, d: set<nat>, g: Graph, e: map<nat, nat>, depth: nat,
                  t: ThreadId, op: Label, c: nat)
    requires Situation(cfg, x, p, d, g, e, depth) && NextEvent(cfg, g) == Next(t, op) && op.Receive? && op.blocking
    requires FirstThere(g, x, p, e, t, op, c)
    requires forall a :: a in d && a < |x.events| && x.events[a].thread == t ==> a in e
    ensures Advances(cfg, x, p, d, g, e, depth, AddReceive(g, t, op, From(c)), Same(|g.events|), e, depth + 1)
  {
    hide Below, Tracks, NextEvent, Consistent, ReplayValid, Shaped, Advances, Appends, Unhindered, ClosedIn, CanonAt,
         FirstOfChannel;
    GoodEndpoints(cfg, g, depth);
    TracksParts(g, x, d, e);
    TracksInside(g, x, d, e);
    ThereIsFirst(g, x, p, e, t, op, c);
    SourceChild(cfg, g, depth, t, op, c);
    AddReceiveAppends(g, t, op, From(c));
    ExtraAdvances(cfg, x, p, d, g, e, depth, AddReceive(g, t, op, From(c)));
  }

  // ----- the send has been reached -----

  lemma LandedKept(w: Graph, x: Graph, s: nat, e: map<nat, nat>, y: nat, a: nat)
    requires Primed(w, x, s, e) && y < |w.events| && a in Landed(w, x, s, e, y)
    ensures a in e && e[a] < y ==> Landed(w, x, s, e, y)[a] == e[a]
    ensures a !in e || e[a] >= y ==> Landed(w, x, s, e, y)[a] >= y
  {
    hide Primed, Landed, Kept;
    LandedParts(w, x, s, e, y);
    var ids, i := Kept(w, x, s, y), Landed(w, x, s, e, y)[a];
    if i < y { KeptPrefix(w, x, s, e, y, i); }
    if a in e && e[a] < y {
      KeptPrefix(w, x, s, e, y, e[a]);
      AscendingInjective(ids, i, e[a]);
    }
  }

  lemma LandedCarries(w: Graph, x: Graph, s: nat, e: map<nat, nat>, e': map<nat, nat>, f: seq<nat>)
    requires Primed(w, x, s, e') && |f| < |w.events| && Carries(e, e', f)
    ensures Carries(e, Landed(w, x, s, e', |f|), f)
  {
    hide Primed, Landed, Kept;
    LandedKeys(w, x, s, e', |f|);
    var landed := Landed(w, x, s, e', |f|);
    forall a | a in e ensures a in landed && landed[a] < |f| && f[landed[a]] == e[a] {
      CarriedAt(e, e', f, a);
      LandedKept(w, x, s, e', |f|, a);
    }
    forall a | a in landed && a !in e ensures landed[a] >= |f| {
      LandedKept(w, x, s, e', |f|, a);
    }
  }

  lemma LandedKeys(w: Graph, x: Graph, s: nat, e: map<nat, nat>, y: nat)
    requires Primed(w, x, s, e) && y < |w.events|
    ensures Landed(w, x, s, e, y).Keys == e.Keys + {s}
  {
    hide Primed, Landed, Kept;
    LandedParts(w, x, s, e, y);
  }

  lemma PrimedAtSend(cfg: Config, w: Graph, x: Graph, s: nat, e: map<nat, nat>, op: Label)
    requires Good(cfg, w) && Good(cfg, x) && Tracks(w, x, UpTo(x, s), e) && e.Keys == Past(x, s) && IsSend(x, s)
    requires EngineStep(cfg, w, x.events[s].thread, op)
    ensures Primed(w, x, s, e)
  {
    hide EngineStep, Past, ReplayValid, Copies, CausallyAcyclic;
    TracksParts(w, x, UpTo(x, s), e);
    NextHasNoBlock(cfg, w, x.events[s].thread, op);
    PastMember(x, s, s);
    SelfIsNotPast(x, s);
    forall y: nat | y < |w.events| && w.events[y].thread == x.events[s].thread ensures y in e.Values {
      OnlyCopiesInThread(w, x, UpTo(x, s), e, s, y);
    }
  }

  /** Its past is performed, it comes next, and everything beside it since the receive is canonical. */
  lemma SendRedirects(cfg: Config, x: Graph, g: Graph, e: map<nat, nat>, depth: nat, t: ThreadId, op: Label, s: nat,
                      w: Graph, f: seq<nat>, e': map<nat, nat>, depth': nat)
    requires Redirectable(cfg, x, g, e, depth, t, op, s)
    requires Progresses(x, Past(x, s), UpTo(x, s), g, e, w, f, e') && Below(cfg, w, depth') && depth <= depth'
    requires NextEvent(cfg, w) == Next(x.events[s].thread, x.events[s].op) && e'.Keys == Past(x, s)
    requires |f| < |w.events| && w.events[|f|] == Event(t, op) && |f| !in e'.Values
    ensures |w.events| < |Sent(w, x, s).events|
    ensures Redirected(cfg, x, g, e, depth, t, op, s, Child(w, x, s, |f|), f, Landed(w, x, s, e', |f|), depth' + 1)
  {
    hide Below, Tracks, Unhindered, NextEvent, Past, Clear, Consistent, ReplayValid, Shaped, Grown, Carries, Copies,
         CanonAt, Child, Landed, Primed, WellFormed, ClosedIn, Kept, RevisitChild;
    GoodEndpoints(cfg, w, depth');
    GoodEndpoints(cfg, g, depth);
    NextSteps(cfg, w);
    PrimedAtSend(cfg, w, x, s, e', x.events[s].op);
    TracksParts(g, x, UpTo(x, s), e);
    TracksParts(w, x, UpTo(x, s), e');
    SentParts(w, x, s, e');
    assert Poised(w, x, s, e', |f|, cfg.model);
    ChildConsistent(g, w, f, x, s, e, e', |f|, cfg.model);
    PoisedAllowed(w, x, s, e', |f|, cfg.model);
    ChildIsBelow(cfg, w, depth', x, s, |f|);
    GoodParts(cfg, x);
    PastClosed(cfg.program, x, s);
    ChildGrown(g, w, f, x, s, e', |f|);
    ChildCopies(w, x, s, e', |f|, UpTo(x, s));
    ChildAbove(w, x, s, e', |f|);
    LandedParts(w, x, s, e', |f|);
    LandedCarries(w, x, s, e, e', f);
  }

  lemma ChildIsBelow(cfg: Config, w: Graph, depth: nat, x: Graph, s: nat, y: nat)
    requires Unhindered(cfg) && Below(cfg, w, depth) && IsSend(x, s)
    requires NextEvent(cfg, w) == Next(x.events[s].thread, x.events[s].op)
    requires y < |w.events| < |Sent(w, x, s).events| && IsReceive(Sent(w, x, s), y)
    requires Sent(w, x, s).events[y].thread == x.events[s].op.destination
    requires RevisitAllowed(Sent(w, x, s), y, |w.events|, cfg.model) && Consistent(Child(w, x, s, y), cfg.model)
    ensures Below(cfg, Child(w, x, s, y), depth + 1)
  {
    hide Below, Unhindered, NextEvent, RevisitAllowed, RevisitChild, Consistent;
    RedirectedChild(cfg, w, depth, x.events[s].thread, x.events[s].op, y);
  }

  // ----- nothing is left over -----

  /** At the end of a branch everything that was to be performed has been. */
  lemma NothingLeft(cfg: Config, x: Graph, p: set<nat>, d: set<nat>, g: Graph, e: map<nat, nat>, depth: nat)
    requires Situation(cfg, x, p, d, g, e, depth)
    requires NextEvent(cfg, g).NoNext? && Reschedule(cfg.program, g).NoneReady?
    ensures d <= e.Keys
  {
    hide Below, Tracks, Unhindered, NextEvent, Reschedule, ClosedIn, Good, PorfEdges;
    var left := d - e.Keys;
    assert forall a :: a in d && a !in e ==> a in left;
    if left != {} {
      GoodParts(cfg, x);
      var b := MinimalElement(PorfEdges(x), left);
      MinimalIsNext(x, d, e, b);
      BelowEnds(cfg, g, depth);
      GoodEndpoints(cfg, g, depth);
      NextIsNotStuck(cfg, x, d, g, e, b);
    }
  }

  lemma MinimalIsNext(x: Graph, d: set<nat>, e: map<nat, nat>, b: nat)
    requires ClosedIn(x, d) && b in d && b !in e && forall a: nat :: a in d - e.Keys ==> (a, b) !in PorfEdges(x)
    ensures NextFor(x, d, e, b) && Waits(x, d, e, b) && b < |x.events| && !IsBlock(x, b)
  {
    forall a: nat | PorfEdge(x, a, b) ensures a in e {
      assert (a, b) in PorfEdges(x);
    }
    forall a: nat | Po(x, a, b) ensures a in e { assert PorfEdge(x, a, b); }
  }

  /** The thread of an event that could be performed is neither done nor stuck. */
  lemma NextIsNotStuck(cfg: Config, x: Graph, d: set<nat>, g: Graph, e: map<nat, nat>, b: nat)
    requires Good(cfg, x) && Good(cfg, g) && ClosedIn(x, d) && Tracks(g, x, d, e)
    requires NextFor(x, d, e, b) && Waits(x, d, e, b) && b < |x.events| && !IsBlock(x, b)
    ensures var t := x.events[b].thread;
            && InProgram(cfg.program, t)
            && (Stuck(cfg.program, g, t) ==>
                  !Terminated(g, t) && cfg.program.next(t, Trace(g, t), Steps(g, t)) != None)
  {
    hide Tracks, Waits, ClosedIn, Stuck, Terminated, Trace, Steps, Consistent, ReplayValid, NextFor;
    var t := x.events[b].thread;
    GoodParts(cfg, x);
    GoodParts(cfg, g);
    if k: nat :| IsBlock(g, k) && g.events[k].thread == t {
      BlockWaits(cfg, g, k);
      BlockedButReady(cfg, x, d, g, e, b, k);
      StuckBlock(cfg.program, g, k);
    } else {
      IdleButReady(cfg, x, d, g, e, b);
    }
  }

  lemma StuckBlock(p: Program, g: Graph, k: nat)
    requires IsBlock(g, k)
    ensures Stuck(p, g, g.events[k].thread) ==> StuckAt(p, g, k)
  {
  }

  lemma BlockWaits(cfg: Config, g: Graph, k: nat)
    requires Good(cfg, g) && IsBlock(g, k)
    ensures WaitsOnReceive(Answer(cfg.program, g, k))
  {
    hide Consistent, Shaped;
    assert Conforms(g.events[k].op, Answer(cfg.program, g, k));
  }

  lemma IdleButReady(cfg: Config, x: Graph, d: set<nat>, g: Graph, e: map<nat, nat>, b: nat)
    requires Good(cfg, x) && Shaped(cfg.program, g) && ClosedIn(x, d) && Tracks(g, x, d, e) && Waits(x, d, e, b)
    requires b < |x.events| && !IsBlock(x, b)
    requires forall k: nat :: k < |g.events| && g.events[k].thread == x.events[b].thread ==> !IsBlock(g, k)
    ensures !Terminated(g, x.events[b].thread) && Asked(cfg.program, g, x.events[b].thread).Some?
  {
    hide Tracks, Waits, ClosedIn, Consistent, TraceUpTo, StepsUpTo;
    WaitingMatches(g, x, d, e, b, |g.events|);
    TracksParts(g, x, d, e);
    GoodParts(cfg, x);
    MatchedTrace(g, x, e, x.events[b].thread, |g.events|, b);
    assert Conforms(x.events[b].op, Answer(cfg.program, x, b));
  }

  lemma BlockedButReady(cfg: Config, x: Graph, d: set<nat>, g: Graph, e: map<nat, nat>, b: nat, k: nat)
    requires Good(cfg, x) && Good(cfg, g) && ClosedIn(x, d) && Tracks(g, x, d, e)
    requires NextFor(x, d, e, b) && Waits(x, d, e, b) && b < |x.events| && !IsBlock(x, b)
    requires IsBlock(g, k) && g.events[k].thread == x.events[b].thread && WaitsOnReceive(Answer(cfg.program, g, k))
    ensures CompatibleSends(g, x.events[b].thread, Answer(cfg.program, g, k).value) != []
  {
    hide Tracks, Waits, ClosedIn, Consistent, TraceUpTo, StepsUpTo, NextFor, ReplayValid, Shaped;
    var t, op := x.events[b].thread, x.events[b].op;
    GoodParts(cfg, x);
    GoodParts(cfg, g);
    BlockIsLast(cfg.program, g, k);
    WaitingMatches(g, x, d, e, b, k);
    TracksParts(g, x, d, e);
    MatchedTrace(g, x, e, t, k, b);
    ConformingReceive(cfg, x, b);
    assert GoodRead(x, b);
    var c := x.rf[b].send;
    BeforeNext(x, d, e, b, c);
    WaitingIsNoBlock(x, d, e, b);
    SourceIsUnread(x, d, g, e, b, c);
    CopiedSend(x, d, g, e, c);
    assert e[c] in CompatibleSends(g, t, op);
  }

  lemma BlockIsLast(p: Program, g: Graph, k: nat)
    requires Shaped(p, g) && IsBlock(g, k)
    ensures forall y: nat :: y < |g.events| && g.events[y].thread == g.events[k].thread ==>
              if y < k then !IsBlock(g, y) else IsBlock(g, y)
  {
    forall y: nat | y < |g.events| && g.events[y].thread == g.events[k].thread
      ensures if y < k then !IsBlock(g, y) else IsBlock(g, y)
    {
      assert !Po(g, k, y);
      assert y < k ==> Po(g, y, k);
    }
  }

  lemma ConformingReceive(cfg: Config, x: Graph, b: nat)
    requires Good(cfg, x) && b < |x.events| && !IsBlock(x, b) && WaitsOnReceive(Answer(cfg.program, x, b))
    ensures IsReceive(x, b) && x.events[b].op == Answer(cfg.program, x, b).value
    ensures b in x.rf && x.rf[b].From? && PorfEdge(x, x.rf[b].send, b)
  {
    hide CausallyAcyclic, Shaped;
    assert Conforms(x.events[b].op, Answer(cfg.program, x, b));
    assert IsReceive(x, b) && GoodRead(x, b);
  }
}
