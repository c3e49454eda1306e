/** Whatever can be executed, some branch of an unhindered search executes. */
module Covering {
  import opened Events
  import opened Reachability
  import opened Consistency
  import opened Subgraphs
  import opened Replay
  import opened Engine
  import opened Invariants
  import opened Branches
  import opened Tracking
  import opened Canonical
  import opened Progress
  import opened Performing
  import opened Redirections
  import opened Targets
  import opened Redirecting

  lemma AdvancedSituation(cfg: Config, x: Graph, p: set<nat>, d: set<nat>, g: Graph, e: map<nat, nat>, depth: nat,
                          h: Graph, f: seq<nat>, e': map<nat, nat>, depth': nat)
    requires Situation(cfg, x, p, d, g, e, depth) && Advances(cfg, x, p, d, g, e, depth, h, f, e', depth')
    ensures Situation(cfg, x, p, d, h, e', depth') && depth <= depth'
    ensures WellFormed(h)
    ensures depth < cfg.maxDepth && (depth < depth' || |h.events| < |g.events|)
  {
    hide Tracks, ClosedIn, Unhindered, Visit, Grown, Carries, CanonAt;
    BelowLive(cfg, g, depth);
  }

  lemma StayProgress(x: Graph, p: set<nat>, d: set<nat>, g: Graph, e: map<nat, nat>)
    requires Tracks(g, x, d, e) && e.Keys <= p && ValidEndpoints(g)
    ensures Progresses(x, p, d, g, e, g, Same(|g.events|), e)
  {
    hide CanonAt;
    var f := Same(|g.events|);
    TracksParts(g, x, d, e);
    forall y: nat | y < |g.events| ensures y in f { assert f[y] == y; }
  }

  // ----- the receive in a longer run -----

  lemma StillThere(g: Graph, e: map<nat, nat>, w: Graph, e': map<nat, nat>, f: seq<nat>, f': seq<nat>)
    requires Grown(g, w, f') && Carries(e, e', f') && |f| < |g.events| && !IsBlock(g, |f|) && |f| !in e.Values
    ensures Ascending(f') && |Compose(f, f')| < |w.events| && w.events[|Compose(f, f')|] == g.events[|f|]
    ensures |Compose(f, f')| !in e'.Values
  {
    var i := KeptEvent(g, w, f', |f|);
    var k := CountBelow(f', |f|);
    AscendingInjective(f', k, i);
    CarriedValue(e, e', f', i);
  }

  // ----- the mutual recursion -----

  /** The next receive of a thread that has done its part becomes canonical. */
  lemma {:induction false} CanonicalNext(cfg: Config, x: Graph, p: set<nat>, d: set<nat>, g: Graph, e: map<nat, nat>,
                                         depth: nat, t: ThreadId, op: Label)
      returns (h: Graph, f: seq<nat>, e': map<nat, nat>, depth': nat)
    requires Situation(cfg, x, p, d, g, e, depth) && NextEvent(cfg, g) == Next(t, op) && op.Receive?
    requires forall a :: a in d && a < |x.events| && x.events[a].thread == t ==> a in e
    ensures Advances(cfg, x, p, d, g, e, depth, h, f, e', depth')
    ensures |f| < |h.events| && h.events[|f|] == Event(t, op) && |f| !in e'.Values
    decreases |p|, 0
  {
    hide Situation, Advances, NextEvent, FirstThere, FirstChoice, EngineStep, Redirectable, Redirected, Within, UpTo;
    NoCopyThere(cfg, x, p, d, g, e, depth);
    if !op.blocking {
      h := ExtraNext(cfg, x, p, d, g, e, depth, t, op);
      f, e', depth' := Same(|g.events|), e, depth + 1;
    } else {
      NextSteps(cfg, g);
      SomethingThere(cfg, g, t, op);
      var c := FirstOf(g, x, p, e, t, op);
      if FirstThere(g, x, p, e, t, op, c) {
        ThereNext(cfg, x, p, d, g, e, depth, t, op, c);
        h, f, e', depth' := AddReceive(g, t, op, From(c)), Same(|g.events|), e, depth + 1;
      } else {
        ExtraRedirectable(cfg, x, p, d, g, e, depth, t, op, c);
        SmallerPast(cfg, x, p, d, g, e, depth, c);
        var e1: map<nat, nat>;
        h, f, e1, depth' := Redirect(cfg, x, g, Within(e, UpTo(x, c)), depth, t, op, c);
        e' := ExtraRedirected(cfg, x, p, d, g, e, depth, t, op, c, h, f, e1, depth');
      }
    }
  }

  lemma NoCopyThere(cfg: Config, x: Graph, p: set<nat>, d: set<nat>, g: Graph, e: map<nat, nat>, depth: nat)
    requires Situation(cfg, x, p, d, g, e, depth)
    ensures |g.events| !in e.Values
  {
    hide Below, ClosedIn, Unhindered, Good, Tracks;
    TracksParts(g, x, d, e);
  }

  lemma SomethingThere(cfg: Config, g: Graph, t: ThreadId, op: Label)
    requires EngineStep(cfg, g, t, op) && op.Receive? && op.blocking
    ensures CompatibleSends(g, t, op) != []
  {
    hide Terminated, Trace, Steps, AtCap;
  }

  lemma SmallerPast(cfg: Config, x: Graph, p: set<nat>, d: set<nat>, g: Graph, e: map<nat, nat>, depth: nat, c: nat)
    requires Situation(cfg, x, p, d, g, e, depth) && c in p
    ensures |Past(x, c)| < |p|
  {
    hide Below, ClosedIn, Unhindered, Tracks, Past;
    PastInside(x, p, c);
  }

  /** If thread `t` has an event of `d` to perform, it is one of `p`. */
  ghost predicate WaitsIn(x: Graph, p: set<nat>, d: set<nat>, e: map<nat, nat>, t: ThreadId)
  {
    forall b: nat :: Waits(x, d, e, b) && b < |x.events| && x.events[b].thread == t ==> b in p
  }

  /** One step, towards an event of `p` or beside it. */
  lemma {:induction false} AdvanceOnce(cfg: Config, x: Graph, p: set<nat>, d: set<nat>, g: Graph, e: map<nat, nat>,
                                       depth: nat)
      returns (h: Graph, f: seq<nat>, e': map<nat, nat>, depth': nat)
    requires Situation(cfg, x, p, d, g, e, depth) && (NextEvent(cfg, g).Next? || Reschedule(cfg.program, g).Ready?)
    requires NextEvent(cfg, g).Next? ==> WaitsIn(x, p, d, e, NextEvent(cfg, g).thread)
    ensures Advances(cfg, x, p, d, g, e, depth, h, f, e', depth')
    decreases |p|, 1
  {
    hide Situation, Advances, NextEvent, Reschedule, Redirectable, Redirected, Within, UpTo, Waits, EngineStep;
    if NextEvent(cfg, g).NoNext? {
      h, f, e' := WakeAdvances(cfg, x, p, d, g, e, depth);
      depth' := depth;
      return;
    }
    var t, op := NextEvent(cfg, g).thread, NextEvent(cfg, g).op;
    if op.Block? {
      BlockNext(cfg, x, p, d, g, e, depth, t);
      h, f, e', depth' := AddEvent(g, t, Block), Same(|g.events|), e, depth + 1;
      return;
    }
    SituationParts(cfg, x, p, d, g, e, depth);
    var b := WaitingEvent(x, d, e, t);
    if b.Some? {
      h, f, e', depth' := AdvanceTo(cfg, x, p, d, g, e, depth, t, op, b.value);
    } else if op.Receive? {
      h, f, e', depth' := CanonicalNext(cfg, x, p, d, g, e, depth, t, op);
    } else {
      h := ExtraNext(cfg, x, p, d, g, e, depth, t, op);
      f, e', depth' := Same(|g.events|), e, depth + 1;
    }
  }

  lemma SituationParts(cfg: Config, x: Graph, p: set<nat>, d: set<nat>, g: Graph, e: map<nat, nat>, depth: nat)
    requires Situation(cfg, x, p, d, g, e, depth)
    ensures ClosedIn(x, d) && ClosedIn(x, p) && p <= d && Tracks(g, x, d, e) && e.Keys <= p
    ensures Good(cfg, x) && Good(cfg, g) && Below(cfg, g, depth) && Unhindered(cfg)
  {
    hide ClosedIn, Tracks, Unhindered, Consistent, ReplayValid, Shaped;
  }

  /** The thread that is next has `b` to perform. */
  lemma {:induction false} AdvanceTo(cfg: Config, x: Graph, p: set<nat>, d: set<nat>, g: Graph, e: map<nat, nat>,
                                     depth: nat, t: ThreadId, op: Label, b: nat)
      returns (h: Graph, f: seq<nat>, e': map<nat, nat>, depth': nat)
    requires Situation(cfg, x, p, d, g, e, depth) && NextEvent(cfg, g) == Next(t, op) && !op.Block?
    requires b in p && b < |x.events| && x.events[b].thread == t && Waits(x, d, e, b)
    ensures Advances(cfg, x, p, d, g, e, depth, h, f, e', depth')
    decreases |p|, 0
  {
    hide Situation, Advances, NextEvent, Redirectable, Redirected, Within, UpTo, Waits, EngineStep, Good, ClosedIn,
         Tracks, Below, Shaped;
    SituationParts(cfg, x, p, d, g, e, depth);
    if b in x.rf && x.rf[b].From? && x.rf[b].send !in e {
      var c := x.rf[b].send;
      GoodParts(cfg, x);
      GoodParts(cfg, g);
      NextSteps(cfg, g);
      AnswerKind(cfg, x, d, g, e, b, op);
      assert GoodRead(x, b);
      WaitingRedirectable(cfg, x, p, d, g, e, depth, t, op, b, c);
      SmallerPast(cfg, x, p, d, g, e, depth, c);
      var e1: map<nat, nat>;
      h, f, e1, depth' := Redirect(cfg, x, g, Within(e, UpTo(x, c)), depth, t, op, c);
      e' := WaitingRedirected(cfg, x, p, d, g, e, depth, t, op, b, c, h, f, e1, depth');
    } else {
      h := PerformNext(cfg, x, p, d, g, e, depth, t, op, b);
      f, e', depth' := Same(|g.events|), e[b := |g.events|], depth + 1;
    }
  }

  /** The send comes next. */
  ghost predicate AtSend(cfg: Config, x: Graph, s: nat, g: Graph, e: map<nat, nat>)
  {
    IsSend(x, s) && NextEvent(cfg, g) == Next(x.events[s].thread, x.events[s].op) && e.Keys == Past(x, s)
  }

  lemma {:induction false} ReachSend(cfg: Config, x: Graph, s: nat, g: Graph, e: map<nat, nat>, depth: nat)
      returns (w: Graph, f: seq<nat>, e': map<nat, nat>, depth': nat)
    requires Situation(cfg, x, Past(x, s), UpTo(x, s), g, e, depth) && IsSend(x, s)
    ensures Progresses(x, Past(x, s), UpTo(x, s), g, e, w, f, e') && Below(cfg, w, depth') && depth <= depth'
    ensures AtSend(cfg, x, s, w, e')
    decreases |Past(x, s)|, 2, cfg.maxDepth - depth, |g.events|
  {
    hide Situation, Progresses, NextEvent, Reschedule, Past, UpTo, Waits, AtSend, Below, Good, ClosedIn, Tracks,
         WellFormed, Shaped, Compose;
    var p, d := Past(x, s), UpTo(x, s);
    SituationParts(cfg, x, p, d, g, e, depth);
    GoodEndpoints(cfg, g, depth);
    if NextEvent(cfg, g).Next? && NextEvent(cfg, g).thread == x.events[s].thread && Waits(x, d, e, s) {
      SendIsNext(cfg, x, s, g, e, depth);
      StayProgress(x, p, d, g, e);
      w, f, e', depth' := g, Same(|g.events|), e, depth;
    } else {
      NotStuckYet(cfg, x, s, g, e, depth);
      OthersWait(x, s, e, if NextEvent(cfg, g).Next? then NextEvent(cfg, g).thread else 0);
      var h, f1, e1, depth1 := AdvanceOnce(cfg, x, p, d, g, e, depth);
      AdvancedSituation(cfg, x, p, d, g, e, depth, h, f1, e1, depth1);
      var f2: seq<nat>;
      w, f2, e', depth' := ReachSend(cfg, x, s, h, e1, depth1);
      GoodEndpoints(cfg, w, depth');
      ProgressComposes(x, p, d, g, e, h, f1, e1, w, f2, e');
      f := Compose(f1, f2);
    }
  }

  lemma OthersWait(x: Graph, s: nat, e: map<nat, nat>, t: ThreadId)
    requires IsSend(x, s)
    ensures (x.events[s].thread == t && Waits(x, UpTo(x, s), e, s)) || WaitsIn(x, Past(x, s), UpTo(x, s), e, t)
  {
  }

  lemma NotStuckYet(cfg: Config, x: Graph, s: nat, g: Graph, e: map<nat, nat>, depth: nat)
    requires Situation(cfg, x, Past(x, s), UpTo(x, s), g, e, depth)
    ensures NextEvent(cfg, g).Next? || Reschedule(cfg.program, g).Ready?
  {
    hide Below, Tracks, ClosedIn, Unhindered, NextEvent, RescheduleFrom, Past;
    GoodEndpoints(cfg, g, depth);
    RescheduleGood(cfg, g);
    if NextEvent(cfg, g).NoNext? && Reschedule(cfg.program, g).NoneReady? {
      NothingLeft(cfg, x, Past(x, s), UpTo(x, s), g, e, depth);
      GoodParts(cfg, x);
      PastMember(x, s, s);
      SelfIsNotPast(x, s);
    }
  }

  lemma SendIsNext(cfg: Config, x: Graph, s: nat, g: Graph, e: map<nat, nat>, depth: nat)
    requires Situation(cfg, x, Past(x, s), UpTo(x, s), g, e, depth) && IsSend(x, s)
    requires NextEvent(cfg, g).Next? && NextEvent(cfg, g).thread == x.events[s].thread && Waits(x, UpTo(x, s), e, s)
    ensures AtSend(cfg, x, s, g, e)
  {
    hide Below, Tracks, ClosedIn, Unhindered, NextEvent, Past, Waits, Good, EngineStep, Shaped;
    GoodEndpoints(cfg, g, depth);
    GoodParts(cfg, x);
    NextSteps(cfg, g);
    SendAnswer(cfg, x, s, g, e, NextEvent(cfg, g).op);
    TracksParts(g, x, UpTo(x, s), e);
    forall a | a in Past(x, s) ensures a in e { PastPerformed(x, s, g, e, a); }
  }

  lemma SendAnswer(cfg: Config, x: Graph, s: nat, g: Graph, e: map<nat, nat>, op: Label)
    requires Good(cfg, x) && Shaped(cfg.program, g) && ClosedIn(x, UpTo(x, s)) && Tracks(g, x, UpTo(x, s), e)
    requires IsSend(x, s) && Waits(x, UpTo(x, s), e, s) && EngineStep(cfg, g, x.events[s].thread, op)
    ensures op == x.events[s].op
  {
    hide Tracks, Trace, Steps, Consistent, Terminated, AtCap, CompatibleSends, Waits, Distinct, Past;
    GoodParts(cfg, x);
    AskedAsBefore(cfg, x, UpTo(x, s), g, e, s, op);
  }

  lemma PastPerformed(x: Graph, s: nat, g: Graph, e: map<nat, nat>, a: nat)
    requires WellFormed(x) && Copies(g, x, e) && IsSend(x, s) && Waits(x, UpTo(x, s), e, s) && a in Past(x, s)
    ensures a in e
  {
    hide Copies;
    PastMember(x, s, a);
    var k: nat :| ReachIn(PorfEdges(x), k, a, s);
    PastPath(x, s, g, e, k, a);
  }

  lemma {:induction false} PastPath(x: Graph, s: nat, g: Graph, e: map<nat, nat>, k: nat, a: nat)
    requires WellFormed(x) && Copies(g, x, e) && IsSend(x, s) && Waits(x, UpTo(x, s), e, s)
    requires ReachIn(PorfEdges(x), k, a, s)
    ensures a in e
    decreases k
  {
    hide Copies, UpTo;
    if k == 0 {
      OnlyReceivesRead(x, s);
      assert Po(x, a, s);
    } else {
      var c: nat :| (a, c) in PorfEdges(x) && ReachIn(PorfEdges(x), k - 1, c, s);
      PastPath(x, s, g, e, k - 1, c);
      CopiesClosed(g, x, e, a, c);
    }
  }

  /** The next receive of thread `t` can be made to read `s`. */
  lemma {:induction false} Redirect(cfg: Config, x: Graph, g: Graph,
                                    e: map<nat, nat>, depth: nat, t: ThreadId, op: Label, s: nat)
      returns (h: Graph, f: seq<nat>, e': map<nat, nat>, depth': nat)
    requires Redirectable(cfg, x, g, e, depth, t, op, s)
    ensures Redirected(cfg, x, g, e, depth, t, op, s, h, f, e', depth')
    decreases |Past(x, s)|, 3
  {
    hide Situation, Advances, NextEvent, Redirected, Past, UpTo, Below, Good, Tracks, Grown, Carries, CanonAt, Compose,
         WellFormed, Clear, Unhindered, AtSend;
    var p, d := Past(x, s), UpTo(x, s);
    RedirectSituation(cfg, x, g, e, depth, t, op, s);
    var g1, f1, e1, depth1 := CanonicalNext(cfg, x, p, d, g, e, depth, t, op);
    AdvancedSituation(cfg, x, p, d, g, e, depth, g1, f1, e1, depth1);
    var w, f2, e2, depth2 := ReachSend(cfg, x, s, g1, e1, depth1);
    GoodEndpoints(cfg, w, depth2);
    AdvanceProgress(cfg, x, p, d, g, e, depth, g1, f1, e1, depth1);
    ProgressComposes(x, p, d, g, e, g1, f1, e1, w, f2, e2);
    StillThere(g1, e1, w, e2, f1, f2);
    AtSendParts(cfg, x, s, w, e2);
    f := Compose(f1, f2);
    SendRedirects(cfg, x, g, e, depth, t, op, s, w, f, e2, depth2);
    h, e', depth' := Child(w, x, s, |f|), Landed(w, x, s, e2, |f|), depth2 + 1;
  }

  lemma AtSendParts(cfg: Config, x: Graph, s: nat, g: Graph, e: map<nat, nat>)
    requires AtSend(cfg, x, s, g, e)
    ensures IsSend(x, s) && NextEvent(cfg, g) == Next(x.events[s].thread, x.events[s].op) && e.Keys == Past(x, s)
  {
  }

  lemma AdvanceProgress(cfg: Config, x: Graph, p: set<nat>, d: set<nat>, g: Graph, e: map<nat, nat>, depth: nat,
                        h: Graph, f: seq<nat>, e': map<nat, nat>, depth': nat)
    requires Advances(cfg, x, p, d, g, e, depth, h, f, e', depth')
    ensures Progresses(x, p, d, g, e, h, f, e') && Below(cfg, h, depth')
  {
  }
}
