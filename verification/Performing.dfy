/** One step of the search that performs the next event of another graph, or something canonical beside it. */
module Performing {
  import opened Optional
  import opened Events
  import opened Consistency
  import opened Subgraphs
  import opened Replay
  import opened Revisits
  import opened Engine
  import opened Invariants
  import opened Oracle
  import opened Branches
  import opened Tracking
  import opened Canonical
  import opened Progress

  /** The search is at `g` and has performed `e` of the events `p` it is to perform; in `d` it must not overstep. */
  ghost predicate Situation(cfg: Config, x: Graph, p: set<nat>, d: set<nat>, g: Graph, e: map<nat, nat>, depth: nat)
  {
    && Unhindered(cfg) && Good(cfg, x) && ClosedIn(x, p) && ClosedIn(x, d) && p <= d
    && Below(cfg, g, depth) && Tracks(g, x, d, e) && e.Keys <= p
  }

  /** From there the search comes to `h`, a larger depth or a smaller graph. */
  ghost predicate Advances(cfg: Config, x: Graph, p: set<nat>, d: set<nat>, g: Graph, e: map<nat, nat>, depth: nat,
                           h: Graph, f: seq<nat>, e': map<nat, nat>, depth': nat)
  {
    && Below(cfg, h, depth') && Progresses(x, p, d, g, e, h, f, e')
    && (depth < depth' || (depth == depth' && |h.events| < |g.events|))
  }

  // ----- what the thread that is next has done -----

  lemma NextHasNoBlock(cfg: Config, g: Graph, t: ThreadId, op: Label)
    requires Shaped(cfg.program, g) && EngineStep(cfg, g, t, op)
    ensures forall y: nat :: y < |g.events| && g.events[y].thread == t ==> !IsBlock(g, y)
  {
    hide Shaped, Terminated, AtCap, Trace, Steps, CompatibleSends;
    forall y: nat | y < |g.events| && g.events[y].thread == t ensures !IsBlock(g, y) {
      if IsBlock(g, y) { BlockTerminates(cfg.program, g, y); }
    }
  }

  /** Events of thread `t` are still to come, and `b` is the first of them; or there are none. */
  lemma WaitingEvent(x: Graph, d: set<nat>, e: map<nat, nat>, t: ThreadId) returns (b: Option<nat>)
    requires ClosedIn(x, d)
    ensures b.None? ==> forall a :: a in d && x.events[a].thread == t ==> a in e
    ensures b.Some? ==> b.value < |x.events| && x.events[b.value].thread == t && Waits(x, d, e, b.value)
  {
    var left := set a | a in d && x.events[a].thread == t && a !in e;
    if left == {} {
      assert forall a :: a in d && x.events[a].thread == t && a !in e ==> a in left;
      b := None;
    } else {
      var a := LeastOf(left);
      forall c: nat | Po(x, c, a) ensures c in e {
        assert PorfEdge(x, c, a);
        assert c !in left;
      }
      b := Some(a);
    }
  }

  lemma {:induction false} LeastOf(ids: set<nat>) returns (a: nat)
    requires ids != {}
    ensures a in ids && forall c :: c in ids ==> a <= c
    decreases |ids|
  {
    var first :| first in ids;
    var rest := ids - {first};
    a := first;
    if rest != {} {
      var c := LeastOf(rest);
      if c < a { a := c; }
    }
    forall c | c in ids ensures a <= c { assert c == first || c in rest; }
  }

  /** The thread gives the answer it gave at `b`. */
  lemma AskedAsBefore(cfg: Config, x: Graph, d: set<nat>, g: Graph, e: map<nat, nat>, b: nat, op: Label)
    requires WellFormed(x) && ReadsTotal(x) && ReplayValid(cfg.program, x) && ClosedIn(x, d)
    requires Shaped(cfg.program, g) && Tracks(g, x, d, e) && b < |x.events| && Waits(x, d, e, b)
    requires EngineStep(cfg, g, x.events[b].thread, op)
    ensures Asked(cfg.program, g, x.events[b].thread) == Answer(cfg.program, x, b)
    ensures Conforms(x.events[b].op, Asked(cfg.program, g, x.events[b].thread))
  {
    hide Tracks, Shaped, Waits, ClosedIn, EngineStep, WellFormed, TraceUpTo, StepsUpTo, Conforms;
    NextHasNoBlock(cfg, g, x.events[b].thread, op);
    WaitingMatches(g, x, d, e, b, |g.events|);
    TracksParts(g, x, d, e);
    MatchedTrace(g, x, e, x.events[b].thread, |g.events|, b);
    assert Conforms(x.events[b].op, Answer(cfg.program, x, b));
  }

  // ----- the source of the next receive -----

  /** A thread with an event still to come has done nothing else. */
  lemma OnlyCopiesInThread(g: Graph, x: Graph, d: set<nat>, e: map<nat, nat>, b: nat, y: nat)
    requires Tracks(g, x, d, e) && b in d && b !in e && b < |x.events|
    requires y < |g.events| && g.events[y].thread == x.events[b].thread && !IsBlock(g, y)
    ensures y in e.Values
  {
  }

  lemma SourceIsUnread(x: Graph, d: set<nat>, g: Graph, e: map<nat, nat>, b: nat, s: nat)
    requires WellFormed(x) && ReadsTotal(x) && WellFormed(g) && Tracks(g, x, d, e)
    requires b in d && b !in e && Reads(x, b, s) && s in e && b < |x.events|
    ensures Unread(g, e[s])
  {
    assert GoodRead(x, b);
    assert SameEvent(g.events[e[s]], x.events[s]);
    forall r | r in g.rf ensures g.rf[r] != From(e[s]) {
      if g.rf[r] == From(e[s]) {
        assert GoodRead(g, r);
        OnlyCopiesInThread(g, x, d, e, b, r);
        CopiedReader(g, x, e, r, s, b);
      }
    }
  }

  lemma CopiedReader(g: Graph, x: Graph, e: map<nat, nat>, r: nat, s: nat, b: nat)
    requires Copies(g, x, e) && WellFormed(x) && ReadsTotal(x) && r in e.Values
             && Reads(g, r, if s in e then e[s] else 0)
    requires IsReceive(g, r) && s in e && Reads(x, b, s)
    ensures b in e && e[b] == r
  {
    var c := CopyAt(e, r);
    assert SameEvent(g.events[r], x.events[c]);
    assert IsReceive(x, c) && GoodRead(x, c);
    CopiedSourceOf(g, x, e, c);
    CopiesInjective(g, x, e, x.rf[c].send, s);
    assert Reads(x, c, s);
  }

  /** What the channel order of `x` demands of the readers before `b`. */
  lemma ReadBefore(x: Graph, b: nat, s: nat, a: nat) returns (q: nat)
    requires WellFormed(x) && FifoClauseB(x) && FifoClauseC(x) && Reads(x, b, s) && SameChannel(x, a, s)
             && Accepts(x, b, a)
    ensures Reads(x, q, a) && Po(x, q, b)
  {
    assert !SkipsUnread(x, a, s, b);
    q :| q in x.rf && x.rf[q] == From(a);
    assert GoodRead(x, q) && GoodRead(x, b);
    assert !Overtakes(x, a, s, b, q);
  }

  /** The copied source skips nothing in its channel. */
  lemma SourceIsFirst(x: Graph, d: set<nat>, g: Graph, e: map<nat, nat>, b: nat, s: nat)
    requires WellFormed(x) && FifoClauseB(x) && FifoClauseC(x) && Tracks(g, x, d, e)
    requires Waits(x, d, e, b) && Reads(x, b, s) && s in e && b < |x.events|
    ensures FirstOfChannel(g, x.events[b].op, e[s])
  {
    assert GoodRead(x, b);
    assert SameEvent(g.events[e[s]], x.events[s]);
    forall early: nat | SameChannel(g, early, e[s]) && x.events[b].op.matches(g.events[early].op.value)
      ensures !Unread(g, early)
    {
      var a := CopyAt(e, early);
      assert SameEvent(g.events[early], x.events[a]);
      CopiesOrder(g, x, e, a, s);
      var q := ReadBefore(x, b, s, a);
      CopiedSourceOf(g, x, e, q);
    }
  }

  // ----- performing -----

  /** Nothing reads an event that was just appended. */
  lemma FreshIsUnread(g: Graph, r: nat)
    requires WellFormed(g) && r in g.rf && g.rf[r].From?
    ensures g.rf[r].send < |g.events| && r < |g.events|
  {
    assert GoodRead(g, r);
  }

  lemma AddEventAppends(g: Graph, t: ThreadId, op: Label)
    ensures Appends(g, AddEvent(g, t, op))
  {
  }

  lemma AddReceiveAppends(g: Graph, t: ThreadId, op: Label, source: Source)
    ensures Appends(g, AddReceive(g, t, op, source))
  {
  }

  /** The next event is performed. */
  lemma PerformAdvances(cfg: Config, x: Graph, p: set<nat>, d: set<nat>, g: Graph, e: map<nat, nat>, depth: nat,
                        h: Graph, b: nat)
    requires Situation(cfg, x, p, d, g, e, depth) && b in p && NextFor(x, d, e, b) && b < |x.events|
    requires Appends(g, h) && Below(cfg, h, depth + 1) && SameEvent(h.events[|g.events|], x.events[b])
    requires forall y: nat :: y < |g.events| && g.events[y].thread == x.events[b].thread ==> !IsBlock(g, y)
    requires b in x.rf ==> (x.rf[b].From? ==> x.rf[b].send in e)
    requires b in x.rf ==> |g.events| in h.rf && h.rf[|g.events|] == ImageOf(e, x.rf[b])
    ensures Advances(cfg, x, p, d, g, e, depth, h, Same(|g.events|), e[b := |g.events|], depth + 1)
  {
    hide Below, ClosedIn, Tracks, Grown, Carries, NextFor, CanonAt, Appends, Good, Unhindered, SameEvent;
    TracksPerforms(g, h, x, d, e, b);
    GoodEndpoints(cfg, g, depth);
    AppendsGrown(g, h);
    AppendsParts(g, h);
    var e': map<nat, nat> := e[b := |g.events|];
    assert e'[b] == |g.events|;
  }

  lemma GoodEndpoints(cfg: Config, g: Graph, depth: nat)
    requires Below(cfg, g, depth)
    ensures WellFormed(g) && ValidEndpoints(g) && Shaped(cfg.program, g) && Consistent(g, cfg.model) && Good(cfg, g)
  {
    WellFormedEndpoints(g);
  }

  /** Something canonical is done beside it. */
  lemma ExtraAdvances(cfg: Config, x: Graph, p: set<nat>, d: set<nat>, g: Graph, e: map<nat, nat>, depth: nat, h: Graph)
    requires Situation(cfg, x, p, d, g, e, depth) && Appends(g, h) && Below(cfg, h, depth + 1)
    requires IsBlock(h, |g.events|)
             || forall a :: a in d && x.events[a].thread == h.events[|g.events|].thread ==> a in e
    requires CanonAt(h, x, p, e, |g.events|)
    ensures Advances(cfg, x, p, d, g, e, depth, h, Same(|g.events|), e, depth + 1)
  {
    hide Below, ClosedIn, Tracks, Grown, Carries, CanonAt, Appends, Good, Unhindered;
    AppendsParts(g, h);
    TracksInside(g, x, d, e);
    TracksExtra(g, h, x, d, e);
    GoodEndpoints(cfg, g, depth);
    AppendsGrown(g, h);
  }

  lemma TracksInside(g: Graph, x: Graph, d: set<nat>, e: map<nat, nat>)
    requires Tracks(g, x, d, e)
    ensures forall a :: a in d ==> a < |x.events|
  {
  }

  // ----- the steps -----

  lemma NextForWaiting(x: Graph, d: set<nat>, e: map<nat, nat>, b: nat)
    requires Waits(x, d, e, b) && (b in x.rf && x.rf[b].From? ==> x.rf[b].send in e)
    ensures NextFor(x, d, e, b)
  {
  }

  /** A send, choice or receive whose source is there. */
  lemma PerformNext(cfg: Config, x: Graph, p: set<nat>, d: set<nat>, g: Graph, e: map<nat, nat>, depth: nat,
                    t: ThreadId, op: Label, b: nat) returns (h: Graph)
    requires Situation(cfg, x, p, d, g, e, depth) && NextEvent(cfg, g) == Next(t, op) && !op.Block?
    requires b in p && b < |x.events| && x.events[b].thread == t && Waits(x, d, e, b)
    requires b in x.rf && x.rf[b].From? ==> x.rf[b].send in e
    ensures Advances(cfg, x, p, d, g, e, depth, h, Same(|g.events|), e[b := |g.events|], depth + 1)
  {
    hide Below, Tracks, NextEvent, Consistent, ReplayValid, Shaped, Waits, NextFor, Advances, EngineStep, SameEvent,
         Unhindered, ClosedIn;
    GoodEndpoints(cfg, g, depth);
    GoodParts(cfg, x);
    NextSteps(cfg, g);
    NextHasNoBlock(cfg, g, t, op);
    NextForWaiting(x, d, e, b);
    h := PerformedChild(cfg, x, p, d, g, e, depth, t, op, b);
    PerformAdvances(cfg, x, p, d, g, e, depth, h, b);
  }

  /** What the engine records is the answer, which is what `b` was. */
  lemma AnswerKind(cfg: Config, x: Graph, d: set<nat>, g: Graph, e: map<nat, nat>, b: nat, op: Label)
    requires Good(cfg, x) && ClosedIn(x, d) && Shaped(cfg.program, g) && Tracks(g, x, d, e)
    requires b < |x.events| && Waits(x, d, e, b) && EngineStep(cfg, g, x.events[b].thread, op) && !op.Block?
    ensures var own := x.events[b].op;
            if own.Choice? && own.choices != []
            then op.Choice? && own.chosen in op.choices && own.choices == Distinct(op.choices)
            else op == own
    ensures !op.Error?
  {
    hide Tracks, Trace, Steps, Consistent, Terminated, AtCap, CompatibleSends, Waits, Distinct;
    GoodParts(cfg, x);
    AskedAsBefore(cfg, x, d, g, e, b, op);
    WaitingIsNoBlock(x, d, e, b);
    DistinctEmpty(op);
  }

  lemma DistinctEmpty(op: Label)
    ensures op.Choice? && Distinct(op.choices) == [] ==> op.choices == []
  {
    if op.Choice? && op.choices != [] { assert op.choices[0] in Distinct(op.choices); }
  }

  lemma WaitingIsNoBlock(x: Graph, d: set<nat>, e: map<nat, nat>, b: nat)
    requires ClosedIn(x, d) && Waits(x, d, e, b)
    ensures b in d && b !in e && !IsBlock(x, b)
  {
  }

  lemma PerformedChild(cfg: Config, x: Graph, p: set<nat>, d: set<nat>, g: Graph, e: map<nat, nat>, depth: nat,
                       t: ThreadId, op: Label, b: nat) returns (h: Graph)
    requires Situation(cfg, x, p, d, g, e, depth) && NextEvent(cfg, g) == Next(t, op) && !op.Block?
    requires b in p && b < |x.events| && x.events[b].thread == t && Waits(x, d, e, b)
    requires b in x.rf && x.rf[b].From? ==> x.rf[b].send in e
    ensures Appends(g, h) && Below(cfg, h, depth + 1) && SameEvent(h.events[|g.events|], x.events[b])
    ensures b in x.rf ==> |g.events| in h.rf && h.rf[|g.events|] == ImageOf(e, x.rf[b])
  {
    hide Below, Tracks, NextEvent, Consistent, ReplayValid, Shaped, Waits, EngineStep, Distinct, ClosedIn, Unhindered;
    GoodEndpoints(cfg, g, depth);
    GoodParts(cfg, x);
    NextSteps(cfg, g);
    AnswerKind(cfg, x, d, g, e, b, op);
    if op.Receive? {
      h := ReceivedChild(cfg, x, p, d, g, e, depth, t, op, b);
    } else {
      OnlyReceivesRead(x, b);
      if op.Choice? && op.choices != [] {
        var v := x.events[b].op.chosen;
        ChoiceChild(cfg, g, depth, t, op, v);
        h := AddEvent(g, t, Choice(v, Distinct(op.choices)));
      } else {
        AppendChild(cfg, g, depth, t, op);
        h := AddEvent(g, t, op);
      }
    }
  }

  lemma ReceivedChild(cfg: Config, x: Graph, p: set<nat>, d: set<nat>, g: Graph, e: map<nat, nat>, depth: nat,
                      t: ThreadId, op: Label, b: nat) returns (h: Graph)
    requires Situation(cfg, x, p, d, g, e, depth) && NextEvent(cfg, g) == Next(t, op) && op.Receive?
    requires b in p && b < |x.events| && x.events[b] == Event(t, op) && Waits(x, d, e, b)
    requires b in x.rf && x.rf[b].From? ==> x.rf[b].send in e
    ensures Appends(g, h) && Below(cfg, h, depth + 1) && h.events[|g.events|] == x.events[b]
    ensures b in x.rf && |g.events| in h.rf && h.rf[|g.events|] == ImageOf(e, x.rf[b])
  {
    hide Below, Tracks, NextEvent, CausallyAcyclic, ReplayValid, Shaped, Waits, Unhindered, ClosedIn, FirstOfChannel,
         FifoClauseB, FifoClauseC, Consistent;
    GoodEndpoints(cfg, g, depth);
    GoodParts(cfg, x);
    assert GoodRead(x, b);
    match x.rf[b]
    case Bottom =>
      BottomChild(cfg, g, depth, t, op);
      h := AddReceive(g, t, op, Bottom);
      AddReceiveAppends(g, t, op, Bottom);
    case From(s) =>
      WaitingIsNoBlock(x, d, e, b);
      SourceIsUnread(x, d, g, e, b, s);
      CopiedSend(x, d, g, e, s);
      if cfg.model.FifoP2P? { SourceIsFirst(x, d, g, e, b, s); }
      SourceChild(cfg, g, depth, t, op, e[s]);
      h := AddReceive(g, t, op, From(e[s]));
      AddReceiveAppends(g, t, op, From(e[s]));
  }

  lemma CopiedSend(x: Graph, d: set<nat>, g: Graph, e: map<nat, nat>, s: nat)
    requires Tracks(g, x, d, e) && IsSend(x, s) && s in e
    ensures e[s] < |g.events| && g.events[e[s]] == x.events[s]
  {
    assert SameEvent(g.events[e[s]], x.events[s]);
  }

  lemma BlockNext(cfg: Config, x: Graph, p: set<nat>, d: set<nat>, g: Graph, e: map<nat, nat>, depth: nat, t: ThreadId)
    requires Situation(cfg, x, p, d, g, e, depth) && NextEvent(cfg, g) == Next(t, Block)
    ensures Advances(cfg, x, p, d, g, e, depth, AddEvent(g, t, Block), Same(|g.events|), e, depth + 1)
  {
    hide Below, Tracks, NextEvent, Consistent, ReplayValid, Shaped, Advances, Appends, Unhindered, ClosedIn;
    GoodEndpoints(cfg, g, depth);
    AppendChild(cfg, g, depth, t, Block);
    AddEventAppends(g, t, Block);
    AppendedIsCanonical(x, p, g, e, t, Block);
    ExtraAdvances(cfg, x, p, d, g, e, depth, AddEvent(g, t, Block));
  }

  lemma AppendedIsCanonical(x: Graph, p: set<nat>, g: Graph, e: map<nat, nat>, t: ThreadId, op: Label)
    requires WellFormed(g) && !op.Receive?
    requires op.Choice? ==> op.choices == [] || op.chosen == Least(op.choices)
    ensures CanonAt(AddEvent(g, t, op), x, p, e, |g.events|)
  {
    forall r: nat ensures !Reads(g, r, |g.events|) {
      if r in g.rf && g.rf[r].From? { FreshIsUnread(g, r); }
    }
  }

  /** Anything but a blocking receive, by a thread that has done its part. */
  lemma ExtraNext(cfg: Config, x: Graph, p: set<nat>, d: set<nat>, g: Graph, e: map<nat, nat>, depth: nat,
                  t: ThreadId, op: Label) returns (h: Graph)
    requires Situation(cfg, x, p, d, g, e, depth) && NextEvent(cfg, g) == Next(t, op)
    requires !(op.Receive? && op.blocking)
    requires forall a :: a in d && a < |x.events| && x.events[a].thread == t ==> a in e
    ensures Advances(cfg, x, p, d, g, e, depth, h, Same(|g.events|), e, depth + 1)
    ensures h.events == g.events + [Event(t, op)] || op.Choice?
  {
    hide Below, Tracks, NextEvent, Consistent, ReplayValid, Shaped, Advances, Appends, Distinct, Unhindered, ClosedIn;
    GoodEndpoints(cfg, g, depth);
    BelowLive(cfg, g, depth);
    TracksInside(g, x, d, e);
    if op.Receive? {
      BottomChild(cfg, g, depth, t, op);
      h := AddReceive(g, t, op, Bottom);
      AddReceiveAppends(g, t, op, Bottom);
    } else {
      var taken := op;
      if op.Choice? && op.choices != [] {
        DistinctEmpty(op);
        taken := Choice(Least(Distinct(op.choices)), Distinct(op.choices));
        ChoiceChild(cfg, g, depth, t, op, taken.chosen);
      } else {
        AppendChild(cfg, g, depth, t, op);
      }
      h := AddEvent(g, t, taken);
      AddEventAppends(g, t, taken);
      AppendedIsCanonical(x, p, g, e, t, taken);
    }
    ExtraAdvances(cfg, x, p, d, g, e, depth, h);
  }

  // ----- waking a thread -----

  lemma DropGrown(p: Program, g: Graph, b: nat)
    requires Shaped(p, g) && WellFormed(g) && IsBlock(g, b)
    ensures Grown(g, DropEvent(g, b), KeptIds(AllBut(|g.events|, b)))
    ensures |DropEvent(g, b).events| == |KeptIds(AllBut(|g.events|, b))| == |g.events| - 1
  {
    hide Shaped, WellFormed, AllBut, DropEvent, KeptIds, SourceMoved;
    var f, h := KeptIds(AllBut(|g.events|, b)), DropEvent(g, b);
    DropShrinks(g, b);
    DroppedEvents(g, b);
    forall i | 0 <= i < |f|
      ensures i in h.rf <==> f[i] in g.rf
      ensures i in h.rf ==> SourceMoved(f, g.rf[f[i]], h.rf[i])
    {
      DroppedSource(g, b, i);
    }
  }

  lemma DroppedEvents(g: Graph, b: nat)
    requires IsBlock(g, b)
    ensures var f, h := KeptIds(AllBut(|g.events|, b)), DropEvent(g, b);
            && Ascending(f) && |f| == |h.events|
            && (forall i :: 0 <= i < |f| ==> f[i] < |g.events| && h.events[i] == g.events[f[i]])
            && (forall y: nat :: y < |g.events| && y !in f ==> IsBlock(g, y))
  {
    hide AllBut;
  }

  lemma DroppedSource(g: Graph, b: nat, i: nat)
    requires WellFormed(g) && IsBlock(g, b) && i < |KeptIds(AllBut(|g.events|, b))|
    ensures var f, h := KeptIds(AllBut(|g.events|, b)), DropEvent(g, b);
            && (i in h.rf <==> f[i] in g.rf)
            && (i in h.rf ==> SourceMoved(f, g.rf[f[i]], h.rf[i]))
  {
    hide WellFormed, AllBut, KeptIds, DropEvent;
    var f, h := KeptIds(AllBut(|g.events|, b)), DropEvent(g, b);
    DroppedIsSubgraph(g, b);
    assert SourceCopied(h, g, f, i);
    DroppedNoSource(g, b, f[i]);
  }

  lemma DroppedNoSource(g: Graph, b: nat, r: nat)
    requires WellFormed(g) && IsBlock(g, b)
    ensures r in g.rf && g.rf[r].From? ==> g.rf[r].send in KeptIds(AllBut(|g.events|, b))
  {
    if r in g.rf { assert GoodRead(g, r); }
  }

  lemma WakeAdvances(cfg: Config, x: Graph, p: set<nat>, d: set<nat>, g: Graph, e: map<nat, nat>, depth: nat)
      returns (h: Graph, f: seq<nat>, e': map<nat, nat>)
    requires Situation(cfg, x, p, d, g, e, depth) && NextEvent(cfg, g).NoNext? && Reschedule(cfg.program, g).Ready?
    ensures Advances(cfg, x, p, d, g, e, depth, h, f, e', depth)
  {
    hide Below, Tracks, NextEvent, Consistent, ReplayValid, Shaped, Grown, Carries, DropEvent, Unhindered, ClosedIn,
         CanonAt, RescheduleFrom;
    GoodEndpoints(cfg, g, depth);
    var t := RescheduleIsFirst(cfg, g, cfg.program.first);
    var b := TrailingBlock(g, t).value;
    BelowReady(cfg, g, depth);
    h, f := DropEvent(g, b), KeptIds(AllBut(|g.events|, b));
    DropGrown(cfg.program, g, b);
    TracksGrown(g, h, f, x, d, e);
    e' := Moved(e, f);
  }
}
