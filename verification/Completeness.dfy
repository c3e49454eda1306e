/** Every execution the exhaustive enumeration records is published by an unhindered search. */
module Completeness {
  import opened Optional
  import opened Events
  import opened Reachability
  import opened Consistency
  import opened Subgraphs
  import opened Replay
  import opened Engine
  import opened Invariants
  import opened Oracle
  import opened OracleSoundness
  import opened OracleBranches
  import opened Branches
  import opened Tracking
  import opened Canonical
  import opened Progress
  import opened Performing
  import Targets
  import opened Redirecting
  import opened Covering

  /** The published execution `w` performs every event of `x`; whatever else it does is canonical. */
  ghost predicate Covers(cfg: Config, x: Graph, w: Graph, e: map<nat, nat>)
  {
    && Terminal(w, MaximalKind(w, false)) in Executions(cfg) && Good(cfg, w)
    && Copies(w, x, e) && e.Keys == NonBlocks(x)
    && (forall z: nat :: z < |w.events| && z !in e.Values ==> CanonAt(w, x, NonBlocks(x), e, z))
    && (forall t :: InProgram(cfg.program, t) ==> Terminated(w, t) || Asked(cfg.program, w, t) == None)
  }

  lemma NonBlocksClosed(p: Program, x: Graph)
    requires Shaped(p, x) && WellFormed(x)
    ensures ClosedIn(x, NonBlocks(x))
  {
    hide Shaped, WellFormed;
    forall a: nat, b: nat | b in NonBlocks(x) && PorfEdge(x, a, b) ensures a in NonBlocks(x) {
      BlockCausesNothing(p, x, a, b);
    }
  }

  lemma {:induction false} CoverFrom(cfg: Config, x: Graph, g: Graph, e: map<nat, nat>, depth: nat)
      returns (w: Graph, f: seq<nat>, e': map<nat, nat>, depth': nat)
    requires Situation(cfg, x, NonBlocks(x), NonBlocks(x), g, e, depth)
    ensures Situation(cfg, x, NonBlocks(x), NonBlocks(x), w, e', depth')
    ensures Progresses(x, NonBlocks(x), NonBlocks(x), g, e, w, f, e')
    ensures NextEvent(cfg, w).NoNext? && Reschedule(cfg.program, w).NoneReady?
    decreases cfg.maxDepth - depth, |g.events|
  {
    hide Situation, Progresses, NextEvent, Reschedule, Below, Good, ClosedIn, Tracks, WellFormed, Shaped, Compose,
         NonBlocks, Advances;
    var d := NonBlocks(x);
    SituationParts(cfg, x, d, d, g, e, depth);
    GoodEndpoints(cfg, g, depth);
    RescheduleGood(cfg, g);
    if NextEvent(cfg, g).NoNext? && Reschedule(cfg.program, g).NoneReady? {
      StayProgress(x, d, d, g, e);
      w, f, e', depth' := g, Same(|g.events|), e, depth;
    } else {
      AllWaitIn(x, d, e, if NextEvent(cfg, g).Next? then NextEvent(cfg, g).thread else 0);
      var h, f1, e1, depth1 := AdvanceOnce(cfg, x, d, d, g, e, depth);
      AdvancedSituation(cfg, x, d, d, g, e, depth, h, f1, e1, depth1);
      AdvanceProgress(cfg, x, d, d, g, e, depth, h, f1, e1, depth1);
      var f2: seq<nat>;
      w, f2, e', depth' := CoverFrom(cfg, x, h, e1, depth1);
      SituationParts(cfg, x, d, d, w, e', depth');
      GoodEndpoints(cfg, w, depth');
      ProgressComposes(x, d, d, g, e, h, f1, e1, w, f2, e');
      f := Compose(f1, f2);
    }
  }

  lemma AllWaitIn(x: Graph, d: set<nat>, e: map<nat, nat>, t: ThreadId)
    ensures WaitsIn(x, d, d, e, t)
  {
  }

  /** Some published execution performs everything `x` does. */
  lemma Covered(cfg: Config, x: Graph) returns (w: Graph, e: map<nat, nat>)
    requires Unhindered(cfg) && Good(cfg, x)
    ensures Covers(cfg, x, w, e)
  {
    hide Unhindered, Below, Visit, NextEvent, Reschedule, Stuck, Consistent, ReplayValid, Shaped, WellFormed,
         MaximalKind, Terminated, CanonAt, ClosedIn;
    GoodParts(cfg, x);
    NonBlocksClosed(cfg.program, x);
    BelowStarts(cfg);
    var none: map<nat, nat> := map[];
    var d := NonBlocks(x);
    assert Tracks(EmptyGraph, x, d, none);
    var f, depth;
    w, f, e, depth := CoverFrom(cfg, x, EmptyGraph, none, 0);
    NothingLeft(cfg, x, d, d, w, e, depth);
    BelowEnds(cfg, w, depth);
    GoodEndpoints(cfg, w, depth);
    KeptInside(EmptyGraph, w, f, 0);
  }

  lemma KeptInside(g: Graph, w: Graph, f: seq<nat>, i: nat)
    requires Grown(g, w, f)
    ensures i < |f| ==> f[i] < |g.events|
  {
  }

  // ----- what the published execution does beyond `x` -----

  /** Where a thread of `x` stops: at its Block, or at the end. */
  ghost predicate StopsAt(x: Graph, t: ThreadId, a: nat)
  {
    && a <= |x.events|
    && forall b: nat :: b < |x.events| && x.events[b].thread == t ==> (b < a <==> !IsBlock(x, b))
  }

  lemma ThreadStops(p: Program, x: Graph, t: ThreadId) returns (a: nat)
    requires Shaped(p, x)
    ensures StopsAt(x, t, a) && (a == |x.events| || (IsBlock(x, a) && x.events[a].thread == t))
  {
    if b: nat :| IsBlock(x, b) && x.events[b].thread == t {
      a := b;
      forall c: nat | c < |x.events| && x.events[c].thread == t ensures c < a <==> !IsBlock(x, c) {
        assert !Po(x, a, c);
        assert c < a ==> Po(x, c, a);
      }
    } else {
      a := |x.events|;
    }
  }

  /** Up to its first event of its own, the thread has seen what it saw in `x`. */
  lemma CoveredTrace(x: Graph, w: Graph, e: map<nat, nat>, t: ThreadId, a: nat, n: nat)
    requires Copies(w, x, e) && WellFormed(x) && ReadsTotal(x) && e.Keys == NonBlocks(x) && StopsAt(x, t, a)
    requires n <= |w.events| && forall y: nat ::
               y < |w.events| && w.events[y].thread == t ==> (y < n <==> y in e.Values)
    ensures TraceUpTo(w, t, n) == TraceUpTo(x, t, a) && StepsUpTo(w, t, n) == StepsUpTo(x, t, a)
  {
    forall y: nat | y < n && w.events[y].thread == t ensures exists b :: b in e && b < a && e[b] == y {
      var b := CopyAt(e, y);
      assert SameEvent(w.events[y], x.events[b]);
    }
    forall b: nat | b < a && x.events[b].thread == t ensures b in e && e[b] < n {
      assert b in NonBlocks(x);
      assert SameEvent(w.events[e[b]], x.events[b]);
      assert e[b] in e.Values;
    }
    hide Copies, WellFormed, StopsAt;
    MatchedTrace(w, x, e, t, n, a);
  }

  /** The thread's first event of its own, if it has one. */
  lemma FirstOwn(x: Graph, w: Graph, e: map<nat, nat>, t: ThreadId) returns (n: nat)
    requires Copies(w, x, e)
    ensures n <= |w.events| && forall y: nat :: y < |w.events| && w.events[y].thread == t ==> (y < n <==> y in e.Values)
    ensures n == |w.events| || (w.events[n].thread == t && n !in e.Values)
  {
    var own := set y: nat | 0 <= y < |w.events| && w.events[y].thread == t && y !in e.Values;
    if own == {} {
      n := |w.events|;
      assert forall y: nat :: y < |w.events| && w.events[y].thread == t && y !in e.Values ==> y in own;
    } else {
      n := LeastOf(own);
      forall y: nat | y < |w.events| && w.events[y].thread == t ensures y < n <==> y in e.Values {
        if y !in e.Values {
          assert y in own;
        } else {
          var b := CopyAt(e, y);
          assert n < y ==> Po(w, n, e[b]);
        }
      }
    }
  }

  /** It is an answer to what the thread saw in `x`; and without one the thread gives that answer now. */
  lemma OwnAnswer(cfg: Config, x: Graph, w: Graph, e: map<nat, nat>, t: ThreadId, a: nat, n: nat)
    requires Covers(cfg, x, w, e) && Good(cfg, x) && StopsAt(x, t, a) && n <= |w.events|
    requires forall y: nat :: y < |w.events| && w.events[y].thread == t ==> (y < n <==> y in e.Values)
    requires n == |w.events| || w.events[n].thread == t
    ensures var answer := cfg.program.next(t, TraceUpTo(x, t, a), StepsUpTo(x, t, a));
            if n == |w.events| then Asked(cfg.program, w, t) == answer else Conforms(w.events[n].op, answer)
  {
    hide Copies, Consistent, Shaped, StopsAt, TraceUpTo, StepsUpTo, Terminated, CanonAt, Conforms, Visit, MaximalKind;
    GoodParts(cfg, x);
    CoveredTrace(x, w, e, t, a, n);
    if n < |w.events| { assert Conforms(w.events[n].op, Answer(cfg.program, w, n)); }
  }

  /** A thread that only copies is still live. */
  lemma CopyIsLive(cfg: Config, x: Graph, w: Graph, e: map<nat, nat>, t: ThreadId)
    requires Covers(cfg, x, w, e)
    requires forall y: nat :: y < |w.events| && w.events[y].thread == t ==> y in e.Values
    ensures !Terminated(w, t)
  {
    hide Consistent, ReplayValid, CanonAt, Visit, MaximalKind, Asked;
    var last := LastEvent(w, t);
    if last.Some? {
      var b := CopyAt(e, last.value);
      assert SameEvent(w.events[last.value], x.events[b]);
    }
  }

  /** No thread, asked where it stops in `x`, answers with an error. */
  lemma NoErrorAhead(cfg: Config, x: Graph, t: ThreadId)
    requires Unhindered(cfg) && Good(cfg, x) && InProgram(cfg.program, t) && !Terminated(x, t)
    ensures Asked(cfg.program, x, t).Some? ==> !Asked(cfg.program, x, t).value.Error?
  {
    hide Unhindered, Consistent, ReplayValid, CanonAt, Visit, MaximalKind, Terminated, Copies;
    var w, e := Covered(cfg, x);
    var a := ThreadStops(cfg.program, x, t);
    if a < |x.events| { BlockTerminates(cfg.program, x, a); }
    CoversCopies(cfg, x, w, e);
    var n := FirstOwn(x, w, e, t);
    OwnAnswer(cfg, x, w, e, t, a, n);
    if n == |w.events| { CopyIsLive(cfg, x, w, e, t); }
  }

  lemma CoversCopies(cfg: Config, x: Graph, w: Graph, e: map<nat, nat>)
    requires Covers(cfg, x, w, e)
    ensures Copies(w, x, e) && Good(cfg, w) && e.Keys == NonBlocks(x)
  {
  }

  // ----- a leaf leaves nothing to do -----

  /** Every thread of `x` is done or stuck. */
  ghost predicate Finished(cfg: Config, x: Graph)
  {
    && AllStuck(cfg.program, x)
    && forall t :: InProgram(cfg.program, t) ==> Terminated(x, t) || Asked(cfg.program, x, t) == None
  }

  /** The first event a thread adds is the Block it has in `x`, or a receive in its place. */
  lemma OwnEvent(cfg: Config, x: Graph, w: Graph, e: map<nat, nat>, z: nat)
    requires Covers(cfg, x, w, e) && Good(cfg, x) && Finished(cfg, x)
    requires z < |w.events| && z !in e.Values && forall y: nat :: Po(w, y, z) ==> y in e.Values
    ensures exists b: nat :: IsBlock(x, b) && x.events[b].thread == w.events[z].thread
                             && Conforms(w.events[z].op, Answer(cfg.program, x, b))
  {
    hide Consistent, ReplayValid, CanonAt, Visit, MaximalKind, Terminated, Copies, Conforms, StuckAt, TraceUpTo,
         StepsUpTo;
    var t := w.events[z].thread;
    CoversCopies(cfg, x, w, e);
    var a := ThreadStops(cfg.program, x, t);
    var n := FirstOwn(x, w, e, t);
    assert !Po(w, n, z);
    assert n == z;
    OwnAnswer(cfg, x, w, e, t, a, n);
    if a == |x.events| { DoneHasNoMore(cfg, x, t, w.events[z].op); }
    assert IsBlock(x, a) && Conforms(w.events[z].op, Answer(cfg.program, x, a));
  }

  lemma DoneHasNoMore(cfg: Config, x: Graph, t: ThreadId, op: Label)
    requires Good(cfg, x) && Finished(cfg, x) && InProgram(cfg.program, t) && StopsAt(x, t, |x.events|)
    ensures !Conforms(op, Asked(cfg.program, x, t))
  {
    hide Consistent, ReplayValid, AllStuck;
    var last := LastEvent(x, t);
    if last.Some? { assert !IsBlock(x, last.value); }
  }

  lemma ReadTwice(x: Graph, w: Graph, e: map<nat, nat>, z: nat, a: nat, r: nat)
    requires Copies(w, x, e) && WellFormed(w) && WellFormed(x) && e.Keys == NonBlocks(x)
    requires a in e && Reads(w, z, e[a]) && Reads(x, r, a)
    ensures z in e.Values
  {
    assert GoodRead(x, r);
    assert r in e;
    CopiedSourceOf(w, x, e, r);
    assert w.rf[e[r]] == w.rf[z];
    assert e[r] == z;
  }

  /** A receive in place of a Block would take a send that was there for it in `x` too. */
  lemma OwnReceive(cfg: Config, x: Graph, w: Graph, e: map<nat, nat>, z: nat, b: nat)
    requires Covers(cfg, x, w, e) && Good(cfg, x) && Finished(cfg, x) && IsBlock(x, b)
    requires z < |w.events| && z !in e.Values && x.events[b].thread == w.events[z].thread
    requires Conforms(w.events[z].op, Answer(cfg.program, x, b)) && !IsBlock(w, z)
    ensures exists c: nat :: c !in e.Values && !IsBlock(w, c) && PorfEdge(w, c, z)
  {
    hide ReplayValid, CanonAt, Visit, MaximalKind, Terminated, Copies, CausallyAcyclic, Shaped, CompatibleSends;
    CoversCopies(cfg, x, w, e);
    assert StuckAt(cfg.program, x, b);
    assert IsReceive(w, z) && GoodRead(w, z);
    var c := w.rf[z].send;
    assert PorfEdge(w, c, z);
    if c in e.Values {
      var a := CopyAt(e, c);
      SendCopied(x, w, e, a);
      NotCompatible(x, w.events[z].thread, w.events[z].op, a);
      var r: nat :| r in x.rf && x.rf[r] == From(a);
      ReadTwice(x, w, e, z, a, r);
    }
  }

  lemma SendCopied(x: Graph, w: Graph, e: map<nat, nat>, a: nat)
    requires Copies(w, x, e) && a in e && IsSend(w, e[a])
    ensures a < |x.events| && x.events[a] == w.events[e[a]]
  {
    assert SameEvent(w.events[e[a]], x.events[a]);
  }

  lemma NotCompatible(x: Graph, t: ThreadId, op: Label, a: nat)
    requires CompatibleSends(x, t, op) == []
    ensures !CompatibleUnread(x, t, op, a)
  {
    assert a !in CompatibleSends(x, t, op);
  }

  /** So the published execution adds nothing but Blocks. */
  lemma OnlyBlocksAdded(cfg: Config, x: Graph, w: Graph, e: map<nat, nat>, z: nat)
    requires Covers(cfg, x, w, e) && Good(cfg, x) && Finished(cfg, x) && z < |w.events| && z !in e.Values
    ensures IsBlock(w, z)
  {
    hide Covers, Good, Finished, PorfEdges, Conforms;
    CoversCopies(cfg, x, w, e);
    GoodParts(cfg, w);
    var own := set y: nat | 0 <= y < |w.events| && y !in e.Values && !IsBlock(w, y);
    if own != {} {
      var y := MinimalElement(PorfEdges(w), own);
      OwnIsFirst(cfg.program, w, e, own, y);
      OwnEvent(cfg, x, w, e, y);
      var b: nat :| IsBlock(x, b) && x.events[b].thread == w.events[y].thread
                    && Conforms(w.events[y].op, Answer(cfg.program, x, b));
      OwnReceive(cfg, x, w, e, y, b);
      var c: nat :| c !in e.Values && !IsBlock(w, c) && PorfEdge(w, c, y);
      EdgeInside(w, c, y);
      assert false;
    }
    assert !IsBlock(w, z) ==> z in own;
  }

  lemma EdgeInside(w: Graph, c: nat, y: nat)
    requires PorfEdge(w, c, y)
    ensures c < |w.events| && (c, y) in PorfEdges(w)
  {
  }

  lemma OwnIsFirst(p: Program, w: Graph, e: map<nat, nat>, own: set<nat>, y: nat)
    requires Shaped(p, w) && own == set k: nat | 0 <= k < |w.events| && k !in e.Values && !IsBlock(w, k)
    requires y in own && forall a: nat :: a in own ==> (a, y) !in PorfEdges(w)
    ensures forall k: nat :: Po(w, k, y) ==> k in e.Values
  {
    forall k: nat | Po(w, k, y) ensures k in e.Values {
      EdgeInside(w, k, y);
      assert !IsBlock(w, k);
      assert k !in own;
    }
  }

  // ----- the Blocks match -----

  /** A Block of `x` is one of the published execution. */
  lemma BlockMatched(cfg: Config, x: Graph, w: Graph, e: map<nat, nat>, b: nat) returns (n: nat)
    requires Covers(cfg, x, w, e) && Good(cfg, x) && Finished(cfg, x) && IsBlock(x, b)
    ensures IsBlock(w, n) && w.events[n].thread == x.events[b].thread
  {
    hide Consistent, ReplayValid, CanonAt, Visit, MaximalKind, Terminated, Copies, TraceUpTo, StepsUpTo;
    var t := x.events[b].thread;
    assert InProgram(cfg.program, t) && StuckAt(cfg.program, x, b);
    CoversCopies(cfg, x, w, e);
    n := FirstOwn(x, w, e, t);
    if n == |w.events| {
      BlockStops(cfg.program, x, b);
      OwnAnswer(cfg, x, w, e, t, b, n);
      CopyIsLive(cfg, x, w, e, t);
    } else {
      OnlyBlocksAdded(cfg, x, w, e, n);
    }
  }

  lemma BlockStops(p: Program, x: Graph, b: nat)
    requires Shaped(p, x) && IsBlock(x, b)
    ensures StopsAt(x, x.events[b].thread, b)
  {
    var a := ThreadStops(p, x, x.events[b].thread);
    if a < |x.events| { OneBlockPerThread(p, x, a, b); }
  }

  /** And a Block it has is one of `x`. */
  lemma BlockWasThere(cfg: Config, x: Graph, w: Graph, e: map<nat, nat>, n: nat) returns (b: nat)
    requires Covers(cfg, x, w, e) && Good(cfg, x) && Finished(cfg, x) && IsBlock(w, n)
    ensures IsBlock(x, b) && w.events[n].thread == x.events[b].thread
  {
    hide Consistent, ReplayValid, CanonAt, Visit, MaximalKind, Terminated, Copies, Conforms, Finished;
    CoversCopies(cfg, x, w, e);
    if n in e.Values {
      var a := CopyAt(e, n);
      CopiedBlock(x, w, e, a);
    }
    forall y: nat | Po(w, y, n) ensures y in e.Values {
      if y !in e.Values { OnlyBlocksAdded(cfg, x, w, e, y); }
    }
    OwnEvent(cfg, x, w, e, n);
    b :| IsBlock(x, b) && x.events[b].thread == w.events[n].thread
        && Conforms(w.events[n].op, Answer(cfg.program, x, b));
  }

  lemma CopiedBlock(x: Graph, w: Graph, e: map<nat, nat>, a: nat)
    requires Copies(w, x, e) && a in e
    ensures IsBlock(x, a) <==> IsBlock(w, e[a])
  {
    assert SameEvent(w.events[e[a]], x.events[a]);
  }

  // ----- the same execution -----

  ghost function Ids(x: Graph, k: nat): set<nat>
    requires k <= |x.events|
  {
    NonBlocks(x) + set b: nat | 0 <= b < k && IsBlock(x, b)
  }

  ghost predicate Extends(e: map<nat, nat>, e': map<nat, nat>)
  {
    forall a :: a in e ==> a in e' && e'[a] == e[a]
  }

  /** Block by Block, `x` is copied as a whole. */
  lemma {:induction false} CopyBlocks(cfg: Config, x: Graph, w: Graph, e: map<nat, nat>, k: nat)
      returns (e': map<nat, nat>)
    requires Covers(cfg, x, w, e) && Good(cfg, x) && Finished(cfg, x) && k <= |x.events|
    ensures Copies(w, x, e') && e'.Keys == Ids(x, k) && Extends(e, e')
    decreases k
  {
    hide Covers, Good, Finished, Copies, NonBlocks;
    CoversCopies(cfg, x, w, e);
    if k == 0 {
      e' := e;
      assert Ids(x, 0) == NonBlocks(x);
    } else {
      e' := CopyBlocks(cfg, x, w, e, k - 1);
      var b := k - 1;
      if IsBlock(x, b) {
        var n := BlockMatched(cfg, x, w, e, b);
        CopyBlock(cfg, x, w, e, e', b, n);
        e' := e'[b := n];
        assert Ids(x, k) == Ids(x, b) + {b};
      } else {
        assert Ids(x, k) == Ids(x, b);
      }
    }
  }

  lemma CopyBlock(cfg: Config, x: Graph, w: Graph, e: map<nat, nat>, e': map<nat, nat>, b: nat, n: nat)
    requires Covers(cfg, x, w, e) && Good(cfg, x) && Finished(cfg, x)
    requires Copies(w, x, e') && b < |x.events| && e'.Keys == Ids(x, b) && Extends(e, e')
    requires IsBlock(x, b) && IsBlock(w, n) && w.events[n].thread == x.events[b].thread
    ensures Copies(w, x, e'[b := n]) && Extends(e, e'[b := n])
  {
    hide Covers, Finished, Copies, PorfEdge, Consistent, ReplayValid;
    CoversCopies(cfg, x, w, e);
    GoodParts(cfg, x);
    GoodParts(cfg, w);
    OnlyReceivesRead(x, b);
    forall a: nat | PorfEdge(x, a, b) ensures a in e && (Po(x, a, b) ==> e'[a] < n) {
      BlockCausesNothing(cfg.program, x, a, b);
      EdgeInside(x, a, b);
      CopyBeforeBlock(cfg.program, x, w, e', a, b, n);
    }
    forall a: nat | Po(x, a, b) && a in e' ensures e'[a] < n { CopyBeforeBlock(cfg.program, x, w, e', a, b, n); }
    forall z: nat | Po(w, z, n) ensures z in e'.Values {
      assert !IsBlock(w, z);
      if z !in e.Values { OnlyBlocksAdded(cfg, x, w, e, z); }
      var a := CopyAt(e, z);
      assert e'[a] == z;
    }
    Targets.AddCopy(w, x, e', b, n);
  }

  lemma CopyBeforeBlock(p: Program, x: Graph, w: Graph, e: map<nat, nat>, a: nat, b: nat, n: nat)
    requires Copies(w, x, e) && Shaped(p, w) && Shaped(p, x) && IsBlock(w, n) && IsBlock(x, b)
    requires w.events[n].thread == x.events[b].thread && a in e
    ensures Po(x, a, b) ==> e[a] < n
  {
    assert SameEvent(w.events[e[a]], x.events[a]);
    assert !Po(w, n, e[a]);
    assert Po(x, a, b) ==> !IsBlock(x, a);
  }

  ghost function Listing(x: Graph, e: map<nat, nat>): seq<nat>
    requires forall a: nat :: a < |x.events| ==> a in e
  {
    seq(|x.events|, i requires 0 <= i < |x.events| => e[i])
  }

  lemma CopiesAreSubgraph(x: Graph, w: Graph, e: map<nat, nat>)
    requires Copies(w, x, e) && WellFormed(x) && WellFormed(w) && (forall a: nat :: a < |x.events| ==> a in e)
    requires ReadsTotal(x)
    ensures Subgraph(x, w, Listing(x, e))
  {
    var f := Listing(x, e);
    forall i, j | 0 <= i < j < |f| ensures f[i] != f[j] {
      if f[i] == f[j] { CopiesInjective(w, x, e, i, j); }
    }
    forall i, j | 0 <= i < j < |f| && w.events[f[i]].thread == w.events[f[j]].thread ensures f[i] < f[j] {
      assert SameEvent(w.events[e[i]], x.events[i]) && SameEvent(w.events[e[j]], x.events[j]);
      CopiesOrder(w, x, e, i, j);
    }
    forall i | 0 <= i < |f| ensures SameEvent(x.events[i], w.events[f[i]]) && SourceCopied(x, w, f, i) {
      assert SameEvent(w.events[e[i]], x.events[i]);
      ListedSource(x, w, e, i);
    }
    NoReadBeyond(x);
  }

  lemma ListedSource(x: Graph, w: Graph, e: map<nat, nat>, i: nat)
    requires Copies(w, x, e) && WellFormed(x) && WellFormed(w) && (forall a: nat :: a < |x.events| ==> a in e)
    requires i < |x.events| && (IsReceive(x, i) ==> i in x.rf)
    ensures SourceCopied(x, w, Listing(x, e), i)
  {
    var f := Listing(x, e);
    assert SameEvent(w.events[e[i]], x.events[i]);
    if i in x.rf {
      assert GoodRead(x, i);
      CopiedSourceOf(w, x, e, i);
      if x.rf[i].From? { assert f[x.rf[i].send] in f; }
    } else {
      OnlyReceivesRead(w, e[i]);
    }
  }

  lemma AllListed(cfg: Config, x: Graph, w: Graph, e: map<nat, nat>, e': map<nat, nat>, y: nat)
    requires Covers(cfg, x, w, e) && Good(cfg, x) && Finished(cfg, x) && y < |w.events|
    requires Copies(w, x, e') && e'.Keys == Ids(x, |x.events|) && Extends(e, e')
    ensures y in e'.Values
  {
    hide Covers, Finished, Copies, Consistent, ReplayValid;
    CoversCopies(cfg, x, w, e);
    if y in e.Values {
      var a := CopyAt(e, y);
      assert e'[a] == y;
    } else {
      OnlyBlocksAdded(cfg, x, w, e, y);
      var b := BlockWasThere(cfg, x, w, e, y);
      CopiedBlock(x, w, e', b);
      Targets.CopiedEvent(w, x, e', b);
      OneBlockPerThread(cfg.program, w, y, e'[b]);
    }
  }

  lemma SameAsPublished(cfg: Config, x: Graph, w: Graph, e: map<nat, nat>)
    requires Covers(cfg, x, w, e) && Good(cfg, x) && Finished(cfg, x)
    ensures SameExecution(x, w)
  {
    hide Covers, Finished, Copies, Good, Subgraph;
    CoversCopies(cfg, x, w, e);
    GoodParts(cfg, x);
    GoodParts(cfg, w);
    var e' := CopyBlocks(cfg, x, w, e, |x.events|);
    CopiesInside(w, x, e');
    forall a: nat | a < |x.events| ensures a in e' { assert a in Ids(x, |x.events|); }
    forall y: nat | y < |w.events| ensures y in e'.Values { AllListed(cfg, x, w, e, e', y); }
    CopiesAreSubgraph(x, w, e');
    ListingIsWhole(x, w, e');
  }

  lemma ListingIsWhole(x: Graph, w: Graph, e: map<nat, nat>)
    requires (forall a: nat :: a < |x.events| ==> a in e) && Subgraph(x, w, Listing(x, e))
    requires (forall a :: a in e ==> a < |x.events|) && forall y: nat :: y < |w.events| ==> y in e.Values
    ensures |Listing(x, e)| == |w.events|
  {
    hide Subgraph;
    var f := Listing(x, e);
    SubgraphSelects(x, w, f);
    forall y: nat | y < |w.events| ensures y in f {
      var a := CopyAt(e, y);
      assert f[a] == y;
    }
    ListingLength(|w.events|, f);
  }

  lemma SubgraphSelects(x: Graph, w: Graph, f: seq<nat>)
    requires Subgraph(x, w, f)
    ensures forall i :: 0 <= i < |f| ==> f[i] < |w.events|
    ensures forall i, j :: 0 <= i < j < |f| ==> f[i] != f[j]
    ensures forall y :: y in f ==> y < |w.events|
  {
  }

  lemma SameBlocked(cfg: Config, x: Graph, w: Graph, e: map<nat, nat>)
    requires Covers(cfg, x, w, e) && Good(cfg, x) && Finished(cfg, x)
    ensures HasBlockedThread(x) <==> HasBlockedThread(w)
  {
    hide Covers, Finished, Copies, Good, HasBlockedThread;
    CoversCopies(cfg, x, w, e);
    GoodParts(cfg, x);
    GoodParts(cfg, w);
    BlockedIffBlock(cfg.program, x);
    BlockedIffBlock(cfg.program, w);
    if b: nat :| IsBlock(x, b) { var n := BlockMatched(cfg, x, w, e, b); }
    if n: nat :| IsBlock(w, n) { var b := BlockWasThere(cfg, x, w, e, n); }
  }

  // ----- the enumeration -----

  /** Along a branch of the enumeration no thread can answer with an error, and every graph is one the search covers. */
  lemma {:induction false} BranchGood(cfg: Config, graphs: seq<Graph>, k: nat)
    requires Unhindered(cfg) && Branch(cfg.program, cfg.model, graphs) && k < |graphs|
    ensures Good(cfg, Normal(graphs[k]))
    decreases k
  {
    hide Edge, Good, Normal, Unhindered;
    if k == 0 {
      EmptyGraphPending(cfg);
      PendingIsGood(cfg, Task(EmptyGraph, false));
      NormalEmpty();
    } else {
      BranchGood(cfg, graphs, k - 1);
      EdgeGood(cfg, graphs[k - 1], graphs[k]);
    }
  }

  lemma NormalEmpty()
    ensures Normal(EmptyGraph) == EmptyGraph
  {
  }

  lemma EdgeGood(cfg: Config, g: Graph, h: Graph)
    requires Unhindered(cfg) && Good(cfg, Normal(g)) && Edge(cfg.program, cfg.model, g, h)
    ensures Good(cfg, Normal(h))
  {
    hide Good, Normal, Enabled, Wakes, Consistent, Apply, Visit, ValidProgram;
    if tr: Transition :| Enabled(cfg.program, g, tr) && h == Apply(g, tr) && Consistent(h, cfg.model) {
      StepIsNoError(cfg, g, tr);
      AppliedGood(cfg, g, tr);
    } else {
      var t: ThreadId :| Wakes(cfg.program, g, t, h);
      WokenGood(cfg, g, t, h);
    }
  }

  lemma StepIsNoError(cfg: Config, g: Graph, tr: Transition)
    requires Unhindered(cfg) && Good(cfg, Normal(g)) && Enabled(cfg.program, g, tr)
    ensures Asked(cfg.program, g, tr.thread).Some? && !Asked(cfg.program, g, tr.thread).value.Error?
  {
    hide Good, Normal, Unhindered, Terminated, Trace, Steps, Offers;
    NormalTrace(g, tr.thread);
    NoErrorAhead(cfg, Normal(g), tr.thread);
  }

  lemma LeafFinished(cfg: Config, x: Graph)
    requires Good(cfg, x) && Leaf(cfg.program, x)
    ensures Finished(cfg, x)
  {
    hide Good, StuckAt, Quiet, Wakes, Terminated, Asked;
    forall b: nat | IsBlock(x, b) ensures StuckAt(cfg.program, x, b) { LeafIsStuck(cfg, x, b); }
    forall t | InProgram(cfg.program, t) ensures Terminated(x, t) || Asked(cfg.program, x, t) == None {
      QuietThread(cfg.program, x, t);
    }
  }

  /** `g` is among the published, as a complete execution and up to interleaving. */
  ghost predicate Published(published: seq<Terminal>, g: Graph)
  {
    exists e :: e in published && SameExecution(g, e.graph) && e.kind == if HasBlockedThread(g) then Blocked else Full
  }

  /** Completeness: a search that found no error and hit no bound publishes every execution the exhaustive enumeration
      records, under either model. */
  lemma RecordedIsPublished(cfg: Config, graphs: seq<Graph>)
    requires Unhindered(cfg) && Branch(cfg.program, cfg.model, graphs) && Leaf(cfg.program, graphs[|graphs| - 1])
    ensures Published(Executions(cfg), graphs[|graphs| - 1])
  {
    hide Unhindered, Edge, Leaf, Good, Covers, Finished, Normal, HasBlockedThread, SameExecution, Visit;
    var g := graphs[|graphs| - 1];
    var x := Normal(g);
    BranchGood(cfg, graphs, |graphs| - 1);
    NormalLeaf(cfg.program, g);
    LeafFinished(cfg, x);
    var w, e := Covered(cfg, x);
    SameAsPublished(cfg, x, w, e);
    SameBlocked(cfg, x, w, e);
    CoversTerminal(cfg, x, w, e);
    NormalSame(g, w);
    NormalBlocked(g);
    assert SameExecution(g, Terminal(w, MaximalKind(w, false)).graph);
  }

  lemma CoversTerminal(cfg: Config, x: Graph, w: Graph, e: map<nat, nat>)
    requires Covers(cfg, x, w, e)
    ensures Terminal(w, MaximalKind(w, false)) in Executions(cfg)
  {
    hide Good, Copies, CanonAt, Visit, MaximalKind;
  }

  lemma NormalSame(g: Graph, w: Graph)
    requires SameExecution(Normal(g), w)
    ensures SameExecution(g, w)
  {
    hide Distinct;
    var f: seq<nat> :| Subgraph(Normal(g), w, f) && |f| == |w.events|;
    forall i | 0 <= i < |f| ensures SameEvent(g.events[i], w.events[f[i]]) && SourceCopied(g, w, f, i) {
      assert SameEvent(Normal(g).events[i], w.events[f[i]]) && SourceCopied(Normal(g), w, f, i);
    }
    assert Subgraph(g, w, f);
  }

  lemma NormalBlocked(g: Graph)
    ensures HasBlockedThread(Normal(g)) <==> HasBlockedThread(g)
  {
    hide Normal, LastEvent;
    forall b: nat | b < |g.events|
      ensures Normal(g).events[b].thread == g.events[b].thread && (IsBlock(Normal(g), b) <==> IsBlock(g, b))
      ensures LastEvent(Normal(g), g.events[b].thread) == LastEvent(g, g.events[b].thread)
    {
      NormalBlock(g, b);
      NormalTrace(g, g.events[b].thread);
    }
  }
}
