/** How far one graph has got in performing another: a partial copy that keeps threads and sources, whatever else the
    graph contains. */
module Tracking {
  import opened Events
  import opened Consistency
  import opened Subgraphs

  ghost function ImageOf(e: map<nat, nat>, source: Source): Source
    requires source.From? ==> source.send in e
  {
    match source
    case Bottom => Bottom
    case From(s) => From(e[s])
  }

  /** `e` sends events of `x` to their copies in `g`: a causally closed part of `x`, thread prefixes of `g`. */
  ghost predicate Copies(g: Graph, x: Graph, e: map<nat, nat>)
  {
    && (forall a :: a in e ==> a < |x.events| && e[a] < |g.events| && SameEvent(g.events[e[a]], x.events[a]))
    && (forall a, b :: a in e && b in e && Po(x, a, b) ==> e[a] < e[b])
    && (forall a: nat, b: nat :: b in e && PorfEdge(x, a, b) ==> a in e)
    && (forall b, y: nat :: b in e && Po(g, y, e[b]) ==> y in e.Values)
    && (forall b :: b in e && b in x.rf ==>
          && (x.rf[b].From? ==> x.rf[b].send in e)
          && e[b] in g.rf && g.rf[e[b]] == ImageOf(e, x.rf[b]))
  }

  /** A causally closed set of events of `x`, Blocks aside. */
  ghost predicate ClosedIn(x: Graph, d: set<nat>)
  {
    && (forall a :: a in d ==> a < |x.events| && !IsBlock(x, a))
    && (forall a: nat, b: nat :: b in d && PorfEdge(x, a, b) ==> a in d)
  }

  /** `g` performs the events in `d`: a thread does other things only once it has performed its part. */
  ghost predicate Tracks(g: Graph, x: Graph, d: set<nat>, e: map<nat, nat>)
  {
    && Copies(g, x, e) && e.Keys <= d && (forall a :: a in d ==> a < |x.events|)
    && (forall y: nat, a: nat ::
          y < |g.events| && !IsBlock(g, y) && y !in e.Values && a in d && x.events[a].thread == g.events[y].thread ==>
            a in e)
  }

  lemma CopyAt(e: map<nat, nat>, y: nat) returns (a: nat)
    requires y in e.Values
    ensures a in e && e[a] == y
  {
    a :| a in e && e[a] == y;
  }

  lemma CopiesInjective(g: Graph, x: Graph, e: map<nat, nat>, a: nat, b: nat)
    requires Copies(g, x, e) && a in e && b in e && e[a] == e[b]
    ensures a == b
  {
    assert SameEvent(g.events[e[a]], x.events[a]) && SameEvent(g.events[e[b]], x.events[b]);
    if a < b {
      assert Po(x, a, b);
    } else if b < a {
      assert Po(x, b, a);
    }
  }

  lemma CopiesOrder(g: Graph, x: Graph, e: map<nat, nat>, a: nat, b: nat)
    requires Copies(g, x, e) && a in e && b in e && x.events[a].thread == x.events[b].thread
    ensures a < b <==> e[a] < e[b]
  {
    if b < a { assert Po(x, b, a); }
    if a < b { assert Po(x, a, b); }
  }

  // ----- traces -----

  lemma EmitsMatched(g: Graph, x: Graph, e: map<nat, nat>, b: nat)
    requires Copies(g, x, e) && WellFormed(x) && ReadsTotal(x) && b in e
    ensures Emits(g, e[b]) == Emits(x, b)
  {
    assert SameEvent(g.events[e[b]], x.events[b]);
    if x.events[b].op.Receive? {
      assert IsReceive(x, b);
      assert GoodRead(x, b);
      if x.rf[b].From? {
        var s := x.rf[b].send;
        assert SameEvent(g.events[e[s]], x.events[s]);
      }
    }
  }

  ghost function Through(e: map<nat, nat>, ids: seq<nat>): seq<nat>
    requires forall i :: 0 <= i < |ids| ==> ids[i] in e
  {
    seq(|ids|, i requires 0 <= i < |ids| => e[ids[i]])
  }

  lemma {:induction false} EmitsThrough(g: Graph, x: Graph, e: map<nat, nat>, ids: seq<nat>)
    requires Copies(g, x, e) && WellFormed(x) && ReadsTotal(x)
    requires forall i :: 0 <= i < |ids| ==> ids[i] in e
    ensures EmitsAll(g, Through(e, ids)) == EmitsAll(x, ids)
    decreases |ids|
  {
    hide Emits;
    if ids != [] {
      var n := |ids| - 1;
      EmitsThrough(g, x, e, ids[..n]);
      assert Through(e, ids)[..n] == Through(e, ids[..n]);
      EmitsMatched(g, x, e, ids[n]);
    }
  }

  /** Below `n` the thread has performed exactly what it does in `x` below `a`. */
  ghost predicate Matches(g: Graph, x: Graph, e: map<nat, nat>, t: ThreadId, n: nat, a: nat)
  {
    && n <= |g.events| && a <= |x.events|
    && (forall y: nat :: y < n && g.events[y].thread == t ==> exists b :: b in e && b < a && e[b] == y)
    && (forall b: nat :: b < a && x.events[b].thread == t ==> b in e && e[b] < n)
  }

  lemma MatchedIds(g: Graph, x: Graph, e: map<nat, nat>, t: ThreadId, n: nat, a: nat)
    requires Copies(g, x, e) && Matches(g, x, e, t, n, a)
    ensures forall i :: 0 <= i < |ThreadIds(x, t, a)| ==> ThreadIds(x, t, a)[i] in e
    ensures ThreadIds(g, t, n) == Through(e, ThreadIds(x, t, a))
  {
    var ids := ThreadIds(x, t, a);
    var image := Through(e, ids);
    forall i, j | 0 <= i < j < |image| ensures image[i] < image[j] {
      assert Po(x, ids[i], ids[j]);
    }
    forall y ensures y in image <==> y in ThreadIds(g, t, n) {
      MatchedMember(g, x, e, t, n, a, y);
    }
    AscendingUnique(image, ThreadIds(g, t, n));
  }

  lemma MatchedMember(g: Graph, x: Graph, e: map<nat, nat>, t: ThreadId, n: nat, a: nat, y: nat)
    requires Copies(g, x, e) && Matches(g, x, e, t, n, a)
    requires forall i :: 0 <= i < |ThreadIds(x, t, a)| ==> ThreadIds(x, t, a)[i] in e
    ensures y in Through(e, ThreadIds(x, t, a)) <==> y in ThreadIds(g, t, n)
  {
    var ids := ThreadIds(x, t, a);
    var image := Through(e, ids);
    ThreadIdsMember(g, t, n, y);
    if y in image {
      var i :| 0 <= i < |ids| && image[i] == y;
      assert SameEvent(g.events[e[ids[i]]], x.events[ids[i]]);
    }
    if y in ThreadIds(g, t, n) {
      var b :| b in e && b < a && e[b] == y;
      assert SameEvent(g.events[e[b]], x.events[b]);
      ThreadIdsMember(x, t, a, b);
      var i :| 0 <= i < |ids| && ids[i] == b;
      assert image[i] == y;
    }
  }

  /** A thread that has performed the same has seen the same. */
  lemma MatchedTrace(g: Graph, x: Graph, e: map<nat, nat>, t: ThreadId, n: nat, a: nat)
    requires Copies(g, x, e) && WellFormed(x) && ReadsTotal(x) && Matches(g, x, e, t, n, a)
    ensures TraceUpTo(g, t, n) == TraceUpTo(x, t, a) && StepsUpTo(g, t, n) == StepsUpTo(x, t, a)
  {
    hide Copies;
    MatchedIds(g, x, e, t, n, a);
    EmitsThrough(g, x, e, ThreadIds(x, t, a));
  }

  // ----- growth: appending, dropping Blocks -----

  /** `h` starts with `g`, except that Blocks of `g` may be gone: position `i` of `h` is event `f[i]` of `g`. */
  ghost predicate Grown(g: Graph, h: Graph, f: seq<nat>)
  {
    && Ascending(f) && |f| <= |h.events|
    && (forall i :: 0 <= i < |f| ==> f[i] < |g.events| && h.events[i] == g.events[f[i]])
    && (forall y: nat :: y < |g.events| && y !in f ==> IsBlock(g, y))
    && (forall i :: 0 <= i < |f| ==> (i in h.rf <==> f[i] in g.rf))
    && (forall i :: 0 <= i < |f| && i in h.rf ==> SourceMoved(f, g.rf[f[i]], h.rf[i]))
  }

  ghost predicate SourceMoved(f: seq<nat>, before: Source, after: Source)
  {
    match before
    case Bottom => after == Bottom
    case From(s) => after.From? && after.send < |f| && f[after.send] == s
  }

  /** The copies of `e` at their new places; what `e'` has beyond them is new in `h`. */
  ghost predicate Carries(e: map<nat, nat>, e': map<nat, nat>, f: seq<nat>)
  {
    && (forall a :: a in e ==> a in e' && e'[a] < |f| && f[e'[a]] == e[a])
    && (forall a :: a in e' && a !in e ==> e'[a] >= |f|)
  }

  lemma GrownReads(g: Graph, h: Graph, f: seq<nat>, i: nat, j: nat)
    requires Grown(g, h, f) && i < |f| && j < |f|
    ensures Reads(h, i, j) <==> Reads(g, f[i], f[j])
  {
    if i in h.rf {
      assert SourceMoved(f, g.rf[f[i]], h.rf[i]);
      if h.rf[i].From? && f[h.rf[i].send] == f[j] { AscendingInjective(f, h.rf[i].send, j); }
    }
  }

  lemma AscendingInjective(f: seq<nat>, i: nat, j: nat)
    requires Ascending(f) && i < |f| && j < |f|
    ensures f[i] == f[j] <==> i == j
    ensures f[i] < f[j] <==> i < j
  {
  }

  lemma KeptEvent(g: Graph, h: Graph, f: seq<nat>, y: nat) returns (i: nat)
    requires Grown(g, h, f) && y < |g.events| && !IsBlock(g, y)
    ensures i < |f| && f[i] == y
  {
    assert y in f;
    i :| 0 <= i < |f| && f[i] == y;
  }

  lemma CarriedValue(e: map<nat, nat>, e': map<nat, nat>, f: seq<nat>, i: nat)
    requires Carries(e, e', f) && Ascending(f) && i < |f|
    ensures i in e'.Values <==> f[i] in e.Values
  {
    if i in e'.Values {
      var a := CopyAt(e', i);
      assert a in e && e[a] == f[i];
    }
    if f[i] in e.Values {
      var a := CopyAt(e, f[i]);
      AscendingInjective(f, e'[a], i);
    }
  }

  /** Where the copies go when nothing but Blocks moves. */
  ghost function Moved(e: map<nat, nat>, f: seq<nat>): map<nat, nat>
    requires forall a :: a in e ==> e[a] in f
  {
    map a | a in e :: IndexOf(f, e[a])
  }

  lemma CopiesKept(g: Graph, x: Graph, e: map<nat, nat>, h: Graph, f: seq<nat>, b: nat)
    requires Copies(g, x, e) && Grown(g, h, f) && b in e && !IsBlock(x, b)
    ensures e[b] in f
  {
    assert SameEvent(g.events[e[b]], x.events[b]);
  }

  /** Copies survive growth. */
  lemma CopiesGrown(g: Graph, h: Graph, f: seq<nat>, x: Graph, e: map<nat, nat>)
    requires Copies(g, x, e) && Grown(g, h, f) && forall a :: a in e ==> !IsBlock(x, a)
    ensures forall a :: a in e ==> e[a] in f
    ensures Copies(h, x, Moved(e, f)) && Carries(e, Moved(e, f), f)
  {
    forall a | a in e ensures e[a] in f { CopiesKept(g, x, e, h, f, a); }
    var e' := Moved(e, f);
    forall a, b | a in e' && b in e' && Po(x, a, b) ensures e'[a] < e'[b] {
      AscendingInjective(f, e'[a], e'[b]);
    }
    forall b, y: nat | b in e' && Po(h, y, e'[b]) ensures y in e'.Values {
      AscendingInjective(f, y, e'[b]);
      assert Po(g, f[y], e[b]);
      CarriedValue(e, e', f, y);
    }
    forall b | b in e' && b in x.rf
      ensures (x.rf[b].From? ==> x.rf[b].send in e') && e'[b] in h.rf && h.rf[e'[b]] == ImageOf(e', x.rf[b])
    {
      assert SourceMoved(f, g.rf[e[b]], h.rf[e'[b]]);
      if x.rf[b].From? { AscendingInjective(f, h.rf[e'[b]].send, e'[x.rf[b].send]); }
    }
  }

  /** Growth that only drops Blocks or adds Blocks keeps a graph on track. */
  lemma TracksGrown(g: Graph, h: Graph, f: seq<nat>, x: Graph, d: set<nat>, e: map<nat, nat>)
    requires Tracks(g, x, d, e) && ClosedIn(x, d) && Grown(g, h, f)
    requires forall y: nat :: |f| <= y < |h.events| ==> IsBlock(h, y)
    ensures forall a :: a in e ==> e[a] in f
    ensures Tracks(h, x, d, Moved(e, f)) && Carries(e, Moved(e, f), f)
  {
    CopiesGrown(g, h, f, x, e);
    var e' := Moved(e, f);
    forall y: nat, a: nat | y < |h.events| && !IsBlock(h, y) && y !in e'.Values && a in d
                            && x.events[a].thread == h.events[y].thread
      ensures a in e'
    {
      CarriedValue(e, e', f, y);
    }
  }

  // ----- performing one more event -----

  /** `b` comes next: everything before it is done. */
  ghost predicate NextFor(x: Graph, d: set<nat>, e: map<nat, nat>, b: nat)
  {
    b in d && b !in e && forall a: nat :: PorfEdge(x, a, b) ==> a in e
  }

  /** The thread of `b` has performed its events before `b`. */
  ghost predicate Waits(x: Graph, d: set<nat>, e: map<nat, nat>, b: nat)
  {
    b in d && b !in e && forall a: nat :: Po(x, a, b) ==> a in e
  }

  /** The thread's events so far are those before `b`, up to a Block at the end. */
  lemma WaitingMatches(g: Graph, x: Graph, d: set<nat>, e: map<nat, nat>, b: nat, n: nat)
    requires Tracks(g, x, d, e) && ClosedIn(x, d) && Waits(x, d, e, b) && n <= |g.events| && b < |x.events|
    requires forall y: nat :: y < |g.events| && g.events[y].thread == x.events[b].thread ==>
               if y < n then !IsBlock(g, y) else IsBlock(g, y)
    ensures Matches(g, x, e, x.events[b].thread, n, b)
  {
    var t := x.events[b].thread;
    forall y: nat | y < n && g.events[y].thread == t ensures exists a :: a in e && a < b && e[a] == y {
      assert y in e.Values;
      var a := CopyAt(e, y);
      assert SameEvent(g.events[e[a]], x.events[a]);
      assert b < a ==> PorfEdge(x, b, a);
    }
    forall a: nat | a < b && x.events[a].thread == t ensures a in e && e[a] < n {
      assert Po(x, a, b);
      assert SameEvent(g.events[e[a]], x.events[a]);
      NotABlock(g, x, d, e, a);
    }
  }

  lemma NotABlock(g: Graph, x: Graph, d: set<nat>, e: map<nat, nat>, a: nat)
    requires Tracks(g, x, d, e) && a in e && !IsBlock(x, a)
    ensures !IsBlock(g, e[a])
  {
    assert SameEvent(g.events[e[a]], x.events[a]);
  }

  ghost function Same(n: nat): (f: seq<nat>)
    ensures |f| == n && forall i :: 0 <= i < n ==> f[i] == i
  {
    seq(n, (i: nat) => i)
  }

  /** `h` is `g` with one more event, whose source, if it has one, is new too. */
  ghost predicate Appends(g: Graph, h: Graph)
  {
    && |h.events| == |g.events| + 1 && h.events[..|g.events|] == g.events
    && (forall r :: 0 <= r < |g.events| ==> (r in h.rf <==> r in g.rf) && (r in g.rf ==> h.rf[r] == g.rf[r]))
  }

  lemma AppendedEvent(g: Graph, h: Graph, y: nat)
    requires Appends(g, h) && y < |g.events|
    ensures h.events[y] == g.events[y]
  {
    assert h.events[y] == h.events[..|g.events|][y];
  }

  lemma AppendsParts(g: Graph, h: Graph)
    requires Appends(g, h)
    ensures |h.events| == |g.events| + 1 && forall y :: 0 <= y < |g.events| ==> h.events[y] == g.events[y]
    ensures forall r :: 0 <= r < |g.events| ==> (r in h.rf <==> r in g.rf) && (r in g.rf ==> h.rf[r] == g.rf[r])
  {
    forall y | 0 <= y < |g.events| ensures h.events[y] == g.events[y] { AppendedEvent(g, h, y); }
  }

  lemma AppendsGrown(g: Graph, h: Graph)
    requires Appends(g, h) && ValidEndpoints(g)
    ensures Grown(g, h, Same(|g.events|))
  {
    hide Appends;
    var f := Same(|g.events|);
    AppendsParts(g, h);
    forall y: nat | y < |g.events| ensures y in f {
      assert f[y] == y;
    }
  }

  /** Performing the next event. */
  lemma TracksPerforms(g: Graph, h: Graph, x: Graph, d: set<nat>, e: map<nat, nat>, b: nat)
    requires Tracks(g, x, d, e) && ClosedIn(x, d) && NextFor(x, d, e, b) && Appends(g, h)
    requires b < |x.events| && SameEvent(h.events[|g.events|], x.events[b])
    requires forall y: nat :: y < |g.events| && g.events[y].thread == x.events[b].thread ==> !IsBlock(g, y)
    requires b in x.rf ==> (x.rf[b].From? ==> x.rf[b].send in e)
    requires b in x.rf ==> |g.events| in h.rf && h.rf[|g.events|] == ImageOf(e, x.rf[b])
    ensures Tracks(h, x, d, e[b := |g.events|]) && Carries(e, e[b := |g.events|], Same(|g.events|))
  {
    hide Copies, ClosedIn;
    var n: nat := |g.events|;
    var e': map<nat, nat> := e[b := n];
    PerformsCopies(g, h, x, d, e, b);
    CopiesInside(g, x, e);
    NewValues(e, b, n);
    forall y: nat, a: nat | y < |h.events| && !IsBlock(h, y) && y !in e'.Values && a in d
                            && x.events[a].thread == h.events[y].thread
      ensures a in e'
    {
      assert e'[b] == n;
      AppendedEvent(g, h, y);
    }
  }

  lemma CopiesInside(g: Graph, x: Graph, e: map<nat, nat>)
    requires Copies(g, x, e)
    ensures forall a :: a in e ==> a < |x.events| && e[a] < |g.events|
  {
  }

  lemma NewValues(e: map<nat, nat>, b: nat, n: nat)
    requires b !in e
    ensures forall y :: y in e[b := n].Values <==> y in e.Values || y == n
  {
    var e' := e[b := n];
    forall y | y in e.Values ensures y in e'.Values {
      var a := CopyAt(e, y);
      assert e'[a] == y;
    }
    assert e'[b] == n;
  }

  lemma PerformsCopies(g: Graph, h: Graph, x: Graph, d: set<nat>, e: map<nat, nat>, b: nat)
    requires Tracks(g, x, d, e) && ClosedIn(x, d) && NextFor(x, d, e, b) && Appends(g, h)
    requires b < |x.events| && SameEvent(h.events[|g.events|], x.events[b])
    requires forall y: nat :: y < |g.events| && g.events[y].thread == x.events[b].thread ==> !IsBlock(g, y)
    requires b in x.rf ==> (x.rf[b].From? ==> x.rf[b].send in e)
    requires b in x.rf ==> |g.events| in h.rf && h.rf[|g.events|] == ImageOf(e, x.rf[b])
    ensures Copies(h, x, e[b := |g.events|])
  {
    var n: nat := |g.events|;
    var e': map<nat, nat> := e[b := n];
    assert |h.events| == n + 1;
    NextIsNew(x, d, e, b);
    hide Copies, Tracks, SameEvent, ClosedIn, NextFor, Appends, Po, PorfEdge;
    TracksParts(g, x, d, e);
    NewValues(e, b, n);
    forall a | a in e' ensures e'[a] < |h.events| && SameEvent(h.events[e'[a]], x.events[a]) {
      if a != b { AppendedCopy(g, h, x, e, a); }
    }
    forall a, c | a in e' && c in e' && Po(x, a, c) ensures e'[a] < e'[c] {
      PerformedOrder(g, x, d, e, b, a, c);
    }
    forall c, y: nat | c in e' && Po(h, y, e'[c]) ensures y in e'.Values {
      PerformedPrefix(g, h, x, d, e, b, c, y);
    }
    forall a: nat, c: nat | c in e' && PorfEdge(x, a, c) ensures a in e' {
      if c != b { CopiesClosed(g, x, e, a, c); } else { BeforeNext(x, d, e, b, a); }
    }
    forall c | c in e' && c in x.rf
      ensures (x.rf[c].From? ==> x.rf[c].send in e') && e'[c] in h.rf && h.rf[e'[c]] == ImageOf(e', x.rf[c])
    {
      if c != b { PerformedSource(g, h, x, e, b, c); }
    }
    MakeCopies(h, x, e');
  }

  lemma TracksParts(g: Graph, x: Graph, d: set<nat>, e: map<nat, nat>)
    requires Tracks(g, x, d, e)
    ensures Copies(g, x, e) && e.Keys <= d && forall a :: a in e ==> a < |x.events| && e[a] < |g.events|
  {
  }

  lemma MakeCopies(g: Graph, x: Graph, e: map<nat, nat>)
    requires forall a :: a in e ==> a < |x.events| && e[a] < |g.events| && SameEvent(g.events[e[a]], x.events[a])
    requires forall a, b :: a in e && b in e && Po(x, a, b) ==> e[a] < e[b]
    requires forall a: nat, b: nat :: b in e && PorfEdge(x, a, b) ==> a in e
    requires forall b, y: nat :: b in e && Po(g, y, e[b]) ==> y in e.Values
    requires forall b :: b in e && b in x.rf ==>
               && (x.rf[b].From? ==> x.rf[b].send in e)
               && e[b] in g.rf && g.rf[e[b]] == ImageOf(e, x.rf[b])
    ensures Copies(g, x, e)
  {
  }

  lemma AppendedCopy(g: Graph, h: Graph, x: Graph, e: map<nat, nat>, a: nat)
    requires Copies(g, x, e) && Appends(g, h) && a in e
    ensures e[a] < |g.events| && a < |x.events| && SameEvent(h.events[e[a]], x.events[a])
  {
    AppendedEvent(g, h, e[a]);
  }

  lemma NextIsNew(x: Graph, d: set<nat>, e: map<nat, nat>, b: nat)
    requires NextFor(x, d, e, b)
    ensures b !in e
  {
  }

  lemma BeforeNext(x: Graph, d: set<nat>, e: map<nat, nat>, b: nat, a: nat)
    requires NextFor(x, d, e, b) && PorfEdge(x, a, b)
    ensures a in e
  {
  }

  lemma CopiesClosed(g: Graph, x: Graph, e: map<nat, nat>, a: nat, c: nat)
    requires Copies(g, x, e) && c in e && PorfEdge(x, a, c)
    ensures a in e
  {
  }

  lemma CopiedSourceOf(g: Graph, x: Graph, e: map<nat, nat>, c: nat)
    requires Copies(g, x, e) && c in e && c in x.rf
    ensures (x.rf[c].From? ==> x.rf[c].send in e) && e[c] < |g.events|
    ensures e[c] in g.rf && g.rf[e[c]] == ImageOf(e, x.rf[c])
  {
  }

  lemma PerformedSource(g: Graph, h: Graph, x: Graph, e: map<nat, nat>, b: nat, c: nat)
    requires Copies(g, x, e) && Appends(g, h) && c in e && c in x.rf && b !in e
    ensures var e': map<nat, nat> := e[b := |g.events|];
            (x.rf[c].From? ==> x.rf[c].send in e') && e'[c] in h.rf && h.rf[e'[c]] == ImageOf(e', x.rf[c])
  {
    hide Copies;
    CopiedSourceOf(g, x, e, c);
  }

  lemma PerformedOrder(g: Graph, x: Graph, d: set<nat>, e: map<nat, nat>, b: nat, a: nat, c: nat)
    requires Copies(g, x, e) && NextFor(x, d, e, b) && Po(x, a, c)
    requires (a in e || a == b) && (c in e || c == b)
    ensures a in e && (c == b ==> e[a] < |g.events|) && (c != b ==> e[a] < e[c])
  {
    if a == b { assert PorfEdge(x, b, c); }
  }

  lemma PerformedPrefix(g: Graph, h: Graph, x: Graph, d: set<nat>, e: map<nat, nat>, b: nat, c: nat, y: nat)
    requires Tracks(g, x, d, e) && NextFor(x, d, e, b) && Appends(g, h) && b < |x.events|
    requires SameEvent(h.events[|g.events|], x.events[b])
    requires forall y: nat :: y < |g.events| && g.events[y].thread == x.events[b].thread ==> !IsBlock(g, y)
    requires c == b || c in e
    requires Po(h, y, if c == b then |g.events| else e[c])
    ensures y in e.Values
  {
    if c != b {
      AppendedEvent(g, h, e[c]);
      AppendedEvent(g, h, y);
      assert Po(g, y, e[c]);
    } else {
      AppendedEvent(g, h, y);
    }
  }

  /** A thread that has performed its part does something else, or blocks. */
  lemma TracksExtra(g: Graph, h: Graph, x: Graph, d: set<nat>, e: map<nat, nat>)
    requires Tracks(g, x, d, e) && Appends(g, h)
    requires IsBlock(h, |g.events|)
             || forall a :: a in d && x.events[a].thread == h.events[|g.events|].thread ==> a in e
    ensures Tracks(h, x, d, e) && Carries(e, e, Same(|g.events|))
  {
    forall a | a in e ensures e[a] < |g.events| && h.events[e[a]] == g.events[e[a]] { AppendedEvent(g, h, e[a]); }
    forall c, y: nat | c in e && Po(h, y, e[c]) ensures y in e.Values {
      AppendedEvent(g, h, y);
      assert Po(g, y, e[c]);
    }
    forall y: nat, a: nat | y < |h.events| && !IsBlock(h, y) && y !in e.Values && a in d
                            && x.events[a].thread == h.events[y].thread
      ensures a in e
    {
      if y < |g.events| { AppendedEvent(g, h, y); }
    }
  }
}
