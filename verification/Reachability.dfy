/** Finite-path reachability over binary relations on event ids.

    The relation-algebra views of the model layer (union, transitive closure) and every
    cycle test of the engine are stated against these definitions. */
module Reachability {

  type Relation = iset<(nat, nat)>

  /** `b` is reached from `a` by exactly `k + 1` edges. */
  ghost predicate ReachIn(r: Relation, k: nat, a: nat, b: nat)
  {
    if k == 0 then (a, b) in r
    else exists c: nat :: (a, c) in r && ReachIn(r, k - 1, c, b)
  }

  /** The transitive (non-reflexive) closure of `r`. */
  ghost predicate Reach(r: Relation, a: nat, b: nat)
  {
    exists k: nat :: ReachIn(r, k, a, b)
  }

  ghost predicate Acyclic(r: Relation)
  {
    forall a: nat :: !Reach(r, a, a)
  }

  lemma EdgeReaches(r: Relation, a: nat, b: nat)
    requires (a, b) in r
    ensures Reach(r, a, b)
  {
    assert ReachIn(r, 0, a, b);
  }

  lemma {:induction false} ReachInJoin(r: Relation, k: nat, j: nat, a: nat, b: nat, c: nat)
    requires ReachIn(r, k, a, b) && ReachIn(r, j, b, c)
    ensures ReachIn(r, k + j + 1, a, c)
    decreases k
  {
    if k > 0 {
      var d: nat :| (a, d) in r && ReachIn(r, k - 1, d, b);
      ReachInJoin(r, k - 1, j, d, b, c);
    }
  }

  lemma ReachTransitive(r: Relation, a: nat, b: nat, c: nat)
    requires Reach(r, a, b) && Reach(r, b, c)
    ensures Reach(r, a, c)
  {
    var k: nat :| ReachIn(r, k, a, b);
    var j: nat :| ReachIn(r, j, b, c);
    ReachInJoin(r, k, j, a, b, c);
  }

  lemma ReachAppend(r: Relation, a: nat, b: nat, c: nat)
    requires Reach(r, a, b) && (b, c) in r
    ensures Reach(r, a, c)
  {
    EdgeReaches(r, b, c);
    ReachTransitive(r, a, b, c);
  }

  lemma ReachPrepend(r: Relation, a: nat, b: nat, c: nat)
    requires (a, b) in r && Reach(r, b, c)
    ensures Reach(r, a, c)
  {
    EdgeReaches(r, a, b);
    ReachTransitive(r, a, b, c);
  }

  /** Every path has a last edge. */
  lemma {:induction false} ReachInLast(r: Relation, k: nat, a: nat, b: nat) returns (c: nat)
    requires ReachIn(r, k, a, b)
    ensures (c, b) in r
    ensures c == a || Reach(r, a, c)
    decreases k
  {
    if k == 0 {
      c := a;
    } else {
      var d: nat :| (a, d) in r && ReachIn(r, k - 1, d, b);
      c := ReachInLast(r, k - 1, d, b);
      EdgeReaches(r, a, d);
      if c != d {
        ReachTransitive(r, a, d, c);
      }
    }
  }

  lemma ReachLast(r: Relation, a: nat, b: nat) returns (c: nat)
    requires Reach(r, a, b)
    ensures (c, b) in r
    ensures c == a || Reach(r, a, c)
  {
    var k: nat :| ReachIn(r, k, a, b);
    c := ReachInLast(r, k, a, b);
  }

  /** Edges that respect a ranking admit no cycle. */
  lemma {:induction false} RankedReachIn(r: Relation, rank: nat -> int, k: nat, a: nat, b: nat)
    requires forall x: nat, y: nat :: (x, y) in r ==> rank(x) < rank(y)
    requires ReachIn(r, k, a, b)
    ensures rank(a) < rank(b)
    decreases k
  {
    if k > 0 {
      var c: nat :| (a, c) in r && ReachIn(r, k - 1, c, b);
      RankedReachIn(r, rank, k - 1, c, b);
    }
  }

  lemma RankedIsAcyclic(r: Relation, rank: nat -> int)
    requires forall x: nat, y: nat :: (x, y) in r ==> rank(x) < rank(y)
    ensures Acyclic(r)
  {
    forall a: nat ensures !Reach(r, a, a) {
      if Reach(r, a, a) {
        var k: nat :| ReachIn(r, k, a, a);
        RankedReachIn(r, rank, k, a, a);
      }
    }
  }

  /** A map that sends every edge of `r` to a path of `q` sends paths to paths. */
  lemma {:induction false} ReachInImage(r: Relation, q: Relation, f: nat -> nat, k: nat, a: nat, b: nat)
    requires forall x: nat, y: nat :: (x, y) in r ==> Reach(q, f(x), f(y))
    requires ReachIn(r, k, a, b)
    ensures Reach(q, f(a), f(b))
    decreases k
  {
    if k > 0 {
      var c: nat :| (a, c) in r && ReachIn(r, k - 1, c, b);
      ReachInImage(r, q, f, k - 1, c, b);
      ReachTransitive(q, f(a), f(c), f(b));
    }
  }

  lemma ReachImage(r: Relation, q: Relation, f: nat -> nat, a: nat, b: nat)
    requires forall x: nat, y: nat :: (x, y) in r ==> Reach(q, f(x), f(y))
    requires Reach(r, a, b)
    ensures Reach(q, f(a), f(b))
  {
    var k: nat :| ReachIn(r, k, a, b);
    ReachInImage(r, q, f, k, a, b);
  }

  /** The edges of `r` all being paths of `q`, the closure of `r` is inside that of `q`. */
  lemma ReachMonotone(r: Relation, q: Relation, a: nat, b: nat)
    requires forall x: nat, y: nat :: (x, y) in r ==> Reach(q, x, y)
    requires Reach(r, a, b)
    ensures Reach(q, a, b)
  {
    ReachImage(r, q, x => x, a, b);
  }

  ghost predicate HasPredecessor(r: Relation, s: set<nat>, b: nat)
  {
    exists a: nat :: a in s && (a, b) in r
  }

  /** A finite non-empty set in which every node has a predecessor holds a cycle. */
  lemma {:induction false} PredecessorsGiveCycle(r: Relation, s: set<nat>) returns (x: nat)
    requires s != {}
    requires forall b :: b in s ==> HasPredecessor(r, s, b)
    ensures x in s && Reach(r, x, x)
    decreases |s|
  {
    x :| x in s;
    if !Reach(r, x, x) {
      var below := NodesReaching(r, s, x);
      ProperSubsetIsSmaller(below, s);
      x := PredecessorsGiveCycle(r, below);
    }
  }

  lemma NodesReaching(r: Relation, s: set<nat>, x: nat) returns (below: set<nat>)
    requires x in s && !Reach(r, x, x)
    requires forall b :: b in s ==> HasPredecessor(r, s, b)
    ensures below < s && below != {}
    ensures forall b :: b in below ==> HasPredecessor(r, below, b)
  {
    hide Reach;
    below := set y: nat | y in s && Reach(r, y, x);
    assert HasPredecessor(r, s, x);
    var p: nat :| p in s && (p, x) in r;
    EdgeReaches(r, p, x);
    assert p in below && x !in below;
    forall b | b in below
      ensures HasPredecessor(r, below, b)
    {
      assert HasPredecessor(r, s, b);
      var a: nat :| a in s && (a, b) in r;
      ReachPrepend(r, a, b, x);
      assert a in below;
    }
  }

  lemma {:induction false} ProperSubsetIsSmaller(a: set<nat>, b: set<nat>)
    requires a < b
    ensures |a| < |b|
  {
    assert b == a + (b - a);
    assert |b| == |a| + |b - a|;
  }

  /** An acyclic relation has a minimal element in every finite non-empty set. */
  lemma MinimalElement(r: Relation, s: set<nat>) returns (x: nat)
    requires Acyclic(r) && s != {}
    ensures x in s
    ensures forall a: nat :: a in s ==> (a, x) !in r
  {
    if forall b :: b in s ==> HasPredecessor(r, s, b) {
      var c := PredecessorsGiveCycle(r, s);
      assert false;
    }
    x :| x in s && !HasPredecessor(r, s, x);
  }

  /** `order` lists each element of `s` once, sources of edges before targets. */
  ghost predicate Linearises(r: Relation, s: set<nat>, order: seq<nat>)
  {
    && (forall x :: x in order <==> x in s)
    && (forall i, j :: 0 <= i < j < |order| ==> order[i] != order[j])
    && (forall i, j :: 0 <= i < |order| && 0 <= j < |order| && (order[i], order[j]) in r ==> i < j)
  }

  lemma {:induction false} Linearisation(r: Relation, s: set<nat>) returns (order: seq<nat>)
    requires Acyclic(r)
    ensures Linearises(r, s, order)
    decreases |s|
  {
    if s == {} {
      order := [];
    } else {
      var x := MinimalElement(r, s);
      var rest := Linearisation(r, s - {x});
      order := [x] + rest;
      forall i, j | 0 <= i < |order| && 0 <= j < |order| && (order[i], order[j]) in r
        ensures i < j
      {
        assert order[i] in s by { if i > 0 { assert rest[i - 1] in rest; } }
        if j == 0 {
          assert false;
        } else if i > 0 {
          assert (rest[i - 1], rest[j - 1]) in r;
        }
      }
      forall i, j | 0 <= i < j < |order|
        ensures order[i] != order[j]
      {
        assert rest[j - 1] in rest;
      }
    }
  }

  /** Adding edges into a node with no outgoing edge closes no cycle. */
  lemma EdgesIntoSink(r: Relation, q: Relation, sink: nat)
    requires Acyclic(r)
    requires forall x: nat, y: nat :: (x, y) in q ==> (x, y) in r || y == sink
    requires forall y: nat :: (sink, y) !in q
    ensures Acyclic(q)
  {
    forall a: nat ensures !Reach(q, a, a) {
      if Reach(q, a, a) {
        var k: nat :| ReachIn(q, k, a, a);
        SinkPath(r, q, sink, k, a, a);
        if a == sink {
          SinkHasNoPath(q, sink, k, a);
        }
      }
    }
  }

  lemma {:induction false} SinkHasNoPath(q: Relation, sink: nat, k: nat, b: nat)
    requires forall y: nat :: (sink, y) !in q
    ensures !ReachIn(q, k, sink, b)
  {
  }

  lemma {:induction false} SinkPath(r: Relation, q: Relation, sink: nat, k: nat, a: nat, b: nat)
    requires forall x: nat, y: nat :: (x, y) in q ==> (x, y) in r || y == sink
    requires forall y: nat :: (sink, y) !in q
    requires ReachIn(q, k, a, b)
    ensures b == sink || Reach(r, a, b)
    decreases k
  {
    if k == 0 {
      if (a, b) in r { EdgeReaches(r, a, b); }
    } else {
      var c: nat :| (a, c) in q && ReachIn(q, k - 1, c, b);
      SinkHasNoPath(q, sink, k - 1, b);
      SinkPath(r, q, sink, k - 1, c, b);
      if b != sink {
        ReachPrepend(r, a, c, b);
      }
    }
  }

  /** `q` is `r` with edges into `sink` dropped and the edge from `source` to `sink` added. */
  ghost predicate Rewires(r: Relation, q: Relation, source: nat, sink: nat)
  {
    && (source, sink) in q
    && (forall x: nat, y: nat :: (x, y) in q ==> (x, y) in r || (x, y) == (source, sink))
    && (forall x: nat, y: nat :: (x, y) in r && y != sink ==> (x, y) in q)
  }

  /** In an acyclic relation what `sink` reaches is reached without the edges into `sink`. */
  lemma {:induction false} PathFromSink(r: Relation, q: Relation, source: nat, sink: nat, k: nat, a: nat, b: nat)
    requires Acyclic(r) && Rewires(r, q, source, sink) && ReachIn(r, k, a, b)
    requires (a == sink || Reach(r, sink, a)) && b != sink
    ensures Reach(q, a, b)
    decreases k
  {
    if k == 0 {
      EdgeReaches(q, a, b);
    } else {
      var c: nat :| (a, c) in r && ReachIn(r, k - 1, c, b);
      EdgeReaches(r, a, c);
      if a != sink { ReachTransitive(r, sink, a, c); }
      PathFromSink(r, q, source, sink, k - 1, c, b);
      ReachPrepend(q, a, c, b);
    }
  }

  /** A path of `q` is one of `r`, or passes from `source` to `sink`. */
  lemma {:induction false} RewiredPath(r: Relation, q: Relation, source: nat, sink: nat, k: nat, a: nat, b: nat)
    requires Rewires(r, q, source, sink) && ReachIn(q, k, a, b)
    ensures Reach(r, a, b) || ((a == source || Reach(r, a, source)) && (b == sink || Reach(r, sink, b)))
    decreases k
  {
    if k == 0 {
      if (a, b) in r { EdgeReaches(r, a, b); }
    } else {
      var c: nat :| (a, c) in q && ReachIn(q, k - 1, c, b);
      RewiredPath(r, q, source, sink, k - 1, c, b);
      if (a, c) in r {
        if Reach(r, c, b) { ReachPrepend(r, a, c, b); }
        if c == source { EdgeReaches(r, a, c); }
        if Reach(r, c, source) { ReachPrepend(r, a, c, source); }
      }
    }
  }

  /** Rewiring closes a cycle exactly when `sink` already reached `source`. */
  lemma RewiringCycle(r: Relation, q: Relation, source: nat, sink: nat)
    requires Acyclic(r) && Rewires(r, q, source, sink) && source != sink
    ensures Acyclic(q) <==> !Reach(r, sink, source)
  {
    if Reach(r, sink, source) {
      var k: nat :| ReachIn(r, k, sink, source);
      PathFromSink(r, q, source, sink, k, sink, source);
      ReachAppend(q, sink, source, sink);
    } else {
      forall a: nat ensures !Reach(q, a, a) {
        if Reach(q, a, a) {
          var k: nat :| ReachIn(q, k, a, a);
          RewiredPath(r, q, source, sink, k, a, a);
          if a != sink && a != source { ReachTransitive(r, sink, a, source); }
          assert false;
        }
      }
    }
  }

  /** The relations differ in edges into `sink` only. */
  ghost predicate SameButInto(r: Relation, q: Relation, sink: nat)
  {
    forall x: nat, y: nat :: y != sink ==> ((x, y) in r <==> (x, y) in q)
  }

  /** What `sink` does not lead to is reached without passing it. */
  lemma {:induction false} PathPastSink(r: Relation, q: Relation, sink: nat, k: nat, a: nat, b: nat)
    requires SameButInto(r, q, sink) && !Reach(r, sink, b) && b != sink && ReachIn(q, k, a, b)
    ensures Reach(r, a, b)
    decreases k
  {
    if k == 0 {
      EdgeReaches(r, a, b);
    } else {
      var c: nat :| (a, c) in q && ReachIn(q, k - 1, c, b);
      PathPastSink(r, q, sink, k - 1, c, b);
      ReachPrepend(r, a, c, b);
    }
  }

  lemma {:induction false} PathThroughSink(r: Relation, q: Relation, sink: nat, k: nat, a: nat, b: nat)
    requires SameButInto(r, q, sink) && b != sink && ReachIn(q, k, a, b)
    ensures Reach(r, a, b) || Reach(r, sink, b)
    decreases k
  {
    if k == 0 {
      EdgeReaches(r, a, b);
    } else {
      var c: nat :| (a, c) in q && ReachIn(q, k - 1, c, b);
      PathThroughSink(r, q, sink, k - 1, c, b);
      if Reach(r, c, b) && c != sink { ReachPrepend(r, a, c, b); }
    }
  }

  /** Edges into a node change neither what it reaches nor what leads to where it does not. */
  lemma EdgesIntoNode(r: Relation, q: Relation, sink: nat, a: nat, b: nat)
    requires SameButInto(r, q, sink) && b != sink
    ensures Reach(r, sink, b) <==> Reach(q, sink, b)
    ensures !Reach(r, sink, b) ==> (Reach(r, a, b) <==> Reach(q, a, b))
  {
    if k: nat :| ReachIn(q, k, sink, b) { PathThroughSink(r, q, sink, k, sink, b); }
    if k: nat :| ReachIn(r, k, sink, b) { PathThroughSink(q, r, sink, k, sink, b); }
    if !Reach(r, sink, b) {
      if k: nat :| ReachIn(q, k, a, b) { PathPastSink(r, q, sink, k, a, b); }
      if k: nat :| ReachIn(r, k, a, b) { PathPastSink(q, r, sink, k, a, b); }
    }
  }

  lemma SubsetCount(a: set<nat>, b: set<nat>)
    requires a <= b
    ensures |a| <= |b|
  {
    assert b == a + (b - a);
    assert |b| == |a| + |b - a|;
  }

  /** Where a number first stands in a sequence. */
  ghost function FirstIndex(order: seq<nat>, v: nat): (i: nat)
    requires v in order
    ensures i < |order| && order[i] == v && v !in order[..i]
  {
    if order[0] == v then 0
    else
      var i := 1 + FirstIndex(order[1..], v);
      assert order[..i] == [order[0]] + order[1..][..i - 1];
      i
  }

  lemma FirstIsLeast(order: seq<nat>, v: nat, k: nat)
    requires k < |order| && order[k] == v
    ensures FirstIndex(order, v) <= k
  {
  }
}
