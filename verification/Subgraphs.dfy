/** Graphs that copy part of another graph: restrictions, and reorderings that keep each thread's order.

    `f` lists the copied ids of `g`; position `i` of the copy stands for event `f[i]`. */
module Subgraphs {
  import opened Optional
  import opened Events
  import opened Reachability
  import opened Consistency

  /** Labels agree up to the recorded alternatives of a nondeterministic choice. */
  ghost predicate SameOp(a: Label, b: Label)
  {
    a == b || (a.Choice? && b.Choice? && a.chosen == b.chosen)
  }

  ghost predicate SameEvent(a: Event, b: Event)
  {
    a.thread == b.thread && SameOp(a.op, b.op)
  }

  /** The ids are distinct events of `g`, listed in program order within each thread. */
  ghost predicate Selection(g: Graph, f: seq<nat>)
  {
    && (forall i :: 0 <= i < |f| ==> f[i] < |g.events|)
    && (forall i, j :: 0 <= i < j < |f| ==> f[i] != f[j])
    && (forall i, j :: 0 <= i < j < |f| && g.events[f[i]].thread == g.events[f[j]].thread ==> f[i] < f[j])
  }

  /** The copy of `f[i]`'s reads-from entry: kept unless its source was not copied. */
  ghost predicate SourceCopied(h: Graph, g: Graph, f: seq<nat>, i: nat)
    requires i < |f|
  {
    if f[i] !in g.rf then i !in h.rf
    else match g.rf[f[i]]
      case Bottom => i in h.rf && h.rf[i] == Bottom
      case From(s) =>
        if s in f then i in h.rf && h.rf[i].From? && h.rf[i].send < |f| && f[h.rf[i].send] == s
        else i !in h.rf
  }

  ghost predicate Subgraph(h: Graph, g: Graph, f: seq<nat>)
  {
    && Selection(g, f)
    && |h.events| == |f|
    && (forall i :: 0 <= i < |f| ==> SameEvent(h.events[i], g.events[f[i]]))
    && (forall r :: r in h.rf ==> r < |f|)
    && (forall i :: 0 <= i < |f| ==> SourceCopied(h, g, f, i))
  }

  /** Each thread keeps a program-order prefix. */
  ghost predicate PrefixClosed(g: Graph, f: seq<nat>)
  {
    forall a, b :: Po(g, a, b) && b in f ==> a in f
  }

  ghost predicate ReadClosed(g: Graph, f: seq<nat>)
  {
    forall r :: r in f && r in g.rf && g.rf[r].From? ==> g.rf[r].send in f
  }

  lemma SubgraphPo(h: Graph, g: Graph, f: seq<nat>, i: nat, j: nat)
    requires Subgraph(h, g, f) && i < |f| && j < |f|
    ensures Po(h, i, j) <==> Po(g, f[i], f[j])
  {
    assert SameEvent(h.events[i], g.events[f[i]]) && SameEvent(h.events[j], g.events[f[j]]);
  }

  lemma SubgraphReads(h: Graph, g: Graph, f: seq<nat>, i: nat, j: nat)
    requires Subgraph(h, g, f) && i < |f| && j < |f|
    ensures Reads(h, i, j) <==> Reads(g, f[i], f[j])
  {
    assert SourceCopied(h, g, f, i);
    assert f[j] in f;
  }

  lemma SubgraphAccepts(h: Graph, g: Graph, f: seq<nat>, i: nat, j: nat)
    requires Subgraph(h, g, f) && i < |f| && j < |f|
    ensures Accepts(h, i, j) <==> Accepts(g, f[i], f[j])
  {
    assert SameEvent(h.events[i], g.events[f[i]]) && SameEvent(h.events[j], g.events[f[j]]);
  }

  lemma SubgraphWellFormed(h: Graph, g: Graph, f: seq<nat>)
    requires Subgraph(h, g, f) && WellFormed(g)
    ensures WellFormed(h)
  {
    forall r | r in h.rf
      ensures GoodRead(h, r)
    {
      assert SourceCopied(h, g, f, r) && SameEvent(h.events[r], g.events[f[r]]);
      assert GoodRead(g, f[r]);
      if h.rf[r].From? {
        var s := h.rf[r].send;
        assert SameEvent(h.events[s], g.events[f[s]]);
      }
    }
    forall r, q | r in h.rf && q in h.rf && h.rf[r].From? && h.rf[r] == h.rf[q]
      ensures r == q
    {
      assert SourceCopied(h, g, f, r) && SourceCopied(h, g, f, q);
      assert f[r] == f[q];
    }
  }

  ghost function Lookup(f: seq<nat>): nat -> nat
  {
    (i: nat) => if i < |f| then f[i] else i
  }

  lemma SubgraphEdge(h: Graph, g: Graph, f: seq<nat>, i: nat, j: nat)
    requires Subgraph(h, g, f) && (i, j) in PorfEdges(h)
    ensures i < |f| && j < |f| && PorfEdge(g, f[i], f[j])
  {
    SubgraphPo(h, g, f, i, j);
    SubgraphReads(h, g, f, j, i);
  }

  lemma SubgraphPorf(h: Graph, g: Graph, f: seq<nat>, a: nat, b: nat)
    requires Subgraph(h, g, f) && Porf(h, a, b)
    ensures a < |f| && b < |f| && Porf(g, f[a], f[b])
  {
    PorfInside(h, a, b);
    forall x: nat, y: nat | (x, y) in PorfEdges(h)
      ensures Reach(PorfEdges(g), Lookup(f)(x), Lookup(f)(y))
    {
      SubgraphEdge(h, g, f, x, y);
      PorfStep(g, f[x], f[y]);
    }
    ReachImage(PorfEdges(h), PorfEdges(g), Lookup(f), a, b);
  }

  lemma SubgraphAcyclic(h: Graph, g: Graph, f: seq<nat>)
    requires Subgraph(h, g, f) && CausallyAcyclic(g)
    ensures CausallyAcyclic(h)
  {
    forall a: nat
      ensures !Reach(PorfEdges(h), a, a)
    {
      if Porf(h, a, a) {
        SubgraphPorf(h, g, f, a, a);
        assert false;
      }
    }
  }

  /** A read-closed selection loses no source. */
  lemma SubgraphReadsTotal(h: Graph, g: Graph, f: seq<nat>)
    requires Subgraph(h, g, f) && ReadsTotal(g) && ReadClosed(g, f)
    ensures ReadsTotal(h)
  {
    forall r | 0 <= r < |h.events| && IsReceive(h, r)
      ensures r in h.rf
    {
      assert SameEvent(h.events[r], g.events[f[r]]) && SourceCopied(h, g, f, r);
      assert f[r] in f && IsReceive(g, f[r]);
    }
  }

  /** If an earlier send of a channel lost its reader by copying, that reader was program-ordered after
      some copied reader of a later send. */
  lemma SubgraphClauseB(h: Graph, g: Graph, f: seq<nat>, early: nat, late: nat, r: nat)
    requires Subgraph(h, g, f) && PrefixClosed(g, f) && WellFormed(g)
    requires FifoClauseB(g) && FifoClauseC(g)
    ensures !SkipsUnread(h, early, late, r)
  {
    if SkipsUnread(h, early, late, r) {
      assert SourceCopied(h, g, f, r);
      assert SameEvent(h.events[early], g.events[f[early]]) && SameEvent(h.events[late], g.events[f[late]]);
      SubgraphPo(h, g, f, early, late);
      SubgraphReads(h, g, f, r, late);
      SubgraphAccepts(h, g, f, r, early);
      assert SameChannel(g, f[early], f[late]);
      assert !SkipsUnread(g, f[early], f[late], f[r]);
      var q: nat :| q in g.rf && g.rf[q] == From(f[early]);
      assert GoodRead(g, q) && GoodRead(g, f[r]);
      assert !Overtakes(g, f[early], f[late], f[r], q);
      assert q != f[r];
      assert Po(g, q, f[r]);
      assert f[r] in f;
      var i :| 0 <= i < |f| && f[i] == q;
      SubgraphReads(h, g, f, i, early);
      assert false;
    }
  }

  lemma SubgraphClauseC(h: Graph, g: Graph, f: seq<nat>, early: nat, late: nat, r: nat, q: nat)
    requires Subgraph(h, g, f) && FifoClauseC(g)
    ensures !Overtakes(h, early, late, r, q)
  {
    if Overtakes(h, early, late, r, q) {
      assert SourceCopied(h, g, f, r) && SourceCopied(h, g, f, q);
      assert SameEvent(h.events[early], g.events[f[early]]) && SameEvent(h.events[late], g.events[f[late]]);
      SubgraphPo(h, g, f, early, late);
      SubgraphPo(h, g, f, r, q);
      SubgraphReads(h, g, f, r, late);
      SubgraphReads(h, g, f, q, early);
      SubgraphAccepts(h, g, f, r, early);
      assert Overtakes(g, f[early], f[late], f[r], f[q]);
    }
  }

  /** Copying per-thread prefixes of a graph keeps the clauses of either model, dangling reads aside. */
  lemma SubgraphClauses(h: Graph, g: Graph, f: seq<nat>, m: CommunicationModel)
    requires Subgraph(h, g, f) && PrefixClosed(g, f) && WellFormed(g) && ModelClauses(g, m)
    ensures ModelClauses(h, m)
  {
    if m.FifoP2P? {
      forall early: nat, late: nat, r: nat
        ensures !SkipsUnread(h, early, late, r)
      {
        SubgraphClauseB(h, g, f, early, late, r);
      }
      forall early: nat, late: nat, r: nat, q: nat
        ensures !Overtakes(h, early, late, r, q)
      {
        SubgraphClauseC(h, g, f, early, late, r, q);
      }
    }
  }

  /** A copy closed under causality is consistent. */
  lemma CausalCopyIsConsistent(h: Graph, g: Graph, f: seq<nat>, m: CommunicationModel)
    requires Subgraph(h, g, f) && PrefixClosed(g, f) && ReadClosed(g, f) && Consistent(g, m)
    ensures Consistent(h, m)
  {
    SubgraphWellFormed(h, g, f);
    SubgraphAcyclic(h, g, f);
    SubgraphReadsTotal(h, g, f);
    SubgraphClauses(h, g, f, m);
  }

  // ----- traces of copies -----

  ghost predicate Ascending(s: seq<nat>)
  {
    forall i, j :: 0 <= i < j < |s| ==> s[i] < s[j]
  }

  /** Ascending sequences with the same elements are equal. */
  lemma {:induction false} AscendingUnique(a: seq<nat>, b: seq<nat>)
    requires Ascending(a) && Ascending(b)
    requires forall x :: x in a <==> x in b
    ensures a == b
  {
    assert |b| > 0 ==> b[0] in a;
    assert |a| > 0 ==> a[0] in b;
    if a != [] {
      var n, m := |a| - 1, |b| - 1;
      assert a[n] in b && b[m] in a;
      assert a[n] == b[m];
      forall x ensures x in a[..n] <==> x in b[..m] {
        if x in a[..n] { assert x in a && x != a[n]; }
        if x in b[..m] { assert x in b && x != b[m]; }
      }
      AscendingUnique(a[..n], b[..m]);
    }
  }

  ghost function Mapped(f: seq<nat>, ids: seq<nat>): seq<nat>
    requires forall i :: 0 <= i < |ids| ==> ids[i] < |f|
  {
    seq(|ids|, i requires 0 <= i < |ids| => f[ids[i]])
  }

  /** The first `m` events of the copy hold, of thread `t`, exactly the events of `g` below `x`. */
  ghost predicate CoversThread(g: Graph, f: seq<nat>, t: ThreadId, m: nat, x: nat)
    requires Selection(g, f)
  {
    && m <= |f| && x <= |g.events|
    && (forall i :: 0 <= i < m && g.events[f[i]].thread == t ==> f[i] < x)
    && (forall y :: 0 <= y < x && g.events[y].thread == t ==> y in f[..m])
  }

  lemma CoveredIdsAscend(h: Graph, g: Graph, f: seq<nat>, t: ThreadId, ids: seq<nat>)
    requires Subgraph(h, g, f) && Ascending(ids)
    requires forall i :: 0 <= i < |ids| ==> ids[i] < |f| && h.events[ids[i]].thread == t
    ensures Ascending(Mapped(f, ids))
  {
    forall i, j | 0 <= i < j < |ids| ensures f[ids[i]] < f[ids[j]] {
      assert SameEvent(h.events[ids[i]], g.events[f[ids[i]]]) && SameEvent(h.events[ids[j]], g.events[f[ids[j]]]);
    }
  }

  lemma CoveredIdsMember(h: Graph, g: Graph, f: seq<nat>, t: ThreadId, m: nat, x: nat, y: nat)
    requires Subgraph(h, g, f) && CoversThread(g, f, t, m, x)
    ensures y in Mapped(f, ThreadIds(h, t, m)) <==> y in ThreadIds(g, t, x)
  {
    var ids := ThreadIds(h, t, m);
    var image := Mapped(f, ids);
    ThreadIdsMember(g, t, x, y);
    if y in image {
      var i :| 0 <= i < |ids| && image[i] == y;
      assert SameEvent(h.events[ids[i]], g.events[f[ids[i]]]);
    }
    if y in ThreadIds(g, t, x) {
      assert y in f[..m];
      var i :| 0 <= i < m && f[i] == y;
      assert SameEvent(h.events[i], g.events[f[i]]);
      ThreadIdsMember(h, t, m, i);
      var k :| 0 <= k < |ids| && ids[k] == i;
      assert image[k] == y;
    }
  }

  lemma CoveredIds(h: Graph, g: Graph, f: seq<nat>, t: ThreadId, m: nat, x: nat)
    requires Subgraph(h, g, f) && CoversThread(g, f, t, m, x)
    ensures Mapped(f, ThreadIds(h, t, m)) == ThreadIds(g, t, x)
  {
    CoveredIdsAscend(h, g, f, t, ThreadIds(h, t, m));
    forall y ensures y in Mapped(f, ThreadIds(h, t, m)) <==> y in ThreadIds(g, t, x) {
      CoveredIdsMember(h, g, f, t, m, x, y);
    }
    AscendingUnique(Mapped(f, ThreadIds(h, t, m)), ThreadIds(g, t, x));
  }

  /** The sources of thread `t`'s copied receives are copied too. */
  ghost predicate ThreadReadsCopied(g: Graph, f: seq<nat>, t: ThreadId, m: nat)
    requires Selection(g, f) && m <= |f|
  {
    forall i :: 0 <= i < m && g.events[f[i]].thread == t && f[i] in g.rf && g.rf[f[i]].From? ==> g.rf[f[i]].send in f
  }

  lemma EmitsCopied(h: Graph, g: Graph, f: seq<nat>, i: nat)
    requires Subgraph(h, g, f) && i < |f|
    requires f[i] in g.rf && g.rf[f[i]].From? ==> g.rf[f[i]].send in f
    ensures Emits(h, i) == Emits(g, f[i])
  {
    assert SameEvent(h.events[i], g.events[f[i]]) && SourceCopied(h, g, f, i);
    if i in h.rf && h.rf[i].From? {
      var s := h.rf[i].send;
      assert SameEvent(h.events[s], g.events[f[s]]);
    }
  }

  lemma {:induction false} EmitsAllCopied(h: Graph, g: Graph, f: seq<nat>, t: ThreadId, m: nat, ids: seq<nat>)
    requires Subgraph(h, g, f) && m <= |f| && ThreadReadsCopied(g, f, t, m)
    requires forall i :: 0 <= i < |ids| ==> ids[i] < m && h.events[ids[i]].thread == t
    ensures EmitsAll(h, ids) == EmitsAll(g, Mapped(f, ids))
    decreases |ids|
  {
    if ids != [] {
      var n := |ids| - 1;
      EmitsAllCopied(h, g, f, t, m, ids[..n]);
      assert Mapped(f, ids)[..n] == Mapped(f, ids[..n]);
      assert SameEvent(h.events[ids[n]], g.events[f[ids[n]]]);
      EmitsCopied(h, g, f, ids[n]);
    }
  }

  /** A thread sees in the copy what it saw in the original. */
  lemma TraceCopied(h: Graph, g: Graph, f: seq<nat>, t: ThreadId, m: nat, x: nat)
    requires Subgraph(h, g, f) && CoversThread(g, f, t, m, x) && ThreadReadsCopied(g, f, t, m)
    ensures TraceUpTo(h, t, m) == TraceUpTo(g, t, x)
    ensures StepsUpTo(h, t, m) == StepsUpTo(g, t, x)
  {
    CoveredIds(h, g, f, t, m, x);
    EmitsAllCopied(h, g, f, t, m, ThreadIds(h, t, m));
  }

  // ----- the copy itself -----

  function IndexOf(f: seq<nat>, x: nat): (i: nat)
    requires x in f
    ensures i < |f| && f[i] == x
  {
    if f[0] == x then 0 else 1 + IndexOf(f[1..], x)
  }

  /** The source the `i`-th listed event has in the copy. */
  function CopiedSource(g: Graph, f: seq<nat>, i: nat): Option<Source>
    requires i < |f|
  {
    if f[i] !in g.rf then None
    else match g.rf[f[i]]
      case Bottom => Some(Bottom)
      case From(s) => if s in f then Some(From(IndexOf(f, s))) else None
  }

  /** The graph that copies exactly the events listed by `f`. */
  function Copy(g: Graph, f: seq<nat>): Graph
    requires forall i :: 0 <= i < |f| ==> f[i] < |g.events|
  {
    Graph(seq(|f|, i requires 0 <= i < |f| => g.events[f[i]]),
          map i | 0 <= i < |f| && CopiedSource(g, f, i).Some? :: CopiedSource(g, f, i).value)
  }

  lemma CopyIsSubgraph(g: Graph, f: seq<nat>)
    requires Selection(g, f)
    ensures Subgraph(Copy(g, f), g, f)
  {
    var h := Copy(g, f);
    forall i | 0 <= i < |f| ensures SourceCopied(h, g, f, i) {
      assert i in h.rf <==> CopiedSource(g, f, i).Some?;
    }
  }
}
