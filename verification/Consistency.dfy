/** Causal order and the two consistency models. */
module Consistency {
  import opened Events
  import opened Reachability

  ghost predicate PorfEdge(g: Graph, a: nat, b: nat)
  {
    Po(g, a, b) || (a < |g.events| && b < |g.events| && Reads(g, b, a))
  }

  ghost function PorfEdges(g: Graph): Relation
  {
    iset e: (nat, nat) | PorfEdge(g, e.0, e.1)
  }

  /** The strict causal order: the transitive closure of program order and reads-from. */
  ghost predicate Porf(g: Graph, a: nat, b: nat)
  {
    Reach(PorfEdges(g), a, b)
  }

  ghost predicate CausallyAcyclic(g: Graph)
  {
    Acyclic(PorfEdges(g))
  }

  /** Every reads-from entry joins existing events of the right kinds. */
  predicate ValidEndpoints(g: Graph)
  {
    forall r :: r in g.rf ==> IsReceive(g, r) && (g.rf[r].From? ==> IsSend(g, g.rf[r].send))
  }

  predicate GoodRead(g: Graph, r: nat)
    requires r in g.rf
  {
    && IsReceive(g, r)
    && (g.rf[r].Bottom? ==> !g.events[r].op.blocking)
    && (g.rf[r].From? ==>
          && IsSend(g, g.rf[r].send)
          && g.events[g.rf[r].send].op.destination == g.events[r].thread
          && Accepts(g, r, g.rf[r].send))
  }

  predicate ReadOnce(g: Graph)
  {
    forall r, q :: r in g.rf && q in g.rf && g.rf[r].From? && g.rf[r] == g.rf[q] ==> r == q
  }

  /** What the validation pass demands of the entries that are present. */
  predicate WellFormed(g: Graph)
  {
    && (forall r :: r in g.rf ==> GoodRead(g, r))
    && ReadOnce(g)
  }

  predicate ReadsTotal(g: Graph)
  {
    forall r :: 0 <= r < |g.events| && IsReceive(g, r) ==> r in g.rf
  }

  /** Two sends from one thread to one thread, in program order. */
  predicate SameChannel(g: Graph, early: nat, late: nat)
  {
    && IsSend(g, early) && IsSend(g, late)
    && Po(g, early, late)
    && g.events[early].op.destination == g.events[late].op.destination
  }

  predicate SkipsUnread(g: Graph, early: nat, late: nat, r: nat)
  {
    SameChannel(g, early, late) && Reads(g, r, late) && Unread(g, early) && Accepts(g, r, early)
  }

  /** FIFO clause (b): no receive takes a send while an unread earlier one it accepts is in the channel. */
  ghost predicate FifoClauseB(g: Graph)
  {
    forall early: nat, late: nat, r: nat :: !SkipsUnread(g, early, late, r)
  }

  predicate Overtakes(g: Graph, early: nat, late: nat, r: nat, q: nat)
  {
    && SameChannel(g, early, late) && Reads(g, r, late) && Reads(g, q, early)
    && Po(g, r, q) && Accepts(g, r, early)
  }

  /** FIFO clause (c): a receive that took a later send leaves no earlier acceptable one to a successor. */
  ghost predicate FifoClauseC(g: Graph)
  {
    forall early: nat, late: nat, r: nat, q: nat :: !Overtakes(g, early, late, r, q)
  }

  ghost predicate ModelClauses(g: Graph, m: CommunicationModel)
  {
    m.FifoP2P? ==> FifoClauseB(g) && FifoClauseC(g)
  }

  ghost predicate Consistent(g: Graph, m: CommunicationModel)
  {
    WellFormed(g) && ReadsTotal(g) && CausallyAcyclic(g) && ModelClauses(g, m)
  }

  /** Consistency that forgives a missing source for every receive but `target`. */
  ghost predicate ConsistentAround(g: Graph, m: CommunicationModel, target: nat)
  {
    && WellFormed(g)
    && (IsReceive(g, target) ==> target in g.rf)
    && CausallyAcyclic(g)
    && ModelClauses(g, m)
  }

  lemma WellFormedEndpoints(g: Graph)
    requires WellFormed(g)
    ensures ValidEndpoints(g)
  {
    forall r | r in g.rf
      ensures IsReceive(g, r) && (g.rf[r].From? ==> IsSend(g, g.rf[r].send))
    {
      assert GoodRead(g, r);
    }
  }

  lemma NoReadBeyond(g: Graph)
    requires WellFormed(g)
    ensures forall r :: r in g.rf ==> r < |g.events|
  {
    forall r | r in g.rf ensures r < |g.events| {
      assert GoodRead(g, r);
    }
  }

  lemma OnlyReceivesRead(g: Graph, x: nat)
    requires WellFormed(g) && !IsReceive(g, x)
    ensures x !in g.rf
  {
  }

  lemma PorfStep(g: Graph, a: nat, b: nat)
    requires PorfEdge(g, a, b)
    ensures (a, b) in PorfEdges(g) && Porf(g, a, b)
  {
    EdgeReaches(PorfEdges(g), a, b);
  }

  lemma PorfInside(g: Graph, a: nat, b: nat)
    requires Porf(g, a, b)
    ensures a < |g.events| && b < |g.events|
  {
    var c := ReachLast(PorfEdges(g), a, b);
    var k: nat :| ReachIn(PorfEdges(g), k, a, b);
  }

  lemma PorfTransitive(g: Graph, a: nat, b: nat, c: nat)
    requires Porf(g, a, b) && Porf(g, b, c)
    ensures Porf(g, a, c)
  {
    ReachTransitive(PorfEdges(g), a, b, c);
  }

  /** In an acyclic graph causality within a thread is program order. */
  lemma PorfWithinThread(g: Graph, a: nat, b: nat)
    requires CausallyAcyclic(g) && Porf(g, a, b)
    requires a < |g.events| && b < |g.events| && g.events[a].thread == g.events[b].thread
    ensures a < b
  {
    if b <= a {
      if b < a {
        PorfStep(g, b, a);
        PorfTransitive(g, a, b, a);
      }
      assert false;
    }
  }

  /** What is causally before an event is closed under what is causally before that. */
  lemma PorfPrefixIsClosed(g: Graph, a: nat, b: nat, c: nat)
    requires PorfEdge(g, a, b)
    requires b == c || Porf(g, b, c)
    ensures Porf(g, a, c)
  {
    PorfStep(g, a, b);
    if b != c {
      PorfTransitive(g, a, b, c);
    }
  }
}
