/** Depth-first cycle detection with three colours. */
module CycleSearch {
  import opened Reachability

  datatype Colour = White | Grey | Black

  ghost predicate Adjacency(n: nat, successors: seq<seq<nat>>)
  {
    |successors| == n && forall a :: 0 <= a < n ==> forall b :: b in successors[a] ==> b < n
  }

  ghost function EdgesOf(successors: seq<seq<nat>>): Relation
  {
    iset e: (nat, nat) | e.0 < |successors| && e.1 in successors[e.0]
  }

  ghost function WhiteNodes(colours: seq<Colour>): set<nat>
  {
    set x | 0 <= x < |colours| && colours[x].White?
  }

  /** `order` lists the black nodes as they were finished: every edge out of one leads to an earlier one. */
  ghost predicate Finished(successors: seq<seq<nat>>, colours: seq<Colour>, order: seq<nat>)
  {
    && |colours| == |successors|
    && (forall x :: 0 <= x < |colours| ==> (colours[x].Black? <==> x in order))
    && (forall x :: x in order ==> x < |colours|)
    && (forall i :: 0 <= i < |order| ==> Settled(successors, order, i))
  }

  ghost predicate Settled(successors: seq<seq<nat>>, order: seq<nat>, i: nat)
    requires i < |order|
  {
    order[i] < |successors| && forall b :: b in successors[order[i]] ==> b in order[..i]
  }

  lemma SettledExtends(successors: seq<seq<nat>>, order: seq<nat>, node: nat, i: nat)
    requires i < |order| && Settled(successors, order, i)
    ensures Settled(successors, order + [node], i)
  {
    assert (order + [node])[..i] == order[..i];
  }

  lemma FinishNode(successors: seq<seq<nat>>, colours: seq<Colour>, order: seq<nat>, node: nat)
    requires Finished(successors, colours, order) && node < |colours| && !colours[node].Black?
    requires forall b :: b in successors[node] ==> b < |colours| && colours[b].Black?
    ensures Finished(successors, colours[node := Black], order + [node])
  {
    var longer := order + [node];
    forall i | 0 <= i < |longer| ensures Settled(successors, longer, i) {
      if i < |order| {
        SettledExtends(successors, order, node, i);
      } else {
        assert longer[..i] == order;
      }
    }
  }

  lemma RecolouredStaysFinished(successors: seq<seq<nat>>, colours: seq<Colour>, order: seq<nat>, node: nat)
    requires Finished(successors, colours, order) && node < |colours| && colours[node].White?
    ensures Finished(successors, colours[node := Grey], order)
  {
  }

  ghost function Place(order: seq<nat>, x: nat): int
  {
    if x in order then FirstIndex(order, x) else |order|
  }

  /** Once every node is black the finishing order refutes a cycle. */
  lemma AllBlackIsAcyclic(successors: seq<seq<nat>>, colours: seq<Colour>, order: seq<nat>)
    requires Adjacency(|colours|, successors) && Finished(successors, colours, order)
    requires forall x :: 0 <= x < |colours| ==> colours[x].Black?
    ensures Acyclic(EdgesOf(successors))
  {
    var rank := (x: nat) => 0 - Place(order, x);
    forall x: nat, y: nat | (x, y) in EdgesOf(successors)
      ensures rank(x) < rank(y)
    {
      assert colours[x].Black? && x in order;
      var i := FirstIndex(order, x);
      assert Settled(successors, order, i);
      assert y in order[..i];
      var k :| 0 <= k < i && order[..i][k] == y;
      assert order[k] == y;
      FirstIsLeast(order, y, k);
    }
    RankedIsAcyclic(EdgesOf(successors), rank);
  }

  /** Every grey node leads to `node`. */
  ghost predicate GreyPath(successors: seq<seq<nat>>, colours: seq<Colour>, node: nat)
  {
    forall x :: 0 <= x < |colours| && colours[x].Grey? ==> x == node || Reach(EdgesOf(successors), x, node)
  }

  lemma GreyPathDescends(successors: seq<seq<nat>>, colours: seq<Colour>, node: nat, next: nat)
    requires GreyPath(successors, colours, node) && node < |successors| && next in successors[node]
    ensures forall x :: 0 <= x < |colours| && colours[x].Grey? ==> Reach(EdgesOf(successors), x, next)
  {
    var r := EdgesOf(successors);
    EdgeReaches(r, node, next);
    forall x | 0 <= x < |colours| && colours[x].Grey? ensures Reach(r, x, next) {
      if x != node { ReachTransitive(r, x, node, next); }
    }
  }

  /** The grey nodes are as before, nothing turned white and the black ones are finished. */
  ghost predicate Progressed(before: seq<Colour>, after: seq<Colour>)
  {
    && |before| == |after|
    && (forall x :: 0 <= x < |before| ==> (before[x].Grey? <==> after[x].Grey?))
    && (forall x :: 0 <= x < |before| && before[x].Black? ==> after[x].Black?)
  }

  lemma ProgressShrinks(before: seq<Colour>, after: seq<Colour>)
    requires Progressed(before, after)
    ensures WhiteNodes(after) <= WhiteNodes(before)
  {
  }

  method Explore(successors: seq<seq<nat>>, colours: array<Colour>, node: nat, ghost order: seq<nat>)
    returns (cycle: bool, ghost finished: seq<nat>)
    requires Adjacency(colours.Length, successors) && Finished(successors, colours[..], order)
    requires node < colours.Length && colours[node].White?
    requires forall x :: 0 <= x < colours.Length && colours[x].Grey? ==> Reach(EdgesOf(successors), x, node)
    modifies colours
    ensures cycle ==> !Acyclic(EdgesOf(successors))
    ensures !cycle ==>
              colours[node].Black? && Progressed(old(colours[..]), colours[..])
              && Finished(successors, colours[..], finished)
    decreases |WhiteNodes(colours[..])|
  {
    hide Acyclic, Reach, Finished, EdgesOf, WhiteNodes;
    ghost var start := colours[..];
    RecolouredStaysFinished(successors, start, order, node);
    colours[node] := Grey;
    ghost var entered := colours[..];
    assert entered == start[node := Grey];
    Entered(start, node);
    finished := order;
    var k := 0;
    while k < |successors[node]|
      invariant 0 <= k <= |successors[node]|
      invariant Progressed(entered, colours[..]) && Finished(successors, colours[..], finished)
      invariant forall i :: 0 <= i < k ==> successors[node][i] < colours.Length && colours[successors[node][i]].Black?
    {
      var next := successors[node][k];
      assert next in successors[node];
      assert GreyPath(successors, colours[..], node) by { GreyStays(successors, start, node, entered, colours[..]); }
      GreyPathDescends(successors, colours[..], node, next);
      if colours[next].Grey? {
        GreyCycle(successors, next);
        return true, finished;
      }
      if colours[next].White? {
        ghost var now := colours[..];
        ProgressShrinks(entered, now);
        SubsetCount(WhiteNodes(now), WhiteNodes(entered));
        var found, f := Explore(successors, colours, next, finished);
        if found {
          return true, f;
        }
        finished := f;
        ProgressTwice(entered, now, colours[..]);
      }
      k := k + 1;
    }
    FinishNode(successors, colours[..], finished, node);
    ghost var last := colours[..];
    colours[node] := Black;
    assert colours[..] == last[node := Black];
    finished := finished + [node];
    cycle := false;
  }

  lemma Entered(start: seq<Colour>, node: nat)
    requires node < |start| && start[node].White?
    ensures |WhiteNodes(start[node := Grey])| < |WhiteNodes(start)|
  {
    assert WhiteNodes(start[node := Grey]) == WhiteNodes(start) - {node};
  }

  lemma GreyStays(successors: seq<seq<nat>>, start: seq<Colour>, node: nat, entered: seq<Colour>, now: seq<Colour>)
    requires node < |start| && entered == start[node := Grey] && Progressed(entered, now)
    requires forall x :: 0 <= x < |start| && start[x].Grey? ==> Reach(EdgesOf(successors), x, node)
    ensures GreyPath(successors, now, node)
  {
  }

  lemma GreyCycle(successors: seq<seq<nat>>, next: nat)
    requires Reach(EdgesOf(successors), next, next)
    ensures !Acyclic(EdgesOf(successors))
  {
  }

  lemma ProgressTwice(a: seq<Colour>, b: seq<Colour>, c: seq<Colour>)
    requires Progressed(a, b) && Progressed(b, c)
    ensures Progressed(a, c)
  {
  }

  /** The search answers whether the relation has a cycle. */
  method HasCycle(n: nat, successors: seq<seq<nat>>) returns (cycle: bool)
    requires Adjacency(n, successors)
    ensures cycle <==> !Acyclic(EdgesOf(successors))
  {
    hide Acyclic, Reach, EdgesOf;
    var colours := new Colour[n](_ => White);
    ghost var order := [];
    var id := 0;
    while id < n
      invariant 0 <= id <= n && Finished(successors, colours[..], order)
      invariant forall x :: 0 <= x < n ==> !colours[x].Grey?
      invariant forall x :: 0 <= x < id ==> colours[x].Black?
    {
      if colours[id].White? {
        ghost var before := colours[..];
        var found, f := Explore(successors, colours, id, order);
        if found {
          return true;
        }
        order := f;
        assert Progressed(before, colours[..]);
      }
      id := id + 1;
    }
    AllBlackIsAcyclic(successors, colours[..], order);
    cycle := false;
  }
}
