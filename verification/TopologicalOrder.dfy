/** The cycle test of the exploration graph: adjacency in compressed rows, then Kahn's algorithm with a stack. */
module TopologicalOrder {
  import opened Reachability

  type Edge = (nat, nat)

  ghost predicate InRange(n: nat, edges: seq<Edge>)
  {
    forall i :: 0 <= i < |edges| ==> edges[i].0 < n && edges[i].1 < n
  }

  ghost function Related(edges: seq<Edge>): Relation
  {
    iset e: Edge | e in edges
  }

  /** How many edges leave `v`. */
  ghost function Leaving(edges: seq<Edge>, v: nat): nat
  {
    if edges == [] then 0 else Leaving(edges[..|edges| - 1], v) + (if edges[|edges| - 1].0 == v then 1 else 0)
  }

  /** How many edges leave a node below `v`: where the row of `v` starts. */
  ghost function RowStart(edges: seq<Edge>, v: nat): nat
  {
    if v == 0 then 0 else RowStart(edges, v - 1) + Leaving(edges, v - 1)
  }

  /** The targets of the edges that leave `v`, in order. */
  ghost function Targets(edges: seq<Edge>, v: nat): (targets: seq<nat>)
    ensures |targets| == Leaving(edges, v)
  {
    if edges == [] then []
    else
      var last := edges[|edges| - 1];
      Targets(edges[..|edges| - 1], v) + (if last.0 == v then [last.1] else [])
  }

  /** How many edges enter `v` from a node outside `done`. */
  ghost function Entering(edges: seq<Edge>, done: seq<nat>, v: nat): nat
  {
    if edges == [] then 0
    else
      var last := edges[|edges| - 1];
      Entering(edges[..|edges| - 1], done, v) + (if last.1 == v && last.0 !in done then 1 else 0)
  }

  ghost function Occurrences(s: seq<nat>, v: nat): nat
  {
    if s == [] then 0 else Occurrences(s[..|s| - 1], v) + (if s[|s| - 1] == v then 1 else 0)
  }

  // ----- counting lemmas -----

  lemma {:induction false} LeavingMonotone(edges: seq<Edge>, k: nat, v: nat)
    requires k <= |edges|
    ensures Leaving(edges[..k], v) <= Leaving(edges, v)
    decreases |edges|
  {
    if k < |edges| {
      assert edges[..|edges| - 1][..k] == edges[..k];
      LeavingMonotone(edges[..|edges| - 1], k, v);
    } else {
      assert edges[..k] == edges;
    }
  }

  /** An edge not yet placed leaves room in its source's row. */
  lemma RoomInRow(edges: seq<Edge>, k: nat)
    requires k < |edges|
    ensures Leaving(edges[..k], edges[k].0) < Leaving(edges, edges[k].0)
  {
    assert edges[..k + 1][..k] == edges[..k];
    LeavingMonotone(edges, k + 1, edges[k].0);
  }

  lemma {:induction false} RowStartMonotone(edges: seq<Edge>, u: nat, v: nat)
    requires u < v
    ensures RowStart(edges, u) + Leaving(edges, u) <= RowStart(edges, v)
    decreases v
  {
    if u < v - 1 { RowStartMonotone(edges, u, v - 1); }
  }

  lemma {:induction false} TargetsPrefix(edges: seq<Edge>, k: nat, v: nat)
    requires k < |edges|
    ensures Targets(edges[..k + 1], v) == Targets(edges[..k], v) + (if edges[k].0 == v then [edges[k].1] else [])
    ensures Leaving(edges[..k + 1], v) == Leaving(edges[..k], v) + (if edges[k].0 == v then 1 else 0)
  {
    assert edges[..k + 1][..k] == edges[..k];
  }

  lemma EnteringPrefix(edges: seq<Edge>, k: nat, done: seq<nat>, v: nat)
    requires k < |edges|
    ensures Entering(edges[..k + 1], done, v)
            == Entering(edges[..k], done, v) + (if edges[k].1 == v && edges[k].0 !in done then 1 else 0)
  {
    assert edges[..k + 1][..k] == edges[..k];
  }

  lemma RowStartZero(edges: seq<Edge>)
    ensures RowStart(edges, 0) == 0
  {
  }

  lemma RowStartNext(edges: seq<Edge>, v: nat)
    ensures RowStart(edges, v + 1) == RowStart(edges, v) + Leaving(edges, v)
  {
  }

  lemma {:induction false} RowStartTotal(edges: seq<Edge>, n: nat)
    requires InRange(n, edges)
    ensures RowStart(edges, n) == |edges|
    decreases |edges|
  {
    if edges == [] {
      RowStartEmpty(n);
    } else {
      RowStartTotal(edges[..|edges| - 1], n);
      RowStartSnoc(edges, n);
    }
  }

  lemma {:induction false} RowStartEmpty(n: nat)
    ensures RowStart([], n) == 0
  {
    if n > 0 { RowStartEmpty(n - 1); }
  }

  lemma {:induction false} RowStartSnoc(edges: seq<Edge>, v: nat)
    requires edges != []
    ensures RowStart(edges, v) == RowStart(edges[..|edges| - 1], v) + (if edges[|edges| - 1].0 < v then 1 else 0)
  {
    if v > 0 { RowStartSnoc(edges, v - 1); }
  }

  /** Finishing `node` takes away exactly its edges. */
  lemma {:induction false} EnteringDrop(edges: seq<Edge>, done: seq<nat>, node: nat, v: nat)
    requires node !in done
    ensures Entering(edges, done + [node], v) + Occurrences(Targets(edges, node), v) == Entering(edges, done, v)
    decreases |edges|
  {
    if edges != [] {
      var last := edges[|edges| - 1];
      EnteringDrop(edges[..|edges| - 1], done, node, v);
      var t := Targets(edges[..|edges| - 1], node);
      assert last.0 in done + [node] <==> last.0 in done || last.0 == node;
      if last.0 == node {
        assert (t + [last.1])[..|t|] == t;
      } else {
        assert Targets(edges, node) == t;
      }
    }
  }

  lemma {:induction false} EnteringZero(edges: seq<Edge>, done: seq<nat>, v: nat)
    ensures Entering(edges, done, v) == 0 <==> forall e :: e in edges && e.1 == v ==> e.0 in done
    decreases |edges|
  {
    if edges != [] {
      var n := |edges| - 1;
      EnteringZero(edges[..n], done, v);
      assert edges == edges[..n] + [edges[n]];
    }
  }

  lemma {:induction false} OccurrencesMonotone(s: seq<nat>, k: nat, v: nat)
    requires k <= |s|
    ensures Occurrences(s[..k], v) <= Occurrences(s, v)
    decreases |s|
  {
    if k < |s| {
      assert s[..|s| - 1][..k] == s[..k];
      OccurrencesMonotone(s[..|s| - 1], k, v);
    } else {
      assert s[..k] == s;
    }
  }

  lemma OccurrencesNext(s: seq<nat>, k: nat, v: nat)
    requires k < |s|
    ensures Occurrences(s[..k + 1], v) == Occurrences(s[..k], v) + (if s[k] == v then 1 else 0)
  {
    assert s[..k + 1][..k] == s[..k];
  }

  lemma NoEdges()
    ensures forall v: nat :: Leaving([], v) == 0 && Entering([], [], v) == 0
  {
  }

  // ----- building the rows -----

  /** Pass one: out-degrees, shifted by one, and in-degrees. */
  method CountDegrees(n: nat, edges: seq<Edge>) returns (offsets: array<nat>, inDegree: array<nat>)
    requires InRange(n, edges)
    ensures offsets.Length == n + 1 && inDegree.Length == n && offsets != inDegree && fresh(offsets) && fresh(inDegree)
    ensures offsets[0] == 0 && forall u :: 1 <= u <= n ==> offsets[u] == Leaving(edges, u - 1)
    ensures forall v :: 0 <= v < n ==> inDegree[v] == Entering(edges, [], v)
  {
    hide Leaving, Entering;
    offsets := new nat[n + 1](_ => 0);
    inDegree := new nat[n](_ => 0);
    var k := 0;
    NoEdges();
    while k < |edges|
      invariant 0 <= k <= |edges|
      invariant offsets[0] == 0 && forall u :: 1 <= u <= n ==> offsets[u] == Leaving(edges[..k], u - 1)
      invariant forall v :: 0 <= v < n ==> inDegree[v] == Entering(edges[..k], [], v)
    {
      var source, target := edges[k].0, edges[k].1;
      forall v | 0 <= v < n
        ensures Leaving(edges[..k + 1], v) == Leaving(edges[..k], v) + (if source == v then 1 else 0)
        ensures Entering(edges[..k + 1], [], v) == Entering(edges[..k], [], v) + (if target == v then 1 else 0)
      {
        TargetsPrefix(edges, k, v);
        EnteringPrefix(edges, k, [], v);
      }
      offsets[source + 1] := offsets[source + 1] + 1;
      inDegree[target] := inDegree[target] + 1;
      k := k + 1;
    }
    assert edges[..k] == edges;
  }

  method PrefixSum(n: nat, edges: seq<Edge>, offsets: array<nat>)
    requires offsets.Length == n + 1
    requires offsets[0] == 0 && forall u :: 1 <= u <= n ==> offsets[u] == Leaving(edges, u - 1)
    modifies offsets
    ensures forall v :: 0 <= v <= n ==> offsets[v] == RowStart(edges, v)
  {
    hide RowStart, Leaving;
    ghost var counts := offsets[..];
    var id := 0;
    RowStartZero(edges);
    while id < n
      invariant 0 <= id <= n
      invariant forall v :: 0 <= v <= id ==> offsets[v] == RowStart(edges, v)
      invariant forall v :: id < v <= n ==> offsets[v] == counts[v]
    {
      RowStartNext(edges, id);
      offsets[id + 1] := offsets[id + 1] + offsets[id];
      id := id + 1;
    }
  }

  /** Row `v` of the filled adjacency lists the targets of `v`. */
  ghost predicate Rows(n: nat, edges: seq<Edge>, offsets: array<nat>, successors: array<nat>)
    reads offsets, successors
  {
    && offsets.Length == n + 1 && successors.Length == |edges|
    && (forall v :: 0 <= v <= n ==> offsets[v] == RowStart(edges, v) && offsets[v] <= |edges|)
    && Filled(n, edges, |edges|, successors[..])
  }

  lemma RowFits(n: nat, edges: seq<Edge>, v: nat, x: nat)
    requires InRange(n, edges) && v < n && x < Leaving(edges, v)
    ensures RowStart(edges, v) + x < |edges|
  {
    RowStartTotal(edges, n);
    RowStartMonotone(edges, v, n);
  }

  lemma RowsDisjoint(edges: seq<Edge>, u: nat, x: nat, v: nat, y: nat)
    requires x < Leaving(edges, u) && y < Leaving(edges, v) && (u != v || x != y)
    ensures RowStart(edges, u) + x != RowStart(edges, v) + y
  {
    if u < v { RowStartMonotone(edges, u, v); }
    if v < u { RowStartMonotone(edges, v, u); }
  }

  /** The targets of the first `k` edges have been placed. */
  ghost predicate Filled(n: nat, edges: seq<Edge>, k: nat, slots: seq<nat>)
    requires k <= |edges|
  {
    |slots| == |edges| && forall v: nat, x: nat :: v < n ==> Placed(edges, k, slots, v, x)
  }

  /** The `x`-th target of `v` among the first `k` edges is in its slot. */
  ghost predicate Placed(edges: seq<Edge>, k: nat, slots: seq<nat>, v: nat, x: nat)
    requires k <= |edges|
  {
    x < Leaving(edges[..k], v) ==>
      RowStart(edges, v) + x < |slots| && slots[RowStart(edges, v) + x] == Targets(edges[..k], v)[x]
  }

  lemma FillStep(n: nat, edges: seq<Edge>, k: nat, slots: seq<nat>)
    requires k < |edges| && InRange(n, edges) && Filled(n, edges, k, slots)
    ensures var slot := RowStart(edges, edges[k].0) + Leaving(edges[..k], edges[k].0);
            slot < |edges| && Filled(n, edges, k + 1, slots[slot := edges[k].1])
  {
    hide Leaving, RowStart, Targets;
    var source := edges[k].0;
    var y := Leaving(edges[..k], source);
    RoomInRow(edges, k);
    RowFits(n, edges, source, y);
    var slot := RowStart(edges, source) + y;
    var next := slots[slot := edges[k].1];
    var placed := k + 1;
    forall v: nat, x: nat | v < n
      ensures Placed(edges, placed, next, v, x)
    {
      TargetsPrefix(edges, k, v);
      LeavingMonotone(edges, k + 1, v);
      if x < Leaving(edges[..k + 1], v) {
        RowFits(n, edges, v, x);
        assert Placed(edges, k, slots, v, x);
        if x < Leaving(edges[..k], v) {
          RowsDisjoint(edges, v, x, source, y);
        }
      }
    }
  }

  lemma FilledAll(n: nat, edges: seq<Edge>, offsets: array<nat>, successors: array<nat>)
    requires InRange(n, edges) && offsets.Length == n + 1 && successors.Length == |edges|
    requires forall v :: 0 <= v <= n ==> offsets[v] == RowStart(edges, v)
    requires Filled(n, edges, |edges|, successors[..])
    ensures Rows(n, edges, offsets, successors)
  {
    hide Leaving, RowStart, Targets;
    assert edges[..|edges|] == edges;
    forall v | 0 <= v <= n
      ensures RowStart(edges, v) <= |edges|
    {
      RowStartTotal(edges, n);
      if v < n { RowStartMonotone(edges, v, n); }
    }
  }

  /** Pass two: place each target in the row of its source. */
  method FillRows(n: nat, edges: seq<Edge>, offsets: array<nat>) returns (successors: array<nat>)
    requires InRange(n, edges) && offsets.Length == n + 1
    requires forall v :: 0 <= v <= n ==> offsets[v] == RowStart(edges, v)
    ensures fresh(successors) && Rows(n, edges, offsets, successors)
  {
    hide Leaving, RowStart, Targets, Filled, Rows, Placed;
    successors := new nat[|edges|](_ => 0);
    var cursor := new nat[n];
    var id := 0;
    while id < n
      invariant 0 <= id <= n
      invariant forall v :: 0 <= v < id ==> cursor[v] == RowStart(edges, v)
    {
      cursor[id] := offsets[id];
      id := id + 1;
    }
    var k := 0;
    NothingFilled(n, edges, successors[..]);
    while k < |edges|
      invariant 0 <= k <= |edges|
      invariant forall v :: 0 <= v < n ==> cursor[v] == RowStart(edges, v) + Leaving(edges[..k], v)
      invariant Filled(n, edges, k, successors[..])
    {
      var source, target := edges[k].0, edges[k].1;
      ghost var slots := successors[..];
      FillStep(n, edges, k, slots);
      forall v | 0 <= v < n
        ensures Leaving(edges[..k + 1], v) == Leaving(edges[..k], v) + (if v == source then 1 else 0)
      {
        TargetsPrefix(edges, k, v);
      }
      successors[cursor[source]] := target;
      assert successors[..] == slots[cursor[source] := target];
      cursor[source] := cursor[source] + 1;
      k := k + 1;
    }
    FilledAll(n, edges, offsets, successors);
  }

  lemma NothingFilled(n: nat, edges: seq<Edge>, slots: seq<nat>)
    requires |slots| == |edges|
    ensures Filled(n, edges, 0, slots) && forall v: nat :: Leaving(edges[..0], v) == 0
  {
    assert edges[..0] == [];
  }

  // ----- Kahn's algorithm -----

  ghost predicate Distinct(s: seq<nat>)
  {
    forall i, j :: 0 <= i < j < |s| ==> s[i] != s[j]
  }

  /** The nodes listed so far come after everything they depend on. */
  ghost predicate Ordered(edges: seq<Edge>, order: seq<nat>)
  {
    forall e, j :: e in edges && 0 <= j < |order| && order[j] == e.1 ==> e.0 in order[..j]
  }

  /** `order` is done, `ready` can be listed next, and the counts say how much each node still waits for. */
  ghost predicate KahnState(n: nat, edges: seq<Edge>, order: seq<nat>, ready: seq<nat>)
  {
    && Distinct(order + ready)
    && (forall v :: v in order + ready ==> v < n)
    && Ordered(edges, order)
    && (forall v :: 0 <= v < n ==> (v in order + ready <==> Entering(edges, order, v) == 0))
  }

  lemma OrderedSnoc(edges: seq<Edge>, order: seq<nat>, node: nat)
    requires Ordered(edges, order) && node !in order && Entering(edges, order, node) == 0
    ensures Ordered(edges, order + [node])
  {
    EnteringZero(edges, order, node);
    forall e, j | e in edges && 0 <= j < |order + [node]| && (order + [node])[j] == e.1
      ensures e.0 in (order + [node])[..j]
    {
      assert (order + [node])[..j] == order[..j];
      if j == |order| { assert order[..j] == order; }
    }
  }

  /** Telling the `x`-th target of `node`: one more occurrence, within what it waits for. */
  lemma Telling(edges: seq<Edge>, order: seq<nat>, node: nat, x: nat, v: nat)
    requires node !in order && x < |Targets(edges, node)|
    ensures var targets := Targets(edges, node);
            && Occurrences(targets[..x + 1], v) == Occurrences(targets[..x], v) + (if targets[x] == v then 1 else 0)
            && Occurrences(targets[..x + 1], v) <= Entering(edges, order, v)
  {
    var targets := Targets(edges, node);
    OccurrencesNext(targets, x, v);
    OccurrencesMonotone(targets, x + 1, v);
    EnteringDrop(edges, order, node, v);
  }

  lemma BeforeRelease(n: nat, edges: seq<Edge>, order: seq<nat>, node: nat, rest: seq<nat>)
    requires InRange(n, edges) && node < n && node !in order && KahnState(n, edges, order, rest + [node])
    ensures Releasing(n, edges, order, node, Targets(edges, node), 0, rest)
    ensures forall x :: 0 <= x < |Targets(edges, node)| ==> Targets(edges, node)[x] < n
    ensures forall v: nat :: Occurrences(Targets(edges, node)[..0], v) == 0
    ensures RowStart(edges, node + 1) == RowStart(edges, node) + |Targets(edges, node)|
  {
    StartRelease(n, edges, order, node, rest);
    TargetsInRange(n, edges, node);
    RowStartNext(edges, node);
    assert Targets(edges, node)[..0] == [];
  }

  lemma RowEntry(n: nat, edges: seq<Edge>, node: nat, x: nat, offsets: array<nat>, successors: array<nat>)
    requires Rows(n, edges, offsets, successors) && node < n && x < |Targets(edges, node)|
    ensures RowStart(edges, node) + x < successors.Length
    ensures successors[RowStart(edges, node) + x] == Targets(edges, node)[x]
  {
    hide Leaving, RowStart, Targets;
    assert edges[..|edges|] == edges;
    assert Placed(edges, |edges|, successors[..], node, x);
  }

  lemma RowBounds(n: nat, edges: seq<Edge>, node: nat, offsets: array<nat>, successors: array<nat>)
    requires Rows(n, edges, offsets, successors) && node < n
    ensures offsets.Length == n + 1 && offsets[node] == RowStart(edges, node)
            && offsets[node + 1] == RowStart(edges, node + 1)
  {
  }

  lemma AfterRelease(n: nat, edges: seq<Edge>, order: seq<nat>, node: nat, rest: seq<nat>, ready: seq<nat>)
    requires node < n && node !in order && KahnState(n, edges, order, rest + [node])
    requires Releasing(n, edges, order, node, Targets(edges, node), |Targets(edges, node)|, ready)
    ensures KahnState(n, edges, order + [node], ready)
    ensures forall v: nat ::
              Entering(edges, order + [node], v) + Occurrences(Targets(edges, node)[..|Targets(edges, node)|], v)
              == Entering(edges, order, v)
  {
    hide Entering, Occurrences, Targets;
    assert Targets(edges, node)[..|Targets(edges, node)|] == Targets(edges, node);
    forall v: nat ensures Entering(edges, order + [node], v) + Occurrences(Targets(edges, node), v)
        == Entering(edges, order, v) {
      EnteringDrop(edges, order, node, v);
    }
    assert forall v :: v in order ==> v in order + (rest + [node]);
    assert node in order + (rest + [node]);
    EndRelease(n, edges, order, node, ready);
  }

  /** One node's successors are told; those that wait for nothing more become ready. */
  method Release(n: nat, edges: seq<Edge>, ghost order: seq<nat>, node: nat, rest: seq<nat>,
                 offsets: array<nat>, successors: array<nat>, inDegree: array<nat>) returns (ready: seq<nat>)
    requires InRange(n, edges) && Rows(n, edges, offsets, successors)
    requires inDegree.Length == n && inDegree != offsets && inDegree != successors
    requires node < n && node !in order && KahnState(n, edges, order, rest + [node])
    requires forall v :: 0 <= v < n ==> inDegree[v] == Entering(edges, order, v)
    modifies inDegree
    ensures forall v :: 0 <= v < n ==> inDegree[v] == Entering(edges, order + [node], v)
    ensures KahnState(n, edges, order + [node], ready)
  {
    hide *;
    ghost var targets := Targets(edges, node);
    BeforeRelease(n, edges, order, node, rest);
    RowBounds(n, edges, node, offsets, successors);
    ready := rest;
    var edge := offsets[node];
    ghost var x := 0;
    while edge < offsets[node + 1]
      invariant edge == RowStart(edges, node) + x && 0 <= x <= |targets|
      invariant forall v :: 0 <= v < n ==> inDegree[v] + Occurrences(targets[..x], v) == Entering(edges, order, v)
      invariant Releasing(n, edges, order, node, targets, x, ready)
    {
      RowEntry(n, edges, node, x, offsets, successors);
      var succ := successors[edge];
      forall v | 0 <= v < n
        ensures Occurrences(targets[..x + 1], v) == Occurrences(targets[..x], v) + (if succ == v then 1 else 0)
        ensures Occurrences(targets[..x + 1], v) <= Entering(edges, order, v)
      {
        Telling(edges, order, node, x, v);
      }
      inDegree[succ] := inDegree[succ] - 1;
      NextRelease(n, edges, order, node, targets, x, ready);
      if inDegree[succ] == 0 {
        ready := ready + [succ];
      }
      edge := edge + 1;
      x := x + 1;
    }
    AfterRelease(n, edges, order, node, rest, ready);
  }

  lemma {:induction false} TargetsInRange(n: nat, edges: seq<Edge>, v: nat)
    requires InRange(n, edges)
    ensures forall x :: 0 <= x < |Targets(edges, v)| ==> Targets(edges, v)[x] < n
    decreases |edges|
  {
    if edges != [] { TargetsInRange(n, edges[..|edges| - 1], v); }
  }

  /** While the first `x` targets of `node` have been told. */
  ghost predicate Releasing(n: nat, edges: seq<Edge>, order: seq<nat>, node: nat, targets: seq<nat>, x: nat,
                            ready: seq<nat>)
    requires x <= |targets|
  {
    && Distinct(order + [node] + ready)
    && (forall v :: v in ready ==> v < n)
    && (forall v :: 0 <= v < n ==>
          (v in order + [node] + ready <==> Entering(edges, order, v) == Occurrences(targets[..x], v)))
  }

  lemma StartRelease(n: nat, edges: seq<Edge>, order: seq<nat>, node: nat, rest: seq<nat>)
    requires KahnState(n, edges, order, rest + [node]) && node !in order
    ensures Releasing(n, edges, order, node, Targets(edges, node), 0, rest)
  {
    var all := order + (rest + [node]);
    var again := order + [node] + rest;
    assert forall v :: v in all <==> v in again;
    forall i, j | 0 <= i < j < |again| ensures again[i] != again[j] {
      var p := if i < |order| then i else if i == |order| then |all| - 1 else i - 1;
      var q := if j < |order| then j else if j == |order| then |all| - 1 else j - 1;
      assert again[i] == all[p] && again[j] == all[q] && p != q;
    }
    assert forall v :: v in rest ==> v in all;
    assert Targets(edges, node)[..0] == [];
  }

  lemma NextRelease(n: nat, edges: seq<Edge>, order: seq<nat>, node: nat, targets: seq<nat>, x: nat, ready: seq<nat>)
    requires x < |targets| && targets[x] < n && Releasing(n, edges, order, node, targets, x, ready)
    requires forall v :: 0 <= v < n ==> Occurrences(targets[..x + 1], v) <= Entering(edges, order, v)
    ensures Releasing(n, edges, order, node, targets, x + 1,
                      if Entering(edges, order, targets[x])
                      == Occurrences(targets[..x + 1], targets[x]) then ready + [targets[x]] else ready)
  {
    var succ := targets[x];
    OccurrencesNext(targets, x, succ);
    assert succ !in order + [node] + ready;
    forall v | 0 <= v < n ensures v != succ ==> Occurrences(targets[..x + 1], v) == Occurrences(targets[..x], v) {
      OccurrencesNext(targets, x, v);
    }
    var before := order + [node] + ready;
    assert before + [succ] == order + [node] + (ready + [succ]);
  }

  lemma EndRelease(n: nat, edges: seq<Edge>, order: seq<nat>, node: nat, ready: seq<nat>)
    requires Ordered(edges, order) && node !in order && Entering(edges, order, node) == 0 && node < n
    requires forall v :: v in order ==> v < n
    requires Releasing(n, edges, order, node, Targets(edges, node), |Targets(edges, node)|, ready)
    ensures KahnState(n, edges, order + [node], ready)
  {
    OrderedSnoc(edges, order, node);
    assert Targets(edges, node)[..|Targets(edges, node)|] == Targets(edges, node);
    forall v | 0 <= v < n
      ensures v in order + [node] + ready <==> Entering(edges, order + [node], v) == 0
    {
      EnteringDrop(edges, order, node, v);
    }
  }

  method FindReady(n: nat, edges: seq<Edge>, inDegree: array<nat>) returns (ready: seq<nat>)
    requires inDegree.Length == n && forall v :: 0 <= v < n ==> inDegree[v] == Entering(edges, [], v)
    ensures KahnState(n, edges, [], ready)
  {
    ready := [];
    var id := 0;
    while id < n
      invariant 0 <= id <= n
      invariant Distinct(ready)
      invariant forall v :: v in ready <==> 0 <= v < id && Entering(edges, [], v) == 0
    {
      if inDegree[id] == 0 {
        ready := ready + [id];
      }
      id := id + 1;
    }
    assert [] + ready == ready;
  }

  /** The rows and Kahn's loop: a full listing is a topological order, and a short one means a cycle. */
  method Sort(n: nat, edges: seq<Edge>) returns (acyclic: bool, order: seq<nat>)
    requires InRange(n, edges)
    ensures acyclic <==> Acyclic(Related(edges))
    ensures acyclic ==> Listing(n, edges, order)
  {
    var offsets, inDegree := CountDegrees(n, edges);
    PrefixSum(n, edges, offsets);
    var successors := FillRows(n, edges, offsets);
    var ready := FindReady(n, edges, inDegree);
    order := [];
    while ready != []
      invariant Rows(n, edges, offsets, successors) && fresh(inDegree) && inDegree.Length == n
      invariant inDegree != offsets && inDegree != successors
      invariant forall v :: 0 <= v < n ==> inDegree[v] == Entering(edges, order, v)
      invariant KahnState(n, edges, order, ready)
      decreases n - |order|
    {
      var node, rest := ready[|ready| - 1], ready[..|ready| - 1];
      assert ready == rest + [node];
      NotYetListed(n, edges, order, rest, node);
      ready := Release(n, edges, order, node, rest, offsets, successors, inDegree);
      order := order + [node];
    }
    acyclic := |order| == n;
    Verdict(n, edges, order);
  }

  /** Every node once, each after the nodes it depends on. */
  ghost predicate Listing(n: nat, edges: seq<Edge>, order: seq<nat>)
  {
    |order| == n && Distinct(order) && (forall v :: v in order <==> 0 <= v < n) && Ordered(edges, order)
  }

  lemma NotYetListed(n: nat, edges: seq<Edge>, order: seq<nat>, rest: seq<nat>, node: nat)
    requires KahnState(n, edges, order, rest + [node])
    ensures node !in order && node < n && |order| < n
  {
    var all := order + (rest + [node]);
    assert all[|all| - 1] == node;
    forall i | 0 <= i < |order| ensures order[i] != node {
      assert all[i] == order[i];
    }
    assert node in all;
    DistinctIsShort(n, all);
  }

  /** Distinct numbers below `n` are at most `n`. */
  lemma DistinctIsShort(n: nat, s: seq<nat>)
    requires Distinct(s) && forall v :: v in s ==> v < n
    ensures |s| <= n
  {
    var values := set i | 0 <= i < |s| :: s[i];
    DistinctCount(s);
    var below := NumbersBelow(n);
    BelowCount(n);
    assert values <= below by {
      forall v | v in values ensures v in below {
        var i :| 0 <= i < |s| && s[i] == v;
        assert s[i] in s;
      }
    }
    SubsetCount(values, below);
  }

  lemma {:induction false} DistinctCount(s: seq<nat>)
    requires Distinct(s)
    ensures |set i | 0 <= i < |s| :: s[i]| == |s|
  {
    if s != [] {
      var n := |s| - 1;
      DistinctCount(s[..n]);
      var a, b := set i | 0 <= i < |s| :: s[i], set i | 0 <= i < |s[..n]| :: s[..n][i];
      assert a == b + {s[n]} by {
        forall v | v in a ensures v in b + {s[n]} {
          var i :| 0 <= i < |s| && s[i] == v;
          if i < n { assert s[..n][i] == v; }
        }
        forall v | v in b ensures v in a {
          var i :| 0 <= i < |s[..n]| && s[..n][i] == v;
          assert s[i] == v;
        }
      }
      assert s[n] !in b;
    }
  }

  ghost function NumbersBelow(n: nat): (s: set<nat>)
    ensures forall v: nat :: v in s <==> v < n
  {
    if n == 0 then {} else NumbersBelow(n - 1) + {n - 1}
  }

  lemma {:induction false} BelowCount(n: nat)
    ensures |NumbersBelow(n)| == n
  {
    if n > 0 { BelowCount(n - 1); }
  }

  /** A short listing leaves nodes that all wait for one another. */
  lemma Verdict(n: nat, edges: seq<Edge>, order: seq<nat>)
    requires InRange(n, edges) && KahnState(n, edges, order, [])
    ensures |order| == n <==> Acyclic(Related(edges))
    ensures |order| == n ==> Listing(n, edges, order)
  {
    assert order + [] == order;
    var left := set v: nat | 0 <= v < n && v !in order;
    ListedCount(n, order);
    if left == {} {
      assert forall v: nat :: v < n && v !in order ==> v in left;
      OrderedIsAcyclic(n, edges, order);
    } else {
      forall v | v in left ensures HasPredecessor(Related(edges), left, v) {
        EnteringZero(edges, order, v);
        var e :| e in edges && e.1 == v && e.0 !in order;
        assert e.0 in left && (e.0, v) in Related(edges);
      }
      var c := PredecessorsGiveCycle(Related(edges), left);
    }
  }

  lemma ListedCount(n: nat, order: seq<nat>)
    requires Distinct(order) && forall v :: v in order ==> v < n
    ensures |order| == n <==> (set v: nat | 0 <= v < n && v !in order) == {}
  {
    hide NumbersBelow;
    var values := set i | 0 <= i < |order| :: order[i];
    var below := NumbersBelow(n);
    var left := set v: nat | 0 <= v < n && v !in order;
    DistinctCount(order);
    BelowCount(n);
    assert below == values + left by {
      forall v | v in values ensures v in below {
        var i :| 0 <= i < |order| && order[i] == v;
        assert order[i] in order;
      }
    }
    assert values !! left by {
      forall v | v in values ensures v !in left { var i :| 0 <= i < |order| && order[i] == v; }
    }
    assert |below| == |values| + |left|;
  }

  ghost function PositionIn(order: seq<nat>): nat -> int
  {
    (v: nat) => if v in order then FirstIndex(order, v) else |order|
  }

  lemma OrderedIsAcyclic(n: nat, edges: seq<Edge>, order: seq<nat>)
    requires InRange(n, edges) && Ordered(edges, order) && forall v: nat :: v < n ==> v in order
    ensures Acyclic(Related(edges))
  {
    var rank := PositionIn(order);
    forall x: nat, y: nat | (x, y) in Related(edges)
      ensures rank(x) < rank(y)
    {
      var e := (x, y);
      assert e in edges;
      var i :| 0 <= i < |edges| && edges[i] == e;
      var j := FirstIndex(order, y);
      assert x in order[..j];
      var k :| 0 <= k < j && order[k] == x;
      FirstIsLeast(order, x, k);
    }
    RankedIsAcyclic(Related(edges), rank);
  }
}
