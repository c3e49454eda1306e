/** Per-thread event indices: the set of used ones, and why indices ascend with event ids. */
module EventIndices {
  import opened Optional

  /** The greatest event index. */
  const MAX_INDEX: nat := 0xFFFF_FFFF

  /** All indices below `denseEnd`, and those in `sparse`. */
  predicate Has(denseEnd: nat, sparse: seq<nat>, x: nat)
  {
    x < denseEnd || x in sparse
  }

  ghost predicate Tidy(denseEnd: nat, sparse: seq<nat>)
  {
    && denseEnd <= MAX_INDEX
    && (forall i :: 0 <= i < |sparse| ==> denseEnd <= sparse[i] <= MAX_INDEX)
    && (forall i, j :: 0 <= i < j < |sparse| ==> sparse[i] != sparse[j])
  }

  /** The last element takes the place of the removed one. */
  function RemoveAt(sparse: seq<nat>, i: nat): (rest: seq<nat>)
    requires i < |sparse|
    ensures |rest| == |sparse| - 1
  {
    sparse[i := sparse[|sparse| - 1]][..|sparse| - 1]
  }

  lemma RemovedMembers(sparse: seq<nat>, i: nat)
    requires i < |sparse| && forall a, b :: 0 <= a < b < |sparse| ==> sparse[a] != sparse[b]
    ensures var rest := RemoveAt(sparse, i);
            && (forall x :: x in rest <==> x in sparse && x != sparse[i])
            && (forall a, b :: 0 <= a < b < |rest| ==> rest[a] != rest[b])
  {
    var rest, last := RemoveAt(sparse, i), |sparse| - 1;
    forall x | x in sparse && x != sparse[i] ensures x in rest {
      var k :| 0 <= k < |sparse| && sparse[k] == x;
      assert rest[if k == last then i else k] == x;
    }
    forall x | x in rest ensures x in sparse && x != sparse[i] {
      var k :| 0 <= k < |rest| && rest[k] == x;
      assert x == sparse[if k == i then last else k];
    }
  }

  lemma RemovedTidy(denseEnd: nat, sparse: seq<nat>, i: nat)
    requires Tidy(denseEnd, sparse) && i < |sparse|
    ensures Tidy(denseEnd, RemoveAt(sparse, i))
    ensures sparse[i] == denseEnd < MAX_INDEX ==> Tidy(denseEnd + 1, RemoveAt(sparse, i))
  {
    RemovedMembers(sparse, i);
    var rest := RemoveAt(sparse, i);
    forall k | 0 <= k < |rest| ensures denseEnd <= rest[k] <= MAX_INDEX
        && (sparse[i] == denseEnd ==> denseEnd < rest[k]) {
      assert rest[k] in rest;
    }
  }

  class UsedEventIndexSet {
    var denseEnd: nat
    var sparse: seq<nat>

    ghost predicate Valid()
      reads this
    {
      Tidy(denseEnd, sparse)
    }

    predicate Holds(x: nat)
      reads this
    {
      Has(denseEnd, sparse, x)
    }

    constructor ()
      ensures Valid() && forall x: nat :: !Holds(x)
    {
      denseEnd, sparse := 0, [];
    }

    method FindSparse(x: nat) returns (at: Option<nat>)
      ensures at.Some? <==> x in sparse
      ensures at.Some? ==> at.value < |sparse| && sparse[at.value] == x
    {
      var i := 0;
      while i < |sparse|
        invariant 0 <= i <= |sparse| && x !in sparse[..i]
      {
        if sparse[i] == x {
          return Some(i);
        }
        i := i + 1;
      }
      assert sparse[..|sparse|] == sparse;
      at := None;
    }

    method Contains(x: nat) returns (r: bool)
      ensures r <==> Holds(x)
    {
      if x < denseEnd {
        return true;
      }
      var at := FindSparse(x);
      r := at.Some?;
    }

    /** The first index from `start` on that is not used. */
    method FirstFree(start: nat) returns (index: Option<nat>)
      requires start <= MAX_INDEX
      ensures index.Some? ==>
                start <= index.value <= MAX_INDEX && !Holds(index.value)
                && forall x :: start <= x < index.value ==> Holds(x)
      ensures index.None? ==> forall x :: start <= x <= MAX_INDEX ==> Holds(x)
    {
      var next := start;
      var taken := Contains(next);
      while taken
        invariant start <= next <= MAX_INDEX && (taken <==> Holds(next)) && forall x :: start <= x < next ==> Holds(x)
        decreases MAX_INDEX - next, taken
      {
        if next == MAX_INDEX {
          return None;
        }
        next := next + 1;
        taken := Contains(next);
      }
      index := Some(next);
    }

    /** Moves spilled indices that now continue the dense prefix. */
    method AbsorbSparse()
      requires Valid()
      modifies this
      ensures Valid() && forall x: nat :: Holds(x) <==> old(Holds(x))
    {
      var absorbed := true;
      while absorbed && sparse != []
        invariant Valid() && forall x: nat :: Holds(x) <==> old(Holds(x))
        decreases |sparse|, absorbed
      {
        absorbed := false;
        var at := FindSparse(denseEnd);
        if at.Some? && denseEnd != MAX_INDEX {
          RemovedMembers(sparse, at.value);
          RemovedTidy(denseEnd, sparse, at.value);
          denseEnd, sparse := denseEnd + 1, RemoveAt(sparse, at.value);
          absorbed := true;
        }
      }
    }

    method Insert(x: nat)
      requires Valid() && x <= MAX_INDEX && !Holds(x)
      modifies this
      ensures Valid() && forall y: nat :: Holds(y) <==> old(Holds(y)) || y == x
    {
      if x == denseEnd && x != MAX_INDEX {
        denseEnd := denseEnd + 1;
        AbsorbSparse();
        return;
      }
      sparse := sparse + [x];
    }

    /** Everything above a hole in the dense prefix is spilled. */
    method Demote(x: nat)
      requires Valid() && x < denseEnd
      modifies this
      ensures Valid() && forall y: nat :: Holds(y) <==> old(Holds(y)) && y != x
    {
      var above := x + 1;
      while above < denseEnd
        invariant x < above <= denseEnd == old(denseEnd) <= MAX_INDEX
        invariant forall i :: 0 <= i < |sparse| ==> x < sparse[i] <= MAX_INDEX && !(above <= sparse[i] < denseEnd)
        invariant forall i, j :: 0 <= i < j < |sparse| ==> sparse[i] != sparse[j]
        invariant forall y: nat :: y in sparse <==> y in old(sparse) || x < y < above
      {
        sparse := sparse + [above];
        above := above + 1;
      }
      denseEnd := x;
    }

    method Erase(x: nat) returns (removed: nat)
      requires Valid()
      modifies this
      ensures Valid() && removed == (if old(Holds(x)) then 1 else 0)
      ensures forall y: nat :: Holds(y) <==> old(Holds(y)) && y != x
    {
      var at := FindSparse(x);
      if at.Some? {
        RemovedMembers(sparse, at.value);
        RemovedTidy(denseEnd, sparse, at.value);
        sparse := RemoveAt(sparse, at.value);
        return 1;
      }
      if x >= denseEnd {
        return 0;
      }
      Demote(x);
      removed := 1;
    }
  }

  // ----- one thread's events -----

  /** The indices of a thread's events in order of their ids, the index to try next, and what that was before each
      event. */
  datatype Trail = Trail(indices: seq<nat>, nexts: seq<nat>, next: nat)

  function After(index: nat): nat
  {
    if index == MAX_INDEX then index else index + 1
  }

  function Extended(s: Trail, index: nat): Trail
  {
    Trail(s.indices + [index], s.nexts + [s.next], After(index))
  }

  function ExtendedAll(s: Trail, added: seq<nat>): Trail
  {
    if added == [] then s else Extended(ExtendedAll(s, added[..|added| - 1]), added[|added| - 1])
  }

  /** Back to the first `n` events. */
  function TakenBack(s: Trail, n: nat): Trail
    requires n <= |s.indices| == |s.nexts|
  {
    if n == |s.indices| then s else Trail(s.indices[..n], s.nexts[..n], s.nexts[n])
  }

  /** Taking back any number of appends restores the indices and the next index. */
  lemma {:induction false} AppendsTakenBack(s: Trail, added: seq<nat>)
    requires |s.indices| == |s.nexts|
    ensures var t := ExtendedAll(s, added);
            |t.indices| == |t.nexts| == |s.indices| + |added| && TakenBack(t, |s.indices|) == s
  {
    if added != [] {
      var k := |added| - 1;
      AppendsTakenBack(s, added[..k]);
      var before := ExtendedAll(s, added[..k]);
      var t := Extended(before, added[k]);
      assert t.indices[..|before.indices|] == before.indices && t.nexts[..|before.nexts|] == before.nexts;
      assert t.indices[..|s.indices|] == before.indices[..|s.indices|];
      assert t.nexts[..|s.indices|] == before.nexts[..|s.indices|];
    }
  }

  /** Every index is below `bound`, or both are the maximum. */
  ghost predicate AllBelow(indices: seq<nat>, bound: nat)
  {
    && bound <= MAX_INDEX
    && forall i :: 0 <= i < |indices| ==> indices[i] <= bound && (indices[i] == bound ==> bound == MAX_INDEX)
  }

  class ThreadIndices {
    const used: UsedEventIndexSet
    var trail: Trail

    /** Indices ascend, the set holds exactly them, and each next index was above the indices used by then. */
    ghost predicate Valid()
      reads this, used
    {
      && used.Valid() && |trail.nexts| == |trail.indices|
      && (forall i, j :: 0 <= i < j < |trail.indices| ==> trail.indices[i] < trail.indices[j])
      && (forall x: nat :: used.Holds(x) <==> x in trail.indices)
      && AllBelow(trail.indices, trail.next)
      && (forall k :: 0 <= k < |trail.nexts| ==> AllBelow(trail.indices[..k], trail.nexts[k]))
    }

    constructor ()
      ensures Valid() && fresh(used) && trail == Trail([], [], 0)
    {
      used := new UsedEventIndexSet();
      trail := Trail([], [], 0);
    }

    method Append(index: nat)
      requires Valid() && trail.next <= index <= MAX_INDEX && index !in trail.indices
      modifies this, used
      ensures Valid() && trail == Extended(old(trail), index)
    {
      used.Insert(index);
      ghost var was := trail;
      trail := Trail(trail.indices + [index], trail.nexts + [trail.next], After(index));
      forall k | 0 <= k < |trail.nexts| ensures AllBelow(trail.indices[..k], trail.nexts[k]) {
        assert trail.indices[..k] == was.indices[..k];
        if k == |was.indices| { assert was.indices[..k] == was.indices; }
      }
    }

    /** Appends an event with the next free index; fails when the range is used up. */
    method AddEvent() returns (index: Option<nat>)
      requires Valid()
      modifies this, used
      ensures Valid() && (index.None? <==> MAX_INDEX in old(trail.indices))
      ensures trail == if index.Some? then Extended(old(trail), index.value) else old(trail)
      ensures index.Some? ==> index.value == old(trail.next)
    {
      index := used.FirstFree(trail.next);
      if index.Some? {
        forall i | 0 <= i < |trail.indices| ensures trail.indices[i] < index.value {
          assert trail.indices[i] in trail.indices;
        }
        assert index.value == trail.next by {
          assert used.Holds(trail.next) ==> trail.next in trail.indices;
        }
        Append(index.value);
      }
    }

    /** An imported index: refused when used or out of order. */
    method AddEventWithIndex(index: nat) returns (ok: bool)
      requires Valid() && index <= MAX_INDEX
      modifies this, used
      ensures Valid() && (ok <==> old(trail.next) <= index && index !in old(trail.indices))
      ensures trail == if ok then Extended(old(trail), index) else old(trail)
    {
      var taken := used.Contains(index);
      if taken || index < trail.next {
        return false;
      }
      Append(index);
      ok := true;
    }

    /** Takes the last event back, with the next index it found. */
    method RollbackLast() returns (ok: bool)
      requires Valid() && trail.indices != []
      modifies this, used
      ensures ok && Valid() && trail == TakenBack(old(trail), |old(trail.indices)| - 1)
    {
      ghost var was := trail;
      var n := |trail.indices| - 1;
      var last := trail.indices[n];
      assert last in trail.indices;
      var removed := used.Erase(last);
      ok := removed == 1;
      trail := Trail(trail.indices[..n], trail.nexts[..n], trail.nexts[n]);
      forall x: nat ensures used.Holds(x) <==> x in trail.indices {
        assert was.indices == trail.indices + [last];
        assert last !in trail.indices;
      }
      forall k | 0 <= k < |trail.nexts| ensures AllBelow(trail.indices[..k], trail.nexts[k]) {
        assert trail.indices[..k] == was.indices[..k];
      }
    }

    /** Takes events back until `n` are left. */
    method RollbackTo(n: nat) returns (ok: bool)
      requires Valid() && n <= |trail.indices|
      modifies this, used
      ensures ok && Valid() && trail == TakenBack(old(trail), n)
    {
      ok := true;
      while |trail.indices| > n
        invariant ok && Valid() && n <= |trail.indices| <= |old(trail.indices)|
        invariant trail == TakenBack(old(trail), |trail.indices|)
        decreases |trail.indices|
      {
        ok := RollbackLast();
      }
    }
  }
}
