/** Validation of the reads-from entries, and the reference cycle check. */
module Validation {
  import opened Events
  import opened Reachability
  import opened Consistency
  import opened TopologicalOrder
  import CycleSearch

  datatype Issue =
    | InvalidEventReference
    | ReadsFromTargetNotReceive
    | ReadsFromSourceNotSend
    | MissingReadsFromForReceive
    | BlockingReceiveReadsBottom
    | SendConsumedMultipleTimes
    | ReceiveDestinationMismatch
    | ReceiveValueMismatch
    | CausalCycle
    | FifoP2PUnreadEarlierMatchingSend
    | FifoP2PReceiveOrderViolation

  // ----- the reads-from entries, in ascending order of the receive -----

  lemma {:induction false} GreatestKey(keys: set<nat>) returns (m: nat)
    requires keys != {}
    ensures m in keys && forall k :: k in keys ==> k <= m
    decreases |keys|
  {
    var k :| k in keys;
    var rest := keys - {k};
    if rest == {} {
      m := k;
    } else {
      m := GreatestKey(rest);
      if m < k { m := k; }
    }
    forall x | x in keys ensures x <= m {
      assert x == k || x in rest;
    }
  }

  /** One past the greatest receive that has an entry. */
  function Span(rf: map<nat, Source>): (n: nat)
    ensures forall r :: r in rf ==> r < n
  {
    if rf == map[] then 0
    else
      assert exists m :: m in rf && forall r :: r in rf ==> r <= m by {
        var m := GreatestKey(rf.Keys);
      }
      var m :| m in rf && forall r :: r in rf ==> r <= m;
      m + 1
  }

  predicate IdsExist(g: Graph, r: nat)
    requires r in g.rf
  {
    r < |g.events| && (g.rf[r].From? ==> g.rf[r].send < |g.events|)
  }

  predicate KindsFit(g: Graph, r: nat)
    requires r in g.rf
  {
    IsReceive(g, r) && (g.rf[r].From? ==> IsSend(g, g.rf[r].send))
  }

  /** An earlier well-kinded entry takes the same send. */
  ghost predicate TakenBelow(g: Graph, s: nat, k: nat)
  {
    exists q :: q in g.rf && q < k && KindsFit(g, q) && g.rf[q] == From(s)
  }

  function When(condition: bool, issue: Issue): seq<Issue>
  {
    if condition then [issue] else []
  }

  function EntryIssues(g: Graph, r: nat, again: bool): seq<Issue>
    requires r in g.rf
  {
    var source := g.rf[r];
    if !IdsExist(g, r) then
      When(r >= |g.events|, InvalidEventReference)
      + When(source.From? && source.send >= |g.events|, InvalidEventReference)
    else if !KindsFit(g, r) then
      When(!IsReceive(g, r), ReadsFromTargetNotReceive)
      + When(source.From? && !IsSend(g, source.send), ReadsFromSourceNotSend)
    else if source.Bottom? then
      When(g.events[r].op.blocking, BlockingReceiveReadsBottom)
    else
      When(again, SendConsumedMultipleTimes)
      + When(g.events[source.send].op.destination != g.events[r].thread, ReceiveDestinationMismatch)
      + When(!Accepts(g, r, source.send), ReceiveValueMismatch)
  }

  ghost function IssuesAt(g: Graph, r: nat): seq<Issue>
  {
    if r in g.rf then EntryIssues(g, r, g.rf[r].From? && TakenBelow(g, g.rf[r].send, r)) else []
  }

  ghost function IssuesBelow(g: Graph, k: nat): seq<Issue>
  {
    if k == 0 then [] else IssuesBelow(g, k - 1) + IssuesAt(g, k - 1)
  }

  ghost function MissingBelow(g: Graph, tolerated: nat -> bool, k: nat): seq<Issue>
    requires k <= |g.events|
  {
    if k == 0 then []
    else MissingBelow(g, tolerated, k - 1) + When(Lacks(g, tolerated, k - 1), MissingReadsFromForReceive)
  }

  predicate Lacks(g: Graph, tolerated: nat -> bool, r: nat)
  {
    IsReceive(g, r) && !(r in g.rf && IdsExist(g, r)) && !tolerated(r)
  }

  ghost function ValidationIssues(g: Graph, tolerated: nat -> bool): seq<Issue>
  {
    IssuesBelow(g, Span(g.rf)) + MissingBelow(g, tolerated, |g.events|)
  }

  // ----- an empty validation is well-formedness -----

  lemma {:induction false} NoIssuesBelow(g: Graph, k: nat)
    ensures IssuesBelow(g, k) == [] <==> forall r :: 0 <= r < k ==> IssuesAt(g, r) == []
  {
    if k > 0 {
      NoIssuesBelow(g, k - 1);
    }
  }

  lemma {:induction false} NoneMissingBelow(g: Graph, tolerated: nat -> bool, k: nat)
    requires k <= |g.events|
    ensures MissingBelow(g, tolerated, k) == [] <==> forall r :: 0 <= r < k ==> !Lacks(g, tolerated, r)
  {
    if k > 0 {
      NoneMissingBelow(g, tolerated, k - 1);
    }
  }

  lemma CleanEntry(g: Graph, r: nat)
    requires r in g.rf
    ensures IssuesAt(g, r) == [] <==> GoodRead(g, r) && !(g.rf[r].From? && TakenBelow(g, g.rf[r].send, r))
  {
    hide TakenBelow;
  }

  lemma WellFormedIsClean(g: Graph)
    requires WellFormed(g)
    ensures forall r :: r in g.rf ==> IssuesAt(g, r) == [] && IdsExist(g, r)
  {
    forall r | r in g.rf ensures IssuesAt(g, r) == [] && IdsExist(g, r) {
      CleanEntry(g, r);
    }
  }

  lemma TakenByEarlier(g: Graph, q: nat, r: nat)
    requires q in g.rf && r in g.rf && q < r && KindsFit(g, q) && g.rf[q].From? && g.rf[q] == g.rf[r]
    ensures TakenBelow(g, g.rf[r].send, r)
  {
  }

  lemma CleanIsWellFormed(g: Graph)
    requires forall r :: r in g.rf ==> IssuesAt(g, r) == []
    ensures WellFormed(g)
  {
    hide IssuesAt, TakenBelow;
    forall r | r in g.rf ensures GoodRead(g, r) {
      CleanEntry(g, r);
    }
    forall r, q | r in g.rf && q in g.rf && g.rf[r].From? && g.rf[r] == g.rf[q] ensures r == q {
      CleanEntry(g, r);
      CleanEntry(g, q);
      if r < q {
        TakenByEarlier(g, r, q);
      } else if q < r {
        TakenByEarlier(g, q, r);
      }
    }
  }

  /** The validation pass is silent exactly on well-formed graphs whose receives all read, tolerated ones aside. */
  lemma CleanValidation(g: Graph, tolerated: nat -> bool)
    ensures ValidationIssues(g, tolerated) == [] <==>
            WellFormed(g) && forall r :: 0 <= r < |g.events| && IsReceive(g, r) ==> r in g.rf || tolerated(r)
  {
    hide IssuesAt, Span, WellFormed, IdsExist;
    var k := Span(g.rf);
    NoIssuesBelow(g, k);
    NoneMissingBelow(g, tolerated, |g.events|);
    forall r | 0 <= r < k && r !in g.rf ensures IssuesAt(g, r) == [] { NoEntry(g, r); }
    if WellFormed(g) {
      WellFormedIsClean(g);
      assert IssuesBelow(g, k) == [];
      forall r | 0 <= r < |g.events| && IsReceive(g, r)
        ensures Lacks(g, tolerated, r) <==> !(r in g.rf || tolerated(r))
      {
      }
    } else if IssuesBelow(g, k) == [] {
      CleanIsWellFormed(g);
    }
  }

  lemma NoEntry(g: Graph, r: nat)
    requires r !in g.rf
    ensures IssuesAt(g, r) == []
  {
  }

  // ----- what each code reports -----

  /** The fault each code of the two passes stands for. */
  ghost predicate Fault(g: Graph, tolerated: nat -> bool, code: Issue)
  {
    match code
    case MissingReadsFromForReceive => exists r: nat :: Unsourced(g, tolerated, r)
    case _ => exists r: nat :: r in g.rf && EntryFault(g, r, code)
  }

  /** A receive that is not tolerated and has no entry, or one that names an event that does not exist. */
  ghost predicate Unsourced(g: Graph, tolerated: nat -> bool, r: nat)
  {
    && r < |g.events| && g.events[r].op.Receive? && !tolerated(r)
    && (r !in g.rf || (g.rf[r].From? && g.rf[r].send >= |g.events|))
  }

  ghost predicate EntryFault(g: Graph, r: nat, code: Issue)
    requires r in g.rf
  {
    var n, source := |g.events|, g.rf[r];
    var inside := r < n && (source.From? ==> source.send < n);
    var joins := inside && source.From? && g.events[r].op.Receive? && g.events[source.send].op.Send?;
    match code
    case InvalidEventReference => r >= n || (source.From? && source.send >= n)
    case ReadsFromTargetNotReceive => inside && !g.events[r].op.Receive?
    case ReadsFromSourceNotSend => inside && source.From? && !g.events[source.send].op.Send?
    case BlockingReceiveReadsBottom => inside && source == Bottom && g.events[r].op.Receive? && g.events[r].op.blocking
    case SendConsumedMultipleTimes =>
      joins && exists q: nat :: q < r && q < n && q in g.rf && g.rf[q] == source && g.events[q].op.Receive?
    case ReceiveDestinationMismatch => joins && g.events[source.send].op.destination != g.events[r].thread
    case ReceiveValueMismatch => joins && !g.events[r].op.matches(g.events[source.send].op.value)
    case _ => false
  }

  /** An entry is reported under a code exactly when it has that fault. */
  lemma EntryCodes(g: Graph, r: nat, code: Issue)
    requires r in g.rf
    ensures code in IssuesAt(g, r) <==> EntryFault(g, r, code)
  {
    var again := g.rf[r].From? && TakenBelow(g, g.rf[r].send, r);
    if KindsFit(g, r) && g.rf[r].From? {
      assert again <==> exists q: nat ::
          q < r && q < |g.events| && q in g.rf && g.rf[q] == g.rf[r] && g.events[q].op.Receive?;
    }
    hide TakenBelow;
  }

  /** The place of a code in the list of codes. */
  function Rank(code: Issue): nat
  {
    match code
    case InvalidEventReference => 0
    case ReadsFromTargetNotReceive => 1
    case ReadsFromSourceNotSend => 2
    case MissingReadsFromForReceive => 3
    case BlockingReceiveReadsBottom => 4
    case SendConsumedMultipleTimes => 5
    case ReceiveDestinationMismatch => 6
    case ReceiveValueMismatch => 7
    case CausalCycle => 8
    case FifoP2PUnreadEarlierMatchingSend => 9
    case FifoP2PReceiveOrderViolation => 10
  }

  /** The issues of one entry come in the order of the codes, each at most once; only both ends of an entry may be
      unknown at the same time. */
  lemma EntryOrder(g: Graph, r: nat, i: nat, j: nat)
    requires r in g.rf && i < j < |IssuesAt(g, r)|
    ensures Rank(IssuesAt(g, r)[i]) <= Rank(IssuesAt(g, r)[j])
    ensures IssuesAt(g, r)[i] == IssuesAt(g, r)[j] ==>
              IssuesAt(g, r)[i] == InvalidEventReference && r >= |g.events| && g.rf[r].From?
              && g.rf[r].send >= |g.events|
  {
    hide TakenBelow;
  }

  lemma {:induction false} CodesBelow(g: Graph, k: nat, code: Issue)
    ensures code in IssuesBelow(g, k) <==> exists r: nat :: r < k && r in g.rf && EntryFault(g, r, code)
    decreases k
  {
    hide IssuesAt, EntryFault;
    if k > 0 {
      CodesBelow(g, k - 1, code);
      if k - 1 in g.rf {
        EntryCodes(g, k - 1, code);
      } else {
        NoEntry(g, k - 1);
      }
    }
  }

  lemma {:induction false} MissingCodes(g: Graph, tolerated: nat -> bool, k: nat, code: Issue)
    requires k <= |g.events|
    ensures code in MissingBelow(g, tolerated, k) <==>
            code == MissingReadsFromForReceive && exists r: nat :: r < k && Unsourced(g, tolerated, r)
    decreases k
  {
    if k > 0 {
      MissingCodes(g, tolerated, k - 1, code);
      assert Lacks(g, tolerated, k - 1) <==> Unsourced(g, tolerated, k - 1);
    }
  }

  /** A code is in the list exactly when the graph has the fault it stands for. */
  lemma ValidationCodes(g: Graph, tolerated: nat -> bool, code: Issue)
    ensures code in ValidationIssues(g, tolerated) <==> Fault(g, tolerated, code)
  {
    hide IssuesBelow, MissingBelow, Span;
    CodesBelow(g, Span(g.rf), code);
    MissingCodes(g, tolerated, |g.events|, code);
  }

  // ----- the validation pass -----

  /** Entries that join existing events of the right kinds, as edges, in ascending order of the receive. */
  function FitEdges(g: Graph, k: nat): seq<Edge>
  {
    if k == 0 then []
    else
      FitEdges(g, k - 1)
      + if k - 1 in g.rf && KindsFit(g, k - 1) && g.rf[k - 1].From? then [(g.rf[k - 1].send, k - 1)] else []
  }

  ghost predicate Scanned(g: Graph, k: nat, hasSource: seq<bool>, taken: seq<nat>)
  {
    && |hasSource| == |taken| == |g.events|
    && (forall x :: 0 <= x < |g.events| ==> (hasSource[x] <==> x < k && x in g.rf && IdsExist(g, x)))
    && (forall s :: 0 <= s < |g.events| ==> (taken[s] > 0 <==> TakenBelow(g, s, k)))
  }

  lemma TakenNext(g: Graph, s: nat, k: nat)
    ensures TakenBelow(g, s, k + 1) <==> TakenBelow(g, s, k) || (k in g.rf && KindsFit(g, k) && g.rf[k] == From(s))
  {
  }

  lemma ScanSkips(g: Graph, k: nat, hasSource: seq<bool>, taken: seq<nat>)
    requires Scanned(g, k, hasSource, taken) && !(k in g.rf && IdsExist(g, k))
    ensures Scanned(g, k + 1, hasSource, taken)
  {
    hide TakenBelow;
    forall s: nat ensures TakenBelow(g, s, k + 1) <==> TakenBelow(g, s, k) { TakenNext(g, s, k); }
  }

  lemma ScanTakes(g: Graph, k: nat, hasSource: seq<bool>, taken: seq<nat>, taken': seq<nat>)
    requires Scanned(g, k, hasSource, taken) && k in g.rf && IdsExist(g, k) && |taken'| == |taken|
    requires forall s :: 0 <= s < |taken| ==>
               if KindsFit(g, k) && g.rf[k] == From(s) then taken'[s] > 0 else taken'[s] == taken[s]
    ensures Scanned(g, k + 1, hasSource[k := true], taken')
  {
    hide TakenBelow;
    forall s: nat
      ensures TakenBelow(g, s, k + 1) <==> TakenBelow(g, s, k) || (KindsFit(g, k) && g.rf[k] == From(s))
    {
      TakenNext(g, s, k);
    }
  }

  /** One entry: reports what is wrong with it and marks its receive and its send. */
  method ScanEntry(g: Graph, r: nat, found: array<bool>, taken: array<nat>) returns (issues: seq<Issue>, fits: bool)
    requires r in g.rf && Scanned(g, r, found[..], taken[..])
    modifies found, taken
    ensures Scanned(g, r + 1, found[..], taken[..])
    ensures issues == IssuesAt(g, r) && (fits <==> KindsFit(g, r))
  {
    hide TakenBelow;
    var n, source := |g.events|, g.rf[r];
    issues, fits := [], false;
    if r >= n {
      issues := issues + [InvalidEventReference];
    }
    if source.From? && source.send >= n {
      issues := issues + [InvalidEventReference];
    }
    if issues != [] {
      ScanSkips(g, r, found[..], taken[..]);
      return;
    }
    ghost var before, wasFound := taken[..], found[..];
    found[r] := true;
    assert found[..] == wasFound[r := true];
    if !g.events[r].op.Receive? {
      issues := issues + [ReadsFromTargetNotReceive];
    }
    if source.From? && !g.events[source.send].op.Send? {
      issues := issues + [ReadsFromSourceNotSend];
    }
    if issues != [] {
      ScanTakes(g, r, wasFound, before, taken[..]);
      return;
    }
    fits := true;
    if source.Bottom? {
      if g.events[r].op.blocking {
        issues := issues + [BlockingReceiveReadsBottom];
      }
      ScanTakes(g, r, wasFound, before, taken[..]);
      return;
    }
    var s := source.send;
    var again := taken[s] > 0;
    if taken[s] < 255 {
      taken[s] := taken[s] + 1;
    }
    if again {
      issues := issues + [SendConsumedMultipleTimes];
    }
    if g.events[s].op.destination != g.events[r].thread {
      issues := issues + [ReceiveDestinationMismatch];
    }
    if !g.events[r].op.matches(g.events[s].op.value) {
      issues := issues + [ReceiveValueMismatch];
    }
    ScanTakes(g, r, wasFound, before, taken[..]);
  }

  /** The first pass: every entry in turn. */
  method ScanEntries(g: Graph) returns (issues: seq<Issue>, safe: bool, edges: seq<Edge>, hasSource: seq<bool>)
    ensures issues == IssuesBelow(g, Span(g.rf)) && edges == FitEdges(g, Span(g.rf))
    ensures forall code :: code in issues <==> exists r: nat :: r in g.rf && EntryFault(g, r, code)
    ensures safe <==> ValidEndpoints(g)
    ensures |hasSource| == |g.events|
    ensures forall x :: 0 <= x < |g.events| ==> (hasSource[x] <==> x in g.rf && IdsExist(g, x))
  {
    hide Span, IssuesAt, TakenBelow, IdsExist, KindsFit, EntryFault;
    var found := new bool[|g.events|](_ => false);
    var taken := new nat[|g.events|](_ => 0);
    issues, safe, edges := [], true, [];
    NothingTaken(g);
    var r := 0;
    while r < Span(g.rf)
      invariant 0 <= r <= Span(g.rf) && issues == IssuesBelow(g, r) && edges == FitEdges(g, r)
      invariant safe <==> forall q :: q in g.rf && q < r ==> KindsFit(g, q)
      invariant Scanned(g, r, found[..], taken[..])
    {
      if r in g.rf {
        var more, fits := ScanEntry(g, r, found, taken);
        safe := safe && fits;
        if fits && g.rf[r].From? {
          edges := edges + [(g.rf[r].send, r)];
        }
        issues := issues + more;
      } else {
        ScanSkips(g, r, found[..], taken[..]);
        NoEntry(g, r);
      }
      r := r + 1;
    }
    hasSource := found[..];
    FitIsValid(g);
    forall code ensures code in issues <==> exists q: nat :: q in g.rf && EntryFault(g, q, code) {
      CodesBelow(g, Span(g.rf), code);
    }
  }

  lemma NothingTaken(g: Graph)
    ensures forall s: nat :: !TakenBelow(g, s, 0)
  {
  }

  lemma FitIsValid(g: Graph)
    ensures ValidEndpoints(g) <==> forall r :: r in g.rf ==> KindsFit(g, r)
  {
  }

  /** Both passes. `tolerated` receives need no source. */
  method ValidateGraph(g: Graph, tolerated: nat -> bool) returns (issues: seq<Issue>, safe: bool, edges: seq<Edge>)
    ensures issues == ValidationIssues(g, tolerated)
    ensures forall code :: code in issues <==> Fault(g, tolerated, code)
    ensures safe <==> ValidEndpoints(g)
    ensures edges == FitEdges(g, Span(g.rf))
  {
    hide Span, IdsExist, IssuesBelow, ValidEndpoints, Fault, EntryFault;
    var entries, ok, fit, hasSource := ScanEntries(g);
    safe, edges := ok, fit;
    var missing: seq<Issue> := [];
    var id := 0;
    while id < |g.events|
      invariant 0 <= id <= |g.events| && missing == MissingBelow(g, tolerated, id)
    {
      if g.events[id].op.Receive? && !hasSource[id] && !tolerated(id) {
        missing := missing + [MissingReadsFromForReceive];
      }
      id := id + 1;
    }
    issues := entries + missing;
    forall code ensures code in issues <==> Fault(g, tolerated, code) { ValidationCodes(g, tolerated, code); }
  }

  // ----- the cycle check over well-kinded entries -----

  ghost predicate CheckedEdge(g: Graph, a: nat, b: nat)
  {
    Po(g, a, b) || (Reads(g, b, a) && KindsFit(g, b))
  }

  ghost function CheckedEdges(g: Graph): Relation
  {
    iset e: (nat, nat) | CheckedEdge(g, e.0, e.1)
  }

  lemma CheckedIsCausal(g: Graph)
    requires ValidEndpoints(g)
    ensures CheckedEdges(g) == PorfEdges(g)
  {
  }

  lemma {:induction false} FitEdgesAre(g: Graph, k: nat, e: Edge)
    ensures e in FitEdges(g, k) <==> e.1 < k && Reads(g, e.1, e.0) && KindsFit(g, e.1)
  {
    if k > 0 {
      FitEdgesAre(g, k - 1, e);
    }
  }

  /** Successor lists: program order first, then the reads. */
  method BuildSuccessors(g: Graph, edges: seq<Edge>) returns (successors: seq<seq<nat>>)
    requires forall i :: 0 <= i < |edges| ==> edges[i].0 < |g.events| && edges[i].1 < |g.events|
    ensures |successors| == |g.events|
    ensures forall a: nat, b: nat :: a < |g.events| ==> (b in successors[a] <==> Po(g, a, b) || (a, b) in edges)
  {
    successors := [];
    while |successors| < |g.events|
      invariant |successors| <= |g.events|
      invariant forall a: nat, b: nat :: a < |successors| ==> (b in successors[a] <==> Po(g, a, b))
    {
      var list := PoSuccessors(g, |successors|);
      successors := successors + [list];
    }
    var k := 0;
    while k < |edges|
      invariant 0 <= k <= |edges| && |successors| == |g.events|
      invariant forall a: nat, b: nat ::
                  a < |g.events| ==> (b in successors[a] <==> Po(g, a, b) || (a, b) in edges[..k])
    {
      var e := edges[k];
      assert edges[..k + 1] == edges[..k] + [e];
      successors := successors[e.0 := successors[e.0] + [e.1]];
      k := k + 1;
    }
    assert edges[..|edges|] == edges;
  }

  method PoSuccessors(g: Graph, a: nat) returns (list: seq<nat>)
    requires a < |g.events|
    ensures forall b: nat :: b in list <==> Po(g, a, b)
  {
    list := [];
    var b := a + 1;
    while b < |g.events|
      invariant a < b <= |g.events|
      invariant forall x: nat :: x in list <==> Po(g, a, x) && x < b
    {
      if g.events[b].thread == g.events[a].thread {
        list := list + [b];
      }
      b := b + 1;
    }
  }

  method HasCausalCycle(g: Graph, edges: seq<Edge>) returns (cycle: bool)
    requires edges == FitEdges(g, Span(g.rf))
    ensures cycle <==> !Acyclic(CheckedEdges(g))
  {
    hide Span, FitEdges, Acyclic;
    forall e | e in edges ensures e.0 < |g.events| && e.1 < |g.events| {
      FitEdgesAre(g, Span(g.rf), e);
    }
    var successors := BuildSuccessors(g, edges);
    forall a: nat, b: nat ensures (a, b) in CycleSearch.EdgesOf(successors) <==> (a, b) in CheckedEdges(g) {
      FitEdgesAre(g, Span(g.rf), (a, b));
    }
    assert CycleSearch.EdgesOf(successors) == CheckedEdges(g);
    cycle := CycleSearch.HasCycle(|g.events|, successors);
  }
}
