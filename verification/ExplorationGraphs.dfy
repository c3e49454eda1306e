/** The graph object the search mutates in place: logged changes, rollback and incremental caches. */
module ExplorationGraphs {
  import opened Optional
  import opened Events
  import opened Consistency
  import opened Subgraphs
  import opened Revisits
  import opened Engine
  import opened Journals
  import opened TopologicalOrder
  import opened PorfClocks
  import opened GraphCaches

  // ----- queries, on values -----

  /** The compatible unread ones among the listed sends. */
  function Filtered(g: Graph, sends: seq<nat>, t: ThreadId, op: Label): seq<nat>
  {
    if sends == [] then []
    else
      var ids, s := Filtered(g, sends[..|sends| - 1], t, op), sends[|sends| - 1];
      if CompatibleUnread(g, t, op, s) then ids + [s] else ids
  }

  lemma {:induction false} FilteredSends(g: Graph, t: ThreadId, op: Label, n: nat)
    requires n <= |g.events|
    ensures Filtered(g, SendIds(g, n), t, op) == CompatibleBelow(g, t, op, n)
    decreases n
  {
    if n > 0 {
      FilteredSends(g, t, op, n - 1);
      if IsSend(g, n - 1) {
        var sends := SendIds(g, n);
        assert sends[..|sends| - 1] == SendIds(g, n - 1);
      }
    }
  }

  lemma {:induction false} SendIdsAre(g: Graph, n: nat)
    requires n <= |g.events|
    ensures forall s :: s in SendIds(g, n) ==> s < n && IsSend(g, s)
    decreases n
  {
    if n > 0 {
      SendIdsAre(g, n - 1);
    }
  }

  lemma EmitsAtMostOne(g: Graph, id: nat)
    requires id < |g.events|
    ensures |Emits(g, id)| <= 1
  {
  }

  predicate EndsBlocked(g: Graph, t: ThreadId)
  {
    LastEvent(g, t).Some? && IsBlock(g, LastEvent(g, t).value)
  }

  lemma EndsBlockedIsBlocked(g: Graph, t: ThreadId)
    requires EndsBlocked(g, t)
    ensures Events.HasBlockedThread(g)
  {
    var b := LastEvent(g, t).value;
    assert g.events[b].thread == t;
  }

  // ----- restriction, on values -----

  /** `idMap` sends each kept event to its place in `kept`. */
  ghost predicate Renumbers(keep: Mask, kept: seq<nat>, idMap: seq<Option<nat>>)
  {
    && |idMap| == |keep|
    && (forall x :: 0 <= x < |keep| ==> (idMap[x].Some? <==> keep[x]))
    && (forall x :: 0 <= x < |keep| && keep[x] ==> idMap[x].value < |kept| && kept[idMap[x].value] == x)
  }

  lemma NoneRenumbered(keep: Mask)
    ensures Renumbers(keep[..0], [], [])
  {
  }

  lemma RenumbersNext(keep: Mask, kept: seq<nat>, idMap: seq<Option<nat>>)
    requires |idMap| < |keep| && Renumbers(keep[..|idMap|], kept, idMap)
    ensures var id := |idMap|;
            if keep[id] then Renumbers(keep[..id + 1], kept + [id], idMap + [Some(|kept|)])
            else Renumbers(keep[..id + 1], kept, idMap + [None])
  {
  }

  /** The copied sources of the kept receives below `k`. */
  function SourcesBelow(g: Graph, f: seq<nat>, k: nat): map<nat, Source>
  {
    map i | 0 <= i < |f| && f[i] < k && CopiedSource(g, f, i).Some? :: CopiedSource(g, f, i).value
  }

  function Remapped(idMap: seq<Option<nat>>, source: Source): Option<Source>
  {
    match source
    case Bottom => Some(Bottom)
    case From(s) => if s < |idMap| && idMap[s].Some? then Some(From(idMap[s].value)) else None
  }

  lemma RenumbersSize(keep: Mask, kept: seq<nat>, idMap: seq<Option<nat>>)
    requires Renumbers(keep, kept, idMap) && kept == KeptIds(keep)
    ensures |idMap| == |keep| && forall i :: 0 <= i < |kept| ==> kept[i] < |keep|
    ensures forall x :: 0 <= x < |keep| && idMap[x].Some? ==> idMap[x].value < |kept|
  {
  }

  lemma CopiedCount(g: Graph, f: seq<nat>)
    requires forall i :: 0 <= i < |f| ==> f[i] < |g.events|
    ensures |Copy(g, f).events| == |f|
  {
  }

  lemma SourcesStart(g: Graph, f: seq<nat>)
    ensures SourcesBelow(g, f, 0) == map[]
  {
  }

  lemma SourcesEnd(g: Graph, f: seq<nat>)
    requires forall i :: 0 <= i < |f| ==> f[i] < |g.events|
    ensures SourcesBelow(g, f, |g.events|) == Copy(g, f).rf
  {
  }

  lemma RemappedIsCopied(g: Graph, keep: Mask, kept: seq<nat>, idMap: seq<Option<nat>>, id: nat)
    requires |keep| == |g.events| && kept == KeptIds(keep) && Renumbers(keep, kept, idMap)
    requires id < |keep| && keep[id]
    ensures idMap[id].Some? && idMap[id].value < |kept| && kept[idMap[id].value] == id
    ensures CopiedSource(g, kept, idMap[id].value) == if id in g.rf then Remapped(idMap, g.rf[id]) else None
  {
    if id in g.rf && g.rf[id].From? {
      var s := g.rf[id].send;
      assert s in kept <==> Keeps(keep, s);
      if s in kept {
        var i, j := IndexOf(kept, s), idMap[s].value;
        assert kept[i] == kept[j];
      }
    }
  }

  lemma SourcesNext(g: Graph, keep: Mask, kept: seq<nat>, idMap: seq<Option<nat>>, id: nat)
    requires |keep| == |g.events| && kept == KeptIds(keep) && Renumbers(keep, kept, idMap)
    requires id < |keep|
    ensures |idMap| == |keep|
    ensures SourcesBelow(g, kept, id + 1) ==
            var before := SourcesBelow(g, kept, id);
            if id in g.rf && idMap[id].Some? && Remapped(idMap, g.rf[id]).Some?
            then before[idMap[id].value := Remapped(idMap, g.rf[id]).value] else before
  {
    hide KeptIds, CopiedSource, Remapped, SourcesBelow;
    if keep[id] {
      RemappedIsCopied(g, keep, kept, idMap, id);
      OnlyIndex(keep, kept, idMap[id].value);
      SourcesAt(g, kept, id, idMap[id].value);
    } else {
      assert forall i :: 0 <= i < |kept| ==> Keeps(keep, kept[i]);
      SourcesSame(g, kept, id);
    }
  }

  lemma SourcesAt(g: Graph, f: seq<nat>, id: nat, k: nat)
    requires k < |f| && f[k] == id && forall i :: 0 <= i < |f| && f[i] == id ==> i == k
    ensures SourcesBelow(g, f, id + 1) ==
            var before := SourcesBelow(g, f, id);
            if CopiedSource(g, f, k).Some? then before[k := CopiedSource(g, f, k).value] else before
  {
    hide CopiedSource;
  }

  lemma SourcesSame(g: Graph, f: seq<nat>, id: nat)
    requires forall i :: 0 <= i < |f| ==> f[i] != id
    ensures SourcesBelow(g, f, id + 1) == SourcesBelow(g, f, id)
  {
    hide CopiedSource;
  }

  lemma OnlyIndex(keep: Mask, kept: seq<nat>, k: nat)
    requires kept == KeptIds(keep) && k < |kept|
    ensures forall i :: 0 <= i < |kept| && kept[i] == kept[k] ==> i == k
  {
  }

  /** Restriction keeps the flag's promise. */
  lemma CausalRestricted(g: Graph, keep: Mask)
    requires Causal(g) && |keep| == |g.events|
    ensures Causal(Restrict(g, keep))
  {
    var f, h := KeptIds(keep), Restrict(g, keep);
    RestrictIsSubgraph(g, keep);
    SubgraphAcyclic(h, g, f);
    forall r | r in h.rf
      ensures IsReceive(h, r) && (h.rf[r].From? ==> IsSend(h, h.rf[r].send))
    {
      assert SourceCopied(h, g, f, r) && SameEvent(h.events[r], g.events[f[r]]);
      if h.rf[r].From? {
        assert SameEvent(h.events[h.rf[r].send], g.events[f[h.rf[r].send]]);
      }
    }
  }

  class ExplorationGraph {
    var graph: Graph
    var tables: Tables
    var knownAcyclic: bool
    var pendingFresh: Option<nat>
    var cache: Option<PorfCache>
    var rfLog: seq<ReadUndo>

    function JournalOf(): Journal
      reads this
    {
      Journal(graph, |tables.log|, rfLog)
    }

    /** Tables, flag and clocks say what a fresh computation on the graph would say. */
    ghost predicate Kept()
      reads this
    {
      && ScansFor(JournalOf(), tables)
      && FlagsFor(graph, knownAcyclic, pendingFresh)
      && ClocksFor(graph, cache)
    }

    /** Moreover every source that is or was bound names an existing event. */
    ghost predicate Valid()
      reads this
    {
      Kept() && Tidy(JournalOf())
    }

    constructor ()
      ensures Valid() && JournalOf() == Fresh(EmptyGraph) && knownAcyclic && pendingFresh.None?
    {
      graph := EmptyGraph;
      tables := Tables([], [], [], [], [], [], [], [], []);
      knownAcyclic, pendingFresh, cache, rfLog := true, None, None, [];
      new;
      EmptyIsCausal(map[]);
    }

    /** A copy shares nothing with the original and starts with empty logs. */
    constructor CopyOf(other: ExplorationGraph)
      requires other.Kept()
      ensures Kept() && JournalOf() == Fresh(other.graph) && (other.Valid() ==> Valid())
      ensures knownAcyclic == other.knownAcyclic && pendingFresh == other.pendingFresh
    {
      graph := other.graph;
      tables := other.tables.(log := []);
      knownAcyclic, pendingFresh, cache, rfLog := other.knownAcyclic, other.pendingFresh, other.cache, [];
    }

    /** The tables stay right exactly unless a send is appended that some entry names already. */
    method AddEvent(t: ThreadId, op: Label) returns (id: nat)
      requires Kept()
      modifies this
      ensures JournalOf() == Append(old(JournalOf()), t, op) && id == |old(graph.events)|
      ensures Kept() <==> !(op.Send? && Named(old(graph), id))
      ensures old(Valid()) ==> Valid()
      ensures knownAcyclic == old(knownAcyclic)
      ensures pendingFresh == if knownAcyclic && op.Receive? then Some(id) else None
      ensures tables.index == old(tables.index) + [old(NextIndex(tables.next, t))]
    {
      hide ScansFor, FlagsFor, ClocksFor, ListsWith, StatesWith, NextIndex, Tidy, Named;
      TablesAppended(JournalOf(), tables, t, op);
      FlagsAppended(graph, knownAcyclic, pendingFresh, t, op);
      NoClocks(Events.AddEvent(graph, t, op));
      if Tidy(JournalOf()) { TidyAppended(JournalOf(), t, op); }
      id := |graph.events|;
      graph := Events.AddEvent(graph, t, op);
      tables := TablesWith(tables, t, op, id);
      cache := None;
      pendingFresh := if knownAcyclic && op.Receive? then Some(id) else None;
    }

    method SetReadsFromSource(r: nat, source: Source)
      requires Kept()
      modifies this
      ensures Kept() && JournalOf() == Bind(old(JournalOf()), r, source)
      ensures old(Valid()) && Inside(graph, source) ==> Valid()
      ensures knownAcyclic == old(StaysAcyclic(graph, knownAcyclic, pendingFresh, r, source)) && pendingFresh.None?
    {
      hide ScansFor, FlagsFor, ClocksFor, Adjusted, Tidy, StaysAcyclic;
      ghost var j := JournalOf();
      NoUnderflow(j, tables, r);
      ScansSound(j, tables);
      if Tidy(j) && Inside(graph, source) { TidyPerformed(j, Binding(r, source)); }
      TablesRebound(j, tables, r, Some(source), Bind(j, r, source));
      FlagsBound(graph, knownAcyclic, pendingFresh, r, source);
      AdjustedTwice(graph, tables, RfOf(graph, r), Some(source));

      var previous := RfOf(graph, r);
      var stays := StaysAcyclic(graph, knownAcyclic, pendingFresh, r, source);
      tables := Adjusted(graph, Adjusted(graph, tables, previous, false), Some(source), true);
      graph := SetSource(graph, r, source);
      rfLog := rfLog + [ReadUndo(r, previous)];
      cache := None;
      knownAcyclic, pendingFresh := stays, None;
      NoClocks(graph);
    }

    // ----- checkpoint and rollback -----

    method TakeCheckpoint() returns (at: Checkpoint)
      requires Kept()
      ensures at == Checkpoint(MarkOf(JournalOf()), knownAcyclic, pendingFresh)
      ensures Sound(JournalOf()) && (Valid() ==> Describes(at, JournalOf()))
    {
      at := Checkpoint(Mark(|tables.log|, |rfLog|), knownAcyclic, pendingFresh);
      ScansSound(JournalOf(), tables);
      UndoNothing(JournalOf());
    }

    method UndoLastRead()
      requires ScansFor(JournalOf(), tables) && rfLog != []
      modifies this`graph, this`tables, this`rfLog, this`cache
      ensures ScansFor(JournalOf(), tables) && JournalOf() == UndoReads(old(JournalOf()), |old(rfLog)| - 1)
              && cache.None?
    {
      hide ScansFor, Adjusted;
      ghost var j := JournalOf();
      var undo := rfLog[|rfLog| - 1];
      NoUnderflow(j, tables, undo.receive);
      ScansSound(j, tables);
      UndoOneRead(j);
      TablesRebound(j, tables, undo.receive, undo.previous, UndoReads(j, |rfLog| - 1));
      AdjustedTwice(graph, tables, RfOf(graph, undo.receive), undo.previous);

      rfLog := rfLog[..|rfLog| - 1];
      tables := Adjusted(graph, Adjusted(graph, tables, RfOf(graph, undo.receive), false), undo.previous, true);
      graph := Resourced(graph, undo.receive, undo.previous);
      cache := None;
    }

    /** Fails exactly on a send that some entry still names. */
    method UndoLastEvent() returns (ok: bool)
      requires ScansFor(JournalOf(), tables) && tables.log != []
      modifies this`graph, this`tables, this`cache
      ensures old(graph.events) != []
      ensures ok <==> !(IsSend(old(graph), |old(graph.events)| - 1) && Named(old(graph), |old(graph.events)| - 1))
      ensures ok ==> ScansFor(JournalOf(), tables) && cache.None?
      ensures ok ==> old(Sound(JournalOf())) && JournalOf() == UndoAppends(old(JournalOf()), |old(tables.log)| - 1)
    {
      hide ScansFor, TablesWithout, TailMatches, Named;
      ghost var j := JournalOf();
      ScansSound(j, tables);
      ghost var k := UndoAppends(j, |tables.log| - 1);
      TablesDropped(j, tables, k);
      NamedIgnoresEvents(graph, k.graph, |graph.events| - 1);

      var id := |graph.events| - 1;
      var undo := tables.log[|tables.log| - 1];
      var op := graph.events[id].op;
      if !TailMatches(tables, op, undo, id) {
        return false;
      }
      WithoutSizes(tables, op, undo, id);
      graph := graph.(events := graph.events[..id]);
      tables := TablesWithout(tables, op, undo);
      cache := None;
      ok := true;
    }

    method UndoReadsTo(n: nat)
      requires ScansFor(JournalOf(), tables) && n <= |rfLog|
      modifies this`graph, this`tables, this`rfLog, this`cache
      ensures ScansFor(JournalOf(), tables) && JournalOf() == UndoReads(old(JournalOf()), n)
    {
      hide ScansFor, UndoReads;
      ghost var j := JournalOf();
      UndoReadsAll(j);
      while |rfLog| > n
        invariant n <= |rfLog| <= |j.bindings|
        invariant ScansFor(JournalOf(), tables) && JournalOf() == UndoReads(j, |rfLog|)
      {
        UndoReadsTwice(j, |rfLog|, |rfLog| - 1);
        UndoLastRead();
      }
    }

    /** Drops the appended events from the last on; fails exactly if one of them is a send that is still read. */
    method UndoEventsTo(n: nat) returns (ok: bool)
      requires ScansFor(JournalOf(), tables) && n <= |tables.log| && Sound(JournalOf())
      modifies this`graph, this`tables, this`cache
      ensures old(Sound(JournalOf()))
      ensures ok <==> !StillRead(old(graph), |UndoAppends(old(JournalOf()), n).graph.events|)
      ensures ok ==> ScansFor(JournalOf(), tables) && JournalOf() == UndoAppends(old(JournalOf()), n)
    {
      hide ScansFor, StillRead, Named;
      ghost var j := JournalOf();
      ghost var m := |UndoAppends(j, n).graph.events|;
      UndoAppendsAll(j);
      while |tables.log| > n
        invariant n <= |tables.log| <= j.appended
        invariant ScansFor(JournalOf(), tables) && JournalOf() == UndoAppends(j, |tables.log|)
        invariant StillRead(graph, m) <==> StillRead(j.graph, m)
      {
        UndoAppendsTwice(j, |tables.log|, |tables.log| - 1);
        StillReadDropped(graph, m);
        ok := UndoLastEvent();
        if !ok {
          return false;
        }
      }
      NoneStillRead(graph, m);
      ok := true;
    }

    /** Back to the checkpoint: graph, logs, tables and flag. Refused exactly when the logs are shorter than the
        checkpoint says; fails exactly when a send that would go is still read, which never happens with a
        checkpoint that describes an earlier state. */
    method Rollback(at: Checkpoint) returns (outcome: RollbackOutcome)
      requires Kept()
      modifies this
      ensures old(Sound(JournalOf()))
      ensures outcome.Refused? <==> !MarkLe(at.mark, old(MarkOf(JournalOf())))
      ensures outcome.Failed? <==> !outcome.Refused? && DropsRead(at.mark, old(JournalOf()))
      ensures outcome.Done? ==> ScansFor(JournalOf(), tables) && JournalOf() == Undo(old(JournalOf()), at.mark)
      ensures outcome.Done? ==> knownAcyclic == at.known && pendingFresh == at.pending && cache.None?
      ensures outcome.Done? && FlagsFor(graph, at.known, at.pending) ==> Kept()
      ensures !outcome.Refused? && Describes(at, old(JournalOf())) ==> outcome.Done? && Valid()
      ensures outcome.Refused? ==> unchanged(this)
    {
      hide ScansFor, FlagsFor, ClocksFor, Tidy, UndoReads, UndoAppends, StillRead;
      ghost var j := JournalOf();
      ScansSound(j, tables);
      if at.mark.appended > |tables.log| || at.mark.bindings > |rfLog| {
        return Refused;
      }
      if Describes(at, j) { DescribedIsUnread(at, j); }
      UndoReadsTo(at.mark.bindings);
      var ok := UndoEventsTo(at.mark.appended);
      if !ok {
        return Failed;
      }
      knownAcyclic, pendingFresh := at.known, at.pending;
      cache := None;
      NoClocks(graph);
      outcome := Done;
    }

    // ----- the acyclicity flag and clock queries -----

    /** For callers that have established acyclicity. */
    method MarkKnownAcyclic()
      requires Kept() && Causal(graph)
      modifies this`knownAcyclic, this`pendingFresh
      ensures Kept() && knownAcyclic && pendingFresh.None?
    {
      knownAcyclic, pendingFresh := true, None;
    }

    method InvalidateKnownAcyclicity()
      requires Kept()
      modifies this`knownAcyclic, this`pendingFresh
      ensures Kept() && !knownAcyclic && pendingFresh.None?
    {
      knownAcyclic, pendingFresh := false, None;
    }

    lemma KnownMeansCausal()
      requires Kept() && knownAcyclic
      ensures Causal(graph)
    {
    }

    lemma HasThreadLists()
      requires Kept()
      ensures ThreadLists(graph, tables.lists)
    {
    }

    /** Builds the clocks unless they are there; refused when an entry joins the wrong kinds of events. */
    method EnsureCache() returns (ok: bool)
      requires Kept()
      modifies this`cache
      ensures Kept() && (ok <==> graph.events == [] || ValidEndpoints(graph)) && (ok ==> cache.Some?)
    {
      hide ScansFor, FlagsFor, CacheFor, ThreadLists, ValidEndpoints;
      if cache.Some? {
        return true;
      }
      if graph.events == [] {
        EmptyCache(graph);
        cache := Some(PorfCache(Columns([], 0, []), [], false));
        return true;
      }
      if !ValidEndpoints(graph) {
        return false;
      }
      HasThreadLists();
      var built := BuildCache(graph, tables.lists);
      cache := Some(built);
      ok := true;
    }

    /** Is `to` causally after `from`? Refused on unknown events, malformed sources and cyclic graphs. */
    method PorfContains(from: nat, to: nat) returns (r: Option<bool>)
      requires Kept()
      modifies this`cache
      ensures Kept()
      ensures r.Some? <==>
                from < |graph.events| && to < |graph.events| && ValidEndpoints(graph) && CausallyAcyclic(graph)
      ensures r.Some? ==> (r.value <==> Porf(graph, from, to))
    {
      hide ScansFor, FlagsFor, ValidEndpoints, CausallyAcyclic, Tells, Porf;
      if from >= |graph.events| || to >= |graph.events| {
        return None;
      }
      var ok := EnsureCache();
      if !ok || cache.value.cyclic {
        return None;
      }
      var contains := Contains(graph, cache.value, from, to);
      r := Some(contains);
    }

    method HasCausalCycle() returns (r: Option<bool>)
      requires Kept()
      modifies this`cache
      ensures Kept()
      ensures r.Some? <==> graph.events == [] || ValidEndpoints(graph)
      ensures r.Some? ==> (r.value <==> !CausallyAcyclic(graph))
    {
      hide ScansFor, FlagsFor, ValidEndpoints, CausallyAcyclic, Tells;
      var ok := EnsureCache();
      r := if ok then Some(cache.value.cyclic) else None;
    }

    /** The same answer from the topological sort alone. */
    method HasCausalCycleWithoutCache() returns (r: Option<bool>)
      requires Kept()
      ensures r.Some? <==> ValidEndpoints(graph)
      ensures r.Some? ==> (r.value <==> !CausallyAcyclic(graph))
    {
      hide ScansFor, FlagsFor, ClocksFor, ThreadLists, ValidEndpoints, CausallyAcyclic, Listing;
      if !ValidEndpoints(graph) {
        return None;
      }
      HasThreadLists();
      var acyclic, _ := OrderEvents(graph, tables.lists);
      r := Some(!acyclic);
    }

    // ----- copies and rebinding -----

    method ClearHistory()
      requires Kept()
      modifies this`tables, this`rfLog
      ensures Kept() && JournalOf() == Fresh(graph) && (old(Valid()) ==> Valid())
    {
      hide ClocksFor, FlagsFor, ListsFor, CountsFor, IndicesFor;
      tables, rfLog := tables.(log := []), [];
    }

    /** A copy with one source changed. Keeping the flag is for callers who know the new graph is acyclic. */
    method CopyWithSource(recv: nat, source: Source, preserve: bool) returns (copy: ExplorationGraph)
      requires Kept() && (preserve ==> Causal(SetSource(graph, recv, source)))
      ensures fresh(copy) && copy.Kept() && copy.JournalOf() == Fresh(SetSource(graph, recv, source))
      ensures Valid() && Inside(graph, source) ==> copy.Valid()
      ensures copy.knownAcyclic == preserve && copy.pendingFresh.None?
    {
      hide ScansFor, FlagsFor, ClocksFor, Causal, Tidy;
      copy := new ExplorationGraph.CopyOf(this);
      copy.SetReadsFromSource(recv, source);
      if preserve {
        copy.MarkKnownAcyclic();
      } else {
        copy.InvalidateKnownAcyclicity();
      }
      copy.ClearHistory();
    }

    /** Bottom adds no edge, so a copy that reads bottom keeps the flag. */
    method WithBottomRf(recv: nat) returns (copy: ExplorationGraph)
      requires Kept()
      ensures fresh(copy) && copy.Kept() && copy.JournalOf() == Fresh(SetSource(graph, recv, Bottom))
      ensures Valid() ==> copy.Valid()
      ensures copy.knownAcyclic == (knownAcyclic && IsReceive(graph, recv)) && copy.pendingFresh.None?
    {
      hide ScansFor, ClocksFor, Causal, Tidy;
      var preserve := knownAcyclic && IsReceive(graph, recv);
      if preserve { CausalBottom(graph, recv); }
      copy := CopyWithSource(recv, Bottom, preserve);
    }

    /** In-place rebinding of a graph that has no rollback history. */
    method RebindRf(recv: nat, send: nat, preserve: bool) returns (ok: bool)
      requires Kept() && (preserve ==> Causal(SetSource(graph, recv, From(send))))
      modifies this
      ensures ok <==> old(tables.log) == [] && old(rfLog) == []
      ensures ok ==> Kept() && JournalOf() == Fresh(SetSource(old(graph), recv, From(send)))
      ensures ok && old(Valid()) && send < |graph.events| ==> Valid()
      ensures ok ==> knownAcyclic == preserve && pendingFresh.None?
      ensures !ok ==> unchanged(this)
    {
      hide ScansFor, ClocksFor, Adjusted, Tidy, Causal;
      if tables.log != [] || rfLog != [] {
        return false;
      }
      ghost var j := JournalOf();
      var source := From(send);
      NoUnderflow(j, tables, recv);
      ScansSound(j, tables);
      if Tidy(j) && send < |graph.events| { TidyRebound(j, recv, source); }
      TablesRebound(j, tables, recv, Some(source), Fresh(SetSource(graph, recv, source)));
      AdjustedTwice(graph, tables, RfOf(graph, recv), Some(source));

      tables := Adjusted(graph, Adjusted(graph, tables, RfOf(graph, recv), false), Some(source), true);
      graph := SetSource(graph, recv, source);
      cache := None;
      knownAcyclic, pendingFresh := preserve, None;
      NoClocks(graph);
      ok := true;
    }

    // ----- restriction -----

    /** Where each kept event goes. */
    static method MapKept(keep: Mask) returns (kept: seq<nat>, idMap: seq<Option<nat>>)
      ensures kept == KeptIds(keep) && Renumbers(keep, kept, idMap)
    {
      hide Renumbers;
      kept, idMap := [], [];
      NoneRenumbered(keep);
      while |idMap| < |keep|
        invariant |idMap| <= |keep| && kept == KeptBelow(keep, |idMap|)
        invariant Renumbers(keep[..|idMap|], kept, idMap)
      {
        var id := |idMap|;
        RenumbersNext(keep, kept, idMap);
        if keep[id] {
          kept, idMap := kept + [id], idMap + [Some(|kept|)];
        } else {
          idMap := idMap + [None];
        }
      }
      assert keep[..|keep|] == keep;
    }

    method CopyEvents(kept: seq<nat>) returns (result: ExplorationGraph)
      requires Valid() && forall i :: 0 <= i < |kept| ==> kept[i] < |graph.events|
      ensures fresh(result) && result.Valid() && result.graph == Graph(Subgraphs.Copy(graph, kept).events, map[])
    {
      hide ScansFor, FlagsFor, ClocksFor, Tidy;
      result := new ExplorationGraph();
      var k := 0;
      while k < |kept|
        invariant 0 <= k <= |kept| && fresh(result) && result.Valid()
        invariant |result.graph.events| == k && result.graph.rf == map[]
        invariant forall i :: 0 <= i < k ==> result.graph.events[i] == graph.events[kept[i]]
      {
        var e := graph.events[kept[k]];
        var _ := result.AddEvent(e.thread, e.op);
        k := k + 1;
      }
    }

    /** The kept events alone, renumbered, with the sources that are kept too. */
    method RestrictFromKeepMask(keep: Mask) returns (r: Option<ExplorationGraph>)
      requires Valid() && forall x :: x in graph.rf ==> x < |graph.events|
      ensures r.Some? <==> |keep| == |graph.events|
      ensures r.Some? ==> fresh(r.value) && r.value.Valid() && r.value.JournalOf() == Fresh(Restrict(graph, keep))
      ensures r.Some? ==> r.value.knownAcyclic == knownAcyclic && r.value.pendingFresh.None?
    {
      hide ScansFor, ClocksFor, Causal, Tidy, Subgraphs.Copy, SourcesBelow, KeptIds, Renumbers;
      if |keep| != |graph.events| {
        return None;
      }
      var kept, idMap := MapKept(keep);
      RenumbersSize(keep, kept, idMap);
      var result := CopyEvents(kept);
      CopiedCount(graph, kept);
      ScansSound(JournalOf(), tables);
      SourcesStart(graph, kept);
      var id := 0;
      while id < |graph.events|
        invariant 0 <= id <= |graph.events| && fresh(result) && result.Valid()
        invariant result.graph == Graph(Subgraphs.Copy(graph, kept).events, SourcesBelow(graph, kept, id))
      {
        SourcesNext(graph, keep, kept, idMap, id);
        if id in graph.rf && idMap[id].Some? {
          var source := Remapped(idMap, graph.rf[id]);
          if source.Some? {
            result.SetReadsFromSource(idMap[id].value, source.value);
          }
        }
        id := id + 1;
      }
      SourcesEnd(graph, kept);
      if knownAcyclic {
        CausalRestricted(graph, keep);
        result.MarkKnownAcyclic();
      } else {
        result.InvalidateKnownAcyclicity();
      }
      result.ClearHistory();
      r := Some(result);
    }

    // ----- queries -----

    /** The values thread `t` has observed, written over a reused buffer whose old entries do not matter. */
    method ThreadTraceInto(t: ThreadId, buffer: seq<Observed>) returns (trace: seq<Observed>)
      requires Kept()
      ensures trace == Trace(graph, t)
    {
      hide FlagsFor, ClocksFor, CountsFor, LogFor, IndicesFor, Emits;
      trace := buffer;
      var written := 0;
      if t < |tables.lists| {
        var ids := tables.lists[t];
        var k := 0;
        assert ids[..0] == [];
        while k < |ids|
          invariant 0 <= k <= |ids| && written <= |trace|
          invariant trace[..written] == EmitsAll(graph, ids[..k])
        {
          assert ids[..k + 1][..k] == ids[..k];
          var emitted := Emits(graph, ids[k]);
          EmitsAtMostOne(graph, ids[k]);
          if |emitted| == 1 {
            if written < |trace| {
              if trace[written] != emitted[0] {
                trace := trace[written := emitted[0]];
              }
            } else {
              trace := trace + emitted;
            }
            written := written + 1;
          }
          k := k + 1;
        }
        assert ids[..|ids|] == ids;
      } else {
        NoList(graph, tables.lists, t, |graph.events|);
      }
      trace := trace[..written];
    }

    /** The unread sends a receive of thread `t` could take, ascending. */
    method CompatibleUnreadSends(t: ThreadId, op: Label) returns (ids: seq<nat>)
      requires Kept()
      ensures ids == CompatibleSends(graph, t, op)
    {
      hide FlagsFor, ClocksFor, ListsFor, LogFor, IndicesFor, CompatibleBelow, SendIds, Unread;
      SendIdsAre(graph, |graph.events|);
      FilteredSends(graph, t, op, |graph.events|);
      var sends := tables.sends;
      ids := [];
      var k := 0;
      while k < |sends|
        invariant 0 <= k <= |sends| && ids == Filtered(graph, sends[..k], t, op)
      {
        assert sends[..k + 1][..k] == sends[..k];
        var s := sends[k];
        assert s in sends;
        CountsSizes(graph, tables);
        UnreadFlag(graph, tables.counts, tables.unread, s);
        if tables.unread[s] {
          var send := graph.events[s].op;
          if send.destination == t && op.Receive? && op.matches(send.value) {
            ids := ids + [s];
          }
        }
        k := k + 1;
      }
      assert sends[..|sends|] == sends;
    }

    /** The receives of the thread a send is addressed to. */
    method ReceivesInDestination(send: nat) returns (ids: Option<seq<nat>>)
      requires Kept()
      ensures ids.Some? <==> IsSend(graph, send)
      ensures ids.Some? ==> ids.value == DestinationReceives(graph, send)
    {
      hide FlagsFor, ClocksFor, CountsFor, LogFor, IndicesFor, ReceiveIds;
      if send >= |graph.events| || !graph.events[send].op.Send? {
        return None;
      }
      var t := graph.events[send].op.destination;
      if t >= |tables.receives| {
        NoList(graph, tables.lists, t, |graph.events|);
        return Some([]);
      }
      ids := Some(tables.receives[t]);
    }

    method ThreadIsTerminated(t: ThreadId) returns (r: bool)
      requires Kept()
      ensures r <==> Terminated(graph, t)
    {
      hide FlagsFor, ClocksFor, CountsFor, LogFor, IndicesFor, ThreadIds;
      if t >= |tables.states| {
        NoList(graph, tables.lists, t, |graph.events|);
        return false;
      }
      if tables.states[t].count == 0 {
        return false;
      }
      var op := graph.events[tables.states[t].last.value].op;
      r := op.Block? || op.Error?;
    }

    method ThreadEventCount(t: ThreadId) returns (n: nat)
      requires Kept()
      ensures n == Steps(graph, t)
    {
      hide FlagsFor, ClocksFor, CountsFor, LogFor, IndicesFor, ThreadIds;
      if t >= |tables.states| {
        NoList(graph, tables.lists, t, |graph.events|);
        return 0;
      }
      n := tables.states[t].count;
    }

    method HasBlockedThread() returns (r: bool)
      requires Kept()
      ensures r <==> Events.HasBlockedThread(graph)
    {
      hide FlagsFor, ClocksFor, CountsFor, LogFor, IndicesFor, ThreadIds;
      var t := 0;
      while t < |tables.states|
        invariant 0 <= t <= |tables.states|
        invariant forall u :: 0 <= u < t ==> !EndsBlocked(graph, u)
      {
        var state := tables.states[t];
        if state.count != 0 && graph.events[state.last.value].op.Block? {
          assert EndsBlocked(graph, t);
          EndsBlockedIsBlocked(graph, t);
          return true;
        }
        t := t + 1;
      }
      forall b | 0 <= b < |graph.events|
        ensures !(LastEvent(graph, graph.events[b].thread) == Some(b) && IsBlock(graph, b))
      {
        assert !EndsBlocked(graph, graph.events[b].thread);
      }
      r := false;
    }
  }
}
