/** A graph explored in place: every change is logged so that it can be taken back. */
module Journals {
  import opened Optional
  import opened Events

  datatype ReadUndo = ReadUndo(receive: nat, previous: Option<Source>)

  /** `appended` counts the logged appends; `bindings` logs the reads-from entries that were overwritten. */
  datatype Journal = Journal(graph: Graph, appended: nat, bindings: seq<ReadUndo>)

  /** How long the two logs were when the mark was taken. */
  datatype Mark = Mark(appended: nat, bindings: nat)

  ghost predicate Sound(j: Journal)
  {
    j.appended <= |j.graph.events|
  }

  function Fresh(g: Graph): Journal
  {
    Journal(g, 0, [])
  }

  function Append(j: Journal, t: ThreadId, op: Label): Journal
  {
    Journal(AddEvent(j.graph, t, op), j.appended + 1, j.bindings)
  }

  function Bind(j: Journal, r: nat, source: Source): Journal
  {
    var previous := if r in j.graph.rf then Some(j.graph.rf[r]) else None;
    Journal(SetSource(j.graph, r, source), j.appended, j.bindings + [ReadUndo(r, previous)])
  }

  function MarkOf(j: Journal): Mark
  {
    Mark(j.appended, |j.bindings|)
  }

  predicate MarkLe(a: Mark, b: Mark)
  {
    a.appended <= b.appended && a.bindings <= b.bindings
  }

  function RestoreRead(rf: map<nat, Source>, undo: ReadUndo): map<nat, Source>
  {
    match undo.previous
    case None => rf - {undo.receive}
    case Some(source) => rf[undo.receive := source]
  }

  function UndoReads(j: Journal, n: nat): (u: Journal)
    requires n <= |j.bindings|
    ensures |u.bindings| == n && u.appended == j.appended && u.graph.events == j.graph.events
    ensures u.bindings == j.bindings[..n]
    decreases |j.bindings|
  {
    if n == |j.bindings| then j
    else
      var last := |j.bindings| - 1;
      UndoReads(Journal(j.graph.(rf := RestoreRead(j.graph.rf, j.bindings[last])), j.appended, j.bindings[..last]), n)
  }

  function UndoAppends(j: Journal, n: nat): (u: Journal)
    requires n <= j.appended && Sound(j)
    ensures u.appended == n && u.bindings == j.bindings && Sound(u)
    ensures u.graph == Graph(j.graph.events[..|j.graph.events| - (j.appended - n)], j.graph.rf)
    decreases j.appended
  {
    if n == j.appended then
      assert j.graph.events[..|j.graph.events|] == j.graph.events;
      j
    else UndoAppends(Journal(j.graph.(events := j.graph.events[..|j.graph.events| - 1]), j.appended - 1, j.bindings), n)
  }

  /** Rollback: reads first, then appends. */
  function Undo(j: Journal, mark: Mark): (u: Journal)
    requires Sound(j) && MarkLe(mark, MarkOf(j))
    ensures Sound(u) && MarkOf(u) == mark
  {
    UndoAppends(UndoReads(j, mark.bindings), mark.appended)
  }

  lemma UndoNothing(j: Journal)
    requires Sound(j)
    ensures Undo(j, MarkOf(j)) == j
  {
  }

  lemma {:induction false} UndoReadsTwice(j: Journal, n: nat, k: nat)
    requires k <= n <= |j.bindings|
    ensures UndoReads(UndoReads(j, n), k) == UndoReads(j, k)
    decreases |j.bindings|
  {
    if n < |j.bindings| {
      var last := |j.bindings| - 1;
      UndoReadsTwice(Journal(j.graph.(rf := RestoreRead(j.graph.rf, j.bindings[last])), j.appended,
                             j.bindings[..last]), n, k);
    }
  }

  /** Undoing reads does not look at the events. */
  lemma {:induction false} UndoReadsFrame(j: Journal, events: seq<Event>, appended: nat, n: nat)
    requires n <= |j.bindings|
    ensures UndoReads(Journal(Graph(events, j.graph.rf), appended, j.bindings), n)
            == Journal(Graph(events, UndoReads(j, n).graph.rf), appended, j.bindings[..n])
    decreases |j.bindings|
  {
    if n < |j.bindings| {
      var last := |j.bindings| - 1;
      var k := Journal(j.graph.(rf := RestoreRead(j.graph.rf, j.bindings[last])), j.appended, j.bindings[..last]);
      UndoReadsFrame(k, events, appended, n);
      assert j.bindings[..last][..n] == j.bindings[..n];
    }
  }

  /** Rolling back in two stages is rolling back once. */
  lemma UndoTwice(j: Journal, mark: Mark, earlier: Mark)
    requires Sound(j) && MarkLe(mark, MarkOf(j)) && MarkLe(earlier, mark)
    ensures Undo(Undo(j, mark), earlier) == Undo(j, earlier)
  {
    var a := UndoReads(j, mark.bindings);
    var b := UndoAppends(a, mark.appended);
    UndoReadsFrame(a, b.graph.events, b.appended, earlier.bindings);
    UndoReadsTwice(j, mark.bindings, earlier.bindings);
    assert b == Journal(Graph(b.graph.events, a.graph.rf), b.appended, a.bindings);
  }

  /** A rollback takes back an append made after the mark. */
  lemma UndoAppend(j: Journal, t: ThreadId, op: Label, mark: Mark)
    requires Sound(j) && MarkLe(mark, MarkOf(j))
    ensures Undo(Append(j, t, op), mark) == Undo(j, mark)
  {
    var k := Append(j, t, op);
    UndoReadsFrame(j, k.graph.events, k.appended, mark.bindings);
    assert k == Journal(Graph(k.graph.events, j.graph.rf), k.appended, j.bindings);
    var n := |j.graph.events| - (j.appended - mark.appended);
    assert k.graph.events[..n] == j.graph.events[..n];
  }

  /** A rollback takes back a reads-from assignment made after the mark. */
  lemma UndoBind(j: Journal, r: nat, source: Source, mark: Mark)
    requires Sound(j) && MarkLe(mark, MarkOf(j))
    ensures Undo(Bind(j, r, source), mark) == Undo(j, mark)
  {
    var k := Bind(j, r, source);
    var last := |k.bindings| - 1;
    assert k.bindings[..last] == j.bindings;
    assert RestoreRead(k.graph.rf, k.bindings[last]) == j.graph.rf;
    assert Journal(k.graph.(rf := j.graph.rf), k.appended, j.bindings) == j;
  }

  datatype Change = Appending(thread: ThreadId, op: Label) | Binding(receive: nat, source: Source)

  function Perform(j: Journal, c: Change): Journal
  {
    match c
    case Appending(t, op) => Append(j, t, op)
    case Binding(r, source) => Bind(j, r, source)
  }

  function PerformAll(j: Journal, changes: seq<Change>): Journal
    decreases |changes|
  {
    if changes == [] then j
    else Perform(PerformAll(j, changes[..|changes| - 1]), changes[|changes| - 1])
  }

  /** Rollback to a checkpoint undoes any later sequence of appends and assignments exactly. */
  lemma {:induction false} RollbackRestores(j: Journal, changes: seq<Change>)
    requires Sound(j)
    ensures var k := PerformAll(j, changes); Sound(k) && MarkLe(MarkOf(j), MarkOf(k)) && Undo(k, MarkOf(j)) == j
    decreases |changes|
  {
    if changes == [] {
      UndoNothing(j);
    } else {
      var n := |changes| - 1;
      RollbackRestores(j, changes[..n]);
      var k := PerformAll(j, changes[..n]);
      match changes[n]
      case Appending(t, op) => UndoAppend(k, t, op, MarkOf(j));
      case Binding(r, source) => UndoBind(k, r, source, MarkOf(j));
    }
  }
}
