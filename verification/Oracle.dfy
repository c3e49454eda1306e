/** The exhaustive enumerator the engine is compared with: any enabled thread may take any step that
    keeps the graph consistent. */
module Oracle {
  import opened Optional
  import opened Events
  import opened Consistency
  import opened Subgraphs
  import opened Engine

  datatype Transition = Transition(thread: ThreadId, op: Label, source: Option<Source>)

  function Asked(p: Program, g: Graph, t: ThreadId): Option<Label>
  {
    p.next(t, Trace(g, t), Steps(g, t))
  }

  /** What a live thread may do once its function has answered. */
  ghost predicate Offers(g: Graph, t: ThreadId, answer: Label, tr: Transition)
  {
    match answer
    case Receive(blocking, _) =>
      || (tr.op == answer && tr.source.Some? && tr.source.value.From?
          && CompatibleUnread(g, t, answer, tr.source.value.send))
      || (tr.op == answer && tr.source == Some(Bottom) && !blocking)
      || (tr.op == Block && tr.source == None && blocking && CompatibleSends(g, t, answer) == [])
    case Choice(_, choices) =>
      && tr.source == None
      && if choices == [] then tr.op == answer else exists v :: v in choices && tr.op == Choice(v, choices)
    case _ => tr.op == answer && tr.source == None
  }

  ghost predicate Enabled(p: Program, g: Graph, tr: Transition)
  {
    && p.first <= tr.thread < p.first + p.count
    && !Terminated(g, tr.thread)
    && Asked(p, g, tr.thread).Some?
    && Offers(g, tr.thread, Asked(p, g, tr.thread).value, tr)
  }

  function Apply(g: Graph, tr: Transition): Graph
  {
    match tr.source
    case None => AddEvent(g, tr.thread, tr.op)
    case Some(source) => AddReceive(g, tr.thread, tr.op, source)
  }

  /** Blocked thread `t` can be woken: its receive has a compatible unread send once the Block is removed. */
  ghost predicate Wakes(p: Program, g: Graph, t: ThreadId, h: Graph)
  {
    && p.first <= t < p.first + p.count
    && LastEvent(g, t).Some? && IsBlock(g, LastEvent(g, t).value)
    && h == DropEvent(g, LastEvent(g, t).value)
    && Asked(p, h, t).Some?
    && Asked(p, h, t).value.Receive? && Asked(p, h, t).value.blocking
    && CompatibleSends(h, t, Asked(p, h, t).value) != []
  }

  ghost predicate Quiet(p: Program, g: Graph)
  {
    forall tr: Transition :: !Enabled(p, g, tr)
  }

  /** One edge of the enumeration tree. */
  ghost predicate Edge(p: Program, m: CommunicationModel, g: Graph, h: Graph)
  {
    || (exists tr: Transition :: Enabled(p, g, tr) && h == Apply(g, tr) && Consistent(h, m))
    || (Quiet(p, g) && exists t: ThreadId :: Wakes(p, g, t, h))
  }

  /** A branch of the enumeration tree from the empty graph. */
  ghost predicate Branch(p: Program, m: CommunicationModel, graphs: seq<Graph>)
  {
    && |graphs| > 0 && graphs[0] == EmptyGraph
    && forall i :: 0 <= i < |graphs| - 1 ==> Edge(p, m, graphs[i], graphs[i + 1])
  }

  /** A leaf: the graph is recorded as a maximal execution. */
  ghost predicate Leaf(p: Program, g: Graph)
  {
    Quiet(p, g) && forall t: ThreadId, h: Graph :: !Wakes(p, g, t, h)
  }

  /** The same execution: events and reads agree up to the order in which threads were interleaved. */
  ghost predicate SameExecution(h: Graph, g: Graph)
  {
    exists f: seq<nat> :: Subgraph(h, g, f) && |f| == |g.events|
  }

  /** The enumeration records `g` as a maximal execution, up to interleaving. */
  ghost predicate Recorded(p: Program, m: CommunicationModel, g: Graph)
  {
    exists graphs: seq<Graph> ::
      Branch(p, m, graphs) && Leaf(p, graphs[|graphs| - 1]) && SameExecution(graphs[|graphs| - 1], g)
      && (HasBlockedThread(graphs[|graphs| - 1]) <==> HasBlockedThread(g))
  }
}
