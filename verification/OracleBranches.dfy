/** The graphs along a branch of the enumeration, brought into the form in which the engine records them. */
module OracleBranches {
  import opened Optional
  import opened Events
  import opened Consistency
  import opened Subgraphs
  import opened Replay
  import opened Revisits
  import opened Engine
  import opened Invariants
  import opened Oracle
  import opened OracleSoundness
  import opened Tracking

  /** The enumerator records the alternatives of a choice as they were offered, the engine the distinct ones. */
  ghost function NormalOp(op: Label): Label
  {
    if op.Choice? && op.choices != [] then Choice(op.chosen, Distinct(op.choices)) else op
  }

  ghost function NormalEvent(event: Event): Event
  {
    Event(event.thread, NormalOp(event.op))
  }

  ghost function Normal(g: Graph): (h: Graph)
    ensures |h.events| == |g.events| && h.rf == g.rf
    ensures forall i :: 0 <= i < |g.events| ==> h.events[i] == NormalEvent(g.events[i])
  {
    Graph(seq(|g.events|, i requires 0 <= i < |g.events| => NormalEvent(g.events[i])), g.rf)
  }

  lemma NormalIsSubgraph(g: Graph)
    requires WellFormed(g)
    ensures Subgraph(Normal(g), g, Same(|g.events|)) && Subgraph(g, Normal(g), Same(|g.events|))
  {
    hide Distinct;
    var f := Same(|g.events|);
    NoReadBeyond(g);
    forall i | 0 <= i < |f| ensures SourceCopied(Normal(g), g, f, i) && SourceCopied(g, Normal(g), f, i) {
      if i in g.rf && g.rf[i].From? {
        assert GoodRead(g, i);
        assert f[g.rf[i].send] in f;
      }
    }
  }

  lemma NormalConsistent(g: Graph, m: CommunicationModel)
    requires Consistent(g, m)
    ensures Consistent(Normal(g), m)
  {
    hide Subgraph;
    NormalIsSubgraph(g);
    var f := Same(|g.events|);
    forall y: nat | y < |g.events| ensures y in f { assert f[y] == y; }
    assert ReadClosed(g, f) by {
      forall r | r in f && r in g.rf && g.rf[r].From? ensures g.rf[r].send in f {
        assert GoodRead(g, r);
      }
    }
    CausalCopyIsConsistent(Normal(g), g, f, m);
  }

  lemma NormalTrace(g: Graph, t: ThreadId)
    ensures Trace(Normal(g), t) == Trace(g, t) && Steps(Normal(g), t) == Steps(g, t)
    ensures LastEvent(Normal(g), t) == LastEvent(g, t) && (Terminated(Normal(g), t) <==> Terminated(g, t))
  {
    hide Distinct;
    TraceFrame(g, Normal(g), t, |g.events|);
    ThreadIdsFrame(g, Normal(g), t, |g.events|);
  }

  lemma NormalCompatible(g: Graph, t: ThreadId, op: Label)
    ensures CompatibleSends(Normal(g), t, op) == [] <==> CompatibleSends(g, t, op) == []
    ensures forall s: nat :: CompatibleUnread(Normal(g), t, op, s) <==> CompatibleUnread(g, t, op, s)
  {
    hide Distinct;
    var a, b := CompatibleSends(Normal(g), t, op), CompatibleSends(g, t, op);
    assert a != [] ==> a[0] in a;
    assert b != [] ==> b[0] in b;
    forall s: nat ensures CompatibleUnread(Normal(g), t, op, s) <==> CompatibleUnread(g, t, op, s) {
      assert s < |g.events| ==> Normal(g).events[s] == NormalEvent(g.events[s]);
    }
  }

  /** What is enabled is so in the normal form. */
  lemma NormalEnabled(p: Program, g: Graph, tr: Transition)
    ensures Enabled(p, Normal(g), tr) <==> Enabled(p, g, tr)
  {
    hide Trace, Steps, Terminated, CompatibleSends, CompatibleUnread, Normal;
    NormalTrace(g, tr.thread);
    if Asked(p, g, tr.thread).Some? { NormalCompatible(g, tr.thread, Asked(p, g, tr.thread).value); }
  }

  lemma NormalDrop(g: Graph, b: nat)
    ensures Normal(DropEvent(g, b)) == DropEvent(Normal(g), b)
  {
    hide Distinct, KeptBelow;
    var f := KeptIds(AllBut(|g.events|, b));
    var h, k := DropEvent(g, b), DropEvent(Normal(g), b);
    forall i | 0 <= i < |f| ensures CopiedSource(g, f, i) == CopiedSource(Normal(g), f, i) { }
    assert Normal(h).events == k.events;
    assert h.rf == k.rf;
  }

  lemma NormalWakes(p: Program, g: Graph, t: ThreadId, h: Graph)
    requires Wakes(p, Normal(g), t, h)
    ensures exists k :: Wakes(p, g, t, k)
  {
    hide Trace, Steps, Terminated, CompatibleSends, Normal, DropEvent, Distinct;
    NormalTrace(g, t);
    var b := LastEvent(g, t).value;
    NormalBlock(g, b);
    var k := DropEvent(g, b);
    NormalDrop(g, b);
    NormalTrace(k, t);
    NormalCompatible(k, t, Asked(p, h, t).value);
    assert Wakes(p, g, t, k);
  }

  lemma NormalBlock(g: Graph, b: nat)
    ensures IsBlock(Normal(g), b) <==> IsBlock(g, b)
  {
    assert b < |g.events| ==> Normal(g).events[b] == NormalEvent(g.events[b]);
  }

  lemma NormalLeaf(p: Program, g: Graph)
    requires Leaf(p, g)
    ensures Leaf(p, Normal(g))
  {
    hide Enabled, Wakes, Normal;
    forall tr: Transition ensures !Enabled(p, Normal(g), tr) { NormalEnabled(p, g, tr); }
    forall t: ThreadId, h: Graph ensures !Wakes(p, Normal(g), t, h) {
      if Wakes(p, Normal(g), t, h) { NormalWakes(p, g, t, h); }
    }
  }

  lemma NormalApply(g: Graph, tr: Transition)
    ensures Normal(Apply(g, tr)) == Apply(Normal(g), tr.(op := NormalOp(tr.op)))
  {
    hide Distinct;
    assert Normal(Apply(g, tr)).events == Apply(Normal(g), tr.(op := NormalOp(tr.op))).events;
  }

  // ----- one edge -----

  lemma OfferConforms(g: Graph, t: ThreadId, answer: Label, tr: Transition)
    requires Offers(g, t, answer, tr) && answer != Block
    ensures Conforms(NormalOp(tr.op), Some(answer))
    ensures tr.source.Some? <==> tr.op.Receive?
    ensures NormalOp(tr.op).Error? <==> answer.Error?
  {
    hide CompatibleSends, CompatibleUnread, Distinct;
  }

  lemma AppliedGood(cfg: Config, g: Graph, tr: Transition)
    requires ValidProgram(cfg.program) && Good(cfg, Normal(g)) && Enabled(cfg.program, g, tr)
    requires Consistent(Apply(g, tr), cfg.model) && !Asked(cfg.program, g, tr.thread).value.Error?
    ensures Good(cfg, Normal(Apply(g, tr)))
  {
    hide Trace, Steps, Terminated, CompatibleSends, CompatibleUnread, Normal, Consistent, Offers, Conforms, Shaped,
         ReplayValid, NormalOp;
    var x, h := Normal(g), Normal(Apply(g, tr));
    NormalConsistent(Apply(g, tr), cfg.model);
    NormalTrace(g, tr.thread);
    OfferConforms(g, tr.thread, Asked(cfg.program, g, tr.thread).value, tr);
    NormalApply(g, tr);
    GoodParts(cfg, x);
    WellFormedEndpoints(x);
    NoReadBeyond(x);
    AppendKeepsReplay(cfg.program, x, h);
    AppendKeepsShape(cfg.program, x, h);
  }

  lemma WokenGood(cfg: Config, g: Graph, t: ThreadId, h: Graph)
    requires Good(cfg, Normal(g)) && Wakes(cfg.program, g, t, h)
    ensures Good(cfg, Normal(h))
  {
    hide Trace, Steps, Terminated, CompatibleSends, Normal, Good, DropEvent;
    var b := LastEvent(g, t).value;
    NormalBlock(g, b);
    NormalDrop(g, b);
    DropBlockGood(cfg, Normal(g), b);
  }

  // ----- what a leaf has done -----

  lemma SomethingOffered(g: Graph, t: ThreadId, answer: Label) returns (tr: Transition)
    ensures tr.thread == t && Offers(g, t, answer, tr)
  {
    match answer
    case Receive(blocking, _) =>
      var sends := CompatibleSends(g, t, answer);
      if !blocking {
        tr := Transition(t, answer, Some(Bottom));
      } else if sends == [] {
        tr := Transition(t, Block, None);
      } else {
        assert sends[0] in sends;
        tr := Transition(t, answer, Some(From(sends[0])));
      }
    case Choice(_, choices) =>
      tr := Transition(t, if choices == [] then answer else Choice(choices[0], choices), None);
    case _ =>
      tr := Transition(t, answer, None);
  }

  lemma SomethingEnabled(p: Program, g: Graph, t: ThreadId) returns (tr: Transition)
    requires InProgram(p, t) && !Terminated(g, t) && Asked(p, g, t).Some?
    ensures Enabled(p, g, tr)
  {
    hide Trace, Steps, Terminated, Offers;
    tr := SomethingOffered(g, t, Asked(p, g, t).value);
  }

  lemma QuietThread(p: Program, g: Graph, t: ThreadId)
    requires Quiet(p, g) && InProgram(p, t)
    ensures Terminated(g, t) || Asked(p, g, t) == None
  {
    hide Asked, Terminated, Enabled;
    if !Terminated(g, t) && Asked(p, g, t).Some? {
      var tr := SomethingEnabled(p, g, t);
    }
  }

  lemma LeafIsStuck(cfg: Config, x: Graph, b: nat)
    requires Good(cfg, x) && Leaf(cfg.program, x) && IsBlock(x, b)
    ensures StuckAt(cfg.program, x, b)
  {
    hide Trace, Steps, Terminated, CompatibleSends, DropEvent, Quiet, Consistent, ReplayValid, TraceUpTo, StepsUpTo,
         PrefixClosed, ReadClosed, Subgraph;
    var t, h := x.events[b].thread, DropEvent(x, b);
    BlockTerminates(cfg.program, x, b);
    GoodParts(cfg, x);
    assert Conforms(x.events[b].op, Answer(cfg.program, x, b)) by { AnswersReplay(cfg.program, x, b); }
    AllButBlockIsClosed(cfg.program, x, b);
    RestrictIsSubgraph(x, AllBut(|x.events|, b));
    DroppedIsSubgraph(x, b);
    DropTrace(cfg.program, x, b);
    assert !Wakes(cfg.program, x, t, h);
    DropKeepsCompatible(x, b, t, Answer(cfg.program, x, b).value);
  }

  lemma AnswersReplay(p: Program, x: Graph, b: nat)
    requires ReplayValid(p, x) && b < |x.events|
    ensures Conforms(x.events[b].op, Answer(p, x, b))
  {
  }

  lemma DropKeepsCompatible(x: Graph, b: nat, t: ThreadId, op: Label)
    requires CompatibleSends(DropEvent(x, b), t, op) == [] && IsBlock(x, b)
    ensures CompatibleSends(x, t, op) == []
  {
    hide DropEvent, AllBut;
    var h, f := DropEvent(x, b), KeptIds(AllBut(|x.events|, b));
    DroppedIsSubgraph(x, b);
    var sends := CompatibleSends(x, t, op);
    if sends != [] {
      var s := sends[0];
      assert s in sends;
      var i := IndexOf(f, s);
      assert SameEvent(h.events[i], x.events[f[i]]);
      forall r | r in h.rf ensures h.rf[r] != From(i) { assert SourceCopied(h, x, f, r); }
      assert CompatibleUnread(h, t, op, i);
      CompatibleIsListed(h, t, op, i);
    }
  }
}
