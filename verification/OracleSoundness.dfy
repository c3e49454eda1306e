/** Every Full or Blocked execution the engine publishes is one the exhaustive enumeration records. */
module OracleSoundness {
  import opened Optional
  import opened Events
  import opened Reachability
  import opened Consistency
  import opened Subgraphs
  import opened Replay
  import opened Revisits
  import opened Engine
  import opened Invariants
  import opened Oracle

  /** All events of `g` in a causal order, Block events at the end. */
  ghost predicate Schedule(g: Graph, order: seq<nat>)
  {
    && Selection(g, order) && |order| == |g.events|
    && (forall x :: 0 <= x < |g.events| ==> x in order)
    && (forall j, a: nat :: 0 <= j < |order| && PorfEdge(g, a, order[j]) ==> a in order[..j])
    && (forall i, j :: 0 <= i < j < |order| && IsBlock(g, order[i]) ==> IsBlock(g, order[j]))
  }

  ghost function Blocks(g: Graph): set<nat>
  {
    set x: nat | 0 <= x < |g.events| && IsBlock(g, x)
  }

  ghost function NonBlocks(g: Graph): set<nat>
  {
    set x: nat | 0 <= x < |g.events| && !IsBlock(g, x)
  }

  lemma ScheduleParts(p: Program, g: Graph) returns (steps: seq<nat>, blocks: seq<nat>)
    requires CausallyAcyclic(g)
    ensures Linearises(PorfEdges(g), NonBlocks(g), steps)
    ensures Linearises(PorfEdges(g), Blocks(g), blocks)
  {
    steps := Linearisation(PorfEdges(g), NonBlocks(g));
    blocks := Linearisation(PorfEdges(g), Blocks(g));
  }

  ghost predicate ListsOnce(n: nat, order: seq<nat>)
  {
    && (forall x :: x in order <==> 0 <= x < n)
    && (forall i, j :: 0 <= i < j < |order| ==> order[i] != order[j])
  }

  lemma {:induction false} ListingLength(n: nat, order: seq<nat>)
    requires ListsOnce(n, order)
    ensures |order| == n
  {
    if |order| > 0 { assert order[0] in order; }
    if n > 0 {
      assert n - 1 in order;
      var k :| 0 <= k < |order| && order[k] == n - 1;
      var rest := order[..k] + order[k + 1..];
      forall x ensures x in rest <==> 0 <= x < n - 1 {
        if 0 <= x < n - 1 {
          assert x in order;
          var i :| 0 <= i < |order| && order[i] == x;
          assert rest[if i < k then i else i - 1] == x;
        }
        if x in rest {
          var i :| 0 <= i < |rest| && rest[i] == x;
          var j := if i < k then i else i + 1;
          assert x == order[j] && order[j] in order;
          assert order[j] != order[k];
        }
      }
      ListingLength(n - 1, rest);
    }
  }

  lemma PartsListOnce(g: Graph, steps: seq<nat>, blocks: seq<nat>)
    requires Linearises(PorfEdges(g), NonBlocks(g), steps)
    requires Linearises(PorfEdges(g), Blocks(g), blocks)
    ensures ListsOnce(|g.events|, steps + blocks)
    ensures forall i :: 0 <= i < |steps| ==> steps[i] < |g.events| && !IsBlock(g, steps[i])
    ensures forall i :: 0 <= i < |blocks| ==> IsBlock(g, blocks[i])
  {
    hide PorfEdges;
    assert forall i :: 0 <= i < |steps| ==> steps[i] in steps;
    assert forall i :: 0 <= i < |blocks| ==> blocks[i] in blocks;
  }

  /** Edges only lead forwards in the combined order: a Block event causes nothing. */
  lemma PartsFollowEdges(p: Program, g: Graph, steps: seq<nat>, blocks: seq<nat>, i: nat, j: nat)
    requires Shaped(p, g) && WellFormed(g)
    requires Linearises(PorfEdges(g), NonBlocks(g), steps)
    requires Linearises(PorfEdges(g), Blocks(g), blocks)
    requires i < |steps + blocks| && j < |steps + blocks|
    requires PorfEdge(g, (steps + blocks)[i], (steps + blocks)[j])
    ensures i < j
  {
    PartsListOnce(g, steps, blocks);
    var order := steps + blocks;
    assert (order[i], order[j]) in PorfEdges(g);
    BlockCausesNothing(p, g, order[i], order[j]);
  }

  lemma BlockCausesNothing(p: Program, g: Graph, a: nat, b: nat)
    requires Shaped(p, g) && WellFormed(g) && PorfEdge(g, a, b)
    ensures !IsBlock(g, a)
  {
    if Reads(g, b, a) { assert GoodRead(g, b); }
  }

  lemma ScheduleExists(p: Program, g: Graph) returns (order: seq<nat>)
    requires CausallyAcyclic(g) && Shaped(p, g) && WellFormed(g)
    ensures Schedule(g, order)
  {
    var steps, blocks := ScheduleParts(p, g);
    PartsListOnce(g, steps, blocks);
    order := steps + blocks;
    ListingLength(|g.events|, order);
    assert forall i :: 0 <= i < |order| ==> order[i] in order;
    forall i, j | 0 <= i < j < |order| && g.events[order[i]].thread == g.events[order[j]].thread
      ensures order[i] < order[j]
    {
      if order[j] < order[i] {
        assert PorfEdge(g, order[j], order[i]);
        PartsFollowEdges(p, g, steps, blocks, j, i);
      }
    }
    forall j, a: nat | 0 <= j < |order| && PorfEdge(g, a, order[j])
      ensures a in order[..j]
    {
      assert a in order;
      var i :| 0 <= i < |order| && order[i] == a;
      PartsFollowEdges(p, g, steps, blocks, i, j);
      assert order[..j][i] == a;
    }
  }

  // ----- one step of the replayed run -----

  lemma PrefixIsCausal(g: Graph, order: seq<nat>, k: nat)
    requires Schedule(g, order) && k <= |order|
    ensures Selection(g, order[..k]) && PrefixClosed(g, order[..k])
    ensures WellFormed(g) ==> ReadClosed(g, order[..k])
  {
    var f := order[..k];
    forall a: nat, b: nat | PorfEdge(g, a, b) && b in f
      ensures a in f
    {
      var j :| 0 <= j < k && f[j] == b;
      assert order[j] == b;
      assert a in order[..j];
      var i :| 0 <= i < j && order[..j][i] == a;
      assert f[i] == a;
    }
    forall r | r in f && r in g.rf && g.rf[r].From? && WellFormed(g)
      ensures g.rf[r].send in f
    {
      assert GoodRead(g, r);
      assert PorfEdge(g, g.rf[r].send, r);
    }
  }

  /** The thread about to act has replayed exactly its events before `order[k]`. */
  lemma PrefixCoversThread(g: Graph, order: seq<nat>, k: nat)
    requires Schedule(g, order) && k < |order|
    ensures Selection(g, order[..k]) && CoversThread(g, order[..k], g.events[order[k]].thread, k, order[k])
  {
    PrefixIsCausal(g, order, k);
    var f, x := order[..k], order[k];
    forall i | 0 <= i < k && g.events[f[i]].thread == g.events[x].thread
      ensures f[i] < x
    {
      assert f[i] == order[i];
    }
    forall y | 0 <= y < x && g.events[y].thread == g.events[x].thread
      ensures y in f[..k]
    {
      assert PorfEdge(g, y, x);
      assert f[..k] == f;
    }
  }

  lemma PrefixAnswer(p: Program, h: Graph, g: Graph, order: seq<nat>, k: nat)
    requires Schedule(g, order) && k < |order| && WellFormed(g) && Subgraph(h, g, order[..k])
    ensures Asked(p, h, g.events[order[k]].thread) == Answer(p, g, order[k])
  {
    assert order[k] < |g.events|;
    hide Schedule, Subgraph, CoversThread, PrefixClosed, TraceUpTo, StepsUpTo, WellFormed;
    PrefixIsCausal(g, order, k);
    PrefixCoversThread(g, order, k);
    ReadClosedThread(g, order[..k], g.events[order[k]].thread);
    SubgraphLength(h, g, order[..k]);
    TraceCopied(h, g, order[..k], g.events[order[k]].thread, k, order[k]);
  }

  lemma SubgraphLength(h: Graph, g: Graph, f: seq<nat>)
    requires Subgraph(h, g, f)
    ensures |h.events| == |f| && Selection(g, f)
  {
  }

  lemma ReadClosedThread(g: Graph, f: seq<nat>, t: ThreadId)
    requires Selection(g, f) && ReadClosed(g, f)
    ensures ThreadReadsCopied(g, f, t, |f|)
  {
  }

  /** A thread with an event still to come is live. */
  lemma PrefixNotTerminated(p: Program, h: Graph, g: Graph, order: seq<nat>, k: nat)
    requires Schedule(g, order) && k < |order| && Shaped(p, g) && Subgraph(h, g, order[..k])
    ensures !Terminated(h, g.events[order[k]].thread)
  {
    var f, t := order[..k], g.events[order[k]].thread;
    var last := LastEvent(h, t);
    if last.Some? {
      var i := last.value;
      assert SameEvent(h.events[i], g.events[f[i]]);
      assert Po(g, f[i], order[k]);
      assert !IsBlock(g, f[i]);
    }
  }

  /** `source` is the copy of event `x`'s reads-from entry. */
  ghost predicate CopiesSource(g: Graph, f: seq<nat>, x: nat, source: Option<Source>)
  {
    match source
    case None => x !in g.rf
    case Some(Bottom) => x in g.rf && g.rf[x] == Bottom
    case Some(From(j)) => j < |f| && x in g.rf && g.rf[x] == From(f[j])
  }

  lemma ExtendSubgraph(h: Graph, g: Graph, f: seq<nat>, x: nat, op: Label, source: Option<Source>)
    requires Subgraph(h, g, f) && Selection(g, f + [x]) && ReadClosed(g, f)
    requires x < |g.events| && SameOp(op, g.events[x].op) && CopiesSource(g, f, x, source)
    ensures Subgraph(Apply(h, Transition(g.events[x].thread, op, source)), g, f + [x])
  {
    var f' := f + [x];
    var h' := Apply(h, Transition(g.events[x].thread, op, source));
    forall i | 0 <= i < |f'|
      ensures SameEvent(h'.events[i], g.events[f'[i]]) && SourceCopied(h', g, f', i)
    {
      if i < |f| {
        assert SameEvent(h.events[i], g.events[f[i]]) && SourceCopied(h, g, f, i);
        assert f[i] in f;
      }
    }
  }

  /** Appending the copy of `order[k]` extends the copied prefix. */
  lemma ExtendCopy(h: Graph, g: Graph, order: seq<nat>, k: nat, op: Label, source: Option<Source>)
    requires Schedule(g, order) && k < |order| && WellFormed(g) && Subgraph(h, g, order[..k])
    requires order[k] < |g.events| && SameOp(op, g.events[order[k]].op) && CopiesSource(g, order[..k], order[k], source)
    ensures Subgraph(Apply(h, Transition(g.events[order[k]].thread, op, source)), g, order[..k + 1])
  {
    hide Subgraph, Schedule, WellFormed, SameOp;
    PrefixIsCausal(g, order, k);
    PrefixIsCausal(g, order, k + 1);
    assert order[..k + 1] == order[..k] + [order[k]];
    ExtendSubgraph(h, g, order[..k], order[k], op, source);
  }

  lemma StepForReceive(p: Program, m: CommunicationModel, h: Graph, g: Graph, order: seq<nat>, k: nat)
      returns (tr: Transition)
    requires Schedule(g, order) && k < |order| && Subgraph(h, g, order[..k])
    requires WellFormed(g) && ReadsTotal(g) && IsReceive(g, order[k])
    ensures tr.thread == g.events[order[k]].thread
    ensures Offers(h, tr.thread, g.events[order[k]].op, tr)
    ensures Subgraph(Apply(h, tr), g, order[..k + 1])
  {
    var x, f := order[k], order[..k];
    assert GoodRead(g, x);
    var op, t := g.events[x].op, g.events[x].thread;
    match g.rf[x]
    case Bottom =>
      tr := Transition(t, op, Some(Bottom));
      ExtendCopy(h, g, order, k, op, Some(Bottom));
    case From(s) =>
      assert PorfEdge(g, s, x);
      var j :| 0 <= j < k && order[..k][j] == s;
      tr := Transition(t, op, Some(From(j)));
      SourceStillUnread(h, g, order, k, j);
      ExtendCopy(h, g, order, k, op, Some(From(j)));
  }

  lemma SourceStillUnread(h: Graph, g: Graph, order: seq<nat>, k: nat, j: nat)
    requires Schedule(g, order) && j < k < |order| && Subgraph(h, g, order[..k])
    requires WellFormed(g) && Reads(g, order[k], order[j])
    ensures CompatibleUnread(h, g.events[order[k]].thread, g.events[order[k]].op, j)
  {
    var x, f := order[k], order[..k];
    assert GoodRead(g, x);
    assert SameEvent(h.events[j], g.events[f[j]]);
    forall r | r in h.rf
      ensures h.rf[r] != From(j)
    {
      if h.rf[r] == From(j) {
        SubgraphReads(h, g, f, r, j);
        assert false;
      }
    }
  }

  /** With every other event replayed, the copy has the same unread sends. */
  lemma BlockStillStuck(h: Graph, g: Graph, order: seq<nat>, k: nat, t: ThreadId, op: Label)
    requires Schedule(g, order) && k < |order| && Subgraph(h, g, order[..k]) && WellFormed(g)
    requires IsBlock(g, order[k]) && CompatibleSends(g, t, op) == []
    ensures CompatibleSends(h, t, op) == []
  {
    var f := order[..k];
    if CompatibleSends(h, t, op) != [] {
      var j := CompatibleSends(h, t, op)[0];
      assert j in CompatibleSends(h, t, op);
      assert SameEvent(h.events[j], g.events[f[j]]);
      forall r | r in g.rf
        ensures g.rf[r] != From(f[j])
      {
        if g.rf[r] == From(f[j]) {
          assert GoodRead(g, r);
          ReceiveAlreadyReplayed(g, order, k, r);
          var i :| 0 <= i < k && f[i] == r;
          SubgraphReads(h, g, f, i, j);
          assert false;
        }
      }
      assert CompatibleUnread(g, t, op, f[j]);
      CompatibleIsListed(g, t, op, f[j]);
      assert false;
    }
  }

  lemma CompatibleIsListed(g: Graph, t: ThreadId, op: Label, s: nat)
    requires CompatibleUnread(g, t, op, s)
    ensures CompatibleSends(g, t, op) != []
  {
    assert s in CompatibleSends(g, t, op);
  }

  lemma ReceiveAlreadyReplayed(g: Graph, order: seq<nat>, k: nat, r: nat)
    requires Schedule(g, order) && k < |order| && IsBlock(g, order[k]) && IsReceive(g, r)
    ensures r in order[..k]
  {
    assert r in order;
    var i :| 0 <= i < |order| && order[i] == r;
    assert i < k;
    assert order[..k][i] == r;
  }

  lemma StepForOther(p: Program, h: Graph, g: Graph, order: seq<nat>, k: nat) returns (tr: Transition)
    requires Schedule(g, order) && k < |order| && Subgraph(h, g, order[..k]) && WellFormed(g)
    requires !IsReceive(g, order[k]) && Conforms(g.events[order[k]].op, Answer(p, g, order[k]))
    requires IsBlock(g, order[k]) ==> StuckAt(p, g, order[k])
    ensures tr.thread == g.events[order[k]].thread
    ensures Offers(h, tr.thread, Answer(p, g, order[k]).value, tr)
    ensures Subgraph(Apply(h, tr), g, order[..k + 1])
  {
    var x := order[k];
    assert x < |g.events|;
    hide Subgraph, Schedule, WellFormed;
    var op, t, answer := g.events[x].op, g.events[x].thread, Answer(p, g, x).value;
    OnlyReceivesRead(g, x);
    if op.Choice? {
      var chosen := Choice(op.chosen, answer.choices);
      ExtendCopy(h, g, order, k, chosen, None);
      tr := Transition(t, chosen, None);
    } else {
      ExtendCopy(h, g, order, k, op, None);
      tr := Transition(t, op, None);
      if op.Block? {
        BlockStillStuck(h, g, order, k, t, answer);
      }
    }
  }

  ghost predicate AllStuck(p: Program, g: Graph)
  {
    forall b: nat :: IsBlock(g, b) ==> StuckAt(p, g, b)
  }

  lemma ReplayedStep(cfg: Config, h: Graph, g: Graph, order: seq<nat>, k: nat) returns (h': Graph)
    requires Good(cfg, g) && AllStuck(cfg.program, g)
    requires Schedule(g, order) && k < |order| && Subgraph(h, g, order[..k])
    ensures Edge(cfg.program, cfg.model, h, h') && Subgraph(h', g, order[..k + 1])
  {
    var x := order[k];
    var tr: Transition;
    assert Conforms(g.events[x].op, Answer(cfg.program, g, x));
    PrefixAnswer(cfg.program, h, g, order, k);
    PrefixNotTerminated(cfg.program, h, g, order, k);
    if IsReceive(g, x) {
      tr := StepForReceive(cfg.program, cfg.model, h, g, order, k);
    } else {
      tr := StepForOther(cfg.program, h, g, order, k);
    }
    h' := Apply(h, tr);
    PrefixIsCausal(g, order, k + 1);
    CausalCopyIsConsistent(h', g, order[..k + 1], cfg.model);
    assert Enabled(cfg.program, h, tr);
  }

  lemma {:induction false} ReplayedRun(cfg: Config, g: Graph, order: seq<nat>, k: nat) returns (graphs: seq<Graph>)
    requires Good(cfg, g) && AllStuck(cfg.program, g) && Schedule(g, order) && k <= |order|
    ensures Branch(cfg.program, cfg.model, graphs) && Subgraph(graphs[|graphs| - 1], g, order[..k])
    decreases k
  {
    hide Good, AllStuck, Schedule, Edge;
    if k == 0 {
      graphs := [EmptyGraph];
    } else {
      graphs := ReplayedRun(cfg, g, order, k - 1);
      var h := ReplayedStep(cfg, graphs[|graphs| - 1], g, order, k - 1);
      graphs := graphs + [h];
    }
  }

  // ----- the end of the run -----

  lemma FullCopyCovers(g: Graph, f: seq<nat>, t: ThreadId)
    requires Schedule(g, f) && WellFormed(g)
    ensures CoversThread(g, f, t, |f|, |f|) && ThreadReadsCopied(g, f, t, |f|)
  {
    assert f[..|f|] == f;
    PrefixIsCausal(g, f, |f|);
    ReadClosedThread(g, f, t);
  }

  lemma CoveredLast(h: Graph, g: Graph, f: seq<nat>, t: ThreadId)
    requires Subgraph(h, g, f) && |f| == |g.events|
    requires Mapped(f, ThreadIds(h, t, |f|)) == ThreadIds(g, t, |f|)
    ensures Terminated(h, t) <==> Terminated(g, t)
  {
    hide ThreadIds, SourceCopied;
    var ids := ThreadIds(h, t, |f|);
    assert |Mapped(f, ids)| == |ids|;
    if |ids| > 0 {
      var i := ids[|ids| - 1];
      assert Mapped(f, ids)[|ids| - 1] == f[i];
      assert LastEvent(h, t) == Some(i) && LastEvent(g, t) == Some(f[i]);
      assert SameEvent(h.events[i], g.events[f[i]]);
    }
  }

  lemma FullCopyThread(p: Program, h: Graph, g: Graph, f: seq<nat>, t: ThreadId)
    requires Subgraph(h, g, f) && Schedule(g, f) && WellFormed(g)
    ensures Asked(p, h, t) == Asked(p, g, t)
    ensures Terminated(h, t) <==> Terminated(g, t)
  {
    assert |f| == |h.events| == |g.events|;
    hide Subgraph, Schedule, CoversThread, ThreadReadsCopied, TraceUpTo, StepsUpTo, Terminated, WellFormed;
    SubgraphLength(h, g, f);
    FullCopyCovers(g, f, t);
    TraceCopied(h, g, f, t, |f|, |f|);
    CoveredIds(h, g, f, t, |f|, |f|);
    CoveredLast(h, g, f, t);
  }

  lemma FullCopyBlock(h: Graph, g: Graph, f: seq<nat>)
    requires Subgraph(h, g, f) && Schedule(g, f)
    ensures (exists b: nat :: IsBlock(h, b)) <==> (exists b: nat :: IsBlock(g, b))
  {
    if b: nat :| IsBlock(h, b) {
      assert SameEvent(h.events[b], g.events[f[b]]);
      assert IsBlock(g, f[b]);
    }
    if b: nat :| IsBlock(g, b) {
      assert b in f;
      var i :| 0 <= i < |f| && f[i] == b;
      assert SameEvent(h.events[i], g.events[f[i]]);
      assert IsBlock(h, i);
    }
  }

  lemma FullCopyBlocks(p: Program, h: Graph, g: Graph, f: seq<nat>)
    requires Subgraph(h, g, f) && Schedule(g, f) && Shaped(p, g)
    ensures HasBlockedThread(h) <==> HasBlockedThread(g)
  {
    hide Subgraph, Schedule, Shaped, HasBlockedThread, IsBlock;
    CopyKeepsShape(p, h, g, f);
    BlockedIffBlock(p, h);
    BlockedIffBlock(p, g);
    FullCopyBlock(h, g, f);
  }

  lemma BlockedIffBlock(p: Program, g: Graph)
    requires Shaped(p, g)
    ensures HasBlockedThread(g) <==> exists b: nat :: IsBlock(g, b)
  {
    if b: nat :| IsBlock(g, b) {
      BlockTerminates(p, g, b);
    }
  }

  /** The copy blocks where the original does, and no blocked receive of it can be woken. */
  lemma CopyNotWoken(cfg: Config, h: Graph, g: Graph, f: seq<nat>, t: ThreadId, w: Graph)
    requires Good(cfg, g) && AllStuck(cfg.program, g)
    requires Subgraph(h, g, f) && Schedule(g, f)
    ensures !Wakes(cfg.program, h, t, w)
  {
    if Wakes(cfg.program, h, t, w) {
      var i := LastEvent(h, t).value;
      var b := f[i];
      assert SameEvent(h.events[i], g.events[b]);
      assert IsBlock(g, b) && StuckAt(cfg.program, g, b);
      WokenAnswer(cfg, h, g, f, i);
      WokenSends(cfg, h, g, f, i, Answer(cfg.program, g, b).value);
      assert false;
    }
  }

  lemma DroppedCopy(cfg: Config, h: Graph, g: Graph, f: seq<nat>, i: nat)
    requires Good(cfg, g) && Subgraph(h, g, f) && Schedule(g, f) && IsBlock(h, i)
    ensures var keep := AllBut(|h.events|, i);
            Subgraph(DropEvent(h, i), h, KeptIds(keep))
            && PrefixClosed(h, KeptIds(keep)) && ReadClosed(h, KeptIds(keep))
            && WellFormed(h) && Shaped(cfg.program, h)
  {
    SubgraphWellFormed(h, g, f);
    CopyKeepsShape(cfg.program, h, g, f);
    AllButBlockIsClosed(cfg.program, h, i);
    RestrictIsSubgraph(h, AllBut(|h.events|, i));
  }

  lemma WokenAnswer(cfg: Config, h: Graph, g: Graph, f: seq<nat>, i: nat)
    requires Good(cfg, g) && Subgraph(h, g, f) && Schedule(g, f) && IsBlock(h, i)
    ensures var t := h.events[i].thread; Asked(cfg.program, DropEvent(h, i), t) == Answer(cfg.program, g, f[i])
  {
    assert i < |f|;
    hide Good, Schedule, Subgraph, WellFormed, Shaped, PrefixClosed, ReadClosed, Trace, Steps, DropEvent, KeptIds,
         AllBut, TraceUpTo, StepsUpTo;
    DroppedCopy(cfg, h, g, f, i);
    DropTrace(cfg.program, h, i);
    CopyAnswers(cfg, h, g, f, i);
  }

  lemma DropCoversThread(p: Program, h: Graph, i: nat)
    requires Shaped(p, h) && IsBlock(h, i)
    ensures var f := KeptIds(AllBut(|h.events|, i));
            Selection(h, f) && CoversThread(h, f, h.events[i].thread, |f|, i)
  {
    var f := KeptIds(AllBut(|h.events|, i));
    assert f[..|f|] == f;
    assert forall k :: 0 <= k < |f| ==> f[k] in f;
    forall k | 0 <= k < |f| && h.events[f[k]].thread == h.events[i].thread
      ensures f[k] < i
    {
      assert !Po(h, i, f[k]);
    }
  }

  lemma DropTrace(p: Program, h: Graph, i: nat)
    requires Shaped(p, h) && IsBlock(h, i)
    requires var f := KeptIds(AllBut(|h.events|, i)); Subgraph(DropEvent(h, i), h, f) && ReadClosed(h, f)
    ensures var t := h.events[i].thread;
            Trace(DropEvent(h, i), t) == TraceUpTo(h, t, i) && Steps(DropEvent(h, i), t) == StepsUpTo(h, t, i)
  {
    hide Shaped, Subgraph, CoversThread, TraceUpTo, StepsUpTo;
    var f, t := KeptIds(AllBut(|h.events|, i)), h.events[i].thread;
    DropCoversThread(p, h, i);
    ReadClosedThread(h, f, t);
    SubgraphLength(DropEvent(h, i), h, f);
    TraceCopied(DropEvent(h, i), h, f, t, |f|, i);
  }

  lemma CopyAnswers(cfg: Config, h: Graph, g: Graph, f: seq<nat>, i: nat)
    requires Good(cfg, g) && Subgraph(h, g, f) && Schedule(g, f) && i < |f|
    ensures Answer(cfg.program, h, i) == Answer(cfg.program, g, f[i])
  {
    hide Good, Subgraph, Schedule, CoversThread, TraceUpTo, StepsUpTo;
    GoodParts(cfg, g);
    ScheduledPrefix(h, g, f, i);
  }

  lemma ScheduledPrefix(h: Graph, g: Graph, f: seq<nat>, i: nat)
    requires Subgraph(h, g, f) && Schedule(g, f) && WellFormed(g) && i < |f|
    ensures var t := h.events[i].thread;
            && t == g.events[f[i]].thread
            && TraceUpTo(h, t, i) == TraceUpTo(g, t, f[i]) && StepsUpTo(h, t, i) == StepsUpTo(g, t, f[i])
  {
    var t := h.events[i].thread;
    assert SameEvent(h.events[i], g.events[f[i]]);
    PrefixCoversThread(g, f, i);
    assert f[..i][..i] == f[..i];
    PrefixIsCausal(g, f, |f|);
    assert f[..|f|] == f;
    ReadClosedThread(g, f, t);
    TraceCopied(h, g, f, t, i, f[i]);
  }

  lemma WokenSends(cfg: Config, h: Graph, g: Graph, f: seq<nat>, i: nat, op: Label)
    requires Good(cfg, g) && Subgraph(h, g, f) && Schedule(g, f) && IsBlock(h, i)
    requires CompatibleSends(g, h.events[i].thread, op) == []
    ensures CompatibleSends(DropEvent(h, i), h.events[i].thread, op) == []
  {
    assert forall r: nat :: IsReceive(h, r) ==> r in KeptIds(AllBut(|h.events|, i));
    hide Good, Schedule, PrefixClosed, WellFormed, Subgraph, DropEvent, Shaped, ReadClosed;
    var w, keep, t := DropEvent(h, i), AllBut(|h.events|, i), h.events[i].thread;
    DroppedCopy(cfg, h, g, f, i);
    GoodParts(cfg, g);
    if CompatibleSends(w, t, op) != [] {
      var s := CompatibleSends(w, t, op)[0];
      assert s in CompatibleSends(w, t, op);
      CompatibleInOriginal(w, h, KeptIds(keep), t, op, s);
      CompatibleInFull(h, g, f, t, op, KeptIds(keep)[s]);
      assert false;
    }
  }

  /** A send unread in a copy that loses only Block events is unread in the original. */
  lemma CompatibleInOriginal(w: Graph, h: Graph, f: seq<nat>, t: ThreadId, op: Label, s: nat)
    requires Subgraph(w, h, f) && WellFormed(h) && CompatibleUnread(w, t, op, s)
    requires forall r: nat :: IsReceive(h, r) ==> r in f
    ensures CompatibleUnread(h, t, op, f[s])
  {
    assert SameEvent(w.events[s], h.events[f[s]]);
    forall r | r in h.rf
      ensures h.rf[r] != From(f[s])
    {
      if h.rf[r] == From(f[s]) {
        assert GoodRead(h, r);
        var k :| 0 <= k < |f| && f[k] == r;
        SubgraphReads(w, h, f, k, s);
        assert false;
      }
    }
  }

  lemma CompatibleInFull(h: Graph, g: Graph, f: seq<nat>, t: ThreadId, op: Label, s: nat)
    requires Subgraph(h, g, f) && Schedule(g, f) && WellFormed(g) && CompatibleUnread(h, t, op, s)
    ensures f[s] in CompatibleSends(g, t, op)
  {
    CompatibleInOriginal(h, g, f, t, op, s);
  }

  lemma CopyIsLeaf(cfg: Config, h: Graph, g: Graph, f: seq<nat>)
    requires Good(cfg, g) && AllStuck(cfg.program, g) && Subgraph(h, g, f) && Schedule(g, f)
    requires forall t :: InProgram(cfg.program, t) ==> Terminated(g, t) || Asked(cfg.program, g, t) == None
    ensures Leaf(cfg.program, h)
  {
    hide Good, AllStuck, Subgraph, Schedule, Asked, Terminated, Wakes, Offers;
    GoodParts(cfg, g);
    forall tr: Transition
      ensures !Enabled(cfg.program, h, tr)
    {
      FullCopyThread(cfg.program, h, g, f, tr.thread);
      assert InProgram(cfg.program, tr.thread) ==> Terminated(g, tr.thread) || Asked(cfg.program, g, tr.thread) == None;
    }
    forall t: ThreadId, w: Graph
      ensures !Wakes(cfg.program, h, t, w)
    {
      CopyNotWoken(cfg, h, g, f, t, w);
    }
  }

  lemma SoundTerminalIsRecorded(cfg: Config, e: Terminal)
    requires TerminalSound(cfg, e) && (e.kind.Full? || e.kind.Blocked?)
    ensures Recorded(cfg.program, cfg.model, e.graph)
  {
    hide TerminalSound, Good, AllStuck, Schedule, Subgraph, Edge, Leaf, HasBlockedThread, Terminated, Asked;
    var g := e.graph;
    MaximalFacts(cfg, e);
    GoodParts(cfg, g);
    var order := ScheduleExists(cfg.program, g);
    var graphs := ReplayedRun(cfg, g, order, |order|);
    var h := graphs[|graphs| - 1];
    assert order[..|order|] == order;
    ScheduleLength(g, order);
    CopyIsLeaf(cfg, h, g, order);
    FullCopyBlocks(cfg.program, h, g, order);
    assert SameExecution(h, g);
  }

  lemma ScheduleLength(g: Graph, order: seq<nat>)
    requires Schedule(g, order)
    ensures |order| == |g.events|
  {
  }

  lemma MaximalFacts(cfg: Config, e: Terminal)
    requires TerminalSound(cfg, e) && (e.kind.Full? || e.kind.Blocked?)
    ensures Good(cfg, e.graph) && AllStuck(cfg.program, e.graph)
    ensures forall t :: InProgram(cfg.program, t) ==> Terminated(e.graph, t) || Asked(cfg.program, e.graph, t) == None
  {
    hide Consistent, ReplayValid, StuckAt, Terminated;
    var g := e.graph;
    forall b: nat | IsBlock(g, b)
      ensures StuckAt(cfg.program, g, b)
    {
      assert InProgram(cfg.program, g.events[b].thread);
      BlockTerminates(cfg.program, g, b);
    }
  }

  /** Soundness: every Full or Blocked execution `verify` publishes is recorded by the enumeration, as the
      same execution up to interleaving and with the same blocked status, under either model. */
  lemma PublishedIsRecorded(cfg: Config, e: Terminal)
    requires ValidProgram(cfg.program) && e in Executions(cfg) && (e.kind.Full? || e.kind.Blocked?)
    ensures Recorded(cfg.program, cfg.model, e.graph)
    ensures e.kind.Blocked? <==> HasBlockedThread(e.graph)
  {
    hide TerminalSound, Recorded, HasBlockedThread, Visit, ValidProgram;
    ExecutionsSound(cfg);
    SoundTerminalIsRecorded(cfg, e);
    BlockedKind(cfg, e);
  }

  lemma BlockedKind(cfg: Config, e: Terminal)
    requires TerminalSound(cfg, e) && (e.kind.Full? || e.kind.Blocked?)
    ensures e.kind.Blocked? <==> HasBlockedThread(e.graph)
  {
    hide Consistent, ReplayValid, Stuck, Trace, Steps;
    if e.kind.Full? && HasBlockedThread(e.graph) {
      BlockedIffBlock(cfg.program, e.graph);
      var b: nat :| IsBlock(e.graph, b);
      assert InProgram(cfg.program, e.graph.events[b].thread);
      BlockTerminates(cfg.program, e.graph, b);
      assert false;
    }
  }
}
