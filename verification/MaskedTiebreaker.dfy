/** The tiebreaker search over a mask. */
module MaskedTiebreaker {
  import opened Optional
  import opened Events
  import opened Reachability
  import opened Consistency
  import opened Revisits
  import opened Validation
  import opened FifoChecks
  import opened MaskedContexts

  // ----- the FIFO clauses on a consumer table -----

  ghost predicate ConsumersAre(g: Graph, keep: Mask, consumers: seq<Option<nat>>)
  {
    && |keep| == |consumers| == |g.events|
    && forall s: nat, r: nat :: s < |g.events| ==> (consumers[s] == Some(r) <==> KeptRead(g, keep, r, s))
  }

  /** On a well-formed graph the last fitting reader is the only reader. */
  lemma ConsumersComplete(g: Graph, keep: Mask, consumers: seq<Option<nat>>)
    requires WellFormed(g) && |keep| == |g.events| && ConsumersFor(g, keep, Span(g.rf), consumers)
    ensures ConsumersAre(g, keep, consumers)
  {
    hide Span;
    forall s: nat, r: nat | s < |g.events| ensures consumers[s] == Some(r) <==> KeptRead(g, keep, r, s) {
      assert LastKept(g, keep, s, Span(g.rf), consumers[s]);
      if KeptRead(g, keep, r, s) {
        ReaderBelow(g, r);
        assert GoodRead(g, r);
      }
    }
  }

  /** The kept sends of a channel, ascending. */
  ghost predicate KeptChannel(g: Graph, keep: Mask, channel: Channel, ids: seq<nat>)
  {
    && (forall i :: 0 <= i < |ids| ==> IsSend(g, ids[i]) && Keeps(keep, ids[i]) && ChannelOf(g, ids[i]) == channel)
    && (forall i, j :: 0 <= i < j < |ids| ==> ids[i] < ids[j])
  }

  ghost predicate ChannelsFor(g: Graph, keep: Mask, channels: map<Channel, seq<nat>>)
  {
    && (forall c :: c in channels ==> KeptChannel(g, keep, c, channels[c]))
    && (forall s: nat :: IsSend(g, s) && Keeps(keep, s) ==> Filed(g, channels, s))
  }

  ghost predicate Filed(g: Graph, channels: map<Channel, seq<nat>>, s: nat)
    requires IsSend(g, s)
  {
    ChannelOf(g, s) in channels && s in channels[ChannelOf(g, s)]
  }

  lemma KeptChannelPush(g: Graph, keep: Mask, channel: Channel, ids: seq<nat>, s: nat)
    requires KeptChannel(g, keep, channel, ids) && IsSend(g, s) && Keeps(keep, s) && ChannelOf(g, s) == channel
    requires forall i :: 0 <= i < |ids| ==> ids[i] < s
    ensures KeptChannel(g, keep, channel, ids + [s])
  {
  }

  method GroupKept(g: Graph, keep: Mask) returns (channels: map<Channel, seq<nat>>)
    requires |keep| == |g.events|
    ensures ChannelsFor(g, keep, channels)
  {
    hide KeptChannel, ChannelOf;
    channels := map[];
    var s := 0;
    while s < |g.events|
      invariant 0 <= s <= |g.events|
      invariant forall c :: c in channels ==> KeptChannel(g, keep, c, channels[c])
      invariant forall c, i :: c in channels && 0 <= i < |channels[c]| ==> channels[c][i] < s
      invariant forall x: nat :: x < s && IsSend(g, x) && Keeps(keep, x) ==> Filed(g, channels, x)
    {
      if keep[s] && g.events[s].op.Send? {
        var channel := ChannelOf(g, s);
        var ids := if channel in channels then channels[channel] else [];
        if channel !in channels { NoneInChannel(g, keep, channel); }
        KeptChannelPush(g, keep, channel, ids, s);
        channels := channels[channel := ids + [s]];
        assert (ids + [s])[|ids|] == s;
      }
      s := s + 1;
    }
  }

  lemma NoneInChannel(g: Graph, keep: Mask, channel: Channel)
    ensures KeptChannel(g, keep, channel, [])
  {
  }

  ghost predicate MaskedBreaks(g: Graph, keep: Mask, clause: Clause, early: nat, late: nat)
  {
    match clause
    case UnreadEarlier => exists r: nat :: MaskedSkips(g, keep, early, late, r)
    case ReceiveOrder => exists r: nat, q: nat :: MaskedOvertakes(g, keep, early, late, r, q)
  }

  lemma NoMaskedConsumer(g: Graph, keep: Mask, consumers: seq<Option<nat>>, s: nat)
    requires ConsumersAre(g, keep, consumers) && IsSend(g, s) && Keeps(keep, s)
    ensures consumers[s].None? <==> MaskedUnread(g, keep, s)
  {
    if consumers[s].Some? {
      assert KeptRead(g, keep, consumers[s].value, s);
    } else {
      forall r | r in g.rf && Keeps(keep, r) ensures g.rf[r] != From(s) {
        assert consumers[s] == Some(r) <==> KeptRead(g, keep, r, s);
      }
    }
  }

  lemma MaskedConsumerIs(g: Graph, keep: Mask, consumers: seq<Option<nat>>, s: nat)
    requires ConsumersAre(g, keep, consumers) && s < |g.events|
    ensures consumers[s].Some? ==> KeptRead(g, keep, consumers[s].value, s)
    ensures forall r: nat :: KeptRead(g, keep, r, s) ==> consumers[s] == Some(r)
  {
  }

  lemma MaskedPairMeaning(g: Graph, keep: Mask, consumers: seq<Option<nat>>, clause: Clause, early: nat, late: nat)
    requires ConsumersAre(g, keep, consumers) && early < late
    requires IsSend(g, early) && IsSend(g, late) && Keeps(keep, early) && Keeps(keep, late)
    requires ChannelOf(g, early) == ChannelOf(g, late)
    ensures PairBreaks(g, consumers, clause, early, late) <==> MaskedBreaks(g, keep, clause, early, late)
  {
    hide ConsumersAre, MaskedUnread;
    ConsumerSizes(g, keep, consumers);
    MaskedConsumerIs(g, keep, consumers, early);
    MaskedConsumerIs(g, keep, consumers, late);
    NoMaskedConsumer(g, keep, consumers, early);
    assert SameChannel(g, early, late);
    if PairBreaks(g, consumers, clause, early, late) {
      match clause {
        case UnreadEarlier => assert MaskedSkips(g, keep, early, late, consumers[late].value);
        case ReceiveOrder => assert MaskedOvertakes(g, keep, early, late, consumers[late].value,
                                                    consumers[early].value);
      }
    }
    if MaskedBreaks(g, keep, clause, early, late) {
      match clause {
        case UnreadEarlier =>
          var r: nat :| MaskedSkips(g, keep, early, late, r);
          assert KeptRead(g, keep, r, late);
        case ReceiveOrder =>
          var r: nat, q: nat :| MaskedOvertakes(g, keep, early, late, r, q);
          assert KeptRead(g, keep, r, late) && KeptRead(g, keep, q, early);
      }
    }
  }

  lemma ConsumerSizes(g: Graph, keep: Mask, consumers: seq<Option<nat>>)
    requires ConsumersAre(g, keep, consumers)
    ensures |consumers| == |g.events|
  {
  }

  lemma MaskedBreakIsFiled(g: Graph, keep: Mask, clause: Clause, early: nat, late: nat)
    requires MaskedBreaks(g, keep, clause, early, late)
    ensures early < late && IsSend(g, early) && IsSend(g, late) && Keeps(keep, early) && Keeps(keep, late)
    ensures ChannelOf(g, early) == ChannelOf(g, late)
  {
  }

  /** Does any pair of one channel break the clause? */
  method ChannelBreaks(g: Graph, keep: Mask, consumers: seq<Option<nat>>, channel: Channel, ids: seq<nat>,
                       clause: Clause) returns (bad: bool)
    requires ConsumersAre(g, keep, consumers) && KeptChannel(g, keep, channel, ids)
    ensures bad <==>
              exists early: nat, late: nat :: early in ids && late in ids && MaskedBreaks(g, keep, clause, early, late)
  {
    hide ConsumersAre, PairBreaks, MaskedBreaks;
    ConsumerSizes(g, keep, consumers);
    var k := 0;
    while k < |ids|
      invariant 0 <= k <= |ids|
      invariant forall i, j :: 0 <= i < j < k ==> !MaskedBreaks(g, keep, clause, ids[i], ids[j])
    {
      var i := 0;
      while i < k
        invariant 0 <= i <= k
        invariant forall x :: 0 <= x < i ==> !MaskedBreaks(g, keep, clause, ids[x], ids[k])
      {
        MaskedPairMeaning(g, keep, consumers, clause, ids[i], ids[k]);
        if PairBreaks(g, consumers, clause, ids[i], ids[k]) {
          assert ids[i] in ids && ids[k] in ids;
          return true;
        }
        i := i + 1;
      }
      k := k + 1;
    }
    bad := false;
    forall early: nat, late: nat | early in ids && late in ids ensures !MaskedBreaks(g, keep, clause, early, late) {
      if MaskedBreaks(g, keep, clause, early, late) {
        MaskedBreakIsFiled(g, keep, clause, early, late);
        var i :| 0 <= i < |ids| && ids[i] == early;
        var j :| 0 <= j < |ids| && ids[j] == late;
        assert false;
      }
    }
  }

  method AnyBreaks(g: Graph, keep: Mask, consumers: seq<Option<nat>>,
                   channels: map<Channel, seq<nat>>, clause: Clause) returns (bad: bool)
    requires ConsumersAre(g, keep, consumers) && ChannelsFor(g, keep, channels)
    ensures bad <==> exists early: nat, late: nat :: MaskedBreaks(g, keep, clause, early, late)
  {
    hide ConsumersAre, KeptChannel, MaskedBreaks;
    var left := channels.Keys;
    while left != {}
      invariant left <= channels.Keys
      invariant forall c :: c in channels && c !in left ==> forall early: nat, late: nat ::
                  early in channels[c] && late in channels[c] ==> !MaskedBreaks(g, keep, clause, early, late)
      decreases |left|
    {
      var channel :| channel in left;
      var here := ChannelBreaks(g, keep, consumers, channel, channels[channel], clause);
      if here {
        return true;
      }
      left := left - {channel};
    }
    bad := false;
    forall early: nat, late: nat ensures !MaskedBreaks(g, keep, clause, early, late) {
      if MaskedBreaks(g, keep, clause, early, late) {
        MaskedBreakIsFiled(g, keep, clause, early, late);
        assert false;
      }
    }
  }

  lemma ClausesByPairs(g: Graph, keep: Mask)
    ensures MaskedClauses(g, keep, FifoP2P) <==>
            (forall early: nat, late: nat :: !MaskedBreaks(g, keep, UnreadEarlier, early, late)
                                             && !MaskedBreaks(g, keep, ReceiveOrder, early, late))
  {
    if forall early: nat, late: nat :: !MaskedBreaks(g, keep, UnreadEarlier, early, late)
                                       && !MaskedBreaks(g, keep, ReceiveOrder, early, late) {
      forall early: nat, late: nat, r: nat ensures !MaskedSkips(g, keep, early, late, r) {
        assert !MaskedBreaks(g, keep, UnreadEarlier, early, late);
      }
      forall early: nat, late: nat, r: nat, q: nat ensures !MaskedOvertakes(g, keep, early, late, r, q) {
        assert !MaskedBreaks(g, keep, ReceiveOrder, early, late);
      }
    }
  }

  // ----- the context -----

  /** The consumer table as if `recv` read `candidate` instead of `previous`. */
  function Rewritten(consumers: seq<Option<nat>>, recv: nat, candidate: nat, previous: nat): seq<Option<nat>>
    requires candidate < |consumers| && previous < |consumers|
  {
    (if previous != candidate then consumers[previous := None] else consumers)[candidate := Some(recv)]
  }

  lemma RewrittenConsumers(g: Graph, keep: Mask, consumers: seq<Option<nat>>, recv: nat, candidate: nat, previous: nat)
    requires WellFormed(g) && ConsumersAre(g, keep, consumers) && Candidate(g, keep, recv, candidate)
    requires KeptRead(g, keep, recv, previous)
    ensures candidate < |consumers| && previous < |consumers|
    ensures ConsumersAre(SetSource(g, recv, From(candidate)), keep, Rewritten(consumers, recv, candidate, previous))
  {
    var g', after := SetSource(g, recv, From(candidate)), Rewritten(consumers, recv, candidate, previous);
    forall s: nat, r: nat | s < |g.events| ensures after[s] == Some(r) <==> KeptRead(g', keep, r, s) {
      assert consumers[s] == Some(r) <==> KeptRead(g, keep, r, s);
      if r != recv {
        OtherReader(g, keep, recv, candidate, previous, r, s);
      }
    }
  }

  /** No other kept receive reads the candidate, nor the source `recv` had. */
  lemma OtherReader(g: Graph, keep: Mask, recv: nat, candidate: nat, previous: nat, r: nat, s: nat)
    requires WellFormed(g) && Candidate(g, keep, recv, candidate) && KeptRead(g, keep, recv, previous) && r != recv
    ensures KeptRead(g, keep, r, s) ==> s != candidate && s != previous
  {
  }

  class MaskedContext {
    var graph: Graph
    var keep: Mask
    var view: KeptView
    var fifo: bool
    var consumers: seq<Option<nat>>
    var channels: map<Channel, seq<nat>>

    ghost predicate Valid()
      reads this
    {
      && |keep| == |graph.events| && Shows(graph, keep, view)
      && (fifo ==> ConsumersFor(graph, keep, Span(graph.rf), consumers) && ChannelsFor(graph, keep, channels))
    }

    constructor ()
      ensures Valid() && graph == EmptyGraph
    {
      graph, keep, view := EmptyGraph, [], KeptView([], [], []);
      fifo, consumers, channels := false, [], map[];
    }

    /** Rebinds the context to a graph and a mask. */
    method Reset(g: Graph, mask: Mask, buildFifo: bool) returns (ok: bool)
      modifies this
      ensures ok <==> |mask| == |g.events|
      ensures ok ==> Valid() && graph == g && keep == mask && fifo == buildFifo
    {
      hide KeptLists, ReadersFor, ConsumersFor, ChannelsFor, Span;
      if |mask| != |g.events| {
        return false;
      }
      var lists, position := ListKept(g, mask);
      var readers, fits := ListReaders(g, mask);
      graph, keep, view, fifo := g, mask, KeptView(lists, position, readers), buildFifo;
      if buildFifo {
        consumers := fits;
        channels := GroupKept(g, mask);
      }
      ok := true;
    }

    /** What is causally after `from` among the kept events. */
    method ReachableFrom(from: nat) returns (reachable: Option<seq<bool>>)
      requires Valid()
      ensures reachable.Some? <==> Keeps(keep, from)
      ensures reachable.Some? ==> |reachable.value| == |graph.events|
      ensures reachable.Some? ==>
                forall x: nat :: Marked(reachable.value, x) <==> Reach(MaskedEdges(graph, keep), from, x)
    {
      hide Shows, ConsumersFor, ChannelsFor, Reach;
      if !Keeps(keep, from) {
        return None;
      }
      var marks := Search(graph, keep, view, from);
      reachable := Some(marks);
    }

    /** The consumer table is rewritten for the test and put back afterwards. */
    method FifoRewriteViolates(recv: nat, candidate: nat, previous: nat) returns (violated: bool)
      requires Valid() && fifo && WellFormed(graph) && Candidate(graph, keep, recv, candidate)
               && KeptRead(graph, keep, recv, previous)
      modifies this`consumers
      ensures Valid() && consumers == old(consumers)
      ensures violated <==> !MaskedClauses(SetSource(graph, recv, From(candidate)), keep, FifoP2P)
    {
      hide WellFormed, Shows, ConsumersFor, ConsumersAre, Span, MaskedBreaks, MaskedClauses, Candidate, KeptRead,
           KeptChannel;
      ghost var g' := SetSource(graph, recv, From(candidate));
      ConsumersComplete(graph, keep, consumers);
      RewrittenConsumers(graph, keep, consumers, recv, candidate, previous);
      ChannelsKept(graph, g', keep, channels);
      ClausesByPairs(g', keep);
      var saved: seq<(nat, Option<nat>)> := [];
      if previous != candidate {
        saved := saved + [(previous, consumers[previous])];
        consumers := consumers[previous := None];
      }
      saved := saved + [(candidate, consumers[candidate])];
      consumers := consumers[candidate := Some(recv)];
      var unread := AnyBreaks(SetSource(graph, recv, From(candidate)), keep, consumers, channels, UnreadEarlier);
      violated := unread;
      if !unread {
        violated := AnyBreaks(SetSource(graph, recv, From(candidate)), keep, consumers, channels, ReceiveOrder);
      }
      consumers := consumers[saved[|saved| - 1].0 := saved[|saved| - 1].1];
      if |saved| == 2 {
        consumers := consumers[saved[0].0 := saved[0].1];
      }
      assert consumers == old(consumers);
    }
  }

  lemma ChannelsKept(g: Graph, g': Graph, keep: Mask, channels: map<Channel, seq<nat>>)
    requires ChannelsFor(g, keep, channels) && g.events == g'.events
    ensures ChannelsFor(g', keep, channels)
  {
    forall c | c in channels ensures KeptChannel(g', keep, c, channels[c]) {
      assert KeptChannel(g, keep, c, channels[c]);
    }
    forall s: nat | IsSend(g', s) && Keeps(keep, s) ensures Filed(g', channels, s) {
      assert Filed(g, channels, s);
    }
  }
}
