/** The two FIFO clauses, checked channel by channel. */
module FifoChecks {
  import opened Optional
  import opened Events
  import opened Consistency
  import opened Validation

  datatype Clause = UnreadEarlier | ReceiveOrder

  function IssueOf(clause: Clause): Issue
  {
    match clause
    case UnreadEarlier => FifoP2PUnreadEarlierMatchingSend
    case ReceiveOrder => FifoP2PReceiveOrderViolation
  }

  /** The send breaks the clause together with the earlier one. */
  ghost predicate BreaksWith(g: Graph, clause: Clause, early: nat, late: nat)
  {
    match clause
    case UnreadEarlier => exists r: nat :: SkipsUnread(g, early, late, r)
    case ReceiveOrder => exists r: nat, q: nat :: Overtakes(g, early, late, r, q)
  }

  ghost predicate Breaks(g: Graph, clause: Clause, late: nat)
  {
    exists early: nat :: BreaksWith(g, clause, early, late)
  }

  ghost function Breakers(g: Graph, clause: Clause): set<nat>
  {
    set late | 0 <= late < |g.events| && Breaks(g, clause, late)
  }

  function Repeat(issue: Issue, n: nat): seq<Issue>
  {
    seq(n, _ => issue)
  }

  /** One issue for each send that breaks a clause. */
  ghost function FifoIssues(g: Graph): seq<Issue>
  {
    Repeat(IssueOf(UnreadEarlier), |Breakers(g, UnreadEarlier)|)
        + Repeat(IssueOf(ReceiveOrder), |Breakers(g, ReceiveOrder)|)
  }

  lemma BreakerListed(g: Graph, clause: Clause, early: nat, late: nat)
    requires BreaksWith(g, clause, early, late)
    ensures late in Breakers(g, clause)
  {
    BreakerIsEarlier(g, clause, early, late);
  }

  lemma NoBreakers(g: Graph, clause: Clause)
    ensures Breakers(g, clause) == {} <==> forall early: nat, late: nat :: !BreaksWith(g, clause, early, late)
  {
    hide BreaksWith;
    if early: nat, late: nat :| BreaksWith(g, clause, early, late) {
      BreakerListed(g, clause, early, late);
    }
  }

  /** No FIFO issue means both clauses hold, and conversely. */
  lemma CleanFifo(g: Graph)
    ensures FifoIssues(g) == [] <==> FifoClauseB(g) && FifoClauseC(g)
  {
    NoBreakers(g, UnreadEarlier);
    NoBreakers(g, ReceiveOrder);
    assert FifoClauseB(g) <==> forall early: nat, late: nat :: !BreaksWith(g, UnreadEarlier, early, late) by {
      UnreadClause(g);
    }
    assert FifoClauseC(g) <==> forall early: nat, late: nat :: !BreaksWith(g, ReceiveOrder, early, late) by {
      OrderClause(g);
    }
  }

  lemma UnreadClause(g: Graph)
    ensures FifoClauseB(g) <==> forall early: nat, late: nat :: !BreaksWith(g, UnreadEarlier, early, late)
  {
    if forall early: nat, late: nat :: !BreaksWith(g, UnreadEarlier, early, late) {
      forall early: nat, late: nat, r: nat ensures !SkipsUnread(g, early, late, r) {
        assert !BreaksWith(g, UnreadEarlier, early, late);
      }
    }
  }

  lemma OrderClause(g: Graph)
    ensures FifoClauseC(g) <==> forall early: nat, late: nat :: !BreaksWith(g, ReceiveOrder, early, late)
  {
    if forall early: nat, late: nat :: !BreaksWith(g, ReceiveOrder, early, late) {
      forall early: nat, late: nat, r: nat, q: nat ensures !Overtakes(g, early, late, r, q) {
        assert !BreaksWith(g, ReceiveOrder, early, late);
      }
    }
  }

  // ----- channels and consumers -----

  type Channel = (ThreadId, ThreadId)

  function ChannelOf(g: Graph, s: nat): Channel
    requires IsSend(g, s)
  {
    (g.events[s].thread, g.events[s].op.destination)
  }

  /** The sends of a channel below `n`, ascending. */
  ghost predicate Lists(g: Graph, channel: Channel, n: nat, ids: seq<nat>)
  {
    && (forall i :: 0 <= i < |ids| ==> ids[i] < n && IsSend(g, ids[i]) && ChannelOf(g, ids[i]) == channel)
    && (forall i, j :: 0 <= i < j < |ids| ==> ids[i] < ids[j])
    && (forall s: nat :: s < n && IsSend(g, s) && ChannelOf(g, s) == channel ==> s in ids)
  }

  lemma ListsSkip(g: Graph, channel: Channel, n: nat, ids: seq<nat>)
    requires Lists(g, channel, n, ids) && !(IsSend(g, n) && ChannelOf(g, n) == channel)
    ensures Lists(g, channel, n + 1, ids)
  {
  }

  lemma ListsPush(g: Graph, channel: Channel, n: nat, ids: seq<nat>)
    requires Lists(g, channel, n, ids) && IsSend(g, n) && ChannelOf(g, n) == channel
    ensures Lists(g, channel, n + 1, ids + [n])
  {
    var longer := ids + [n];
    forall s: nat | s < n + 1 && IsSend(g, s) && ChannelOf(g, s) == channel ensures s in longer {
      if s == n { assert longer[|ids|] == n; }
    }
  }

  /** No send of the channel below `n`. */
  lemma ListsNone(g: Graph, channel: Channel, n: nat)
    requires forall s: nat :: s < n && IsSend(g, s) ==> ChannelOf(g, s) != channel
    ensures Lists(g, channel, n, [])
  {
  }

  method GroupSends(g: Graph) returns (groups: map<Channel, seq<nat>>)
    ensures forall c :: c in groups ==> Lists(g, c, |g.events|, groups[c])
    ensures forall s: nat :: IsSend(g, s) ==> ChannelOf(g, s) in groups
  {
    hide Lists, ChannelOf;
    groups := map[];
    var s := 0;
    while s < |g.events|
      invariant 0 <= s <= |g.events|
      invariant forall c :: c in groups ==> Lists(g, c, s, groups[c])
      invariant forall x: nat :: x < s && IsSend(g, x) ==> ChannelOf(g, x) in groups
    {
      ghost var before := groups;
      if g.events[s].op.Send? {
        var channel := ChannelOf(g, s);
        var ids := if channel in groups then groups[channel] else [];
        if channel !in groups { ListsNone(g, channel, s); }
        ListsPush(g, channel, s, ids);
        groups := groups[channel := ids + [s]];
      }
      forall c | c in groups ensures Lists(g, c, s + 1, groups[c]) {
        if !(IsSend(g, s) && ChannelOf(g, s) == c) { ListsSkip(g, c, s, before[c]); }
      }
      s := s + 1;
    }
  }

  ghost predicate Consumers(g: Graph, consumers: seq<Option<nat>>, k: nat)
  {
    && |consumers| == |g.events|
    && forall s: nat, r: nat :: s < |g.events| ==> (consumers[s] == Some(r) <==> Reads(g, r, s) && r < k)
  }

  /** An entry that counts: it joins a receive to a send of its channel whose payload it accepts. */
  predicate Consumes(g: Graph, r: nat, s: nat)
  {
    Reads(g, r, s) && GoodRead(g, r)
  }

  /** `last` is the greatest consumer of `s` below `k`, if there is one. */
  ghost predicate LastConsumer(g: Graph, s: nat, k: nat, last: Option<nat>)
  {
    && (last.Some? ==> last.value < k && Consumes(g, last.value, s))
    && (forall r: nat :: r < k && Consumes(g, r, s) ==> last.Some? && r <= last.value)
  }

  ghost predicate LastConsumers(g: Graph, consumers: seq<Option<nat>>, k: nat)
  {
    |consumers| == |g.events| && forall s :: 0 <= s < |g.events| ==> LastConsumer(g, s, k, consumers[s])
  }

  /** On a well-formed graph every entry counts and no send has two, so the last consumer is the reader. */
  lemma LastIsReader(g: Graph, consumers: seq<Option<nat>>, k: nat)
    requires WellFormed(g) && LastConsumers(g, consumers, k)
    ensures Consumers(g, consumers, k)
  {
    forall s: nat, r: nat | s < |g.events| ensures consumers[s] == Some(r) <==> Reads(g, r, s) && r < k {
      assert LastConsumer(g, s, k, consumers[s]);
      if Reads(g, r, s) && r < k { assert Consumes(g, r, s); }
    }
  }

  method SendConsumers(g: Graph) returns (consumers: seq<Option<nat>>)
    ensures LastConsumers(g, consumers, Span(g.rf))
  {
    hide Span;
    consumers := seq(|g.events|, _ => None);
    var r := 0;
    while r < Span(g.rf)
      invariant 0 <= r <= Span(g.rf) && LastConsumers(g, consumers, r)
    {
      if r in g.rf && g.rf[r].From? && GoodRead(g, r) {
        consumers := consumers[g.rf[r].send := Some(r)];
      }
      r := r + 1;
    }
  }

  lemma ConsumerIs(g: Graph, consumers: seq<Option<nat>>, s: nat)
    requires Consumers(g, consumers, Span(g.rf)) && s < |g.events|
    ensures consumers[s].Some? ==> Reads(g, consumers[s].value, s)
    ensures forall r: nat :: Reads(g, r, s) ==> consumers[s] == Some(r)
  {
  }

  lemma NoConsumer(g: Graph, consumers: seq<Option<nat>>, s: nat)
    requires Consumers(g, consumers, Span(g.rf)) && IsSend(g, s)
    ensures consumers[s].None? <==> Unread(g, s)
  {
    hide Span;
    ConsumerIs(g, consumers, s);
    if !Unread(g, s) {
      var r :| r in g.rf && g.rf[r] == From(s);
      assert Reads(g, r, s);
    }
  }

  // ----- one send against the earlier ones of its channel -----

  /** The test of the two inner loops. */
  predicate PairBreaks(g: Graph, consumers: seq<Option<nat>>, clause: Clause, early: nat, late: nat)
    requires |consumers| == |g.events| && early < |g.events| && late < |g.events|
  {
    && consumers[late].Some?
    && var r := consumers[late].value;
       match clause
       case UnreadEarlier => consumers[early].None? && Accepts(g, r, early)
       case ReceiveOrder =>
         && consumers[early].Some?
         && Po(g, r, consumers[early].value)
         && Accepts(g, r, early)
  }

  lemma PairMeaning(g: Graph, consumers: seq<Option<nat>>, clause: Clause, early: nat, late: nat)
    requires Consumers(g, consumers, Span(g.rf)) && early < late && IsSend(g, early) && IsSend(g, late)
    requires ChannelOf(g, early) == ChannelOf(g, late)
    ensures PairBreaks(g, consumers, clause, early, late) <==> BreaksWith(g, clause, early, late)
  {
    hide Span, Unread, Consumers;
    ConsumerCount(g, consumers);
    ConsumerIs(g, consumers, early);
    ConsumerIs(g, consumers, late);
    NoConsumer(g, consumers, early);
    assert SameChannel(g, early, late);
    if PairBreaks(g, consumers, clause, early, late) {
      match clause {
        case UnreadEarlier => assert SkipsUnread(g, early, late, consumers[late].value);
        case ReceiveOrder => assert Overtakes(g, early, late, consumers[late].value, consumers[early].value);
      }
    }
  }

  lemma ConsumerCount(g: Graph, consumers: seq<Option<nat>>)
    requires Consumers(g, consumers, Span(g.rf))
    ensures |consumers| == |g.events|
  {
  }

  lemma BreakerIsEarlier(g: Graph, clause: Clause, early: nat, late: nat)
    requires BreaksWith(g, clause, early, late)
    ensures early < late < |g.events| && IsSend(g, early) && IsSend(g, late)
            && ChannelOf(g, early) == ChannelOf(g, late)
  {
  }

  method BreaksAt(g: Graph, consumers: seq<Option<nat>>, channel: Channel, ids: seq<nat>, clause: Clause, k: nat)
    returns (bad: bool)
    requires Consumers(g, consumers, Span(g.rf)) && Lists(g, channel, |g.events|, ids) && k < |ids|
    ensures bad <==> Breaks(g, clause, ids[k])
  {
    hide Span, Consumers, BreaksWith, PairBreaks;
    ConsumerCount(g, consumers);
    var late := ids[k];
    var i := 0;
    while i < k
      invariant 0 <= i <= k
      invariant forall j :: 0 <= j < i ==> !BreaksWith(g, clause, ids[j], late)
    {
      PairMeaning(g, consumers, clause, ids[i], late);
      if PairBreaks(g, consumers, clause, ids[i], late) {
        return true;
      }
      i := i + 1;
    }
    bad := false;
    forall early: nat ensures !BreaksWith(g, clause, early, late) {
      if BreaksWith(g, clause, early, late) {
        BreakerIsEarlier(g, clause, early, late);
        var j :| 0 <= j < |ids| && ids[j] == early;
        assert false;
      }
    }
  }

  // ----- the two outer loops -----

  ghost function Among(g: Graph, clause: Clause, ids: seq<nat>): set<nat>
  {
    set late | late in ids && Breaks(g, clause, late)
  }

  lemma NotBefore(g: Graph, channel: Channel, ids: seq<nat>, k: nat)
    requires Lists(g, channel, |g.events|, ids) && k < |ids|
    ensures ids[k] !in ids[..k]
  {
  }

  lemma AmongNext(g: Graph, channel: Channel, clause: Clause, ids: seq<nat>, k: nat)
    requires Lists(g, channel, |g.events|, ids) && k < |ids|
    ensures |Among(g, clause, ids[..k + 1])| == |Among(g, clause, ids[..k])| +
            if Breaks(g, clause, ids[k]) then 1 else 0
  {
    hide Breaks, Lists;
    NotBefore(g, channel, ids, k);
    assert ids[..k + 1] == ids[..k] + [ids[k]];
    assert Among(g, clause, ids[..k + 1]) == Among(g, clause, ids[..k]) +
           if Breaks(g, clause, ids[k]) then {ids[k]} else {};
  }

  lemma RepeatMore(issue: Issue, n: nat)
    ensures Repeat(issue, n + 1) == Repeat(issue, n) + [issue]
  {
  }

  method ChannelIssues(g: Graph, consumers: seq<Option<nat>>, channel: Channel, ids: seq<nat>, clause: Clause)
    returns (issues: seq<Issue>)
    requires Consumers(g, consumers, Span(g.rf)) && Lists(g, channel, |g.events|, ids)
    ensures issues == Repeat(IssueOf(clause), |Among(g, clause, ids)|)
  {
    hide Span, Consumers, Breaks, Lists, IssueOf;
    issues := [];
    var k := 0;
    assert Among(g, clause, ids[..0]) == {};
    while k < |ids|
      invariant 0 <= k <= |ids| && issues == Repeat(IssueOf(clause), |Among(g, clause, ids[..k])|)
    {
      var bad := BreaksAt(g, consumers, channel, ids, clause, k);
      AmongNext(g, channel, clause, ids, k);
      if bad {
        RepeatMore(IssueOf(clause), |Among(g, clause, ids[..k])|);
        issues := issues + [IssueOf(clause)];
      }
      k := k + 1;
    }
    assert ids[..|ids|] == ids;
  }

  ghost function BreakersIn(g: Graph, clause: Clause, channels: set<Channel>): set<nat>
  {
    set late | 0 <= late < |g.events| && IsSend(g, late) && ChannelOf(g, late) in channels && Breaks(g, clause, late)
  }

  lemma ChannelAdds(g: Graph, clause: Clause, done: set<Channel>, channel: Channel, ids: seq<nat>)
    requires Lists(g, channel, |g.events|, ids) && channel !in done
    ensures |BreakersIn(g, clause, done + {channel})| == |BreakersIn(g, clause, done)| + |Among(g, clause, ids)|
  {
    hide Breaks;
    var a, b := BreakersIn(g, clause, done), Among(g, clause, ids);
    assert a !! b;
    assert BreakersIn(g, clause, done + {channel}) == a + b;
  }

  lemma AllChannels(g: Graph, clause: Clause, channels: set<Channel>)
    requires forall s: nat :: IsSend(g, s) ==> ChannelOf(g, s) in channels
    ensures BreakersIn(g, clause, channels) == Breakers(g, clause)
  {
    forall late | late in Breakers(g, clause) ensures late in BreakersIn(g, clause, channels) {
      var early: nat :| BreaksWith(g, clause, early, late);
      BreakerIsEarlier(g, clause, early, late);
    }
  }

  /** The channels may be visited in any order. */
  method ClauseIssues(g: Graph, groups: map<Channel, seq<nat>>, consumers: seq<Option<nat>>, clause: Clause)
    returns (issues: seq<Issue>)
    requires Consumers(g, consumers, Span(g.rf))
    requires forall c :: c in groups ==> Lists(g, c, |g.events|, groups[c])
    requires forall s: nat :: IsSend(g, s) ==> ChannelOf(g, s) in groups
    ensures issues == Repeat(IssueOf(clause), |Breakers(g, clause)|)
  {
    hide Span, Consumers, Breaks, Lists, Breakers, BreakersIn, Among, IssueOf;
    issues := [];
    var left := groups.Keys;
    ghost var done: set<Channel> := {};
    NoneIn(g, clause);
    while left != {}
      invariant left + done == groups.Keys && left !! done
      invariant issues == Repeat(IssueOf(clause), |BreakersIn(g, clause, done)|)
      decreases |left|
    {
      var channel :| channel in left;
      var more := ChannelIssues(g, consumers, channel, groups[channel], clause);
      ChannelAdds(g, clause, done, channel, groups[channel]);
      RepeatJoined(IssueOf(clause), |issues|, |more|);
      issues := issues + more;
      left := left - {channel};
      done := done + {channel};
    }
    assert done == groups.Keys;
    AllChannels(g, clause, done);
  }

  lemma RepeatJoined(issue: Issue, m: nat, n: nat)
    ensures Repeat(issue, m) + Repeat(issue, n) == Repeat(issue, m + n)
  {
  }

  lemma NoneIn(g: Graph, clause: Clause)
    ensures BreakersIn(g, clause, {}) == {}
  {
  }

  method CheckFifo(g: Graph) returns (issues: seq<Issue>)
    requires WellFormed(g)
    ensures issues == FifoIssues(g)
  {
    hide Span, Consumers, LastConsumers, Breakers, Lists, WellFormed;
    var groups := GroupSends(g);
    var consumers := SendConsumers(g);
    LastIsReader(g, consumers, Span(g.rf));
    var unread := ClauseIssues(g, groups, consumers, UnreadEarlier);
    var order := ClauseIssues(g, groups, consumers, ReceiveOrder);
    issues := unread + order;
  }
}
