/** Every run of two-phase commit: messages may be lost, reordered or duplicated and timers may fire at any time. */
module CommitRuns {
  import opened Optional
  import opened TwoPhaseCommit

  datatype Packet = Packet(to: nat, message: Message)

  /** The coordinator's thread goes on, was terminated before its decision went out, or threw. */
  datatype Status = Running | Crashed | Broken

  /** `sent` holds every packet ever sent: a packet may be delivered any number of times, in any order, or never.
      `cast`, `expired` and `voteExpired` remember the votes cast and the timeouts that took effect. */
  datatype System = System(
    coordinator: CoordinatorState, status: Status, timer: Option<nat>, voteExpired: bool,
    parts: seq<ParticipantState>, timers: seq<Option<nat>>, cast: seq<Option<Vote>>, expired: seq<bool>,
    sent: set<Packet>)

  function Packets(effects: seq<Effect>): set<Packet>
  {
    set i | 0 <= i < |effects| && effects[i].Send? :: Packet(effects[i].destination, effects[i].message)
  }

  predicate Decides(effects: seq<Effect>)
  {
    exists i :: 0 <= i < |effects| && effects[i].Send? && effects[i].message.DecisionMsg?
  }

  function Init(n: nat, bug: bool): System
  {
    var r := Started(n, bug);
    System(r.state, Running, Some(VOTE_TIMER), false,
           seq(n, (i: nat) => ParticipantState(i + 1, WaitPrepare, None)), seq(n, _ => None), seq(n, _ => None),
           seq(n, _ => false), Packets(r.effects))
  }

  datatype Action =
    | DeliverToCoordinator(message: Message, crash: bool)
    | CoordinatorTimer(crash: bool)
    | DeliverTo(p: nat, message: Message, vote: Vote)
    | ParticipantTimer(p: nat)

  predicate Enabled(s: System, a: Action)
  {
    match a
    case DeliverToCoordinator(m, _) => s.status.Running? && Sized(s.coordinator) && Packet(COORDINATOR, m) in s.sent
    case CoordinatorTimer(_) => s.status.Running? && s.timer.Some?
    case DeliverTo(p, m, _) => p < |s.parts| && p < |s.timers| && p < |s.cast| && Packet(p + 1, m) in s.sent
    case ParticipantTimer(p) => p < |s.parts| && p < |s.timers| && p < |s.expired| && s.timers[p].Some?
  }

  /** What the coordinator's handler did; a crash happens when the first decision is about to be sent. */
  function CoordinatorReacts(s: System, r: Reaction<CoordinatorState>, crash: bool): System
  {
    match r
    case Failure(state) => s.(coordinator := state, status := Broken)
    case Reaction(state, effects, _) =>
      if crash && Decides(effects) then s.(status := Crashed)
      else
        var timer := TimerAfter(s.timer, effects);
        s.(coordinator := state, timer := if timer.Some? then timer.value else None, sent := s.sent + Packets(effects))
  }

  function ParticipantReacts(s: System, p: nat, r: Reaction<ParticipantState>): System
    requires p < |s.parts| && p < |s.timers|
  {
    match r
    case Failure(_) => s
    case Reaction(state, effects, _) =>
      var timer := TimerAfter(s.timers[p], effects);
      s.(parts := s.parts[p := state], timers := s.timers[p := if timer.Some? then timer.value else None],
         sent := s.sent + Packets(effects))
  }

  function TimerReaction(s: System): Reaction<CoordinatorState>
    requires s.timer.Some?
  {
    if s.timer.value == VOTE_TIMER then VoteTimeout(s.coordinator) else AckTimeout(s.coordinator)
  }

  function Next(s: System, a: Action): System
    requires Enabled(s, a)
  {
    match a
    case DeliverToCoordinator(m, crash) => CoordinatorReacts(s, CoordinatorReceives(s.coordinator, m), crash)
    case CoordinatorTimer(crash) =>
      var late := s.timer.value == VOTE_TIMER && s.coordinator.phase.CollectingVotes?;
      CoordinatorReacts(s.(timer := None, voteExpired := s.voteExpired || late), TimerReaction(s), crash)
    case DeliverTo(p, m, vote) =>
      var votes := s.parts[p].stage.WaitPrepare? && m.Prepare?;
      ParticipantReacts(s.(cast := if votes then s.cast[p := Some(vote)] else s.cast), p,
                        ParticipantReceives(s.parts[p], m, vote))
    case ParticipantTimer(p) =>
      ParticipantReacts(s.(timers := s.timers[p := None],
                           expired := s.expired[p := s.expired[p] || s.parts[p].stage.WaitDecision?]), p,
                           DecisionTimeout(s.parts[p]))
  }

  ghost predicate Reaches(s: System, actions: seq<Action>, t: System)
    decreases |actions|
  {
    if actions == [] then t == s
    else Enabled(s, actions[0]) && Reaches(Next(s, actions[0]), actions[1..], t)
  }

  // ----- the invariant -----

  function CountTrue(s: seq<bool>): nat
  {
    if s == [] then 0 else CountTrue(s[..|s| - 1]) + if s[|s| - 1] then 1 else 0
  }

  lemma {:induction false} CountUpdate(s: seq<bool>, i: nat)
    requires i < |s| && !s[i]
    ensures CountTrue(s[i := true]) == CountTrue(s) + 1
    decreases |s|
  {
    var n := |s| - 1;
    if i == n {
      assert s[i := true][..n] == s[..n];
    } else {
      CountUpdate(s[..n], i);
      assert s[i := true][..n] == s[..n][i := true];
    }
  }

  lemma {:induction false} CountFalse(n: nat)
    ensures CountTrue(seq(n, _ => false)) == 0
  {
    if n > 0 {
      CountFalse(n - 1);
      assert seq(n, _ => false)[..n - 1] == seq(n - 1, _ => false);
    }
  }

  lemma {:induction false} CountMissing(s: seq<bool>)
    requires s != [] && !s[0]
    ensures CountTrue(s) <= |s| - 1
    decreases |s|
  {
    if |s| > 1 {
      CountMissing(s[..|s| - 1]);
    }
  }

  /** When all but the first are counted, all but the first are set. */
  lemma {:induction false} CountFull(s: seq<bool>)
    requires s != [] && !s[0] && CountTrue(s) >= |s| - 1
    ensures forall i :: 1 <= i < |s| ==> s[i]
    decreases |s|
  {
    if |s| > 1 {
      CountMissing(s[..|s| - 1]);
      CountFull(s[..|s| - 1]);
    }
  }

  ghost predicate DecisionsAre(s: System, d: Decision)
  {
    forall k :: k in s.sent && k.message.DecisionMsg? ==> k.message.decision == d
  }

  ghost predicate NoDecision(s: System)
  {
    forall k :: k in s.sent ==> !k.message.DecisionMsg?
  }

  ghost predicate AllVotedYes(s: System)
  {
    forall p :: 0 <= p < |s.cast| ==> s.cast[p] == Some(Yes)
  }

  ghost predicate CoordinatorInv(s: System)
  {
    var c := s.coordinator;
    && Sized(c) && c.participants == |s.parts| == |s.cast|
    && (s.status.Running? ==>
          && !c.voteSeen[0] && c.votes == CountTrue(c.voteSeen)
          && (match c.phase
              case CollectingVotes => c.decision.None? && NoDecision(s) && s.timer == Some(VOTE_TIMER) && !s.voteExpired
              case CollectingAcks => c.decision.Some? && s.timer == Some(ACK_TIMER)
              case Finished => c.decision.Some? && s.timer.None?)
          && (c.phase.CollectingVotes? && c.allYes ==>
                forall p :: 0 <= p < |s.cast| && c.voteSeen[p + 1] ==> s.cast[p] == Some(Yes))
          && (c.decision.Some? ==> DecisionsAre(s, c.decision.value)))
    && (!s.status.Running? ==> NoDecision(s))
    && (s.status.Running? && c.decision == Some(Commit) ==> AllVotedYes(s) && !s.voteExpired)
  }

  ghost predicate PartInv(s: System, p: nat)
    requires p < |s.parts| && |s.parts| == |s.timers| == |s.cast| == |s.expired|
  {
    var q := s.parts[p];
    && q.id == p + 1
    && match q.stage
       case WaitPrepare => s.cast[p].None? && q.outcome.None? && s.timers[p].None? && !s.expired[p]
       case WaitDecision => s.cast[p].Some? && q.outcome.None? && s.timers[p] == Some(DECISION_TIMER) && !s.expired[p]
       case Over =>
         && s.cast[p].Some? && q.outcome.Some? && s.timers[p].None?
         && (if s.expired[p] then q.outcome == Some(Abort) else Packet(p + 1, DecisionMsg(q.outcome.value)) in s.sent)
  }

  ghost predicate Inv(s: System)
  {
    && |s.parts| == |s.timers| == |s.cast| == |s.expired|
    && CoordinatorInv(s)
    && (forall p :: 0 <= p < |s.parts| ==> PartInv(s, p))
    && (forall k :: k in s.sent && k.message.VoteMsg? ==>
          1 <= k.message.from <= |s.cast| && s.cast[k.message.from - 1] == Some(k.message.vote))
  }

  // ----- what the effects do -----

  lemma TimerCancels(timer: Option<nat>, id: nat)
    ensures TimerAfter(timer, [CancelTimer(id)]) == Some(if timer == Some(id) then None else timer)
  {
    assert [CancelTimer(id)][1..] == [];
  }

  /** A broadcast sends only the decision and leaves the acknowledgement timer active. */
  lemma BroadcastEffects(s: CoordinatorState, d: Decision, before: seq<Effect>, timer: Option<nat>)
    requires (before == [] && timer.None?) || (before == [CancelTimer(VOTE_TIMER)] && timer == Some(VOTE_TIMER))
    ensures var r := Broadcast(s, d, before);
            && TimerAfter(timer, r.effects) == Some(Some(ACK_TIMER))
            && (forall k :: k in Packets(r.effects) ==> k.message == DecisionMsg(d))
  {
    TimersOfBroadcast(s, d, before, timer);
  }

  // ----- every step keeps the invariant -----

  lemma InitInv(n: nat, bug: bool)
    ensures Inv(Init(n, bug))
  {
    CountFalse(n + 1);
    var s := Init(n, bug);
    forall k | k in s.sent ensures k.message.Prepare? {}
  }

  /** More packets from participants, or none, keep what the participants' packets promise. */
  lemma DecisionSent(s: System, r: Reaction<CoordinatorState>, d: Decision)
    requires Inv(s) && s.status.Running? && r.Reaction? && r.state.decision == Some(d)
             && !r.state.phase.CollectingVotes?
    requires Sized(r.state) && r.state.participants == |s.parts| && !r.state.voteSeen[0]
             && r.state.votes == CountTrue(r.state.voteSeen)
    requires NoDecision(s) && (forall k :: k in Packets(r.effects) ==> k.message == DecisionMsg(d))
    requires TimerAfter(s.timer, r.effects) == Some(Some(ACK_TIMER)) && r.state.phase.CollectingAcks?
    requires d == Commit ==> AllVotedYes(s) && !s.voteExpired
    ensures Inv(CoordinatorReacts(s, r, false))
  {
    var t := CoordinatorReacts(s, r, false);
    forall p | 0 <= p < |t.parts| ensures PartInv(t, p) { assert PartInv(s, p); }
  }

  lemma SilentReaction(s: System, r: Reaction<CoordinatorState>)
    requires Inv(s) && s.status.Running? && r.Reaction? && (r.effects == [] || r.effects == [CancelTimer(ACK_TIMER)])
    ensures var t := CoordinatorReacts(s, r, false);
            t.sent == s.sent && t.timer == if r.effects != [] && s.timer == Some(ACK_TIMER) then None else s.timer
  {
    TimerCancels(s.timer, ACK_TIMER);
    assert Packets(r.effects) == {};
  }

  /** Only the coordinator moved and nothing was sent. */
  lemma PartsUntouched(s: System, t: System)
    requires Inv(s) && t.parts == s.parts && t.timers == s.timers && t.cast == s.cast && t.expired == s.expired
             && t.sent == s.sent
    requires CoordinatorInv(t)
    ensures Inv(t)
  {
    forall p | 0 <= p < |t.parts| ensures PartInv(t, p) { assert PartInv(s, p); }
  }

  lemma CrashKeeps(s: System, r: Reaction<CoordinatorState>)
    requires Inv(s) && s.status.Running? && NoDecision(s)
    ensures r.Reaction? && Decides(r.effects) ==> Inv(CoordinatorReacts(s, r, true))
    ensures r.Failure? && Sized(r.state) && r.state.participants == |s.parts| ==> Inv(CoordinatorReacts(s, r, true))
  {
    if r.Reaction? && Decides(r.effects) { PartsUntouched(s, CoordinatorReacts(s, r, true)); }
    if r.Failure? && Sized(r.state) && r.state.participants == |s.parts| {
      PartsUntouched(s, CoordinatorReacts(s, r, true));
    }
  }

  /** A counted vote is the vote that was cast. */
  lemma VoteCounted(s: System, from: nat, vote: Vote)
    requires Inv(s) && s.status.Running? && s.coordinator.phase.CollectingVotes?
    requires Packet(COORDINATOR, VoteMsg(from, vote)) in s.sent && Known(s.coordinator, from)
             && !s.coordinator.voteSeen[from]
    ensures var c := s.coordinator;
            var seen := c.voteSeen[from := true];
            && CountTrue(seen) == c.votes + 1
            && (c.allYes && vote.Yes? ==> forall p :: 0 <= p < |s.cast| && seen[p + 1] ==> s.cast[p] == Some(Yes))
            && (CountTrue(seen) >= c.participants && c.allYes && vote.Yes? ==> AllVotedYes(s))
  {
    var c := s.coordinator;
    var seen := c.voteSeen[from := true];
    CountUpdate(c.voteSeen, from);
    var k := Packet(COORDINATOR, VoteMsg(from, vote));
    assert k.message.VoteMsg? && s.cast[from - 1] == Some(vote);
    if CountTrue(seen) >= c.participants && c.allYes && vote.Yes? {
      CountFull(seen);
    }
  }

  lemma VoteDecides(s: System, from: nat, vote: Vote, crash: bool)
    requires Inv(s) && s.status.Running? && s.coordinator.phase.CollectingVotes?
             && Packet(COORDINATOR, VoteMsg(from, vote)) in s.sent
    requires Known(s.coordinator, from) && !s.coordinator.voteSeen[from] && OnVote(s.coordinator, from, vote).Reaction?
    requires s.coordinator.votes + 1 >= s.coordinator.participants
    ensures Inv(CoordinatorReacts(s, OnVote(s.coordinator, from, vote), crash))
  {
    hide PartInv;
    var c := s.coordinator;
    var r := OnVote(c, from, vote);
    VoteCounted(s, from, vote);
    var t := c.(voteSeen := c.voteSeen[from := true], votes := c.votes + 1, allYes := c.allYes && vote.Yes?);
    var d := if t.allYes then Commit else Abort;
    BroadcastEffects(t, d, [CancelTimer(VOTE_TIMER)], s.timer);
    DecisionSent(s, r, d);
    CrashKeeps(s, r);
  }

  lemma VoteKeeps(s: System, from: nat, vote: Vote, crash: bool)
    requires Inv(s) && s.status.Running? && s.coordinator.phase.CollectingVotes?
             && Packet(COORDINATOR, VoteMsg(from, vote)) in s.sent
    ensures Inv(CoordinatorReacts(s, OnVote(s.coordinator, from, vote), crash))
  {
    hide PartInv;
    var c := s.coordinator;
    var r := OnVote(c, from, vote);
    if !Known(c, from) || c.voteSeen[from] {
      SilentReaction(s, r);
      PartsUntouched(s, CoordinatorReacts(s, r, crash));
    } else if r.Reaction? && c.votes + 1 >= c.participants {
      VoteDecides(s, from, vote, crash);
    } else {
      VoteCounted(s, from, vote);
      if r.Reaction? { SilentReaction(s, r); }
      PartsUntouched(s, CoordinatorReacts(s, r, crash));
    }
  }

  lemma AckKeeps(s: System, from: nat, crash: bool)
    requires Inv(s) && s.status.Running? && s.coordinator.phase.CollectingAcks?
    ensures Inv(CoordinatorReacts(s, OnAck(s.coordinator, from), crash))
  {
    hide PartInv;
    var r := OnAck(s.coordinator, from);
    SilentReaction(s, r);
    PartsUntouched(s, CoordinatorReacts(s, r, crash));
  }

  lemma CoordinatorDeliveryKeeps(s: System, m: Message, crash: bool)
    requires Inv(s) && Enabled(s, DeliverToCoordinator(m, crash))
    ensures Inv(Next(s, DeliverToCoordinator(m, crash)))
  {
    hide PartInv, OnVote, OnAck;
    var c := s.coordinator;
    if c.phase.CollectingVotes? && m.VoteMsg? {
      VoteKeeps(s, m.from, m.vote, crash);
    } else if c.phase.CollectingAcks? && m.Ack? {
      AckKeeps(s, m.from, crash);
    } else {
      SilentReaction(s, CoordinatorReceives(c, m));
      PartsUntouched(s, Next(s, DeliverToCoordinator(m, crash)));
    }
  }

  lemma VoteTimeoutKeeps(s: System, crash: bool)
    requires Inv(s) && s.status.Running? && s.coordinator.phase.CollectingVotes?
    ensures Inv(CoordinatorReacts(s.(timer := None, voteExpired := true), VoteTimeout(s.coordinator), crash))
  {
    var late, r := s.(timer := None, voteExpired := true), VoteTimeout(s.coordinator);
    BroadcastEffects(s.coordinator.(allYes := false), Abort, [], None);
    var t := CoordinatorReacts(late, r, crash);
    forall p | 0 <= p < |t.parts| ensures PartInv(t, p) { assert PartInv(s, p); }
  }

  lemma CoordinatorTimerKeeps(s: System, crash: bool)
    requires Inv(s) && Enabled(s, CoordinatorTimer(crash))
    ensures Inv(Next(s, CoordinatorTimer(crash)))
  {
    if s.coordinator.phase.CollectingVotes? {
      VoteTimeoutKeeps(s, crash);
    } else {
      var t := Next(s, CoordinatorTimer(crash));
      assert Packets([]) == {};
      PartsUntouched(s, t);
    }
  }

  /** Participants send no decision, and the votes they send are the votes they cast. */
  lemma ParticipantMoves(s: System, t: System, p: nat)
    requires Inv(s) && p < |s.parts| && |t.parts| == |t.timers| == |t.cast| == |t.expired| == |s.parts|
    requires t.coordinator == s.coordinator && t.status == s.status && t.timer == s.timer
             && t.voteExpired == s.voteExpired
    requires s.sent <= t.sent && forall k :: k in t.sent - s.sent ==> !k.message.DecisionMsg?
    requires forall k ::
               k in t.sent - s.sent && k.message.VoteMsg? ==>
                 k.message.from == p + 1 && t.cast[p] == Some(k.message.vote)
    requires forall q :: 0 <= q < |s.parts| && q != p ==>
               t.parts[q] == s.parts[q] && t.timers[q] == s.timers[q] && t.cast[q] == s.cast[q]
               && t.expired[q] == s.expired[q]
    requires s.cast[p].Some? ==> t.cast[p] == s.cast[p]
    requires PartInv(t, p)
    ensures Inv(t)
  {
    forall q | 0 <= q < |t.parts| ensures PartInv(t, q) { assert PartInv(s, q); }
    forall k | k in t.sent && k.message.DecisionMsg? ensures k in s.sent {}
    assert CoordinatorInv(t);
  }

  lemma ParticipantDeliveryKeeps(s: System, p: nat, m: Message, vote: Vote)
    requires Inv(s) && Enabled(s, DeliverTo(p, m, vote))
    ensures Inv(Next(s, DeliverTo(p, m, vote)))
  {
    hide CoordinatorInv;
    var t, r := Next(s, DeliverTo(p, m, vote)), ParticipantReceives(s.parts[p], m, vote);
    assert PartInv(s, p);
    ParticipantTimers(s.timers[p], s.parts[p], m, vote);
    assert PartInv(t, p);
    ParticipantMoves(s, t, p);
  }

  /** The one timer of a participant is set by its vote and cancelled by the decision. */
  lemma ParticipantTimerKeeps(s: System, p: nat)
    requires Inv(s) && Enabled(s, ParticipantTimer(p))
    ensures Inv(Next(s, ParticipantTimer(p)))
  {
    hide CoordinatorInv;
    var t := Next(s, ParticipantTimer(p));
    assert PartInv(s, p);
    assert Packets([]) == {};
    assert PartInv(t, p);
    ParticipantMoves(s, t, p);
  }

  lemma NextInv(s: System, a: Action)
    requires Inv(s) && Enabled(s, a)
    ensures Inv(Next(s, a))
  {
    hide Inv, Next, Enabled;
    match a
    case DeliverToCoordinator(m, crash) => CoordinatorDeliveryKeeps(s, m, crash);
    case CoordinatorTimer(crash) => CoordinatorTimerKeeps(s, crash);
    case DeliverTo(p, m, vote) => ParticipantDeliveryKeeps(s, p, m, vote);
    case ParticipantTimer(p) => ParticipantTimerKeeps(s, p);
  }

  lemma {:induction false} ReachesInv(s: System, actions: seq<Action>, t: System)
    requires Inv(s) && Reaches(s, actions, t)
    ensures Inv(t)
    decreases |actions|
  {
    hide Inv, Next, Enabled;
    if actions != [] {
      NextInv(s, actions[0]);
      ReachesInv(Next(s, actions[0]), actions[1..], t);
    }
  }

  // ----- the results, for every run -----

  /** All decision messages ever sent carry one value. */
  lemma DecisionsAgree(n: nat, bug: bool, actions: seq<Action>, s: System, a: Packet, b: Packet)
    requires Reaches(Init(n, bug), actions, s)
    requires a in s.sent && b in s.sent && a.message.DecisionMsg? && b.message.DecisionMsg?
    ensures a.message == b.message && s.coordinator.decision == Some(a.message.decision)
  {
    hide Reaches, Init;
    InitInv(n, bug);
    ReachesInv(Init(n, bug), actions, s);
  }

  /** Commit is sent only if every participant voted Yes and the vote timer never expired. */
  lemma CommitIsUnanimous(n: nat, bug: bool, actions: seq<Action>, s: System, k: Packet)
    requires Reaches(Init(n, bug), actions, s) && k in s.sent && k.message == DecisionMsg(Commit)
    ensures AllVotedYes(s) && !s.voteExpired
  {
    hide Reaches, Init;
    InitInv(n, bug);
    ReachesInv(Init(n, bug), actions, s);
  }

  /** After a crash no participant has received, or will receive, a decision. */
  lemma CrashIsSilent(n: nat, bug: bool, actions: seq<Action>, s: System, p: nat)
    requires Reaches(Init(n, bug), actions, s) && s.status.Crashed? && p < |s.parts|
    ensures NoDecision(s) && |s.expired| == |s.parts|
            && (s.parts[p].stage.Over? ==> s.expired[p] && s.parts[p].outcome == Some(Abort))
  {
    hide Reaches, Init;
    InitInv(n, bug);
    ReachesInv(Init(n, bug), actions, s);
    assert PartInv(s, p);
  }

  /** A participant that is over agrees with the coordinator's decision exactly unless it timed out on a commit. */
  lemma OutcomeMatchesExactly(n: nat, bug: bool, actions: seq<Action>, s: System, p: nat)
    requires Reaches(Init(n, bug), actions, s) && p < |s.parts| && s.parts[p].stage.Over?
    requires s.status.Running? && s.coordinator.decision.Some?
    ensures |s.expired| == |s.parts|
    ensures s.parts[p].outcome == s.coordinator.decision <==> !(s.expired[p] && s.coordinator.decision == Some(Commit))
  {
    hide Reaches, Init;
    InitInv(n, bug);
    ReachesInv(Init(n, bug), actions, s);
    assert PartInv(s, p);
    if !s.expired[p] {
      var k := Packet(p + 1, DecisionMsg(s.parts[p].outcome.value));
      assert k in s.sent && k.message.DecisionMsg?;
    } else {
      assert s.coordinator.decision.value == Commit || s.coordinator.decision.value == Abort;
    }
  }

  // ----- a run in which two participants end differently -----

  lemma {:induction false} ReachesOneMore(s: System, actions: seq<Action>, t: System, a: Action)
    requires Reaches(s, actions, t) && Enabled(t, a)
    ensures Reaches(s, actions + [a], Next(t, a))
    decreases |actions|
  {
    hide Next, Enabled;
    if actions == [] {
      assert [a][1..] == [];
    } else {
      ReachesOneMore(Next(s, actions[0]), actions[1..], t, a);
      assert (actions + [a])[1..] == actions[1..] + [a];
    }
  }

  lemma SentToAll(n: nat, m: Message, p: nat, before: seq<Effect>, after: seq<Effect>)
    requires p < n
    ensures Packet(p + 1, m) in Packets(before + ToAll(n, m) + after)
  {
    var effects := before + ToAll(n, m) + after;
    assert effects[|before| + p] == Send(p + 1, m);
  }

  /** Participant `p`, which has not voted, gets Prepare and votes Yes. */
  lemma VotesYes(s: System, p: nat)
    requires Inv(s) && p < |s.parts| && s.parts[p].stage.WaitPrepare? && Packet(p + 1, Prepare) in s.sent
    ensures var a := DeliverTo(p, Prepare, Yes);
            Enabled(s, a) &&
            var t := Next(s, a);
            && t.parts == s.parts[p := s.parts[p].(stage := WaitDecision)] && t.coordinator == s.coordinator
               && t.status == s.status
            && t.timers == s.timers[p := Some(DECISION_TIMER)]
            && s.sent <= t.sent && Packet(COORDINATOR, VoteMsg(p + 1, Yes)) in t.sent
  {
    assert PartInv(s, p);
    ParticipantTimers(s.timers[p], s.parts[p], Prepare, Yes);
    var effects := ParticipantReceives(s.parts[p], Prepare, Yes).effects;
    assert effects[0] == Send(COORDINATOR, VoteMsg(p + 1, Yes));
  }

  /** The run: both vote Yes, the second gives up waiting, the votes arrive, the first gets the decision. */
  lemma OutcomesMayDiffer() returns (actions: seq<Action>, s: System)
    ensures Reaches(Init(2, false), actions, s)
    ensures |s.parts| == 2 && s.parts[0].outcome == Some(Commit) && s.parts[1].outcome == Some(Abort)
  {
    hide Reaches, Inv, TimerAfter, CountTrue;
    var s0 := Init(2, false);
    InitInv(2, false);
    SentToAll(2, Prepare, 0, [], [SetTimer(VOTE_TIMER)]);
    SentToAll(2, Prepare, 1, [], [SetTimer(VOTE_TIMER)]);
    assert [] + ToAll(2, Prepare) + [SetTimer(VOTE_TIMER)] == Started(2, false).effects;
    Start(s0);
    VotesYes(s0, 0);
    var a0 := DeliverTo(0, Prepare, Yes);
    var s1 := Next(s0, a0);
    ReachesOneMore(s0, [], s0, a0);
    NextInv(s0, a0);
    VotesYes(s1, 1);
    var a1 := DeliverTo(1, Prepare, Yes);
    var s2 := Next(s1, a1);
    ReachesOneMore(s0, [] + [a0], s1, a1);
    NextInv(s1, a1);
    actions, s := LateCommit(s0, [] + [a0] + [a1], s2);
  }

  lemma Start(s: System)
    ensures Reaches(s, [], s)
  {
  }

  lemma LateCommit(s0: System, sofar: seq<Action>, s2: System) returns (actions: seq<Action>, s: System)
    requires Inv(s2) && Reaches(s0, sofar, s2) && |s2.parts| == 2 && s2.status.Running?
    requires s2.coordinator == Started(2, false).state && s2.parts[0].stage.WaitDecision?
             && s2.parts[1].stage.WaitDecision?
    requires Packet(COORDINATOR, VoteMsg(1, Yes)) in s2.sent && Packet(COORDINATOR, VoteMsg(2, Yes)) in s2.sent
    ensures Reaches(s0, actions, s)
    ensures |s.parts| == 2 && s.parts[0].outcome == Some(Commit) && s.parts[1].outcome == Some(Abort)
  {
    hide Reaches, TimerAfter, CountTrue;
    assert PartInv(s2, 0) && PartInv(s2, 1);
    var a2, a3, a4, a5 := ParticipantTimer(1), DeliverToCoordinator(VoteMsg(1, Yes), false),
        DeliverToCoordinator(VoteMsg(2, Yes), false), DeliverTo(0, DecisionMsg(Commit), Yes);
    var s3 := Next(s2, a2);
    ReachesOneMore(s0, sofar, s2, a2);
    var s4 := Next(s3, a3);
    ReachesOneMore(s0, sofar + [a2], s3, a3);
    assert s4.coordinator == s3.coordinator.(voteSeen := [false, true, false], votes := 1);
    var s5 := Next(s4, a4);
    ReachesOneMore(s0, sofar + [a2] + [a3], s4, a4);
    SentToAll(2, DecisionMsg(Commit), 0, [CancelTimer(VOTE_TIMER)], [SetTimer(ACK_TIMER)]);
    ReachesOneMore(s0, sofar + [a2] + [a3] + [a4], s5, a5);
    actions, s := sofar + [a2] + [a3] + [a4] + [a5], Next(s5, a5);
  }
}
