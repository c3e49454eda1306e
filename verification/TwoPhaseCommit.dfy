/** Two-phase commit with timeouts: the two protocol objects, and every run of them over a network that may
    lose, reorder and duplicate messages, with timers firing at any moment and an optional crash of the
    coordinator just before it sends its decision. */
module TwoPhaseCommit {
  import opened Optional

  datatype Vote = Yes | No

  datatype Decision = Commit | Abort

  datatype Message = Prepare | VoteMsg(from: nat, vote: Vote) | DecisionMsg(decision: Decision) | Ack(from: nat)

  datatype Effect = Send(destination: nat, message: Message) | SetTimer(id: nat) | CancelTimer(id: nat)

  const COORDINATOR := 0
  const VOTE_TIMER := 1
  const ACK_TIMER := 2
  const DECISION_TIMER := 1

  // ----- the coordinator -----

  datatype Phase = CollectingVotes | CollectingAcks | Finished

  datatype CoordinatorState = CoordinatorState(
    participants: nat, bugOnP1No: bool, phase: Phase, decision: Option<Decision>,
    allYes: bool, votes: nat, acks: nat, voteSeen: seq<bool>, ackSeen: seq<bool>)

  /** How a handler ends: with effects and a flag that more input is needed, or with an exception. */
  datatype Reaction<S> = Reaction(state: S, effects: seq<Effect>, more: bool) | Failure(state: S)

  function ToAll(n: nat, m: Message): (effects: seq<Effect>)
    ensures |effects| == n && forall i :: 0 <= i < n ==> effects[i] == Send(i + 1, m)
  {
    seq(n, (i: nat) => Send(i + 1, m))
  }

  function Started(n: nat, bug: bool): Reaction<CoordinatorState>
  {
    Reaction(CoordinatorState(n, bug, CollectingVotes, None, true, 0, 0, seq(n + 1, _ => false),
                              seq(n + 1, _ => false)), ToAll(n, Prepare) + [SetTimer(VOTE_TIMER)], true)
  }

  function Broadcast(s: CoordinatorState, d: Decision, before: seq<Effect>): Reaction<CoordinatorState>
  {
    Reaction(s.(decision := Some(d), phase := CollectingAcks),
             before + ToAll(s.participants, DecisionMsg(d)) + [SetTimer(ACK_TIMER)], true)
  }

  predicate Known(s: CoordinatorState, id: nat)
  {
    1 <= id <= s.participants
  }

  predicate Sized(s: CoordinatorState)
  {
    |s.voteSeen| == |s.ackSeen| == s.participants + 1
  }

  function OnVote(s: CoordinatorState, from: nat, vote: Vote): Reaction<CoordinatorState>
    requires Sized(s)
  {
    if !Known(s, from) || s.voteSeen[from] then Reaction(s, [], true)
    else
      var t := s.(voteSeen := s.voteSeen[from := true], votes := s.votes + 1, allYes := s.allYes && vote.Yes?);
      if vote.No? && s.bugOnP1No && from == 1 then Failure(t)
      else if t.votes < t.participants then Reaction(t, [], true)
      else Broadcast(t, if t.allYes then Commit else Abort, [CancelTimer(VOTE_TIMER)])
  }

  function OnAck(s: CoordinatorState, from: nat): Reaction<CoordinatorState>
    requires Sized(s)
  {
    if !Known(s, from) || s.ackSeen[from] then Reaction(s, [], true)
    else
      var t := s.(ackSeen := s.ackSeen[from := true], acks := s.acks + 1);
      if t.acks < t.participants then Reaction(t, [], true)
      else Reaction(t.(phase := Finished), [CancelTimer(ACK_TIMER)], false)
  }

  function CoordinatorReceives(s: CoordinatorState, m: Message): Reaction<CoordinatorState>
    requires Sized(s)
  {
    match s.phase
    case CollectingVotes => if m.VoteMsg? then OnVote(s, m.from, m.vote) else Reaction(s, [], true)
    case CollectingAcks => if m.Ack? then OnAck(s, m.from) else Reaction(s, [], true)
    case Finished => Reaction(s, [], false)
  }

  function VoteTimeout(s: CoordinatorState): Reaction<CoordinatorState>
  {
    if !s.phase.CollectingVotes? then Reaction(s, [], true) else Broadcast(s.(allYes := false), Abort, [])
  }

  function AckTimeout(s: CoordinatorState): Reaction<CoordinatorState>
  {
    if !s.phase.CollectingAcks? then Reaction(s, [], true) else Reaction(s.(phase := Finished), [], false)
  }

  class Coordinator {
    const participants: nat
    const bugOnP1No: bool
    var phase: Phase
    var decision: Option<Decision>
    var allYes: bool
    var votes: nat
    var acks: nat
    var voteSeen: seq<bool>
    var ackSeen: seq<bool>

    function State(): CoordinatorState
      reads this
    {
      CoordinatorState(participants, bugOnP1No, phase, decision, allYes, votes, acks, voteSeen, ackSeen)
    }

    constructor (participants: nat, bugOnP1No: bool)
      ensures this.participants == participants && this.bugOnP1No == bugOnP1No
    {
      this.participants, this.bugOnP1No := participants, bugOnP1No;
      phase, decision, allYes, votes, acks, voteSeen, ackSeen := CollectingVotes, None, true, 0, 0, [], [];
    }

    /** One message to each participant in turn. */
    method SendToAll(m: Message) returns (effects: seq<Effect>)
      ensures effects == ToAll(participants, m)
    {
      effects := [];
      var pid := 1;
      while pid <= participants
        invariant 1 <= pid <= participants + 1 && |effects| == pid - 1
        invariant forall i :: 0 <= i < pid - 1 ==> effects[i] == Send(i + 1, m)
      {
        effects := effects + [Send(pid, m)];
        pid := pid + 1;
      }
    }

    method Start() returns (effects: seq<Effect>, more: bool)
      modifies this
      ensures Reaction(State(), effects, more) == Started(participants, bugOnP1No)
    {
      phase, allYes, votes, acks, decision := CollectingVotes, true, 0, 0, None;
      voteSeen, ackSeen := seq(participants + 1, _ => false), seq(participants + 1, _ => false);
      effects := SendToAll(Prepare);
      effects := effects + [SetTimer(VOTE_TIMER)];
      more := true;
    }

    method BroadcastDecision() returns (effects: seq<Effect>)
      requires decision.Some?
      modifies this`phase
      ensures phase == CollectingAcks && effects
              == ToAll(participants, DecisionMsg(decision.value)) + [SetTimer(ACK_TIMER)]
    {
      effects := SendToAll(DecisionMsg(decision.value));
      effects := effects + [SetTimer(ACK_TIMER)];
      phase := CollectingAcks;
    }

    method Receive(m: Message) returns (effects: seq<Effect>, more: bool, failed: bool)
      requires Sized(State())
      modifies this
      ensures old(CoordinatorReceives(State(), m)) ==
              if failed then Failure(State()) else Reaction(State(), effects, more)
    {
      effects, more, failed := [], true, false;
      match phase {
        case CollectingVotes =>
          if !m.VoteMsg? || !(1 <= m.from <= participants) || voteSeen[m.from] {
            return;
          }
          voteSeen := voteSeen[m.from := true];
          votes := votes + 1;
          if m.vote == No {
            allYes := false;
            if bugOnP1No && m.from == 1 {
              failed := true;
              return;
            }
          }
          if votes < participants {
            return;
          }
          decision := Some(if allYes then Commit else Abort);
          var sends := BroadcastDecision();
          effects := [CancelTimer(VOTE_TIMER)] + sends;
          assert effects == [CancelTimer(VOTE_TIMER)] + ToAll(participants, DecisionMsg(decision.value))
                 + [SetTimer(ACK_TIMER)];
        case CollectingAcks =>
          if !m.Ack? || !(1 <= m.from <= participants) || ackSeen[m.from] {
            return;
          }
          ackSeen := ackSeen[m.from := true];
          acks := acks + 1;
          if acks < participants {
            return;
          }
          effects := [CancelTimer(ACK_TIMER)];
          phase := Finished;
          more := false;
        case Finished =>
          more := false;
      }
    }

    method OnVoteTimeout() returns (effects: seq<Effect>, more: bool)
      modifies this
      ensures old(VoteTimeout(State())) == Reaction(State(), effects, more)
    {
      effects, more := [], true;
      if phase != CollectingVotes {
        return;
      }
      allYes := false;
      decision := Some(Abort);
      var sends := BroadcastDecision();
      effects := sends;
      assert effects == [] + ToAll(participants, DecisionMsg(Abort)) + [SetTimer(ACK_TIMER)];
    }

    method OnAckTimeout() returns (effects: seq<Effect>, more: bool)
      modifies this
      ensures old(AckTimeout(State())) == Reaction(State(), effects, more)
    {
      effects, more := [], true;
      if phase != CollectingAcks {
        return;
      }
      phase := Finished;
      more := false;
    }
  }

  // ----- a participant -----

  datatype Stage = WaitPrepare | WaitDecision | Over

  datatype ParticipantState = ParticipantState(id: nat, stage: Stage, outcome: Option<Decision>)

  function ParticipantReceives(s: ParticipantState, m: Message, vote: Vote): Reaction<ParticipantState>
  {
    match s.stage
    case WaitPrepare =>
      if !m.Prepare? then Reaction(s, [], true)
      else Reaction(s.(stage := WaitDecision), [Send(COORDINATOR, VoteMsg(s.id, vote)), SetTimer(DECISION_TIMER)], true)
    case WaitDecision =>
      if !m.DecisionMsg? then Reaction(s, [], true)
      else Reaction(s.(stage := Over, outcome := Some(m.decision)),
                    [CancelTimer(DECISION_TIMER), Send(COORDINATOR, Ack(s.id))], false)
    case Over => Reaction(s, [], false)
  }

  function DecisionTimeout(s: ParticipantState): Reaction<ParticipantState>
  {
    if !s.stage.WaitDecision? then Reaction(s, [], true)
    else Reaction(s.(stage := Over, outcome := Some(Abort)), [], false)
  }

  class Participant {
    const id: nat
    var stage: Stage
    var outcome: Option<Decision>

    function State(): ParticipantState
      reads this
    {
      ParticipantState(id, stage, outcome)
    }

    constructor (id: nat)
      ensures this.id == id
    {
      this.id := id;
      stage, outcome := WaitPrepare, None;
    }

    method Start() returns (more: bool)
      modifies this
      ensures State() == ParticipantState(id, WaitPrepare, None) && more
    {
      stage, outcome, more := WaitPrepare, None, true;
    }

    /** `vote` is what the environment answers when asked for one. */
    method Receive(m: Message, vote: Vote) returns (effects: seq<Effect>, more: bool)
      modifies this
      ensures old(ParticipantReceives(State(), m, vote)) == Reaction(State(), effects, more)
    {
      effects, more := [], true;
      match stage {
        case WaitPrepare =>
          if m.Prepare? {
            effects := [Send(COORDINATOR, VoteMsg(id, vote)), SetTimer(DECISION_TIMER)];
            stage := WaitDecision;
          }
        case WaitDecision =>
          if m.DecisionMsg? {
            effects := [CancelTimer(DECISION_TIMER), Send(COORDINATOR, Ack(id))];
            outcome := Some(m.decision);
            stage, more := Over, false;
          }
        case Over =>
          more := false;
      }
    }

    method OnDecisionTimeout() returns (effects: seq<Effect>, more: bool)
      modifies this
      ensures old(DecisionTimeout(State())) == Reaction(State(), effects, more)
    {
      effects, more := [], true;
      if stage == WaitDecision {
        outcome := Some(Abort);
        stage, more := Over, false;
      }
    }
  }

  // ----- timers: at most one per node is active -----

  function ApplyTimer(timer: Option<nat>, e: Effect): Option<Option<nat>>
  {
    match e
    case Send(_, _) => Some(timer)
    case SetTimer(id) => if timer.Some? && timer != Some(id) then None else Some(Some(id))
    case CancelTimer(id) => Some(if timer == Some(id) then None else timer)
  }

  /** The active timer after the effects; nothing when a second timer would have become active. */
  function TimerAfter(timer: Option<nat>, effects: seq<Effect>): Option<Option<nat>>
    decreases |effects|
  {
    if effects == [] then Some(timer)
    else
      var next := ApplyTimer(timer, effects[0]);
      if next.None? then None else TimerAfter(next.value, effects[1..])
  }

  lemma {:induction false} TimersOverSends(timer: Option<nat>, n: nat, first: nat, message: Message, rest: seq<Effect>)
    requires first <= n
    ensures TimerAfter(timer, ToAll(n, message)[first..] + rest) == TimerAfter(timer, rest)
    decreases n - first
  {
    var effects := ToAll(n, message)[first..] + rest;
    if first == n {
      assert effects == rest;
    } else {
      assert effects[1..] == ToAll(n, message)[first + 1..] + rest;
      TimersOverSends(timer, n, first + 1, message, rest);
    }
  }

  lemma TimersOfBroadcast(s: CoordinatorState, d: Decision, before: seq<Effect>, timer: Option<nat>)
    requires (before == [] && timer.None?) || (before == [CancelTimer(VOTE_TIMER)] && timer == Some(VOTE_TIMER))
    ensures TimerAfter(timer, Broadcast(s, d, before).effects) == Some(Some(ACK_TIMER))
  {
    var sends := ToAll(s.participants, DecisionMsg(d));
    assert sends[0..] == sends;
    TimersOverSends(None, s.participants, 0, DecisionMsg(d), [SetTimer(ACK_TIMER)]);
    assert [SetTimer(ACK_TIMER)][1..] == [];
    var effects := before + sends + [SetTimer(ACK_TIMER)];
    if before == [] {
      assert effects == sends + [SetTimer(ACK_TIMER)];
    } else {
      assert effects[1..] == sends + [SetTimer(ACK_TIMER)];
    }
  }

  /** A participant's timer is active exactly while it waits for the decision. */
  lemma ParticipantTimers(timer: Option<nat>, q: ParticipantState, m: Message, vote: Vote)
    requires timer == if q.stage.WaitDecision? then Some(DECISION_TIMER) else None
    ensures var r := ParticipantReceives(q, m, vote);
            TimerAfter(timer, r.effects) == Some(if r.state.stage.WaitDecision? then Some(DECISION_TIMER) else None)
  {
    var effects := ParticipantReceives(q, m, vote).effects;
    if |effects| == 2 {
      assert effects[1..] == [effects[1]] && [effects[1]][1..] == [];
      var between := ApplyTimer(timer, effects[0]).value;
      assert TimerAfter(between, effects[1..]) == ApplyTimer(between, effects[1]);
    }
  }
}
