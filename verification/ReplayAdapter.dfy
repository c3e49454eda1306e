/** The adapter that turns a protocol object into a thread function: it runs the object from its start, feeds it
    what was observed before, and stops at the first operation that is not in the past. */
module ReplayAdapter {
  import opened Optional
  import opened TwoPhaseCommit

  datatype Node = C(coordinator: CoordinatorState) | P(participant: ParticipantState)

  /** What the adapter answers: the operation to record next, the end of the thread, or an adapter failure. */
  datatype Label =
    | SendLabel(destination: nat, message: Message)
    | VoteChoice
    | CrashChoice
    | ReceiveLabel(blocking: bool)
    | ErrorLabel

  datatype Answer = Captured(operation: Label) | Ended | SimulationFailed

  /** An observed value. */
  datatype Entry = Bottom | VoteValue(vote: Vote) | CrashValue(crash: bool) | MessageValue(message: Message)

  // ----- the object as a machine that performs one operation at a time -----

  datatype Condition = Live | Stopped | Threw | Conflict

  /** `todo` is what is left of the running handler; `asking` holds while its vote is being asked for. */
  datatype Machine = Machine(node: Node, todo: seq<Effect>, more: bool, asking: bool, timer: Option<nat>,
                             crashAsked: bool, condition: Condition)

  /** Timer operations happen on the way to the next operation. */
  function Settled(m: Machine): Machine
    decreases |m.todo|
  {
    if m.todo == [] || m.todo[0].Send? || !m.condition.Live? then m
    else
      var timer := ApplyTimer(m.timer, m.todo[0]);
      if timer.None? then m.(condition := Conflict) else Settled(m.(todo := m.todo[1..], timer := timer.value))
  }

  function AfterReaction<S>(m: Machine, node: Node, r: Reaction<S>): Machine
  {
    match r
    case Failure(_) => m.(condition := Threw)
    case Reaction(_, effects, more) => Settled(m.(node := node, todo := effects, more := more, asking := false))
  }

  function Begin(node: Node): Machine
  {
    match node
    case C(c) =>
      var r := Started(c.participants, c.bugOnP1No);
      Settled(Machine(C(r.state), r.effects, true, false, None, false, Live))
    case P(p) => Machine(P(ParticipantState(p.id, WaitPrepare, None)), [], true, false, None, false, Live)
  }

  function NextLabel(crashes: bool, m: Machine): Option<Label>
  {
    match m.condition
    case Stopped => None
    case Conflict => None
    case Threw => Some(ErrorLabel)
    case Live =>
      if m.asking then Some(VoteChoice)
      else if m.todo != [] then
        if !m.todo[0].Send? then None
        else if crashes && !m.crashAsked && m.todo[0].message.DecisionMsg? then Some(CrashChoice)
        else Some(SendLabel(m.todo[0].destination, m.todo[0].message))
      else if m.more then Some(ReceiveLabel(m.timer.None?))
      else None
  }

  /** The engine's observation for a recorded operation: none for a send, bottom only where a timer may fire. */
  predicate Suits(l: Label, seen: Option<Entry>)
  {
    match l
    case SendLabel(_, _) => seen.None?
    case VoteChoice => seen.Some? && seen.value.VoteValue?
    case CrashChoice => seen.Some? && seen.value.CrashValue?
    case ReceiveLabel(blocking) => seen.Some? && (seen.value.MessageValue? || (seen.value.Bottom? && !blocking))
    case ErrorLabel => false
  }

  predicate AsksForVote(node: Node, m: Message)
  {
    node.P? && node.participant.stage.WaitPrepare? && m.Prepare?
  }

  function Delivered(m: Machine, message: Message, vote: Vote): Machine
    requires m.node.C? ==> Sized(m.node.coordinator)
  {
    match m.node
    case C(c) => var r := CoordinatorReceives(c, message); AfterReaction(m, C(r.state), r)
    case P(p) => var r := ParticipantReceives(p, message, vote); AfterReaction(m, P(r.state), r)
  }

  function Fired(m: Machine, id: nat): Machine
  {
    match m.node
    case C(c) => var r := if id == VOTE_TIMER then VoteTimeout(c) else AckTimeout(c); AfterReaction(m, C(r.state), r)
    case P(p) => var r := DecisionTimeout(p); AfterReaction(m, P(r.state), r)
  }

  function Advance(crashes: bool, m: Machine, seen: Option<Entry>): Machine
    requires NextLabel(crashes, m).Some? && Suits(NextLabel(crashes, m).value, seen)
             && (m.node.C? ==> Sized(m.node.coordinator))
  {
    match NextLabel(crashes, m).value
    case SendLabel(_, _) => Settled(m.(todo := m.todo[1..]))
    case VoteChoice => Delivered(m, Prepare, seen.value.vote)
    case CrashChoice => if seen.value.crash then m.(condition := Stopped) else m.(crashAsked := true)
    case ReceiveLabel(_) =>
      if seen.value.Bottom? then Fired(m.(timer := None), m.timer.value)
      else if AsksForVote(m.node, seen.value.message) then m.(asking := true)
      else Delivered(m, seen.value.message, Yes)
  }

  // ----- invariant: at most one timer is ever active -----

  /** The timer a node has when no handler is running. */
  function RestingTimer(node: Node): Option<nat>
  {
    match node
    case C(c) =>
      (match c.phase
       case CollectingVotes => Some(VOTE_TIMER)
       case CollectingAcks => Some(ACK_TIMER)
       case Finished => None)
    case P(p) => if p.stage.WaitDecision? then Some(DECISION_TIMER) else None
  }

  ghost predicate Sound(m: Machine)
  {
    && (m.node.C? ==> Sized(m.node.coordinator))
    && (m.condition.Live? ==>
          && TimerAfter(m.timer, m.todo) == Some(RestingTimer(m.node))
          && (m.todo != [] ==> m.todo[0].Send?)
          && (m.asking ==> m.node.P? && m.node.participant.stage.WaitPrepare? && m.todo == []))
    && !m.condition.Conflict?
  }

  lemma {:induction false} SettledSound(m: Machine)
    requires m.condition.Live? && !m.asking && (m.node.C? ==> Sized(m.node.coordinator))
    requires TimerAfter(m.timer, m.todo) == Some(RestingTimer(m.node))
    ensures Sound(Settled(m))
    decreases |m.todo|
  {
    if m.todo != [] && !m.todo[0].Send? {
      SettledSound(m.(todo := m.todo[1..], timer := ApplyTimer(m.timer, m.todo[0]).value));
    }
  }

  lemma BeginSound(node: Node)
    ensures Sound(Begin(node))
  {
    if node.C? {
      var r := Started(node.coordinator.participants, node.coordinator.bugOnP1No);
      var sends := ToAll(node.coordinator.participants, Prepare);
      assert sends[0..] == sends && r.effects == sends[0..] + [SetTimer(VOTE_TIMER)];
      TimersOverSends(None, node.coordinator.participants, 0, Prepare, [SetTimer(VOTE_TIMER)]);
      assert [SetTimer(VOTE_TIMER)][1..] == [];
      SettledSound(Machine(C(r.state), r.effects, true, false, None, false, Live));
    }
  }

  lemma CoordinatorReactionTimers(c: CoordinatorState, message: Message)
    requires Sized(c)
    ensures var r := CoordinatorReceives(c, message);
            Sized(r.state) && (r.Reaction? ==>
                                 TimerAfter(RestingTimer(C(c)), r.effects) == Some(RestingTimer(C(r.state))))
  {
    var r := CoordinatorReceives(c, message);
    if r.Reaction? && |r.effects| > 1 {
      var t := r.state.(decision := None, phase := CollectingVotes);
      TimersOfBroadcast(t, r.state.decision.value, [CancelTimer(VOTE_TIMER)], Some(VOTE_TIMER));
      assert r.effects == Broadcast(t, r.state.decision.value, [CancelTimer(VOTE_TIMER)]).effects;
    } else if r.Reaction? && r.effects != [] {
      assert r.effects[1..] == [];
    }
  }

  lemma DeliveredSound(m: Machine, message: Message, vote: Vote)
    requires Sound(m) && m.condition.Live? && m.todo == []
    ensures Sound(Delivered(m, message, vote))
  {
    match m.node
    case C(c) =>
      var r := CoordinatorReceives(c, message);
      CoordinatorReactionTimers(c, message);
      if r.Reaction? { SettledSound(m.(node := C(r.state), todo := r.effects, more := r.more, asking := false)); }
    case P(p) =>
      var r := ParticipantReceives(p, message, vote);
      ParticipantTimers(m.timer, p, message, vote);
      SettledSound(m.(node := P(r.state), todo := r.effects, more := r.more, asking := false));
  }

  lemma FiredSound(m: Machine)
    requires Sound(m) && m.condition.Live? && m.todo == [] && m.timer.Some? && !m.asking
    ensures Sound(Fired(m.(timer := None), m.timer.value))
  {
    var late := m.(timer := None);
    match m.node
    case C(c) =>
      var r := if m.timer.value == VOTE_TIMER then VoteTimeout(c) else AckTimeout(c);
      if c.phase.CollectingVotes? { TimersOfBroadcast(c.(allYes := false), Abort, [], None); }
      SettledSound(late.(node := C(r.state), todo := r.effects, more := r.more, asking := false));
    case P(p) =>
      var r := DecisionTimeout(p);
      SettledSound(late.(node := P(r.state), todo := r.effects, more := r.more, asking := false));
  }

  /** No operation makes a second timer active or fires a timer that is not there. */
  lemma AdvanceSound(crashes: bool, m: Machine, seen: Option<Entry>)
    requires Sound(m) && NextLabel(crashes, m).Some? && Suits(NextLabel(crashes, m).value, seen)
    ensures Sound(Advance(crashes, m, seen))
  {
    match NextLabel(crashes, m).value
    case SendLabel(_, _) => SettledSound(m.(todo := m.todo[1..]));
    case VoteChoice => DeliveredSound(m, Prepare, seen.value.vote);
    case CrashChoice =>
    case ReceiveLabel(_) =>
      if seen.value.Bottom? {
        FiredSound(m);
      } else if !AsksForVote(m.node, seen.value.message) {
        DeliveredSound(m, seen.value.message, Yes);
      }
  }

  // ----- replaying from scratch -----

  lemma {:induction false} SettledKeepsNode(m: Machine)
    ensures Settled(m).node == m.node
    decreases |m.todo|
  {
    if m.todo != [] && !m.todo[0].Send? && m.condition.Live? && ApplyTimer(m.timer, m.todo[0]).Some? {
      SettledKeepsNode(m.(todo := m.todo[1..], timer := ApplyTimer(m.timer, m.todo[0]).value));
    }
  }

  predicate NodeSized(m: Machine)
  {
    m.node.C? ==> Sized(m.node.coordinator)
  }

  lemma DeliveredSized(m: Machine, message: Message, vote: Vote)
    requires NodeSized(m)
    ensures NodeSized(Delivered(m, message, vote))
  {
    match m.node
    case C(c) =>
      var r := CoordinatorReceives(c, message);
      if r.Reaction? { SettledKeepsNode(m.(node := C(r.state), todo := r.effects, more := r.more, asking := false)); }
    case P(p) =>
      var r := ParticipantReceives(p, message, vote);
      SettledKeepsNode(m.(node := P(r.state), todo := r.effects, more := r.more, asking := false));
  }

  lemma FiredSized(m: Machine, id: nat)
    requires NodeSized(m)
    ensures NodeSized(Fired(m, id))
  {
    match m.node
    case C(c) =>
      var r := if id == VOTE_TIMER then VoteTimeout(c) else AckTimeout(c);
      SettledKeepsNode(m.(node := C(r.state), todo := r.effects, more := r.more, asking := false));
    case P(p) =>
      var r := DecisionTimeout(p);
      SettledKeepsNode(m.(node := P(r.state), todo := r.effects, more := r.more, asking := false));
  }

  lemma AdvanceSized(crashes: bool, m: Machine, seen: Option<Entry>)
    requires NodeSized(m) && NextLabel(crashes, m).Some? && Suits(NextLabel(crashes, m).value, seen)
    ensures NodeSized(Advance(crashes, m, seen))
  {
    match NextLabel(crashes, m).value
    case SendLabel(_, _) => SettledKeepsNode(m.(todo := m.todo[1..]));
    case VoteChoice => DeliveredSized(m, Prepare, seen.value.vote);
    case CrashChoice =>
    case ReceiveLabel(_) =>
      if seen.value.Bottom? {
        FiredSized(m.(timer := None), m.timer.value);
      } else if !AsksForVote(m.node, seen.value.message) {
        DeliveredSized(m, seen.value.message, Yes);
      }
  }

  /** An entry that does not suit the operation: a choice of the wrong kind is reported as a protocol error. */
  function Mismatch(l: Label, e: Entry): Answer
  {
    if (l.VoteChoice? || l.CrashChoice?) && !e.Bottom? then Captured(ErrorLabel) else SimulationFailed
  }

  /** An answer, and the observations that were not looked at. */
  datatype Replayed = Replayed(answer: Answer, left: seq<Entry>)

  /** The answer `k` operations from `m` on, with `trace` as the observations. */
  function ReplayFrom(crashes: bool, m: Machine, trace: seq<Entry>, k: nat): Replayed
    requires NodeSized(m)
    decreases k
  {
    if m.condition.Conflict? then Replayed(SimulationFailed, trace)
    else
      match NextLabel(crashes, m)
      case None => Replayed(Ended, trace)
      case Some(l) =>
        if k == 0 || l.ErrorLabel? then Replayed(Captured(l), trace)
        else if l.SendLabel? then
          AdvanceSized(crashes, m, None);
          ReplayFrom(crashes, Advance(crashes, m, None), trace, k - 1)
        else if trace == [] then Replayed(SimulationFailed, [])
        else if !Suits(l, Some(trace[0])) then Replayed(Mismatch(l, trace[0]), trace[1..])
        else
          AdvanceSized(crashes, m, Some(trace[0]));
          ReplayFrom(crashes, Advance(crashes, m, Some(trace[0])), trace[1..], k - 1)
  }

  // ----- coherence -----

  /** What a thread leaves in its trace: the observations of its operations, sends aside. */
  function Entries(history: seq<Option<Entry>>): seq<Entry>
  {
    if history == [] then []
    else (if history[0].Some? then [history[0].value] else []) + Entries(history[1..])
  }

  /** Each operation of the history is the one the machine was at, and its observation suits it. */
  ghost predicate Coherent(crashes: bool, m: Machine, history: seq<Option<Entry>>)
    requires NodeSized(m)
    decreases |history|
  {
    history == [] ||
    (&& NextLabel(crashes, m).Some? && Suits(NextLabel(crashes, m).value, history[0])
     && (AdvanceSized(crashes, m, history[0]); Coherent(crashes, Advance(crashes, m, history[0]), history[1..])))
  }

  ghost function Play(crashes: bool, m: Machine, history: seq<Option<Entry>>): Machine
    requires NodeSized(m) && Coherent(crashes, m, history)
    decreases |history|
  {
    if history == [] then m
    else AdvanceSized(crashes, m, history[0]); Play(crashes, Advance(crashes, m, history[0]), history[1..])
  }

  /** What a machine is about to do, as an answer. */
  function Upcoming(crashes: bool, m: Machine): Answer
  {
    match NextLabel(crashes, m)
    case None => Ended
    case Some(l) => Captured(l)
  }

  /** Replaying a coherent past never fails, answers the operation that comes next, and reads exactly the
      observations of that past: whatever follows them in the trace is left over. */
  lemma {:induction false} ReplayIsCoherent(crashes: bool, m: Machine, history: seq<Option<Entry>>, extra: seq<Entry>)
    requires Sound(m) && Coherent(crashes, m, history)
    ensures var now := Play(crashes, m, history);
            && Sound(now)
            && ReplayFrom(crashes, m, Entries(history) + extra, |history|) == Replayed(Upcoming(crashes, now), extra)
    decreases |history|
  {
    hide Advance;
    if history == [] {
      assert Entries(history) + extra == extra;
    } else {
      AdvanceSound(crashes, m, history[0]);
      AdvanceSized(crashes, m, history[0]);
      ReplayIsCoherent(crashes, Advance(crashes, m, history[0]), history[1..], extra);
      if history[0].Some? {
        assert Entries(history) == [history[0].value] + Entries(history[1..]);
        assert (Entries(history) + extra)[1..] == Entries(history[1..]) + extra;
      } else {
        assert Entries(history) == Entries(history[1..]);
      }
    }
  }

  lemma {:induction false} EntriesSplit(history: seq<Option<Entry>>, k: nat)
    requires k <= |history|
    ensures Entries(history) == Entries(history[..k]) + Entries(history[k..])
    decreases k
  {
    if k == 0 {
      assert history[0..] == history;
    } else {
      EntriesSplit(history[1..], k - 1);
      assert history[..k][1..] == history[1..][..k - 1] && history[k..] == history[1..][k - 1..];
    }
  }

  lemma {:induction false} CoherentPrefix(crashes: bool, m: Machine, history: seq<Option<Entry>>, k: nat)
    requires NodeSized(m) && Coherent(crashes, m, history) && k <= |history|
    ensures Coherent(crashes, m, history[..k])
    decreases k
  {
    hide Advance;
    if k > 0 {
      AdvanceSized(crashes, m, history[0]);
      CoherentPrefix(crashes, Advance(crashes, m, history[0]), history[1..], k - 1);
      assert history[..k][1..] == history[1..][..k - 1];
    }
  }

  /** Asked at an earlier step of a coherent past, the replay answers that step's operation and has read exactly
      what the operations before it observed. */
  lemma EarlierStep(crashes: bool, m: Machine, history: seq<Option<Entry>>, k: nat)
    requires Sound(m) && Coherent(crashes, m, history) && k <= |history|
    ensures Coherent(crashes, m, history[..k])
    ensures ReplayFrom(crashes, m, Entries(history), k)
            == Replayed(Upcoming(crashes, Play(crashes, m, history[..k])), Entries(history[k..]))
  {
    CoherentPrefix(crashes, m, history, k);
    EntriesSplit(history, k);
    ReplayIsCoherent(crashes, m, history[..k], Entries(history[k..]));
  }

  // ----- the adapter itself -----

  class ReplayState {
    const target: nat
    const trace: seq<Entry>
    var ioCount: nat
    var consumed: nat
    var timer: Option<nat>
    var crashAsked: bool

    constructor (target: nat, trace: seq<Entry>)
      ensures this.target == target && this.trace == trace
      ensures ioCount == 0 && consumed == 0 && timer.None? && !crashAsked
    {
      this.target, this.trace := target, trace;
      ioCount, consumed, timer, crashAsked := 0, 0, None, false;
    }

    /** The observations still unread. */
    function Left(): seq<Entry>
      requires consumed <= |trace|
      reads this
    {
      trace[consumed..]
    }

    /** Counts an operation; it is replayed when it lies before the target. */
    method Operation() returns (past: bool)
      modifies this`ioCount
      ensures ioCount == old(ioCount) + 1 && past == (old(ioCount) < target)
    {
      var current := ioCount;
      ioCount := ioCount + 1;
      past := current < target;
    }

    /** The next observation, if the trace still has one. */
    method Observe() returns (e: Option<Entry>)
      requires consumed <= |trace|
      modifies this`consumed
      ensures consumed <= |trace| && old(consumed) <= consumed
      ensures e == (if old(Left()) == [] then None else Some(old(Left())[0]))
      ensures Left() == (if e.None? then [] else old(Left())[1..])
    {
      if consumed >= |trace| {
        return None;
      }
      e := Some(trace[consumed]);
      consumed := consumed + 1;
    }
  }

  /** The object in the middle of a handler, before pending timer operations. */
  function Running(node: Node, todo: seq<Effect>, more: bool, timer: Option<nat>, crashAsked: bool): Machine
  {
    Machine(node, todo, more, false, timer, crashAsked, Live)
  }

  /** One operation of a machine that is at `l`, replayed. */
  lemma ReplaySteps(crashes: bool, m: Machine, trace: seq<Entry>, k: nat)
    requires NodeSized(m) && !m.condition.Conflict? && NextLabel(crashes, m).Some? && k > 0
             && !NextLabel(crashes, m).value.ErrorLabel?
    ensures var l := NextLabel(crashes, m).value;
            ReplayFrom(crashes, m, trace, k) ==
            if l.SendLabel? then (AdvanceSized(crashes, m, None); ReplayFrom(crashes, Advance(crashes, m, None),
                trace, k - 1))
            else if trace == [] then Replayed(SimulationFailed, [])
            else if !Suits(l, Some(trace[0])) then Replayed(Mismatch(l, trace[0]), trace[1..])
            else (AdvanceSized(crashes, m, Some(trace[0])); ReplayFrom(crashes, Advance(crashes, m, Some(trace[0])),
                trace[1..], k - 1))
  {
    hide Advance;
  }

  lemma SettledSized(m: Machine)
    requires NodeSized(m)
    ensures NodeSized(Settled(m))
  {
    SettledKeepsNode(m);
  }

  ghost predicate InRange(s: ReplayState)
    reads s
  {
    s.ioCount <= s.target && s.consumed <= |s.trace|
  }

  /** The answer this object will lead to, and what it will leave of the trace. */
  ghost function Outlook(crashes: bool, m: Machine, s: ReplayState): Replayed
    requires NodeSized(m) && InRange(s)
    reads s
  {
    SettledSized(m);
    ReplayFrom(crashes, Settled(m), s.Left(), s.target - s.ioCount)
  }

  /** A send, preceded by the crash choice when it is the first decision. */
  method PerformSend(s: ReplayState, crashes: bool, ghost node: Node, todo: seq<Effect>, more: bool)
    returns (answer: Option<Answer>, rest: seq<Effect>)
    requires todo != [] && todo[0].Send? && InRange(s) && NodeSized(Running(node, todo, more, s.timer, s.crashAsked))
    modifies s
    ensures InRange(s) && s.timer == old(s.timer) && (answer.None? ==> s.ioCount > old(s.ioCount))
    ensures var was := old(Outlook(crashes, Running(node, todo, more, s.timer, s.crashAsked), s));
            var now := Running(node, rest, more, s.timer, s.crashAsked);
            if answer.Some? then Replayed(answer.value, s.Left()) == was
            else NodeSized(now) && Outlook(crashes, now, s) == was
  {
    hide ReplayFrom, Suits, Mismatch;
    ghost var m, k, left := Running(node, todo, more, s.timer, s.crashAsked), s.target - s.ioCount, s.Left();
    rest := todo;
    AtBoundary(crashes, m, left);
    if k > 0 { ReplaySteps(crashes, m, left, k); }
    var asks := crashes && !s.crashAsked && todo[0].message.DecisionMsg?;
    if s.ioCount >= s.target {
      return Some(Captured(if asks then CrashChoice else SendLabel(todo[0].destination, todo[0].message))), todo;
    }
    var _ := s.Operation();
    if !asks {
      rest := todo[1..];
      return None, rest;
    }
    var e := s.Observe();
    if e.None? {
      return Some(SimulationFailed), todo;
    }
    ChoiceSuits(CrashChoice, e.value);
    if !e.value.CrashValue? {
      return Some(if e.value.Bottom? then SimulationFailed else Captured(ErrorLabel)), todo;
    }
    if e.value.crash {
      StoppedEnds(crashes, m.(condition := Stopped), left[1..], k - 1);
      return Some(Ended), todo;
    }
    s.crashAsked := true;
    answer := None;
  }

  lemma AtBoundary(crashes: bool, m: Machine, trace: seq<Entry>)
    requires NodeSized(m) && !m.condition.Conflict? && NextLabel(crashes, m).Some?
    ensures ReplayFrom(crashes, m, trace, 0) == Replayed(Captured(NextLabel(crashes, m).value), trace)
  {
  }

  lemma ChoiceSuits(l: Label, e: Entry)
    requires l.VoteChoice? || l.CrashChoice?
    ensures Suits(l, Some(e)) <==> (if l.VoteChoice? then e.VoteValue? else e.CrashValue?)
    ensures Mismatch(l, e) == if e.Bottom? then SimulationFailed else Captured(ErrorLabel)
  {
  }

  lemma StoppedEnds(crashes: bool, m: Machine, trace: seq<Entry>, k: nat)
    requires NodeSized(m) && m.condition.Stopped?
    ensures ReplayFrom(crashes, m, trace, k) == Replayed(Ended, trace)
  {
  }

  lemma ThrewErrors(crashes: bool, m: Machine, trace: seq<Entry>, k: nat)
    requires NodeSized(m) && m.condition.Threw?
    ensures ReplayFrom(crashes, m, trace, k) == Replayed(Captured(ErrorLabel), trace)
  {
  }

  // ----- the protocol object -----

  datatype ProtocolObject = ACoordinator(coordinator: Coordinator) | AParticipant(participant: Participant)

  function Footprint(obj: ProtocolObject): object
  {
    match obj
    case ACoordinator(c) => c
    case AParticipant(p) => p
  }

  function NodeOf(obj: ProtocolObject): Node
    reads Footprint(obj)
  {
    match obj
    case ACoordinator(c) => C(c.State())
    case AParticipant(p) => P(p.State())
  }

  /** Starts the object. */
  method StartObject(obj: ProtocolObject) returns (todo: seq<Effect>, more: bool)
    modifies Footprint(obj)
    ensures var m := Running(NodeOf(obj), todo, more, None, false);
            old(Begin(NodeOf(obj))) == Settled(m) && NodeSized(m)
  {
    match obj {
      case ACoordinator(c) =>
        todo, more := c.Start();
      case AParticipant(p) =>
        more := p.Start();
        todo := [];
    }
  }

  /** The object handles a message; `vote` is what it is told when it asks for one. */
  method React(obj: ProtocolObject, message: Message, vote: Vote)
    returns (effects: seq<Effect>, more: bool, failed: bool)
    requires NodeOf(obj).C? ==> Sized(NodeOf(obj).coordinator)
    modifies Footprint(obj)
    ensures forall m: Machine :: m.node == old(NodeOf(obj)) && m.todo == [] && m.condition.Live? ==>
              Delivered(m, message, vote) ==
              if failed then m.(condition := Threw)
              else Settled(m.(node := NodeOf(obj), todo := effects, more := more, asking := false))
  {
    match obj {
      case ACoordinator(c) =>
        effects, more, failed := c.Receive(message);
      case AParticipant(p) =>
        effects, more := p.Receive(message, vote);
        failed := false;
    }
  }

  /** The callback of a timer. */
  method FireTimer(obj: ProtocolObject, id: nat) returns (effects: seq<Effect>, more: bool)
    modifies Footprint(obj)
    ensures forall m: Machine :: m.node == old(NodeOf(obj)) && m.todo == [] && m.condition.Live? ==>
              Fired(m, id) == Settled(m.(node := NodeOf(obj), todo := effects, more := more, asking := false))
  {
    match obj {
      case ACoordinator(c) =>
        if id == VOTE_TIMER {
          effects, more := c.OnVoteTimeout();
        } else {
          effects, more := c.OnAckTimeout();
        }
      case AParticipant(p) =>
        effects, more := p.OnDecisionTimeout();
    }
  }

  /** Asks for the participant's vote. */
  method AskVote(s: ReplayState, crashes: bool, ghost node: Node) returns (answer: Option<Answer>, vote: Vote)
    requires InRange(s) && node.P?
    modifies s
    ensures InRange(s) && s.timer == old(s.timer) && s.crashAsked == old(s.crashAsked)
    ensures var m := Running(node, [], true, s.timer, s.crashAsked).(asking := true);
            var was := old(ReplayFrom(crashes, m, s.Left(), s.target - s.ioCount));
            if answer.Some? then Replayed(answer.value, s.Left()) == was
            else s.ioCount > old(s.ioCount) &&
                 ReplayFrom(crashes, Delivered(m, Prepare, vote), s.Left(), s.target - s.ioCount) == was
  {
    hide ReplayFrom, Suits, Mismatch, Delivered;
    ghost var m := Running(node, [], true, s.timer, s.crashAsked).(asking := true);
    ghost var k, left := s.target - s.ioCount, s.Left();
    AtBoundary(crashes, m, left);
    if k > 0 { ReplaySteps(crashes, m, left, k); }
    if s.ioCount >= s.target {
      return Some(Captured(VoteChoice)), Yes;
    }
    var _ := s.Operation();
    var e := s.Observe();
    if e.None? {
      return Some(SimulationFailed), Yes;
    }
    ChoiceSuits(VoteChoice, e.value);
    if !e.value.VoteValue? {
      return Some(if e.value.Bottom? then SimulationFailed else Captured(ErrorLabel)), Yes;
    }
    answer, vote := None, e.value.vote;
  }

  /** A replayed message: the handler runs, after the vote was asked for where it asks for one. */
  method PerformMessage(s: ReplayState, crashes: bool, obj: ProtocolObject, message: Message)
    returns (answer: Option<Answer>, effects: seq<Effect>, more: bool)
    requires InRange(s) && NodeSized(Running(NodeOf(obj), [], true, s.timer, s.crashAsked))
    modifies s, Footprint(obj)
    ensures InRange(s) && (answer.None? ==> s.ioCount >= old(s.ioCount))
    ensures var m := old(Running(NodeOf(obj), [], true, s.timer, s.crashAsked));
            var after := if AsksForVote(m.node, message) then m.(asking := true) else Delivered(m, message, Yes);
            NodeSized(after) &&
            var was := old(ReplayFrom(crashes, after, s.Left(), s.target - s.ioCount));
            var now := Running(NodeOf(obj), effects, more, s.timer, s.crashAsked);
            if answer.Some? then Replayed(answer.value, s.Left()) == was
            else NodeSized(now) && Outlook(crashes, now, s) == was
  {
    hide ReplayFrom, Delivered, CoordinatorReceives, ParticipantReceives;
    ghost var m := Running(NodeOf(obj), [], true, s.timer, s.crashAsked);
    DeliveredSized(m, message, Yes);
    var vote := Yes;
    if AsksForVote(NodeOf(obj), message) {
      answer, vote := AskVote(s, crashes, NodeOf(obj));
      if answer.Some? {
        return answer, [], true;
      }
      m := m.(asking := true);
      DeliveredSized(m, message, vote);
    }
    var failed;
    effects, more, failed := React(obj, message, vote);
    assert m.todo == [] && m.condition.Live?;
    if failed {
      ThrewErrors(crashes, m.(condition := Threw), s.Left(), s.target - s.ioCount);
      return Some(Captured(ErrorLabel)), [], true;
    }
    SettledKeepsNode(Running(NodeOf(obj), effects, more, s.timer, s.crashAsked));
    answer := None;
  }

  /** A receive: a message, or the active timer where the trace says bottom. */
  method PerformReceive(s: ReplayState, crashes: bool, obj: ProtocolObject)
    returns (answer: Option<Answer>, effects: seq<Effect>, more: bool)
    requires InRange(s) && NodeSized(Running(NodeOf(obj), [], true, s.timer, s.crashAsked))
    modifies s, Footprint(obj)
    ensures InRange(s) && (answer.None? ==> s.ioCount > old(s.ioCount))
    ensures var was := old(Outlook(crashes, Running(NodeOf(obj), [], true, s.timer, s.crashAsked), s));
            var now := Running(NodeOf(obj), effects, more, s.timer, s.crashAsked);
            if answer.Some? then Replayed(answer.value, s.Left()) == was
            else NodeSized(now) && Outlook(crashes, now, s) == was
  {
    hide ReplayFrom, Delivered, Fired, CoordinatorReceives, ParticipantReceives, VoteTimeout, AckTimeout,
         DecisionTimeout;
    ghost var m := Running(NodeOf(obj), [], true, s.timer, s.crashAsked);
    ghost var k, left := s.target - s.ioCount, s.Left();
    AtBoundary(crashes, m, left);
    if k > 0 { ReplaySteps(crashes, m, left, k); }
    if s.ioCount >= s.target {
      return Some(Captured(ReceiveLabel(s.timer.None?))), [], true;
    }
    var _ := s.Operation();
    var e := s.Observe();
    if e.None? {
      return Some(SimulationFailed), [], true;
    }
    match e.value {
      case MessageValue(message) =>
        answer, effects, more := PerformMessage(s, crashes, obj, message);
      case Bottom =>
        if s.timer.None? {
          return Some(SimulationFailed), [], true;
        }
        var id := s.timer.value;
        s.timer := None;
        effects, more := FireTimer(obj, id);
        FiredSized(m.(timer := None), id);
        SettledKeepsNode(Running(NodeOf(obj), effects, more, None, s.crashAsked));
        answer := None;
      case _ =>
        return Some(SimulationFailed), [], true;
    }
  }

  /** The answer and what is left of the trace are the replay of the object's machine, for every trace and step. */
  method RunAndCapture(obj: ProtocolObject, crashes: bool, trace: seq<Entry>, step: nat)
    returns (answer: Answer, left: seq<Entry>)
    modifies Footprint(obj)
    ensures var m := old(Begin(NodeOf(obj)));
            NodeSized(m) && Replayed(answer, left) == ReplayFrom(crashes, m, trace, step)
  {
    hide ReplayFrom, Begin;
    var s := new ReplayState(step, trace);
    BeginSized(NodeOf(obj));
    ghost var goal := ReplayFrom(crashes, Begin(NodeOf(obj)), trace, step);
    var todo, more := StartObject(obj);
    assert trace[0..] == trace;
    while todo != [] || more
      invariant s.target == step && s.trace == trace && InRange(s)
      invariant NodeSized(Running(NodeOf(obj), todo, more, s.timer, s.crashAsked))
      invariant Outlook(crashes, Running(NodeOf(obj), todo, more, s.timer, s.crashAsked), s) == goal
      decreases step - s.ioCount, |todo|
    {
      if todo != [] && !todo[0].Send? {
        var timer := ApplyTimer(s.timer, todo[0]);
        if timer.None? {
          ConflictFails(crashes, Running(NodeOf(obj), todo, more, s.timer, s.crashAsked), s.Left(), step - s.ioCount);
          return SimulationFailed, s.Left();
        }
        s.timer := timer.value;
        todo := todo[1..];
      } else {
        var reached: Option<Answer>;
        if todo != [] {
          reached, todo := PerformSend(s, crashes, NodeOf(obj), todo, more);
        } else {
          reached, todo, more := PerformReceive(s, crashes, obj);
        }
        if reached.Some? {
          return reached.value, s.Left();
        }
      }
    }
    NothingNext(crashes, Running(NodeOf(obj), [], false, s.timer, s.crashAsked), s.Left(), step - s.ioCount);
    answer, left := Ended, s.Left();
  }

  lemma NothingNext(crashes: bool, m: Machine, trace: seq<Entry>, k: nat)
    requires NodeSized(m) && m.condition.Live? && m.todo == [] && !m.more && !m.asking
    ensures ReplayFrom(crashes, m, trace, k) == Replayed(Ended, trace)
  {
  }

  lemma ConflictFails(crashes: bool, m: Machine, trace: seq<Entry>, k: nat)
    requires NodeSized(m) && m.condition.Live?
    requires m.todo != [] && !m.todo[0].Send? && ApplyTimer(m.timer, m.todo[0]).None?
    ensures NodeSized(Settled(m)) && ReplayFrom(crashes, Settled(m), trace, k) == Replayed(SimulationFailed, trace)
  {
  }

  lemma BeginSized(node: Node)
    ensures NodeSized(Begin(node))
  {
    BeginSound(node);
  }

  // ----- thread functions -----

  /** What a thread function is made for. */
  datatype Role = CoordinatorRole(participants: nat, bugOnP1No: bool, crashes: bool) | ParticipantRole(id: nat)

  /** The machine of a freshly built object once it was started. */
  function Initial(role: Role): Machine
  {
    match role
    case CoordinatorRole(n, bug, _) =>
      Begin(C(CoordinatorState(n, bug, CollectingVotes, None, true, 0, 0, [], [])))
    case ParticipantRole(id) => Begin(P(ParticipantState(id, WaitPrepare, None)))
  }

  /** Only the coordinator's environment injects a crash. */
  predicate Crashes(role: Role)
  {
    role.CoordinatorRole? && role.crashes
  }

  /** A thread function builds its object anew for every question. */
  method ThreadFunction(role: Role, trace: seq<Entry>, step: nat) returns (answer: Answer, left: seq<Entry>)
    ensures NodeSized(Initial(role)) && Replayed(answer, left) == ReplayFrom(Crashes(role), Initial(role), trace, step)
  {
    match role {
      case CoordinatorRole(n, bug, crashes) =>
        var c := new Coordinator(n, bug);
        answer, left := RunAndCapture(ACoordinator(c), crashes, trace, step);
      case ParticipantRole(id) =>
        var p := new Participant(id);
        answer, left := RunAndCapture(AParticipant(p), false, trace, step);
    }
  }

  lemma InitialSound(role: Role)
    ensures Sound(Initial(role))
  {
    hide Begin;
    match role
    case CoordinatorRole(n, bug, _) =>
      BeginSound(C(CoordinatorState(n, bug, CollectingVotes, None, true, 0, 0, [], [])));
    case ParticipantRole(id) => BeginSound(P(ParticipantState(id, WaitPrepare, None)));
  }

  /** Asked with what its own earlier answers made it observe, a thread function answers its next operation and
      reads exactly those observations. */
  method AnswerInStep(role: Role, history: seq<Option<Entry>>, extra: seq<Entry>)
    returns (answer: Answer, left: seq<Entry>)
    requires NodeSized(Initial(role)) && Coherent(Crashes(role), Initial(role), history)
    ensures answer == Upcoming(Crashes(role), Play(Crashes(role), Initial(role), history))
    ensures left == extra && !answer.SimulationFailed?
  {
    InitialSound(role);
    ReplayIsCoherent(Crashes(role), Initial(role), history, extra);
    answer, left := ThreadFunction(role, Entries(history) + extra, |history|);
  }
}
