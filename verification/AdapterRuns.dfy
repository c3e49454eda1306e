/** The adapter against the protocol's runs: when the simulated coordinator is asked whether it crashes, and that each
    message and timer handled under the adapter has exactly the outcome it has in the runs. */
module AdapterRuns {
  import opened Optional
  import opened TwoPhaseCommit
  import opened ReplayAdapter
  import CommitRuns

  // ----- positions in a history -----

  lemma {:induction false} PlayNext(crashes: bool, m: Machine, history: seq<Option<Entry>>, i: nat)
    requires NodeSized(m) && Coherent(crashes, m, history) && i < |history|
    ensures Coherent(crashes, m, history[..i]) && Coherent(crashes, m, history[..i + 1])
    ensures var now := Play(crashes, m, history[..i]);
            && NodeSized(now) && NextLabel(crashes, now).Some? && Suits(NextLabel(crashes, now).value, history[i])
            && Play(crashes, m, history[..i + 1]) == Advance(crashes, now, history[i])
    decreases i
  {
    hide Advance;
    CoherentPrefix(crashes, m, history, i);
    CoherentPrefix(crashes, m, history, i + 1);
    AdvanceSized(crashes, m, history[0]);
    var next := Advance(crashes, m, history[0]);
    assert history[..i + 1][0] == history[0] && history[..i + 1][1..] == history[1..][..i];
    if i > 0 {
      PlayNext(crashes, next, history[1..], i - 1);
      assert history[..i][0] == history[0] && history[..i][1..] == history[1..][..i - 1];
      assert history[1..][i - 1] == history[i];
    } else {
      assert history[..1][1..] == [];
    }
  }

  /** The machine before operation `i` of the history, and the operation. */
  ghost function Before(crashes: bool, m: Machine, history: seq<Option<Entry>>, i: nat): Machine
    requires NodeSized(m) && Coherent(crashes, m, history) && i <= |history|
  {
    CoherentPrefix(crashes, m, history, i);
    Play(crashes, m, history[..i])
  }

  ghost function LabelAt(crashes: bool, m: Machine, history: seq<Option<Entry>>, i: nat): Label
    requires NodeSized(m) && Coherent(crashes, m, history) && i < |history|
  {
    PlayNext(crashes, m, history, i);
    NextLabel(crashes, Before(crashes, m, history, i)).value
  }

  // ----- what a crashing coordinator is asked -----

  /** Pending decisions carry the decision taken. */
  ghost predicate DecisionsPending(m: Machine)
  {
    && m.node.C? && !m.asking
    && forall i :: 0 <= i < |m.todo| && m.todo[i].Send? && m.todo[i].message.DecisionMsg? ==>
         m.node.coordinator.decision == Some(m.todo[i].message.decision)
  }

  lemma {:induction false} SettledPending(m: Machine)
    requires DecisionsPending(m)
    ensures DecisionsPending(Settled(m)) && Settled(m).crashAsked == m.crashAsked
    ensures Settled(m).condition.Stopped? <==> m.condition.Stopped?
    decreases |m.todo|
  {
    if m.todo != [] && !m.todo[0].Send? && m.condition.Live? && ApplyTimer(m.timer, m.todo[0]).Some? {
      SettledPending(m.(todo := m.todo[1..], timer := ApplyTimer(m.timer, m.todo[0]).value));
    }
  }

  lemma ReactionPending(m: Machine, r: Reaction<CoordinatorState>)
    requires m.node.C? && m.condition.Live? && DecisionsPending(m)
    requires r.Reaction? ==> DecisionsPending(m.(node := C(r.state), todo := r.effects, more := r.more))
    ensures var after := AfterReaction(m, C(r.state), r);
            DecisionsPending(after) && after.crashAsked == m.crashAsked && !after.condition.Stopped?
  {
    if r.Reaction? { SettledPending(m.(node := C(r.state), todo := r.effects, more := r.more, asking := false)); }
  }

  lemma AdvancePending(crashes: bool, m: Machine, seen: Option<Entry>)
    requires NodeSized(m) && DecisionsPending(m) && m.condition.Live?
    requires NextLabel(crashes, m).Some? && Suits(NextLabel(crashes, m).value, seen)
    ensures var l, after := NextLabel(crashes, m).value, Advance(crashes, m, seen);
            && DecisionsPending(after)
            && (after.crashAsked <==> m.crashAsked || (l.CrashChoice? && !seen.value.crash))
            && (after.condition.Stopped? <==> l.CrashChoice? && seen.value.crash)
  {
    match NextLabel(crashes, m).value
    case SendLabel(_, _) => SettledPending(m.(todo := m.todo[1..]));
    case CrashChoice =>
    case ReceiveLabel(_) =>
      var c := m.node.coordinator;
      if seen.value.Bottom? {
        var late := m.(timer := None);
        ReactionPending(late, if m.timer.value == VOTE_TIMER then VoteTimeout(c) else AckTimeout(c));
      } else {
        ReactionPending(m, CoordinatorReceives(c, seen.value.message));
      }
  }

  /** What a history up to `i` says about the crash. */
  ghost predicate CrashRecord(crashes: bool, m: Machine, history: seq<Option<Entry>>, i: nat)
    requires NodeSized(m) && Coherent(crashes, m, history) && i <= |history|
  {
    var now := Before(crashes, m, history, i);
    && DecisionsPending(now)
    && (now.crashAsked <==> exists j :: 0 <= j < i && Declined(crashes, m, history, j))
    && (now.condition.Stopped? <==> exists j :: 0 <= j < i && Crashed(crashes, m, history, j))
  }

  ghost predicate Declined(crashes: bool, m: Machine, history: seq<Option<Entry>>, j: nat)
    requires NodeSized(m) && Coherent(crashes, m, history) && j < |history|
  {
    LabelAt(crashes, m, history, j) == CrashChoice && history[j] == Some(CrashValue(false))
  }

  ghost predicate Crashed(crashes: bool, m: Machine, history: seq<Option<Entry>>, j: nat)
    requires NodeSized(m) && Coherent(crashes, m, history) && j < |history|
  {
    LabelAt(crashes, m, history, j) == CrashChoice && history[j] == Some(CrashValue(true))
  }

  ghost predicate Fresh(m: Machine)
  {
    NodeSized(m) && DecisionsPending(m) && !m.crashAsked && !m.condition.Stopped?
  }

  lemma {:induction false} CrashRecorded(crashes: bool, m: Machine, history: seq<Option<Entry>>, i: nat)
    requires Fresh(m) && Coherent(crashes, m, history) && i <= |history|
    ensures CrashRecord(crashes, m, history, i)
    decreases i
  {
    hide Advance, NextLabel, DecisionsPending;
    if i == 0 {
      assert history[..0] == [];
    } else {
      CrashRecorded(crashes, m, history, i - 1);
      PlayNext(crashes, m, history, i - 1);
      var now := Before(crashes, m, history, i - 1);
      var l := LabelAt(crashes, m, history, i - 1);
      CrashSuits(l, history[i - 1]);
      OnlyLiveActs(crashes, now);
      AdvancePending(crashes, now, history[i - 1]);
      assert Declined(crashes, m, history, i - 1) <==> l.CrashChoice? && !history[i - 1].value.crash;
      assert Crashed(crashes, m, history, i - 1) <==> l.CrashChoice? && history[i - 1].value.crash;
    }
  }

  lemma CrashSuits(l: Label, seen: Option<Entry>)
    requires Suits(l, seen)
    ensures l.CrashChoice? ==> seen.Some? && seen.value.CrashValue?
    ensures !l.ErrorLabel?
  {
  }

  lemma OnlyLiveActs(crashes: bool, m: Machine)
    requires NextLabel(crashes, m).Some? && !NextLabel(crashes, m).value.ErrorLabel?
    ensures m.condition.Live?
  {
  }

  /** In every history of a coordinator that may crash: it is asked at most once, and only when it has decided and no
      decision has gone out; each decision it sends comes after it was asked and did not crash; and a crash is the last
      thing that happens. */
  lemma CrashBeforeDecision(n: nat, bug: bool, history: seq<Option<Entry>>, i: nat)
    requires var m := Initial(CoordinatorRole(n, bug, true));
             NodeSized(m) && Coherent(true, m, history) && i < |history|
    ensures var m := Initial(CoordinatorRole(n, bug, true));
            var l := LabelAt(true, m, history, i);
            && (l == CrashChoice ==>
                  && (forall j :: 0 <= j < |history| && j != i ==> LabelAt(true, m, history, j) != CrashChoice)
                  && HasDecided(Before(true, m, history, i))
                  && (forall j :: 0 <= j < i ==> !IsDecision(LabelAt(true, m, history, j))))
            && (IsDecision(l) ==> exists j :: 0 <= j < i && Declined(true, m, history, j))
            && (history[i] == Some(CrashValue(true)) ==>
                  i + 1 == |history| && Upcoming(true, Before(true, m, history, i + 1)) == Ended)
  {
    hide Advance, CrashRecord, Before, LabelAt, Initial, Coherent;
    var m := Initial(CoordinatorRole(n, bug, true));
    InitialIsFresh(n, bug);
    var l := LabelAt(true, m, history, i);
    LabelMeans(true, m, history, i);
    forall j | 0 <= j < |history| ensures l == CrashChoice && j != i ==> LabelAt(true, m, history, j) != CrashChoice {
      LabelMeans(true, m, history, j);
    }
    forall j | 0 <= j < i ensures l == CrashChoice ==> !IsDecision(LabelAt(true, m, history, j)) {
      LabelMeans(true, m, history, j);
    }
    if history[i] == Some(CrashValue(true)) {
      CrashEnds(m, history, i);
    }
  }

  predicate HasDecided(m: Machine)
  {
    m.node.C? && m.node.coordinator.decision.Some?
  }

  predicate IsDecision(l: Label)
  {
    l.SendLabel? && l.message.DecisionMsg?
  }

  lemma InitialIsFresh(n: nat, bug: bool)
    ensures Fresh(Initial(CoordinatorRole(n, bug, true)))
  {
    InitialSound(CoordinatorRole(n, bug, true));
    var r := Started(n, bug);
    SettledPending(Machine(C(r.state), r.effects, true, false, None, false, Live));
  }

  /** What an operation says about the machine that performs it. */
  lemma LabelMeans(crashes: bool, m: Machine, history: seq<Option<Entry>>, i: nat)
    requires Fresh(m) && Coherent(crashes, m, history) && i < |history|
    ensures var l, now := LabelAt(crashes, m, history, i), Before(crashes, m, history, i);
            && (l == CrashChoice ==> HasDecided(now))
            && (l == CrashChoice ==> forall j :: 0 <= j < i ==> LabelAt(crashes, m, history, j) != CrashChoice)
            && (crashes && IsDecision(l) ==> exists j :: 0 <= j < i && Declined(crashes, m, history, j))
            && now.condition.Live?
  {
    hide Advance, Settled;
    CrashRecorded(crashes, m, history, i);
    PlayNext(crashes, m, history, i);
    var now := Before(crashes, m, history, i);
    CrashSuits(LabelAt(crashes, m, history, i), history[i]);
    OnlyLiveActs(crashes, now);
    forall j | 0 <= j < i
      ensures LabelAt(crashes, m, history, j) == CrashChoice ==>
                Declined(crashes, m, history, j) || Crashed(crashes, m, history, j)
    {
      PlayNext(crashes, m, history, j);
    }
  }

  lemma CrashEnds(m: Machine, history: seq<Option<Entry>>, i: nat)
    requires Fresh(m) && Coherent(true, m, history) && i < |history| && history[i] == Some(CrashValue(true))
    ensures i + 1 == |history| && Upcoming(true, Before(true, m, history, i + 1)) == Ended
  {
    hide Advance;
    PlayNext(true, m, history, i);
    assert LabelAt(true, m, history, i) == CrashChoice;
    assert Crashed(true, m, history, i);
    CrashRecorded(true, m, history, i + 1);
    if i + 1 < |history| {
      PlayNext(true, m, history, i + 1);
    }
  }

  // ----- the adapter's coordinator and the coordinator of the runs -----

  /** A machine after it performed what its handler left to do, and the packets that went out. */
  datatype Drained = Drained(machine: Machine, sent: set<CommitRuns.Packet>)

  /** Performs the pending sends; `crash` answers the question whether to crash. */
  ghost function Drain(crashes: bool, m: Machine, crash: bool): Drained
    requires NodeSized(m)
    decreases |m.todo|, !m.crashAsked, m.condition.Live?
  {
    match NextLabel(crashes, m)
    case Some(SendLabel(to, message)) =>
      AdvanceSized(crashes, m, None);
      SettledShrinks(m.(todo := m.todo[1..]));
      var rest := Drain(crashes, Advance(crashes, m, None), crash);
      Drained(rest.machine, {CommitRuns.Packet(to, message)} + rest.sent)
    case Some(CrashChoice) =>
      AdvanceSized(crashes, m, Some(CrashValue(crash)));
      Drain(crashes, Advance(crashes, m, Some(CrashValue(crash))), crash)
    case _ => Drained(m, {})
  }

  lemma {:induction false} SettledShrinks(m: Machine)
    ensures |Settled(m).todo| <= |m.todo|
    decreases |m.todo|
  {
    if m.todo != [] && !m.todo[0].Send? && m.condition.Live? && ApplyTimer(m.timer, m.todo[0]).Some? {
      SettledShrinks(m.(todo := m.todo[1..], timer := ApplyTimer(m.timer, m.todo[0]).value));
    }
  }

  ghost predicate OnlyDecisions(effects: seq<Effect>)
  {
    forall i :: 0 <= i < |effects| && effects[i].Send? ==> effects[i].message.DecisionMsg?
  }

  lemma PacketsFirst(effects: seq<Effect>)
    requires effects != []
    ensures CommitRuns.Packets(effects) == CommitRuns.Packets(effects[1..]) +
            if effects[0].Send? then {CommitRuns.Packet(effects[0].destination, effects[0].message)} else {}
    ensures CommitRuns.Decides(effects) <==>
            CommitRuns.Decides(effects[1..]) || (effects[0].Send? && effects[0].message.DecisionMsg?)
  {
    var rest := effects[1..];
    forall i | 0 <= i < |rest| ensures rest[i] == effects[i + 1] {}
    forall p | p in CommitRuns.Packets(effects)
      ensures p in CommitRuns.Packets(rest) ||
              (effects[0].Send? && p == CommitRuns.Packet(effects[0].destination, effects[0].message))
    {
      var i :| 0 <= i < |effects| && effects[i].Send?
          && CommitRuns.Packet(effects[i].destination, effects[i].message) == p;
      if i > 0 { assert rest[i - 1] == effects[i]; }
    }
    if CommitRuns.Decides(effects) {
      var i :| 0 <= i < |effects| && effects[i].Send? && effects[i].message.DecisionMsg?;
      if i > 0 { assert rest[i - 1] == effects[i]; }
    }
  }

  /** A handler that sends nothing but decisions, or none: it stops before the first one or performs everything. */
  lemma {:induction false} DrainsHandler(crashes: bool, m: Machine, crash: bool)
    requires NodeSized(m) && m.condition.Live? && !m.asking && TimerAfter(m.timer, m.todo).Some?
    requires OnlyDecisions(m.todo) || !CommitRuns.Decides(m.todo)
    ensures NodeSized(Settled(m))
    ensures var d, decides := Drain(crashes, Settled(m), crash), CommitRuns.Decides(m.todo);
            if crashes && crash && !m.crashAsked && decides then d.machine.condition.Stopped? && d.sent == {}
            else
              && d.machine == m.(todo := [], timer := TimerAfter(m.timer, m.todo).value, crashAsked := m.crashAsked
                                 || (crashes && decides))
              && d.sent == CommitRuns.Packets(m.todo)
    decreases |m.todo|, !m.crashAsked
  {
    SettledKeepsNode(m);
    if m.todo != [] {
      PacketsFirst(m.todo);
      var e := m.todo[0];
      if !e.Send? {
        DrainsHandler(crashes, m.(todo := m.todo[1..], timer := ApplyTimer(m.timer, e).value), crash);
      } else if !crashes || m.crashAsked || !e.message.DecisionMsg? {
        DrainsHandler(crashes, m.(todo := m.todo[1..]), crash);
      } else if !crash {
        assert Settled(m.(crashAsked := true)) == m.(crashAsked := true);
        DrainsHandler(crashes, m.(crashAsked := true), crash);
      }
    }
  }

  /** The machine stands where the run's coordinator stands: between two handlers. */
  ghost predicate Mirrors(m: Machine, s: CommitRuns.System)
  {
    Sound(m) && Stands(m, s)
  }

  ghost predicate Stands(m: Machine, s: CommitRuns.System)
  {
    && m.node == C(s.coordinator) && m.timer == s.timer && s.status.Running?
    && m.condition.Live? && m.todo == [] && !m.asking
    && (m.crashAsked ==> !s.coordinator.phase.CollectingVotes?)
  }

  /** After a handler: crashed, threw, or again at the same place, with the same packets sent. */
  ghost predicate SameOutcome(d: Drained, more: bool, s: CommitRuns.System, t: CommitRuns.System)
  {
    && (t.status.Crashed? <==> d.machine.condition.Stopped?) && (t.status.Broken? <==> d.machine.condition.Threw?)
    && (t.status.Running? ==> Mirrors(d.machine, t) && d.machine.more == more)
    && t.sent == s.sent + d.sent
  }

  lemma ReactsAlike(m: Machine, s: CommitRuns.System, r: Reaction<CoordinatorState>, crash: bool)
    requires Stands(m, s) && Sized(s.coordinator)
    requires r.Reaction? ==> Sized(r.state) && TimerAfter(m.timer, r.effects) == Some(RestingTimer(C(r.state)))
    requires r.Reaction? ==> OnlyDecisions(r.effects)
    requires r.Reaction? && CommitRuns.Decides(r.effects) ==>
               s.coordinator.phase.CollectingVotes? && !r.state.phase.CollectingVotes?
    requires r.Reaction? && !s.coordinator.phase.CollectingVotes? ==> !r.state.phase.CollectingVotes?
    ensures var after := AfterReaction(m, C(r.state), r);
            NodeSized(after) && SameOutcome(Drain(true, after, crash), r.Reaction?
                                            && r.more, s, CommitRuns.CoordinatorReacts(s, r, crash))
  {
    if r.Reaction? {
      var begun := m.(node := C(r.state), todo := r.effects, more := r.more, asking := false);
      DrainsHandler(true, begun, crash);
      assert CommitRuns.Packets([]) == {};
    }
  }

  lemma BroadcastOnlyDecides(s: CoordinatorState, d: Decision, before: seq<Effect>)
    requires before == [] || before == [CancelTimer(VOTE_TIMER)]
    ensures OnlyDecisions(Broadcast(s, d, before).effects)
  {
  }

  lemma ReceiptSends(c: CoordinatorState, message: Message)
    requires Sized(c)
    ensures var r := CoordinatorReceives(c, message);
            r.Reaction? ==>
              && OnlyDecisions(r.effects)
              && (CommitRuns.Decides(r.effects) ==> c.phase.CollectingVotes? && !r.state.phase.CollectingVotes?)
              && (!c.phase.CollectingVotes? ==> !r.state.phase.CollectingVotes?)
  {
  }

  /** A freshly started coordinator stands where every run of the protocol begins. */
  lemma StartAsInRuns(n: nat, bug: bool, crash: bool)
    ensures var m := Initial(CoordinatorRole(n, bug, true));
            && NodeSized(m)
            && var d := Drain(true, m, crash);
               Mirrors(d.machine, CommitRuns.Init(n, bug)) && d.machine.more && d.sent == CommitRuns.Init(n, bug).sent
  {
    var r := Started(n, bug);
    var begun := Machine(C(r.state), r.effects, true, false, None, false, Live);
    var sends := ToAll(n, Prepare);
    assert sends[0..] == sends && r.effects == sends[0..] + [SetTimer(VOTE_TIMER)];
    TimersOverSends(None, n, 0, Prepare, [SetTimer(VOTE_TIMER)]);
    assert [SetTimer(VOTE_TIMER)][1..] == [];
    DrainsHandler(true, begun, crash);
  }

  /** A message handled under the adapter, crash question included, is the same step of the protocol's runs. */
  lemma MessageAsInRuns(m: Machine, s: CommitRuns.System, message: Message, crash: bool)
    requires Mirrors(m, s) && m.more
    ensures var after := Advance(true, m, Some(MessageValue(message)));
            NodeSized(after) &&
            SameOutcome(Drain(true, after, crash), CoordinatorReceives(s.coordinator, message).Reaction?
                                             && CoordinatorReceives(s.coordinator, message).more,
                        s, CommitRuns.CoordinatorReacts(s, CoordinatorReceives(s.coordinator, message), crash))
  {
    var r := CoordinatorReceives(s.coordinator, message);
    CoordinatorReactionTimers(s.coordinator, message);
    ReceiptSends(s.coordinator, message);
    assert m.timer == RestingTimer(m.node);
    ReactsAlike(m, s, r, crash);
  }

  /** So is a timer that fires. */
  lemma TimerAsInRuns(m: Machine, s: CommitRuns.System, crash: bool)
    requires Mirrors(m, s) && m.more && CommitRuns.Enabled(s, CommitRuns.CoordinatorTimer(crash))
    ensures var after := Advance(true, m, Some(Bottom));
            var r := CommitRuns.TimerReaction(s);
            NodeSized(after) && SameOutcome(Drain(true, after, crash), r.Reaction?
                                            && r.more, s, CommitRuns.Next(s, CommitRuns.CoordinatorTimer(crash)))
  {
    var c := s.coordinator;
    var r := CommitRuns.TimerReaction(s);
    assert m.timer == RestingTimer(m.node);
    if c.phase.CollectingVotes? { TimersOfBroadcast(c.(allYes := false), Abort, [], None); }
    var late := s.timer.value == VOTE_TIMER && c.phase.CollectingVotes?;
    var s' := s.(timer := None, voteExpired := s.voteExpired || late);
    BroadcastOnlyDecides(c.(allYes := false), Abort, []);
    ReactsAlike(m.(timer := None), s', r, crash);
  }

  // ----- participants -----

  /** A participant's machine between two handlers. */
  ghost predicate ParticipantStands(m: Machine, s: CommitRuns.System, p: nat)
  {
    && p < |s.parts| && p < |s.timers| && p < |s.cast|
    && Sound(m) && m.node == P(s.parts[p]) && m.timer == s.timers[p]
    && m.condition.Live? && m.todo == [] && !m.asking && m.more
  }

  /** A message handled by a participant under the adapter: its vote is asked for exactly on a first Prepare, and the
      outcome is that step of the protocol's runs. */
  lemma ParticipantAsInRuns(m: Machine, s: CommitRuns.System, p: nat, message: Message, vote: Vote)
    requires ParticipantStands(m, s, p) && CommitRuns.Enabled(s, CommitRuns.DeliverTo(p, message, vote))
    ensures var after := Advance(false, m, Some(MessageValue(message)));
            var asked := s.parts[p].stage.WaitPrepare? && message.Prepare?;
            var t := CommitRuns.Next(s, CommitRuns.DeliverTo(p, message, vote));
            && NodeSized(after) && (NextLabel(false, after) == Some(VoteChoice) <==> asked)
            && var begun := if asked then Advance(false, after, Some(VoteValue(vote))) else after;
               NodeSized(begun) &&
               var d := Drain(false, begun, false);
               && d.machine.node == P(t.parts[p]) && d.machine.timer == t.timers[p] && d.machine.todo == []
               && d.machine.condition.Live? && t.sent == s.sent + d.sent
               && d.machine.more == ParticipantReceives(s.parts[p], message, vote).more
  {
    var q := s.parts[p];
    var r := ParticipantReceives(q, message, vote);
    ParticipantTimers(m.timer, q, message, vote);
    DrainsHandler(false, m.(node := P(r.state), todo := r.effects, more := r.more), false);
  }

  lemma ParticipantTimerAsInRuns(m: Machine, s: CommitRuns.System, p: nat)
    requires ParticipantStands(m, s, p) && CommitRuns.Enabled(s, CommitRuns.ParticipantTimer(p))
    ensures var after := Advance(false, m, Some(Bottom));
            var t := CommitRuns.Next(s, CommitRuns.ParticipantTimer(p));
            && NodeSized(after) && after.node == P(t.parts[p]) && after.timer == t.timers[p] && after.todo == []
            && after.condition.Live? && t.sent == s.sent && after.more == DecisionTimeout(s.parts[p]).more
  {
    assert CommitRuns.Packets([]) == {};
  }
}
