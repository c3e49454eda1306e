/** The work-sharing executor: workers take tasks from a bounded queue, explore them on private machines, give
    alternatives away, park when there is nothing to do, and detect that the search is complete.

    Every step below is one atomic action of one worker, so a run is any interleaving of them. Which hand-offs are
    attempted is left open: any may be. */
module Parallel {
  import opened Events
  import opened Engine
  import opened Machine
  import opened MachineRefinement

  datatype Ticket = Ticket(task: Task, depth: nat)

  /** Where a worker is in its loop. A running worker that has just enqueued owes a wake-up; the worker that
      completed the search owes a broadcast. */
  datatype Worker =
    | Scanning
    | Parked(notified: bool)
    | Running(contexts: seq<Context>, owes: bool)
    | Broadcasting
    | Exited

  datatype State = State(workers: seq<Worker>, queue: seq<Ticket>, complete: bool, active: nat, idle: nat,
                         published: seq<Terminal>)

  datatype Options = Options(workers: nat, bound: nat)

  ghost predicate Init(cfg: Config, o: Options, s: State)
  {
    && |s.workers| == o.workers && (forall i :: 0 <= i < |s.workers| ==> s.workers[i] == Scanning)
    && s.queue == [Ticket(Task(EmptyGraph, false), 0)]
    && !s.complete && s.active == 0 && s.idle == 0 && s.published == []
  }

  function Place(s: State, i: nat, w: Worker): State
    requires i < |s.workers|
  {
    s.(workers := s.workers[i := w])
  }

  /** Take the oldest task. */
  ghost predicate Takes(s: State, i: nat, s': State)
    requires i < |s.workers|
  {
    && (s.workers[i].Scanning? || s.workers[i] == Parked(true))
    && !s.complete && s.queue != []
    && var first := s.queue[0];
       s' == Place(s, i, Running([NewContext(first.task.graph, first.depth, first.task.guarded)], false))
               .(queue := s.queue[1..], active := s.active + 1,
                 idle := if s.workers[i].Parked? && s.idle > 0 then s.idle - 1 else s.idle)
  }

  /** Nothing to take: wait. */
  ghost predicate Parks(s: State, i: nat, s': State)
    requires i < |s.workers|
  {
    && !s.complete && s.queue == []
    && (s.workers[i].Scanning? || s.workers[i] == Parked(true))
    && s' == Place(s, i, Parked(false)).(idle := if s.workers[i].Scanning? then s.idle + 1 else s.idle)
  }

  /** A waiting worker may wake without being told. */
  ghost predicate WakesSpuriously(s: State, i: nat, s': State)
    requires i < |s.workers|
  {
    s.workers[i] == Parked(false) && s' == Place(s, i, Parked(true))
  }

  ghost predicate Leaves(s: State, i: nat, s': State)
    requires i < |s.workers|
  {
    && s.complete && (s.workers[i].Scanning? || s.workers[i] == Parked(true))
    && s' == Place(s, i, Exited).(idle := if s.workers[i].Parked? && s.idle > 0 then s.idle - 1 else s.idle)
  }

  /** One step of the worker's own machine. */
  ghost predicate Explores(cfg: Config, s: State, i: nat, s': State)
    requires i < |s.workers|
  {
    && s.workers[i].Running? && !s.workers[i].owes
    && var contexts := s.workers[i].contexts;
       && contexts != [] && Stacked(Top(contexts))
       && var r := Step(cfg, contexts);
          s' == Place(s, i, Running(r.contexts, false)).(published := s.published + r.published)
  }

  /** Give an alternative away: only with several workers and room in the queue. */
  ghost predicate HandsOff(cfg: Config, o: Options, s: State, i: nat, s': State)
    requires i < |s.workers|
  {
    && s.workers[i].Running? && !s.workers[i].owes && o.workers > 1 && !s.complete && |s.queue| < o.bound
    && var contexts := s.workers[i].contexts;
       && contexts != [] && Stacked(Top(contexts))
       && var h := Split(cfg, contexts);
          && h.Some?
          && s' == Place(s, i, Running(h.value.contexts, true))
                     .(queue := s.queue + [Ticket(h.value.task, h.value.depth)])
  }

  /** Wake one waiting worker, if there is one. */
  ghost predicate Notifies(s: State, i: nat, s': State)
    requires i < |s.workers|
  {
    && s.workers[i].Running? && s.workers[i].owes
    && var t := Place(s, i, Running(s.workers[i].contexts, false));
       if exists k :: 0 <= k < |s.workers| && s.workers[k] == Parked(false) then
         exists k :: 0 <= k < |s.workers| && s.workers[k] == Parked(false) && s' == Place(t, k, Parked(true))
       else s' == t
  }

  /** The task is done; the last active worker that leaves the queue empty completes the search. */
  ghost predicate Finishes(s: State, i: nat, s': State)
    requires i < |s.workers|
  {
    && s.workers[i] == Running([], false) && s.active > 0
    && if s.queue == [] && s.active == 1
       then s' == Place(s, i, Broadcasting).(active := 0, complete := true)
       else s' == Place(s, i, Scanning).(active := s.active - 1)
  }

  function Woken(workers: seq<Worker>): (woken: seq<Worker>)
    ensures |woken| == |workers|
    ensures forall i :: 0 <= i < |workers| ==> woken[i] == if workers[i].Parked? then Parked(true) else workers[i]
  {
    seq(|workers|, i requires 0 <= i < |workers| => if workers[i].Parked? then Parked(true) else workers[i])
  }

  ghost predicate Broadcasts(s: State, i: nat, s': State)
    requires i < |s.workers|
  {
    s.workers[i].Broadcasting? && s' == s.(workers := Woken(s.workers)[i := Scanning])
  }

  /** The steps that move the search itself forward. */
  ghost predicate Works(cfg: Config, o: Options, s: State, i: nat, s': State)
    requires i < |s.workers|
  {
    Takes(s, i, s') || Explores(cfg, s, i, s') || HandsOff(cfg, o, s, i, s') || Finishes(s, i, s')
  }

  ghost predicate WorkDone(cfg: Config, o: Options, s: State, s': State)
  {
    exists i: nat :: i < |s.workers| && Works(cfg, o, s, i, s')
  }

  ghost predicate Waits(s: State, i: nat, s': State)
    requires i < |s.workers|
  {
    Parks(s, i, s') || WakesSpuriously(s, i, s') || Leaves(s, i, s') || Notifies(s, i, s') || Broadcasts(s, i, s')
  }

  ghost predicate Acts(cfg: Config, o: Options, s: State, s': State)
  {
    exists i: nat :: i < |s.workers| && (Works(cfg, o, s, i, s') || Waits(s, i, s'))
  }

  ghost predicate Execution(cfg: Config, o: Options, run: seq<State>)
  {
    && |run| > 0 && Init(cfg, o, run[0])
    && forall k :: 0 <= k < |run| - 1 ==> Acts(cfg, o, run[k], run[k + 1])
  }

  // ----- what is still outstanding -----

  ghost predicate WorkerSound(w: Worker)
  {
    w.Running? ==> AllStacked(w.contexts)
  }

  ghost predicate AllSound(workers: seq<Worker>)
  {
    forall i :: 0 <= i < |workers| ==> WorkerSound(workers[i])
  }

  ghost function Held(cfg: Config, w: Worker): multiset<Terminal>
    requires WorkerSound(w)
  {
    if w.Running? then multiset(Remaining(cfg, w.contexts)) else multiset{}
  }

  ghost function HeldAll(cfg: Config, workers: seq<Worker>): multiset<Terminal>
    requires AllSound(workers)
    decreases |workers|
  {
    if workers == [] then multiset{} else Held(cfg, workers[0]) + HeldAll(cfg, workers[1..])
  }

  ghost function Ticketed(cfg: Config, t: Ticket): multiset<Terminal>
  {
    multiset(Visit(cfg, t.task.graph, t.depth, t.task.guarded))
  }

  ghost function Queued(cfg: Config, queue: seq<Ticket>): multiset<Terminal>
    decreases |queue|
  {
    if queue == [] then multiset{} else Ticketed(cfg, queue[0]) + Queued(cfg, queue[1..])
  }

  function CountRunning(workers: seq<Worker>): nat
    decreases |workers|
  {
    if workers == [] then 0 else (if workers[0].Running? then 1 else 0) + CountRunning(workers[1..])
  }

  function CountParked(workers: seq<Worker>): nat
    decreases |workers|
  {
    if workers == [] then 0 else (if workers[0].Parked? then 1 else 0) + CountParked(workers[1..])
  }

  /** Work ahead of one worker: three units a machine step, so that queueing and taking also make progress. */
  ghost function Load(cfg: Config, w: Worker): nat
    requires WorkerSound(w)
  {
    if w.Running? then 3 * StepsLeft(cfg, w.contexts) + 1 else 0
  }

  ghost function LoadAll(cfg: Config, workers: seq<Worker>): nat
    requires AllSound(workers)
    decreases |workers|
  {
    if workers == [] then 0 else Load(cfg, workers[0]) + LoadAll(cfg, workers[1..])
  }

  ghost function TicketLoad(cfg: Config, t: Ticket): nat
  {
    3 * Cost(cfg, t.task.graph, t.depth, t.task.guarded) + 2
  }

  ghost function QueueLoad(cfg: Config, queue: seq<Ticket>): nat
    decreases |queue|
  {
    if queue == [] then 0 else TicketLoad(cfg, queue[0]) + QueueLoad(cfg, queue[1..])
  }

  ghost function TotalLoad(cfg: Config, s: State): nat
    requires AllSound(s.workers)
  {
    LoadAll(cfg, s.workers) + QueueLoad(cfg, s.queue)
  }

  /** Nothing is lost, invented or repeated: what was published and what is outstanding is the sequential result. */
  ghost predicate Conserved(cfg: Config, s: State)
    requires AllSound(s.workers)
  {
    multiset(s.published) + HeldAll(cfg, s.workers) + Queued(cfg, s.queue) == multiset(Executions(cfg))
  }

  /** Some worker is neither waiting unnotified nor gone. */
  ghost predicate Awake(w: Worker)
  {
    !w.Exited? && w != Parked(false)
  }

  ghost predicate SomeAwake(s: State)
  {
    exists i :: 0 <= i < |s.workers| && Awake(s.workers[i])
  }

  ghost predicate Coordinated(o: Options, s: State)
  {
    && |s.workers| == o.workers
    && s.active == CountRunning(s.workers) && s.idle == CountParked(s.workers)
    && |s.queue| <= o.bound
    && (s.complete ==> s.queue == [] && s.active == 0)
    && (!s.complete ==> s.queue != [] || s.active > 0)
    && (s.queue != [] ==> SomeAwake(s))
    && (s.complete ==> (exists i :: 0 <= i < |s.workers| && s.workers[i].Broadcasting?)
                       || forall i :: 0 <= i < |s.workers| ==> s.workers[i] != Parked(false))
    && (!s.complete ==> forall i :: 0 <= i < |s.workers| ==> !s.workers[i].Exited? && !s.workers[i].Broadcasting?)
  }

  ghost predicate Inv(cfg: Config, o: Options, s: State)
  {
    AllSound(s.workers) && Conserved(cfg, s) && Coordinated(o, s)
  }

  // ----- sums over workers and queue -----

  lemma Regroup(h: multiset<Terminal>, a: multiset<Terminal>, b: multiset<Terminal>, c: multiset<Terminal>,
                d: multiset<Terminal>)
    requires a + b == c + d
    ensures (h + a) + b == (h + c) + d
  {
    assert (h + a) + b == h + (a + b) && (h + c) + d == h + (c + d);
  }

  lemma {:induction false} HeldUpdate(cfg: Config, workers: seq<Worker>, i: nat, w: Worker)
    requires AllSound(workers) && i < |workers| && WorkerSound(w)
    ensures AllSound(workers[i := w])
    ensures HeldAll(cfg, workers[i := w]) + Held(cfg, workers[i]) == HeldAll(cfg, workers) + Held(cfg, w)
    ensures LoadAll(cfg, workers[i := w]) + Load(cfg, workers[i]) == LoadAll(cfg, workers) + Load(cfg, w)
    decreases |workers|
  {
    hide Held, Load, WorkerSound;
    if i > 0 {
      HeldUpdate(cfg, workers[1..], i - 1, w);
      assert workers[i := w][1..] == workers[1..][i - 1 := w];
      Regroup(Held(cfg, workers[0]), HeldAll(cfg, workers[i := w][1..]), Held(cfg, workers[i]),
              HeldAll(cfg, workers[1..]), Held(cfg, w));
    } else {
      assert workers[i := w][1..] == workers[1..];
    }
  }

  lemma {:induction false} CountUpdate(workers: seq<Worker>, i: nat, w: Worker)
    requires i < |workers|
    ensures CountRunning(workers[i := w]) + (if workers[i].Running? then 1 else 0)
            == CountRunning(workers) + (if w.Running? then 1 else 0)
    ensures CountParked(workers[i := w]) + (if workers[i].Parked? then 1 else 0)
            == CountParked(workers) + (if w.Parked? then 1 else 0)
    decreases |workers|
  {
    if i > 0 {
      CountUpdate(workers[1..], i - 1, w);
      assert workers[i := w][1..] == workers[1..][i - 1 := w];
    } else {
      assert workers[i := w][1..] == workers[1..];
    }
  }

  lemma {:induction false} CountPositive(workers: seq<Worker>, i: nat)
    requires i < |workers|
    ensures workers[i].Running? ==> CountRunning(workers) > 0
    ensures workers[i].Parked? ==> CountParked(workers) > 0
    decreases |workers|
  {
    if i > 0 { CountPositive(workers[1..], i - 1); }
  }

  lemma {:induction false} RunningExists(workers: seq<Worker>)
    requires CountRunning(workers) > 0
    ensures exists i :: 0 <= i < |workers| && workers[i].Running?
    decreases |workers|
  {
    if !workers[0].Running? {
      RunningExists(workers[1..]);
      var i :| 0 <= i < |workers[1..]| && workers[1..][i].Running?;
      assert workers[i + 1].Running?;
    }
  }

  lemma {:induction false} QueueAppend(cfg: Config, queue: seq<Ticket>, t: Ticket)
    ensures Queued(cfg, queue + [t]) == Queued(cfg, queue) + Ticketed(cfg, t)
    ensures QueueLoad(cfg, queue + [t]) == QueueLoad(cfg, queue) + TicketLoad(cfg, t)
    decreases |queue|
  {
    hide Ticketed, TicketLoad;
    if queue == [] {
      assert (queue + [t])[1..] == [];
    } else {
      QueueAppend(cfg, queue[1..], t);
      assert (queue + [t])[1..] == queue[1..] + [t];
    }
  }

  lemma QueueFirst(cfg: Config, queue: seq<Ticket>)
    requires queue != []
    ensures Queued(cfg, queue) == Ticketed(cfg, queue[0]) + Queued(cfg, queue[1..])
    ensures QueueLoad(cfg, queue) == TicketLoad(cfg, queue[0]) + QueueLoad(cfg, queue[1..])
  {
  }

  lemma {:induction false} NothingHeld(cfg: Config, workers: seq<Worker>)
    requires AllSound(workers) && CountRunning(workers) == 0
    ensures HeldAll(cfg, workers) == multiset{}
    decreases |workers|
  {
    if workers != [] { NothingHeld(cfg, workers[1..]); }
  }

  // ----- conservation -----

  /** Account keeping: if one worker's change of holdings is matched by what was published and queued, the total
      stays. */
  lemma Balance(p: multiset<Terminal>, h: multiset<Terminal>, q: multiset<Terminal>,
                p': multiset<Terminal>, h': multiset<Terminal>, q': multiset<Terminal>,
                gone: multiset<Terminal>, come: multiset<Terminal>)
    requires h' + gone == h + come
    requires p' + come + q' == p + gone + q
    ensures p' + h' + q' == p + h + q
  {
    forall x: Terminal ensures (p' + h' + q')[x] == (p + h + q)[x] {
      assert (h' + gone)[x] == (h + come)[x];
      assert (p' + come + q')[x] == (p + gone + q)[x];
    }
  }

  /** What a change of worker `i` to `w` must match. */
  lemma ChangeKeeps(cfg: Config, s: State, i: nat, w: Worker, s': State)
    requires AllSound(s.workers) && i < |s.workers| && WorkerSound(w) && s'.workers == s.workers[i := w]
    requires multiset(s'.published) + Held(cfg, w) + Queued(cfg, s'.queue)
             == multiset(s.published) + Held(cfg, s.workers[i]) + Queued(cfg, s.queue)
    ensures AllSound(s'.workers) && (Conserved(cfg, s) ==> Conserved(cfg, s'))
    ensures TotalLoad(cfg, s') + Load(cfg, s.workers[i]) + QueueLoad(cfg, s.queue)
            == TotalLoad(cfg, s) + Load(cfg, w) + QueueLoad(cfg, s'.queue)
  {
    hide Held, Load, WorkerSound, AllSound, Queued, QueueLoad, HeldAll, LoadAll, Executions;
    SoundAt(s.workers, i);
    HeldUpdate(cfg, s.workers, i, w);
    Balance(multiset(s.published), HeldAll(cfg, s.workers), Queued(cfg, s.queue),
            multiset(s'.published), HeldAll(cfg, s'.workers), Queued(cfg, s'.queue),
            Held(cfg, s.workers[i]), Held(cfg, w));
  }

  lemma SoundAt(workers: seq<Worker>, i: nat)
    requires AllSound(workers) && i < |workers|
    ensures WorkerSound(workers[i])
  {
  }

  lemma TakeKeeps(cfg: Config, s: State, i: nat, s': State)
    requires AllSound(s.workers) && i < |s.workers| && Takes(s, i, s')
    ensures AllSound(s'.workers) && (Conserved(cfg, s) ==> Conserved(cfg, s')) && TotalLoad(cfg, s') < TotalLoad(cfg, s)
  {
    hide Remaining, StepsLeft, AllStacked, Visit, Cost, NewContext, AllSound, Conserved, TotalLoad, Queued, QueueLoad;
    var first := s.queue[0];
    var c := NewContext(first.task.graph, first.depth, first.task.guarded);
    StartRemaining(cfg, first.task.graph, first.depth, first.task.guarded);
    QueueFirst(cfg, s.queue);
    SoundAt(s.workers, i);
    var p, q, v := multiset(s.published), Queued(cfg, s.queue[1..]), Ticketed(cfg, first);
    assert p + v + q == p + multiset{} + (v + q);
    ChangeKeeps(cfg, s, i, Running([c], false), s');
  }

  lemma StartRemaining(cfg: Config, g: Graph, depth: nat, guarded: bool)
    ensures var contexts := [NewContext(g, depth, guarded)];
            && AllStacked(contexts)
            && Remaining(cfg, contexts) == Visit(cfg, g, depth, guarded)
            && StepsLeft(cfg, contexts) == Cost(cfg, g, depth, guarded)
  {
    hide Visit, Cost, ContextRemaining, ContextCost;
    var c := NewContext(g, depth, guarded);
    assert [] + [c] == [c];
    NewContextRemaining(cfg, [], g, depth, guarded);
    assert Remaining(cfg, []) == [];
    assert Visit(cfg, g, depth, guarded) + [] == Visit(cfg, g, depth, guarded);
  }

  lemma AdvancesParts(cfg: Config, before: seq<Context>, r: StepResult)
    requires Advances(cfg, before, r)
    ensures AllStacked(before) && AllStacked(r.contexts)
    ensures multiset(Remaining(cfg, before)) == multiset(r.published) + multiset(Remaining(cfg, r.contexts))
    ensures StepsLeft(cfg, r.contexts) < StepsLeft(cfg, before)
  {
    hide Remaining, StepsLeft, AllStacked;
  }

  lemma ExploreKeeps(cfg: Config, s: State, i: nat, s': State)
    requires AllSound(s.workers) && i < |s.workers| && Explores(cfg, s, i, s')
    ensures AllSound(s'.workers) && (Conserved(cfg, s) ==> Conserved(cfg, s')) && TotalLoad(cfg, s') < TotalLoad(cfg, s)
  {
    hide Remaining, StepsLeft, AllStacked, Step, Stacked, AllSound, Conserved, TotalLoad, Queued, QueueLoad, Advances;
    SoundAt(s.workers, i);
    var contexts := s.workers[i].contexts;
    StepAdvances(cfg, contexts);
    var r := Step(cfg, contexts);
    AdvancesParts(cfg, contexts, r);
    var p, n, k, q := multiset(s.published), multiset(r.published), multiset(Remaining(cfg, r.contexts)),
        Queued(cfg, s.queue);
    assert multiset(s.published + r.published) == p + n;
    assert (p + n) + k + q == p + (n + k) + q;
    ChangeKeeps(cfg, s, i, Running(r.contexts, false), s');
  }

  lemma DividesParts(cfg: Config, before: seq<Context>, h: Handoff)
    requires Divides(cfg, before, h)
    ensures AllStacked(before) && AllStacked(h.contexts)
    ensures multiset(Remaining(cfg, before))
            == Ticketed(cfg, Ticket(h.task, h.depth)) + multiset(Remaining(cfg, h.contexts))
    ensures StepsLeft(cfg, h.contexts) + Cost(cfg, h.task.graph, h.depth, h.task.guarded) < StepsLeft(cfg, before)
  {
    hide Remaining, StepsLeft, AllStacked, Visit, Cost;
  }

  lemma HandOffKeeps(cfg: Config, o: Options, s: State, i: nat, s': State)
    requires AllSound(s.workers) && i < |s.workers| && HandsOff(cfg, o, s, i, s')
    ensures AllSound(s'.workers) && (Conserved(cfg, s) ==> Conserved(cfg, s')) && TotalLoad(cfg, s') < TotalLoad(cfg, s)
  {
    hide Remaining, StepsLeft, AllStacked, Cost, Split, Stacked, AllSound, Conserved, TotalLoad, Queued, QueueLoad,
         Divides, Ticketed;
    SoundAt(s.workers, i);
    var contexts := s.workers[i].contexts;
    SplitDivides(cfg, contexts);
    var h := Split(cfg, contexts).value;
    DividesParts(cfg, contexts, h);
    var t := Ticket(h.task, h.depth);
    QueueAppend(cfg, s.queue, t);
    var p, v, k, q := multiset(s.published), Ticketed(cfg, t), multiset(Remaining(cfg, h.contexts)),
        Queued(cfg, s.queue);
    assert p + k + (q + v) == p + (v + k) + q;
    ChangeKeeps(cfg, s, i, Running(h.contexts, true), s');
  }

  lemma FinishKeeps(cfg: Config, s: State, i: nat, s': State)
    requires AllSound(s.workers) && i < |s.workers| && Finishes(s, i, s')
    ensures AllSound(s'.workers) && (Conserved(cfg, s) ==> Conserved(cfg, s')) && TotalLoad(cfg, s') < TotalLoad(cfg, s)
  {
    hide AllSound, Conserved, TotalLoad, Queued, QueueLoad;
    ChangeKeeps(cfg, s, i, s'.workers[i], s');
  }

  /** Changing where an idle worker waits holds nothing. */
  lemma MoveKeeps(cfg: Config, s: State, i: nat, w: Worker, s': State)
    requires AllSound(s.workers) && i < |s.workers| && !w.Running? && !s.workers[i].Running?
    requires s'.workers == s.workers[i := w] && s'.queue == s.queue && s'.published == s.published
    ensures AllSound(s'.workers) && (Conserved(cfg, s) ==> Conserved(cfg, s'))
            && TotalLoad(cfg, s') == TotalLoad(cfg, s)
  {
    hide AllSound, Conserved, TotalLoad, Queued, QueueLoad;
    ChangeKeeps(cfg, s, i, w, s');
  }

  lemma NotifyKeeps(cfg: Config, s: State, i: nat, s': State)
    requires AllSound(s.workers) && i < |s.workers| && Notifies(s, i, s')
    ensures AllSound(s'.workers) && (Conserved(cfg, s) ==> Conserved(cfg, s'))
            && TotalLoad(cfg, s') == TotalLoad(cfg, s)
  {
    hide Remaining, StepsLeft, AllStacked, AllSound, Conserved, TotalLoad, Queued, QueueLoad;
    var t := Place(s, i, Running(s.workers[i].contexts, false));
    SoundAt(s.workers, i);
    ChangeKeeps(cfg, s, i, Running(s.workers[i].contexts, false), t);
    if s' != t {
      var k :| 0 <= k < |s.workers| && s.workers[k] == Parked(false) && s' == Place(t, k, Parked(true));
      MoveKeeps(cfg, t, k, Parked(true), s');
    }
  }

  lemma {:induction false} WokenHolds(cfg: Config, workers: seq<Worker>)
    requires AllSound(workers)
    ensures AllSound(Woken(workers))
    ensures HeldAll(cfg, Woken(workers)) == HeldAll(cfg, workers)
    ensures LoadAll(cfg, Woken(workers)) == LoadAll(cfg, workers)
    ensures CountRunning(Woken(workers)) == CountRunning(workers) && CountParked(Woken(workers)) == CountParked(workers)
    decreases |workers|
  {
    hide Remaining, StepsLeft, AllStacked;
    forall i | 0 <= i < |workers| ensures WorkerSound(Woken(workers)[i]) {
      assert WorkerSound(workers[i]);
    }
    if workers != [] {
      WokenHolds(cfg, workers[1..]);
      assert Woken(workers)[1..] == Woken(workers[1..]);
      assert WorkerSound(workers[0]);
    }
  }

  lemma BroadcastKeeps(cfg: Config, s: State, i: nat, s': State)
    requires AllSound(s.workers) && i < |s.workers| && Broadcasts(s, i, s')
    ensures AllSound(s'.workers) && (Conserved(cfg, s) ==> Conserved(cfg, s'))
            && TotalLoad(cfg, s') == TotalLoad(cfg, s)
  {
    hide Remaining, StepsLeft, AllStacked;
    WokenHolds(cfg, s.workers);
    var t := s.(workers := Woken(s.workers));
    MoveKeeps(cfg, t, i, Scanning, s');
  }

  /** Every step of the search keeps the account balanced and leaves less to do; the others only move workers. */
  lemma ActKeeps(cfg: Config, o: Options, s: State, i: nat, s': State)
    requires AllSound(s.workers) && i < |s.workers| && (Works(cfg, o, s, i, s') || Waits(s, i, s'))
    ensures AllSound(s'.workers) && (Conserved(cfg, s) ==> Conserved(cfg, s'))
    ensures Works(cfg, o, s, i, s') ==> TotalLoad(cfg, s') < TotalLoad(cfg, s)
    ensures TotalLoad(cfg, s') <= TotalLoad(cfg, s)
  {
    hide Conserved, TotalLoad, AllSound, Stacked, Step, Split, Woken;
    if Takes(s, i, s') { TakeKeeps(cfg, s, i, s'); }
    else if Explores(cfg, s, i, s') { ExploreKeeps(cfg, s, i, s'); }
    else if HandsOff(cfg, o, s, i, s') { HandOffKeeps(cfg, o, s, i, s'); }
    else if Finishes(s, i, s') { FinishKeeps(cfg, s, i, s'); }
    else if Parks(s, i, s') { MoveKeeps(cfg, s, i, Parked(false), s'); }
    else if WakesSpuriously(s, i, s') { MoveKeeps(cfg, s, i, Parked(true), s'); }
    else if Leaves(s, i, s') { MoveKeeps(cfg, s, i, Exited, s'); }
    else if Notifies(s, i, s') { NotifyKeeps(cfg, s, i, s'); }
    else { BroadcastKeeps(cfg, s, i, s'); }
  }

  // ----- coordination -----

  lemma AwakeAt(s: State, i: nat)
    requires i < |s.workers| && Awake(s.workers[i])
    ensures SomeAwake(s)
  {
  }

  lemma PlaceCoordinated(o: Options, s: State, i: nat, w: Worker, s': State)
    requires Coordinated(o, s) && i < |s.workers| && s'.workers == s.workers[i := w]
    ensures CountRunning(s'.workers) == s.active - (if s.workers[i].Running? then 1 else 0)
            + (if w.Running? then 1 else 0)
    ensures CountParked(s'.workers) == s.idle - (if s.workers[i].Parked? then 1 else 0) + (if w.Parked? then 1 else 0)
    ensures (s.workers[i].Running? ==> s.active > 0) && (s.workers[i].Parked? ==> s.idle > 0)
  {
    CountUpdate(s.workers, i, w);
    CountPositive(s.workers, i);
  }

  lemma TakeCoordinated(o: Options, s: State, i: nat, s': State)
    requires Coordinated(o, s) && i < |s.workers| && Takes(s, i, s')
    ensures Coordinated(o, s')
  {
    hide CountRunning, CountParked, NewContext;
    PlaceCoordinated(o, s, i, s'.workers[i], s');
    AwakeAt(s', i);
  }

  lemma ParkCoordinated(o: Options, s: State, i: nat, s': State)
    requires Coordinated(o, s) && i < |s.workers| && Parks(s, i, s')
    ensures Coordinated(o, s')
  {
    hide CountRunning, CountParked;
    PlaceCoordinated(o, s, i, Parked(false), s');
  }

  lemma SpuriousCoordinated(o: Options, s: State, i: nat, s': State)
    requires Coordinated(o, s) && i < |s.workers| && WakesSpuriously(s, i, s')
    ensures Coordinated(o, s')
  {
    hide CountRunning, CountParked;
    PlaceCoordinated(o, s, i, Parked(true), s');
    AwakeAt(s', i);
    BroadcasterStays(s, i, s');
  }

  lemma BroadcasterStays(s: State, i: nat, s': State)
    requires i < |s.workers| && !s.workers[i].Broadcasting? && |s'.workers| == |s.workers|
    requires forall k :: 0 <= k < |s.workers| && k != i ==> s'.workers[k] == s.workers[k]
    ensures (exists k :: 0 <= k < |s.workers| && s.workers[k].Broadcasting?) ==>
              exists k :: 0 <= k < |s'.workers| && s'.workers[k].Broadcasting?
  {
    if k :| 0 <= k < |s.workers| && s.workers[k].Broadcasting? {
      assert s'.workers[k].Broadcasting?;
    }
  }

  lemma LeaveCoordinated(o: Options, s: State, i: nat, s': State)
    requires Coordinated(o, s) && i < |s.workers| && Leaves(s, i, s')
    ensures Coordinated(o, s')
  {
    hide CountRunning, CountParked;
    PlaceCoordinated(o, s, i, Exited, s');
    BroadcasterStays(s, i, s');
  }

  lemma RunCoordinated(o: Options, s: State, i: nat, w: Worker, s': State)
    requires Coordinated(o, s) && i < |s.workers| && s.workers[i].Running? && w.Running?
    requires s' == Place(s, i, w).(queue := s'.queue, published := s'.published)
    requires |s'.queue| <= o.bound
    ensures Coordinated(o, s')
  {
    hide CountRunning, CountParked;
    PlaceCoordinated(o, s, i, w, s');
    AwakeAt(s', i);
  }

  lemma NotifyCoordinated(o: Options, s: State, i: nat, s': State)
    requires Coordinated(o, s) && i < |s.workers| && Notifies(s, i, s')
    ensures Coordinated(o, s')
  {
    hide CountRunning, CountParked, Coordinated;
    var w := Running(s.workers[i].contexts, false);
    var t := Place(s, i, w);
    BoundHolds(o, s);
    RunCoordinated(o, s, i, w, t);
    if s' != t {
      var k :| 0 <= k < |s.workers| && s.workers[k] == Parked(false) && s' == Place(t, k, Parked(true));
      assert WakesSpuriously(t, k, s');
      SpuriousCoordinated(o, t, k, s');
    }
  }

  lemma BoundHolds(o: Options, s: State)
    requires Coordinated(o, s)
    ensures |s.queue| <= o.bound
  {
  }

  lemma FinishCoordinated(o: Options, s: State, i: nat, s': State)
    requires Coordinated(o, s) && i < |s.workers| && Finishes(s, i, s')
    ensures Coordinated(o, s')
  {
    hide CountRunning, CountParked;
    PlaceCoordinated(o, s, i, s'.workers[i], s');
    AwakeAt(s', i);
  }

  lemma BroadcastCoordinated(o: Options, s: State, i: nat, s': State)
    requires Coordinated(o, s) && i < |s.workers| && Broadcasts(s, i, s')
    ensures Coordinated(o, s')
  {
    BroadcastCounts(s, i, s');
    AwakeAt(s', i);
  }

  lemma BroadcastCounts(s: State, i: nat, s': State)
    requires i < |s.workers| && Broadcasts(s, i, s')
    ensures CountRunning(s'.workers) == CountRunning(s.workers) && CountParked(s'.workers) == CountParked(s.workers)
  {
    WokenCounts(s.workers);
    CountUpdate(Woken(s.workers), i, Scanning);
  }

  lemma {:induction false} WokenCounts(workers: seq<Worker>)
    ensures CountRunning(Woken(workers)) == CountRunning(workers) && CountParked(Woken(workers)) == CountParked(workers)
    decreases |workers|
  {
    if workers != [] {
      WokenCounts(workers[1..]);
      assert Woken(workers)[1..] == Woken(workers[1..]);
    }
  }

  lemma ActCoordinated(cfg: Config, o: Options, s: State, i: nat, s': State)
    requires Coordinated(o, s) && i < |s.workers| && (Works(cfg, o, s, i, s') || Waits(s, i, s'))
    ensures Coordinated(o, s')
  {
    hide Coordinated, Stacked, Step, Split, Woken;
    BoundHolds(o, s);
    if Takes(s, i, s') { TakeCoordinated(o, s, i, s'); }
    else if Explores(cfg, s, i, s') { RunCoordinated(o, s, i, s'.workers[i], s'); }
    else if HandsOff(cfg, o, s, i, s') { RunCoordinated(o, s, i, s'.workers[i], s'); }
    else if Finishes(s, i, s') { FinishCoordinated(o, s, i, s'); }
    else if Parks(s, i, s') { ParkCoordinated(o, s, i, s'); }
    else if WakesSpuriously(s, i, s') { SpuriousCoordinated(o, s, i, s'); }
    else if Leaves(s, i, s') { LeaveCoordinated(o, s, i, s'); }
    else if Notifies(s, i, s') { NotifyCoordinated(o, s, i, s'); }
    else { BroadcastCoordinated(o, s, i, s'); }
  }

  // ----- whole runs -----

  lemma InitInv(cfg: Config, o: Options, s: State)
    requires Init(cfg, o, s) && o.workers > 0 && o.bound > 0
    ensures Inv(cfg, o, s)
  {
    hide Visit;
    NoneRunning(s.workers);
    NothingHeld(cfg, s.workers);
    QueueFirst(cfg, s.queue);
    AwakeAt(s, 0);
  }

  lemma {:induction false} NoneRunning(workers: seq<Worker>)
    requires forall i :: 0 <= i < |workers| ==> workers[i] == Scanning
    ensures CountRunning(workers) == 0 && CountParked(workers) == 0
    decreases |workers|
  {
    if workers != [] { NoneRunning(workers[1..]); }
  }

  lemma {:induction false} ExecutionInv(cfg: Config, o: Options, run: seq<State>, k: nat)
    requires Execution(cfg, o, run) && o.workers > 0 && o.bound > 0 && k < |run|
    ensures Inv(cfg, o, run[k])
    decreases k
  {
    hide Init, Conserved, Coordinated, AllSound, Works, Waits;
    if k == 0 {
      InitInv(cfg, o, run[0]);
    } else {
      ExecutionInv(cfg, o, run, k - 1);
      assert Acts(cfg, o, run[k - 1], run[k]);
      var i: nat :| i < |run[k - 1].workers| && (Works(cfg, o, run[k - 1], i, run[k]) || Waits(run[k - 1], i, run[k]));
      ActKeeps(cfg, o, run[k - 1], i, run[k]);
      ActCoordinated(cfg, o, run[k - 1], i, run[k]);
    }
  }

  /** In every interleaving the queue respects its bound, a queued task always finds a worker that is awake, and
      once the search is declared complete exactly the sequential executions have been published. */
  lemma ParallelSafety(cfg: Config, o: Options, run: seq<State>)
    requires Execution(cfg, o, run) && o.workers > 0 && o.bound > 0
    ensures var s := run[|run| - 1];
            && |s.queue| <= o.bound
            && (s.queue != [] ==> SomeAwake(s))
            && (s.complete ==> s.queue == [] && (forall i :: 0 <= i < |s.workers| ==> !s.workers[i].Running?))
            && (s.complete ==> multiset(s.published) == multiset(Executions(cfg)))
  {
    var s := run[|run| - 1];
    ExecutionInv(cfg, o, run, |run| - 1);
    if s.complete {
      NothingHeld(cfg, s.workers);
      forall i | 0 <= i < |s.workers| ensures !s.workers[i].Running? {
        CountPositive(s.workers, i);
      }
    }
  }

  /** Before completion some worker can always move the search forward. */
  lemma SearchProgresses(cfg: Config, o: Options, s: State)
    requires Inv(cfg, o, s) && !s.complete
    ensures exists i: nat, s': State :: i < |s.workers| && (Works(cfg, o, s, i, s') || Notifies(s, i, s'))
  {
    if s.active > 0 {
      RunningExists(s.workers);
      var i :| 0 <= i < |s.workers| && s.workers[i].Running?;
      RunningMoves(cfg, o, s, i);
    } else {
      var i :| 0 <= i < |s.workers| && Awake(s.workers[i]);
      CountPositive(s.workers, i);
      var first := s.queue[0];
      var s' := Place(s, i, Running([NewContext(first.task.graph, first.depth, first.task.guarded)], false))
                .(queue := s.queue[1..], active := s.active + 1,
                  idle := if s.workers[i].Parked? && s.idle > 0 then s.idle - 1 else s.idle);
      assert Takes(s, i, s');
      assert Works(cfg, o, s, i, s');
    }
  }

  lemma RunningMoves(cfg: Config, o: Options, s: State, i: nat)
    requires AllSound(s.workers) && i < |s.workers| && s.workers[i].Running? && s.active > 0
    ensures exists s': State :: Works(cfg, o, s, i, s') || Notifies(s, i, s')
  {
    hide Step;
    var w := s.workers[i];
    assert WorkerSound(w);
    if w.owes {
      var t := Place(s, i, Running(w.contexts, false));
      if k :| 0 <= k < |s.workers| && s.workers[k] == Parked(false) {
        assert Notifies(s, i, Place(t, k, Parked(true)));
      } else {
        assert Notifies(s, i, t);
      }
    } else if w.contexts != [] {
      assert Stacked(Top(w.contexts));
      var r := Step(cfg, w.contexts);
      var s' := Place(s, i, Running(r.contexts, false)).(published := s.published + r.published);
      assert Explores(cfg, s, i, s');
      assert Works(cfg, o, s, i, s');
    } else {
      var s' := if s.queue == [] && s.active == 1 then Place(s, i, Broadcasting).(active := 0, complete := true)
                else Place(s, i, Scanning).(active := s.active - 1);
      assert Finishes(s, i, s');
      assert Works(cfg, o, s, i, s');
    }
  }

  /** After completion every worker that is still there gets to leave: none is left waiting unnotified unless
      the broadcast is still to come. */
  lemma NobodyStranded(cfg: Config, o: Options, s: State)
    requires Inv(cfg, o, s) && s.complete
    ensures (forall i :: 0 <= i < |s.workers| ==> s.workers[i].Exited?)
            || exists i: nat, s': State :: i < |s.workers| && (Leaves(s, i, s') || Broadcasts(s, i, s'))
  {
    if i :| 0 <= i < |s.workers| && s.workers[i].Broadcasting? {
      assert Broadcasts(s, i, s.(workers := Woken(s.workers)[i := Scanning]));
    } else if i :| 0 <= i < |s.workers| && !s.workers[i].Exited? {
      CountPositive(s.workers, i);
      var s' := Place(s, i, Exited).(idle := if s.workers[i].Parked? && s.idle > 0 then s.idle - 1 else s.idle);
      assert Leaves(s, i, s');
    }
  }

  ghost function WorkSteps(cfg: Config, o: Options, run: seq<State>, k: nat): nat
    requires k < |run|
  {
    if k == 0 then 0
    else WorkSteps(cfg, o, run, k - 1)
         + (if WorkDone(cfg, o, run[k - 1], run[k]) then 1 else 0)
  }

  /** No interleaving, however long, does more search work than the first task is worth. */
  lemma {:induction false} WorkIsBounded(cfg: Config, o: Options, run: seq<State>, k: nat)
    requires Execution(cfg, o, run) && o.workers > 0 && o.bound > 0 && k < |run|
    ensures AllSound(run[k].workers)
    ensures WorkSteps(cfg, o, run, k) + TotalLoad(cfg, run[k]) <= 3 * Cost(cfg, EmptyGraph, 0, false) + 2
    decreases k
  {
    hide Conserved, Coordinated, AllSound, Works, Waits, TotalLoad;
    ExecutionInv(cfg, o, run, k);
    if k == 0 {
      InitialLoad(cfg, o, run[0]);
    } else {
      WorkIsBounded(cfg, o, run, k - 1);
      assert Acts(cfg, o, run[k - 1], run[k]);
      var i: nat :| i < |run[k - 1].workers| && (Works(cfg, o, run[k - 1], i, run[k]) || Waits(run[k - 1], i, run[k]));
      ActKeeps(cfg, o, run[k - 1], i, run[k]);
      if WorkDone(cfg, o, run[k - 1], run[k]) {
        var s, s' := run[k - 1], run[k];
        var j: nat :| j < |s.workers| && Works(cfg, o, s, j, s');
        ActKeeps(cfg, o, s, j, s');
      }
    }
  }

  lemma InitialLoad(cfg: Config, o: Options, s: State)
    requires Init(cfg, o, s) && AllSound(s.workers)
    ensures TotalLoad(cfg, s) == 3 * Cost(cfg, EmptyGraph, 0, false) + 2
  {
    hide Cost;
    NoLoad(cfg, s.workers);
    QueueFirst(cfg, s.queue);
  }

  lemma {:induction false} NoLoad(cfg: Config, workers: seq<Worker>)
    requires AllSound(workers) && forall i :: 0 <= i < |workers| ==> workers[i] == Scanning
    ensures LoadAll(cfg, workers) == 0
    decreases |workers|
  {
    if workers != [] { NoLoad(cfg, workers[1..]); }
  }

  // ----- how long a run can be -----

  /** What a worker may still do besides search work, in steps: `n` is how many workers a broadcast can wake. */
  function Effort(n: nat, w: Worker): nat
  {
    match w
    case Exited => 0
    case Parked(notified) => if notified then 2 else 1
    case Scanning => 3
    case Running(_, owes) => if owes then 5 else 3
    case Broadcasting => n + 4
  }

  function Efforts(n: nat, workers: seq<Worker>): nat
    decreases |workers|
  {
    if workers == [] then 0 else Effort(n, workers[0]) + Efforts(n, workers[1..])
  }

  lemma {:induction false} EffortUpdate(n: nat, workers: seq<Worker>, i: nat, w: Worker)
    requires i < |workers|
    ensures Efforts(n, workers[i := w]) + Effort(n, workers[i]) == Efforts(n, workers) + Effort(n, w)
    decreases |workers|
  {
    if i > 0 {
      EffortUpdate(n, workers[1..], i - 1, w);
      assert workers[i := w][1..] == workers[1..][i - 1 := w];
    } else {
      assert workers[i := w][1..] == workers[1..];
    }
  }

  lemma {:induction false} WokenEffort(n: nat, workers: seq<Worker>)
    ensures Efforts(n, Woken(workers)) <= Efforts(n, workers) + |workers|
    decreases |workers|
  {
    if workers != [] {
      WokenEffort(n, workers[1..]);
      assert Woken(workers)[1..] == Woken(workers[1..]);
    }
  }

  /** Search work outweighs everything else a step may bring about. */
  ghost function Budget(cfg: Config, s: State): nat
    requires AllSound(s.workers)
  {
    Priced(|s.workers| + 4, TotalLoad(cfg, s)) + Efforts(|s.workers|, s.workers)
  }

  /** `load` times `price`. */
  function Priced(price: nat, load: nat): nat
  {
    if load == 0 then 0 else price + Priced(price, load - 1)
  }

  lemma {:induction false} LessIsCheaper(price: nat, load: nat, less: nat)
    requires less < load
    ensures Priced(price, less) + price <= Priced(price, load)
    decreases load
  {
    if less < load - 1 { LessIsCheaper(price, load - 1, less); }
  }

  ghost predicate Moves(cfg: Config, o: Options, s: State, i: nat, s': State)
    requires i < |s.workers|
  {
    Works(cfg, o, s, i, s') || Parks(s, i, s') || Leaves(s, i, s') || Notifies(s, i, s') || Broadcasts(s, i, s')
  }

  lemma WorkEffort(cfg: Config, o: Options, s: State, i: nat, s': State)
    requires i < |s.workers| && Works(cfg, o, s, i, s')
    ensures |s'.workers| == |s.workers|
    ensures Efforts(|s.workers|, s'.workers) < Efforts(|s.workers|, s.workers) + |s.workers| + 4
  {
    hide Step, Split, Stacked, NewContext;
    EffortUpdate(|s.workers|, s.workers, i, s'.workers[i]);
  }

  lemma NotifyEffort(s: State, i: nat, s': State)
    requires i < |s.workers| && Notifies(s, i, s')
    ensures |s'.workers| == |s.workers| && Efforts(|s.workers|, s'.workers) < Efforts(|s.workers|, s.workers)
  {
    var n, w := |s.workers|, Running(s.workers[i].contexts, false);
    EffortUpdate(n, s.workers, i, w);
    var t := Place(s, i, w);
    if s' != t {
      var k :| 0 <= k < |s.workers| && s.workers[k] == Parked(false) && s' == Place(t, k, Parked(true));
      EffortUpdate(n, t.workers, k, Parked(true));
    }
  }

  lemma BroadcastEffort(s: State, i: nat, s': State)
    requires i < |s.workers| && Broadcasts(s, i, s')
    ensures |s'.workers| == |s.workers| && Efforts(|s.workers|, s'.workers) < Efforts(|s.workers|, s.workers)
  {
    WokenEffort(|s.workers|, s.workers);
    EffortUpdate(|s.workers|, Woken(s.workers), i, Scanning);
  }

  lemma WaitEffort(s: State, i: nat, s': State)
    requires i < |s.workers| && Waits(s, i, s')
    ensures |s'.workers| == |s.workers|
    ensures if WakesSpuriously(s, i, s') then Efforts(|s.workers|, s'.workers) == Efforts(|s.workers|, s.workers) + 1
            else Efforts(|s.workers|, s'.workers) < Efforts(|s.workers|, s.workers)
  {
    hide Woken;
    if Notifies(s, i, s') {
      NotifyEffort(s, i, s');
    } else if Broadcasts(s, i, s') {
      BroadcastEffort(s, i, s');
    } else {
      EffortUpdate(|s.workers|, s.workers, i, s'.workers[i]);
    }
  }

  /** Every step but a spurious wake-up spends, and a spurious wake-up costs one. */
  lemma StepSpends(cfg: Config, o: Options, s: State, i: nat, s': State)
    requires AllSound(s.workers) && i < |s.workers| && (Works(cfg, o, s, i, s') || Waits(s, i, s'))
    ensures AllSound(s'.workers)
    ensures Moves(cfg, o, s, i, s') ==> Budget(cfg, s') < Budget(cfg, s)
    ensures !Moves(cfg, o, s, i, s') ==> WakesSpuriously(s, i, s') && Budget(cfg, s') == Budget(cfg, s) + 1
  {
    hide AllSound, Conserved, TotalLoad, Works, Efforts, Priced;
    ActKeeps(cfg, o, s, i, s');
    if Works(cfg, o, s, i, s') {
      WorkEffort(cfg, o, s, i, s');
      LessIsCheaper(|s.workers| + 4, TotalLoad(cfg, s), TotalLoad(cfg, s'));
    } else {
      WaitEffort(s, i, s');
      WaitLoad(cfg, s, i, s');
    }
  }

  lemma WaitLoad(cfg: Config, s: State, i: nat, s': State)
    requires AllSound(s.workers) && i < |s.workers| && Waits(s, i, s')
    ensures AllSound(s'.workers) && TotalLoad(cfg, s') == TotalLoad(cfg, s)
  {
    hide AllSound, Conserved, TotalLoad, Woken;
    if Parks(s, i, s') { MoveKeeps(cfg, s, i, Parked(false), s'); }
    else if WakesSpuriously(s, i, s') { MoveKeeps(cfg, s, i, Parked(true), s'); }
    else if Leaves(s, i, s') { MoveKeeps(cfg, s, i, Exited, s'); }
    else if Notifies(s, i, s') { NotifyKeeps(cfg, s, i, s'); }
    else { BroadcastKeeps(cfg, s, i, s'); }
  }

  ghost predicate OnlySpurious(cfg: Config, o: Options, s: State, s': State)
  {
    forall i: nat :: i < |s.workers| ==> !Moves(cfg, o, s, i, s')
  }

  ghost function SpuriousSteps(cfg: Config, o: Options, run: seq<State>, k: nat): nat
    requires k < |run|
  {
    if k == 0 then 0
    else SpuriousSteps(cfg, o, run, k - 1) + if OnlySpurious(cfg, o, run[k - 1], run[k]) then 1 else 0
  }

  ghost function LongestRun(cfg: Config, o: Options): nat
  {
    Priced(o.workers + 4, 3 * Cost(cfg, EmptyGraph, 0, false) + 2) + 3 * o.workers
  }

  lemma InitialBudget(cfg: Config, o: Options, s: State)
    requires Init(cfg, o, s) && AllSound(s.workers)
    ensures Budget(cfg, s) == LongestRun(cfg, o)
  {
    hide Cost, AllSound, TotalLoad, Priced;
    InitialLoad(cfg, o, s);
    ScanningEffort(|s.workers|, s.workers);
  }

  lemma {:induction false} ScanningEffort(n: nat, workers: seq<Worker>)
    requires forall i :: 0 <= i < |workers| ==> workers[i] == Scanning
    ensures Efforts(n, workers) == 3 * |workers|
    decreases |workers|
  {
    if workers != [] { ScanningEffort(n, workers[1..]); }
  }

  /** No schedule keeps the workers busy for ever: but for spurious wake-ups, a run is no longer than a number fixed
      by the search and the number of workers. */
  lemma {:induction false} RunsAreBounded(cfg: Config, o: Options, run: seq<State>, k: nat)
    requires Execution(cfg, o, run) && o.workers > 0 && o.bound > 0 && k < |run|
    ensures AllSound(run[k].workers)
    ensures k + Budget(cfg, run[k]) <= LongestRun(cfg, o) + 2 * SpuriousSteps(cfg, o, run, k)
    decreases k
  {
    hide Conserved, Coordinated, AllSound, Works, Waits, Moves, Budget, Init, LongestRun;
    ExecutionInv(cfg, o, run, 0);
    if k == 0 {
      InitialBudget(cfg, o, run[0]);
    } else {
      RunsAreBounded(cfg, o, run, k - 1);
      var s, s' := run[k - 1], run[k];
      assert Acts(cfg, o, s, s');
      var i: nat :| i < |s.workers| && (Works(cfg, o, s, i, s') || Waits(s, i, s'));
      StepSpends(cfg, o, s, i, s');
      if !OnlySpurious(cfg, o, s, s') {
        var j: nat :| j < |s.workers| && Moves(cfg, o, s, j, s');
        MovesActs(cfg, o, s, j, s');
        StepSpends(cfg, o, s, j, s');
      }
    }
  }

  lemma MovesActs(cfg: Config, o: Options, s: State, i: nat, s': State)
    requires i < |s.workers| && Moves(cfg, o, s, i, s')
    ensures Works(cfg, o, s, i, s') || Waits(s, i, s')
  {
    hide Works;
  }

  // ----- every run can be finished -----

  ghost predicate AllGone(s: State)
  {
    s.complete && forall i :: 0 <= i < |s.workers| ==> s.workers[i].Exited?
  }

  /** Until everybody is gone some step other than a spurious wake-up is possible. */
  lemma NoDeadEnd(cfg: Config, o: Options, s: State)
    requires Inv(cfg, o, s) && !AllGone(s)
    ensures exists i: nat, s': State :: i < |s.workers| && Moves(cfg, o, s, i, s')
  {
    hide Inv, Works, Notifies, Leaves, Broadcasts;
    if s.complete {
      NobodyStranded(cfg, o, s);
      var i: nat, s': State :| i < |s.workers| && (Leaves(s, i, s') || Broadcasts(s, i, s'));
      assert Moves(cfg, o, s, i, s');
    } else {
      SearchProgresses(cfg, o, s);
      var i: nat, s': State :| i < |s.workers| && (Works(cfg, o, s, i, s') || Notifies(s, i, s'));
      assert Moves(cfg, o, s, i, s');
    }
  }

  ghost predicate Leads(cfg: Config, o: Options, path: seq<State>)
  {
    |path| > 0 && forall k :: 0 <= k < |path| - 1 ==> Acts(cfg, o, path[k], path[k + 1])
  }

  lemma LeadsOneMore(cfg: Config, o: Options, s: State, s': State, path: seq<State>)
    requires Acts(cfg, o, s, s') && Leads(cfg, o, path) && path[0] == s'
    ensures Leads(cfg, o, [s] + path) && ([s] + path)[|path|] == path[|path| - 1]
  {
    hide Acts;
    var longer := [s] + path;
    forall k | 0 <= k < |longer| - 1 ensures Acts(cfg, o, longer[k], longer[k + 1]) {
      if k > 0 { assert longer[k] == path[k - 1] && longer[k + 1] == path[k]; }
    }
  }

  lemma Alone(cfg: Config, o: Options, s: State)
    ensures Leads(cfg, o, [s])
  {
  }

  lemma MoveKeepsInv(cfg: Config, o: Options, s: State, i: nat, s': State)
    requires Inv(cfg, o, s) && i < |s.workers| && Moves(cfg, o, s, i, s')
    ensures Inv(cfg, o, s') && Acts(cfg, o, s, s')
    ensures BudgetOf(cfg, s') < BudgetOf(cfg, s)
  {
    hide Conserved, Coordinated, AllSound, Works, Waits, Moves, Budget;
    MovesActs(cfg, o, s, i, s');
    ActKeeps(cfg, o, s, i, s');
    ActCoordinated(cfg, o, s, i, s');
    StepSpends(cfg, o, s, i, s');
  }

  ghost function BudgetOf(cfg: Config, s: State): nat
  {
    if AllSound(s.workers) then Budget(cfg, s) else 0
  }

  /** From every state of every run the search can be brought to its end. */
  lemma {:induction false} CanFinish(cfg: Config, o: Options, s: State) returns (path: seq<State>)
    requires Inv(cfg, o, s)
    ensures Leads(cfg, o, path) && path[0] == s && AllGone(path[|path| - 1])
    decreases BudgetOf(cfg, s)
  {
    hide Inv, Acts, Moves, Leads, AllGone, BudgetOf;
    if AllGone(s) {
      path := [s];
      Alone(cfg, o, s);
    } else {
      NoDeadEnd(cfg, o, s);
      var i: nat, s': State :| i < |s.workers| && Moves(cfg, o, s, i, s');
      MoveKeepsInv(cfg, o, s, i, s');
      var rest := CanFinish(cfg, o, s');
      LeadsOneMore(cfg, o, s, s', rest);
      path := [s] + rest;
    }
  }

  /** Every run, wherever it was interrupted, extends to one that ends: the search complete, every worker gone and
      exactly the sequential executions published. */
  lemma EveryRunCanComplete(cfg: Config, o: Options, run: seq<State>) returns (whole: seq<State>)
    requires Execution(cfg, o, run) && o.workers > 0 && o.bound > 0
    ensures Execution(cfg, o, whole) && run <= whole
    ensures var s := whole[|whole| - 1]; AllGone(s) && multiset(s.published) == multiset(Executions(cfg))
  {
    hide Acts, Init, Inv;
    var last := |run| - 1;
    ExecutionInv(cfg, o, run, last);
    var path := CanFinish(cfg, o, run[last]);
    whole := run + path[1..];
    forall k | 0 <= k < |whole| - 1 ensures Acts(cfg, o, whole[k], whole[k + 1]) {
      if k >= last {
        assert whole[k] == path[k - last] && whole[k + 1] == path[k + 1 - last];
      }
    }
    assert whole[|whole| - 1] == path[|path| - 1];
    ParallelSafety(cfg, o, whole);
  }
}
