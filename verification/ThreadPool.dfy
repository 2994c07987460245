// ThreadPool: workers share a queue under one lock and sleep on one condition variable. Blocks under the lock,
// notifications and the ends of tasks are single steps that interleave freely; sleepers may also wake for no
// reason.

module ThreadPools {

  type Task = nat

  datatype Worker =
    | Checking             // about to take the lock and test the predicate
    | Asleep               // in the condition variable
    | Busy(task: Task)
    | Exited

  datatype State = State(
    workers: seq<Worker>,
    tasks: seq<Task>,
    stop: bool,
    notifies: nat,           // callers of Add between the lock and their notify_one
    notifyAll: bool,         // the destructor between the lock and its notify_all
    accepted: seq<Task>,     // history: tasks taken in by Add
    dequeued: seq<Task>,     // history: tasks taken out by workers
    finished: seq<Task>)     // history: tasks run to their end

  datatype Action =
    | Add(task: Task)
    | NotifyOne(worker: nat)       // wakes that sleeper; nobody, if nobody sleeps
    | Wake(worker: nat)
    | Check(worker: nat)
    | Finish(worker: nat)
    | Stop
    | NotifyAll

  ghost predicate Initial(s: State) {
    && (forall w :: 0 <= w < |s.workers| ==> s.workers[w] == Checking)
    && s.tasks == [] && !s.stop && s.notifies == 0 && !s.notifyAll
    && s.accepted == [] && s.dequeued == [] && s.finished == []
  }

  predicate Is(s: State, w: nat, worker: Worker) { w < |s.workers| && s.workers[w] == worker }

  predicate NobodySleeps(s: State) { forall w :: 0 <= w < |s.workers| ==> s.workers[w] != Asleep }

  predicate Enabled(s: State, a: Action) {
    match a
    case Add(_) => true
    case NotifyOne(w) => s.notifies > 0 && (Is(s, w, Asleep) || NobodySleeps(s))
    case Wake(w) => Is(s, w, Asleep)
    case Check(w) => Is(s, w, Checking)
    case Finish(w) => w < |s.workers| && s.workers[w].Busy?
    case Stop => !s.stop
    case NotifyAll => s.notifyAll
  }

  function SetWorker(s: State, w: nat, worker: Worker): State
    requires w < |s.workers|
  {
    s.(workers := s.workers[w := worker])
  }

  function Next(s: State, a: Action): State
    requires Enabled(s, a)
  {
    match a
    case Add(t) =>
      if s.stop then s   // throws
      else s.(tasks := s.tasks + [t], accepted := s.accepted + [t], notifies := s.notifies + 1)
    case NotifyOne(w) =>
      var s1 := s.(notifies := s.notifies - 1);
      if Is(s, w, Asleep) then SetWorker(s1, w, Checking) else s1
    case Wake(w) => SetWorker(s, w, Checking)
    case Check(w) =>
      if !s.stop && s.tasks == [] then SetWorker(s, w, Asleep)
      else if s.tasks == [] then SetWorker(s, w, Exited)
      else SetWorker(s, w, Busy(s.tasks[0])).(tasks := s.tasks[1..], dequeued := s.dequeued + [s.tasks[0]])
    case Finish(w) => SetWorker(s, w, Checking).(finished := s.finished + [s.workers[w].task])
    case Stop => s.(stop := true, notifyAll := true)
    case NotifyAll =>
      s.(notifyAll := false, workers := seq(|s.workers|, i requires 0 <= i < |s.workers| =>
        if s.workers[i] == Asleep then Checking else s.workers[i]))
  }

  // ---------- The invariant ----------

  /** The tasks that workers are running. */
  function InHand(workers: seq<Worker>): multiset<Task> {
    if workers == [] then multiset{} else Hand(workers[0]) + InHand(workers[1..])
  }

  function Hand(worker: Worker): multiset<Task> {
    if worker.Busy? then multiset{worker.task} else multiset{}
  }

  /** Somebody will look at the queue. */
  ghost predicate Attended(s: State) {
    || s.notifies > 0 || s.notifyAll
    || exists w :: 0 <= w < |s.workers| && (s.workers[w] == Checking || s.workers[w].Busy?)
  }

  ghost predicate Inv(s: State) {
    && s.dequeued + s.tasks == s.accepted
    && multiset(s.dequeued) == multiset(s.finished) + InHand(s.workers)
    && (s.tasks != [] && s.workers != [] ==> Attended(s))
    && (s.stop && !s.notifyAll ==> NobodySleeps(s))
    && (s.notifyAll ==> s.stop)
    && (forall w :: 0 <= w < |s.workers| && s.workers[w] == Exited ==> s.stop && s.tasks == [])
  }

  lemma Regroup(a: multiset<Task>, b: multiset<Task>, c: multiset<Task>, d: multiset<Task>, e: multiset<Task>)
    requires b + c == d + e
    ensures (a + b) + c == (a + d) + e
  {
    assert (a + b) + c == a + (b + c) && (a + d) + e == a + (d + e);
  }

  lemma {:induction false} InHandUpdate(workers: seq<Worker>, w: nat, worker: Worker)
    requires w < |workers|
    ensures InHand(workers[w := worker]) + Hand(workers[w]) == InHand(workers) + Hand(worker)
    decreases w
  {
    var updated, rest := workers[w := worker], workers[1..];
    if w == 0 {
      assert updated[1..] == rest;
    } else {
      InHandUpdate(rest, w - 1, worker);
      assert updated[1..] == rest[w - 1 := worker];
      Regroup(Hand(workers[0]), InHand(updated[1..]), Hand(workers[w]), InHand(rest), Hand(worker));
    }
  }

  lemma {:induction false} InHandSame(ws: seq<Worker>, vs: seq<Worker>)
    requires |ws| == |vs|
    requires forall i :: 0 <= i < |ws| ==> ws[i] == vs[i] || (!ws[i].Busy? && !vs[i].Busy?)
    ensures InHand(ws) == InHand(vs)
    decreases |ws|
  {
    if ws != [] {
      InHandSame(ws[1..], vs[1..]);
    }
  }

  lemma {:induction false} InHandNone(workers: seq<Worker>)
    requires forall w :: 0 <= w < |workers| ==> !workers[w].Busy?
    ensures InHand(workers) == multiset{}
    decreases |workers|
  {
    if workers != [] {
      InHandNone(workers[1..]);
    }
  }

  lemma InitialInv(s: State)
    requires Initial(s)
    ensures Inv(s)
  {
    InHandNone(s.workers);
    assert s.dequeued + s.tasks == s.accepted;
  }

  lemma SleepKeeps(s: State, w: nat)
    requires Inv(s) && Is(s, w, Checking) && !s.stop && s.tasks == []
    ensures Inv(SetWorker(s, w, Asleep))
  {
    InHandSame(s.workers, s.workers[w := Asleep]);
  }

  lemma ExitKeeps(s: State, w: nat)
    requires Inv(s) && Is(s, w, Checking) && s.stop && s.tasks == []
    ensures Inv(SetWorker(s, w, Exited))
  {
    InHandSame(s.workers, s.workers[w := Exited]);
  }

  lemma TakenBalance(out: multiset<Task>, done: multiset<Task>, hands: multiset<Task>, hands': multiset<Task>, t: Task)
    requires out == done + hands && hands' + multiset{} == hands + multiset{t}
    ensures out + multiset{t} == done + hands'
  {
    assert hands' == hands + multiset{t};
  }

  lemma FinishedBalance(out: multiset<Task>, done: multiset<Task>, hands: multiset<Task>, hands': multiset<Task>,
                        t: Task)
    requires out == done + hands && hands' + multiset{t} == hands + multiset{}
    ensures out == (done + multiset{t}) + hands'
  {
    assert hands == hands' + multiset{t};
  }

  lemma TakeKeeps(s: State, w: nat)
    requires Inv(s) && Is(s, w, Checking) && s.tasks != []
    ensures Inv(Next(s, Check(w)))
  {
    hide InHand;
    var t, rest := s.tasks[0], s.tasks[1..];
    var s' := Next(s, Check(w));
    assert s.tasks == [t] + rest;
    assert s.dequeued + [t] + rest == s.dequeued + s.tasks;
    assert multiset(s.dequeued + [t]) == multiset(s.finished) + InHand(s'.workers) by {
      InHandUpdate(s.workers, w, Busy(t));
      TakenBalance(multiset(s.dequeued), multiset(s.finished), InHand(s.workers), InHand(s'.workers), t);
    }
    assert s'.workers[w].Busy?;
  }

  lemma FinishKeeps(s: State, w: nat)
    requires Inv(s) && Enabled(s, Finish(w))
    ensures Inv(Next(s, Finish(w)))
  {
    hide InHand;
    var t, s' := s.workers[w].task, Next(s, Finish(w));
    assert multiset(s.dequeued) == multiset(s.finished + [t]) + InHand(s'.workers) by {
      InHandUpdate(s.workers, w, Checking);
      FinishedBalance(multiset(s.dequeued), multiset(s.finished), InHand(s.workers), InHand(s'.workers), t);
    }
    assert s'.workers[w] == Checking;
  }

  lemma WakeKeeps(s: State, w: nat)
    requires Inv(s) && w < |s.workers| && s.workers[w] == Asleep
    ensures Inv(SetWorker(s, w, Checking))
    ensures s.notifies > 0 ==> Inv(SetWorker(s, w, Checking).(notifies := s.notifies - 1))
  {
    var s' := SetWorker(s, w, Checking);
    InHandSame(s.workers, s'.workers);
    assert s'.workers[w] == Checking;
  }

  /** A notification that finds no sleeper is not needed: some worker is awake, or all have left. */
  lemma IdleNotifyKeeps(s: State)
    requires Inv(s) && s.notifies > 0 && NobodySleeps(s)
    ensures Inv(s.(notifies := s.notifies - 1))
  {
    if s.workers != [] {
      assert s.workers[0] == Exited || s.workers[0] == Checking || s.workers[0].Busy?;
    }
  }

  lemma NotifyAllKeeps(s: State)
    requires Inv(s) && Enabled(s, NotifyAll)
    ensures Inv(Next(s, NotifyAll))
  {
    var s' := Next(s, NotifyAll);
    InHandSame(s.workers, s'.workers);
    if s.workers != [] {
      assert s'.workers[0] == Exited || s'.workers[0] == Checking || s'.workers[0].Busy?;
      assert s'.workers[0] == Exited ==> s.workers[0] == Exited;
    }
  }

  lemma AddKeeps(s: State, t: Task)
    requires Inv(s)
    ensures Inv(Next(s, Add(t)))
  {
    if !s.stop {
      assert s.dequeued + (s.tasks + [t]) == (s.dequeued + s.tasks) + [t];
    }
  }

  lemma StopKeeps(s: State)
    requires Inv(s) && !s.stop
    ensures Inv(Next(s, Stop))
  {
  }

  lemma StepKeeps(s: State, a: Action)
    requires Inv(s) && Enabled(s, a)
    ensures Inv(Next(s, a)) && |Next(s, a).workers| == |s.workers|
  {
    hide Inv;
    match a
    case Add(t) => AddKeeps(s, t);
    case NotifyOne(w) => if Is(s, w, Asleep) { WakeKeeps(s, w); } else { IdleNotifyKeeps(s); }
    case Wake(w) => WakeKeeps(s, w);
    case Check(w) =>
      if s.tasks != [] { TakeKeeps(s, w); } else if s.stop { ExitKeeps(s, w); } else { SleepKeeps(s, w); }
    case Finish(w) => FinishKeeps(s, w);
    case Stop => StopKeeps(s);
    case NotifyAll => NotifyAllKeeps(s);
  }

  // ---------- Over every run ----------

  ghost predicate Run(s: State, actions: seq<Action>, last: State)
    decreases |actions|
  {
    if actions == [] then last == s
    else Enabled(s, actions[0]) && Run(Next(s, actions[0]), actions[1..], last)
  }

  lemma {:induction false} RunKeeps(s: State, actions: seq<Action>, last: State)
    requires Inv(s) && Run(s, actions, last)
    ensures Inv(last) && |last.workers| == |s.workers|
    decreases |actions|
  {
    hide Inv, Next;
    if actions != [] {
      StepKeeps(s, actions[0]);
      RunKeeps(Next(s, actions[0]), actions[1..], last);
    }
  }

  // What a run offers, takes and finishes, read off its actions.

  /** The tasks offered before the pool is stopped. */
  function Offered(actions: seq<Action>, stopped: bool): seq<Task> {
    if actions == [] then []
    else
      (if actions[0].Add? && !stopped then [actions[0].task] else [])
      + Offered(actions[1..], stopped || actions[0].Stop?)
  }

  /** The tasks that workers get to run, in order. */
  ghost function Begun(s: State, actions: seq<Action>, last: State): seq<Task>
    requires Run(s, actions, last)
    decreases |actions|
  {
    if actions == [] then []
    else
      var a, s' := actions[0], Next(s, actions[0]);
      (if a.Check? && s'.workers[a.worker].Busy? then [s'.workers[a.worker].task] else [])
      + Begun(s', actions[1..], last)
  }

  /** The tasks that workers have come to the end of, in order. */
  ghost function Ended(s: State, actions: seq<Action>, last: State): seq<Task>
    requires Run(s, actions, last)
    decreases |actions|
  {
    if actions == [] then []
    else
      var a := actions[0];
      (if a.Finish? then [s.workers[a.worker].task] else []) + Ended(Next(s, a), actions[1..], last)
  }

  lemma StepWritesHistory(s: State, a: Action)
    requires Enabled(s, a)
    ensures var s' := Next(s, a);
      && s'.stop == (s.stop || a.Stop?)
      && s'.accepted == s.accepted + (if a.Add? && !s.stop then [a.task] else [])
      && s'.dequeued == s.dequeued
           + (if a.Check? && s'.workers[a.worker].Busy? then [s'.workers[a.worker].task] else [])
      && s'.finished == s.finished + (if a.Finish? then [s.workers[a.worker].task] else [])
  {}

  /** The histories are what the run did. */
  lemma {:induction false} HistoriesAreTrue(s: State, actions: seq<Action>, last: State)
    requires Run(s, actions, last)
    ensures last.accepted == s.accepted + Offered(actions, s.stop)
    ensures last.dequeued == s.dequeued + Begun(s, actions, last)
    ensures last.finished == s.finished + Ended(s, actions, last)
    decreases |actions|
  {
    if actions != [] {
      StepWritesHistory(s, actions[0]);
      hide Next, Enabled;
      HistoriesAreTrue(Next(s, actions[0]), actions[1..], last);
    }
  }

  /** Anyone may offer a task at any time, and the pool may be stopped once. */
  lemma CallsArePossible(s: State, t: Task)
    ensures Enabled(s, Add(t)) && (Enabled(s, Stop) <==> !s.stop)
  {}

  /** The tasks offered before the stop are those that workers have begun, in that order, and then the queue; each
      one begun is finished or in the hands of one worker, once. */
  lemma AcceptedRunOnceInOrder(first: State, actions: seq<Action>, s: State)
    requires Initial(first) && Run(first, actions, s)
    ensures Begun(first, actions, s) + s.tasks == Offered(actions, false)
    ensures multiset(Begun(first, actions, s)) == multiset(Ended(first, actions, s)) + InHand(s.workers)
  {
    InitialInv(first);
    RunKeeps(first, actions, s);
    HistoriesAreTrue(first, actions, s);
    assert first.accepted + Offered(actions, false) == Offered(actions, false);
    assert first.dequeued + Begun(first, actions, s) == Begun(first, actions, s);
    assert first.finished + Ended(first, actions, s) == Ended(first, actions, s);
  }

  /** With tasks queued and at least one worker, never is every worker asleep or gone with no notification on
      its way. */
  lemma NoTaskForgotten(first: State, actions: seq<Action>, s: State)
    requires Initial(first) && Run(first, actions, s)
    ensures s.tasks != [] && s.workers != [] ==> Attended(s)
  {
    InitialInv(first);
    RunKeeps(first, actions, s);
  }

  /** When the destructor's joins are over, everything accepted has been run, if there was a worker at all. */
  lemma JoinedMeansDone(first: State, actions: seq<Action>, s: State)
    requires Initial(first) && Run(first, actions, s)
    requires forall w :: 0 <= w < |s.workers| ==> s.workers[w] == Exited
    ensures s.workers != [] ==>
      s.tasks == [] && multiset(Ended(first, actions, s)) == multiset(Offered(actions, false))
  {
    InitialInv(first);
    RunKeeps(first, actions, s);
    AcceptedRunOnceInOrder(first, actions, s);
    InHandNone(s.workers);
    if s.workers != [] {
      assert s.workers[0] == Exited;
      assert s.dequeued + [] == s.accepted;
    }
  }

  /** A pool without workers keeps all it accepts and runs none of it. */
  lemma {:induction false} NoWorkersNoRuns(first: State, actions: seq<Action>, s: State)
    requires first.workers == [] && first.finished == [] && first.tasks == first.accepted
    requires Run(first, actions, s)
    ensures s.workers == [] && s.finished == [] && s.tasks == s.accepted && first.tasks <= s.tasks
    decreases |actions|
  {
    if actions != [] {
      NoWorkersNoRuns(Next(first, actions[0]), actions[1..], s);
    }
  }

  /** Nothing is accepted once the pool has been stopped. */
  lemma {:induction false} StopSeals(s: State, actions: seq<Action>, last: State)
    requires s.stop && Run(s, actions, last)
    ensures last.stop && last.accepted == s.accepted
    decreases |actions|
  {
    if actions != [] {
      StopSeals(Next(s, actions[0]), actions[1..], last);
    }
  }

  // ---------- The drain ends ----------

  function Weight(worker: Worker): nat {
    match worker
    case Busy(_) => 2
    case Checking => 1
    case Asleep => 1
    case Exited => 0
  }

  function TotalWeight(workers: seq<Worker>): nat {
    if workers == [] then 0 else Weight(workers[0]) + TotalWeight(workers[1..])
  }

  /** What is left to do before every worker has left. */
  function Remaining(s: State): nat { 3 * |s.tasks| + TotalWeight(s.workers) }

  lemma {:induction false} TotalWeightUpdate(workers: seq<Worker>, w: nat, worker: Worker)
    requires w < |workers|
    ensures TotalWeight(workers[w := worker]) == TotalWeight(workers) - Weight(workers[w]) + Weight(worker)
    decreases w
  {
    var updated := workers[w := worker];
    if w == 0 {
      assert updated[1..] == workers[1..];
    } else {
      TotalWeightUpdate(workers[1..], w - 1, worker);
      assert updated[1..] == workers[1..][w - 1 := worker];
    }
  }

  predicate IsWorkerStep(a: Action) { a.Check? || a.Finish? || a.Wake? }

  lemma StepLightens(s: State, a: Action)
    requires s.stop && !s.notifyAll && NobodySleeps(s) && Enabled(s, a)
    ensures !Next(s, a).notifyAll && Next(s, a).stop
    ensures Remaining(Next(s, a)) <= Remaining(s) - (if IsWorkerStep(a) then 1 else 0)
  {
    if a.Check? || a.Finish? {
      TotalWeightUpdate(s.workers, a.worker, Next(s, a).workers[a.worker]);
    }
  }

  /** After the stop and its notify_all, some worker can move until all have left, every move of a worker
      brings the end nearer, and nothing anyone else does puts it off: the joins return. */
  lemma DrainEnds(first: State, actions: seq<Action>, s: State)
    requires Initial(first) && Run(first, actions, s) && s.stop && !s.notifyAll
    ensures (forall w :: 0 <= w < |s.workers| ==> s.workers[w] == Exited)
         || exists a :: IsWorkerStep(a) && Enabled(s, a)
    ensures forall a :: Enabled(s, a) ==> !Next(s, a).notifyAll && Next(s, a).stop
    ensures forall a :: Enabled(s, a) ==> Remaining(Next(s, a)) <= Remaining(s) - (if IsWorkerStep(a) then 1 else 0)
  {
    InitialInv(first);
    RunKeeps(first, actions, s);
    if w :| 0 <= w < |s.workers| && s.workers[w] != Exited {
      var a := if s.workers[w].Busy? then Finish(w) else Check(w);
      assert IsWorkerStep(a) && Enabled(s, a);
    }
    forall a | Enabled(s, a)
      ensures !Next(s, a).notifyAll && Next(s, a).stop
      ensures Remaining(Next(s, a)) <= Remaining(s) - (if IsWorkerStep(a) then 1 else 0)
    {
      StepLightens(s, a);
    }
  }

  // ---------- The pool settles ----------

  /** The steps of the pool itself: nobody offers a task, stops the pool or wakes for no reason. */
  predicate IsOwnStep(a: Action) { a.NotifyOne? || a.NotifyAll? || a.Check? || a.Finish? }

  function Effort(worker: Worker): nat {
    match worker
    case Busy(_) => 2
    case Checking => 1
    case _ => 0
  }

  function Efforts(workers: seq<Worker>): nat {
    if workers == [] then 0 else Effort(workers[0]) + Efforts(workers[1..])
  }

  function Unsettled(s: State): nat {
    3 * |s.tasks| + Efforts(s.workers) + 2 * s.notifies + if s.notifyAll then |s.workers| + 1 else 0
  }

  lemma {:induction false} EffortsUpdate(workers: seq<Worker>, w: nat, worker: Worker)
    requires w < |workers|
    ensures Efforts(workers[w := worker]) == Efforts(workers) - Effort(workers[w]) + Effort(worker)
    decreases w
  {
    var updated := workers[w := worker];
    if w == 0 {
      assert updated[1..] == workers[1..];
    } else {
      EffortsUpdate(workers[1..], w - 1, worker);
      assert updated[1..] == workers[1..][w - 1 := worker];
    }
  }

  lemma {:induction false} EffortsAwoken(workers: seq<Worker>, awoken: seq<Worker>)
    requires |awoken| == |workers|
    requires forall i :: 0 <= i < |workers| ==> awoken[i] == if workers[i] == Asleep then Checking else workers[i]
    ensures Efforts(awoken) <= Efforts(workers) + |workers|
    decreases |workers|
  {
    if workers != [] {
      EffortsAwoken(workers[1..], awoken[1..]);
    }
  }

  /** Every own step brings the pool nearer to rest. */
  lemma OwnStepSettles(s: State, a: Action)
    requires Enabled(s, a) && IsOwnStep(a)
    ensures Unsettled(Next(s, a)) < Unsettled(s)
  {
    var s' := Next(s, a);
    match a
    case NotifyOne(w) => if Is(s, w, Asleep) { EffortsUpdate(s.workers, w, Checking); }
    case Check(w) => EffortsUpdate(s.workers, w, s'.workers[w]);
    case Finish(w) => EffortsUpdate(s.workers, w, Checking);
    case NotifyAll => EffortsAwoken(s.workers, s'.workers);
  }

  /** As long as a task waits or runs, some own step is possible. */
  lemma SomeOwnStep(s: State) returns (a: Action)
    requires Inv(s) && s.workers != []
    requires s.tasks != [] || exists w :: 0 <= w < |s.workers| && s.workers[w].Busy?
    ensures Enabled(s, a) && IsOwnStep(a)
  {
    if w :| 0 <= w < |s.workers| && s.workers[w].Busy? {
      a := Finish(w);
    } else if w :| 0 <= w < |s.workers| && s.workers[w] == Checking {
      a := Check(w);
    } else if s.notifyAll {
      a := NotifyAll;
    } else if w :| 0 <= w < |s.workers| && s.workers[w] == Asleep {
      a := NotifyOne(w);
    } else {
      a := NotifyOne(0);
    }
  }

  /** Left to itself, the pool runs every task that it has accepted, if it has a worker. */
  lemma {:induction false} PoolSettles(s: State) returns (actions: seq<Action>, last: State)
    requires Inv(s) && s.workers != []
    ensures Run(s, actions, last) && (forall a :: a in actions ==> IsOwnStep(a)) && |actions| <= Unsettled(s)
    ensures last.tasks == [] && multiset(last.finished) == multiset(s.accepted)
    decreases Unsettled(s)
  {
    hide Next, Enabled, Unsettled, Attended;
    if s.tasks == [] && forall w :: 0 <= w < |s.workers| ==> !s.workers[w].Busy? {
      actions, last := [], s;
      InHandNone(s.workers);
      assert s.dequeued == s.accepted;
    } else {
      var a := SomeOwnStep(s);
      OwnStepSettles(s, a);
      StepKeeps(s, a);
      StepWritesHistory(s, a);
      SameWorkers(s, a);
      hide Inv;
      actions, last := PoolSettles(Next(s, a));
      assert ([a] + actions)[1..] == actions;
      actions := [a] + actions;
    }
  }

  lemma SameWorkers(s: State, a: Action)
    requires Enabled(s, a)
    ensures |Next(s, a).workers| == |s.workers|
  {}

  /** The object; each method is one block under its lock. */
  class ThreadPool {
    var workers: seq<Worker>
    var tasks: seq<Task>
    var stop: bool
    ghost var notifies: nat
    ghost var notifyAll: bool
    ghost var accepted: seq<Task>
    ghost var dequeued: seq<Task>
    ghost var finished: seq<Task>

    constructor (size: nat)
      ensures Initial(View()) && |workers| == size
    {
      workers := seq(size, _ => Checking);
      tasks, stop := [], false;
      notifies, notifyAll, accepted, dequeued, finished := 0, false, [], [], [];
    }

    ghost function View(): State
      reads this
    {
      State(workers, tasks, stop, notifies, notifyAll, accepted, dequeued, finished)
    }

    /** Add up to its notification; the result is false when the pool refuses because it has been stopped. */
    method AddTask(task: Task) returns (ok: bool)
      modifies this
      ensures ok == !old(stop) && tasks == if ok then old(tasks) + [task] else old(tasks)
      ensures View() == Next(old(View()), Add(task))
    {
      if stop {
        return false;
      }
      tasks := tasks + [task];
      accepted, notifies := accepted + [task], notifies + 1;
      ok := true;
    }

    /** A worker's block: tests the predicate, then sleeps, leaves or takes the front task. */
    method Take(w: nat)
      requires Is(View(), w, Checking)
      modifies this
      ensures old(tasks) != [] ==> workers == old(workers)[w := Busy(old(tasks)[0])] && tasks == old(tasks)[1..]
      ensures old(tasks) == [] ==> workers == old(workers)[w := if stop then Exited else Asleep] && tasks == []
      ensures View() == Next(old(View()), Check(w))
    {
      if !(stop || tasks != []) {
        workers := workers[w := Asleep];
        return;
      }
      if stop && tasks == [] {
        workers := workers[w := Exited];
        return;
      }
      var task := tasks[0];
      tasks := tasks[1..];
      dequeued := dequeued + [task];
      workers := workers[w := Busy(task)];
    }

    /** The destructor's block. */
    method SetStop()
      requires !stop
      modifies this
      ensures stop && View() == Next(old(View()), Stop)
    {
      stop := true;
      notifyAll := true;
    }
  }
}
