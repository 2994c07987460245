// EventLoop: the task queue of one loop thread, filled by any thread, and the eventfd that wakes the loop.
// Each locked block and each read or write of the eventfd is one step; steps of the loop's thread and of
// all others interleave freely.

module EventLoops {

  type Task = nat

  datatype Place =
    | AtPoll
    | Dispatching(wake: bool)              // `wake`: the wake-up channel is in the ready list, not yet handled
    | Swapping                             // calling_functors_ set, lock not yet taken
    | Between                              // inside the swapped-out tasks, none running
    | InTask(task: Task, owesWrite: bool)  // a task runs; it may have pushed and not yet written

  datatype State = State(
    place: Place,
    calling: bool,
    todo: seq<Task>,
    batch: seq<Task>,       // swapped-out tasks not yet begun
    wakeups: nat,           // the eventfd's counter
    writers: nat,           // other threads between their push and their write
    queued: seq<Task>,      // history: every task ever queued
    finished: seq<Task>)    // history: every task that has run to its end

  datatype Action =
    | ForeignPush(task: Task)
    | ForeignWrite
    | Poll(wake: bool)
    | ReadWakeup
    | HandlerPush(task: Task)     // a handler on the loop's own thread queues a task
    | StartToDo
    | Swap
    | BeginTask
    | TaskPush(task: Task)        // a running task queues a task
    | TaskWrite
    | EndTask
    | EndToDo

  const START := State(AtPoll, false, [], [], 0, 0, [], [])

  predicate Enabled(s: State, a: Action) {
    match a
    case ForeignPush(_) => true
    case ForeignWrite => s.writers > 0
    case Poll(wake) => s.place.AtPoll? && (wake ==> s.wakeups > 0)
    case ReadWakeup => s.place == Dispatching(true)
    case HandlerPush(_) => s.place.Dispatching?
    case StartToDo => s.place == Dispatching(false)
    case Swap => s.place.Swapping?
    case BeginTask => s.place.Between? && s.batch != []
    case TaskPush(_) => s.place.InTask? && !s.place.owesWrite
    case TaskWrite => s.place.InTask? && s.place.owesWrite
    case EndTask => s.place.InTask? && !s.place.owesWrite
    case EndToDo => s.place.Between? && s.batch == []
  }

  function Push(s: State, t: Task): State {
    s.(todo := s.todo + [t], queued := s.queued + [t])
  }

  function Next(s: State, a: Action): State
    requires Enabled(s, a)
  {
    match a
    case ForeignPush(t) => Push(s, t).(writers := s.writers + 1)
    case ForeignWrite => s.(wakeups := s.wakeups + 1, writers := s.writers - 1)
    case Poll(wake) => s.(place := Dispatching(wake))
    case ReadWakeup => s.(place := Dispatching(false), wakeups := 0)
    // QueueOneFunc on the loop's own thread writes only if calling_functors_ is set
    case HandlerPush(t) => if s.calling then Push(s, t).(wakeups := s.wakeups + 1) else Push(s, t)
    case StartToDo => s.(place := Swapping, calling := true)
    case Swap => s.(place := Between, batch := s.todo, todo := [])
    case BeginTask => s.(place := InTask(s.batch[0], false), batch := s.batch[1..])
    case TaskPush(t) => Push(s, t).(place := InTask(s.place.task, s.calling))
    case TaskWrite => s.(place := InTask(s.place.task, false), wakeups := s.wakeups + 1)
    case EndTask => s.(place := Between, finished := s.finished + [s.place.task])
    case EndToDo => s.(place := AtPoll, calling := false)
  }

  /** Somebody will make Poll return. */
  predicate WakeUpComing(s: State) {
    s.wakeups > 0 || s.writers > 0 || (s.place.InTask? && s.place.owesWrite)
  }

  predicate WakeInv(s: State) {
    && (s.calling <==> s.place.Swapping? || s.place.Between? || s.place.InTask?)
    && (s.place == Dispatching(true) ==> s.wakeups > 0)
    && (s.todo != [] && (s.place.AtPoll? || s.place.Between? || s.place.InTask?) ==> WakeUpComing(s))
  }

  function Running(s: State): seq<Task> {
    if s.place.InTask? then [s.place.task] else []
  }

  predicate OrderInv(s: State) {
    && s.finished + Running(s) + s.batch + s.todo == s.queued
    && (s.place.AtPoll? || s.place.Dispatching? || s.place.Swapping? ==> s.batch == [])
  }

  lemma StepKeepsOrder(s: State, a: Action)
    requires OrderInv(s) && Enabled(s, a)
    ensures OrderInv(Next(s, a))
  {
    var s' := Next(s, a);
    var old', new' := s.finished + Running(s) + s.batch + s.todo, s'.finished + Running(s') + s'.batch + s'.todo;
    match a
    case ForeignPush(t) => assert new' == old' + [t];
    case HandlerPush(t) => assert new' == old' + [t];
    case TaskPush(t) => assert new' == old' + [t];
    case BeginTask => assert s.batch == [s.batch[0]] + s.batch[1..];
    case _ => assert new' == old';
  }

  lemma StepKeepsWake(s: State, a: Action)
    requires WakeInv(s) && Enabled(s, a)
    ensures WakeInv(Next(s, a))
  {
  }

  ghost predicate Run(s: State, actions: seq<Action>, last: State)
    decreases |actions|
  {
    if actions == [] then last == s
    else Enabled(s, actions[0]) && Run(Next(s, actions[0]), actions[1..], last)
  }

  lemma {:induction false} RunKeeps(s: State, actions: seq<Action>, last: State)
    requires WakeInv(s) && OrderInv(s) && Run(s, actions, last)
    ensures WakeInv(last) && OrderInv(last)
    decreases |actions|
  {
    if actions != [] {
      StepKeepsWake(s, actions[0]);
      StepKeepsOrder(s, actions[0]);
      RunKeeps(Next(s, actions[0]), actions[1..], last);
    }
  }

  // What a run pushes and what it begins, read off its actions.

  function PushedBy(a: Action): seq<Task> {
    match a
    case ForeignPush(t) => [t]
    case HandlerPush(t) => [t]
    case TaskPush(t) => [t]
    case _ => []
  }

  function Pushed(actions: seq<Action>): seq<Task> {
    if actions == [] then [] else PushedBy(actions[0]) + Pushed(actions[1..])
  }

  /** The tasks that the loop's thread gets to run, in order. */
  ghost function Begun(s: State, actions: seq<Action>, last: State): seq<Task>
    requires Run(s, actions, last)
    decreases |actions|
  {
    if actions == [] then []
    else
      var s' := Next(s, actions[0]);
      (if !s.place.InTask? && s'.place.InTask? then [s'.place.task] else []) + Begun(s', actions[1..], last)
  }

  /** The history is what was pushed, by whatever thread. */
  lemma {:induction false} QueuedIsPushed(s: State, actions: seq<Action>, last: State)
    requires Run(s, actions, last)
    ensures last.queued == s.queued + Pushed(actions)
    decreases |actions|
  {
    if actions != [] {
      var s' := Next(s, actions[0]);
      QueuedIsPushed(s', actions[1..], last);
      assert s'.queued == s.queued + PushedBy(actions[0]);
    }
  }

  /** What has finished, and the task that runs, are what the thread has begun. */
  lemma {:induction false} FinishedIsBegun(s: State, actions: seq<Action>, last: State)
    requires Run(s, actions, last)
    ensures last.finished + Running(last) == s.finished + Running(s) + Begun(s, actions, last)
    decreases |actions|
  {
    if actions != [] {
      var s' := Next(s, actions[0]);
      var begins := if !s.place.InTask? && s'.place.InTask? then [s'.place.task] else [];
      FinishedIsBegun(s', actions[1..], last);
      assert s'.finished + Running(s') == s.finished + Running(s) + begins;
    }
  }

  /** Any thread may push at any time, and so may a running task and a handler. */
  lemma PushesArePossible(s: State, t: Task)
    ensures Enabled(s, ForeignPush(t))
    ensures s.place.Dispatching? ==> Enabled(s, HandlerPush(t))
    ensures s.place.InTask? && !s.place.owesWrite ==> Enabled(s, TaskPush(t))
  {}

  /** No wake-up is lost: at Poll with tasks waiting, the eventfd is readable or some thread is between its
      push and its write; so once the writes are done, Poll must return for the wake-up channel. */
  lemma NoLostWakeUp(actions: seq<Action>, s: State)
    requires Run(START, actions, s)
    ensures s.place.AtPoll? && s.todo != [] ==> s.wakeups > 0 || s.writers > 0
    ensures s.place.AtPoll? && s.todo != [] && s.writers == 0 ==> Enabled(s, Poll(true))
  {
    RunKeeps(START, actions, s);
  }

  /** HandleRead always finds the counter positive, so its read succeeds. */
  lemma ReadSucceeds(actions: seq<Action>, s: State)
    requires Run(START, actions, s) && Enabled(s, ReadWakeup)
    ensures s.wakeups > 0
  {
    RunKeeps(START, actions, s);
  }

  /** Every task is run exactly once, in the order of queueing: the tasks that the run pushes are those that it has
      begun, then the rest of the swapped-out ones, then the queue; at Poll with nothing queued all have finished. */
  lemma ExactlyOnceInOrder(actions: seq<Action>, s: State)
    requires Run(START, actions, s)
    ensures Begun(START, actions, s) + s.batch + s.todo == Pushed(actions)
    ensures s.finished + Running(s) == Begun(START, actions, s)
    ensures s.place.AtPoll? && s.todo == [] ==> s.finished == Pushed(actions)
  {
    RunKeeps(START, actions, s);
    QueuedIsPushed(START, actions, s);
    FinishedIsBegun(START, actions, s);
    assert START.queued + Pushed(actions) == Pushed(actions);
    assert START.finished + Running(START) + Begun(START, actions, s) == Begun(START, actions, s);
  }

  /** The loop's own steps from Poll through one drain, when nothing else happens. */
  function Pass(n: nat): seq<Action> {
    [Poll(true), ReadWakeup, StartToDo, Swap] + RunAll(n)
  }

  function RunAll(n: nat): seq<Action> {
    if n == 0 then [EndToDo] else [BeginTask, EndTask] + RunAll(n - 1)
  }

  lemma Prepend(s: State, a: Action, rest: seq<Action>, last: State)
    requires Enabled(s, a) && Run(Next(s, a), rest, last)
    ensures Run(s, [a] + rest, last)
  {
    assert ([a] + rest)[1..] == rest;
  }

  lemma {:induction false} RunAllFinishes(s: State, n: nat)
    requires s.place.Between? && |s.batch| == n
    ensures Run(s, RunAll(n), s.(place := AtPoll, calling := false, batch := [], finished := s.finished + s.batch))
    decreases n
  {
    var last := s.(place := AtPoll, calling := false, batch := [], finished := s.finished + s.batch);
    if n == 0 {
      assert s.finished + s.batch == s.finished;
      Prepend(s, EndToDo, [], last);
    } else {
      var s1 := Next(s, BeginTask);
      var s2 := Next(s1, EndTask);
      RunAllFinishes(s2, n - 1);
      assert s2.finished + s2.batch == s.finished + s.batch;
      Prepend(s1, EndTask, RunAll(n - 1), last);
      Prepend(s, BeginTask, [EndTask] + RunAll(n - 1), last);
      assert RunAll(n) == [BeginTask] + ([EndTask] + RunAll(n - 1));
    }
  }

  /** From Poll, once no write is outstanding, the loop alone can run everything that waits. */
  lemma WaitingTasksCanRun(actions: seq<Action>, s: State)
    requires Run(START, actions, s) && s.place.AtPoll? && s.todo != [] && s.writers == 0
    ensures Run(s, Pass(|s.todo|), s.(todo := [], wakeups := 0, finished := s.queued))
  {
    NoLostWakeUp(actions, s);
    RunKeeps(START, actions, s);
    var rest, last := RunAll(|s.todo|), s.(todo := [], wakeups := 0, finished := s.queued);
    var s1 := Next(s, Poll(true));
    var s2 := Next(s1, ReadWakeup);
    var s3 := Next(s2, StartToDo);
    var s4 := Next(s3, Swap);
    assert s.finished + s.todo == s.queued;
    RunAllFinishes(s4, |s.todo|);
    hide Run, Next;
    Prepend(s3, Swap, rest, last);
    Prepend(s2, StartToDo, [Swap] + rest, last);
    Prepend(s1, ReadWakeup, [StartToDo] + ([Swap] + rest), last);
    Prepend(s, Poll(true), [ReadWakeup] + ([StartToDo] + ([Swap] + rest)), last);
    assert Pass(|s.todo|) == [Poll(true)] + ([ReadWakeup] + ([StartToDo] + ([Swap] + rest)));
  }

  /** The object, its methods cut into the atomic steps above. */
  class EventLoop {
    var toDoList: seq<Task>
    var callingFunctors: bool
    var wakeupCount: nat
    var functors: seq<Task>
    ghost var place: Place
    ghost var writers: nat
    ghost var queued: seq<Task>
    ghost var finished: seq<Task>

    constructor ()
      ensures View() == START
    {
      toDoList, callingFunctors, wakeupCount, functors := [], false, 0, [];
      place, writers, queued, finished := AtPoll, 0, [], [];
    }

    ghost function View(): State
      reads this
    {
      State(place, callingFunctors, toDoList, functors, wakeupCount, writers, queued, finished)
    }

    /** QueueOneFunc, the block under the lock; the result tells whether the caller goes on to write. */
    method QueueLocked(cb: Task, inLoopThread: bool) returns (write: bool)
      requires WakeInv(View())
      requires inLoopThread ==> Enabled(View(), TaskPush(cb)) || Enabled(View(), HandlerPush(cb))
      modifies this
      ensures write == (!inLoopThread || old(callingFunctors))
      ensures toDoList == old(toDoList) + [cb]
      ensures View() == Next(old(View()),
        if !inLoopThread then ForeignPush(cb) else if old(place).InTask? then TaskPush(cb) else HandlerPush(cb))
    {
      toDoList := toDoList + [cb];
      queued := queued + [cb];
      write := !inLoopThread || callingFunctors;
      if !inLoopThread {
        writers := writers + 1;
      } else if place.InTask? {
        place := InTask(place.task, write);
      }
    }

    /** QueueOneFunc, the write to the eventfd after the lock. */
    method WriteWakeup(inLoopThread: bool)
      requires if inLoopThread then Enabled(View(), TaskWrite) else Enabled(View(), ForeignWrite)
      modifies this
      ensures wakeupCount == old(wakeupCount) + 1
      ensures View() == Next(old(View()), if inLoopThread then TaskWrite else ForeignWrite)
    {
      wakeupCount := wakeupCount + 1;
      if inLoopThread {
        place := InTask(place.task, false);
      } else {
        writers := writers - 1;
      }
    }

    /** The eventfd is read to zero; a read of zero would fail. */
    method HandleRead() returns (ok: bool)
      requires Enabled(View(), ReadWakeup)
      modifies this
      ensures ok == (old(wakeupCount) > 0) && wakeupCount == 0
      ensures View() == Next(old(View()), ReadWakeup)
    {
      ok := wakeupCount > 0;
      wakeupCount := 0;
      place := Dispatching(false);
    }

    /** DoToDoList up to the lock. */
    method SetCalling()
      requires Enabled(View(), StartToDo)
      modifies this
      ensures callingFunctors && View() == Next(old(View()), StartToDo)
    {
      callingFunctors := true;
      place := Swapping;
    }

    /** DoToDoList, the swap under the lock. */
    method SwapFunctors()
      requires Enabled(View(), Swap) && OrderInv(View())
      modifies this
      ensures functors == old(toDoList) && toDoList == [] && View() == Next(old(View()), Swap)
    {
      functors, toDoList := toDoList, functors;
      place := Between;
    }

    /** DoToDoList, the loop over the swapped-out tasks: the next one is called. */
    method CallFunctor() returns (cb: Task)
      requires Enabled(View(), BeginTask)
      modifies this
      ensures cb == old(functors)[0] && functors == old(functors)[1..] && place == InTask(cb, false)
      ensures View() == Next(old(View()), BeginTask)
    {
      cb, functors := functors[0], functors[1..];
      place := InTask(cb, false);
    }

    /** The called task returns. */
    method ReturnFunctor()
      requires Enabled(View(), EndTask)
      modifies this
      ensures finished == old(finished) + [old(place.task)] && View() == Next(old(View()), EndTask)
    {
      finished := finished + [place.task];
      place := Between;
    }

    /** DoToDoList after the loop over the swapped-out tasks. */
    method ClearCalling()
      requires Enabled(View(), EndToDo)
      modifies this
      ensures !callingFunctors && View() == Next(old(View()), EndToDo)
    {
      callingFunctors := false;
      place := AtPoll;
    }
  }
}
