// Connections over their whole life: accepted on the main loop, served on an IO loop, closed by a message that
// goes IO loop -> main loop -> IO loop, and destroyed when the last reference goes. Loops run in their own
// threads; the state machine below interleaves their atomic steps in any order.
//
// Loop 0 is the main loop. A connection object is known by its index in `conns`; its file descriptor may be
// used again after the object is destroyed.

module Reactor {

  datatype Status = Unset | Connected | Disconnected

  /** How far a connection has come. This, the closing loop and the counters of Conn are history: no step
      reads them. */
  datatype Phase = Built | Mapped | Closing | CloseQueued | Unmapped | RemovalQueued | Removed | Gone

  datatype Conn = Conn(
    fd: int,
    loop: nat,
    status: Status,
    reading: bool,        // the channel listens for input and has its callback
    inEpoll: bool,        // the channel's own flag
    destroyed: bool,
    phase: Phase,
    closer: nat,          // the loop whose thread won the test of the status
    adds: nat,            // times put into an interest set
    deletes: nat,         // times taken out of one
    closes: nat)          // calls of HandleCloseInLoop, queued or direct

  datatype Task = CloseInLoop(conn: nat) | Destructor(conn: nat)

  /** Where a loop's thread is. Every value that names a connection holds a reference to it. */
  datatype Place =
    | Polling
    | Dispatching                            // between two handlers of the ready list
    | Building(conn: nat)                    // constructed, not yet in the map
    | Establishing(conn: nat)                // in the map, not yet reading
    | Handling(conn: nat)                    // in a handler or the connect callback
    | ClosingOff(conn: nat)                  // won the test of the status, about to tell the server
    | Erased(conn: nat, direct: bool)        // map entry gone, removal not yet queued
    | Draining                               // running the swapped-out tasks

  datatype Loop = Loop(
    place: Place,
    interest: set<nat>,   // the kernel's interest set
    ready: seq<nat>,      // channels Poll returned and not yet handled: plain pointers
    batch: seq<Task>,     // the swapped-out tasks still to run
    held: set<nat>,       // connections that all the swapped-out tasks hold until the drain ends
    todo: seq<Task>)

  datatype State = State(conns: seq<Conn>, loops: seq<Loop>, connections: map<int, nat>)

  datatype Action =
    | Accept(fd: int, loop: nat)
    | InsertConnection
    | Establish
    | Poll(at: nat, ready: seq<nat>)
    | Dispatch(at: nat, handled: bool)
    | TimerHandler(conn: nat)
    | TryClose(at: nat)
    | TellServer(at: nat)
    | QueueRemoval
    | EndHandler(at: nat)
    | StartDrain(at: nat)
    | RunTask(at: nat)
    | EndDrain(at: nat)
    | Destroy(conn: nat)

  // ---------- References ----------

  predicate Names(p: Place) {
    p.Building? || p.Establishing? || p.Handling? || p.ClosingOff? || p.Erased?
  }

  predicate PlaceHolds(p: Place, c: nat) { Names(p) && p.conn == c }

  predicate TasksHold(ts: seq<Task>, c: nat) { exists i :: 0 <= i < |ts| && ts[i].conn == c }

  predicate LoopHolds(l: Loop, c: nat) {
    PlaceHolds(l.place, c) || c in l.held || TasksHold(l.todo, c)
  }

  /** The shared pointer's count is positive. */
  predicate Referenced(s: State, c: nat) {
    || (exists fd :: fd in s.connections && s.connections[fd] == c)
    || exists k :: 0 <= k < |s.loops| && LoopHolds(s.loops[k], c)
  }

  // ---------- The steps ----------

  predicate IsLoop(s: State, k: nat) { k < |s.loops| }

  predicate PlaceOk(s: State, k: nat) {
    IsLoop(s, k) && (Names(s.loops[k].place) ==> s.loops[k].place.conn < |s.conns|)
  }

  predicate Enabled(s: State, a: Action) {
    && IsLoop(s, 0)
    && match a
       case Accept(fd, loop) =>
         // the kernel gives out a descriptor that is not open, and a connection keeps its own open
         && s.loops[0].place.Dispatching? && IsLoop(s, loop)
         && (forall c :: 0 <= c < |s.conns| ==> s.conns[c].destroyed || s.conns[c].fd != fd)
       case InsertConnection => s.loops[0].place.Building? && PlaceOk(s, 0)
       case Establish =>
         s.loops[0].place.Establishing? && PlaceOk(s, 0) && IsLoop(s, s.conns[s.loops[0].place.conn].loop)
       case Poll(k, ready) =>
         && IsLoop(s, k) && s.loops[k].place.Polling?
         && forall i :: 0 <= i < |ready| ==> ready[i] in s.loops[k].interest
       case Dispatch(k, _) =>
         IsLoop(s, k) && s.loops[k].place.Dispatching? && s.loops[k].ready != [] && s.loops[k].ready[0] < |s.conns|
       case TimerHandler(c) => s.loops[0].place.Dispatching? && c < |s.conns| && Referenced(s, c)
       case TryClose(k) => IsLoop(s, k) && s.loops[k].place.Handling? && PlaceOk(s, k)
       case TellServer(k) => IsLoop(s, k) && s.loops[k].place.ClosingOff? && PlaceOk(s, k)
       case QueueRemoval =>
         s.loops[0].place.Erased? && PlaceOk(s, 0) && IsLoop(s, s.conns[s.loops[0].place.conn].loop)
       case EndHandler(k) => IsLoop(s, k) && s.loops[k].place.Handling?
       case StartDrain(k) => IsLoop(s, k) && s.loops[k].place.Dispatching? && s.loops[k].ready == []
       case RunTask(k) =>
         && IsLoop(s, k) && s.loops[k].place.Draining? && s.loops[k].batch != []
         && s.loops[k].batch[0].conn < |s.conns|
       case EndDrain(k) => IsLoop(s, k) && s.loops[k].place.Draining? && s.loops[k].batch == []
       case Destroy(c) => c < |s.conns| && !s.conns[c].destroyed && !Referenced(s, c)
  }

  function SetPlace(s: State, k: nat, p: Place): State
    requires IsLoop(s, k)
  {
    s.(loops := s.loops[k := s.loops[k].(place := p)])
  }

  function SetConn(s: State, c: nat, conn: Conn): State
    requires c < |s.conns|
  {
    s.(conns := s.conns[c := conn])
  }

  function Push(s: State, k: nat, t: Task): State
    requires IsLoop(s, k)
  {
    s.(loops := s.loops[k := s.loops[k].(todo := s.loops[k].todo + [t])])
  }

  /** Epoller::UpdateChannel: adds the channel unless its flag says it is in. */
  function UpdateChannel(s: State, c: nat): State
    requires c < |s.conns| && IsLoop(s, s.conns[c].loop)
  {
    var conn, k := s.conns[c], s.conns[c].loop;
    if conn.inEpoll then s
    else SetConn(s, c, conn.(inEpoll := true, adds := conn.adds + 1))
         .(loops := s.loops[k := s.loops[k].(interest := s.loops[k].interest + {c})])
  }

  /** Epoller::DeleteChannel, called by the loop `k` itself. */
  function DeleteChannel(s: State, c: nat, k: nat): State
    requires c < |s.conns| && IsLoop(s, k)
  {
    var conn := s.conns[c];
    SetConn(s, c, conn.(inEpoll := false, deletes := conn.deletes + 1, phase := Removed))
    .(loops := s.loops[k := s.loops[k].(interest := s.loops[k].interest - {c})])
  }

  /** The first half of HandleCloseInLoop: the map entry of the connection's descriptor goes. */
  function EraseEntry(s: State, c: nat, direct: bool): State
    requires c < |s.conns| && IsLoop(s, 0)
  {
    var conn := s.conns[c];
    var s1 := SetConn(s, c, conn.(phase := Unmapped, closes := conn.closes + if direct then 1 else 0));
    SetPlace(s1.(connections := s.connections - {conn.fd}), 0, Erased(c, direct))
  }

  /** The constructor of a connection; its EnableET puts the channel into the loop's interest set. */
  function Construct(s: State, fd: int, k: nat): State
    requires IsLoop(s, 0) && IsLoop(s, k)
  {
    var c := |s.conns|;
    var s1 := s.(conns := s.conns + [Conn(fd, k, Unset, false, false, false, Built, 0, 0, 0, 0)]);
    SetPlace(UpdateChannel(s1, c), 0, Building(c))
  }

  function Insert(s: State, c: nat): State
    requires IsLoop(s, 0) && c < |s.conns|
  {
    var s1 := SetConn(s, c, s.conns[c].(phase := Mapped));
    SetPlace(s1.(connections := s.connections[s.conns[c].fd := c]), 0, Establishing(c))
  }

  /** ConnectionEstablished: the state is set, then EnableRead updates the channel. */
  function StartReading(s: State, c: nat): State
    requires IsLoop(s, 0) && c < |s.conns| && IsLoop(s, s.conns[c].loop)
  {
    var s1 := SetConn(s, c, s.conns[c].(status := Connected, reading := true));
    SetPlace(UpdateChannel(s1, c), 0, Handling(c))
  }

  /** HandleClose, its test and set taken as one step. */
  function TestStatus(s: State, k: nat, c: nat): State
    requires IsLoop(s, k) && c < |s.conns|
  {
    if s.conns[c].status == Disconnected then s
    else
      var conn := s.conns[c].(status := Disconnected, phase := Closing, closer := k);
      SetPlace(SetConn(s, c, conn), k, ClosingOff(c))
  }

  /** RunOneFunc from a thread other than the main loop's: HandleCloseInLoop is queued. */
  function QueueClose(s: State, k: nat, c: nat): State
    requires IsLoop(s, 0) && IsLoop(s, k) && c < |s.conns|
  {
    var conn := s.conns[c].(phase := CloseQueued, closes := s.conns[c].closes + 1);
    SetPlace(Push(SetConn(s, c, conn), 0, CloseInLoop(c)), k, Handling(c))
  }

  /** The second half of HandleCloseInLoop. */
  function QueueDestructor(s: State, c: nat, direct: bool): State
    requires IsLoop(s, 0) && c < |s.conns| && IsLoop(s, s.conns[c].loop)
  {
    var s1 := Push(SetConn(s, c, s.conns[c].(phase := RemovalQueued)), s.conns[c].loop, Destructor(c));
    SetPlace(s1, 0, if direct then Handling(c) else Draining)
  }

  function Popped(s: State, k: nat): State
    requires IsLoop(s, k) && s.loops[k].batch != []
  {
    s.(loops := s.loops[k := s.loops[k].(batch := s.loops[k].batch[1..])])
  }

  function RunNext(s: State, k: nat): State
    requires IsLoop(s, 0) && IsLoop(s, k) && s.loops[k].batch != [] && s.loops[k].batch[0].conn < |s.conns|
  {
    match s.loops[k].batch[0]
    case CloseInLoop(c) => EraseEntry(Popped(s, k), c, false)
    case Destructor(c) => DeleteChannel(Popped(s, k), c, k)
  }

  /** DoToDoList's swap: the tasks move to a vector that keeps its connections until it is destroyed. */
  function SwapTasks(l: Loop): Loop {
    var held := set i | 0 <= i < |l.todo| :: l.todo[i].conn;
    l.(place := Draining, batch := l.todo, held := held, todo := [])
  }

  function Next(s: State, a: Action): State
    requires Enabled(s, a)
  {
    match a
    case Accept(fd, k) => Construct(s, fd, k)
    case InsertConnection => Insert(s, s.loops[0].place.conn)
    case Establish => StartReading(s, s.loops[0].place.conn)
    case Poll(k, ready) => s.(loops := s.loops[k := s.loops[k].(place := Dispatching, ready := ready)])
    case Dispatch(k, handled) =>
      var c, rest := s.loops[k].ready[0], s.loops[k].ready[1..];
      var place := if handled && s.conns[c].reading then Handling(c) else Dispatching;
      s.(loops := s.loops[k := s.loops[k].(place := place, ready := rest)])
    case TimerHandler(c) =>
      // a weak pointer is locked; a connection that never read has no timer yet
      if s.conns[c].reading then SetPlace(s, 0, Handling(c)) else s
    case TryClose(k) => TestStatus(s, k, s.loops[k].place.conn)
    case TellServer(k) =>
      if k == 0 then EraseEntry(s, s.loops[k].place.conn, true) else QueueClose(s, k, s.loops[k].place.conn)
    case QueueRemoval => QueueDestructor(s, s.loops[0].place.conn, s.loops[0].place.direct)
    case EndHandler(k) => SetPlace(s, k, Dispatching)
    case StartDrain(k) =>
      s.(loops := s.loops[k := SwapTasks(s.loops[k])])
    case RunTask(k) => RunNext(s, k)
    case EndDrain(k) => s.(loops := s.loops[k := s.loops[k].(place := Polling, held := {})])
    case Destroy(c) => SetConn(s, c, s.conns[c].(destroyed := true, phase := Gone))
  }

  // ---------- The invariant ----------

  function Rank(p: Phase): nat {
    match p
    case Built => 0
    case Mapped => 1
    case Closing => 2
    case CloseQueued => 3
    case Unmapped => 4
    case RemovalQueued => 5
    case Removed => 6
    case Gone => 7
  }

  /** A task of a loop that has not run. */
  predicate Waits(l: Loop, t: Task) { t in l.batch || t in l.todo }

  ghost predicate NoRepeats(ts: seq<Task>) { forall i, j :: 0 <= i < j < |ts| ==> ts[i] != ts[j] }

  predicate InMap(s: State, c: nat)
    requires c < |s.conns|
  {
    s.conns[c].fd in s.connections && s.connections[s.conns[c].fd] == c
  }

  /** What a connection's fields and counters are in each phase. */
  predicate ConnOk(conn: Conn) {
    var r := Rank(conn.phase);
    && (conn.inEpoll <==> r < 6)
    && (conn.destroyed <==> r == 7)
    && (conn.status == Disconnected <==> r >= 2)
    && (conn.status == Connected ==> conn.reading)
    && (conn.status == Unset ==> !conn.reading)
    && (conn.status == Disconnected ==> conn.reading)
    && (r == 0 ==> conn.status == Unset)
    && conn.adds == 1
    && conn.deletes == (if r >= 6 then 1 else 0)
    && conn.closes == (if r >= 3 then 1 else 0)
  }

  /** Who stands for a connection in each phase: the map, a thread or a queued task. */
  predicate Stands(s: State, c: nat)
    requires c < |s.conns| && IsLoop(s, 0)
  {
    var conn := s.conns[c];
    && IsLoop(s, conn.loop)
    && (InMap(s, c) <==> 1 <= Rank(conn.phase) <= 3)
    && (conn.phase == Built ==> s.loops[0].place == Building(c))
    && (conn.phase == Mapped && conn.status == Unset ==> s.loops[0].place == Establishing(c))
    && (conn.phase == Closing ==> IsLoop(s, conn.closer) && s.loops[conn.closer].place == ClosingOff(c))
    && (conn.phase == CloseQueued ==> Waits(s.loops[0], CloseInLoop(c)))
    && (conn.phase == Unmapped ==> s.loops[0].place.Erased? && s.loops[0].place.conn == c)
    && (conn.phase == RemovalQueued ==> Waits(s.loops[conn.loop], Destructor(c)))
  }

  predicate PlaceFits(conns: seq<Conn>, l: Loop, k: nat) {
    && (Names(l.place) ==> l.place.conn < |conns|)
    && (l.place.Draining? || l.place.Erased? || (l.batch == [] && l.held == {}))
    && match l.place
       case Polling => l.ready == []
       case Dispatching => true
       case Building(c) => k == 0 && conns[c].phase == Built
       case Establishing(c) => k == 0 && conns[c].phase == Mapped && conns[c].status == Unset
       case Handling(c) => conns[c].reading && !conns[c].destroyed
       case ClosingOff(c) => conns[c].phase == Closing && conns[c].closer == k
       case Erased(c, direct) =>
         && k == 0 && conns[c].phase == Unmapped && conns[c].reading
         && (if direct then l.batch == [] && l.held == {} else l.ready == [])
       case Draining => l.ready == []
  }

  predicate TaskFits(conns: seq<Conn>, k: nat, t: Task) {
    && t.conn < |conns|
    && match t
       case CloseInLoop(c) => k == 0 && conns[c].phase == CloseQueued
       case Destructor(c) => k == conns[c].loop && conns[c].phase == RemovalQueued
  }

  ghost predicate TasksFit(conns: seq<Conn>, l: Loop, k: nat) {
    && NoRepeats(l.batch + l.todo)
    && (forall t :: Waits(l, t) ==> TaskFits(conns, k, t))
    && (forall c :: c in l.held ==> c < |conns| && !conns[c].destroyed)
    && (forall t :: t in l.batch ==> t.conn in l.held)
  }

  ghost predicate ChannelsFit(conns: seq<Conn>, l: Loop, k: nat) {
    && (forall c: nat :: c in l.interest <==> c < |conns| && conns[c].loop == k && conns[c].inEpoll)
    && (forall c :: c in l.ready ==> c in l.interest)
  }

  ghost predicate MapFits(s: State) {
    forall fd :: fd in s.connections ==> s.connections[fd] < |s.conns| && s.conns[s.connections[fd]].fd == fd
  }

  /** Objects that are not destroyed keep their descriptors open, so these differ. */
  ghost predicate OwnDescriptors(conns: seq<Conn>) {
    forall b, c :: 0 <= b < c < |conns| && !conns[b].destroyed && !conns[c].destroyed ==> conns[b].fd != conns[c].fd
  }

  ghost predicate LoopFits(conns: seq<Conn>, l: Loop, k: nat) {
    PlaceFits(conns, l, k) && TasksFit(conns, l, k) && ChannelsFit(conns, l, k)
  }

  ghost predicate Inv(s: State) {
    && IsLoop(s, 0)
    && (forall c :: 0 <= c < |s.conns| ==> ConnOk(s.conns[c]) && Stands(s, c))
    && (forall k :: 0 <= k < |s.loops| ==> LoopFits(s.conns, s.loops[k], k))
    && MapFits(s) && OwnDescriptors(s.conns)
  }

  function InitialLoop(): Loop { Loop(Polling, {}, [], [], {}, []) }

  ghost predicate Initial(s: State) {
    && s.conns == [] && s.connections == map[]
    && IsLoop(s, 0)
    && forall k :: 0 <= k < |s.loops| ==> s.loops[k] == InitialLoop()
  }

  lemma InitialInv(s: State)
    requires Initial(s)
    ensures Inv(s)
  {
    assert LoopFits([], s.loops[0], 0);
    forall k | 0 <= k < |s.loops| ensures LoopFits([], s.loops[k], k) {
    }
  }

  /** A place that a phase may rest on. */
  predicate Vital(p: Place) { p.Building? || p.Establishing? || p.ClosingOff? || p.Erased? }

  /** A step of loop `k` that touches no connection, no task and no vital place. */
  lemma LoopStepKeeps(s: State, k: nat, l: Loop)
    requires Inv(s) && IsLoop(s, k) && LoopFits(s.conns, l, k)
    requires !Vital(s.loops[k].place) && forall t :: Waits(s.loops[k], t) ==> Waits(l, t)
    ensures Inv(s.(loops := s.loops[k := l]))
  {
    var s' := s.(loops := s.loops[k := l]);
    forall c | 0 <= c < |s.conns| ensures Stands(s', c) {
      assert Stands(s, c);
    }
  }

  lemma PollKeeps(s: State, k: nat, ready: seq<nat>)
    requires Inv(s) && Enabled(s, Poll(k, ready))
    ensures Inv(Next(s, Poll(k, ready)))
  {
    assert LoopFits(s.conns, s.loops[k], k);
    LoopStepKeeps(s, k, s.loops[k].(place := Dispatching, ready := ready));
  }

  lemma DispatchKeeps(s: State, k: nat, handled: bool)
    requires Inv(s) && Enabled(s, Dispatch(k, handled))
    ensures Inv(Next(s, Dispatch(k, handled)))
  {
    assert LoopFits(s.conns, s.loops[k], k);
    var c := s.loops[k].ready[0];
    assert c in s.loops[k].interest && ConnOk(s.conns[c]);
    LoopStepKeeps(s, k, Next(s, Dispatch(k, handled)).loops[k]);
  }

  lemma TimerHandlerKeeps(s: State, c: nat)
    requires Inv(s) && Enabled(s, TimerHandler(c))
    ensures Inv(Next(s, TimerHandler(c)))
  {
    assert LoopFits(s.conns, s.loops[0], 0);
    ReferencedLives(s, c);
    if s.conns[c].reading {
      LoopStepKeeps(s, 0, s.loops[0].(place := Handling(c)));
    }
  }

  lemma HeldByLoopLives(s: State, k: nat, c: nat)
    requires Inv(s) && IsLoop(s, k) && LoopHolds(s.loops[k], c)
    ensures c < |s.conns| && !s.conns[c].destroyed
  {
    var l := s.loops[k];
    assert LoopFits(s.conns, l, k);
    if PlaceHolds(l.place, c) {
      assert ConnOk(s.conns[c]);
    } else if c !in l.held {
      var i :| 0 <= i < |l.todo| && l.todo[i].conn == c;
      assert Waits(l, l.todo[i]) && TaskFits(s.conns, k, l.todo[i]) && ConnOk(s.conns[c]);
    }
  }

  /** A reference keeps its object alive. */
  lemma ReferencedLives(s: State, c: nat)
    requires Inv(s) && Referenced(s, c)
    ensures c < |s.conns| && !s.conns[c].destroyed
  {
    if fd :| fd in s.connections && s.connections[fd] == c {
      assert ConnOk(s.conns[c]) && Stands(s, c);
    } else {
      var k :| 0 <= k < |s.loops| && LoopHolds(s.loops[k], c);
      HeldByLoopLives(s, k, c);
    }
  }

  lemma EndHandlerKeeps(s: State, k: nat)
    requires Inv(s) && Enabled(s, EndHandler(k))
    ensures Inv(Next(s, EndHandler(k)))
  {
    assert LoopFits(s.conns, s.loops[k], k);
    LoopStepKeeps(s, k, s.loops[k].(place := Dispatching));
  }

  lemma SwapFits(s: State, k: nat)
    requires Inv(s) && IsLoop(s, k) && s.loops[k].place.Dispatching? && s.loops[k].ready == []
    ensures LoopFits(s.conns, SwapTasks(s.loops[k]), k)
    ensures forall t :: Waits(SwapTasks(s.loops[k]), t) <==> Waits(s.loops[k], t)
  {
    var l, l' := s.loops[k], SwapTasks(s.loops[k]);
    assert LoopFits(s.conns, l, k);
    assert TasksFit(s.conns, l', k) by {
      assert l'.batch + l'.todo == l.todo == l.batch + l.todo;
      assert forall t :: Waits(l', t) <==> Waits(l, t);
      forall c | c in l'.held ensures c < |s.conns| && !s.conns[c].destroyed {
        var i :| 0 <= i < |l.todo| && l.todo[i].conn == c;
        assert Waits(l, l.todo[i]) && TaskFits(s.conns, k, l.todo[i]) && ConnOk(s.conns[c]);
      }
    }
  }

  lemma StartDrainKeeps(s: State, k: nat)
    requires Inv(s) && Enabled(s, StartDrain(k))
    ensures Inv(Next(s, StartDrain(k)))
  {
    SwapFits(s, k);
    LoopStepKeeps(s, k, SwapTasks(s.loops[k]));
  }

  lemma EndDrainKeeps(s: State, k: nat)
    requires Inv(s) && Enabled(s, EndDrain(k))
    ensures Inv(Next(s, EndDrain(k)))
  {
    var l, l' := s.loops[k], Next(s, EndDrain(k)).loops[k];
    assert LoopFits(s.conns, l, k);
    LoopStepKeeps(s, k, l');
  }

  // Steps that change a connection: what stays as it was for the others.

  lemma StandsFrame(s: State, s': State, b: nat)
    requires b < |s.conns| && IsLoop(s, 0) && Stands(s, b)
    requires b < |s'.conns| && s'.conns[b] == s.conns[b] && |s'.loops| == |s.loops|
    requires InMap(s', b) == InMap(s, b)
    requires forall k :: 0 <= k < |s.loops| && Vital(s.loops[k].place) && s.loops[k].place.conn == b
               ==> s'.loops[k].place == s.loops[k].place
    requires forall k, t :: 0 <= k < |s.loops| && Waits(s.loops[k], t) && t.conn == b
               ==> Waits(s'.loops[k], t)
    ensures Stands(s', b)
  {
  }

  /** A loop still fits, at place `p`, when connection `c` has changed, if nothing it says of `c` became
      false. */
  lemma LoopFrame(conns: seq<Conn>, c: nat, conn: Conn, l: Loop, p: Place, k: nat)
    requires c < |conns| && LoopFits(conns, l, k)
    requires conn.loop == conns[c].loop && (conn.inEpoll == conns[c].inEpoll || conn.loop != k)
    requires p != l.place || PlaceHolds(p, c) ==> PlaceFits(conns[c := conn], l.(place := p), k)
    requires forall t :: Waits(l, t) && t.conn == c ==> TaskFits(conns[c := conn], k, t)
    requires conn.destroyed ==> conns[c].destroyed || c !in l.held
    ensures LoopFits(conns[c := conn], l.(place := p), k)
  {
    assert forall t :: Waits(l.(place := p), t) <==> Waits(l, t);
  }

  lemma PushFits(conns: seq<Conn>, l: Loop, k: nat, t: Task)
    requires LoopFits(conns, l, k) && TaskFits(conns, k, t) && !Waits(l, t)
    ensures LoopFits(conns, l.(todo := l.todo + [t]), k)
  {
    assert l.batch + (l.todo + [t]) == (l.batch + l.todo) + [t];
    assert forall u :: u in l.batch + l.todo <==> Waits(l, u);
    assert forall u :: Waits(l.(todo := l.todo + [t]), u) <==> Waits(l, u) || u == t;
  }

  lemma NoRepeatsTail(t: Task, ts: seq<Task>)
    requires NoRepeats([t] + ts)
    ensures NoRepeats(ts) && t !in ts
  {
    var all := [t] + ts;
    assert all[0] == t && forall i :: 0 <= i < |ts| ==> all[i + 1] == ts[i];
  }

  lemma PopFits(conns: seq<Conn>, l: Loop, k: nat)
    requires LoopFits(conns, l, k) && l.batch != []
    ensures LoopFits(conns, l.(batch := l.batch[1..]), k)
    ensures !Waits(l.(batch := l.batch[1..]), l.batch[0])
    ensures forall t :: Waits(l, t) <==> Waits(l.(batch := l.batch[1..]), t) || t == l.batch[0]
  {
    var t, rest := l.batch[0], l.batch[1..];
    assert l.batch + l.todo == [t] + (rest + l.todo);
    NoRepeatsTail(t, rest + l.todo);
    assert forall u :: u in l.batch <==> u in rest || u == t;
  }

  lemma GrowFits(conns: seq<Conn>, conn: Conn, l: Loop, k: nat)
    requires LoopFits(conns, l, k) && conn.inEpoll
    ensures conn.loop != k ==> LoopFits(conns + [conn], l, k)
    ensures conn.loop == k ==> LoopFits(conns + [conn], l.(interest := l.interest + {|conns|}), k)
  {
    var l' := l.(interest := l.interest + {|conns|});
    assert forall t :: Waits(l', t) <==> Waits(l, t);
  }

  // HandleClose

  lemma TestStatusLoop(s: State, k: nat, c: nat, j: nat)
    requires Inv(s) && IsLoop(s, k) && s.loops[k].place == Handling(c) && IsLoop(s, j) && c < |s.conns|
    ensures var s' := TestStatus(s, k, c); LoopFits(s'.conns, s'.loops[j], j)
  {
    var s' := TestStatus(s, k, c);
    assert LoopFits(s.conns, s.loops[k], k) && LoopFits(s.conns, s.loops[j], j) && ConnOk(s.conns[c]);
    if s.conns[c].status != Disconnected {
      LoopFrame(s.conns, c, s'.conns[c], s.loops[j], s'.loops[j].place, j);
    }
  }

  lemma TestStatusConn(s: State, k: nat, c: nat, b: nat)
    requires Inv(s) && IsLoop(s, k) && s.loops[k].place == Handling(c) && c < |s.conns| && b < |s.conns|
    ensures var s' := TestStatus(s, k, c); ConnOk(s'.conns[b]) && Stands(s', b)
  {
    assert ConnOk(s.conns[b]) && Stands(s, b) && LoopFits(s.conns, s.loops[k], k);
    if b != c {
      StandsFrame(s, TestStatus(s, k, c), b);
    }
  }

  lemma TryCloseKeeps(s: State, k: nat)
    requires Inv(s) && Enabled(s, TryClose(k))
    ensures Inv(Next(s, TryClose(k)))
  {
    hide ConnOk, Stands, LoopFits;
    var c, s' := s.loops[k].place.conn, Next(s, TryClose(k));
    forall j | 0 <= j < |s.loops| ensures LoopFits(s'.conns, s'.loops[j], j) { TestStatusLoop(s, k, c, j); }
    forall b | 0 <= b < |s.conns| ensures ConnOk(s'.conns[b]) && Stands(s', b) { TestStatusConn(s, k, c, b); }
  }

  // HandleClose telling the server

  lemma QueueCloseLoop(s: State, k: nat, c: nat, j: nat)
    requires Inv(s) && IsLoop(s, k) && k != 0 && s.loops[k].place == ClosingOff(c) && IsLoop(s, j) && c < |s.conns|
    ensures var s' := QueueClose(s, k, c); LoopFits(s'.conns, s'.loops[j], j)
  {
    var s' := QueueClose(s, k, c);
    assert LoopFits(s.conns, s.loops[k], k) && LoopFits(s.conns, s.loops[j], j) && ConnOk(s.conns[c]);
    LoopFrame(s.conns, c, s'.conns[c], s.loops[j], s'.loops[j].place, j);
    if j == 0 {
      PushFits(s'.conns, s.loops[0], 0, CloseInLoop(c));
    }
  }

  lemma QueueCloseConn(s: State, k: nat, c: nat, b: nat)
    requires Inv(s) && IsLoop(s, k) && k != 0 && s.loops[k].place == ClosingOff(c) && c < |s.conns| && b < |s.conns|
    ensures var s' := QueueClose(s, k, c); ConnOk(s'.conns[b]) && Stands(s', b)
  {
    var s' := QueueClose(s, k, c);
    assert ConnOk(s.conns[b]) && Stands(s, b) && LoopFits(s.conns, s.loops[k], k);
    assert LoopFits(s.conns, s.loops[0], 0);
    PushFits(s'.conns, s.loops[0], 0, CloseInLoop(c)) by { QueueCloseLoop0(s, k, c); }
    if b != c {
      StandsFrame(s, s', b);
    }
  }

  lemma QueueCloseLoop0(s: State, k: nat, c: nat)
    requires Inv(s) && IsLoop(s, k) && k != 0 && s.loops[k].place == ClosingOff(c) && c < |s.conns|
    ensures var s' := QueueClose(s, k, c);
            && LoopFits(s'.conns, s.loops[0], 0) && TaskFits(s'.conns, 0, CloseInLoop(c))
            && !Waits(s.loops[0], CloseInLoop(c))
  {
    assert LoopFits(s.conns, s.loops[k], k) && LoopFits(s.conns, s.loops[0], 0) && ConnOk(s.conns[c]);
    LoopFrame(s.conns, c, QueueClose(s, k, c).conns[c], s.loops[0], s.loops[0].place, 0);
  }

  lemma MapKeeps(s: State, s': State, c: nat)
    requires MapFits(s) && OwnDescriptors(s.conns) && c < |s.conns| == |s'.conns|
    requires s'.conns[c].fd == s.conns[c].fd && (s'.conns[c].destroyed <==> s.conns[c].destroyed)
    requires forall b :: 0 <= b < |s.conns| && b != c ==> s'.conns[b] == s.conns[b]
    requires forall fd :: fd in s'.connections ==> fd in s.connections && s'.connections[fd] == s.connections[fd]
    ensures MapFits(s') && OwnDescriptors(s'.conns)
  {
  }

  lemma QueueCloseKeeps(s: State, k: nat, c: nat)
    requires Inv(s) && IsLoop(s, k) && k != 0 && s.loops[k].place == ClosingOff(c) && c < |s.conns|
    ensures Inv(QueueClose(s, k, c))
  {
    hide ConnOk, Stands, LoopFits;
    var s' := QueueClose(s, k, c);
    forall j | 0 <= j < |s.loops| ensures LoopFits(s'.conns, s'.loops[j], j) { QueueCloseLoop(s, k, c, j); }
    forall b | 0 <= b < |s.conns| ensures ConnOk(s'.conns[b]) && Stands(s', b) { QueueCloseConn(s, k, c, b); }
    MapKeeps(s, s', c);
  }

  /** Before HandleCloseInLoop: the connection is closed and still in the map, and either this very thread is
      about to call, or the task was taken off the queue. */
  ghost predicate ReadyToErase(s: State, c: nat, direct: bool) {
    && IsLoop(s, 0) && c < |s.conns|
    && (forall b :: 0 <= b < |s.conns| ==> ConnOk(s.conns[b]) && (b != c ==> Stands(s, b)))
    && (forall k :: 0 <= k < |s.loops| && k != 0 ==> LoopFits(s.conns, s.loops[k], k))
    && MapFits(s) && OwnDescriptors(s.conns)
    && InMap(s, c) && IsLoop(s, s.conns[c].loop) && s.conns[c].reading
    && (forall k, t :: 0 <= k < |s.loops| && Waits(s.loops[k], t) ==> t.conn != c)
    && LoopFits(s.conns, s.loops[0], 0)
    && (if direct then
          && s.loops[0].place == ClosingOff(c) && s.conns[c].phase == Closing
          && (forall k :: 1 <= k < |s.loops| ==> s.loops[k].place != ClosingOff(c))
        else s.loops[0].place == Draining && s.conns[c].phase == CloseQueued)
  }

  lemma EraseEntryLoop(s: State, c: nat, direct: bool, j: nat)
    requires ReadyToErase(s, c, direct) && IsLoop(s, j)
    ensures var s' := EraseEntry(s, c, direct); LoopFits(s'.conns, s'.loops[j], j)
  {
    var s' := EraseEntry(s, c, direct);
    assert LoopFits(s.conns, s.loops[j], j) && ConnOk(s.conns[c]);
    LoopFrame(s.conns, c, s'.conns[c], s.loops[j], s'.loops[j].place, j);
  }

  lemma EraseEntryConn(s: State, c: nat, direct: bool, b: nat)
    requires ReadyToErase(s, c, direct) && b < |s.conns|
    ensures var s' := EraseEntry(s, c, direct); ConnOk(s'.conns[b]) && Stands(s', b)
  {
    var s' := EraseEntry(s, c, direct);
    assert ConnOk(s.conns[b]);
    if b != c {
      assert Stands(s, b);
      StandsFrame(s, s', b);
    }
  }

  lemma EraseEntryKeeps(s: State, c: nat, direct: bool)
    requires ReadyToErase(s, c, direct)
    ensures Inv(EraseEntry(s, c, direct))
  {
    hide ConnOk, Stands, LoopFits;
    var s' := EraseEntry(s, c, direct);
    forall j | 0 <= j < |s.loops| ensures LoopFits(s'.conns, s'.loops[j], j) { EraseEntryLoop(s, c, direct, j); }
    forall b | 0 <= b < |s.conns| ensures ConnOk(s'.conns[b]) && Stands(s', b) { EraseEntryConn(s, c, direct, b); }
    MapKeeps(s, s', c);
  }

  lemma DirectCloseIsReady(s: State, c: nat)
    requires Inv(s) && s.loops[0].place == ClosingOff(c) && c < |s.conns|
    ensures ReadyToErase(s, c, true)
  {
    assert LoopFits(s.conns, s.loops[0], 0) && ConnOk(s.conns[c]) && Stands(s, c);
    forall k, t | 0 <= k < |s.loops| && Waits(s.loops[k], t) ensures t.conn != c {
      assert LoopFits(s.conns, s.loops[k], k) && TaskFits(s.conns, k, t);
    }
    forall k | 1 <= k < |s.loops| ensures s.loops[k].place != ClosingOff(c) {
      assert LoopFits(s.conns, s.loops[k], k);
    }
  }

  lemma TellServerKeeps(s: State, k: nat)
    requires Inv(s) && Enabled(s, TellServer(k))
    ensures Inv(Next(s, TellServer(k)))
  {
    hide ConnOk, Stands, LoopFits;
    var c := s.loops[k].place.conn;
    if k == 0 {
      DirectCloseIsReady(s, c);
      EraseEntryKeeps(s, c, true);
    } else {
      QueueCloseKeeps(s, k, c);
    }
  }

  // Running a queued task

  predicate AtTask(s: State, k: nat, t: Task) {
    IsLoop(s, k) && s.loops[k].place.Draining? && s.loops[k].batch != [] && s.loops[k].batch[0] == t
  }

  /** Taking a task off a queue leaves the others. */
  lemma PoppedWaits(s: State, k: nat, t: Task)
    requires Inv(s) && AtTask(s, k, t)
    ensures LoopFits(s.conns, Popped(s, k).loops[k], k)
    ensures Waits(s.loops[k], t) && !Waits(Popped(s, k).loops[k], t)
    ensures TaskFits(s.conns, k, t) && !s.conns[t.conn].destroyed
    ensures forall j, u :: 0 <= j < |s.loops| && Waits(s.loops[j], u) && (j != k || u != t)
              ==> Waits(Popped(s, k).loops[j], u)
    ensures forall j, u :: 0 <= j < |s.loops| && Waits(Popped(s, k).loops[j], u)
              ==> Waits(s.loops[j], u)
  {
    assert LoopFits(s.conns, s.loops[k], k);
    PopFits(s.conns, s.loops[k], k);
  }

  lemma TaskCloseIsReady(s: State, c: nat)
    requires Inv(s) && AtTask(s, 0, CloseInLoop(c))
    ensures ReadyToErase(Popped(s, 0), c, false)
  {
    var s1 := Popped(s, 0);
    PoppedWaits(s, 0, CloseInLoop(c));
    assert ConnOk(s.conns[c]) && Stands(s, c);
    forall k, t | 0 <= k < |s1.loops| && Waits(s1.loops[k], t) ensures t.conn != c {
      assert LoopFits(s.conns, s.loops[k], k);
      assert Waits(s.loops[k], t) && TaskFits(s.conns, k, t);
    }
    forall b | 0 <= b < |s.conns| && b != c ensures Stands(s1, b) {
      assert Stands(s, b);
      StandsFrame(s, s1, b);
    }
  }

  lemma RemoveLoop(s: State, k: nat, c: nat, j: nat)
    requires Inv(s) && AtTask(s, k, Destructor(c)) && c < |s.conns| && IsLoop(s, j)
    ensures var s' := DeleteChannel(Popped(s, k), c, k); LoopFits(s'.conns, s'.loops[j], j)
  {
    var s', l := DeleteChannel(Popped(s, k), c, k), s.loops[k];
    assert LoopFits(s.conns, l, k) && LoopFits(s.conns, s.loops[j], j) && ConnOk(s.conns[c]);
    PoppedWaits(s, k, Destructor(c));
    if j != k {
      LoopFrame(s.conns, c, s'.conns[c], s.loops[j], s.loops[j].place, j);
    } else {
      RemoveFits(s.conns, c, s'.conns[c], Popped(s, k).loops[k], k);
    }
  }

  /** The channel leaves the interest set of its own loop, which has nothing left to dispatch. */
  lemma RemoveFits(conns: seq<Conn>, c: nat, conn: Conn, l: Loop, k: nat)
    requires c < |conns| && LoopFits(conns, l, k) && l.place.Draining? && l.ready == []
    requires conn.loop == conns[c].loop == k && !conn.inEpoll && (conn.destroyed ==> conns[c].destroyed)
    requires forall t :: Waits(l, t) ==> t.conn != c
    ensures LoopFits(conns[c := conn], l.(interest := l.interest - {c}), k)
  {
    assert forall t :: Waits(l.(interest := l.interest - {c}), t) <==> Waits(l, t);
  }

  lemma RemovedConn(s: State, k: nat, c: nat)
    requires Inv(s) && AtTask(s, k, Destructor(c)) && c < |s.conns|
    ensures var s' := DeleteChannel(Popped(s, k), c, k); ConnOk(s'.conns[c]) && Stands(s', c)
  {
    assert ConnOk(s.conns[c]) && Stands(s, c);
    PoppedWaits(s, k, Destructor(c));
  }

  lemma RemoveConn(s: State, k: nat, c: nat, b: nat)
    requires Inv(s) && AtTask(s, k, Destructor(c)) && c < |s.conns| && b < |s.conns| && b != c
    ensures var s' := DeleteChannel(Popped(s, k), c, k); ConnOk(s'.conns[b]) && Stands(s', b)
  {
    var s1, s' := Popped(s, k), DeleteChannel(Popped(s, k), c, k);
    assert ConnOk(s.conns[b]) && Stands(s, b);
    assert forall j, t :: 0 <= j < |s.loops| ==> (Waits(s'.loops[j], t) <==> Waits(s1.loops[j], t));
    assert forall j :: 0 <= j < |s.loops| ==> s'.loops[j].place == s.loops[j].place;
    hide Stands, ConnOk, DeleteChannel;
    PoppedWaits(s, k, Destructor(c));
    StandsFrame(s, s', b);
  }

  lemma RunTaskKeeps(s: State, k: nat)
    requires Inv(s) && Enabled(s, RunTask(k))
    ensures Inv(Next(s, RunTask(k)))
  {
    hide ConnOk, Stands, LoopFits;
    var s', t := RunNext(s, k), s.loops[k].batch[0];
    PoppedWaits(s, k, t);
    match t
    case CloseInLoop(c) =>
      TaskCloseIsReady(s, c);
      EraseEntryKeeps(Popped(s, 0), c, false);
    case Destructor(c) =>
      forall j | 0 <= j < |s.loops| ensures LoopFits(s'.conns, s'.loops[j], j) { RemoveLoop(s, k, c, j); }
      forall b | 0 <= b < |s.conns| ensures ConnOk(s'.conns[b]) && Stands(s', b) {
        if b == c { RemovedConn(s, k, c); } else { RemoveConn(s, k, c, b); }
      }
      MapKeeps(s, s', c);
  }

  // The second half of HandleCloseInLoop

  lemma QueueDestructorLoop(s: State, c: nat, direct: bool, j: nat)
    requires Inv(s) && s.loops[0].place == Erased(c, direct) && c < |s.conns| && IsLoop(s, s.conns[c].loop)
    requires IsLoop(s, j)
    ensures var s' := QueueDestructor(s, c, direct); LoopFits(s'.conns, s'.loops[j], j)
    ensures j == s.conns[c].loop ==> !Waits(s.loops[j], Destructor(c))
  {
    var s', k := QueueDestructor(s, c, direct), s.conns[c].loop;
    assert LoopFits(s.conns, s.loops[0], 0) && LoopFits(s.conns, s.loops[j], j) && ConnOk(s.conns[c]);
    var place := if j == 0 then s'.loops[0].place else s.loops[j].place;
    LoopFrame(s.conns, c, s'.conns[c], s.loops[j], place, j);
    if j == k {
      assert forall t :: Waits(s.loops[j].(place := place), t) <==> Waits(s.loops[j], t);
      PushFits(s'.conns, s.loops[j].(place := place), j, Destructor(c));
    }
  }

  lemma QueueDestructorConn(s: State, c: nat, direct: bool, b: nat)
    requires Inv(s) && s.loops[0].place == Erased(c, direct) && c < |s.conns| && IsLoop(s, s.conns[c].loop)
    requires b < |s.conns|
    ensures var s' := QueueDestructor(s, c, direct); ConnOk(s'.conns[b]) && Stands(s', b)
  {
    var s', k := QueueDestructor(s, c, direct), s.conns[c].loop;
    assert ConnOk(s.conns[b]) && Stands(s, b) && LoopFits(s.conns, s.loops[0], 0) && LoopFits(s.conns, s.loops[k], k);
    if b != c {
      StandsFrame(s, s', b);
    }
  }

  lemma QueueRemovalKeeps(s: State)
    requires Inv(s) && Enabled(s, QueueRemoval)
    ensures Inv(Next(s, QueueRemoval))
  {
    hide ConnOk, Stands, LoopFits;
    var c, direct, s' := s.loops[0].place.conn, s.loops[0].place.direct, Next(s, QueueRemoval);
    forall j | 0 <= j < |s.loops| ensures LoopFits(s'.conns, s'.loops[j], j) {
      QueueDestructorLoop(s, c, direct, j);
    }
    forall b | 0 <= b < |s.conns| ensures ConnOk(s'.conns[b]) && Stands(s', b) {
      QueueDestructorConn(s, c, direct, b);
    }
    MapKeeps(s, s', c);
  }

  // HandleNewConnection, in three steps

  lemma ConstructLoop(s: State, fd: int, k: nat, j: nat)
    requires Inv(s) && s.loops[0].place.Dispatching? && IsLoop(s, k) && IsLoop(s, j)
    ensures var s' := Construct(s, fd, k); LoopFits(s'.conns, s'.loops[j], j)
  {
    var s', c := Construct(s, fd, k), |s.conns|;
    var l := if j == k then s.loops[j].(interest := s.loops[j].interest + {c}) else s.loops[j];
    assert LoopFits(s.conns, s.loops[j], j);
    GrowFits(s.conns, s'.conns[c], s.loops[j], j);
    assert s'.conns == s.conns + [s'.conns[c]];
    if j == 0 {
      assert s'.loops[0] == l.(place := Building(c));
      assert forall t :: Waits(s'.loops[0], t) <==> Waits(l, t);
    }
  }

  lemma ConstructedConn(s: State, fd: int, k: nat)
    requires Inv(s) && IsLoop(s, k)
    ensures var s' := Construct(s, fd, k); ConnOk(s'.conns[|s.conns|]) && Stands(s', |s.conns|)
  {
    assert MapFits(s);
  }

  lemma ConstructConn(s: State, fd: int, k: nat, b: nat)
    requires Inv(s) && s.loops[0].place.Dispatching? && IsLoop(s, k) && b < |s.conns|
    ensures var s' := Construct(s, fd, k); ConnOk(s'.conns[b]) && Stands(s', b)
  {
    var s' := Construct(s, fd, k);
    assert ConnOk(s.conns[b]) && Stands(s, b);
    assert s'.conns[b] == s.conns[b] && s'.connections == s.connections && |s'.loops| == |s.loops|;
    assert forall j, t :: 0 <= j < |s.loops| ==> (Waits(s'.loops[j], t) <==> Waits(s.loops[j], t));
    assert forall j :: 1 <= j < |s.loops| ==> s'.loops[j].place == s.loops[j].place;
    hide Construct, Stands, ConnOk;
    StandsFrame(s, s', b);
  }

  lemma AcceptKeeps(s: State, fd: int, k: nat)
    requires Inv(s) && Enabled(s, Accept(fd, k))
    ensures Inv(Next(s, Accept(fd, k)))
  {
    hide ConnOk, Stands, LoopFits;
    var s' := Construct(s, fd, k);
    forall j | 0 <= j < |s.loops| ensures LoopFits(s'.conns, s'.loops[j], j) { ConstructLoop(s, fd, k, j); }
    forall b | 0 <= b < |s'.conns| ensures ConnOk(s'.conns[b]) && Stands(s', b) {
      if b == |s.conns| { ConstructedConn(s, fd, k); } else { ConstructConn(s, fd, k, b); }
    }
  }

  /** Every key of the map leads to the one live connection that owns that descriptor. */
  lemma EntryIsLive(s: State, fd: int)
    requires Inv(s) && fd in s.connections
    ensures var c := s.connections[fd];
            && c < |s.conns| && s.conns[c].fd == fd && !s.conns[c].destroyed && 1 <= Rank(s.conns[c].phase) <= 3
            && forall b :: 0 <= b < |s.conns| && b != c && s.conns[b].fd == fd ==> s.conns[b].destroyed
  {
    var c := s.connections[fd];
    assert ConnOk(s.conns[c]) && Stands(s, c);
  }

  /** No entry has the descriptor of the connection about to be inserted. */
  lemma DescriptorIsFree(s: State, c: nat)
    requires Inv(s) && s.loops[0].place == Building(c) && c < |s.conns|
    ensures s.conns[c].fd !in s.connections
  {
    assert LoopFits(s.conns, s.loops[0], 0) && ConnOk(s.conns[c]);
    if s.conns[c].fd in s.connections {
      EntryIsLive(s, s.conns[c].fd);
    }
  }

  lemma InsertLoop(s: State, c: nat, j: nat)
    requires Inv(s) && s.loops[0].place == Building(c) && c < |s.conns| && IsLoop(s, j)
    ensures var s' := Insert(s, c); LoopFits(s'.conns, s'.loops[j], j)
  {
    var s' := Insert(s, c);
    assert LoopFits(s.conns, s.loops[0], 0) && LoopFits(s.conns, s.loops[j], j) && ConnOk(s.conns[c]);
    LoopFrame(s.conns, c, s'.conns[c], s.loops[j], s'.loops[j].place, j);
  }

  lemma InsertConn(s: State, c: nat, b: nat)
    requires Inv(s) && s.loops[0].place == Building(c) && c < |s.conns| && b < |s.conns|
    ensures var s' := Insert(s, c); ConnOk(s'.conns[b]) && Stands(s', b)
  {
    var s' := Insert(s, c);
    assert ConnOk(s.conns[b]) && Stands(s, b) && LoopFits(s.conns, s.loops[0], 0);
    DescriptorIsFree(s, c);
    if b != c {
      assert MapFits(s);
      StandsFrame(s, s', b);
    }
  }

  lemma InsertConnectionKeeps(s: State)
    requires Inv(s) && Enabled(s, InsertConnection)
    ensures Inv(Next(s, InsertConnection))
  {
    hide ConnOk, Stands, LoopFits;
    var c, s' := s.loops[0].place.conn, Next(s, InsertConnection);
    forall j | 0 <= j < |s.loops| ensures LoopFits(s'.conns, s'.loops[j], j) { InsertLoop(s, c, j); }
    forall b | 0 <= b < |s.conns| ensures ConnOk(s'.conns[b]) && Stands(s', b) { InsertConn(s, c, b); }
  }

  lemma StartReadingLoop(s: State, c: nat, j: nat)
    requires Inv(s) && s.loops[0].place == Establishing(c) && c < |s.conns| && IsLoop(s, s.conns[c].loop)
    requires IsLoop(s, j)
    ensures var s' := StartReading(s, c); LoopFits(s'.conns, s'.loops[j], j)
  {
    var s' := StartReading(s, c);
    assert LoopFits(s.conns, s.loops[0], 0) && LoopFits(s.conns, s.loops[j], j) && ConnOk(s.conns[c]);
    LoopFrame(s.conns, c, s'.conns[c], s.loops[j], s'.loops[j].place, j);
  }

  lemma StartReadingConn(s: State, c: nat, b: nat)
    requires Inv(s) && s.loops[0].place == Establishing(c) && c < |s.conns| && IsLoop(s, s.conns[c].loop)
    requires b < |s.conns|
    ensures var s' := StartReading(s, c); ConnOk(s'.conns[b]) && Stands(s', b)
  {
    var s' := StartReading(s, c);
    assert ConnOk(s.conns[b]) && Stands(s, b) && LoopFits(s.conns, s.loops[0], 0) && ConnOk(s.conns[c]);
    if b != c {
      StandsFrame(s, s', b);
    }
  }

  lemma EstablishKeeps(s: State)
    requires Inv(s) && Enabled(s, Establish)
    ensures Inv(Next(s, Establish))
  {
    var c, s' := s.loops[0].place.conn, Next(s, Establish);
    assert ConnOk(s.conns[c]) && LoopFits(s.conns, s.loops[0], 0);
    hide ConnOk, Stands, LoopFits;
    forall j | 0 <= j < |s.loops| ensures LoopFits(s'.conns, s'.loops[j], j) { StartReadingLoop(s, c, j); }
    forall b | 0 <= b < |s.conns| ensures ConnOk(s'.conns[b]) && Stands(s', b) { StartReadingConn(s, c, b); }
    MapKeeps(s, s', c);
  }

  // The last reference going

  lemma WaitingHolds(conns: seq<Conn>, l: Loop, k: nat, t: Task)
    requires LoopFits(conns, l, k) && Waits(l, t)
    ensures LoopHolds(l, t.conn)
  {
    if t in l.todo {
      var i :| 0 <= i < |l.todo| && l.todo[i] == t;
      assert TasksHold(l.todo, t.conn);
    }
  }

  /** Only a connection whose channel has left its interest set loses its last reference. */
  lemma UnreferencedWasRemoved(s: State, c: nat)
    requires Inv(s) && c < |s.conns| && !s.conns[c].destroyed && !Referenced(s, c)
    ensures s.conns[c].phase == Removed
  {
    var conn := s.conns[c];
    assert ConnOk(conn) && Stands(s, c);
    forall k | 0 <= k < |s.loops| ensures forall t :: Waits(s.loops[k], t) ==> t.conn != c {
      forall t | Waits(s.loops[k], t) ensures t.conn != c {
        assert LoopFits(s.conns, s.loops[k], k);
        WaitingHolds(s.conns, s.loops[k], k, t);
      }
    }
    assert forall k :: 0 <= k < |s.loops| ==> !LoopHolds(s.loops[k], c);
  }

  lemma DestroyLoop(s: State, c: nat, j: nat)
    requires Inv(s) && Enabled(s, Destroy(c)) && s.conns[c].phase == Removed && IsLoop(s, j)
    ensures var s' := Next(s, Destroy(c)); LoopFits(s'.conns, s'.loops[j], j)
  {
    assert LoopFits(s.conns, s.loops[j], j) && ConnOk(s.conns[c]) && !LoopHolds(s.loops[j], c);
    LoopFrame(s.conns, c, s.conns[c].(destroyed := true, phase := Gone), s.loops[j], s.loops[j].place, j);
  }

  lemma DestroyKeeps(s: State, c: nat)
    requires Inv(s) && Enabled(s, Destroy(c))
    ensures Inv(Next(s, Destroy(c)))
  {
    var s' := Next(s, Destroy(c));
    UnreferencedWasRemoved(s, c);
    hide LoopFits;
    forall b | 0 <= b < |s.conns| ensures ConnOk(s'.conns[b]) && Stands(s', b) {
      assert ConnOk(s.conns[b]) && Stands(s, b);
    }
    hide ConnOk, Stands;
    forall j | 0 <= j < |s.loops| ensures LoopFits(s'.conns, s'.loops[j], j) { DestroyLoop(s, c, j); }
  }

  lemma StepKeeps(s: State, a: Action)
    requires Inv(s) && Enabled(s, a)
    ensures Inv(Next(s, a))
  {
    match a
    case Accept(fd, k) => AcceptKeeps(s, fd, k);
    case InsertConnection => InsertConnectionKeeps(s);
    case Establish => EstablishKeeps(s);
    case Poll(k, ready) => PollKeeps(s, k, ready);
    case Dispatch(k, handled) => DispatchKeeps(s, k, handled);
    case TimerHandler(c) => TimerHandlerKeeps(s, c);
    case TryClose(k) => TryCloseKeeps(s, k);
    case TellServer(k) => TellServerKeeps(s, k);
    case QueueRemoval => QueueRemovalKeeps(s);
    case EndHandler(k) => EndHandlerKeeps(s, k);
    case StartDrain(k) => StartDrainKeeps(s, k);
    case RunTask(k) => RunTaskKeeps(s, k);
    case EndDrain(k) => EndDrainKeeps(s, k);
    case Destroy(c) => DestroyKeeps(s, c);
  }

  // ---------- Over every run ----------

  /** The state after the actions, as long as each is possible where it comes. */
  ghost predicate Run(s: State, actions: seq<Action>, last: State)
    decreases |actions|
  {
    if actions == [] then last == s
    else Enabled(s, actions[0]) && Run(Next(s, actions[0]), actions[1..], last)
  }

  ghost predicate Reachable(s: State) {
    exists first, actions :: Initial(first) && Run(first, actions, s)
  }

  lemma RunSelf(s: State)
    requires Initial(s)
    ensures Reachable(s)
  {
    assert Run(s, [], s);
  }

  lemma {:induction false} RunThen(s: State, actions: seq<Action>, mid: State, a: Action)
    requires Run(s, actions, mid) && Enabled(mid, a)
    ensures Run(s, actions + [a], Next(mid, a))
    decreases |actions|
  {
    if actions == [] {
      assert [a][1..] == [] && Run(Next(mid, a), [], Next(mid, a));
      assert actions + [a] == [a];
    } else {
      RunThen(Next(s, actions[0]), actions[1..], mid, a);
      assert (actions + [a])[1..] == actions[1..] + [a] && (actions + [a])[0] == actions[0];
    }
  }

  lemma ReachableStep(s: State, a: Action)
    requires Reachable(s) && Enabled(s, a)
    ensures Reachable(Next(s, a))
  {
    var first, actions :| Initial(first) && Run(first, actions, s);
    RunThen(first, actions, s, a);
  }

  lemma {:induction false} RunKeeps(s: State, actions: seq<Action>, last: State)
    requires Inv(s) && Run(s, actions, last)
    ensures Inv(last)
    decreases |actions|
  {
    if actions != [] {
      StepKeeps(s, actions[0]);
      RunKeeps(Next(s, actions[0]), actions[1..], last);
    }
  }

  lemma ReachableInv(s: State)
    requires Reachable(s)
    ensures Inv(s)
  {
    var first, actions :| Initial(first) && Run(first, actions, s);
    InitialInv(first);
    RunKeeps(first, actions, s);
  }

  /** The map holds, for each of its keys, the one live connection that owns the descriptor. */
  lemma MapIsSound(s: State)
    requires Reachable(s)
    ensures forall fd :: fd in s.connections ==>
              var c := s.connections[fd];
              && c < |s.conns| && s.conns[c].fd == fd && !s.conns[c].destroyed
              && forall b :: 0 <= b < |s.conns| && b != c && s.conns[b].fd == fd ==> s.conns[b].destroyed
  {
    ReachableInv(s);
    forall fd | fd in s.connections
      ensures var c := s.connections[fd];
              && c < |s.conns| && s.conns[c].fd == fd && !s.conns[c].destroyed
              && forall b :: 0 <= b < |s.conns| && b != c && s.conns[b].fd == fd ==> s.conns[b].destroyed
    {
      EntryIsLive(s, fd);
    }
  }

  /** Storing a new connection under its descriptor never overwrites an entry. */
  lemma InsertNeverOverwrites(s: State)
    requires Reachable(s) && Enabled(s, InsertConnection)
    ensures s.conns[s.loops[0].place.conn].fd !in s.connections
  {
    ReachableInv(s);
    DescriptorIsFree(s, s.loops[0].place.conn);
  }

  /** HandleCloseInLoop, called directly on the main loop, finds the entry of its own connection. */
  lemma DirectCloseFindsEntry(s: State)
    requires Reachable(s) && Enabled(s, TellServer(0))
    ensures InMap(s, s.loops[0].place.conn)
  {
    ReachableInv(s);
    DirectCloseIsReady(s, s.loops[0].place.conn);
  }

  /** So does HandleCloseInLoop run as a task, on whatever loop: only the main one ever runs it. */
  lemma QueuedCloseFindsEntry(s: State, k: nat)
    requires Reachable(s) && Enabled(s, RunTask(k)) && s.loops[k].batch[0].CloseInLoop?
    ensures k == 0 && InMap(s, s.loops[k].batch[0].conn)
  {
    ReachableInv(s);
    var t := s.loops[k].batch[0];
    PoppedWaits(s, k, t);
    assert ConnOk(s.conns[t.conn]) && Stands(s, t.conn);
  }

  /** A plain channel pointer that a loop is about to follow belongs to a connection that is alive and
      referenced, so the weak pointer in HandleEvent locks. */
  lemma DispatchIsSafe(s: State, k: nat, handled: bool)
    requires Reachable(s) && Enabled(s, Dispatch(k, handled))
    ensures var c := s.loops[k].ready[0];
            !s.conns[c].destroyed && s.conns[c].loop == k && Referenced(s, c)
  {
    ReachableInv(s);
    var c := s.loops[k].ready[0];
    assert LoopFits(s.conns, s.loops[k], k);
    assert c in s.loops[k].interest && ConnOk(s.conns[c]);
    if !Referenced(s, c) {
      UnreferencedWasRemoved(s, c);
    }
  }

  /** Interest sets and the channels' own flags agree, and everything in an interest set or a ready list is
      alive; each connection is added once, and deleted once before it is destroyed; HandleCloseInLoop is
      called at most once for it. */
  lemma ChannelsAreSound(s: State)
    requires Reachable(s)
    ensures forall k, c: nat :: 0 <= k < |s.loops| && (c in s.loops[k].interest || c in s.loops[k].ready)
              ==> c < |s.conns| && s.conns[c].loop == k && s.conns[c].inEpoll && !s.conns[c].destroyed
    ensures forall c: nat :: c < |s.conns| ==>
              && s.conns[c].loop < |s.loops|
              && (s.conns[c].inEpoll <==> c in s.loops[s.conns[c].loop].interest)
              && s.conns[c].adds == 1 && s.conns[c].deletes <= 1 && s.conns[c].closes <= 1
              && (s.conns[c].inEpoll <==> s.conns[c].deletes == 0)
              && (s.conns[c].destroyed ==> s.conns[c].deletes == 1 && s.conns[c].closes == 1)
  {
    ReachableInv(s);
    forall k, c: nat | 0 <= k < |s.loops| && (c in s.loops[k].interest || c in s.loops[k].ready)
      ensures c < |s.conns| && s.conns[c].loop == k && s.conns[c].inEpoll && !s.conns[c].destroyed
    {
      assert LoopFits(s.conns, s.loops[k], k);
      assert ConnOk(s.conns[c]);
    }
    forall c: nat | c < |s.conns|
      ensures s.conns[c].loop < |s.loops| && (s.conns[c].inEpoll <==> c in s.loops[s.conns[c].loop].interest)
    {
      assert Stands(s, c);
      assert LoopFits(s.conns, s.loops[s.conns[c].loop], s.conns[c].loop);
    }
    assert forall c :: 0 <= c < |s.conns| ==> ConnOk(s.conns[c]);
  }

  /** Two connections whose channels are registered, on whatever loops, have different descriptors: no registration
      is in another's way. */
  lemma RegisteredDescriptorsDiffer(s: State)
    requires Reachable(s)
    ensures forall b, c :: 0 <= b < c < |s.conns| && s.conns[b].inEpoll && s.conns[c].inEpoll
              ==> s.conns[b].fd != s.conns[c].fd
  {
    ReachableInv(s);
    assert forall c :: 0 <= c < |s.conns| ==> ConnOk(s.conns[c]);
    hide Stands;
  }

  /** No close is lost: once every loop is back at Poll with nothing queued, each connection either is open,
      in the map and in its interest set, or has been taken out of everything and can be destroyed. */
  lemma ClosesComplete(s: State, c: nat)
    requires Reachable(s) && c < |s.conns|
    requires forall k :: 0 <= k < |s.loops| ==> s.loops[k].place == Polling && s.loops[k].todo == []
    ensures if s.conns[c].status == Connected then InMap(s, c) && s.conns[c].inEpoll && !s.conns[c].destroyed
            else s.conns[c].destroyed || Enabled(s, Destroy(c))
  {
    ReachableInv(s);
    assert ConnOk(s.conns[c]) && Stands(s, c);
    assert LoopFits(s.conns, s.loops[0], 0) && LoopFits(s.conns, s.loops[s.conns[c].loop], s.conns[c].loop);
    if Rank(s.conns[c].phase) >= 6 {
      forall k | 0 <= k < |s.loops| ensures !LoopHolds(s.loops[k], c) {
        assert LoopFits(s.conns, s.loops[k], k);
      }
      forall fd | fd in s.connections ensures s.connections[fd] != c {
        EntryIsLive(s, fd);
      }
    }
  }
}
