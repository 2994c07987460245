// The reactor winds down. With no new connections, no new events and no timers, each step that is left brings the
// system nearer to rest, some such step is possible until it rests, and then every connection is either open and
// registered everywhere or destroyed.

module ReactorProgress {
  import opened Reactor

  /** The steps that only finish what has begun: a wake-up for waiting tasks but no ready connection, and no vain
      test of a status. */
  predicate Winds(s: State, a: Action)
    requires Enabled(s, a)
  {
    match a
    case Accept(_, _) => false
    case TimerHandler(_) => false
    case Poll(k, ready) => ready == [] && s.loops[k].todo != []
    case TryClose(k) => s.conns[s.loops[k].place.conn].status != Disconnected
    case _ => true
  }

  /** Every loop waits at Poll with nothing queued, and nothing is left to destroy. */
  ghost predicate AtRest(s: State) {
    && (forall k :: 0 <= k < |s.loops| ==> s.loops[k].place == Polling && s.loops[k].todo == [])
    && (forall c :: 0 <= c < |s.conns| ==> s.conns[c].phase != Removed)
  }

  // ---------- The measure ----------

  /** How far a loop is from waiting at Poll with nothing queued. */
  function PlaceWeight(l: Loop): (w: nat)
    ensures w <= 6
  {
    var tasks := l.todo != [];
    match l.place
    case Polling => if tasks then 5 else 0
    case Draining => if tasks then 6 else 1
    case Dispatching => if tasks then 4 else 2
    case Handling(_) => if tasks then 5 else 3
    case Establishing(_) => if tasks then 6 else 4
    case _ => 6
  }

  function LoopWeight(l: Loop): nat { PlaceWeight(l) + 2 * |l.ready| }

  function LoopsWeight(loops: seq<Loop>): nat {
    if loops == [] then 0 else LoopWeight(loops[0]) + LoopsWeight(loops[1..])
  }

  function ConnWeight(conn: Conn): nat { 20 * (7 - Rank(conn.phase)) }

  function ConnsWeight(conns: seq<Conn>): nat {
    if conns == [] then 0 else ConnWeight(conns[0]) + ConnsWeight(conns[1..])
  }

  function Measure(s: State): nat { ConnsWeight(s.conns) + LoopsWeight(s.loops) }

  lemma {:induction false} LoopsWeightUpdate(loops: seq<Loop>, k: nat, l: Loop)
    requires k < |loops|
    ensures LoopsWeight(loops[k := l]) == LoopsWeight(loops) - LoopWeight(loops[k]) + LoopWeight(l)
    decreases k
  {
    var updated := loops[k := l];
    if k == 0 {
      assert updated[1..] == loops[1..];
    } else {
      LoopsWeightUpdate(loops[1..], k - 1, l);
      assert updated[1..] == loops[1..][k - 1 := l];
    }
  }

  lemma {:induction false} ConnsWeightUpdate(conns: seq<Conn>, c: nat, conn: Conn)
    requires c < |conns|
    ensures ConnsWeight(conns[c := conn]) == ConnsWeight(conns) - ConnWeight(conns[c]) + ConnWeight(conn)
    decreases c
  {
    var updated := conns[c := conn];
    if c == 0 {
      assert updated[1..] == conns[1..];
    } else {
      ConnsWeightUpdate(conns[1..], c - 1, conn);
      assert updated[1..] == conns[1..][c - 1 := conn];
    }
  }

  lemma LoopChanges(s: State, k: nat, l: Loop)
    requires IsLoop(s, k)
    ensures Measure(s.(loops := s.loops[k := l])) == Measure(s) - LoopWeight(s.loops[k]) + LoopWeight(l)
  {
    LoopsWeightUpdate(s.loops, k, l);
  }

  lemma ConnChanges(s: State, c: nat, conn: Conn)
    requires c < |s.conns|
    ensures Measure(SetConn(s, c, conn)) == Measure(s) - ConnWeight(s.conns[c]) + ConnWeight(conn)
  {
    ConnsWeightUpdate(s.conns, c, conn);
  }

  lemma PushAdds(s: State, k: nat, t: Task)
    requires IsLoop(s, k)
    ensures Measure(Push(s, k, t)) <= Measure(s) + 6
  {
    LoopChanges(s, k, s.loops[k].(todo := s.loops[k].todo + [t]));
  }

  lemma PlaceChanges(s: State, k: nat, p: Place)
    requires IsLoop(s, k)
    ensures var l := s.loops[k]; Measure(SetPlace(s, k, p)) == Measure(s) - PlaceWeight(l) + PlaceWeight(l.(place := p))
  {
    LoopChanges(s, k, s.loops[k].(place := p));
  }

  lemma UpdateChannelAddsNothing(s: State, c: nat)
    requires c < |s.conns| && IsLoop(s, s.conns[c].loop)
    ensures Measure(UpdateChannel(s, c)) == Measure(s)
    ensures forall k :: 0 <= k < |s.loops| ==>
      var l, l' := s.loops[k], UpdateChannel(s, c).loops[k]; l'.place == l.place && l'.todo == l.todo
  {
    var conn, k := s.conns[c], s.conns[c].loop;
    if !conn.inEpoll {
      var s1 := SetConn(s, c, conn.(inEpoll := true, adds := conn.adds + 1));
      ConnChanges(s, c, s1.conns[c]);
      LoopChanges(s1, k, s.loops[k].(interest := s.loops[k].interest + {c}));
    }
  }

  // ---------- Each step lowers it ----------

  lemma InsertLowers(s: State)
    requires Inv(s) && Enabled(s, InsertConnection)
    ensures Measure(Next(s, InsertConnection)) < Measure(s)
  {
    var c := s.loops[0].place.conn;
    assert LoopFits(s.conns, s.loops[0], 0);
    hide Inv, Stands, ConnOk, LoopsWeight, ConnsWeight;
    var s1 := SetConn(s, c, s.conns[c].(phase := Mapped));
    ConnChanges(s, c, s.conns[c].(phase := Mapped));
    PlaceChanges(s1.(connections := s.connections[s.conns[c].fd := c]), 0, Establishing(c));
  }

  lemma EstablishLowers(s: State)
    requires Enabled(s, Establish)
    ensures Measure(Next(s, Establish)) < Measure(s)
  {
    var c := s.loops[0].place.conn;
    hide LoopsWeight, ConnsWeight, UpdateChannel;
    var s1 := SetConn(s, c, s.conns[c].(status := Connected, reading := true));
    ConnChanges(s, c, s1.conns[c]);
    UpdateChannelAddsNothing(s1, c);
    PlaceChanges(UpdateChannel(s1, c), 0, Handling(c));
  }

  lemma TryCloseLowers(s: State, k: nat)
    requires Inv(s) && Enabled(s, TryClose(k)) && Winds(s, TryClose(k))
    ensures Measure(Next(s, TryClose(k))) < Measure(s)
  {
    var c := s.loops[k].place.conn;
    assert ConnOk(s.conns[c]);
    hide Inv, Stands, LoopsWeight, ConnsWeight;
    var conn := s.conns[c].(status := Disconnected, phase := Closing, closer := k);
    ConnChanges(s, c, conn);
    PlaceChanges(SetConn(s, c, conn), k, ClosingOff(c));
  }

  /** HandleCloseInLoop's first half, from wherever it is called. */
  lemma EraseLowers(s: State, c: nat, direct: bool)
    requires IsLoop(s, 0) && c < |s.conns| && Rank(s.conns[c].phase) < Rank(Unmapped)
    ensures Measure(EraseEntry(s, c, direct)) < Measure(s)
  {
    hide LoopsWeight, ConnsWeight;
    var conn := s.conns[c].(phase := Unmapped, closes := s.conns[c].closes + if direct then 1 else 0);
    ConnChanges(s, c, conn);
    PlaceChanges(SetConn(s, c, conn).(connections := s.connections - {s.conns[c].fd}), 0, Erased(c, direct));
  }

  lemma TellServerLowers(s: State, k: nat)
    requires Inv(s) && Enabled(s, TellServer(k))
    ensures Measure(Next(s, TellServer(k))) < Measure(s)
  {
    var c := s.loops[k].place.conn;
    assert LoopFits(s.conns, s.loops[k], k);
    hide Inv, Stands, ConnOk, LoopsWeight, ConnsWeight;
    if k == 0 {
      EraseLowers(s, c, true);
    } else {
      var s1 := SetConn(s, c, s.conns[c].(phase := CloseQueued, closes := s.conns[c].closes + 1));
      ConnChanges(s, c, s1.conns[c]);
      PushAdds(s1, 0, CloseInLoop(c));
      PlaceChanges(Push(s1, 0, CloseInLoop(c)), k, Handling(c));
    }
  }

  lemma QueueRemovalLowers(s: State)
    requires Inv(s) && Enabled(s, QueueRemoval)
    ensures Measure(Next(s, QueueRemoval)) < Measure(s)
  {
    var c, direct := s.loops[0].place.conn, s.loops[0].place.direct;
    assert LoopFits(s.conns, s.loops[0], 0);
    hide Inv, Stands, ConnOk, LoopsWeight, ConnsWeight;
    var s1 := SetConn(s, c, s.conns[c].(phase := RemovalQueued));
    ConnChanges(s, c, s1.conns[c]);
    PushAdds(s1, s.conns[c].loop, Destructor(c));
    PlaceChanges(Push(s1, s.conns[c].loop, Destructor(c)), 0, if direct then Handling(c) else Draining);
  }

  /** ConnectionDestructor. */
  lemma DeleteLowers(s: State, c: nat, k: nat)
    requires IsLoop(s, k) && c < |s.conns| && Rank(s.conns[c].phase) < Rank(Removed)
    ensures Measure(DeleteChannel(s, c, k)) < Measure(s)
  {
    hide LoopsWeight, ConnsWeight;
    var conn := s.conns[c].(inEpoll := false, deletes := s.conns[c].deletes + 1, phase := Removed);
    ConnChanges(s, c, conn);
    LoopChanges(SetConn(s, c, conn), k, s.loops[k].(interest := s.loops[k].interest - {c}));
  }

  lemma RunTaskLowers(s: State, k: nat)
    requires Inv(s) && Enabled(s, RunTask(k))
    ensures Measure(Next(s, RunTask(k))) < Measure(s)
  {
    var t, s0 := s.loops[k].batch[0], Popped(s, k);
    assert LoopFits(s.conns, s.loops[k], k) && Waits(s.loops[k], t);
    assert TaskFits(s.conns, k, t);
    hide Inv, Stands, ConnOk, LoopFits, LoopsWeight, ConnsWeight, EraseEntry, DeleteChannel;
    LoopChanges(s, k, s0.loops[k]);
    hide Measure;
    match t
    case CloseInLoop(c) => EraseLowers(s0, c, false);
    case Destructor(c) => DeleteLowers(s0, c, k);
  }

  lemma DestroyLowers(s: State, c: nat)
    requires Inv(s) && Enabled(s, Destroy(c))
    ensures Measure(Next(s, Destroy(c))) < Measure(s)
  {
    UnreferencedWasRemoved(s, c);
    hide Inv, ConnsWeight, LoopsWeight;
    ConnChanges(s, c, s.conns[c].(destroyed := true, phase := Gone));
  }

  /** Every step that winds down brings the system nearer to rest. */
  lemma WindingLowers(s: State, a: Action)
    requires Inv(s) && Enabled(s, a) && Winds(s, a)
    ensures Measure(Next(s, a)) < Measure(s)
  {
    hide Inv, LoopsWeight, ConnsWeight, Measure;
    match a
    case InsertConnection => InsertLowers(s);
    case Establish => EstablishLowers(s);
    case Poll(k, ready) => LoopChanges(s, k, Next(s, a).loops[k]);
    case Dispatch(k, _) => LoopChanges(s, k, Next(s, a).loops[k]);
    case TryClose(k) => TryCloseLowers(s, k);
    case TellServer(k) => TellServerLowers(s, k);
    case QueueRemoval => QueueRemovalLowers(s);
    case EndHandler(k) => LoopChanges(s, k, Next(s, a).loops[k]);
    case StartDrain(k) => LoopChanges(s, k, Next(s, a).loops[k]);
    case RunTask(k) => RunTaskLowers(s, k);
    case EndDrain(k) => LoopChanges(s, k, Next(s, a).loops[k]);
    case Destroy(c) => DestroyLowers(s, c);
  }

  // ---------- Some step is possible ----------

  /** What a loop that is not at rest can do next. */
  function NextOf(l: Loop, k: nat): Action {
    match l.place
    case Polling => Poll(k, [])
    case Dispatching => if l.ready == [] then StartDrain(k) else Dispatch(k, false)
    case Building(_) => InsertConnection
    case Establishing(_) => Establish
    case Handling(_) => EndHandler(k)
    case ClosingOff(_) => TellServer(k)
    case Erased(_, _) => QueueRemoval
    case Draining => if l.batch == [] then EndDrain(k) else RunTask(k)
  }

  lemma BusyLoopCanMove(s: State, k: nat)
    requires Inv(s) && IsLoop(s, k) && (s.loops[k].place != Polling || s.loops[k].todo != [])
    ensures Enabled(s, NextOf(s.loops[k], k)) && Winds(s, NextOf(s.loops[k], k))
  {
    var l := s.loops[k];
    assert LoopFits(s.conns, l, k);
    if l.place.Draining? && l.batch != [] {
      assert Waits(l, l.batch[0]);
      assert TaskFits(s.conns, k, l.batch[0]);
    }
    if l.place.Dispatching? && l.ready != [] {
      assert l.ready[0] in l.interest;
    }
    if Names(l.place) {
      assert Stands(s, l.place.conn);
    }
  }

  lemma RemovedCanBeDestroyed(s: State, c: nat)
    requires Reachable(s) && c < |s.conns| && s.conns[c].phase == Removed
    requires forall k :: 0 <= k < |s.loops| ==> s.loops[k].place == Polling && s.loops[k].todo == []
    ensures Enabled(s, Destroy(c))
  {
    ReachableInv(s);
    assert ConnOk(s.conns[c]);
    ClosesComplete(s, c);
  }

  /** Until it rests, the system has a step that winds down. */
  lemma SomeStepWinds(s: State) returns (a: Action)
    requires Reachable(s) && !AtRest(s)
    ensures Enabled(s, a) && Winds(s, a)
  {
    ReachableInv(s);
    hide Inv, Enabled, Reachable;
    if k :| 0 <= k < |s.loops| && (s.loops[k].place != Polling || s.loops[k].todo != []) {
      BusyLoopCanMove(s, k);
      a := NextOf(s.loops[k], k);
    } else {
      var c :| 0 <= c < |s.conns| && s.conns[c].phase == Removed;
      RemovedCanBeDestroyed(s, c);
      a := Destroy(c);
    }
  }

  // ---------- The whole way to rest ----------

  /** A run of winding steps only. */
  ghost predicate WindingRun(s: State, actions: seq<Action>, last: State)
    decreases |actions|
  {
    if actions == [] then last == s
    else Enabled(s, actions[0]) && Winds(s, actions[0]) && WindingRun(Next(s, actions[0]), actions[1..], last)
  }

  /** No run of winding steps is longer than the measure, whatever order the loops take. */
  lemma {:induction false} WindingRunsAreShort(s: State, actions: seq<Action>, last: State)
    requires Inv(s) && WindingRun(s, actions, last)
    ensures |actions| + Measure(last) <= Measure(s)
    decreases |actions|
  {
    hide Inv, Measure;
    if actions != [] {
      StepKeeps(s, actions[0]);
      WindingLowers(s, actions[0]);
      WindingRunsAreShort(Next(s, actions[0]), actions[1..], last);
    }
  }

  /** From any reachable state, winding steps lead to rest. */
  lemma {:induction false} WindsDown(s: State) returns (actions: seq<Action>, last: State)
    requires Reachable(s)
    ensures WindingRun(s, actions, last) && AtRest(last) && Reachable(last)
    decreases Measure(s)
  {
    hide Inv, Measure, Reachable, AtRest;
    actions, last := [], s;
    if !AtRest(s) {
      var a := SomeStepWinds(s);
      ReachableInv(s);
      WindingLowers(s, a);
      ReachableStep(s, a);
      actions, last := WindsDown(Next(s, a));
      assert ([a] + actions)[1..] == actions;
      actions := [a] + actions;
    }
  }

  /** At rest every connection is open, in the map and in its interest set, or destroyed. */
  lemma RestIsClean(s: State, c: nat)
    requires Reachable(s) && AtRest(s) && c < |s.conns|
    ensures if s.conns[c].status == Connected then InMap(s, c) && s.conns[c].inEpoll && !s.conns[c].destroyed
            else s.conns[c].destroyed
  {
    ClosesComplete(s, c);
    ReachableInv(s);
    assert ConnOk(s.conns[c]);
    if !s.conns[c].destroyed && s.conns[c].status != Connected {
      UnreferencedWasRemoved(s, c);
    }
  }
}
