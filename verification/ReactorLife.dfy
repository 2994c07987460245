// The life of a connection, followed through: it can be opened, an event of it is handled, it can be closed from
// wherever the system stands, and what is to happen once in its life happens once.

module ReactorLife {
  import opened Reactor
  import opened ReactorProgress

  // ---------- Opening ----------

  /** A descriptor that no connection holds open can be accepted whenever the main loop is between handlers, for any
      loop. Three steps later the connection is open, in the map, in that loop's interest set, and in its connect
      callback. */
  lemma AcceptedIsOpened(s: State, fd: int, k: nat) returns (last: State)
    requires Reachable(s) && IsLoop(s, k) && s.loops[0].place == Dispatching
    requires forall c :: 0 <= c < |s.conns| ==> s.conns[c].destroyed || s.conns[c].fd != fd
    ensures Run(s, [Accept(fd, k), InsertConnection, Establish], last) && Reachable(last)
    ensures |last.conns| == |s.conns| + 1 && |last.loops| == |s.loops|
    ensures var c := |s.conns|;
      && last.conns[c].fd == fd && last.conns[c].loop == k && last.conns[c].status == Connected
      && last.connections == s.connections[fd := c]
      && last.loops[k].interest == s.loops[k].interest + {c} && last.loops[0].place == Handling(c)
      && forall b :: 0 <= b < c ==> last.conns[b] == s.conns[b]
  {
    ReachableInv(s);
    hide Inv, Reachable;
    assert Enabled(s, Accept(fd, k));
    var s1 := Next(s, Accept(fd, k));
    ReachableStep(s, Accept(fd, k));
    var s2 := Next(s1, InsertConnection);
    ReachableStep(s1, InsertConnection);
    last := Next(s2, Establish);
    ReachableStep(s2, Establish);
    RunOfThree(s, Accept(fd, k), InsertConnection, Establish);
  }

  lemma RunOfThree(s: State, a: Action, b: Action, c: Action)
    requires Enabled(s, a) && Enabled(Next(s, a), b) && Enabled(Next(Next(s, a), b), c)
    ensures Run(s, [a, b, c], Next(Next(Next(s, a), b), c))
  {
    hide Enabled, Next;
    var s3 := Next(Next(Next(s, a), b), c);
    assert [c][1..] == [] && Run(s3, [], s3);
    assert Run(Next(Next(s, a), b), [c], s3);
    assert [b, c][1..] == [c] && Run(Next(s, a), [b, c], s3);
    assert [a, b, c][1..] == [b, c];
  }

  // ---------- Events ----------

  /** What Poll reports is handled one by one, in the order of the report, as long as the connection has begun to
      read. */
  lemma EventIsHandled(s: State, k: nat)
    requires Reachable(s) && Enabled(s, Dispatch(k, true)) && s.conns[s.loops[k].ready[0]].status != Unset
    ensures var c, l := s.loops[k].ready[0], Next(s, Dispatch(k, true)).loops[k];
      l.place == Handling(c) && l.ready == s.loops[k].ready[1..]
  {
    ReachableInv(s);
    assert ConnOk(s.conns[s.loops[k].ready[0]]);
    hide Inv, Stands;
  }

  /** Poll can report whatever channels of the loop are registered, and its report is the ready list. */
  lemma EventIsReported(s: State, k: nat, ready: seq<nat>)
    requires Reachable(s) && IsLoop(s, k) && s.loops[k].place == Polling
    requires forall c :: c in ready ==> c < |s.conns| && s.conns[c].inEpoll && k == s.conns[c].loop
    ensures Enabled(s, Poll(k, ready)) && Next(s, Poll(k, ready)).loops[k].ready == ready
    ensures Next(s, Poll(k, ready)).loops[k].place == Dispatching && Next(s, Poll(k, ready)).conns == s.conns
  {
    ChannelsAreSound(s);
    hide Reachable;
    assert forall i :: 0 <= i < |ready| ==> ready[i] in ready;
  }

  /** No event is lost on the way: a ready list is what Poll reported, and loses its first when that is dispatched. */
  lemma EventsAreKept(s: State, a: Action, k: nat)
    requires Enabled(s, a) && IsLoop(s, k)
    ensures Next(s, a).loops[k].ready ==
      if a.Poll? && a.at == k then a.ready
      else if a.Dispatch? && a.at == k then s.loops[k].ready[1..]
      else s.loops[k].ready
  {}

  /** Nor is a task: the swapped-out ones are the queue at the swap, and lose their first when that is run; the queue
      only grows, at its end, until the swap. */
  lemma TasksAreKept(s: State, a: Action, k: nat)
    requires Enabled(s, a) && IsLoop(s, k)
    ensures var l, l' := s.loops[k], Next(s, a).loops[k];
      if a.StartDrain? && a.at == k then l'.batch == l.todo && l'.todo == []
      else l.todo <= l'.todo && l'.batch == if a.RunTask? && a.at == k then l.batch[1..] else l.batch
  {}

  /** A handler can close its connection, whichever loop it runs on. */
  lemma HandlerCanClose(s: State, k: nat, c: nat)
    requires Reachable(s) && IsLoop(s, k) && s.loops[k].place == Handling(c)
    ensures Enabled(s, TryClose(k)) && c < |s.conns| && Next(s, TryClose(k)).conns[c].status == Disconnected
    ensures s.conns[c].status == Connected ==> Next(s, TryClose(k)).loops[k].place == ClosingOff(c)
  {
    ReachableInv(s);
    assert LoopFits(s.conns, s.loops[k], k);
  }

  /** The client of an open connection sends something or hangs up, and the handler closes the connection. */
  lemma EventCanClose(s: State, k: nat, c: nat)
    requires Reachable(s) && Enabled(s, Dispatch(k, true)) && s.loops[k].ready[0] == c
    requires s.conns[c].status == Connected
    ensures var s1 := Next(s, Dispatch(k, true));
      Enabled(s1, TryClose(k)) && Next(s1, TryClose(k)).conns[c].status == Disconnected
  {
    EventIsHandled(s, k);
    ReachableStep(s, Dispatch(k, true));
    var s1 := Next(s, Dispatch(k, true));
    hide Reachable;
    HandlerCanClose(s1, k, c);
  }

  /** A timer of the main loop that still finds the connection can close it too. */
  lemma TimerCanClose(s: State, c: nat)
    requires Reachable(s) && Enabled(s, TimerHandler(c)) && s.conns[c].status == Connected
    ensures var s1 := Next(s, TimerHandler(c));
      Enabled(s1, TryClose(0)) && Next(s1, TryClose(0)).conns[c].status == Disconnected
  {
    ReachableInv(s);
    assert ConnOk(s.conns[c]);
    ReachableStep(s, TimerHandler(c));
    var s1 := Next(s, TimerHandler(c));
    hide Inv, Stands, Reachable, Referenced;
    HandlerCanClose(s1, 0, c);
  }

  /** An open connection is referenced, so its timer does find it. */
  lemma TimerFindsOpen(s: State, c: nat)
    requires Reachable(s) && c < |s.conns| && !s.conns[c].destroyed && s.conns[c].status == Connected
    requires IsLoop(s, 0) && s.loops[0].place == Dispatching
    ensures Enabled(s, TimerHandler(c))
  {
    ReachableInv(s);
    assert ConnOk(s.conns[c]);
    if !Referenced(s, c) {
      UnreferencedWasRemoved(s, c);
    }
  }

  // ---------- Closing, from anywhere ----------

  /** A closed connection stays closed, and keeps its descriptor. */
  lemma StepKeepsClosed(s: State, a: Action, c: nat)
    requires Enabled(s, a) && c < |s.conns| && s.conns[c].status == Disconnected
    requires a == Establish ==> s.loops[0].place.conn != c
    ensures var s' := Next(s, a);
      c < |s'.conns| && s'.conns[c].status == Disconnected && s'.conns[c].fd == s.conns[c].fd
  {}

  lemma EstablishedIsNotClosed(s: State, c: nat)
    requires Inv(s) && Enabled(s, Establish) && c < |s.conns| && s.conns[c].status == Disconnected
    ensures s.loops[0].place.conn != c
  {
    assert LoopFits(s.conns, s.loops[0], 0);
  }

  lemma {:induction false} RunKeepsClosed(s: State, actions: seq<Action>, last: State, c: nat)
    requires Inv(s) && Run(s, actions, last) && c < |s.conns| && s.conns[c].status == Disconnected
    ensures c < |last.conns| && last.conns[c].status == Disconnected && last.conns[c].fd == s.conns[c].fd
    decreases |actions|
  {
    if actions != [] {
      if actions[0] == Establish { EstablishedIsNotClosed(s, c); }
      StepKeepsClosed(s, actions[0], c);
      StepKeeps(s, actions[0]);
      hide Inv, Next, Enabled;
      RunKeepsClosed(Next(s, actions[0]), actions[1..], last, c);
    }
  }

  lemma {:induction false} WindingIsRun(s: State, actions: seq<Action>, last: State)
    requires WindingRun(s, actions, last)
    ensures Run(s, actions, last)
    decreases |actions|
  {
    hide Next, Enabled, Winds;
    if actions != [] {
      WindingIsRun(Next(s, actions[0]), actions[1..], last);
    }
  }

  lemma {:induction false} RunsJoin(s: State, actions: seq<Action>, mid: State, more: seq<Action>, last: State)
    requires Run(s, actions, mid) && Run(mid, more, last)
    ensures Run(s, actions + more, last)
    decreases |actions|
  {
    hide Next, Enabled;
    if actions == [] {
      assert actions + more == more;
    } else {
      RunsJoin(Next(s, actions[0]), actions[1..], mid, more, last);
      assert (actions + more)[0] == actions[0] && (actions + more)[1..] == actions[1..] + more;
    }
  }

  /** At rest an open connection can be closed, by an event on its own loop. */
  lemma CloseAtRest(s: State, c: nat) returns (actions: seq<Action>, last: State)
    requires Reachable(s) && AtRest(s) && c < |s.conns| && !s.conns[c].destroyed
    ensures Run(s, actions, last) && Reachable(last)
    ensures c < |last.conns| && last.conns[c].status == Disconnected && last.conns[c].fd == s.conns[c].fd
  {
    RestIsClean(s, c);
    ChannelsAreSound(s);
    var k := s.conns[c].loop;
    hide Reachable, Inv;
    EventIsReported(s, k, [c]);
    ReachableStep(s, Poll(k, [c]));
    var s1 := Next(s, Poll(k, [c]));
    EventCanClose(s1, k, c);
    ReachableStep(s1, Dispatch(k, true));
    var s2 := Next(s1, Dispatch(k, true));
    ReachableStep(s2, TryClose(k));
    actions, last := [Poll(k, [c]), Dispatch(k, true), TryClose(k)], Next(s2, TryClose(k));
    RunOfThree(s, Poll(k, [c]), Dispatch(k, true), TryClose(k));
  }

  lemma ComesToRest(s: State) returns (actions: seq<Action>, last: State)
    requires Reachable(s)
    ensures Run(s, actions, last) && AtRest(last) && Reachable(last)
  {
    actions, last := WindsDown(s);
    WindingIsRun(s, actions, last);
  }

  /** A connection closed by anyone is destroyed on some way to rest. */
  lemma ClosedIsDestroyed(s: State, c: nat) returns (actions: seq<Action>, last: State)
    requires Reachable(s) && c < |s.conns| && s.conns[c].status == Disconnected
    ensures Run(s, actions, last) && Reachable(last)
    ensures c < |last.conns| && last.conns[c].destroyed && last.conns[c].fd == s.conns[c].fd
  {
    ReachableInv(s);
    hide Reachable, Inv, AtRest;
    actions, last := ComesToRest(s);
    RunKeepsClosed(s, actions, last, c);
    RestIsClean(last, c);
  }

  /** Wherever the system stands, each connection can be brought to its end: destroyed, out of the map, and its
      descriptor free to be accepted again. */
  lemma EveryConnectionCanEnd(s: State, c: nat) returns (actions: seq<Action>, last: State)
    requires Reachable(s) && c < |s.conns|
    ensures Run(s, actions, last) && Reachable(last) && c < |last.conns| && last.conns[c].destroyed
    ensures forall fd :: fd in last.connections ==> last.connections[fd] != c
  {
    hide Reachable, Inv, AtRest;
    actions, last := ComesToRest(s);
    RunKeepsConns(s, actions, last);
    if !last.conns[c].destroyed {
      var close, closed := CloseAtRest(last, c);
      var finish, end := ClosedIsDestroyed(closed, c);
      RunsJoin(s, actions, last, close, closed);
      RunsJoin(s, actions + close, closed, finish, end);
      actions, last := actions + close + finish, end;
    }
    MapIsSound(last);
  }

  lemma {:induction false} RunKeepsConns(s: State, actions: seq<Action>, last: State)
    requires Run(s, actions, last)
    ensures |last.conns| >= |s.conns|
    decreases |actions|
  {
    if actions != [] {
      assert |Next(s, actions[0]).conns| >= |s.conns|;
      hide Next, Enabled;
      RunKeepsConns(Next(s, actions[0]), actions[1..], last);
    }
  }

  // ---------- Once in a life ----------

  datatype Milestone = Erasure | Removal | Destruction

  /** The step does this to the connection: HandleCloseInLoop runs for it, called directly or as a task;
      ConnectionDestructor runs for it; its destructor runs. */
  predicate Reaches(s: State, a: Action, c: nat, m: Milestone)
    requires Enabled(s, a)
  {
    match m
    case Erasure =>
      (a == TellServer(0) && s.loops[0].place.conn == c) || (a.RunTask? && s.loops[a.at].batch[0] == CloseInLoop(c))
    case Removal => a.RunTask? && s.loops[a.at].batch[0] == Destructor(c)
    case Destruction => a == Destroy(c)
  }

  ghost function Times(s: State, actions: seq<Action>, last: State, c: nat, m: Milestone): nat
    requires Run(s, actions, last)
    decreases |actions|
  {
    if actions == [] then 0
    else (if Reaches(s, actions[0], c, m) then 1 else 0) + Times(Next(s, actions[0]), actions[1..], last, c, m)
  }

  /** The map entry is gone; the channel is out of its interest set; the object is destroyed. */
  predicate Behind(s: State, c: nat, m: Milestone) {
    c < |s.conns| &&
    match m
    case Erasure => s.conns[c].phase in {Unmapped, RemovalQueued, Removed, Gone}
    case Removal => !s.conns[c].inEpoll
    case Destruction => s.conns[c].destroyed
  }

  lemma TellReaches(s: State, a: Action, c: nat, m: Milestone)
    requires Inv(s) && Enabled(s, a) && a.TellServer?
    ensures Behind(Next(s, a), c, m) <==> Behind(s, c, m) || Reaches(s, a, c, m)
    ensures Reaches(s, a, c, m) ==> !Behind(s, c, m)
  {
    assert LoopFits(s.conns, s.loops[a.at], a.at) && ConnOk(s.conns[s.loops[a.at].place.conn]);
    hide Inv, Stands, TasksFit, ChannelsFit;
  }

  lemma TaskReaches(s: State, a: Action, c: nat, m: Milestone)
    requires Inv(s) && Enabled(s, a) && a.RunTask?
    ensures Behind(Next(s, a), c, m) <==> Behind(s, c, m) || Reaches(s, a, c, m)
    ensures Reaches(s, a, c, m) ==> !Behind(s, c, m)
  {
    var l := s.loops[a.at];
    assert LoopFits(s.conns, l, a.at) && Waits(l, l.batch[0]);
    assert TaskFits(s.conns, a.at, l.batch[0]) && ConnOk(s.conns[l.batch[0].conn]);
    hide Inv, Stands, LoopFits, TasksFit, ChannelsFit, PlaceFits;
  }

  lemma DestroyReaches(s: State, a: Action, c: nat, m: Milestone)
    requires Inv(s) && Enabled(s, a) && a.Destroy?
    ensures Behind(Next(s, a), c, m) <==> Behind(s, c, m) || Reaches(s, a, c, m)
    ensures Reaches(s, a, c, m) ==> !Behind(s, c, m)
  {
    UnreferencedWasRemoved(s, a.conn);
    assert ConnOk(s.conns[a.conn]);
    hide Inv, Stands, Referenced;
  }

  /** The steps of a connection on its way up. */
  lemma OpeningReaches(s: State, a: Action, c: nat, m: Milestone)
    requires Inv(s) && Enabled(s, a) && (a.Accept? || a.InsertConnection? || a.Establish?)
    ensures Behind(Next(s, a), c, m) <==> Behind(s, c, m) || Reaches(s, a, c, m)
    ensures Reaches(s, a, c, m) ==> !Behind(s, c, m)
  {
    assert LoopFits(s.conns, s.loops[0], 0);
    assert Names(s.loops[0].place) ==> ConnOk(s.conns[s.loops[0].place.conn]);
    hide Inv, Stands, TasksFit, ChannelsFit;
  }

  lemma ClosingReaches(s: State, a: Action, c: nat, m: Milestone)
    requires Inv(s) && Enabled(s, a) && (a.TryClose? || a.QueueRemoval?)
    ensures Behind(Next(s, a), c, m) <==> Behind(s, c, m) || Reaches(s, a, c, m)
    ensures Reaches(s, a, c, m) ==> !Behind(s, c, m)
  {
    var k := if a.TryClose? then a.at else 0;
    assert LoopFits(s.conns, s.loops[k], k) && ConnOk(s.conns[s.loops[k].place.conn]);
    hide Inv, Stands, TasksFit, ChannelsFit;
  }

  lemma StepReaches(s: State, a: Action, c: nat, m: Milestone)
    requires Inv(s) && Enabled(s, a)
    ensures Behind(Next(s, a), c, m) <==> Behind(s, c, m) || Reaches(s, a, c, m)
    ensures Reaches(s, a, c, m) ==> !Behind(s, c, m)
  {
    hide Inv;
    if a.TellServer? { TellReaches(s, a, c, m); }
    else if a.RunTask? { TaskReaches(s, a, c, m); }
    else if a.Destroy? { DestroyReaches(s, a, c, m); }
    else if a.Accept? || a.InsertConnection? || a.Establish? { OpeningReaches(s, a, c, m); }
    else if a.TryClose? || a.QueueRemoval? { ClosingReaches(s, a, c, m); }
  }

  /** Over any run, HandleCloseInLoop, ConnectionDestructor and the destructor each run for a connection once if they
      are behind it at the end, and otherwise never. */
  lemma {:induction false} OnceInALife(s: State, actions: seq<Action>, last: State, c: nat, m: Milestone)
    requires Inv(s) && Run(s, actions, last)
    ensures Times(s, actions, last, c, m) == if Behind(last, c, m) && !Behind(s, c, m) then 1 else 0
    ensures Behind(s, c, m) ==> Behind(last, c, m)
    decreases |actions|
  {
    if actions != [] {
      StepReaches(s, actions[0], c, m);
      StepKeeps(s, actions[0]);
      hide Inv, Next, Enabled, Behind, Reaches;
      OnceInALife(Next(s, actions[0]), actions[1..], last, c, m);
    }
  }
}
