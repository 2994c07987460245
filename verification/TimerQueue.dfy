// TimerQueue: an ordered set of (expiration, timer) beside the timers themselves, one timerfd armed for the
// earliest of them, and the pass that runs and re-inserts or deletes the timers that are due.

module TimerQueues {
  import opened Basics

  const SECOND := 1_000_000           // kMicrosecond2Second
  const LAST: nat := 0xFFFF_FFFF_FFFF_FFFF  // UINTPTR_MAX, no timer's address

  type Address = a: nat | a < LAST witness 0

  /** A Timer object; `expiration` is in microseconds. The serial number, which no step reads, tells it from
      timers that had its address before. */
  datatype Timer = Timer(expiration: int, interval: real, repeats: bool, serial: nat)

  /** The ordered set's element. */
  datatype Entry = Entry(when: int, at: Address)

  datatype Arming = Disarmed | Armed(deadline: int, readAt: int, setAt: int)

  /** A callback's run: which timer, whether it is a one-shot, and the clock by then. */
  datatype Run = Run(entry: Entry, serial: nat, once: bool, time: int)

  /** A wish for a timer; `at` is the address that `new` would choose for it. */
  datatype Request = Request(when: int, interval: real, at: Address)

  type Heap = map<Address, Timer>

  datatype Call = Pause(span: nat) | Add(requests: seq<Request>) | Fire(between: seq<Request>)

  /** The conversion of a double to an integer drops the fraction. */
  function Truncated(x: real): int { if x < 0.0 then -((-x).Floor) else x.Floor }

  /** TimeStamp::AddTime. */
  function AddTime(time: int, seconds: real): int { time + Truncated(seconds) * SECOND }

  function NewTimer(when: int, interval: real, serial: nat): Timer { Timer(when, interval, interval > 0.0, serial) }

  function ReStarted(timer: Timer, now: int): Timer { timer.(expiration := AddTime(now, timer.interval)) }

  /** AddTime exactly: whole seconds are added, and a fraction is dropped toward zero for either sign. */
  lemma AddTimeIsExact(time: int, seconds: real)
    ensures seconds >= 0.0 ==> AddTime(time, seconds) == time + seconds.Floor * 1_000_000
    ensures seconds < 0.0 ==> AddTime(time, seconds) == time - (0.0 - seconds).Floor * 1_000_000
  {}

  /** A repeating timer is due again a whole number of seconds after its restart, and otherwise stays as it was. */
  lemma RestartIsExact(timer: Timer, now: int)
    ensures timer.interval > 0.0 ==>
      ReStarted(timer, now) == timer.(expiration := now + timer.interval.Floor * 1_000_000)
  {}

  /** A repeating timer is put off, instead of being due again at once, exactly when its interval reaches a
      whole second. */
  lemma RestartIsLaterExactlyWhen(timer: Timer, now: int)
    requires timer.repeats == (timer.interval > 0.0) && timer.repeats
    ensures ReStarted(timer, now).expiration > now <==> timer.interval >= 1.0
  {}

  /** At half a second it is due again at the very instant of the restart. */
  lemma HalfSecondIsDueAtOnce(now: int, serial: nat)
    ensures var timer := NewTimer(now, 0.5, serial);
      timer.repeats && ReStarted(timer, now).expiration == now
  {}

  /** A delay is honoured in full exactly when it is negative or has no fraction of a second to lose. */
  lemma DelayIsFullExactlyWhen(now: int, wait: real)
    ensures AddTime(now, wait) as real >= now as real + wait * (SECOND as real)
       <==> wait < 0.0 || wait == wait.Floor as real
  {
    var whole := Truncated(wait) as real;
    assert (Truncated(wait) * SECOND) as real == whole * (SECOND as real);
    assert wait * (SECOND as real) - whole * (SECOND as real) == (wait - whole) * (SECOND as real);
    assert wait - whole > 0.0 <==> !(wait < 0.0 || wait == wait.Floor as real);
  }

  predicate Less(e: Entry, f: Entry) { e.when < f.when || (e.when == f.when && e.at < f.at) }

  ghost predicate Sorted(ts: seq<Entry>) { forall i, j :: 0 <= i < j < |ts| ==> Less(ts[i], ts[j]) }

  /** std::set::emplace. */
  function Place(ts: seq<Entry>, e: Entry): seq<Entry> {
    if ts == [] || Less(e, ts[0]) then [e] + ts
    else if e == ts[0] then ts
    else [ts[0]] + Place(ts[1..], e)
  }

  lemma {:induction false} PlaceIsSetInsertion(ts: seq<Entry>, e: Entry)
    requires Sorted(ts)
    ensures Sorted(Place(ts, e)) && forall x :: x in Place(ts, e) <==> x in ts || x == e
    ensures Place(ts, e)[0] == if ts == [] || Less(e, ts[0]) then e else ts[0]
    ensures |Place(ts, e)| >= |ts|
  {
    if ts != [] && !Less(e, ts[0]) && e != ts[0] {
      var rest := Place(ts[1..], e);
      PlaceIsSetInsertion(ts[1..], e);
      assert ts == [ts[0]] + ts[1..];
      assert forall x :: x in rest ==> Less(ts[0], x);
    } else {
      assert forall x :: x in ts ==> Less(e, x) || x == ts[0] || Less(ts[0], x);
    }
  }

  /** std::set::lower_bound of (now, UINTPTR_MAX): how many entries come before it. */
  function DueCount(ts: seq<Entry>, now: int): (k: nat)
    ensures k <= |ts| && (forall i :: 0 <= i < k ==> ts[i].when <= now) && (k < |ts| ==> ts[k].when > now)
  {
    if ts == [] || !(ts[0].when < now || (ts[0].when == now && ts[0].at < LAST)) then 0
    else 1 + DueCount(ts[1..], now)
  }

  lemma DueIsExact(ts: seq<Entry>, now: int)
    requires Sorted(ts)
    ensures var k := DueCount(ts, now);
      (forall e :: e in ts[..k] ==> e.when <= now) && (forall e :: e in ts[k..] ==> e.when > now)
  {}

  function Key(heap: Heap, a: Address): Entry
    requires a in heap
  {
    Entry(heap[a].expiration, a)
  }

  /** Each entry's key is its timer's own expiration, and no address stands twice. */
  ghost predicate Keyed(heap: Heap, ts: seq<Entry>) {
    Sorted(ts) && forall e :: e in ts ==> e.at in heap && e == Key(heap, e.at)
  }

  /** The live timers are those stored and, apart from them, those of the batch still to be dealt with. */
  ghost predicate Holds(heap: Heap, timers: seq<Entry>, batch: seq<Entry>) {
    && Keyed(heap, timers) && Keyed(heap, batch)
    && (forall e :: e in batch ==> e !in timers)
    && (forall a :: a in heap ==> Key(heap, a) in timers || Key(heap, a) in batch)
    && (forall a :: a in heap ==> heap[a].repeats == (heap[a].interval > 0.0))
  }

  lemma AddKeeps(heap: Heap, timers: seq<Entry>, batch: seq<Entry>, a: Address, timer: Timer)
    requires Holds(heap, timers, batch) && a !in heap && timer.repeats == (timer.interval > 0.0)
    ensures Holds(heap[a := timer], Place(timers, Entry(timer.expiration, a)), batch)
  {
    PlaceIsSetInsertion(timers, Entry(timer.expiration, a));
  }

  /** Splitting the set at `now`. */
  lemma DueBatch(heap: Heap, timers: seq<Entry>, now: int, before: seq<Entry>, after: seq<Entry>)
    requires Holds(heap, timers, [])
    requires before == timers[..DueCount(timers, now)] && after == timers[DueCount(timers, now)..]
    ensures Holds(heap, after, before) && before + after == timers
    ensures (forall e :: e in before ==> e.when <= now) && (forall e :: e in after ==> e.when > now)
  {
    hide Holds;
    BatchIsKeyed(heap, timers, []);
    DueIsExact(timers, now);
    SplitKeeps(heap, timers, before, after);
  }

  lemma SplitKeeps(heap: Heap, timers: seq<Entry>, before: seq<Entry>, after: seq<Entry>)
    requires Holds(heap, timers, []) && timers == before + after
    ensures Holds(heap, after, before)
  {
    assert forall e :: e in timers <==> e in before || e in after;
    assert forall i :: 0 <= i < |before| ==> timers[i] == before[i];
    assert forall i :: 0 <= i < |after| ==> timers[|before| + i] == after[i];
  }

  lemma DeleteKeeps(heap: Heap, timers: seq<Entry>, batch: seq<Entry>)
    requires Holds(heap, timers, batch) && batch != []
    ensures Holds(heap - {batch[0].at}, timers, batch[1..])
  {
    var e, rest := batch[0], batch[1..];
    assert e in batch && forall f :: f in batch <==> f == e || f in rest;
    forall f | f in timers || f in rest ensures f.at != e.at && f.at in heap {
      assert f in rest ==> Less(e, f);
      assert f == Key(heap, f.at) && e == Key(heap, e.at);
    }
    assert Sorted(rest);
    assert Keyed(heap - {e.at}, timers) && Keyed(heap - {e.at}, rest);
  }

  lemma RestartKeeps(heap: Heap, timers: seq<Entry>, batch: seq<Entry>, now: int)
    requires Holds(heap, timers, batch) && batch != []
    ensures var timer := ReStarted(heap[batch[0].at], now);
      Holds(heap[batch[0].at := timer], Place(timers, Entry(timer.expiration, batch[0].at)), batch[1..])
  {
    var a := batch[0].at;
    var timer := ReStarted(heap[a], now);
    DeleteKeeps(heap, timers, batch);
    AddKeeps(heap - {a}, timers, batch[1..], a, timer);
    assert (heap - {a})[a := timer] == heap[a := timer];
  }

  /** No callback has ever run before its timer's expiration. */
  ghost predicate NoneEarly(ran: seq<Run>) { forall k :: 0 <= k < |ran| ==> ran[k].time >= ran[k].entry.when }

  lemma BatchIsNotEarly(ran: seq<Run>, ran': seq<Run>, batch: seq<Entry>, now: int)
    requires NoneEarly(ran) && (forall e :: e in batch ==> e.when <= now)
    requires |ran'| == |ran| + |batch| && ran'[..|ran|] == ran
    requires forall k :: |ran| <= k < |ran'| ==> ran'[k].entry == batch[k - |ran|] && ran'[k].time >= now
    ensures NoneEarly(ran')
  {
    forall k | 0 <= k < |ran'| ensures ran'[k].time >= ran'[k].entry.when {
      assert if k < |ran| then ran'[k] == ran'[..|ran|][k] else batch[k - |ran|] in batch;
    }
  }

  /** The timerfd is armed for an expiration at `when`. */
  ghost predicate ArmedFor(armed: Arming, when: int, clock: int) {
    && armed.Armed? && armed.readAt <= armed.setAt <= clock
    && armed.deadline == armed.setAt + Max(100, when - armed.readAt)
  }

  // ---------- Which timers have run ----------

  predicate Live(heap: Heap, serial: nat) { exists a :: a in heap && heap[a].serial == serial }

  predicate HasRun(ran: seq<Run>, serial: nat) { exists k :: 0 <= k < |ran| && ran[k].serial == serial }

  ghost predicate OnceAtMost(ran: seq<Run>) {
    forall k, l :: 0 <= k < l < |ran| && ran[k].serial == ran[l].serial ==> !ran[k].once
  }

  /** Of the `made` timers, each is live or has run; a one-shot has run at most once, and is no longer live then,
      unless it stands at one of the addresses in `done`, which are those that this pass has run and not yet
      settled. */
  ghost predicate Ledger(heap: Heap, made: nat, ran: seq<Run>, done: set<Address>) {
    && (forall a :: a in heap ==> heap[a].serial < made)
    && (forall a, b :: a in heap && b in heap && heap[a].serial == heap[b].serial ==> a == b)
    && (forall k :: 0 <= k < |ran| ==> ran[k].serial < made)
    && (forall k, a :: 0 <= k < |ran| && a in heap && ran[k].serial == heap[a].serial ==>
          ran[k].once == !heap[a].repeats && (ran[k].once ==> a in done))
    && OnceAtMost(ran)
    && (forall serial: nat :: serial < made ==> Live(heap, serial) || HasRun(ran, serial))
    && (forall a :: a in done ==> a in heap && HasRun(ran, heap[a].serial))
  }

  lemma LedgerAdds(heap: Heap, made: nat, ran: seq<Run>, done: set<Address>, a: Address, timer: Timer)
    requires Ledger(heap, made, ran, done) && a !in heap && timer.serial == made
    ensures Ledger(heap[a := timer], made + 1, ran, done)
  {
    var heap' := heap[a := timer];
    assert heap'[a].serial == made;
    forall serial: nat | serial < made ensures Live(heap', serial) || HasRun(ran, serial) {
      if Live(heap, serial) {
        var b :| b in heap && heap[b].serial == serial;
        assert heap'[b].serial == serial;
      }
    }
  }

  lemma LedgerRuns(heap: Heap, made: nat, ran: seq<Run>, done: set<Address>, a: Address, run: Run)
    requires Ledger(heap, made, ran, done) && a in heap && a !in done
    requires run.serial == heap[a].serial && run.once == !heap[a].repeats
    ensures Ledger(heap, made, ran + [run], done + {a})
  {
    var ran' := ran + [run];
    RunsMore(ran, run);
    hide HasRun, Live;
    forall k, l | 0 <= k < l < |ran'| && ran'[k].serial == ran'[l].serial ensures !ran'[k].once {
      assert ran'[k] == ran[k];
      assert l < |ran| ==> ran'[l] == ran[l];
    }
  }

  lemma RunsMore(ran: seq<Run>, run: Run)
    ensures forall serial: nat :: HasRun(ran, serial) ==> HasRun(ran + [run], serial)
    ensures HasRun(ran + [run], run.serial)
  {
    var ran' := ran + [run];
    assert ran'[|ran|] == run;
    forall serial: nat | HasRun(ran, serial) ensures HasRun(ran', serial) {
      var k :| 0 <= k < |ran| && ran[k].serial == serial;
      assert ran'[k].serial == serial;
    }
  }

  lemma LedgerRestarts(heap: Heap, made: nat, ran: seq<Run>, done: set<Address>, a: Address, timer: Timer)
    requires Ledger(heap, made, ran, done) && a in heap
    requires timer.serial == heap[a].serial && timer.repeats && heap[a].repeats
    ensures Ledger(heap[a := timer], made, ran, done - {a})
  {
    var heap' := heap[a := timer];
    assert forall b :: b in heap' ==> heap'[b].serial == heap[b].serial && heap'[b].repeats == heap[b].repeats;
    forall serial: nat | Live(heap, serial) ensures Live(heap', serial) {
      var b :| b in heap && heap[b].serial == serial;
      assert heap'[b].serial == serial;
    }
  }

  lemma LedgerDeletes(heap: Heap, made: nat, ran: seq<Run>, done: set<Address>, a: Address)
    requires Ledger(heap, made, ran, done) && a in done
    ensures Ledger(heap - {a}, made, ran, done - {a})
  {
    var heap' := heap - {a};
    forall serial: nat | serial < made ensures Live(heap', serial) || HasRun(ran, serial) {
      if Live(heap, serial) {
        var b :| b in heap && heap[b].serial == serial;
        assert b != a ==> heap'[b].serial == serial;
      }
    }
  }

  function Ats(batch: seq<Entry>): set<Address> { set e | e in batch :: e.at }

  lemma AtsEmpty(batch: seq<Entry>)
    requires batch == []
    ensures Ats(batch) == {}
  {}

  lemma AtsGrow(heap: Heap, batch: seq<Entry>, i: nat)
    requires Keyed(heap, batch) && i < |batch|
    ensures batch[i].at !in Ats(batch[..i]) && Ats(batch[..i + 1]) == Ats(batch[..i]) + {batch[i].at}
  {
    assert batch[..i + 1] == batch[..i] + [batch[i]];
    forall e | e in batch[..i] ensures e.at != batch[i].at {
      assert e in batch && batch[i] in batch;
    }
  }

  lemma AtsShrink(heap: Heap, batch: seq<Entry>)
    requires Keyed(heap, batch) && batch != []
    ensures batch[0].at in Ats(batch) && Ats(batch[1..]) == Ats(batch) - {batch[0].at}
  {
    assert batch == [batch[0]] + batch[1..];
    forall e | e in batch[1..] ensures e.at != batch[0].at && e in batch {
      assert batch[0] in batch && e in batch;
    }
    forall a | a in Ats(batch) - {batch[0].at} ensures a in Ats(batch[1..]) {
      var e :| e in batch && e.at == a;
      assert e in batch[1..];
    }
  }

  /** No timer is lost or changed. */
  ghost predicate Grown(heap: Heap, heap': Heap) { forall a :: a in heap ==> a in heap' && heap'[a] == heap[a] }

  lemma BatchIsKeyed(heap: Heap, timers: seq<Entry>, batch: seq<Entry>)
    requires Holds(heap, timers, batch)
    ensures Keyed(heap, batch) && Sorted(timers)
    ensures batch != [] ==> batch[0].at in heap && Entry(heap[batch[0].at].expiration, batch[0].at) == batch[0]
    ensures batch != [] ==> heap[batch[0].at].repeats == (heap[batch[0].at].interval > 0.0)
  {}

  lemma MemberIsKeyed(heap: Heap, timers: seq<Entry>, batch: seq<Entry>, i: nat)
    requires Holds(heap, timers, batch) && i < |batch|
    ensures batch[i].at in heap && Keyed(heap, batch)
  {
    assert batch[i] in batch;
  }

  lemma FirstIsLive(heap: Heap, timers: seq<Entry>)
    requires Holds(heap, timers, [])
    ensures timers == [] || timers[0].at in heap
  {
    assert timers == [] || timers[0] in timers;
  }

  lemma FirstIsKeyed(heap: Heap, timers: seq<Entry>, batch: seq<Entry>)
    requires Holds(heap, timers, batch) && timers != []
    ensures timers[0].at in heap && heap[timers[0].at].expiration == timers[0].when
  {
    assert timers[0] in timers;
  }

  lemma FrontIsEarliest(ts: seq<Entry>, when: int)
    requires Sorted(ts)
    ensures (forall e :: e in ts ==> when < e.when) <==> ts == [] || when < ts[0].when
  {
    assert forall e :: e in ts ==> ts[0].when <= e.when && ts[0] in ts;
  }

  lemma GrownIsOrder(heap: Heap)
    ensures Grown(heap, heap)
  {}

  lemma GrownIsTransitive(h0: Heap, h1: Heap, h2: Heap)
    requires Grown(h0, h1) && Grown(h1, h2)
    ensures Grown(h0, h2)
  {}

  lemma PlaceKeepsFirst(heap: Heap, timers: seq<Entry>, batch: seq<Entry>, e: Entry)
    requires Holds(heap, timers, batch)
    ensures Sorted(timers)
    ensures Place(timers, e)[0].when == if timers == [] || e.when < timers[0].when then e.when else timers[0].when
    ensures |Place(timers, e)| >= |timers|
  {
    PlaceIsSetInsertion(timers, e);
  }

  /** What wishes come to: each whose address is free makes a timer. */
  function Granted(heap: Heap, made: nat, requests: seq<Request>): (Heap, nat)
    decreases |requests|
  {
    if requests == [] then (heap, made)
    else
      var r := requests[0];
      if r.at in heap then Granted(heap, made, requests[1..])
      else Granted(heap[r.at := Timer(r.when, r.interval, r.interval > 0.0, made)], made + 1, requests[1..])
  }

  /** What the wishes of the next `n` callbacks come to. */
  function AfterCallbacks(heap: Heap, made: nat, wishes: seq<seq<Request>>, n: nat): (Heap, nat)
    decreases n
  {
    if n == 0 || wishes == [] then (heap, made)
    else
      var next := Granted(heap, made, wishes[0]);
      AfterCallbacks(next.0, next.1, wishes[1..], n - 1)
  }

  lemma GrantedNone(heap: Heap, made: nat, requests: seq<Request>)
    requires requests == []
    ensures Granted(heap, made, requests) == (heap, made)
  {}

  lemma GrantedStep(heap: Heap, made: nat, requests: seq<Request>, i: nat)
    requires i < |requests|
    ensures var r := requests[i];
      Granted(heap, made, requests[i..])
      == if r.at in heap then Granted(heap, made, requests[i + 1..])
         else Granted(heap[r.at := Timer(r.when, r.interval, r.interval > 0.0, made)], made + 1, requests[i + 1..])
  {
    assert requests[i..][0] == requests[i] && requests[i..][1..] == requests[i + 1..];
  }

  /** What is left, at the end of a pass, of a timer that was due: a one-shot is deleted, a repeating one is due
      again the whole seconds of its interval after a clock reading between `lo` and `hi`. */
  ghost predicate Finished(timer: Timer, a: Address, heap': Heap, lo: int, hi: int) {
    if timer.interval <= 0.0 then a !in heap'
    else
      && a in heap' && heap'[a] == timer.(expiration := heap'[a].expiration)
      && lo <= heap'[a].expiration - timer.interval.Floor * 1_000_000 <= hi
  }

  /** The timers in `batch` are finished with, and the other old ones untouched. */
  ghost predicate Dealt(heap: Heap, heap': Heap, batch: seq<Entry>, lo: int, hi: int) {
    forall a :: a in heap ==>
      if Key(heap, a) in batch then Finished(heap[a], a, heap', lo, hi) else a in heap' && heap'[a] == heap[a]
  }

  lemma NoneDealt(heap: Heap, now: int)
    ensures Dealt(heap, heap, [], now, now)
  {}

  lemma DealtHere(heap: Heap, mid: Heap, active: seq<Entry>, i: nat, lo: int, hi: int)
    requires Keyed(heap, active) && i < |active| && Dealt(heap, mid, active[..i], lo, hi)
    ensures active[i].at in mid && active[i].at in heap && mid[active[i].at] == heap[active[i].at]
  {
    assert active[i] in active && active[i] !in active[..i];
  }

  lemma DealtWider(heap: Heap, mid: Heap, heap': Heap, active: seq<Entry>, lo: int, lo': int, hi': int, hi: int)
    requires Grown(heap, mid) && Dealt(mid, heap', active, lo', hi') && lo <= lo' && hi' <= hi
    ensures Dealt(heap, heap', active, lo, hi)
  {
    forall a | a in heap
      ensures if Key(heap, a) in active then Finished(heap[a], a, heap', lo, hi)
              else a in heap' && heap'[a] == heap[a]
    {
      assert a in mid;
    }
  }

  lemma Cut(was: seq<Entry>, batch: seq<Entry>, rest: seq<Entry>, now: int)
    requires batch + rest == was
    requires (forall e :: e in batch ==> e.when <= now) && (forall e :: e in rest ==> e.when > now)
    ensures forall i :: 0 <= i < |was| ==> (i < |batch| <==> was[i].when <= now)
  {
    forall i | 0 <= i < |was| ensures i < |batch| <==> was[i].when <= now {
      assert if i < |batch| then was[i] in batch else was[i] == rest[i - |batch|];
    }
  }

  lemma DealtStep(heap: Heap, mid: Heap, heap': Heap, active: seq<Entry>, i: nat, lo: int, hi: int, t: int)
    requires Keyed(heap, active) && i < |active| && lo <= hi <= t
    requires Dealt(heap, mid, active[..i], lo, hi)
    requires active[i].at in mid && heap[active[i].at].repeats == (heap[active[i].at].interval > 0.0)
    requires heap' == if heap[active[i].at].repeats then mid[active[i].at := ReStarted(mid[active[i].at], t)]
                      else mid - {active[i].at}
    ensures Dealt(heap, heap', active[..i + 1], lo, t)
  {
    var e := active[i];
    assert active[..i + 1] == active[..i] + [e];
    assert e !in active[..i];
    assert mid[e.at] == heap[e.at];
    RestartIsExact(heap[e.at], t);
    forall a | a in heap && a != e.at
      ensures if Key(heap, a) in active[..i + 1] then Finished(heap[a], a, heap', lo, t)
              else a in heap' && heap'[a] == heap[a]
    {
      assert Key(heap, a) != e;
    }
  }

  class TimerQueue {
    var heap: Heap
    var timers: seq<Entry>
    var active: seq<Entry>
    /** The timerfd. */
    var armed: Arming
    /** Poll has reported the timerfd, and HandleRead is still to come. */
    var fired: bool
    /** The one clock, and how far it will move before each of its next readings; then it stands still. */
    var clock: int
    var ticks: seq<nat>
    /** What each of the next callbacks to run will ask for; then they ask for nothing. */
    var wishes: seq<seq<Request>>
    /** How many timers there have been. */
    var made: nat
    ghost var ran: seq<Run>
    /** What the clock read when the last pass chose its batch. */
    ghost var passAt: int
    /** The set was not empty when Poll reported the timerfd. */
    ghost var storedAtReport: bool

    /** Between calls: a set that is not empty has the timerfd armed for its first entry, and one that was not
        empty at the report has an entry that is due. */
    ghost predicate Valid()
      reads this
    {
      && Holds(heap, timers, []) && Ledger(heap, made, ran, {}) && NoneEarly(ran)
      && (timers != [] ==> ArmedFor(armed, timers[0].when, clock))
      && (storedAtReport ==> timers != [] && timers[0].when <= clock)
    }

    /** While a pass has run the timers at `done`, with `batch` still to be settled. */
    ghost predicate InPass(batch: seq<Entry>, done: set<Address>)
      reads this
    {
      Holds(heap, timers, batch) && Ledger(heap, made, ran, done)
    }

    /** The clock stands still and callbacks ask for nothing. */
    ghost predicate Still()
      reads this
    {
      ticks == [] && wishes == []
    }

    constructor (ticks: seq<nat>, wishes: seq<seq<Request>>)
      ensures Valid() && timers == [] && ran == [] && !fired && clock == 0 && made == 0 && heap == map[]
      ensures this.ticks == ticks && this.wishes == wishes
    {
      heap, timers, active, armed, fired, clock := map[], [], [], Disarmed, false, 0;
      this.ticks, this.wishes := ticks, wishes;
      made, ran, passAt, storedAtReport := 0, [], 0, false;
    }

    method Now() returns (t: int)
      modifies `clock, `ticks
      ensures t == clock == old(clock) + (if old(ticks) == [] then 0 else old(ticks)[0])
      ensures ticks == if old(ticks) == [] then [] else old(ticks)[1..]
    {
      if ticks != [] {
        clock, ticks := clock + ticks[0], ticks[1..];
      }
      t := clock;
    }

    /** Time passes. */
    method Wait(span: nat)
      requires Valid()
      modifies `clock
      ensures Valid() && clock == old(clock) + span
    {
      clock := clock + span;
    }

    /** Poll finds the timerfd readable. */
    method Report()
      requires Valid() && armed.Armed? && armed.deadline <= clock
      modifies `fired, `storedAtReport
      ensures Valid() && fired && storedAtReport == (timers != [])
    {
      fired, storedAtReport := true, timers != [];
    }

    /** The read takes the expiration; it fails when the timerfd has been armed anew and not yet gone off. */
    method ReadTimerFd() returns (ok: bool)
      modifies `clock, `ticks, `armed
      ensures clock >= old(clock) && (old(ticks) == [] ==> clock == old(clock) && ticks == [])
      ensures ok == (old(armed).Armed? && old(armed).deadline <= clock)
      ensures armed == if ok then Disarmed else old(armed)
    {
      var now := Now();
      ok := armed.Armed? && armed.deadline <= now;
      if ok {
        armed := Disarmed;
      }
    }

    /** Arms the timerfd, relative to a clock that may move between the reading and the call. */
    method ResetTimerFd(when: int)
      modifies `clock, `ticks, `armed
      ensures ArmedFor(armed, when, clock) && old(clock) <= armed.readAt
      ensures old(ticks) == [] ==> clock == old(clock) && ticks == []
    {
      var readAt := Now();
      var dif := when - readAt;
      if dif < 100 {
        dif := 100;
      }
      var setAt := Now();
      armed := Armed(setAt + dif, readAt, setAt);
    }

    method Insert(a: Address) returns (resetInstantly: bool)
      requires a in heap && Sorted(timers)
      modifies `timers
      ensures timers == Place(old(timers), Key(heap, a)) && |timers| >= |old(timers)|
      ensures resetInstantly <==> forall e :: e in old(timers) ==> Key(heap, a).when < e.when
    {
      resetInstantly := false;
      assert forall e :: e in timers ==> timers[0].when <= e.when && timers[0] in timers;
      if timers == [] || heap[a].expiration < timers[0].when {
        resetInstantly := true;
      }
      PlaceIsSetInsertion(timers, Key(heap, a));
      timers := Place(timers, Key(heap, a));
    }

    /** A new timer is stored, and the timerfd armed for it if it is now the earliest. */
    method AddTimer(request: Request, ghost batch: seq<Entry>, ghost done: set<Address>)
      requires InPass(batch, done) && request.at !in heap
      modifies `heap, `timers, `armed, `clock, `ticks, `made
      ensures InPass(batch, done) && (old(Valid()) ==> Valid())
      ensures heap == old(heap)[request.at := Timer(request.when, request.interval, request.interval > 0.0, old(made))]
      ensures timers == Place(old(timers), Entry(request.when, request.at)) && timers != []
      ensures |timers| >= |old(timers)| && made == old(made) + 1
      ensures if old(timers) == [] || request.when < old(timers)[0].when
              then ArmedFor(armed, request.when, clock) && old(clock) <= armed.readAt
              else armed == old(armed)
      ensures clock >= old(clock) && (old(ticks) == [] ==> clock == old(clock) && ticks == [])
    {
      hide Holds, Ledger;
      var timer := NewTimer(request.when, request.interval, made);
      AddKeeps(heap, timers, batch, request.at, timer);
      LedgerAdds(heap, made, ran, done, request.at, timer);
      PlaceKeepsFirst(heap, timers, batch, Entry(request.when, request.at));
      FrontIsEarliest(timers, request.when);
      heap := heap[request.at := timer];
      made := made + 1;
      ghost var valid := old(Valid());
      if valid {
        AddKeeps(old(heap), timers, [], request.at, timer);
        LedgerAdds(old(heap), old(made), ran, {}, request.at, timer);
      }
      var first := Insert(request.at);
      if first {
        ResetTimerFd(request.when);
      }
    }

    method AddTimers(requests: seq<Request>, ghost batch: seq<Entry>, ghost done: set<Address>)
      requires InPass(batch, done)
      modifies `heap, `timers, `armed, `clock, `ticks, `made
      ensures InPass(batch, done) && Grown(old(heap), heap) && (old(Valid()) ==> Valid())
      ensures |timers| >= |old(timers)| && (timers == [] ==> armed == old(armed))
      ensures clock >= old(clock) && (old(ticks) == [] ==> clock == old(clock) && ticks == [])
      ensures requests == [] ==> timers == old(timers) && armed == old(armed)
      ensures (heap, made) == Granted(old(heap), old(made), requests)
    {
      hide Holds, Ledger, Granted;
      assert requests[0..] == requests;
      for i := 0 to |requests|
        invariant InPass(batch, done) && Grown(old(heap), heap) && (old(Valid()) ==> Valid())
        invariant |timers| >= |old(timers)| && (timers == [] ==> armed == old(armed))
        invariant clock >= old(clock) && (old(ticks) == [] ==> clock == old(clock) && ticks == [])
        invariant i == 0 ==> timers == old(timers) && armed == old(armed)
        invariant Granted(heap, made, requests[i..]) == Granted(old(heap), old(made), requests)
      {
        GrantedStep(heap, made, requests, i);
        if requests[i].at !in heap {
          AddTimer(requests[i], batch, done);
        }
      }
      GrantedNone(heap, made, requests[|requests|..]);
    }

    /** A callback adds what timers it likes. */
    method Callback(ghost batch: seq<Entry>, ghost done: set<Address>)
      requires InPass(batch, done)
      modifies `heap, `timers, `armed, `clock, `ticks, `made, `wishes
      ensures InPass(batch, done) && Grown(old(heap), heap) && clock >= old(clock)
      ensures |timers| >= |old(timers)| && (timers == [] ==> armed == old(armed))
      ensures wishes == if old(wishes) == [] then [] else old(wishes)[1..]
      ensures (heap, made) == Granted(old(heap), old(made), if old(wishes) == [] then [] else old(wishes)[0])
      ensures old(Still()) ==> Still() && clock == old(clock) && heap == old(heap) && timers == old(timers)
    {
      hide Holds, Ledger, Grown, Granted;
      GrantedNone(heap, made, []);
      var requests := if wishes == [] then [] else wishes[0];
      wishes := if wishes == [] then [] else wishes[1..];
      AddTimers(requests, batch, done);
    }

    /** Takes the due timers out of the set. */
    method TakeDue()
      requires Holds(heap, timers, [])
      modifies `timers, `active, `clock, `ticks, `passAt
      ensures passAt == clock >= old(clock) && Holds(heap, timers, active)
      ensures old(ticks) == [] ==> clock == old(clock) && ticks == []
      ensures |active| <= |old(timers)| && active == old(timers)[..|active|]
      ensures forall i :: 0 <= i < |old(timers)| ==> (i < |active| <==> old(timers)[i].when <= passAt)
      ensures forall e :: e in active ==> e.when <= passAt
    {
      hide Holds;
      var now := Now();
      passAt := now;
      var end := DueCount(timers, now);
      ghost var was := timers;
      active := timers[..end];
      timers := timers[end..];
      DueBatch(heap, was, now, active, timers);
      Cut(was, active, timers, passAt);
    }

    /** Runs the batch in order; the callbacks may add timers. */
    method RunActive()
      requires InPass(active, {})
      modifies `heap, `timers, `armed, `clock, `ticks, `made, `wishes, `ran
      ensures InPass(active, Ats(active)) && Grown(old(heap), heap) && clock >= old(clock)
      ensures |timers| >= |old(timers)| && (timers == [] ==> armed == old(armed))
      ensures |ran| == |old(ran)| + |active| && ran[..|old(ran)|] == old(ran)
      ensures forall k :: |old(ran)| <= k < |ran| ==>
        ran[k].entry == active[k - |old(ran)|] && ran[k].time >= old(clock)
      ensures (heap, made) == AfterCallbacks(old(heap), old(made), old(wishes), |active|)
      ensures old(Still()) ==> Still() && clock == old(clock) && heap == old(heap) && timers == old(timers)
    {
      hide Holds, Ledger, Grown, Ats, Granted;
      GrownIsOrder(heap);
      AtsEmpty(active[..0]);
      for i := 0 to |active|
        invariant InPass(active, Ats(active[..i])) && Grown(old(heap), heap) && clock >= old(clock)
        invariant |timers| >= |old(timers)| && (timers == [] ==> armed == old(armed))
        invariant |ran| == |old(ran)| + i && ran[..|old(ran)|] == old(ran)
        invariant forall k :: |old(ran)| <= k < |ran| ==>
          ran[k].entry == active[k - |old(ran)|] && ran[k].time >= old(clock)
        invariant old(Still()) ==> Still() && clock == old(clock) && heap == old(heap) && timers == old(timers)
        invariant AfterCallbacks(heap, made, wishes, |active| - i)
               == AfterCallbacks(old(heap), old(made), old(wishes), |active|)
      {
        GrantedNone(heap, made, []);
        ghost var heap0, e := heap, active[i];
        MemberIsKeyed(heap, timers, active, i);
        AtsGrow(heap, active, i);
        ghost var run := Run(e, heap[e.at].serial, !heap[e.at].repeats, clock);
        LedgerRuns(heap, made, ran, Ats(active[..i]), e.at, run);
        ran := ran + [run];
        Callback(active, Ats(active[..i + 1]));
        GrownIsTransitive(old(heap), heap0, heap);
      }
      assert active[..|active|] == active;
    }

    /** Puts the repeating timers of the batch back, deletes the others, and arms the timerfd for the first. */
    method ResetTimers()
      requires InPass(active, Ats(active)) && NoneEarly(ran) && !storedAtReport
      modifies `heap, `timers, `armed, `clock, `ticks
      ensures Valid() && clock >= old(clock) && (old(ticks) == [] ==> clock == old(clock) && ticks == [])
      ensures Dealt(old(heap), heap, active, old(clock), clock) && heap.Keys <= old(heap).Keys
      ensures |timers| >= |old(timers)| && (timers == [] ==> armed == old(armed))
    {
      hide Holds, Dealt, Ledger, Ats, NoneEarly, Grown, Keyed;
      BatchIsKeyed(heap, timers, active);
      assert active[0..] == active;
      NoneDealt(heap, clock);
      for i := 0 to |active|
        invariant InPass(active[i..], Ats(active[i..])) && clock >= old(clock)
        invariant old(ticks) == [] ==> clock == old(clock) && ticks == []
        invariant Dealt(old(heap), heap, active[..i], old(clock), clock) && heap.Keys <= old(heap).Keys
        invariant armed == old(armed) && |timers| >= |old(timers)|
      {
        ghost var heap0, clock0 := heap, clock;
        var a := active[i].at;
        BatchIsKeyed(heap, timers, active[i..]);
        AtsShrink(heap, active[i..]);
        DealtHere(old(heap), heap, active, i, old(clock), clock);
        assert active[i..][0] == active[i] && active[i..][1..] == active[i + 1..];
        if heap[a].repeats {
          var now := Now();
          RestartKeeps(heap, timers, active[i..], now);
          LedgerRestarts(heap, made, ran, Ats(active[i..]), a, ReStarted(heap[a], now));
          heap := heap[a := ReStarted(heap[a], now)];
          var _ := Insert(a);
        } else {
          DeleteKeeps(heap, timers, active[i..]);
          LedgerDeletes(heap, made, ran, Ats(active[i..]), a);
          heap := heap - {a};
        }
        DealtStep(old(heap), heap0, heap, active, i, old(clock), clock0, clock);
      }
      assert active[|active|..] == [] && active[..|active|] == active;
      AtsEmpty(active[|active|..]);
      if timers != [] {
        FirstIsKeyed(heap, timers, []);
        ghost var done := clock;
        ResetTimerFd(heap[timers[0].at].expiration);
        GrownIsOrder(old(heap));
        DealtWider(old(heap), old(heap), heap, active, old(clock), old(clock), done, clock);
      }
    }

    /** After the report, and whatever was added since: runs exactly the timers that are due. There is at least
        one if the set was not empty at the report. */
    method HandleRead()
      requires Valid() && fired
      modifies this
      ensures Valid() && !fired && clock >= passAt >= old(clock)
      ensures |active| <= |old(timers)| && active == old(timers)[..|active|]
      ensures forall i :: 0 <= i < |old(timers)| ==> (i < |active| <==> old(timers)[i].when <= passAt)
      ensures old(storedAtReport) ==> active != []
      ensures |ran| == |old(ran)| + |active| && ran[..|old(ran)|] == old(ran)
      ensures forall k :: |old(ran)| <= k < |ran| ==> ran[k].entry == active[k - |old(ran)|]
      ensures Dealt(old(heap), heap, active, passAt, clock)
      ensures var added := AfterCallbacks(old(heap), old(made), old(wishes), |active|);
        made == added.1 && heap.Keys <= added.0.Keys && Dealt(added.0, heap, active, passAt, clock)
      ensures timers == [] ==> armed == old(armed) || armed.Disarmed?
      ensures timers == [] && old(armed).Armed? && armed.Disarmed? ==> old(armed).deadline <= clock
      ensures old(Still()) ==> Still() && clock == old(clock) && heap.Keys <= old(heap).Keys
    {
      hide Holds, Dealt, Grown, Ledger, Ats, Keyed, NoneEarly, AfterCallbacks;
      ghost var heap0 := heap;
      fired, storedAtReport := false, false;
      var _ := ReadTimerFd();
      TakeDue();
      RunActive();
      ghost var mid, from := heap, clock;
      BatchIsNotEarly(old(ran), ran, active, passAt);
      ResetTimers();
      DealtWider(heap0, mid, heap, active, passAt, from, clock, clock);
      GrownIsOrder(mid);
      DealtWider(mid, mid, heap, active, passAt, from, clock, clock);
    }

    /** The report, the timers that other handlers of the same ready list add, and HandleRead. Some timer runs if
        the set was not empty at the report; with nothing added in between, only then. */
    method Firing(between: seq<Request>)
      requires Valid() && armed.Armed? && armed.deadline <= clock
      modifies this
      ensures Valid() && !fired
      ensures old(timers) != [] ==> active != []
      ensures between == [] ==> (active != [] <==> old(timers) != [])
    {
      hide Holds, Dealt, Grown, Ledger;
      Report();
      AddTimers(between, [], {});
      HandleRead();
    }

    /** Any sequence of calls, firings and pauses: each timer ever added is live or has run, a one-shot that is
        live has not run, and no one-shot has run twice or early. */
    method Serve(calls: seq<Call>)
      requires Valid()
      modifies this
      ensures Valid() && NoneEarly(ran) && OnceAtMost(ran)
      ensures forall serial: nat :: serial < made ==> Live(heap, serial) || HasRun(ran, serial)
      ensures forall a :: a in heap && !heap[a].repeats ==> !HasRun(ran, heap[a].serial)
    {
      hide Holds, Dealt, Grown, Ledger;
      for i := 0 to |calls|
        invariant Valid()
      {
        match calls[i] {
          case Pause(span) => Wait(span);
          case Add(requests) => AddTimers(requests, [], {});
          case Fire(between) =>
            if armed.Armed? && armed.deadline <= clock {
              Firing(between);
            }
        }
      }
      OnceEach(heap, made, ran);
    }
  }

  lemma OnceEach(heap: Heap, made: nat, ran: seq<Run>)
    requires Ledger(heap, made, ran, {})
    ensures OnceAtMost(ran)
    ensures forall serial: nat :: serial < made ==> Live(heap, serial) || HasRun(ran, serial)
    ensures forall a :: a in heap && !heap[a].repeats ==> !HasRun(ran, heap[a].serial)
  {}

  /** When all live timers were one-shots and due, a pass that adds none leaves nothing. */
  lemma NothingLeft(heap: Heap, heap': Heap, timers': seq<Entry>, batch: seq<Entry>, lo: int, hi: int)
    requires Dealt(heap, heap', batch, lo, hi) && heap'.Keys <= heap.Keys && Holds(heap', timers', [])
    requires forall a :: a in heap ==> heap[a].interval <= 0.0 && Key(heap, a) in batch
    ensures heap' == map[] && timers' == []
  {
    FirstIsLive(heap', timers');
    hide Holds;
    forall a | a in heap ensures a !in heap' {
      assert Finished(heap[a], a, heap', lo, hi);
    }
    assert heap'.Keys == {};
  }

  /** A firing that runs nothing: the timerfd is reported for a timer that is due, another handler adds an earlier
      one, which arms the timerfd anew, and the pass runs both and leaves that arming behind. */
  method FiringThatRunsNothing() returns (q: TimerQueue)
    ensures fresh(q) && q.Valid() && q.timers == [] && q.active == [] && |q.ran| == 2
  {
    hide Holds, Ledger, Grown, Ats, NoneEarly, Dealt, Finished, Keyed, Sorted, OnceAtMost;
    q := new TimerQueue([], []);
    q.AddTimer(Request(0, 0.0, 1), [], {});
    assert q.timers == [Entry(0, 1)];
    q.Wait(100);
    q.Report();
    q.AddTimer(Request(-1, 0.0, 2), [], {});
    assert q.timers == [Entry(-1, 2), Entry(0, 1)] && q.armed.deadline == 200;
    ghost var heap := q.heap;
    q.HandleRead();
    assert q.active == [Entry(-1, 2), Entry(0, 1)] by {
      assert q.passAt == 100 && |q.active| == 2;
    }
    assert Entry(-1, 2) in q.active && Entry(0, 1) in q.active;
    NothingLeft(heap, q.heap, q.timers, q.active, q.passAt, q.clock);
    assert q.armed.deadline == 200 && |q.ran| == 2;
    q.Wait(100);
    q.Report();
    q.HandleRead();
    NothingLeft(map[], q.heap, q.timers, q.active, q.passAt, q.clock);
  }
}
