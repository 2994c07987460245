// AsyncLogging: producers append to a shared buffer under a lock; one consumer thread swaps the filled buffers
// out, writes them to the log file and recycles two of them. The consumer holds the lock for a whole pass, so
// a run is any sequence of Append calls and passes.

module AsyncLoggings {

  const BUFFER_SIZE: nat := 4096 * 1000
  const FILE_MAXIMUM_SIZE: nat := 1024 * 1024 * 1024
  const FLUSH_INTERVAL := 3

  class LogFile {
    ghost var content: string   // all bytes handed to the stream
    var writtenBytes: nat
    var lastWrite: int
    var lastFlush: int

    ghost predicate Valid()
      reads this
    {
      writtenBytes == |content|
    }

    constructor ()
      ensures Valid() && content == "" && lastFlush == 0
    {
      content, writtenBytes, lastWrite, lastFlush := "", 0, 0, 0;
    }

    /** fwrite takes some of the bytes, never none. */
    method Fwrite(data: string) returns (n: nat)
      requires data != ""
      modifies `content
      ensures 1 <= n <= |data| && content == old(content) + data[..n]
    {
      n :| 1 <= n <= |data|;
      content := content + data[..n];
    }

    /** Writes all of `data`, however little each fwrite takes; `now` is the clock after the loop. */
    method Write(data: string, now: int)
      requires Valid()
      modifies this
      ensures Valid() && content == old(content) + data
      ensures lastWrite == (if data != "" then now else old(lastWrite))
      ensures lastFlush == (if lastWrite - old(lastFlush) > 3 then now else old(lastFlush))
    {
      var pos := 0;
      while pos != |data|
        invariant pos <= |data| && content == old(content) + data[..pos]
        invariant unchanged(`writtenBytes) && unchanged(`lastWrite) && unchanged(`lastFlush)
        decreases |data| - pos
      {
        var n := Fwrite(data[pos..]);
        assert data[..pos] + data[pos..][..n] == data[..pos + n];
        pos := pos + n;
      }
      if |data| != 0 {
        lastWrite := now;
        writtenBytes := writtenBytes + |data|;
      }
      if lastWrite - lastFlush > FLUSH_INTERVAL {
        lastFlush := now;
      }
    }
  }

  type Address = nat

  datatype Ptr = Null | To(address: Address)

  function Ref(p: Ptr): multiset<Address> { if p.Null? then multiset{} else multiset{p.address} }

  /** The live buffers: address to stored text. `new` takes an unused address, `delete` removes one. */
  type Heap = map<Address, string>

  function Concat(heap: Heap, bs: seq<Address>): string
    requires forall b :: b in bs ==> b in heap
  {
    if bs == [] then "" else heap[bs[0]] + Concat(heap, bs[1..])
  }

  /** What FixedBuffer::append leaves in a buffer that holds `text`. */
  function Appended(text: string, msg: string): string {
    if |text| + |msg| < BUFFER_SIZE then text + msg else text
  }

  /** Whether a message is stored, given the room left in the current buffer: one that fits exactly is not. */
  predicate Kept(len: nat, avail: nat) { len < avail || (avail < len && len < 4_096_000) }

  /** Bytes in the current buffer after a call with `len` bytes when it held `used`. */
  function UsedAfter(used: nat, len: nat): nat {
    if used + len < BUFFER_SIZE then used + len
    else if used + len == BUFFER_SIZE then used
    else if len < BUFFER_SIZE then len else 0
  }

  datatype Event = Log(msg: string) | Woken(now: int)

  /** The bytes that a run takes in, in order, when it starts with `used` bytes in the current buffer: a plain
      log that forgets some messages, with no buffers to swap. */
  function TakenIn(events: seq<Event>, used: nat): string {
    if events == [] then "" else Taken(events[0], used) + TakenIn(events[1..], After(events[0], used))
  }

  function Taken(event: Event, used: nat): string {
    if event.Log? && used < BUFFER_SIZE && Kept(|event.msg|, BUFFER_SIZE - used) then event.msg else ""
  }

  function After(event: Event, used: nat): nat {
    if event.Log? then UsedAfter(used, |event.msg|) else 0
  }

  /** A message that fits exactly is lost, though one byte less or more would be kept. */
  lemma ExactFitIsDropped(msg: string, used: nat)
    requires 0 < used && 0 < |msg| && used + |msg| == BUFFER_SIZE
    ensures TakenIn([Log(msg)], used) == "" && After(Log(msg), used) == used
    ensures TakenIn([Log(msg[1..])], used) == msg[1..]
    ensures |msg| + 1 < BUFFER_SIZE ==> TakenIn([Log(msg + "!")], used) == msg + "!"
  {
    assert forall e: Event :: [e][1..] == [];
    assert forall t: string :: t + "" == t;
  }

  lemma TakenInStep(events: seq<Event>, i: nat, used: nat, before: string)
    requires i < |events|
    ensures before + TakenIn(events[i..], used)
         == before + Taken(events[i], used) + TakenIn(events[i + 1..], After(events[i], used))
  {
    assert events[i..][0] == events[i] && events[i..][1..] == events[i + 1..];
    var t, u := Taken(events[i], used), TakenIn(events[i + 1..], After(events[i], used));
    assert before + (t + u) == before + t + u;
  }

  lemma {:induction false} ConcatSnoc(heap: Heap, bs: seq<Address>, b: Address)
    requires (forall a :: a in bs ==> a in heap) && b in heap
    ensures Concat(heap, bs + [b]) == Concat(heap, bs) + heap[b]
    decreases |bs|
  {
    var all := bs + [b];
    if bs == [] {
      assert all == [b] && all[1..] == [];
      assert Concat(heap, all[1..]) == "";
      assert Concat(heap, all) == heap[b] + "";
      assert heap[b] + "" == heap[b];
    } else {
      var rest := bs[1..];
      ConcatSnoc(heap, rest, b);
      assert all[0] == bs[0] && all[1..] == rest + [b];
      assert Concat(heap, all) == heap[bs[0]] + Concat(heap, all[1..]);
      assert Concat(heap, all) == heap[bs[0]] + (Concat(heap, rest) + heap[b]);
      assert Concat(heap, all) == (heap[bs[0]] + Concat(heap, rest)) + heap[b];
    }
  }

  /** Buffers outside a list do not matter to what it holds. */
  lemma {:induction false} ConcatFrame(heap: Heap, heap': Heap, bs: seq<Address>)
    requires forall b :: b in bs ==> b in heap && b in heap' && heap'[b] == heap[b]
    ensures Concat(heap', bs) == Concat(heap, bs)
    decreases |bs|
  {
    if bs != [] {
      ConcatFrame(heap, heap', bs[1..]);
    }
  }

  lemma UnusedAddress(heap: Heap)
    ensures exists a: Address :: a !in heap
  {
    var rest, bound: nat := heap.Keys, 0;
    while rest != {}
      invariant rest <= heap.Keys
      invariant forall a :: a in heap && a !in rest ==> a < bound
      decreases rest
    {
      var a :| a in rest;
      rest, bound := rest - {a}, if a < bound then bound else a + 1;
    }
    assert bound !in heap;
  }

  /** Every live buffer has exactly one owner, and nothing else is owned. */
  ghost predicate OneOwner(heap: Heap, refs: multiset<Address>) {
    forall a: Address :: refs[a] == if a in heap then 1 else 0
  }

  /** The buffer a pointer owns, if any, is live and empty. */
  ghost predicate Unused(heap: Heap, p: Ptr) {
    p.To? ==> p.address in heap && heap[p.address] == ""
  }

  ghost predicate Owned(heap: Heap, buffers: seq<Address>, current: Ptr) {
    && (forall b :: b in buffers ==> b in heap)
    && current.To? && current.address in heap && current.address !in buffers
    && |heap[current.address]| < BUFFER_SIZE
  }

  lemma OneOwnerGrows(heap: Heap, refs: multiset<Address>, a: Address)
    requires OneOwner(heap, refs) && a !in heap
    ensures OneOwner(heap[a := ""], refs + multiset{a})
  {}

  /** Where the owning pointers point. */
  datatype Pointers = Pointers(buffers: seq<Address>, current: Ptr, next: Ptr, newCurrent: Ptr, newNext: Ptr) {
    ghost function Refs(): multiset<Address> {
      multiset(buffers) + Ref(current) + Ref(next) + Ref(newCurrent) + Ref(newNext)
    }

    /** With the lock free: each live buffer has exactly one owner, `buffers` cannot be empty while the spare
        one is in use, and the unused ones are empty. The consumer has its two once it has started. */
    ghost predicate Sound(heap: Heap) {
      && current.To? && (newCurrent.To? <==> newNext.To?)
      && (next.Null? ==> buffers != [])
      && OneOwner(heap, Refs())
      && (forall a :: a in heap ==> |heap[a]| < BUFFER_SIZE)
      && Unused(heap, next) && Unused(heap, newCurrent) && Unused(heap, newNext)
    }

    lemma Live(heap: Heap)
      requires Sound(heap)
      ensures Owned(heap, buffers, current)
      ensures next != current && newCurrent != current && newNext != current
    {
      assert Refs()[current.address] <= 1;
      forall b | b in buffers ensures b in heap {
        assert Refs()[b] > 0;
      }
    }

    /** During a pass: every pointer owns one buffer, and `active` the rest; those that wait for use are empty. */
    ghost predicate Between(heap: Heap, active: seq<Address>) {
      && OneOwner(heap, Refs() + multiset(active))
      && buffers == [] && current.To? && next.To?
      && Unused(heap, current) && Unused(heap, next) && Unused(heap, newCurrent) && Unused(heap, newNext)
    }

    lemma LastOf(heap: Heap, active: seq<Address>)
      requires Between(heap, active) && active != []
      ensures var last := active[|active| - 1];
        && last in heap
        && multiset(active) == multiset(active[..|active| - 1]) + multiset{last}
        && OneOwner(heap[last := ""], Refs() + multiset{last} + multiset(active[..|active| - 1]))
    {
      var last := active[|active| - 1];
      SplitAt(active, |active| - 1);
      assert active[|active| - 1..] == [last];
      assert (Refs() + multiset(active))[last] > 0;
      assert Refs() + multiset{last} + multiset(active[..|active| - 1]) == Refs() + multiset(active);
    }

    lemma TakenAsCurrent(heap: Heap, active: seq<Address>)
      requires Between(heap, active) && active != [] && newCurrent.Null?
      ensures var last := active[|active| - 1];
        last in heap && this.(newCurrent := To(last)).Between(heap[last := ""], active[..|active| - 1])
    {
      LastOf(heap, active);
      assert this.(newCurrent := To(active[|active| - 1])).Refs() == Refs() + multiset{active[|active| - 1]};
    }

    lemma TakenAsNext(heap: Heap, active: seq<Address>)
      requires Between(heap, active) && active != [] && newNext.Null?
      ensures var last := active[|active| - 1];
        last in heap && this.(newNext := To(last)).Between(heap[last := ""], active[..|active| - 1])
    {
      LastOf(heap, active);
      assert this.(newNext := To(active[|active| - 1])).Refs() == Refs() + multiset{active[|active| - 1]};
    }

    /** At the start of a pass the full buffers and the current one are taken away, the consumer's own current
        buffer moves in, and its spare one too if the shared spare one is in use. */
    function SwappedOut(): Pointers {
      Pointers([], newCurrent, if next.Null? then newNext else next, Null, if next.Null? then Null else newNext)
    }

    lemma SwapKeeps(heap: Heap)
      requires Sound(heap) && newCurrent.To?
      ensures SwappedOut().Between(heap, buffers + [current.address])
      ensures SwappedOut().newNext.Null? ==> buffers != []
    {
      assert SwappedOut().Refs() + multiset(buffers + [current.address]) == Refs();
      Live(heap);
      assert (Refs())[newCurrent.address] > 0;
    }

    lemma AllRecycled(heap: Heap)
      requires Between(heap, []) && newCurrent.To? && newNext.To?
      ensures Sound(heap) && Owned(heap, buffers, current) && forall a :: a in heap ==> heap[a] == ""
    {
      assert Refs() + multiset([]) == Refs();
      forall a | a in heap ensures heap[a] == "" {
        assert Refs()[a] == 1;
      }
    }

    lemma StoreKeeps(heap: Heap, text: string)
      requires Sound(heap) && current.address in heap && |text| < BUFFER_SIZE
      ensures Sound(heap[current.address := text])
    {
      Live(heap);
    }

    /** The current buffer joins the full ones and the spare one takes its place. */
    function UseNext(): Pointers
      requires current.To? && next.To?
    {
      this.(buffers := buffers + [current.address], current := next, next := Null)
    }

    function UseNew(a: Address): Pointers
      requires current.To? && next.Null?
    {
      this.(buffers := buffers + [current.address], current := To(a))
    }

    lemma StartKeeps(heap: Heap, a: Address, b: Address)
      requires Sound(heap) && newCurrent.Null? && a !in heap && b !in heap && a != b
      ensures this.(newCurrent := To(a), newNext := To(b)).Sound(heap[a := ""][b := ""])
    {
      assert this.(newCurrent := To(a), newNext := To(b)).Refs() == Refs() + multiset{a, b};
      Live(heap);
    }

    lemma UseNextKeeps(heap: Heap)
      requires Sound(heap) && next.To?
      ensures UseNext().Sound(heap) && Owned(heap, UseNext().buffers, next) && heap[next.address] == ""
    {
      assert UseNext().Refs() == Refs();
      UseNext().Live(heap);
    }

    lemma UseNewKeeps(heap: Heap, a: Address)
      requires Sound(heap) && next.Null? && a !in heap
      ensures UseNew(a).Sound(heap[a := ""]) && Owned(heap[a := ""], UseNew(a).buffers, To(a))
    {
      OneOwnerGrows(heap, Refs(), a);
      assert UseNew(a).Refs() == Refs() + multiset{a};
      hide OneOwner, Refs;
      UseNew(a).Live(heap[a := ""]);
    }
  }

  /** Deleting buffers that an owner gives up. */
  lemma FreeKeeps(heap: Heap, heap': Heap, refs: multiset<Address>, freed: seq<Address>)
    requires OneOwner(heap, refs + multiset(freed))
    requires heap' == heap - set b | b in freed
    ensures OneOwner(heap', refs) && forall b :: b in freed ==> b in heap && refs[b] == 0
  {
    var all := refs + multiset(freed);
    forall b | b in freed ensures b in heap && refs[b] == 0 {
      assert all[b] == refs[b] + multiset(freed)[b] && multiset(freed)[b] > 0;
    }
    forall a: Address ensures refs[a] == if a in heap' then 1 else 0 {
      assert all[a] == refs[a] + multiset(freed)[a];
      assert a in freed <==> multiset(freed)[a] > 0;
    }
  }

  lemma OwnedIsLive(heap: Heap, refs: multiset<Address>)
    requires OneOwner(heap, refs)
    ensures forall a :: a in refs ==> a in heap
  {}

  lemma SplitAt(bs: seq<Address>, i: nat)
    requires i <= |bs|
    ensures multiset(bs) == multiset(bs[..i]) + multiset(bs[i..])
  {
    assert bs == bs[..i] + bs[i..];
  }

  lemma LineWritten(earlier: string, content: string, heap: Heap, buffers: seq<Address>, current: Address)
    requires (forall b :: b in buffers ==> b in heap) && current in heap
    ensures Line(earlier + content, heap, buffers, current) == earlier + (content + Concat(heap, buffers + [current]))
  {
    ConcatSnoc(heap, buffers, current);
  }

  lemma TwoBuffers()
    ensures Pointers([], To(0), To(1), Null, Null).Sound(map[0 := "", 1 := ""])
  {
    assert Pointers([], To(0), To(1), Null, Null).Refs() == multiset{0, 1};
  }

  /** What has been written, then the full buffers, then the current one. */
  ghost function Line(stream: string, heap: Heap, buffers: seq<Address>, current: Address): string
    requires (forall b :: b in buffers ==> b in heap) && current in heap
  {
    stream + Concat(heap, buffers) + heap[current]
  }

  lemma LineGrows(stream: string, heap: Heap, buffers: seq<Address>, current: Address, text: string)
    requires (forall b :: b in buffers ==> b in heap) && current in heap && current !in buffers
    ensures Line(stream, heap[current := heap[current] + text], buffers, current)
         == Line(stream, heap, buffers, current) + text
  {
    ConcatFrame(heap, heap[current := heap[current] + text], buffers);
  }

  lemma LineSwaps(stream: string, heap: Heap, buffers: seq<Address>, current: Address, heap': Heap, fresh_: Address)
    requires (forall b :: b in buffers ==> b in heap) && current in heap
    requires forall a :: a in heap ==> a in heap' && heap'[a] == heap[a]
    requires fresh_ in heap' && heap'[fresh_] == ""
    ensures Line(stream, heap', buffers + [current], fresh_) == Line(stream, heap, buffers, current)
  {
    ConcatFrame(heap, heap', buffers);
    ConcatSnoc(heap', buffers, current);
  }

  class AsyncLogging {
    var heap: Heap
    var current: Ptr
    var next: Ptr
    var buffers: seq<Address>
    /** The consumer's own spare buffers. */
    var newCurrent: Ptr
    var newNext: Ptr
    /** The present file; the consumer opens the first one when it starts. */
    var logfile: LogFile?
    /** Bytes in the files before the present one. */
    ghost var earlier: string
    /** The messages taken in so far, one after the other. */
    ghost var accepted: string

    ghost function Owners(): Pointers
      reads this
    {
      Pointers(buffers, current, next, newCurrent, newNext)
    }

    /** What was taken in is what has been written, then the full buffers, then the current one. */
    ghost predicate Valid()
      reads this, logfile
    {
      && Owners().Sound(heap) && Owned(heap, buffers, current)
      && (logfile != null <==> newCurrent.To?)
      && (logfile != null ==> logfile.Valid() && logfile.writtenBytes < FILE_MAXIMUM_SIZE)
      && accepted == Line(Stream(), heap, buffers, current.address)
    }

    /** The bytes in all files. */
    ghost function Stream(): string
      reads this, logfile
    {
      earlier + if logfile == null then "" else logfile.content
    }

    /** What waits in memory. */
    ghost function Pending(): string
      reads this
      requires Owned(heap, buffers, current)
    {
      Concat(heap, buffers) + heap[current.address]
    }

    ghost function Used(): nat
      reads this
      requires Owned(heap, buffers, current)
    {
      |heap[current.address]|
    }

    function Avail(): nat
      reads this
      requires current.To? && current.address in heap && |heap[current.address]| < BUFFER_SIZE
    {
      BUFFER_SIZE - |heap[current.address]|
    }

    constructor ()
      ensures Valid() && newCurrent.Null? && accepted == "" && Stream() == "" && Used() == 0
    {
      heap, buffers, earlier, accepted := map[0 := "", 1 := ""], [], "", "";
      current, next, newCurrent, newNext, logfile := To(0), To(1), Null, Null, null;
      hide Pointers.Sound;
      TwoBuffers();
    }

    /** The consumer's thread begins, with two buffers and a file of its own. */
    method Start()
      requires Valid() && newCurrent.Null?
      modifies `heap, `newCurrent, `newNext, `logfile
      ensures Valid() && newCurrent.To? && fresh(logfile)
      ensures Stream() == old(Stream()) && Used() == old(Used())
    {
      hide Pointers.Sound;
      UnusedAddress(heap);
      var a: Address :| a !in heap;
      UnusedAddress(heap[a := ""]);
      var b: Address :| b !in heap[a := ""];
      Owners().StartKeeps(heap, a, b);
      ghost var after := Owners().(newCurrent := To(a), newNext := To(b));
      ConcatFrame(heap, heap[a := ""][b := ""], buffers);
      heap := heap[a := ""][b := ""];
      newCurrent, newNext := To(a), To(b);
      logfile := new LogFile();
      assert Owners() == after;
    }

    /** Stores into the current buffer what FixedBuffer::append takes of `msg`. */
    method Store(msg: string)
      requires Owners().Sound(heap) && Owned(heap, buffers, current)
      modifies `heap
      ensures Owners().Sound(heap) && Owned(heap, buffers, current)
      ensures heap == old(heap)[current.address := Appended(old(heap[current.address]), msg)]
    {
      Owners().StoreKeeps(heap, Appended(heap[current.address], msg));
      heap := heap[current.address := Appended(heap[current.address], msg)];
    }

    /** Moves the current buffer to the full ones and puts the spare one, or a new one, in its place. */
    method Replace()
      requires Owners().Sound(heap) && Owned(heap, buffers, current)
      modifies `heap, `buffers, `current, `next
      ensures Owners().Sound(heap) && Owned(heap, buffers, current)
      ensures buffers == old(buffers) + [old(current.address)]
      ensures (forall a :: a in old(heap) ==> a in heap && heap[a] == old(heap[a])) && heap[current.address] == ""
    {
      hide Pointers.Sound;
      ghost var was := Owners();
      assert was.next == next;
      buffers := buffers + [current.address];
      if next.To? {
        was.UseNextKeeps(heap);
        current, next := next, Null;
        assert Owners() == was.UseNext();
      } else {
        UnusedAddress(heap);
        var a: Address :| a !in heap;
        was.UseNewKeeps(heap, a);
        heap := heap[a := ""];
        current := To(a);
        assert Owners() == was.UseNew(a);
      }
    }

    /** A producer's call, under the lock: the message is stored whole or dropped whole. */
    method Append(msg: string)
      requires Valid()
      modifies this
      ensures Valid()
      ensures accepted == old(accepted) + if Kept(|msg|, old(Avail())) then msg else ""
      ensures Stream() == old(Stream()) && logfile == old(logfile)
      ensures Used() == UsedAfter(old(Used()), |msg|)
    {
      hide Pointers.Sound;
      hide Line;
      var avail := Avail();
      if avail < |msg| {
        Replace();
        LineSwaps(Stream(), old(heap), old(buffers), old(current.address), heap, current.address);
      }
      ghost var text := if |msg| < Avail() then msg else "";
      assert Appended(heap[current.address], msg) == heap[current.address] + text;
      LineGrows(Stream(), heap, buffers, current.address, text);
      Store(msg);
      accepted := accepted + if Kept(|msg|, avail) then msg else "";
    }

    /** Deletes the buffers after the first `keep` of a list. */
    method Free(active: seq<Address>, keep: nat) returns (kept: seq<Address>)
      requires Owners().Between(heap, active) && keep <= |active|
      modifies `heap
      ensures Owners().Between(heap, kept) && kept == active[..keep]
      ensures forall a :: a in heap ==> a in old(heap) && heap[a] == old(heap[a])
    {
      kept := active[..keep];
      SplitAt(active, keep);
      ghost var refs := Owners().Refs() + multiset(kept);
      assert refs + multiset(active[keep..]) == Owners().Refs() + multiset(active);
      FreeKeeps(heap, heap - (set b | b in active[keep..]), refs, active[keep..]);
      assert OneOwner(heap, Owners().Refs() + multiset(active));
      heap := heap - set b | b in active[keep..];
      hide OneOwner;
      OwnedIsLive(heap, refs);
      assert forall p :: p in {current, next, newCurrent, newNext} && p.To? ==> p.address in refs;
    }

    /** FixedBuffer::bzero on a live buffer. */
    method Clear(b: Address)
      requires b in heap
      modifies `heap
      ensures heap == old(heap)[b := ""]
    {
      heap := heap[b := ""];
    }

    method WriteAll(active: seq<Address>, now: int)
      requires logfile != null && logfile.Valid() && forall b :: b in active ==> b in heap
      modifies logfile
      ensures logfile.Valid() && logfile.content == old(logfile.content) + Concat(heap, active)
    {
      for i := 0 to |active|
        invariant logfile.Valid() && logfile.content == old(logfile.content) + Concat(heap, active[..i])
      {
        logfile.Write(heap[active[i]], now);
        ConcatSnoc(heap, active[..i], active[i]);
        assert active[..i] + [active[i]] == active[..i + 1];
      }
      assert active[..|active|] == active;
    }

    /** Keeps two of the written buffers at most: the last becomes the consumer's next current buffer, the one
        before it the spare one if that was handed over. */
    method Recycle(written: seq<Address>)
      requires Owners().Between(heap, written) && newCurrent.Null? && |written| >= if newNext.Null? then 2 else 1
      modifies `heap, `newCurrent, `newNext
      ensures newCurrent.To? && newNext.To? && Owners().Between(heap, [])
    {
      hide Pointers.Between;
      var active := written;
      if |active| > 2 {
        active := Free(active, 2);
      }
      Owners().TakenAsCurrent(heap, active);
      newCurrent, active := To(active[|active| - 1]), active[..|active| - 1];
      Clear(newCurrent.address);
      if newNext.Null? {
        Owners().TakenAsNext(heap, active);
        newNext, active := To(active[|active| - 1]), active[..|active| - 1];
        Clear(newNext.address);
      }
      active := Free(active, 0);
    }

    /** The file that held `present` after the writes is still in use if that is less than 1 GiB, and closed for a
        new one otherwise. */
    twostate predicate Rolled(file: LogFile?, before: string, present: string)
      reads this, logfile
    {
      if |present| < 1024 * 1024 * 1024
      then logfile == file && logfile != null && logfile.content == present && earlier == before
      else logfile != null && fresh(logfile) && logfile.content == "" && earlier == before + present
    }

    /** Writes the buffers and changes the file if it has grown to its maximum size. */
    method WriteOut(active: seq<Address>, now: int)
      requires logfile != null && logfile.Valid() && forall b :: b in active ==> b in heap
      modifies `logfile, `earlier, logfile
      ensures Rolled(old(logfile), old(earlier), old(logfile.content) + Concat(heap, active))
      ensures logfile != null && logfile.Valid() && logfile.writtenBytes < FILE_MAXIMUM_SIZE
    {
      WriteAll(active, now);
      if logfile.writtenBytes >= FILE_MAXIMUM_SIZE {
        earlier := earlier + logfile.content;
        logfile := new LogFile();
      }
    }

    /** One pass of the consumer, under the lock throughout. `now` reads the clock. */
    method Pass(now: int)
      requires Valid() && newCurrent.To?
      modifies this, logfile
      ensures Valid() && (logfile == old(logfile) || fresh(logfile))
      ensures accepted == old(accepted) && Stream() == accepted && newCurrent.To?
      ensures Rolled(old(logfile), old(earlier), old(logfile.content) + old(Pending()))
      ensures fresh(logfile) <==> |old(logfile.content) + old(Pending())| >= 1024 * 1024 * 1024
      ensures buffers == [] && next.To? && Used() == 0 && forall a :: a in heap ==> heap[a] == ""
    {
      hide Pointers.Between, Pointers.Sound;
      LineWritten(earlier, logfile.content, heap, buffers, current.address);
      ConcatSnoc(heap, buffers, current.address);
      Owners().SwapKeeps(heap);
      ghost var swapped := Owners().SwappedOut();
      var active := buffers + [current.address];
      buffers := [];
      current, newCurrent := newCurrent, Null;
      if next.Null? {
        next, newNext := newNext, Null;
      }
      assert Owners() == swapped;
      WriteOut(active, now);
      Recycle(active);
      Owners().AllRecycled(heap);
    }

    /** One event; the first pass comes after the consumer has started, whenever that is. */
    method Serve(event: Event)
      requires Valid()
      modifies this, logfile
      ensures Valid() && (logfile == old(logfile) || fresh(logfile))
      ensures accepted == old(accepted) + Taken(event, old(Used())) && Used() == After(event, old(Used()))
      ensures event.Woken? ==> Stream() == accepted
    {
      hide Pointers.Sound, Line;
      match event {
        case Log(msg) => Append(msg);
        case Woken(now) =>
          if newCurrent.Null? { Start(); }
          Pass(now);
      }
    }

    /** Any run of producers' calls and passes takes in what the plain log does, and a last pass writes it all. */
    method Run(events: seq<Event>, last: int)
      requires Valid()
      modifies this, logfile
      ensures Valid() && Stream() == accepted == old(accepted) + TakenIn(events, old(Used()))
    {
      assert forall used: nat :: Taken(Woken(last), used) == "";
      hide Pointers.Sound, Line, Taken, After;
      assert events[0..] == events;
      for i := 0 to |events|
        invariant Valid() && (logfile == old(logfile) || fresh(logfile))
        invariant accepted + TakenIn(events[i..], Used()) == old(accepted) + TakenIn(events, old(Used()))
      {
        TakenInStep(events, i, Used(), accepted);
        Serve(events[i]);
      }
      assert accepted + TakenIn(events[|events|..], Used()) == accepted == accepted + "";
      Serve(Woken(last));
    }
  }
}
