// TcpConnection: reading from and writing to a non-blocking socket through the two buffers. What the kernel
// will answer is a script, unknown in advance and of any length; past its end it answers "would block".

module TcpConnections {
  import opened Buffers

  datatype ReadResult = Data(bytes: seq<char>) | ReadInterrupted | ReadWouldBlock | EndOfFile | ReadFailed

  /** `Wrote(n)` takes `n` bytes, or all that is offered if that is less. */
  datatype WriteResult = Wrote(n: nat) | WriteInterrupted | WriteWouldBlock | WriteFailed

  const CHUNK := 1024

  /** read returns at least one byte and at most what was asked for. */
  ghost predicate ValidScript(script: seq<ReadResult>) {
    forall i :: 0 <= i < |script| && script[i].Data? ==> 1 <= |script[i].bytes| <= CHUNK
  }

  class Socket {
    var incoming: seq<ReadResult>
    var outgoing: seq<WriteResult>
    /** Everything the kernel has accepted for sending. */
    ghost var wire: seq<char>

    method Read(size: nat) returns (r: ReadResult)
      requires size == CHUNK
      modifies `incoming
      ensures r == Front(old(incoming)) && incoming == Rest(old(incoming))
    {
      r, incoming := if incoming == [] then ReadWouldBlock else incoming[0], Rest(incoming);
    }

    /** Takes bytes off the front of `bytes` and tells how many, or why none. */
    method Write(bytes: seq<char>) returns (r: WriteResult)
      modifies `outgoing, `wire
      ensures outgoing == Tail(old(outgoing))
      ensures r == Answer(old(outgoing), |bytes|)
      ensures wire == old(wire) + (if r.Wrote? then bytes[..r.n] else [])
    {
      r := Answer(outgoing, |bytes|);
      outgoing := Tail(outgoing);
      if r.Wrote? {
        wire := wire + bytes[..r.n];
      } else {
        assert wire + [] == wire;
      }
    }
  }

  // ---------- What a script comes to ----------

  function Front(script: seq<ReadResult>): ReadResult { if script == [] then ReadWouldBlock else script[0] }

  function Rest(script: seq<ReadResult>): seq<ReadResult> { if script == [] then [] else script[1..] }

  /** Data and interruptions go on, anything else ends the reading. */
  predicate ReadGoesOn(r: ReadResult) { r.Data? || r.ReadInterrupted? }

  function Received(script: seq<ReadResult>): seq<char> {
    if !ReadGoesOn(Front(script)) then []
    else (if script[0].Data? then script[0].bytes else []) + Received(script[1..])
  }

  /** Whether reading ends with the peer gone or an error. */
  predicate ReadCloses(script: seq<ReadResult>) {
    if !ReadGoesOn(Front(script)) then !Front(script).ReadWouldBlock? else ReadCloses(script[1..])
  }

  /** One answer further on. */
  lemma ReceivedStep(script: seq<ReadResult>, was: seq<char>)
    requires ReadGoesOn(Front(script))
    ensures was + Received(script)
         == was + (if Front(script).Data? then Front(script).bytes else []) + Received(Rest(script))
    ensures ReadCloses(script) == ReadCloses(Rest(script)) && Unread(script) == Unread(Rest(script)) && script != []
  {
    var bytes := if script[0].Data? then script[0].bytes else [];
    assert was + (bytes + Received(script[1..])) == was + bytes + Received(script[1..]);
  }

  lemma ReceivedEnd(script: seq<ReadResult>)
    requires !ReadGoesOn(Front(script))
    ensures Received(script) == [] && (ReadCloses(script) <==> !Front(script).ReadWouldBlock?)
    ensures Unread(script) == Rest(script)
  {}

  /** What is left of the script once reading has ended. */
  function Unread(script: seq<ReadResult>): seq<ReadResult> {
    if !ReadGoesOn(Front(script)) then Rest(script) else Unread(script[1..])
  }

  function Chunks(script: seq<ReadResult>): seq<char> {
    if script == [] then [] else (if script[0].Data? then script[0].bytes else []) + Chunks(script[1..])
  }

  /** Reading goes on over data and interruptions and ends at the first answer of another kind, which closes the
      connection if it is the end of the file or a failure; nothing after it is read. */
  lemma {:induction false} ReadingEndsAtFirst(before: seq<ReadResult>, last: ReadResult, rest: seq<ReadResult>)
    requires forall r :: r in before ==> r.Data? || r == ReadInterrupted
    requires last in {ReadWouldBlock, EndOfFile, ReadFailed}
    ensures Received(before + [last] + rest) == Chunks(before) && Unread(before + [last] + rest) == rest
    ensures ReadCloses(before + [last] + rest) <==> last == EndOfFile || last == ReadFailed
  {
    var script := before + [last] + rest;
    if before == [] {
      assert script[0] == last && script[1..] == rest;
    } else {
      assert script[0] == before[0] && script[1..] == before[1..] + [last] + rest;
      ReadingEndsAtFirst(before[1..], last, rest);
    }
  }

  /** A script of data and interruptions alone is read whole, and then reading would block. */
  lemma {:induction false} ReadingEndsWithScript(script: seq<ReadResult>)
    requires forall r :: r in script ==> r.Data? || r == ReadInterrupted
    ensures Received(script) == Chunks(script) && Unread(script) == [] && !ReadCloses(script)
  {
    if script != [] {
      ReadingEndsWithScript(script[1..]);
    }
  }

  function Tail(script: seq<WriteResult>): seq<WriteResult> { if script == [] then [] else script[1..] }

  function Answer(script: seq<WriteResult>, offered: nat): (r: WriteResult)
    ensures r.Wrote? ==> r.n <= offered
  {
    if script == [] then WriteWouldBlock
    else if script[0].Wrote? then Wrote(if script[0].n < offered then script[0].n else offered)
    else script[0]
  }

  /** How writing `left` bytes ends: how many were taken, whether the connection closes, and the script left. */
  datatype Sent = Sent(taken: nat, closes: bool, script: seq<WriteResult>)

  function Sending(script: seq<WriteResult>, left: nat): (s: Sent)
    ensures s.taken <= left
    decreases |script|
  {
    if left == 0 then Sent(0, false, script)
    else
      match Answer(script, left)
      case WriteInterrupted => Sending(script[1..], left)
      case WriteWouldBlock => Sent(0, false, Tail(script))
      case WriteFailed => Sent(0, true, Tail(script))
      case Wrote(n) =>
        var s := Sending(script[1..], left - n);
        s.(taken := n + s.taken)
  }

  /** One answer further on. */
  lemma SendingStep(script: seq<WriteResult>, left: nat)
    requires left > 0
    ensures match Answer(script, left)
      case WriteInterrupted => script != [] && Sending(script, left) == Sending(Tail(script), left)
      case WriteWouldBlock => Sending(script, left) == Sent(0, false, Tail(script))
      case WriteFailed => Sending(script, left) == Sent(0, true, Tail(script))
      case Wrote(n) =>
        && script != []
        && Sending(script, left) == Sending(Tail(script), left - n).(taken := n + Sending(Tail(script), left - n).taken)
  {}

  lemma SendingNothing(script: seq<WriteResult>)
    ensures Sending(script, 0) == Sent(0, false, script)
  {}

  lemma TakeMore(wire: seq<char>, buf: seq<char>, at: nat, n: nat)
    requires at + n <= |buf|
    ensures wire + buf[..at] + buf[at..][..n] == wire + buf[..at + n]
  {
    assert buf[..at] + buf[at..][..n] == buf[..at + n];
  }

  function Total(script: seq<WriteResult>): nat {
    if script == [] then 0 else (if script[0].Wrote? then script[0].n else 0) + Total(script[1..])
  }

  /** As long as the kernel takes bytes or is interrupted, writing goes on; at the first answer of another kind it
      ends with what was taken so far, and closes the connection if that is a failure. */
  lemma {:induction false} WritingEndsAtFirst(before: seq<WriteResult>, last: WriteResult, rest: seq<WriteResult>,
                                              left: nat)
    requires forall r :: r in before ==> r.Wrote? || r == WriteInterrupted
    requires last in {WriteWouldBlock, WriteFailed} && Total(before) < left
    ensures Sending(before + [last] + rest, left) == Sent(Total(before), last == WriteFailed, rest)
  {
    var script := before + [last] + rest;
    if before == [] {
      assert script[0] == last && script[1..] == rest;
    } else {
      assert script[0] == before[0] && script[1..] == before[1..] + [last] + rest;
      WritingEndsAtFirst(before[1..], last, rest, left - if before[0].Wrote? then before[0].n else 0);
    }
  }

  /** At the end of the script writing would block. */
  lemma {:induction false} WritingEndsWithScript(script: seq<WriteResult>, left: nat)
    requires forall r :: r in script ==> r.Wrote? || r == WriteInterrupted
    requires Total(script) < left
    ensures Sending(script, left) == Sent(Total(script), false, [])
  {
    if script != [] {
      WritingEndsWithScript(script[1..], left - if script[0].Wrote? then script[0].n else 0);
    }
  }

  /** Once the kernel would take enough, everything is out, and the connection stays open. */
  lemma {:induction false} WritingEndsWhenAllIsOut(before: seq<WriteResult>, rest: seq<WriteResult>, left: nat)
    requires forall r :: r in before ==> r.Wrote? || r == WriteInterrupted
    requires Total(before) >= left
    ensures Sending(before + rest, left).taken == left && !Sending(before + rest, left).closes
  {
    if left > 0 {
      var script := before + rest;
      assert script[0] == before[0] && script[1..] == before[1..] + rest;
      var n := if before[0].Wrote? then before[0].n else 0;
      WritingEndsWhenAllIsOut(before[1..], rest, if n < left then left - n else 0);
    }
  }

  /** The kernel stops taking bytes: it would block or fails before all are gone. */
  predicate Stops(script: seq<WriteResult>, left: nat)
    decreases |script|
  {
    left != 0 &&
    match Answer(script, left)
    case WriteInterrupted => Stops(script[1..], left)
    case Wrote(n) => Stops(script[1..], left - n)
    case _ => true
  }

  /** A message goes out whole unless the kernel stops. */
  lemma {:induction false} WholeUnlessStopped(script: seq<WriteResult>, left: nat)
    ensures Sending(script, left).taken == left <==> !Stops(script, left)
    ensures Sending(script, left).closes ==> Stops(script, left)
    decreases |script|
  {
    if left != 0 {
      match Answer(script, left)
      case WriteInterrupted => WholeUnlessStopped(script[1..], left);
      case Wrote(n) => WholeUnlessStopped(script[1..], left - n);
      case _ =>
    }
  }

  // ---------- The connection ----------

  datatype Status = Connected | Disconnected

  class TcpConnection {
    var status: Status
    const socket: Socket
    const readBuf: Buffer
    const sendBuf: Buffer
    ghost var closes: nat     // calls of the close callback

    ghost predicate Valid()
      reads this, readBuf, sendBuf, readBuf.buffer, sendBuf.buffer
    {
      && readBuf != sendBuf && readBuf.buffer != sendBuf.buffer
      && readBuf.Valid() && sendBuf.Valid()
      && closes <= 1 && (status == Connected ==> closes == 0)
    }

    constructor (socket: Socket)
      ensures Valid() && fresh(readBuf) && fresh(sendBuf) && fresh(readBuf.buffer) && fresh(sendBuf.buffer)
      ensures this.socket == socket && status == Connected
      ensures readBuf.Contents() == [] && sendBuf.Contents() == []
    {
      this.socket := socket;
      status, closes := Connected, 0;
      readBuf := new Buffer();
      sendBuf := new Buffer();
    }

    /** The close callback runs at the first call only. */
    method HandleClose()
      requires Valid()
      modifies `status, `closes
      ensures Valid() && status == Disconnected
      ensures closes == old(closes) + if old(status) == Disconnected then 0 else 1
    {
      if status != Disconnected {
        status := Disconnected;
        closes := closes + 1;
      }
    }

    /** Reads until the kernel has no more; all chunks end up in the read buffer, in order. */
    method ReadNonBlocking()
      requires Valid() && ValidScript(socket.incoming)
      modifies `status, `closes, socket`incoming, readBuf, readBuf.buffer
      ensures Valid() && (readBuf.buffer == old(readBuf.buffer) || fresh(readBuf.buffer))
      ensures readBuf.Contents() == old(readBuf.Contents()) + Received(old(socket.incoming))
      ensures socket.incoming == Unread(old(socket.incoming))
      ensures status == if ReadCloses(old(socket.incoming)) then Disconnected else old(status)
    {
      hide Received, ReadCloses, Unread, Buffer.Valid, Buffer.Contents;
      ghost var script := socket.incoming;
      while true
        invariant Valid() && (readBuf.buffer == old(readBuf.buffer) || fresh(readBuf.buffer))
        invariant ValidScript(socket.incoming)
        invariant readBuf.Contents() + Received(socket.incoming) == old(readBuf.Contents()) + Received(script)
        invariant ReadCloses(socket.incoming) == ReadCloses(script) && Unread(socket.incoming) == Unread(script)
        invariant unchanged(`status) && unchanged(`closes)
        decreases |socket.incoming|
      {
        ghost var before, was := socket.incoming, readBuf.Contents();
        var r := socket.Read(CHUNK);
        if ReadGoesOn(r) { ReceivedStep(before, was); } else { ReceivedEnd(before); }
        assert was + [] == was;
        match r
        case Data(bytes) =>
          readBuf.Append(bytes);
        case ReadInterrupted =>
        case ReadWouldBlock =>
          break;
        case EndOfFile =>
          HandleClose();
          break;
        case ReadFailed =>
          HandleClose();
          break;
      }
    }

    /** What was still unread is dropped first. */
    method Read()
      requires Valid() && ValidScript(socket.incoming)
      modifies `status, `closes, socket`incoming, readBuf, readBuf.buffer
      ensures Valid() && (readBuf.buffer == old(readBuf.buffer) || fresh(readBuf.buffer))
      ensures readBuf.Contents() == Received(old(socket.incoming))
      ensures socket.incoming == Unread(old(socket.incoming))
      ensures status == if ReadCloses(old(socket.incoming)) then Disconnected else old(status)
    {
      readBuf.RetrieveAll();
      ReadNonBlocking();
      assert [] + Received(old(socket.incoming)) == Received(old(socket.incoming));
    }

    /** Offers the send buffer's bytes to the kernel until all are taken or it stops. */
    method WriteNonBlocking()
      requires Valid()
      modifies `status, `closes, socket`outgoing, socket`wire
      ensures Valid()
      ensures var sent := Sending(old(socket.outgoing), |sendBuf.Contents()|);
              && socket.wire == old(socket.wire) + sendBuf.Contents()[..sent.taken]
              && socket.outgoing == sent.script
              && status == if sent.closes then Disconnected else old(status)
    {
      hide Sending, Buffer.Valid, Buffer.Contents, Buffer.ReadableBytes, Buffer.PeekAsString;
      var buf := sendBuf.PeekAsString(sendBuf.ReadableBytes());
      var dataSize := sendBuf.ReadableBytes();
      assert buf == sendBuf.Contents();
      var dataLeft := dataSize;
      ghost var sent := Sending(socket.outgoing, dataSize);
      assert socket.wire + buf[..0] == socket.wire;
      while dataLeft > 0
        invariant 0 <= dataLeft <= dataSize == |buf| && Valid()
        invariant socket.wire == old(socket.wire) + buf[..dataSize - dataLeft]
        invariant var s := Sending(socket.outgoing, dataLeft);
          sent == s.(taken := dataSize - dataLeft + s.taken)
        invariant unchanged(`status) && unchanged(`closes)
        decreases |socket.outgoing|, dataLeft
      {
        ghost var at := dataSize - dataLeft;
        SendingStep(socket.outgoing, dataLeft);
        var r := socket.Write(buf[dataSize - dataLeft..]);
        match r
        case WriteInterrupted =>
        case WriteWouldBlock =>
          break;
        case WriteFailed =>
          HandleClose();
          break;
        case Wrote(n) =>
          TakeMore(old(socket.wire), buf, at, n);
          dataLeft := dataLeft - n;
      }
      SendingNothing(socket.outgoing);
    }

    /** What the kernel did not take is dropped. */
    method Write()
      requires Valid()
      modifies `status, `closes, socket`outgoing, socket`wire, sendBuf
      ensures Valid() && sendBuf.buffer == old(sendBuf.buffer) && sendBuf.Contents() == []
      ensures var sent := Sending(old(socket.outgoing), |old(sendBuf.Contents())|);
              && socket.wire == old(socket.wire) + old(sendBuf.Contents())[..sent.taken]
              && socket.outgoing == sent.script
              && status == if sent.closes then Disconnected else old(status)
    {
      WriteNonBlocking();
      sendBuf.RetrieveAll();
    }

    method Send(msg: seq<char>)
      requires Valid() && sendBuf.Contents() == []
      modifies `status, `closes, socket`outgoing, socket`wire, sendBuf, sendBuf.buffer
      ensures Valid() && (sendBuf.buffer == old(sendBuf.buffer) || fresh(sendBuf.buffer)) && sendBuf.Contents() == []
      ensures var sent := Sending(old(socket.outgoing), |msg|);
              && socket.wire == old(socket.wire) + msg[..sent.taken]
              && socket.outgoing == sent.script
              && status == if sent.closes then Disconnected else old(status)
    {
      sendBuf.Append(msg);
      assert sendBuf.Contents() == msg;
      Write();
    }
  }

  // ---------- Any number of sends ----------

  /** How much of each message is taken when they are sent one after the other. */
  function TakenOfEach(script: seq<WriteResult>, msgs: seq<seq<char>>): (ks: seq<nat>)
    ensures |ks| == |msgs| && forall i :: 0 <= i < |msgs| ==> ks[i] <= |msgs[i]|
    decreases |msgs|
  {
    if msgs == [] then []
    else
      var sent := Sending(script, |msgs[0]|);
      [sent.taken] + TakenOfEach(sent.script, msgs[1..])
  }

  function Prefixes(msgs: seq<seq<char>>, ks: seq<nat>): seq<char>
    requires |ks| == |msgs| && forall i :: 0 <= i < |msgs| ==> ks[i] <= |msgs[i]|
  {
    if msgs == [] then [] else msgs[0][..ks[0]] + Prefixes(msgs[1..], ks[1..])
  }

  /** The wire carries, in the order of the calls, one prefix of each message. */
  method SendAll(conn: TcpConnection, msgs: seq<seq<char>>)
    requires conn.Valid() && conn.sendBuf.Contents() == []
    modifies conn`status, conn`closes, conn.socket`outgoing, conn.socket`wire, conn.sendBuf, conn.sendBuf.buffer
    ensures conn.Valid() && conn.sendBuf.Contents() == []
    ensures conn.socket.wire
         == old(conn.socket.wire) + Prefixes(msgs, TakenOfEach(old(conn.socket.outgoing), msgs))
    decreases |msgs|
  {
    if msgs == [] {
      return;
    }
    ghost var wire := conn.socket.wire;
    conn.Send(msgs[0]);
    ghost var ks := TakenOfEach(old(conn.socket.outgoing), msgs);
    assert ks[1..] == TakenOfEach(conn.socket.outgoing, msgs[1..]);
    SendAll(conn, msgs[1..]);
    assert (wire + msgs[0][..ks[0]]) + Prefixes(msgs[1..], ks[1..]) == wire + Prefixes(msgs, ks);
  }

  /** A message in a run of sends arrives whole exactly when the kernel does not stop while it is sent. */
  lemma {:induction false} EachWholeUnlessStopped(script: seq<WriteResult>, msgs: seq<seq<char>>, i: nat)
    requires i < |msgs|
    ensures var before := ScriptBefore(script, msgs, i);
            TakenOfEach(script, msgs)[i] == |msgs[i]| <==> !Stops(before, |msgs[i]|)
    decreases i
  {
    if i == 0 {
      WholeUnlessStopped(script, |msgs[0]|);
    } else {
      EachWholeUnlessStopped(Sending(script, |msgs[0]|).script, msgs[1..], i - 1);
    }
  }

  /** What is left of the script when message `i` is sent. */
  function ScriptBefore(script: seq<WriteResult>, msgs: seq<seq<char>>, i: nat): seq<WriteResult>
    requires i < |msgs|
    decreases i
  {
    if i == 0 then script else ScriptBefore(Sending(script, |msgs[0]|).script, msgs[1..], i - 1)
  }
}
