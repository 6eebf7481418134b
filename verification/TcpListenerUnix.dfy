/** The receiving half of the Linux TCP listener: an in-place framer over one buffer.
    The socket is a model of the kernel's: bytes still to come, and a script that says
    how each recv call ends. */
module TcpListenerUnix {
  import opened Bytes
  import opened Options
  import opened Framing

  const MAX_LENGTH: nat := 0x7FFF

  // How the kernel meets the next recv call.
  datatype RecvEvent = Arrive(count: nat) | Interrupt | NotReady | Break | HangUp

  // What recv reports: a byte count, or the class of errno.
  datatype RecvResult = Transferred(count: nat) | WouldBlock | Interrupted | Failed

  class Socket {
    var incoming: seq<byte>
    var script: seq<RecvEvent>
    var open: bool
    ghost var delivered: seq<byte>
    // The last call found nothing to read.
    ghost var drained: bool
    // The peer hung up or the connection broke.
    ghost var ended: bool
    // recv was asked for zero bytes, so that its zero did not mean end of stream.
    ghost var askedForNothing: bool

    constructor (incoming: seq<byte>, script: seq<RecvEvent>)
      ensures this.incoming == incoming && this.script == script
      ensures open && delivered == [] && !drained && !ended && !askedForNothing
    {
      this.incoming, this.script, this.open := incoming, script, true;
      delivered, drained, ended, askedForNothing := [], false, false, false;
    }

    method Close()
      modifies this`open
      ensures !open
    {
      open := false;
    }

    method Recv(buf: array<byte>, at: nat, want: nat) returns (r: RecvResult)
      requires at + want <= buf.Length
      modifies buf, this`incoming, this`script, this`delivered, this`drained, this`ended, this`askedForNothing
      ensures r.Transferred? && r.count > 0 ==>
                && old(open) && r.count <= want
                && r.count <= |old(incoming)|
                && incoming == old(incoming)[r.count..]
                && delivered == old(delivered) + old(incoming)[..r.count]
                && buf[..] == Splice(old(buf[..]), at, old(incoming)[..r.count])
                && |script| < |old(script)|
      ensures !(r.Transferred? && r.count > 0) ==>
                incoming == old(incoming) && delivered == old(delivered) && buf[..] == old(buf[..])
      ensures r.Interrupted? ==> |script| < |old(script)|
      ensures drained == r.WouldBlock?
      ensures ended == (old(ended) || (old(open) && want > 0 && (r.Failed? || r == Transferred(0))))
      ensures askedForNothing == (old(askedForNothing) || (old(open) && want == 0))
      ensures !old(open) ==> r.Failed?
      ensures old(open) && want == 0 ==> r == Transferred(0)
    {
      if !open {
        drained := false;
        return Failed;
      }
      if want == 0 {
        drained, askedForNothing := false, true;
        return Transferred(0);
      }
      drained := true;
      if script == [] {
        return WouldBlock;
      }
      var event := script[0];
      script := script[1..];
      match event
      case Arrive(count) =>
        var n := if count < want then count else want;
        n := if n < |incoming| then n else |incoming|;
        if n == 0 {
          return WouldBlock;
        }
        ghost var before := buf[..];
        forall i | 0 <= i < n {
          buf[at + i] := incoming[i];
        }
        assert buf[..] == Splice(before, at, incoming[..n]);
        drained, delivered, incoming := false, delivered + incoming[..n], incoming[n..];
        return Transferred(n);
      case Interrupt => drained := false; return Interrupted;
      case NotReady => return WouldBlock;
      case Break => drained, ended := false, true; return Failed;
      case HangUp => drained, ended := false, true; return Transferred(0);
    }
  }

  // The read state the listener keeps for one accepted socket.
  class Connection<T> {
    var final: array<byte>
    var isWaitingPacketSize: bool
    var waitingBytes: int
    var pendingBytes: int
    var processedBytes: int
    // Where the producer starts reading: the offset of the packet buffer.
    var offset: int
    // Every request made for this connection since it was accepted.
    ghost var emitted: seq<T>

    // A new connection of Accept.
    constructor (maxPacketBytes: nat)
      ensures fresh(final) && final.Length == maxPacketBytes * 4
      ensures isWaitingPacketSize && waitingBytes == LENGTH_SIZE
      ensures pendingBytes == 0 && processedBytes == 0 && emitted == []
    {
      final := new byte[maxPacketBytes * 4];
      isWaitingPacketSize, waitingBytes, pendingBytes, processedBytes := true, LENGTH_SIZE, 0, 0;
      offset, emitted := 0, [];
    }

    ghost predicate Valid(maxPacketBytes: nat)
      reads this
    {
      && final.Length == maxPacketBytes * 4
      && 0 <= pendingBytes && 0 <= processedBytes
      && processedBytes + pendingBytes <= maxPacketBytes
      && (if isWaitingPacketSize then waitingBytes == LENGTH_SIZE else 0 <= waitingBytes <= MAX_LENGTH)
    }

    ghost function Window(): seq<byte>
      reads this, final
      requires 0 <= pendingBytes && 0 <= processedBytes && processedBytes + pendingBytes <= final.Length
    {
      final[processedBytes..processedBytes + pendingBytes]
    }

    // The bytes of the stream that the read state stands for: those in the buffer, after
    // the length already taken out of it.
    ghost function Unparsed(): seq<byte>
      reads this, final
      requires 0 <= pendingBytes && 0 <= processedBytes && processedBytes + pendingBytes <= final.Length
    {
      (if isWaitingPacketSize then [] else FixedInt(waitingBytes, LENGTH_SIZE)) + Window()
    }
  }

  // What the producer makes of a frame does not depend on the bytes that follow it.
  ghost predicate Local<T(!new)>(produce: seq<byte> -> Option<T>, frame: seq<byte>) {
    forall t :: produce(frame + t) == produce(frame)
  }

  ghost predicate FrameLocal<T(!new)>(produce: seq<byte> -> Option<T>, stream: seq<byte>) {
    forall f <- Frames(stream) :: Local(produce, f)
  }

  class TcpListener<T(!new)> {
    const maxPacketBytes: nat
    const produce: seq<byte> -> Option<T>
    var producerRequests: seq<T>

    constructor (maxPacketBytes: nat, produce: seq<byte> -> Option<T>)
      ensures this.maxPacketBytes == maxPacketBytes && this.produce == produce
      ensures producerRequests == []
    {
      this.maxPacketBytes, this.produce := maxPacketBytes, produce;
      producerRequests := [];
    }

    // Between two calls of Receive. The read state is exactly the unparsed tail of the
    // bytes delivered so far, the requests made are those of their frames, and no frame was
    // longer than maxPacketBytes.
    ghost predicate InStep(conn: Connection<T>, sock: Socket)
      reads conn, conn.final, sock
    {
      && conn.Valid(maxPacketBytes)
      && conn.processedBytes == 0
      && conn.emitted == Requests(produce, Frames(sock.delivered)) && FramesFit(sock.delivered, maxPacketBytes)
      && (AllAccepted(produce, Frames(sock.delivered)) ==> conn.Unparsed() == Rest(sock.delivered))
      && (sock.open ==> AllAccepted(produce, Frames(sock.delivered)) && conn.pendingBytes < conn.waitingBytes)
      && (!sock.open ==> sock.ended || sock.askedForNothing || !AllAccepted(produce, Frames(sock.delivered)))
      && (sock.askedForNothing ==> !LengthsWithin(sock.delivered, maxPacketBytes))
    }

    // A socket is accepted: whatever the read state of a connection known by its descriptor
    // still holds of an earlier stream, a new stream begins.
    method Accept(known: Connection?<T>, sock: Socket) returns (conn: Connection<T>)
      requires known != null ==> known.final.Length == maxPacketBytes * 4
      requires sock.open && sock.delivered == [] && !sock.askedForNothing
      modifies known
      ensures InStep(conn, sock) && conn.emitted == []
      ensures if known == null then fresh(conn) && fresh(conn.final) else conn == known && conn.final == old(known.final)
    {
      if known == null {
        conn := new Connection(maxPacketBytes);
      } else {
        conn := known;
      }
      conn.isWaitingPacketSize := true;
      conn.waitingBytes := LENGTH_SIZE;
      conn.pendingBytes := 0;
      conn.processedBytes := 0;
      conn.emitted := [];
    }

    // The same, just after a recv call brought `chunk`.
    ghost predicate Arrived(conn: Connection<T>, sock: Socket, before: seq<byte>, chunk: seq<byte>)
      reads conn, conn.final, sock
    {
      && conn.Valid(maxPacketBytes)
      && conn.processedBytes == 0
      && sock.open && sock.delivered == before + chunk
      && conn.emitted == Requests(produce, Frames(before)) && FramesFit(before, maxPacketBytes)
      && AllAccepted(produce, Frames(before))
      && conn.Unparsed() == Rest(before) + chunk
      && (sock.askedForNothing ==> !LengthsWithin(before, maxPacketBytes))
    }

    // The first branch of the inner loop: the length prefix leaves the buffer.
    method TakeLength(conn: Connection<T>, ghost tail: seq<byte>)
      requires conn.Valid(maxPacketBytes) && conn.Unparsed() == tail
      requires conn.isWaitingPacketSize && conn.pendingBytes >= conn.waitingBytes
      requires DeclaredLength(tail) >= 0
      modifies conn`isWaitingPacketSize, conn`waitingBytes, conn`pendingBytes, conn`processedBytes
      ensures conn.Valid(maxPacketBytes) && conn.Unparsed() == tail
      ensures !conn.isWaitingPacketSize && conn.pendingBytes == old(conn.pendingBytes) - LENGTH_SIZE
    {
      hide FixedInt;
      ghost var window := conn.Window();
      assert tail == window;
      assert conn.final[conn.processedBytes..conn.processedBytes + LENGTH_SIZE] == window[..LENGTH_SIZE];
      conn.isWaitingPacketSize := false;
      conn.waitingBytes := Signed(Value(conn.final[conn.processedBytes..conn.processedBytes + LENGTH_SIZE]), LENGTH_SIZE);
      conn.pendingBytes := conn.pendingBytes - LENGTH_SIZE;
      conn.processedBytes := conn.processedBytes + LENGTH_SIZE;
      LengthTaken(window);
      assert conn.Window() == window[LENGTH_SIZE..];
    }

    // The second branch: the first frame goes to the producer, and out of the buffer
    // unless the producer refuses it.
    method TakeBody(conn: Connection<T>, ghost tail: seq<byte>) returns (accepted: bool)
      requires conn.Valid(maxPacketBytes) && conn.Unparsed() == tail
      requires !conn.isWaitingPacketSize && conn.pendingBytes >= conn.waitingBytes
      requires HasFrame(tail) ==> Local(produce, FirstFrame(tail))
      modifies this`producerRequests, conn`isWaitingPacketSize, conn`waitingBytes, conn`pendingBytes
      modifies conn`processedBytes, conn`offset, conn`emitted
      ensures conn.Valid(maxPacketBytes)
      ensures HasFrame(tail) && accepted == produce(FirstFrame(tail)).Some?
      ensures accepted ==>
                && conn.Unparsed() == AfterFrame(tail)
                && conn.isWaitingPacketSize && conn.pendingBytes <= old(conn.pendingBytes)
                && conn.emitted == old(conn.emitted) + [produce(FirstFrame(tail)).value]
                && producerRequests == old(producerRequests) + [produce(FirstFrame(tail)).value]
      ensures !accepted ==> conn.emitted == old(conn.emitted) && producerRequests == old(producerRequests)
    {
      hide HasFrame, FirstFrame, AfterFrame, DeclaredLength, FixedInt;
      ghost var window, n := conn.Window(), conn.waitingBytes;
      BodyAwaited(n, window);
      conn.offset := conn.processedBytes;
      assert conn.final[conn.offset..] == window[..n] + conn.final[conn.offset + n..];
      var req := produce(conn.final[conn.offset..]);
      if req.None? {
        return false;
      }
      producerRequests := producerRequests + [req.value];
      conn.emitted := conn.emitted + [req.value];

      conn.pendingBytes := conn.pendingBytes - conn.waitingBytes;
      conn.processedBytes := conn.processedBytes + conn.waitingBytes;
      conn.isWaitingPacketSize := true;
      conn.waitingBytes := LENGTH_SIZE;
      assert conn.Window() == window[n..];
      assert conn.Unparsed() == conn.Window();
      return true;
    }

    // The inner loop of Receive: hand over every complete frame in the buffer.
    method TakeFrames(conn: Connection<T>, sock: Socket, ghost start: seq<byte>)
      requires maxPacketBytes >= LENGTH_SIZE
      requires conn.Valid(maxPacketBytes) && sock.open && conn.Unparsed() == start
      requires LengthsWithin(start, MAX_LENGTH) && FrameLocal(produce, start)
      modifies this`producerRequests, conn`isWaitingPacketSize, conn`waitingBytes, conn`pendingBytes
      modifies conn`processedBytes, conn`offset, conn`emitted, sock`open
      ensures conn.Valid(maxPacketBytes)
      ensures conn.emitted == old(conn.emitted) + Requests(produce, Frames(start))
      ensures producerRequests == old(producerRequests) + Requests(produce, Frames(start))
      ensures sock.open == AllAccepted(produce, Frames(start))
      ensures sock.open ==> conn.Unparsed() == Rest(start) && conn.pendingBytes < conn.waitingBytes
    {
      hide Frames, Rest, Requests, LengthsWithin, AllAccepted, FrameLocal, Local;
      ghost var taken, tail, made := [], start, [];
      TakingStarts(produce, start);
      ghost var emitted0, requests0 := conn.emitted, producerRequests;
      while conn.pendingBytes >= conn.waitingBytes
        invariant conn.Valid(maxPacketBytes) && sock.open && conn.Unparsed() == tail
        invariant Taking(produce, start, taken, tail)
        invariant made == Requests(produce, taken)
        invariant conn.emitted == emitted0 + made && producerRequests == requests0 + made
        decreases 2 * conn.pendingBytes + if conn.isWaitingPacketSize then 0 else 1
      {
        TakenStep(produce, start, taken, tail);
        if conn.isWaitingPacketSize {
          TakeLength(conn, tail);
          continue;
        }

        var accepted := TakeBody(conn, tail);
        if !accepted {
          sock.Close();
          return;
        }
        Associative(emitted0, made, [produce(FirstFrame(tail)).value]);
        Associative(requests0, made, [produce(FirstFrame(tail)).value]);
        made := made + [produce(FirstFrame(tail)).value];
        taken, tail := taken + [FirstFrame(tail)], AfterFrame(tail);
      }
      if !conn.isWaitingPacketSize {
        BodyAwaited(conn.waitingBytes, conn.Window());
      }
      TakenAll(produce, start, taken, tail);
    }

    // A forward byte copy of `count` bytes to the start of the buffer: what the code
    // expects of memcpy on overlapping regions.
    static method MoveToFront(buf: array<byte>, from: nat, count: nat)
      requires from + count <= buf.Length
      modifies buf
      ensures buf[..count] == old(buf[from..from + count])
    {
      for i := 0 to count
        invariant forall k :: 0 <= k < i ==> buf[k] == old(buf[from + k])
        invariant forall k :: i <= k < buf.Length ==> buf[k] == old(buf[k])
      {
        buf[i] := buf[from + i];
      }
    }

    // After the inner loop: the unread bytes move to the front of the buffer.
    method Compact(conn: Connection<T>)
      requires conn.Valid(maxPacketBytes)
      modifies conn`processedBytes, conn.final
      ensures conn.Valid(maxPacketBytes) && conn.processedBytes == 0
      ensures conn.Unparsed() == old(conn.Unparsed())
    {
      ghost var window := conn.Window();
      if conn.pendingBytes > 0 {
        MoveToFront(conn.final, conn.processedBytes, conn.pendingBytes);
      }
      conn.processedBytes := 0;
      assert conn.Window() == window;
    }

    // One recv call: the bytes it brings extend the window.
    method RecvIntoWindow(conn: Connection<T>, sock: Socket) returns (transferred: RecvResult, ghost chunk: seq<byte>)
      requires conn.Valid(maxPacketBytes) && conn.processedBytes == 0
      modifies conn.final, conn`pendingBytes
      modifies sock`incoming, sock`script, sock`delivered, sock`drained, sock`ended, sock`askedForNothing
      ensures conn.Valid(maxPacketBytes) && conn.Window() == old(conn.Window()) + chunk
      ensures sock.delivered == old(sock.delivered) + chunk && old(sock.incoming) == chunk + sock.incoming
      ensures transferred.Transferred? && transferred.count > 0 ==> sock.open && |sock.script| < |old(sock.script)|
      ensures !(transferred.Transferred? && transferred.count > 0) ==>
                chunk == [] && conn.pendingBytes == old(conn.pendingBytes)
      ensures transferred.Interrupted? ==> |sock.script| < |old(sock.script)|
      ensures transferred.WouldBlock? ==> conn.pendingBytes < maxPacketBytes
      ensures sock.drained == transferred.WouldBlock?
      ensures old(sock.ended) ==> sock.ended
      ensures sock.ended && !old(sock.ended) ==> transferred.Failed? || transferred == Transferred(0)
      ensures transferred.Failed? || transferred == Transferred(0) ==> !sock.open || sock.ended || sock.askedForNothing
      ensures sock.askedForNothing ==>
                old(sock.askedForNothing) || (sock.open && old(conn.pendingBytes) == maxPacketBytes)
      ensures old(sock.askedForNothing) ==> sock.askedForNothing
    {
      ghost var coming, image := sock.incoming, conn.final[..];
      ghost var window := conn.Window();
      assert window == image[..conn.pendingBytes];
      transferred := sock.Recv(conn.final, conn.pendingBytes, maxPacketBytes - conn.pendingBytes);
      chunk := [];
      if transferred.Transferred? && transferred.count > 0 {
        chunk := coming[..transferred.count];
        SpliceWindow(image, conn.pendingBytes, chunk);
        conn.pendingBytes := conn.pendingBytes + transferred.count;
      }
      assert conn.Window() == conn.final[..][..conn.pendingBytes];
    }

    method Refill(conn: Connection<T>, sock: Socket) returns (transferred: RecvResult, ghost chunk: seq<byte>)
      requires maxPacketBytes >= LENGTH_SIZE
      requires InStep(conn, sock)
      modifies conn.final, conn`pendingBytes
      modifies sock`incoming, sock`script, sock`delivered, sock`drained, sock`ended, sock`askedForNothing
      ensures sock.delivered == old(sock.delivered) + chunk
      ensures sock.delivered + sock.incoming == old(sock.delivered + sock.incoming)
      ensures transferred.Transferred? && transferred.count > 0 ==>
                Arrived(conn, sock, old(sock.delivered), chunk) && |sock.script| < |old(sock.script)|
      ensures !(transferred.Transferred? && transferred.count > 0) ==> InStep(conn, sock)
      ensures transferred.Failed? || transferred == Transferred(0) ==> !sock.open || sock.ended || sock.askedForNothing
      ensures transferred.Interrupted? ==> |sock.script| < |old(sock.script)|
      ensures transferred.WouldBlock? ==> conn.pendingBytes < maxPacketBytes
      ensures sock.drained == transferred.WouldBlock?
      ensures old(sock.ended) ==> sock.ended
    {
      AskedForSomething(conn, sock);
      hide Frames, Rest, Requests, LengthsWithin, AllAccepted, FramesFit, FixedInt, Connection.Window;
      ghost var before, header := sock.delivered, if conn.isWaitingPacketSize then [] else FixedInt(conn.waitingBytes, LENGTH_SIZE);
      ghost var window := conn.Window();
      transferred, chunk := RecvIntoWindow(conn, sock);
      Associative(before, chunk, sock.incoming);
      Associative(header, window, chunk);
      assert before + [] == before && window + [] == window;
    }

    // The session is over: the peer left, the connection broke, or no more bytes fit.
    method CloseSession(conn: Connection<T>, sock: Socket)
      requires InStep(conn, sock)
      requires !sock.open || sock.ended || sock.askedForNothing
      modifies sock`open
      ensures InStep(conn, sock) && !sock.open
    {
      sock.Close();
    }

    // recv is asked for at least one byte unless a length above the buffer size came in.
    lemma AskedForSomething(conn: Connection<T>, sock: Socket)
      requires maxPacketBytes >= LENGTH_SIZE && InStep(conn, sock)
      ensures sock.open && LengthsWithin(sock.delivered, maxPacketBytes) ==> conn.pendingBytes < maxPacketBytes
    {
      if sock.open && LengthsWithin(sock.delivered, maxPacketBytes) {
        TailLength(sock.delivered, maxPacketBytes);
        if !conn.isWaitingPacketSize {
          BodyAwaited(conn.waitingBytes, conn.Window());
        }
      }
    }

    // What follows a recv call that brought bytes.
    method HandOver(conn: Connection<T>, sock: Socket, ghost before: seq<byte>, ghost chunk: seq<byte>)
      returns (ghost more: seq<T>)
      requires maxPacketBytes >= LENGTH_SIZE
      requires Arrived(conn, sock, before, chunk)
      requires LengthsWithin(before + chunk + sock.incoming, MAX_LENGTH)
      requires FrameLocal(produce, before + chunk + sock.incoming)
      modifies this, conn, conn.final, sock`open
      ensures InStep(conn, sock) && conn.final == old(conn.final)
      ensures conn.emitted == old(conn.emitted) + more && producerRequests == old(producerRequests) + more
    {
      hide Frames, Rest, Requests, LengthsWithin, AllAccepted, FramesFit, FrameLocal;
      StreamStep(produce, before, chunk, sock.incoming);
      assert |conn.Unparsed()| <= LENGTH_SIZE + maxPacketBytes;
      FramesFitInTwo(before, chunk, maxPacketBytes);
      TakeFrames(conn, sock, Rest(before) + chunk);
      Compact(conn);
      more := Requests(produce, Frames(Rest(before) + chunk));
    }

    method Receive(conn: Connection<T>, sock: Socket) returns (ghost made: seq<T>)
      requires maxPacketBytes >= LENGTH_SIZE
      requires InStep(conn, sock)
      requires LengthsWithin(sock.delivered + sock.incoming, MAX_LENGTH)
      requires FrameLocal(produce, sock.delivered + sock.incoming)
      modifies this, conn, conn.final, sock
      ensures InStep(conn, sock) && conn.final == old(conn.final)
      ensures sock.delivered + sock.incoming == old(sock.delivered + sock.incoming)
      ensures old(sock.delivered) <= sock.delivered
      ensures conn.emitted == old(conn.emitted) + made && producerRequests == old(producerRequests) + made
      ensures sock.open ==> sock.drained && conn.pendingBytes < maxPacketBytes
      ensures old(sock.ended) ==> sock.ended
    {
      hide InStep, Arrived, Frames, Rest, Requests, LengthsWithin, AllAccepted, FrameLocal, FramesFit;
      ghost var stream := sock.delivered + sock.incoming;
      ghost var emitted0, requests0 := conn.emitted, producerRequests;
      made := [];
      while true
        invariant InStep(conn, sock) && conn.final == old(conn.final)
        invariant sock.delivered + sock.incoming == stream
        invariant old(sock.delivered) <= sock.delivered
        invariant conn.emitted == emitted0 + made && producerRequests == requests0 + made
        invariant old(sock.ended) ==> sock.ended
        decreases |sock.script|
      {
        ghost var before := sock.delivered;
        var transferred, chunk := Refill(conn, sock);
        if !transferred.Transferred? {
          if transferred.WouldBlock? {
            break;
          }
          if transferred.Interrupted? {
            continue;
          }
          CloseSession(conn, sock);
          break;
        }
        if transferred.count == 0 {
          CloseSession(conn, sock);
          break;
        }

        ghost var more := HandOver(conn, sock, before, chunk);
        Associative(emitted0, made, more);
        Associative(requests0, made, more);
        made := made + more;
      }
    }
  }

  // Taking the length out of the buffer leaves the tail as it was.
  lemma LengthTaken(window: seq<byte>)
    requires |window| >= LENGTH_SIZE && DeclaredLength(window) >= 0
    ensures FixedInt(DeclaredLength(window), LENGTH_SIZE) + window[LENGTH_SIZE..] == window
  {
    var prefix := window[..LENGTH_SIZE];
    RadixValues();
    LittleEndianOfValue(prefix);
    assert DeclaredLength(window) == Value(prefix);
    WrapSmall(Value(prefix), LENGTH_SIZE);
    assert window == prefix + window[LENGTH_SIZE..];
  }

  // The tail while a body of n bytes is awaited.
  lemma BodyAwaited(n: nat, window: seq<byte>)
    requires n <= MAX_LENGTH
    ensures var tail := FixedInt(n, LENGTH_SIZE) + window;
            && DeclaredLength(tail) == n
            && (HasFrame(tail) <==> n <= |window|)
            && (n <= |window| ==> FirstFrame(tail) == window[..n] && AfterFrame(tail) == window[n..])
  {
    RadixValues();
    SignedOfWrap(n, LENGTH_SIZE);
    ValueOfLittleEndian(Wrap(n, LENGTH_SIZE), LENGTH_SIZE);
    assert (FixedInt(n, LENGTH_SIZE) + window)[..LENGTH_SIZE] == FixedInt(n, LENGTH_SIZE);
  }

  // Part way through the inner loop: the frames taken, and the tail still to read.
  ghost predicate Taking<T(!new)>(produce: seq<byte> -> Option<T>, start: seq<byte>, taken: seq<seq<byte>>, tail: seq<byte>) {
    && FrameLocal(produce, start)
    && AllAccepted(produce, taken)
    && Frames(start) == taken + Frames(tail)
    && Rest(start) == Rest(tail)
    && LengthsWithin(tail, MAX_LENGTH)
  }

  lemma TakingStarts<T(!new)>(produce: seq<byte> -> Option<T>, start: seq<byte>)
    requires LengthsWithin(start, MAX_LENGTH) && FrameLocal(produce, start)
    ensures Taking(produce, start, [], start) && Requests(produce, []) == []
  {
    assert [] + Frames(start) == Frames(start);
  }

  lemma TakenAll<T(!new)>(produce: seq<byte> -> Option<T>, start: seq<byte>, taken: seq<seq<byte>>, tail: seq<byte>)
    requires Taking(produce, start, taken, tail) && !HasFrame(tail)
    ensures Frames(start) == taken && Rest(start) == tail
  {
    assert taken + [] == taken;
  }

  // One more frame of the stream handed to the producer.
  lemma TakenStep<T(!new)>(produce: seq<byte> -> Option<T>, start: seq<byte>, taken: seq<seq<byte>>, tail: seq<byte>)
    requires Taking(produce, start, taken, tail)
    ensures |tail| >= LENGTH_SIZE ==> DeclaredLength(tail) >= 0
    ensures HasFrame(tail) ==>
              var f := FirstFrame(tail);
              && Local(produce, f)
              && (produce(f).None? ==>
                    && !AllAccepted(produce, Frames(start))
                    && Requests(produce, Frames(start)) == Requests(produce, taken))
              && (produce(f).Some? ==>
                    && Taking(produce, start, taken + [f], AfterFrame(tail))
                    && Requests(produce, taken + [f]) == Requests(produce, taken) + [produce(f).value])
  {
    if HasFrame(tail) {
      var f, more := FirstFrame(tail), Frames(AfterFrame(tail));
      assert Frames(tail) == [f] + more;
      assert f == Frames(start)[|taken|];
      RequestsOfAppend(produce, taken, [f] + more);
      RequestsOfAppend(produce, taken, [f]);
      assert Requests(produce, [f] + more) == [] || produce(f).Some?;
      Associative(taken, [f], more);
    }
  }

  lemma TailLength(delivered: seq<byte>, max: nat)
    requires LengthsWithin(delivered, max)
    ensures |Rest(delivered)| >= LENGTH_SIZE ==> DeclaredLength(Rest(delivered)) <= max
  {
    assert delivered + [] == delivered && Rest(delivered) + [] == Rest(delivered);
    LengthsOfPrefix(delivered, [], max);
  }

  // One more chunk of the stream: what the tail and the chunk hold together.
  lemma StreamStep<T(!new)>(produce: seq<byte> -> Option<T>, before: seq<byte>, chunk: seq<byte>, after: seq<byte>)
    requires LengthsWithin(before + chunk + after, MAX_LENGTH)
    requires FrameLocal(produce, before + chunk + after)
    requires AllAccepted(produce, Frames(before))
    ensures var tail := Rest(before) + chunk;
            && LengthsWithin(tail, MAX_LENGTH) && FrameLocal(produce, tail)
            && Rest(before + chunk) == Rest(tail)
            && AllAccepted(produce, Frames(before + chunk)) == AllAccepted(produce, Frames(tail))
            && Requests(produce, Frames(before + chunk)) == Requests(produce, Frames(before)) + Requests(produce, Frames(tail))
    ensures forall max :: LengthsWithin(before + chunk, max) ==> LengthsWithin(before, max)
  {
    var tail := Rest(before) + chunk;
    ReadInTwo(before, chunk);
    ReadInTwo(before + chunk, after);
    LengthsOfPrefix(before + chunk, after, MAX_LENGTH);
    LengthsOfPrefix(before, chunk, MAX_LENGTH);
    RequestsOfAppend(produce, Frames(before), Frames(tail));
    forall f | f in Frames(tail) ensures Local(produce, f) && f in Frames(before + chunk) {
      assert f in Frames(before + chunk + after);
    }
    forall max | LengthsWithin(before + chunk, max) ensures LengthsWithin(before, max) {
      LengthsOfPrefix(before, chunk, max);
    }
  }
}
