/** The reassembly loop of the Windows listener: a frame is handed on straight from the
    completed read when nothing of it is pending, and gathered in a buffer otherwise. */
module TcpListenerWin {
  import opened Bytes
  import opened Framing
  import opened Options
  import opened TcpListenerUnix

  // The frames this loop has handed on once it has read all of s: a frame of no bytes waits
  // for the next byte of the stream.
  predicate EndsWithEmptyFrame(s: seq<byte>) {
    Frames(s) != [] && Frames(s)[|Frames(s)| - 1] == [] && Rest(s) == []
  }

  function FramesHandedOn(s: seq<byte>): seq<seq<byte>> {
    if EndsWithEmptyFrame(s) then Frames(s)[..|Frames(s)| - 1] else Frames(s)
  }

  class Client {
    const receiveBuffer: array<byte>
    var isWaitingPacketSize: bool
    var waitingBytes: int
    var pendingBytes: int
    // The frames handed on, and the stream received, since the connection was made.
    var frames: seq<seq<byte>>
    ghost var received: seq<byte>

    constructor (capacity: nat)
      requires capacity >= LENGTH_SIZE
      ensures InStep() && received == [] && fresh(receiveBuffer) && receiveBuffer.Length == capacity
    {
      receiveBuffer := new byte[capacity];
      isWaitingPacketSize, waitingBytes, pendingBytes := true, LENGTH_SIZE, 0;
      frames, received := [], [];
    }

    ghost predicate Valid()
      reads this`isWaitingPacketSize, this`waitingBytes, this`pendingBytes
    {
      && receiveBuffer.Length >= LENGTH_SIZE
      && 0 <= pendingBytes <= waitingBytes <= receiveBuffer.Length
      && (if isWaitingPacketSize then waitingBytes == LENGTH_SIZE else waitingBytes <= MAX_LENGTH)
      && (pendingBytes == waitingBytes ==> waitingBytes == 0)
    }

    ghost function Tail(): seq<byte>
      reads this`isWaitingPacketSize, this`waitingBytes, this`pendingBytes, receiveBuffer
      requires Valid()
    {
      (if isWaitingPacketSize then [] else FixedInt(waitingBytes, LENGTH_SIZE)) + receiveBuffer[..pendingBytes]
    }

    // With `coming` still to be read of a stream: the frames handed on and the tail make up
    // all the stream, and a last frame of no bytes was handed on only because more came.
    ghost predicate Reading(stream: seq<byte>, coming: seq<byte>)
      reads this`isWaitingPacketSize, this`waitingBytes, this`pendingBytes, this`frames, receiveBuffer
    {
      && Valid()
      && Frames(stream) == frames + Frames(Tail() + coming)
      && Rest(stream) == Rest(Tail() + coming)
      && LengthsWithin(Tail() + coming, receiveBuffer.Length)
      && (frames != [] && frames[|frames| - 1] == [] ==> Tail() + coming != [])
    }

    ghost predicate InStep()
      reads this, receiveBuffer
    {
      Reading(received, [])
    }

    // Between reads, the frames handed on are those of the stream, but for a frame of no
    // bytes at its very end.
    lemma HandedOn()
      requires InStep()
      ensures frames == FramesHandedOn(received)
    {
      assert Tail() + [] == Tail();
      if isWaitingPacketSize {
        assert !HasFrame(Tail());
      } else {
        BodyAwaited(waitingBytes, receiveBuffer[..pendingBytes]);
        if waitingBytes == 0 {
          assert Frames(Tail()) == [[]] + Frames([]);
        }
      }
    }

    // The read ends in the middle of a length or a body.
    method Gather(read: seq<byte>, from: nat, count: nat)
      requires Valid() && from + count <= |read|
      requires 0 < count < waitingBytes - pendingBytes
      modifies this`pendingBytes, receiveBuffer
      ensures Valid() && Tail() == old(Tail()) + read[from..from + count]
    {
      ghost var gathered := receiveBuffer[..pendingBytes];
      Copy(read, from, count);
      pendingBytes := pendingBytes + count;
      assert receiveBuffer[..pendingBytes] == gathered + read[from..from + count];
    }

    // memcpy from the completed read to the end of what is pending.
    method Copy(read: seq<byte>, from: nat, count: nat)
      requires 0 <= pendingBytes && pendingBytes + count <= receiveBuffer.Length
      requires from + count <= |read|
      modifies receiveBuffer
      ensures receiveBuffer[..pendingBytes] == old(receiveBuffer[..pendingBytes])
      ensures receiveBuffer[pendingBytes..pendingBytes + count] == read[from..from + count]
    {
      forall i | 0 <= i < count {
        receiveBuffer[pendingBytes + i] := read[from + i];
      }
    }

    // The bytes of the length or body now complete: from the read itself when nothing is
    // pending, else from the buffer.
    method Complete(read: seq<byte>, from: nat, missing: nat) returns (data: seq<byte>)
      requires Valid() && missing == waitingBytes - pendingBytes
      requires from + missing <= |read|
      modifies receiveBuffer
      ensures data == old(receiveBuffer[..pendingBytes]) + read[from..from + missing]
    {
      if pendingBytes != 0 {
        Copy(read, from, missing);
        data := receiveBuffer[..waitingBytes];
      } else {
        data := read[from..from + missing];
      }
    }

    method TakeLength(data: seq<byte>)
      requires Valid() && isWaitingPacketSize && |data| == LENGTH_SIZE
      requires 0 <= DeclaredLength(data) <= receiveBuffer.Length
      modifies this`isWaitingPacketSize, this`waitingBytes, this`pendingBytes
      ensures Valid() && Tail() == data
    {
      RadixValues();
      assert data[..LENGTH_SIZE] == data;
      LengthTaken(data);
      isWaitingPacketSize := false;
      waitingBytes := Signed(Value(data), LENGTH_SIZE);
      pendingBytes := 0;
    }

    method TakeBody(data: seq<byte>)
      requires Valid() && !isWaitingPacketSize
      modifies this`isWaitingPacketSize, this`waitingBytes, this`pendingBytes, this`frames
      ensures Valid() && Tail() == [] && frames == old(frames) + [data]
    {
      isWaitingPacketSize := true;
      waitingBytes := LENGTH_SIZE;
      pendingBytes := 0;
      frames := frames + [data];
    }

    lemma ValidInStep()
      requires InStep()
      ensures Valid()
    {
    }

    // More of the stream arrives.
    lemma Arrive(more: seq<byte>)
      requires InStep() && LengthsWithin(received + more, receiveBuffer.Length)
      ensures Reading(received + more, more)
    {
      assert Tail() + [] == Tail();
      ReadInTwo(received, more);
      ReadInTwo(Tail(), more);
      Associative(frames, Frames(Tail()), Frames(Rest(Tail()) + more));
      LengthsOfPrefix(received, more, receiveBuffer.Length);
      LengthsOfExtension(Tail(), more, receiveBuffer.Length);
    }

    // A round of the loop that completes a length.
    method LengthRound(data: seq<byte>, ghost stream: seq<byte>, ghost rest: seq<byte>)
      requires Valid() && isWaitingPacketSize && |data| == LENGTH_SIZE
      requires Frames(stream) == frames + Frames(data + rest) && Rest(stream) == Rest(data + rest)
      requires LengthsWithin(data + rest, receiveBuffer.Length)
      requires frames != [] && frames[|frames| - 1] == [] ==> data + rest != []
      modifies this`isWaitingPacketSize, this`waitingBytes, this`pendingBytes
      ensures Reading(stream, rest) && !isWaitingPacketSize
    {
      FirstOfAppend(data, rest);
      hide Frames, Rest;
      TakeLength(data);
    }

    // A round of the loop that completes a body.
    method BodyRound(data: seq<byte>, ghost stream: seq<byte>, ghost rest: seq<byte>)
      requires Valid() && !isWaitingPacketSize && (data == [] ==> rest != [])
      requires Frames(stream) == frames + ([data] + Frames(rest)) && Rest(stream) == Rest(rest)
      requires LengthsWithin(rest, receiveBuffer.Length)
      modifies this`isWaitingPacketSize, this`waitingBytes, this`pendingBytes, this`frames
      ensures Reading(stream, rest) && isWaitingPacketSize
    {
      hide Frames, Rest, LengthsWithin;
      Associative(frames, [data], Frames(rest));
      TakeBody(data);
      assert [] + rest == rest;
    }

    method CompleteRound(read: seq<byte>, from: nat, missing: nat, ghost stream: seq<byte>, ghost coming: seq<byte>)
      requires from + missing <= |read|
      requires Reading(stream, coming) && missing == waitingBytes - pendingBytes
      requires coming != [] && missing <= |coming| && read[from..from + missing] == coming[..missing]
      modifies this`isWaitingPacketSize, this`waitingBytes, this`pendingBytes, this`frames, receiveBuffer
      ensures Valid() && Reading(stream, coming[missing..])
      ensures missing == 0 ==> isWaitingPacketSize && !old(isWaitingPacketSize)
    {
      ghost var window, rest := receiveBuffer[..pendingBytes], coming[missing..];
      assert coming == coming[..missing] + rest;
      assert [] + window == window;
      Associative(window, coming[..missing], rest);
      if !isWaitingPacketSize {
        BodyCompleted(waitingBytes, window, coming, missing);
      }
      hide Frames, Rest, LengthsWithin, HasFrame, FixedInt;
      var data := Complete(read, from, missing);
      if isWaitingPacketSize {
        LengthRound(data, stream, rest);
      } else {
        BodyRound(data, stream, rest);
      }
    }

    // One round of the loop: how many bytes it used, and whether the read ended in it.
    method Round(read: seq<byte>, from: nat, ghost stream: seq<byte>) returns (used: nat, ended: bool)
      requires from < |read| && Valid() && Reading(stream, read[from..])
      modifies this`isWaitingPacketSize, this`waitingBytes, this`pendingBytes, this`frames, receiveBuffer
      ensures ended ==> Reading(stream, [])
      ensures !ended ==>
                && used <= |read| - from && Valid() && Reading(stream, read[from + used..])
                && (used == 0 ==> isWaitingPacketSize && !old(isWaitingPacketSize))
    {
      hide Client.Reading, Client.Tail, LengthsWithin;
      ghost var coming := read[from..];
      var bytesUnreceived := waitingBytes - pendingBytes;
      if |read| - from < bytesUnreceived {
        assert coming == read[from..from + (|read| - from)];
        GatherRound(read, from, |read| - from, stream);
        return 0, true;
      }
      assert coming[..bytesUnreceived] == read[from..from + bytesUnreceived];
      assert coming[bytesUnreceived..] == read[from + bytesUnreceived..];
      CompleteRound(read, from, bytesUnreceived, stream, coming);
      return bytesUnreceived, false;
    }

    // The loop over the bytes of one completed read.
    method ReadAll(read: seq<byte>, ghost stream: seq<byte>)
      requires Valid() && Reading(stream, read)
      modifies this`isWaitingPacketSize, this`waitingBytes, this`pendingBytes, this`frames, receiveBuffer
      ensures Reading(stream, [])
    {
      hide Client.Reading, Client.Tail, LengthsWithin;
      var bytesTransferred, bytesProcessed, ended := |read|, 0, false;
      assert read[0..] == read;
      while bytesTransferred > 0 && !ended
        invariant 0 <= bytesProcessed && 0 <= bytesTransferred && bytesProcessed + bytesTransferred == |read|
        invariant if ended then Reading(stream, []) else Valid() && Reading(stream, read[bytesProcessed..])
        decreases !ended, 2 * bytesTransferred + if isWaitingPacketSize then 0 else 1
      {
        var used;
        used, ended := Round(read, bytesProcessed, stream);
        if !ended {
          bytesTransferred := bytesTransferred - used;
          bytesProcessed := bytesProcessed + used;
        }
      }
      if !ended {
        assert read[bytesProcessed..] == [];
      }
    }

    // One completed read, whose bytes are only looked at.
    method ProcessRead(read: seq<byte>)
      requires InStep()
      requires LengthsWithin(received + read, receiveBuffer.Length)
      modifies this, receiveBuffer
      ensures InStep() && received == old(received) + read
    {
      ValidInStep();
      hide Client.Valid, Client.Reading, Client.Tail, Client.InStep, LengthsWithin;
      ghost var stream := received + read;
      Arrive(read);
      ReadAll(read, stream);
      received := stream;
      AllRead(stream);
    }

    lemma AllRead(stream: seq<byte>)
      requires Reading(stream, []) && received == stream
      ensures InStep()
    {
    }

    method GatherRound(read: seq<byte>, from: nat, count: nat, ghost stream: seq<byte>)
      requires from + count <= |read|
      requires Reading(stream, read[from..from + count]) && 0 < count < waitingBytes - pendingBytes
      modifies this`pendingBytes, receiveBuffer
      ensures Reading(stream, [])
    {
      hide Frames, Rest, LengthsWithin;
      Gather(read, from, count);
      assert Tail() + [] == Tail();
    }
  }

  lemma {:induction false} RequestsAreCounted<T>(produce: seq<byte> -> Option<T>, frames: seq<seq<byte>>)
    requires AllAccepted(produce, frames)
    ensures |Requests(produce, frames)| == |frames|
  {
    if frames != [] {
      RequestsAreCounted(produce, frames[1..]);
    }
  }

  // The two listeners, each having read the same bytes in whatever pieces: the requests of
  // one are those of the frames the other handed on, unless the stream stands just behind
  // an empty frame; with no empty frames they always agree.
  lemma FramersAgree<T(!new)>(listener: TcpListener<T>, conn: Connection<T>, sock: Socket, client: Client)
    requires listener.InStep(conn, sock) && client.InStep() && client.received == sock.delivered
    requires AllAccepted(listener.produce, Frames(sock.delivered))
    ensures conn.emitted == Requests(listener.produce, client.frames) <==> !EndsWithEmptyFrame(sock.delivered)
    ensures (forall f <- Frames(sock.delivered) :: f != []) ==> client.frames == Frames(sock.delivered)
  {
    client.HandedOn();
    hide Requests;
    var all := Frames(sock.delivered);
    assert all != [] ==> all[|all| - 1] in all;
    RequestsAreCounted(listener.produce, all);
    RequestsAreCounted(listener.produce, client.frames);
  }

  // What is read of the stream once the awaited body is complete.
  lemma BodyCompleted(n: nat, window: seq<byte>, coming: seq<byte>, missing: nat)
    requires n <= MAX_LENGTH && missing <= |coming| && |window| + missing == n
    ensures var stream := FixedInt(n, LENGTH_SIZE) + window + coming;
            && (forall max :: LengthsWithin(stream, max) ==> LengthsWithin(coming[missing..], max))
            && HasFrame(stream) && FirstFrame(stream) == window + coming[..missing] && AfterFrame(stream) == coming[missing..]
            && Frames(stream) == [window + coming[..missing]] + Frames(coming[missing..])
            && Rest(stream) == Rest(coming[missing..])
  {
    var body := window + coming[..missing];
    assert FixedInt(n, LENGTH_SIZE) + window + coming == Framed(body) + coming[missing..];
    FramedIsOneFrame(body, coming[missing..]);
  }
}
