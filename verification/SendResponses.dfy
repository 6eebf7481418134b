/** The sending half of the Linux TCP listener: pack each response once, then push its
    bytes to every connection it names, however little each send call takes. */
module SendResponses {
  import opened Bytes
  import opened EchoLayout
  import opened EchoMessage
  import opened Framing

  const SOCKET_ERROR := -1

  // How the kernel meets the next send call.
  datatype SendEvent = Take(count: nat) | Fail

  // What a connection has taken: its bytes, those of them before the first failed send, and
  // whether one has failed.
  datatype Line = Line(stream: seq<byte>, sound: seq<byte>, failed: bool) {
    predicate Whole() {
      sound <= stream && (!failed ==> sound == stream)
    }
  }

  class Peer {
    // The bytes the kernel has taken for this connection, and those before the first
    // failure.
    var stream: seq<byte>
    var sound: seq<byte>
    var failed: bool
    var script: seq<SendEvent>

    constructor (script: seq<SendEvent>)
      ensures State() == Line([], [], false)
    {
      stream, sound, failed, this.script := [], [], false, script;
    }

    function State(): Line
      reads this
    {
      Line(stream, sound, failed)
    }

    // At least one byte is taken, or the call fails.
    method Send(buf: array<byte>, at: nat, count: nat) returns (result: int)
      requires count > 0 && at + count <= buf.Length
      modifies this
      ensures result == SOCKET_ERROR || 1 <= result <= count
      ensures result == SOCKET_ERROR ==> failed && stream == old(stream) && sound == old(sound)
      ensures result != SOCKET_ERROR ==> failed == old(failed) && stream == old(stream) + buf[at..at + result]
      ensures result != SOCKET_ERROR ==> sound == old(sound) + if failed then [] else buf[at..at + result]
    {
      result := count;
      if script != [] {
        var event := script[0];
        script := script[1..];
        if event.Fail? {
          failed := true;
          return SOCKET_ERROR;
        }
        result := if event.count < 1 then 1 else if event.count < count then event.count else count;
      }
      stream := stream + buf[at..at + result];
      if !failed {
        sound := sound + buf[at..at + result];
      }
    }
  }

  // The partial-send loop.
  method SendPacket(sendBuf: array<byte>, pendingBytes: int, peer: Peer) returns (ghost sent: nat)
    requires pendingBytes <= sendBuf.Length
    modifies peer
    ensures sent <= sendBuf.Length && (sent == 0 || sent <= pendingBytes)
    ensures peer.stream == old(peer.stream) + sendBuf[..sent]
    ensures peer.sound == old(peer.sound) + if old(peer.failed) then [] else sendBuf[..sent]
    ensures old(peer.failed) ==> peer.failed
    ensures !peer.failed ==> sent == if pendingBytes > 0 then pendingBytes else 0
    ensures peer.failed && !old(peer.failed) ==> sent < pendingBytes
  {
    var sentBytes := 0;
    while sentBytes < pendingBytes
      invariant 0 <= sentBytes && (sentBytes == 0 || sentBytes <= pendingBytes)
      invariant peer.stream == old(peer.stream) + sendBuf[..sentBytes]
      invariant peer.sound == old(peer.sound) + if old(peer.failed) then [] else sendBuf[..sentBytes]
      invariant peer.failed == old(peer.failed)
    {
      ghost var taken := sendBuf[..sentBytes];
      var result := peer.Send(sendBuf, sentBytes, pendingBytes - sentBytes);
      if result == SOCKET_ERROR {
        break;
      }
      Associative(old(peer.stream), taken, sendBuf[sentBytes..sentBytes + result]);
      Associative(old(peer.sound), taken, sendBuf[sentBytes..sentBytes + result]);
      assert sendBuf[..sentBytes + result] == taken + sendBuf[sentBytes..sentBytes + result];
      sentBytes := sentBytes + result;
    }
    sent := sentBytes;
  }

  datatype Outgoing = Outgoing(response: EchoResponse, connIds: seq<Peer>)

  // The bytes that leave for one connection when a message is sent: all of the packet
  // while its size fits the int16 that Pack returns.
  function SentBytes(message: seq<byte>): seq<byte> {
    var length := ReturnedLength(message);
    ReturnedLengthFits(message);
    if length > 0 then Framed(message)[..length] else []
  }

  lemma ReturnedLengthFits(message: seq<byte>)
    ensures ReturnedLength(message) <= LENGTH_SIZE + |message|
    ensures LENGTH_SIZE + |message| < 0x8000 <==> ReturnedLength(message) == LENGTH_SIZE + |message|
  {
    RadixValues();
    var n := LENGTH_SIZE + |message|;
    PacketWriter.WrapAtMost(n, 2);
    if n < 0x8000 {
      WrapSmall(n, 2);
    }
  }

  ghost function MessageOf(out: Outgoing): seq<byte>
    reads out.response
  {
    MessageImage(out.response.msgId, out.response.Body())
  }

  // What leaves when a response is sent, and for which connections.
  datatype Packet = Packet(bytes: seq<byte>, connIds: seq<Peer>)

  ghost function PacketOf(out: Outgoing): Packet
    reads out.response
  {
    Packet(SentBytes(MessageOf(out)), out.connIds)
  }

  ghost function PacketsOf(outs: seq<Outgoing>): (packets: seq<Packet>)
    reads set out <- outs :: out.response
    ensures |packets| == |outs|
  {
    if outs == [] then [] else [PacketOf(outs[0])] + PacketsOf(outs[1..])
  }

  lemma {:induction false} PacketAt(outs: seq<Outgoing>, i: nat)
    requires i < |outs|
    ensures PacketsOf(outs)[i] == PacketOf(outs[i])
  {
    if i > 0 {
      PacketAt(outs[1..], i - 1);
    }
  }

  // The packets addressed to one connection: one for each time it is named.
  ghost function Addressed(peer: Peer, connIds: seq<Peer>, bytes: seq<byte>): seq<seq<byte>> {
    if connIds == [] then []
    else (if connIds[0] == peer then [bytes] else []) + Addressed(peer, connIds[1..], bytes)
  }

  // As many as there are places in the list that name it, and all alike.
  lemma {:induction false} AddressedIsCounted(peer: Peer, connIds: seq<Peer>, bytes: seq<byte>)
    ensures |Addressed(peer, connIds, bytes)| == multiset(connIds)[peer]
    ensures forall i | 0 <= i < |Addressed(peer, connIds, bytes)| :: Addressed(peer, connIds, bytes)[i] == bytes
  {
    if connIds != [] {
      AddressedIsCounted(peer, connIds[1..], bytes);
      FirstCounted(connIds, peer);
    }
  }

  lemma FirstCounted(connIds: seq<Peer>, peer: Peer)
    requires connIds != []
    ensures multiset(connIds)[peer] == multiset(connIds[1..])[peer] + if connIds[0] == peer then 1 else 0
  {
    assert connIds == [connIds[0]] + connIds[1..];
  }

  ghost function Row(peer: Peer, packets: seq<Packet>): seq<seq<byte>> {
    if packets == [] then []
    else Addressed(peer, packets[0].connIds, packets[0].bytes) + Row(peer, packets[1..])
  }

  // What one connection receives of all the packets when no send to it fails.
  ghost function StreamFor(peer: Peer, packets: seq<Packet>): seq<byte> {
    Concat(Row(peer, packets))
  }

  // A piece of each of these parts, from its start, one behind the other.
  ghost predicate Cut(row: seq<seq<byte>>, bytes: seq<byte>)
    decreases |row|
  {
    if row == [] then bytes == []
    else exists n: nat | n <= |row[0]| && n <= |bytes| :: bytes[..n] == row[0][..n] && Cut(row[1..], bytes[n..])
  }

  // All of these parts up to one of them, and a piece of that one short of its end.
  ghost predicate Stopped(row: seq<seq<byte>>, bytes: seq<byte>)
    decreases |row|
  {
    && row != []
    && (|| (bytes <= row[0] && |bytes| < |row[0]|)
        || (row[0] <= bytes && Stopped(row[1..], bytes[|row[0]|..])))
  }

  // A connection that has taken these parts: each whole while no send fails, all of them up
  // to the one whose send failed first, and from there on a piece of each.
  ghost predicate Taken(before: Line, after: Line, row: seq<seq<byte>>) {
    && (before.failed ==> after.failed && after.sound == before.sound)
    && (before.Whole() ==> after.Whole())
    && before.stream <= after.stream && Cut(row, after.stream[|before.stream|..])
    && (!after.failed ==> after.stream == before.stream + Concat(row) && after.sound == before.sound + Concat(row))
    && (after.failed && !before.failed ==>
          before.sound <= after.sound && Stopped(row, after.sound[|before.sound|..]))
  }

  lemma {:induction false} StoppedBefore(row: seq<seq<byte>>, bytes: seq<byte>, row': seq<seq<byte>>)
    requires Stopped(row, bytes)
    ensures Stopped(row + row', bytes)
    decreases |row|
  {
    assert (row + row')[0] == row[0] && (row + row')[1..] == row[1..] + row';
    if !(bytes <= row[0] && |bytes| < |row[0]|) {
      StoppedBefore(row[1..], bytes[|row[0]|..], row');
    }
  }

  lemma {:induction false} StoppedAfter(row: seq<seq<byte>>, row': seq<seq<byte>>, bytes': seq<byte>)
    requires Stopped(row', bytes')
    ensures Stopped(row + row', Concat(row) + bytes')
    decreases |row|
  {
    if row == [] {
      assert row + row' == row' && Concat(row) + bytes' == bytes';
    } else {
      StoppedAfter(row[1..], row', bytes');
      var rest := Concat(row[1..]) + bytes';
      Associative(row[0], Concat(row[1..]), bytes');
      assert (row + row')[0] == row[0] && (row + row')[1..] == row[1..] + row';
      assert (row[0] + rest)[|row[0]|..] == rest && row[0] <= row[0] + rest;
    }
  }

  // What has been stopped is the start of it all, and not the whole.
  lemma {:induction false} StoppedIsPrefix(row: seq<seq<byte>>, bytes: seq<byte>)
    requires Stopped(row, bytes)
    ensures bytes <= Concat(row) && |bytes| < |Concat(row)|
    decreases |row|
  {
    if !(bytes <= row[0] && |bytes| < |row[0]|) {
      StoppedIsPrefix(row[1..], bytes[|row[0]|..]);
      assert bytes == row[0] + bytes[|row[0]|..];
    }
  }

  lemma CutFirst(row: seq<seq<byte>>, bytes: seq<byte>) returns (n: nat)
    requires row != [] && Cut(row, bytes)
    ensures n <= |row[0]| && n <= |bytes| && bytes[..n] == row[0][..n] && Cut(row[1..], bytes[n..])
  {
    n :| n <= |row[0]| && n <= |bytes| && bytes[..n] == row[0][..n] && Cut(row[1..], bytes[n..]);
  }

  lemma CutAfter(part: seq<byte>, n: nat, row: seq<seq<byte>>, bytes: seq<byte>)
    requires n <= |part| && Cut(row, bytes)
    ensures Cut([part] + row, part[..n] + bytes)
  {
    var all := part[..n] + bytes;
    assert all[..n] == part[..n] && all[n..] == bytes && ([part] + row)[1..] == row;
  }

  lemma NothingBefore<T>(s: seq<T>)
    ensures [] + s == s
  {
  }

  lemma InTwo<T>(s: seq<T>, n: nat, t: seq<T>)
    requires n <= |s|
    ensures s + t == s[..n] + (s[n..] + t)
  {
    assert s == s[..n] + s[n..];
    Associative(s[..n], s[n..], t);
  }

  lemma {:induction false} CutOfAppend(row: seq<seq<byte>>, bytes: seq<byte>, row': seq<seq<byte>>, bytes': seq<byte>)
    requires Cut(row, bytes) && Cut(row', bytes')
    ensures Cut(row + row', bytes + bytes')
    decreases |row|
  {
    assert row == [] ==> bytes == [];
    hide Cut;
    if row == [] {
      NothingBefore(row');
      NothingBefore(bytes');
    } else {
      var n := CutFirst(row, bytes);
      CutOfAppend(row[1..], bytes[n..], row', bytes');
      CutAfter(row[0], n, row[1..] + row', bytes[n..] + bytes');
      InTwo(row, 1, row');
      InTwo(bytes, n, bytes');
      assert row[..1] == [row[0]];
    }
  }

  lemma TakenAgain(l0: Line, l1: Line, l2: Line, row: seq<seq<byte>>, row': seq<seq<byte>>)
    requires Taken(l0, l1, row) && Taken(l1, l2, row')
    ensures Taken(l0, l2, row + row')
  {
    CutOfAppend(row, l1.stream[|l0.stream|..], row', l2.stream[|l1.stream|..]);
    GrownTwice(l0.stream, l1.stream, l2.stream);
    ConcatOfAppend(row, row');
    Associative(l0.stream, Concat(row), Concat(row'));
    Associative(l0.sound, Concat(row), Concat(row'));
    if l2.failed && !l0.failed {
      SoundAgain(l0, l1, l2, row, row');
    }
    hide Cut, Concat, Stopped;
  }

  // The first failure, among the parts of one row or of the next.
  lemma SoundAgain(l0: Line, l1: Line, l2: Line, row: seq<seq<byte>>, row': seq<seq<byte>>)
    requires Taken(l0, l1, row) && Taken(l1, l2, row') && l2.failed && !l0.failed
    ensures l0.sound <= l2.sound && Stopped(row + row', l2.sound[|l0.sound|..])
  {
    hide Cut, Concat, Stopped;
    if l1.failed {
      StoppedBefore(row, l1.sound[|l0.sound|..], row');
    } else {
      var bytes' := l2.sound[|l1.sound|..];
      StoppedAfter(row, row', bytes');
      GrownTwice(l0.sound, l1.sound, l2.sound);
      assert l1.sound[|l0.sound|..] == Concat(row);
    }
  }

  lemma GrownTwice<T>(s0: seq<T>, s1: seq<T>, s2: seq<T>)
    requires s0 <= s1 <= s2
    ensures s0 <= s2 && s2[|s0|..] == s1[|s0|..] + s2[|s1|..]
  {
  }

  lemma TakenOne(before: Line, bytes: seq<byte>, n: nat, failed: bool)
    requires n <= |bytes| && (!failed ==> n == |bytes|)
    requires (before.failed ==> failed) && (failed && !before.failed ==> n < |bytes|)
    ensures Taken(before, Line(before.stream + bytes[..n], before.sound + (if before.failed then [] else bytes[..n]), failed), [bytes])
  {
    var piece := bytes[..n];
    CutAfter(bytes, n, [], []);
    assert [bytes] + [] == [bytes] && piece + [] == piece;
    assert (before.stream + piece)[|before.stream|..] == piece && (before.sound + piece)[|before.sound|..] == piece;
    assert Concat([bytes]) == bytes + Concat([bytes][1..]) == bytes;
    assert !before.failed && failed ==> Stopped([bytes], piece);
    hide Cut, Concat, Stopped;
  }

  lemma TakenNothing(l: Line)
    ensures Taken(l, l, [])
  {
  }

  ghost predicate Sendable(out: Outgoing, capacity: nat)
    reads out.response
  {
    && Sized(out.response.Body())
    && LENGTH_SIZE + |MessageOf(out)| <= capacity
  }

  lemma {:induction false} AddressedStep(peer: Peer, connIds: seq<Peer>, bytes: seq<byte>, i: nat)
    requires i < |connIds|
    ensures Addressed(peer, connIds[..i + 1], bytes) ==
            Addressed(peer, connIds[..i], bytes) + if connIds[i] == peer then [bytes] else []
  {
    assert connIds[..i + 1][0] == connIds[0];
    if i == 0 {
      assert connIds[..1][1..] == [];
    } else {
      AddressedStep(peer, connIds[1..], bytes, i - 1);
      assert connIds[..i + 1][1..] == connIds[1..][..i] && connIds[..i][1..] == connIds[1..][..i - 1];
    }
  }

  // The connections named, the one at position i the last.
  lemma AddressedNext(peer: Peer, connIds: seq<Peer>, bytes: seq<byte>, i: nat, l0: Line, l1: Line, l2: Line)
    requires i < |connIds|
    requires Taken(l0, l1, Addressed(peer, connIds[..i], bytes))
    requires Taken(l1, l2, if connIds[i] == peer then [bytes] else [])
    ensures Taken(l0, l2, Addressed(peer, connIds[..i + 1], bytes))
  {
    hide Taken;
    AddressedStep(peer, connIds, bytes, i);
    TakenAgain(l0, l1, l2, Addressed(peer, connIds[..i], bytes), if connIds[i] == peer then [bytes] else []);
  }

  method SendCopy(sendBuf: array<byte>, peer: Peer, pendingBytes: int, ghost bytes: seq<byte>)
    requires pendingBytes <= sendBuf.Length
    requires bytes == if pendingBytes > 0 then sendBuf[..pendingBytes] else []
    modifies peer
    ensures Taken(old(peer.State()), peer.State(), [bytes])
  {
    hide Taken;
    ghost var before := peer.State();
    var sent := SendPacket(sendBuf, pendingBytes, peer);
    assert sendBuf[..sent] == bytes[..sent];
    TakenOne(before, bytes, sent, peer.failed);
  }

  method SendToAll(sendBuf: array<byte>, connIds: seq<Peer>, pendingBytes: int, ghost bytes: seq<byte>)
    requires pendingBytes <= sendBuf.Length
    requires bytes == if pendingBytes > 0 then sendBuf[..pendingBytes] else []
    modifies connIds
    ensures forall peer <- connIds :: Taken(old(peer.State()), peer.State(), Addressed(peer, connIds, bytes))
  {
    hide Taken, Addressed, Peer.State;
    forall peer: Peer | peer in connIds ensures Taken(peer.State(), peer.State(), Addressed(peer, connIds[..0], bytes)) {
      AddressedNone(peer, bytes);
      TakenNothing(peer.State());
    }
    for i := 0 to |connIds|
      invariant forall peer <- connIds :: Taken(old(peer.State()), peer.State(), Addressed(peer, connIds[..i], bytes))
    {
      label Before:
      SendCopy(sendBuf, connIds[i], pendingBytes, bytes);
      forall peer: Peer | peer in connIds
        ensures Taken(old(peer.State()), peer.State(), Addressed(peer, connIds[..i + 1], bytes))
      {
        if peer != connIds[i] {
          TakenNothing(peer.State());
        }
        AddressedNext(peer, connIds, bytes, i, old(peer.State()), old@Before(peer.State()), peer.State());
      }
    }
    assert connIds[..|connIds|] == connIds;
  }

  lemma AddressedNone(peer: Peer, bytes: seq<byte>)
    ensures Addressed(peer, [], bytes) == []
  {
  }

  lemma {:induction false} NotAddressed(peer: Peer, connIds: seq<Peer>, bytes: seq<byte>)
    requires peer !in connIds
    ensures Addressed(peer, connIds, bytes) == []
  {
    if connIds != [] {
      NotAddressed(peer, connIds[1..], bytes);
    }
  }

  // One pass after another is one pass over both.
  lemma {:induction false} RowOfAppend(peer: Peer, packets: seq<Packet>, more: seq<Packet>)
    ensures Row(peer, packets + more) == Row(peer, packets) + Row(peer, more)
  {
    hide Addressed;
    if packets == [] {
      assert [] + more == more;
    } else {
      assert (packets + more)[1..] == packets[1..] + more;
      RowOfAppend(peer, packets[1..], more);
      Associative(Addressed(peer, packets[0].connIds, packets[0].bytes), Row(peer, packets[1..]), Row(peer, more));
    }
  }

  lemma StreamOfAppend(peer: Peer, packets: seq<Packet>, more: seq<Packet>)
    ensures StreamFor(peer, packets + more) == StreamFor(peer, packets) + StreamFor(peer, more)
  {
    RowOfAppend(peer, packets, more);
    ConcatOfAppend(Row(peer, packets), Row(peer, more));
  }

  // The packet, alone at the start of the buffer.
  method PackOne(sendBuf: array<byte>, out: Outgoing) returns (pendingBytes: int, ghost bytes: seq<byte>)
    requires Sendable(out, sendBuf.Length)
    modifies sendBuf, out.response.state
    ensures pendingBytes <= sendBuf.Length && bytes == SentBytes(MessageOf(out))
    ensures bytes == if pendingBytes > 0 then sendBuf[..pendingBytes] else []
  {
    ghost var message, image := MessageOf(out), sendBuf[..];
    bytes := SentBytes(message);
    hide MessageImage, Framed, BodyImage, ReturnedLength;
    ReturnedLengthFits(message);
    pendingBytes := out.response.Pack(sendBuf, 0);
    SpliceWindow(image, 0, Framed(message));
    assert pendingBytes > 0 ==> sendBuf[..pendingBytes] == bytes by {
      assert sendBuf[..][..0 + |Framed(message)|] == Framed(message);
    }
  }

  // One response: packed at the start of the buffer, and sent.
  method SendOne(sendBuf: array<byte>, out: Outgoing, ghost peers: set<Peer>)
    requires Sendable(out, sendBuf.Length)
    requires forall peer <- out.connIds :: peer in peers
    modifies sendBuf, peers, out.response.state
    ensures forall peer <- peers ::
              Taken(old(peer.State()), peer.State(), Addressed(peer, out.connIds, SentBytes(MessageOf(out))))
  {
    hide Sendable, MessageOf, SentBytes, Addressed, Taken, Peer.State;
    var pendingBytes, bytes := PackOne(sendBuf, out);
    SendToAll(sendBuf, out.connIds, pendingBytes, bytes);
    forall peer | peer in peers && peer !in out.connIds
      ensures Taken(old(peer.State()), peer.State(), Addressed(peer, out.connIds, bytes))
    {
      NotAddressed(peer, out.connIds, bytes);
      TakenNothing(peer.State());
    }
  }

  // Part way through the packets, the connections have taken these.
  ghost predicate SentUpTo(peers: set<Peer>, packets: seq<Packet>, i: nat, lines: map<Peer, Line>)
    requires i <= |packets| && lines.Keys == peers
    reads peers
  {
    forall peer <- peers :: Taken(lines[peer], peer.State(), Row(peer, packets[..i]))
  }

  lemma OnePacket(peer: Peer, packets: seq<Packet>, i: nat)
    requires i < |packets|
    ensures Row(peer, packets[..i + 1]) == Row(peer, packets[..i]) + Addressed(peer, packets[i].connIds, packets[i].bytes)
  {
    var p := [packets[i]];
    assert packets[..i + 1] == packets[..i] + p;
    RowOfAppend(peer, packets[..i], p);
    assert Row(peer, p) == Addressed(peer, p[0].connIds, p[0].bytes) + Row(peer, p[1..]);
  }

  // The response at position i, as a step of the pass over all.
  method SendNext(sendBuf: array<byte>, out: Outgoing, ghost peers: set<Peer>,
                  ghost packets: seq<Packet>, ghost i: nat, ghost lines: map<Peer, Line>)
    requires i < |packets| && packets[i] == PacketOf(out) && Sendable(out, sendBuf.Length)
    requires forall peer <- out.connIds :: peer in peers
    requires lines.Keys == peers && SentUpTo(peers, packets, i, lines)
    modifies sendBuf, peers, out.response.state
    ensures SentUpTo(peers, packets, i + 1, lines)
  {
    hide Sendable, MessageOf, SentBytes, Addressed, Row, Taken, Peer.State;
    SendOne(sendBuf, out, peers);
    forall peer | peer in peers
      ensures Taken(lines[peer], peer.State(), Row(peer, packets[..i + 1]))
    {
      OnePacket(peer, packets, i);
      TakenAgain(lines[peer], old(peer.State()), peer.State(), Row(peer, packets[..i]),
                 Addressed(peer, packets[i].connIds, packets[i].bytes));
    }
  }

  // These responses wait to be sent, as these packets.
  ghost predicate Queued(outs: seq<Outgoing>, packets: seq<Packet>, capacity: nat, peers: set<Peer>)
    reads set out <- outs :: out.response
  {
    && packets == PacketsOf(outs)
    && forall i | 0 <= i < |outs| ::
         Sendable(outs[i], capacity) && forall peer <- outs[i].connIds :: peer in peers
  }

  // The loop over the responses.
  method SendQueued(sendBuf: array<byte>, outs: seq<Outgoing>, ghost peers: set<Peer>,
                    ghost packets: seq<Packet>, ghost lines: map<Peer, Line>)
    requires Queued(outs, packets, sendBuf.Length, peers)
    requires lines.Keys == peers && SentUpTo(peers, packets, 0, lines)
    modifies sendBuf, peers, set out <- outs :: out.response.state
    ensures Queued(outs, packets, sendBuf.Length, peers)
    ensures SentUpTo(peers, packets, |packets|, lines)
  {
    hide Sendable, PacketsOf, PacketOf, SentUpTo;
    for i := 0 to |outs|
      invariant Queued(outs, packets, sendBuf.Length, peers) && |packets| == |outs|
      invariant SentUpTo(peers, packets, i, lines)
    {
      PacketAt(outs, i);
      SendNext(sendBuf, outs[i], peers, packets, i, lines);
    }
  }

  // One pass of the sender over the responses it took.
  method SendAll(sendBuf: array<byte>, outs: seq<Outgoing>, ghost peers: set<Peer>)
    requires forall out <- outs :: Sendable(out, sendBuf.Length)
    requires forall out <- outs, peer <- out.connIds :: peer in peers
    modifies sendBuf, peers, set out <- outs :: out.response.state
    ensures forall peer <- peers :: Taken(old(peer.State()), peer.State(), Row(peer, PacketsOf(outs)))
  {
    ghost var packets, lines := PacketsOf(outs), map peer | peer in peers :: peer.State();
    hide Sendable, PacketsOf, PacketOf, SentUpTo, StreamFor, Taken, Peer.State;
    NoneSent(peers, packets, lines);
    SendQueued(sendBuf, outs, peers, packets, lines);
    AllSent(peers, packets, lines);
  }

  lemma NoneSent(peers: set<Peer>, packets: seq<Packet>, lines: map<Peer, Line>)
    requires lines.Keys == peers && forall peer <- peers :: peer.State() == lines[peer]
    ensures SentUpTo(peers, packets, 0, lines)
  {
    hide Taken, Peer.State;
    forall peer | peer in peers ensures Taken(lines[peer], peer.State(), Row(peer, packets[..0])) {
      TakenNothing(peer.State());
    }
  }

  lemma AllSent(peers: set<Peer>, packets: seq<Packet>, lines: map<Peer, Line>)
    requires lines.Keys == peers && SentUpTo(peers, packets, |packets|, lines)
    ensures forall peer <- peers :: Taken(lines[peer], peer.State(), Row(peer, packets))
  {
    hide Taken, Row, Peer.State;
    assert packets[..|packets|] == packets;
  }
}
