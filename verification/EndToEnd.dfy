/** From responses to requests: what one side packs and sends, the other side's framer and
    producer give back. */
module EndToEnd {
  import opened Bytes
  import opened EchoLayout
  import opened EchoMessage
  import opened Framing
  import opened Options
  import opened SendResponses
  import opened TcpListenerUnix

  function ImageOf(m: Message): seq<byte> {
    MessageImage(m.msgId, m.body)
  }

  // A message whose packet size fits the int16 that carries it.
  predicate Framable(m: Message) {
    Sized(m.body) && LENGTH_SIZE + |ImageOf(m)| < 0x8000
  }

  // What a packet leaves in a buffer, seen from the start of its body.
  lemma BodyInBuffer(s: seq<byte>, at: nat, msgId: uint16, x: EchoBody)
    requires at + LENGTH_SIZE + |MessageImage(msgId, x)| <= |s|
    ensures var r, end := Splice(s, at, Framed(MessageImage(msgId, x))), at + LENGTH_SIZE + |MessageImage(msgId, x)|;
            r[at + LENGTH_SIZE + 2..] == BodyImage(x) + s[end..]
  {
    hide FixedInt, BodyImage;
    var r := Splice(s, at, Framed(MessageImage(msgId, x)));
    var prefix := s[..at] + FixedInt(|MessageImage(msgId, x)|, LENGTH_SIZE) + FixedInt(msgId, 2);
    var end := at + LENGTH_SIZE + |MessageImage(msgId, x)|;
    assert r == prefix + (BodyImage(x) + s[end..]);
    assert |prefix| == at + LENGTH_SIZE + 2;
  }

  // A body packed and unpacked through one buffer, whatever else the buffer holds: all
  // sixteen fields come back, and the reader stops where the writer did.
  method Loopback(response: EchoResponse, request: EchoRequest, final: array<byte>, offset: nat)
    requires Sized(response.Body()) && request.state != response.state
    requires offset + LENGTH_SIZE + |MessageImage(response.msgId, response.Body())| <= final.Length
    modifies final, response.state, request, request.state
    ensures request.Body() == ClipBody(response.Body())
    ensures request.Body() == response.Body() <==> Short(response.Body())
    ensures request.state.Position() == offset + LENGTH_SIZE + |MessageImage(response.msgId, response.Body())|
  {
    ghost var s, x, end := final[..], response.Body(), offset + LENGTH_SIZE + |MessageImage(response.msgId, response.Body())|;
    BodyInBuffer(s, offset, response.msgId, x);
    ReadOfBody(x, s[end..]);
    BodyRoundTrip(x, s[end..]);
    hide Framed, BodyImage, ReadBody, Splice, MessageImage, ClipBody, Short;
    var _ := response.Pack(final, offset);
    assert final[offset + LENGTH_SIZE + 2..] == final[..][offset + LENGTH_SIZE + 2..];
    request.Unpack(final, offset + LENGTH_SIZE + 2);
    assert |request.state.Ahead()| == |s[end..]|;
  }

  // What leaves for these messages: their packets, and the stream these make.
  function SentRow(ms: seq<Message>): seq<seq<byte>> {
    if ms == [] then [] else [SentBytes(ImageOf(ms[0]))] + SentRow(ms[1..])
  }

  function SentStream(ms: seq<Message>): seq<byte> {
    Concat(SentRow(ms))
  }

  // The messages up to the first that is too long for a receiver.
  function Fitting(ms: seq<Message>, maxPacketBytes: nat): seq<Message> {
    if ms == [] || |ImageOf(ms[0])| > maxPacketBytes then [] else [ms[0]] + Fitting(ms[1..], maxPacketBytes)
  }

  // The messages whose packets stand whole in a stream that starts with them.
  function WholeIn(ms: seq<Message>, stream: seq<byte>): seq<Message> {
    if ms == [] || |SentBytes(ImageOf(ms[0]))| > |stream| then []
    else [ms[0]] + WholeIn(ms[1..], stream[|SentBytes(ImageOf(ms[0]))|..])
  }

  predicate EachSized(ms: seq<Message>) {
    forall i | 0 <= i < |ms| :: Sized(ms[i].body)
  }

  predicate EachFramable(ms: seq<Message>) {
    forall i | 0 <= i < |ms| :: Framable(ms[i])
  }

  function Images(ms: seq<Message>): seq<seq<byte>> {
    if ms == [] then [] else [ImageOf(ms[0])] + Images(ms[1..])
  }

  // The messages as the receiver gets them: equal, but for strings of 65536 bytes and more.
  function Received(ms: seq<Message>): (r: seq<Message>)
    ensures |r| == |ms|
  {
    if ms == [] then [] else [Message(ms[0].msgId, ClipBody(ms[0].body))] + Received(ms[1..])
  }

  // They are the messages sent exactly when no string is too long.
  lemma {:induction false} ReceivedUnchanged(ms: seq<Message>)
    ensures Received(ms) == ms <==> forall m <- ms :: Short(m.body)
  {
    hide ClipBody, Short;
    if ms != [] {
      ReceivedUnchanged(ms[1..]);
      ClipBodyKeeps(ms[0].body);
      assert ms == [ms[0]] + ms[1..];
      assert Received(ms)[0].body == ClipBody(ms[0].body) && Received(ms)[1..] == Received(ms[1..]);
    }
  }

  // A packet stands in the stream as one frame exactly when its size is under 32768 bytes: a
  // larger one is cut short, or not sent at all.
  lemma SentIsOneFrame(message: seq<byte>)
    ensures Frames(SentBytes(message)) == [message] <==> LENGTH_SIZE + |message| < 0x8000
  {
    ReturnedLengthFits(message);
    if LENGTH_SIZE + |message| < 0x8000 {
      assert SentBytes(message) == Framed(message) + [];
      FramedIsOneFrame(message, []);
    } else {
      var s := SentBytes(message);
      assert |s| < 0x8000;
      if HasFrame(s) {
        assert |FirstFrame(s)| < |message|;
        assert Frames(s)[0] == FirstFrame(s);
      }
    }
  }

  lemma SentWhole(message: seq<byte>)
    requires LENGTH_SIZE + |message| < 0x8000
    ensures SentBytes(message) == Framed(message)
  {
    ReturnedLengthFits(message);
  }

  // Every message fits exactly when none stops the row.
  lemma {:induction false} AllFitting(ms: seq<Message>, maxPacketBytes: nat)
    ensures Fitting(ms, maxPacketBytes) <= ms
    ensures Fitting(ms, maxPacketBytes) == ms <==> forall m <- ms :: |ImageOf(m)| <= maxPacketBytes
  {
    hide MessageImage;
    if ms != [] {
      AllFitting(ms[1..], maxPacketBytes);
      assert ms == [ms[0]] + ms[1..];
    }
  }

  // The producer of echo messages does not look behind a frame that holds a whole message;
  // any other frame it may read past its end.
  lemma LocalExactly(f: seq<byte>)
    ensures Local(MakeMessage, f) <==> MakeMessage(f).Some? || forall t :: MakeMessage(f + t).None?
  {
    hide MakeMessage;
    if MakeMessage(f).Some? {
      forall t ensures MakeMessage(f + t) == MakeMessage(f) {
        MessageFollowed(f, t);
      }
    } else if Local(MakeMessage, f) {
      assert forall t :: MakeMessage(f + t) == MakeMessage(f);
    }
  }

  // So a stream whose frames hold whole messages is one that the receiver takes.
  lemma MessagesAreLocal(s: seq<byte>)
    requires AllAccepted(MakeMessage, Frames(s))
    ensures FrameLocal(MakeMessage, s)
  {
    hide MakeMessage, Frames;
    forall f | f in Frames(s) ensures Local(MakeMessage, f) {
      LocalExactly(f);
    }
  }

  // Not every stream is: behind an empty frame the next one is read.
  lemma EmptyFrameIsNotLocal(msgId: uint16, x: EchoBody)
    requires Sized(x)
    ensures !Local(MakeMessage, [])
  {
    hide MakeMessage, MessageImage, ClipBody;
    EmptyFrameReadsOn(msgId, x);
  }

  lemma {:induction false} RequestsOfImages(ms: seq<Message>)
    requires EachSized(ms)
    ensures AllAccepted(MakeMessage, Images(ms)) && Requests(MakeMessage, Images(ms)) == Received(ms)
  {
    if ms != [] {
      var m := ms[0];
      hide MakeMessage, MessageImage, ClipBody;
      MakesMessage(m);
      RequestsOfImages(ms[1..]);
    }
  }

  lemma MakesMessage(m: Message)
    requires Sized(m.body)
    ensures MakeMessage(ImageOf(m)) == Some(Message(m.msgId, ClipBody(m.body)))
  {
    ReadOfMessage(m.msgId, m.body, []);
    hide ReadMessage, MessageImage;
    assert ImageOf(m) + [] == ImageOf(m);
  }

  // What the sender emits meets every assumption the receiver makes, and its frames are
  // the messages.
  lemma {:induction false} StreamMeetsReceiver(ms: seq<Message>)
    requires EachFramable(ms)
    ensures Frames(SentStream(ms)) == Images(ms) && Rest(SentStream(ms)) == []
    ensures LengthsWithin(SentStream(ms), MAX_LENGTH)
  {
    if ms != [] {
      assert Framable(ms[0]);
      StreamMeetsReceiver(ms[1..]);
      hide MessageImage;
      SentWhole(ImageOf(ms[0]));
      FramedIsOneFrame(ImageOf(ms[0]), SentStream(ms[1..]));
    }
  }

  lemma PrefixMeetsReceiver(ms: seq<Message>, stream: seq<byte>, lost: seq<byte>)
    requires EachFramable(ms)
    requires stream + lost == SentStream(ms)
    ensures LengthsWithin(stream, MAX_LENGTH) && FrameLocal(MakeMessage, stream)
    ensures AllAccepted(MakeMessage, Frames(stream))
  {
    StreamMeetsReceiver(ms);
    RequestsOfImages(ms);
    hide MakeMessage, MessageImage;
    LengthsOfPrefix(stream, lost, MAX_LENGTH);
    ReadInTwo(stream, lost);
    forall f | f in Frames(stream) ensures MakeMessage(f).Some? {
      assert f in Frames(stream + lost);
    }
    MessagesAreLocal(stream);
  }

  // A stream that stops short of the first packet holds no frame, and what it says of a
  // length is the length of the first message.
  lemma StopsInFirst(image: seq<byte>, delivered: seq<byte>, coming: seq<byte>, more: seq<byte>)
    requires |image| < 0x8000 && delivered + coming == Framed(image) + more && |delivered| < |Framed(image)|
    ensures Frames(delivered) == []
    ensures forall max :: !LengthsWithin(delivered, max) ==> |image| > max
  {
    FramedIsOneFrame(image, more);
    FirstOfAppend(delivered, coming);
  }

  // The receiver has read the messages whose packets are in, none of them longer than it
  // takes. If a length that it does not take is in, these are all before the first message
  // too long.
  ghost predicate SoFar(ms: seq<Message>, maxPacketBytes: nat, delivered: seq<byte>, coming: seq<byte>) {
    var whole, fitting := WholeIn(ms, delivered), Fitting(ms, maxPacketBytes);
    && Frames(delivered) == Images(whole) && whole <= fitting
    && (coming == [] ==> whole == ms)
    && (!LengthsWithin(delivered, maxPacketBytes) ==> whole == fitting != ms)
  }

  lemma {:induction false} DeliveredSoFar(ms: seq<Message>, maxPacketBytes: nat, delivered: seq<byte>, coming: seq<byte>)
    requires EachFramable(ms)
    requires delivered + coming == SentStream(ms) && FramesFit(delivered, maxPacketBytes)
    ensures SoFar(ms, maxPacketBytes, delivered, coming)
    decreases |ms|
  {
    hide MessageImage, SoFar, FramesFit, Sized, EachFramable, Framed, SentStream, SentBytes;
    if ms == [] {
      NoStream();
      NothingSoFar(maxPacketBytes, delivered, coming);
    } else {
      FirstFramable(ms);
      var image, later := ImageOf(ms[0]), SentStream(ms[1..]);
      if |delivered| < |Framed(image)| {
        StopsSoFar(ms, maxPacketBytes, delivered, coming, later);
      } else {
        OneIn(image, delivered, coming, later, maxPacketBytes);
        DeliveredSoFar(ms[1..], maxPacketBytes, delivered[|Framed(image)|..], coming);
        OneMoreSoFar(ms, maxPacketBytes, delivered, coming);
      }
    }
  }

  lemma NoStream()
    ensures SentStream([]) == []
  {
  }

  lemma FirstFramable(ms: seq<Message>)
    requires ms != [] && EachFramable(ms)
    ensures Framable(ms[0]) && EachFramable(ms[1..]) && |ImageOf(ms[0])| < 0x8000
    ensures SentBytes(ImageOf(ms[0])) == Framed(ImageOf(ms[0]))
    ensures SentStream(ms) == Framed(ImageOf(ms[0])) + SentStream(ms[1..])
  {
    hide MessageImage, Sized;
    SentWhole(ImageOf(ms[0]));
  }

  lemma NothingSoFar(maxPacketBytes: nat, delivered: seq<byte>, coming: seq<byte>)
    requires delivered + coming == []
    ensures SoFar([], maxPacketBytes, delivered, coming)
  {
    assert delivered == [] && coming == [];
  }

  lemma StopsSoFar(ms: seq<Message>, maxPacketBytes: nat, delivered: seq<byte>, coming: seq<byte>, later: seq<byte>)
    requires ms != [] && Framable(ms[0]) && SentBytes(ImageOf(ms[0])) == Framed(ImageOf(ms[0]))
    requires delivered + coming == Framed(ImageOf(ms[0])) + later && |delivered| < |Framed(ImageOf(ms[0]))|
    ensures SoFar(ms, maxPacketBytes, delivered, coming)
  {
    hide MessageImage, SentBytes;
    StopsInFirst(ImageOf(ms[0]), delivered, coming, later);
    assert |delivered + coming| > |delivered|;
    hide Frames, LengthsWithin, Framed;
  }

  lemma OneMoreSoFar(ms: seq<Message>, maxPacketBytes: nat, delivered: seq<byte>, coming: seq<byte>)
    requires ms != [] && |ImageOf(ms[0])| <= maxPacketBytes
    requires SentBytes(ImageOf(ms[0])) == Framed(ImageOf(ms[0])) && |delivered| >= |Framed(ImageOf(ms[0]))|
    requires var more := delivered[|Framed(ImageOf(ms[0]))|..];
             && SoFar(ms[1..], maxPacketBytes, more, coming)
             && Frames(delivered) == [ImageOf(ms[0])] + Frames(more)
             && (LengthsWithin(more, maxPacketBytes) ==> LengthsWithin(delivered, maxPacketBytes))
    ensures SoFar(ms, maxPacketBytes, delivered, coming)
  {
    var more := delivered[|Framed(ImageOf(ms[0]))|..];
    hide MessageImage, SentBytes, Framed, Frames, LengthsWithin;
    var whole, fitting := WholeIn(ms[1..], more), Fitting(ms[1..], maxPacketBytes);
    assert WholeIn(ms, delivered) == [ms[0]] + whole && Fitting(ms, maxPacketBytes) == [ms[0]] + fitting;
    assert Images([ms[0]] + whole) == [ImageOf(ms[0])] + Images(whole) by { assert ([ms[0]] + whole)[1..] == whole; }
    hide WholeIn, Fitting, Images;
    Prefixed(ms[0], whole, fitting);
    Prefixed(ms[0], fitting, ms[1..]);
    Prefixed(ms[0], whole, ms[1..]);
    assert ms == [ms[0]] + ms[1..];
  }

  lemma Prefixed<T>(first: T, s: seq<T>, t: seq<T>)
    ensures [first] + s == [first] + t <==> s == t
    ensures s <= t ==> [first] + s <= [first] + t
  {
    assert ([first] + s)[1..] == s && ([first] + t)[1..] == t;
  }

  lemma OneIn(image: seq<byte>, delivered: seq<byte>, coming: seq<byte>, later: seq<byte>, max: nat)
    requires |image| < 0x8000 && delivered + coming == Framed(image) + later && |delivered| >= |Framed(image)|
    requires FramesFit(delivered, max)
    ensures var more := delivered[|Framed(image)|..];
            && more + coming == later && FramesFit(more, max) && |image| <= max
            && Frames(delivered) == [image] + Frames(more)
            && (LengthsWithin(more, max) ==> LengthsWithin(delivered, max))
  {
    var more := delivered[|Framed(image)|..];
    SplitFront(Framed(image), delivered, coming, later);
    FramedIsOneFrame(image, more);
    hide Framed;
    assert Frames(delivered) == [image] + Frames(more);
    assert image == Frames(delivered)[0];
    assert forall f <- Frames(more) :: f in Frames(delivered);
  }

  lemma SplitFront(a: seq<byte>, s: seq<byte>, t: seq<byte>, later: seq<byte>)
    requires s + t == a + later && |s| >= |a|
    ensures s == a + s[|a|..] && s[|a|..] + t == later
  {
    assert (s + t)[..|a|] == s[..|a|] && (a + later)[..|a|] == a;
    assert (s + t)[|a|..] == s[|a|..] + t && (a + later)[|a|..] == later;
  }

  // What the producer has made by then.
  lemma MadeSoFar(ms: seq<Message>, maxPacketBytes: nat, delivered: seq<byte>, coming: seq<byte>)
    requires EachFramable(ms)
    requires SoFar(ms, maxPacketBytes, delivered, coming)
    ensures Requests(MakeMessage, Frames(delivered)) == Received(WholeIn(ms, delivered))
    ensures Received(WholeIn(ms, delivered)) <= Received(Fitting(ms, maxPacketBytes))
  {
    hide WholeIn, Fitting, MakeMessage, LengthsWithin, Frames, SoFar, Received, Requests, Images, EachFramable, EachSized, AllAccepted;
    var whole, fitting := WholeIn(ms, delivered), Fitting(ms, maxPacketBytes);
    WholeSoFar(ms, maxPacketBytes, delivered, coming);
    AllFitting(ms, maxPacketBytes);
    ReceivedPrefix(whole, fitting);
    AllSized(ms, whole);
    RequestsOfImages(whole);
  }

  lemma WholeSoFar(ms: seq<Message>, maxPacketBytes: nat, delivered: seq<byte>, coming: seq<byte>)
    requires SoFar(ms, maxPacketBytes, delivered, coming)
    ensures WholeIn(ms, delivered) <= Fitting(ms, maxPacketBytes) && Frames(delivered) == Images(WholeIn(ms, delivered))
  {
  }

  lemma ReceivedPrefix(part: seq<Message>, ms: seq<Message>)
    requires part <= ms
    ensures Received(part) <= Received(ms)
  {
    hide Received;
    assert ms == part + ms[|part|..];
    ReceivedOfAppend(part, ms[|part|..]);
  }

  lemma AllSized(ms: seq<Message>, part: seq<Message>)
    requires part <= ms && EachFramable(ms)
    ensures EachSized(part)
  {
    hide MessageImage, Sized;
    forall i | 0 <= i < |part| ensures Sized(part[i].body) {
      assert part[i] == ms[i];
    }
  }

  lemma {:induction false} ReceivedOfAppend(ms: seq<Message>, more: seq<Message>)
    ensures Received(ms + more) == Received(ms) + Received(more)
  {
    hide ClipBody;
    if ms == [] {
      assert ms + more == more;
    } else {
      assert (ms + more)[1..] == ms[1..] + more;
      ReceivedOfAppend(ms[1..], more);
    }
  }

  // ---- The messages of one connection.

  // A message for each time a connection is named.
  ghost function Copies(peer: Peer, connIds: seq<Peer>, m: Message): seq<Message> {
    if connIds == [] then [] else (if connIds[0] == peer then [m] else []) + Copies(peer, connIds[1..], m)
  }

  ghost function MessagesFor(peer: Peer, outs: seq<Outgoing>): seq<Message>
    reads set out <- outs :: out.response
  {
    if outs == [] then []
    else Copies(peer, outs[0].connIds, Message(outs[0].response.msgId, outs[0].response.Body())) + MessagesFor(peer, outs[1..])
  }

  lemma {:induction false} SentRowOfAppend(ms: seq<Message>, more: seq<Message>)
    ensures SentRow(ms + more) == SentRow(ms) + SentRow(more)
  {
    hide SentBytes, MessageImage;
    if ms == [] {
      assert ms + more == more;
    } else {
      assert (ms + more)[1..] == ms[1..] + more;
      SentRowOfAppend(ms[1..], more);
    }
  }

  lemma {:induction false} AddressedIsSent(peer: Peer, connIds: seq<Peer>, m: Message)
    ensures Addressed(peer, connIds, SentBytes(ImageOf(m))) == SentRow(Copies(peer, connIds, m))
  {
    hide SentBytes, MessageImage;
    if connIds != [] {
      var first: seq<Message> := if connIds[0] == peer then [m] else [];
      AddressedIsSent(peer, connIds[1..], m);
      SentRowOfAppend(first, Copies(peer, connIds[1..], m));
      assert SentRow(first) == if connIds[0] == peer then [SentBytes(ImageOf(m))] else [];
    }
  }

  // The packets addressed to a connection are those of its messages.
  lemma {:induction false} RowIsSent(peer: Peer, outs: seq<Outgoing>)
    ensures Row(peer, PacketsOf(outs)) == SentRow(MessagesFor(peer, outs))
  {
    if outs != [] {
      var m := Message(outs[0].response.msgId, outs[0].response.Body());
      var copies, more := Copies(peer, outs[0].connIds, m), MessagesFor(peer, outs[1..]);
      RowIsSent(peer, outs[1..]);
      assert PacketsOf(outs)[0] == Packet(SentBytes(ImageOf(m)), outs[0].connIds) && PacketsOf(outs)[1..] == PacketsOf(outs[1..]);
      hide SentBytes, MessageImage;
      AddressedIsSent(peer, outs[0].connIds, m);
      SentRowOfAppend(copies, more);
    }
  }

  // Before any failure all packets are out; with one, a packet is missing.
  lemma SoundMessages(ms: seq<Message>, line: Line)
    requires Taken(Line([], [], false), line, SentRow(ms))
    ensures line.sound <= SentStream(ms) && line.sound <= line.stream
    ensures !line.failed <==> WholeIn(ms, line.sound) == ms
  {
    SoundIsPart(SentRow(ms), line);
    hide Taken, WholeIn, SentRow;
    WholeInAll(ms, line.sound);
  }

  lemma SoundIsPart(row: seq<seq<byte>>, line: Line)
    requires Taken(Line([], [], false), line, row)
    ensures line.sound <= Concat(row) && line.sound <= line.stream
    ensures !line.failed <==> |line.sound| >= |Concat(row)|
  {
    hide Cut, Concat;
    assert Line([], [], false).Whole();
    if line.failed {
      assert line.sound[0..] == line.sound;
      hide Stopped;
      StoppedIsPrefix(row, line.sound);
    } else {
      assert [] + Concat(row) == Concat(row);
    }
  }

  lemma {:induction false} WholeInAll(ms: seq<Message>, stream: seq<byte>)
    ensures WholeIn(ms, stream) == ms <==> |stream| >= |SentStream(ms)|
    decreases |ms|
  {
    hide SentBytes, MessageImage;
    if ms != [] {
      var n := |SentBytes(ImageOf(ms[0]))|;
      if n <= |stream| {
        WholeInAll(ms[1..], stream[n..]);
      }
      assert ms == [ms[0]] + ms[1..];
    }
  }

  // The sending half of a session: what stands for one of the connections.
  method SendStream(outs: seq<Outgoing>, sendBuf: array<byte>, ghost peers: set<Peer>, peer: Peer)
    requires forall out <- outs :: Sendable(out, sendBuf.Length)
    requires forall out <- outs, p <- out.connIds :: p in peers
    requires peer in peers && peer.State() == Line([], [], false)
    modifies sendBuf, peers, set out <- outs :: out.response.state
    ensures Taken(Line([], [], false), peer.State(), SentRow(MessagesFor(peer, outs)))
  {
    hide Sendable, SentRow, Row, PacketsOf, MessagesFor, Taken;
    SendAll(sendBuf, outs, peers);
    RowIsSent(peer, outs);
  }

  // A whole session: the responses packed and sent to all the connections they name, under
  // any pattern of partial and failed sends; and what the other end of any one of these
  // connections makes of its bytes before the first failed send, over any number of wake-ups
  // under any script of recv results.
  method Session(outs: seq<Outgoing>, sendBuf: array<byte>, ghost peers: set<Peer>, peer: Peer,
                 maxPacketBytes: nat, wakeUps: seq<seq<RecvEvent>>)
    returns (listener: TcpListener<Message>, sock: Socket)
    requires maxPacketBytes >= LENGTH_SIZE
    requires forall out <- outs :: Sendable(out, sendBuf.Length)
    requires forall out <- outs, p <- out.connIds :: p in peers
    requires EachFramable(MessagesFor(peer, outs))
    requires peer in peers && peer.State() == Line([], [], false)
    modifies sendBuf, peers, set out <- outs :: out.response.state
    ensures peer.sound <= peer.stream
    // In order, without loss, repetition or change, none behind a message too long.
    ensures listener.producerRequests <= Received(Fitting(MessagesFor(peer, outs), maxPacketBytes))
    // With all those bytes in, the messages sent whole before the first failure: all of
    // them if no send failed, and only then.
    ensures sock.incoming == [] ==> listener.producerRequests == Received(WholeIn(MessagesFor(peer, outs), peer.sound))
    ensures !peer.failed <==> WholeIn(MessagesFor(peer, outs), peer.sound) == MessagesFor(peer, outs)
    // They are what was sent exactly when every string is short, and all get through only
    // if every message is one that the receiver takes.
    ensures !peer.failed && sock.incoming == [] ==>
              (listener.producerRequests == MessagesFor(peer, outs) <==> forall m <- MessagesFor(peer, outs) :: Short(m.body))
    ensures listener.producerRequests == Received(MessagesFor(peer, outs)) ==>
              forall m <- MessagesFor(peer, outs) :: |ImageOf(m)| <= maxPacketBytes
    // The receiver ends the session by itself only over a message too long, with all before
    // it received.
    ensures !sock.open && !sock.ended ==>
              && listener.producerRequests == Received(Fitting(MessagesFor(peer, outs), maxPacketBytes))
              && exists m <- MessagesFor(peer, outs) :: |ImageOf(m)| > maxPacketBytes
  {
    hide Framable, Sendable, SentStream, SentRow, Received, MessagesFor, Short, Fitting, WholeIn, MessageImage, Taken;
    ghost var ms := MessagesFor(peer, outs);
    SendStream(outs, sendBuf, peers, peer);
    SoundMessages(ms, peer.State());
    ReceivedUnchanged(ms);
    AllFitting(ms, maxPacketBytes);
    listener, sock := ReceiveStream(peer.sound, maxPacketBytes, wakeUps, ms, SentStream(ms)[|peer.sound|..]);
  }

  // The receiving half of a session, over the bytes of some messages up to wherever they
  // were lost.
  method ReceiveStream(stream: seq<byte>, maxPacketBytes: nat, wakeUps: seq<seq<RecvEvent>>, ghost ms: seq<Message>, ghost lost: seq<byte>)
    returns (listener: TcpListener<Message>, sock: Socket)
    requires maxPacketBytes >= LENGTH_SIZE
    requires EachFramable(ms)
    requires stream + lost == SentStream(ms)
    ensures fresh(listener) && fresh(sock)
    ensures listener.producerRequests <= Received(Fitting(ms, maxPacketBytes))
    ensures sock.incoming == [] ==> listener.producerRequests == Received(WholeIn(ms, stream))
    ensures !sock.open && !sock.ended ==>
              listener.producerRequests == Received(Fitting(ms, maxPacketBytes)) && Fitting(ms, maxPacketBytes) != ms
  {
    hide Framable, SentStream, Frames, Rest, Requests, AllAccepted, LengthsWithin, FrameLocal, FramesFit, Connection.Unparsed,
         WholeIn, Fitting, Received, MakeMessage;
    PrefixMeetsReceiver(ms, stream, lost);
    listener := new TcpListener(maxPacketBytes, MakeMessage);
    sock := new Socket(stream, []);
    var conn := listener.Accept(null, sock);
    for i := 0 to |wakeUps|
      invariant listener.InStep(conn, sock) && fresh(conn) && fresh(conn.final)
      invariant listener.maxPacketBytes == maxPacketBytes && listener.produce == MakeMessage
      invariant sock.delivered + sock.incoming == stream
      invariant listener.producerRequests == conn.emitted
    {
      sock.script := wakeUps[i];
      var _ := listener.Receive(conn, sock);
    }
    Associative(sock.delivered, sock.incoming, lost);
    PrefixMeetsReceiver(ms, sock.delivered, sock.incoming + lost);
    DeliveredSoFar(ms, maxPacketBytes, sock.delivered, sock.incoming + lost);
    MadeSoFar(ms, maxPacketBytes, sock.delivered, sock.incoming + lost);
    assert sock.incoming == [] ==> sock.delivered + sock.incoming == sock.delivered;
  }
}
