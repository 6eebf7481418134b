# Hypnos runtime: framing, queues, timers and packed tables

A model of the parts of the Hypnos game-server runtime that hold state across calls and
threads, with proofs of what they promise.

- **Framing.** `Framing` gives a byte stream its meaning: messages behind two-byte lengths.
  `TcpListenerUnix` is the Linux listener's in-place framer over one buffer, and
  `TcpListenerWin` the reassembly loop of the Windows one. Both are proved against
  `Framing`, so against each other, for every way the stream can be cut.
- **Messages.** `Serialization`, `PacketWriter` and `PacketReader` write and read values at
  an offset of a shared buffer; `EchoMessage` packs and unpacks the sixteen fields of the
  echo message and patches the length in last. `SendResponses` is the partial-send loop.
  `EndToEnd` joins both ends: responses in, the same messages out. `WireFormat` gives the
  bytes in numbers.
- **Queues.** `RequestQueue` and `ResponseQueue` are the two double-buffer protocols as
  atomic steps of threads with program counters. An interleaving is a list of actions, and
  the results hold in every reachable state. `RequestDispatch` is Dispatch over real,
  aliasing heap vectors. `RequestDelivery` joins the receiver to the one queue and
  `ResponseDelivery` the sending loop to the other.
- **Timers.** `GameTimeManager` is the intrusive list on the heap: head, tail and links
  rewritten while callbacks re-enter the list. It is proved equal to `GameTime`, an Update
  over values, about which `GameTimeRuns`, `Callbacks` and `TicksOnce` prove what one Update
  does to each timer and which callbacks it calls, and `CountdownRuns`, `LapRuns` and
  `SetRuns` what happens over whole runs. `Timers` is the arithmetic of one timer.
- **Tables.** `GameDataManager` is chained hash lookup, and `I18nTextManager` binary search,
  over the raw bytes of a mapped file. `GameDataLayout` says in numbers where these stand.

## Assumptions

- Native byte order is little-endian. `packet_size` of the Windows listener, whose
  definition is not in the repository, is the same two-byte integer.
- The copy at TcpListener_Unix.cpp:299 is a forward byte copy: the regions may overlap, as
  the remark above it says.
- Declared lengths are not negative, and maxPacketBytes is at least 2. Lengths above
  maxPacketBytes are modelled: no such frame is handed on, and the connection ends once the
  buffer is full (`Receive`, `Session`).
- `recv` and `send` end each call as a script says: any count of bytes, an interruption,
  nothing ready, an error, the end. `send` takes at least one byte or fails.
- A null from `Produce` ends the session. What a producer makes of a frame does not depend
  on the bytes behind it. For the producer of echo messages this holds of every frame that
  holds a whole message (`MessagesAreLocal`); a frame that does not is read past its end
  (`LocalExactly`, `EmptyFrameIsNotLocal`).
- Encoding.hpp is not part of this model. Varints and ZigZag follow the Protocol Buffers
  Encoding guide, sections "Base 128 Varints" and "Signed Integers".
- Vectors have fewer than 2^31 elements, and a response fits the send buffer.
- Floating-point times are reals; floats in messages are bit patterns. Lap counts do not
  overflow.
- Timer callbacks are arbitrary finite scripts of Start, Stop, Clear and changes to timers.
  A timer has them until a Reset or a Clear empties its delegates; a callback that is
  running then still runs to its end. The game may register callbacks between Updates, not
  a callback itself. One script for each timer and Update says all, since the callbacks of
  a timer are called in one tick of an Update at most (`CallbacksRunOnce`). No callback
  calls Update or destroys a timer. `nextNode` starts as null, which GameTimerBase.hpp:52
  leaves open.
- Lines 170 and 178 of TcpListener_Win.cpp are read as an append to the receive buffer
  behind the bytes pending.
- The writer of the packed tables is not in the repository. `EncodesNames`, `EncodesKeys`
  and `IsTextTable` say what an image must be; lookup makes no test for an unused slot, so
  they say what such a slot may hold.

## Where the code falls short of its promise

- `Scale(-0.5)` divides by 1.5, where GameTimerBase.hpp:37-40 speaks of half the time. The
  model follows the code: `HalvedByScale` is the example, and `ScaleAsDocumented` says for
  which ratios code and documentation agree.
- `Pack` cuts the packet size to an int16: `SentIsOneFrame` says exactly which packets
  stand whole in the stream. The sender knows nothing of the receiver's maxPacketBytes:
  `Session` says that all messages get through only if each is within it, and that the
  others end the session.
- `WriteString` cuts the length of a string to 16 bits: `StringRoundTrip` and
  `BodyRoundTrip` say exactly which strings and messages survive.
- The Windows loop hands on an empty body only when the next byte arrives: `FramersAgree`
  says exactly when the listeners differ.
- A lap callback that scales or restarts its own timer upsets the balance of its times:
  `CallbackKeepsBalance` says exactly which do.
- Clearing the list inside a callback can have a timer ticked twice in an Update:
  `ClearTicksTwice` is such a frame, and `TicksOnceExactly` says exactly which callbacks
  allow one.

`dafny verify dfyconfig.toml` checks the whole project.

## Model

| member | source | states |
|---|---|---|
| Framing.ReadInTwo | Runtime/Management/Network/TcpListener_Unix.cpp:240-302 | reading a stream in two pieces gives the frames of the first piece, then those of its leftover with the second; nothing else of the first piece matters |
| Framing.RestHasNoFrame | Runtime/Management/Network/TcpListener_Unix.cpp:267-294 | what is left after the last complete frame holds no frame |
| Framing.ReadChunksIsFrames | Runtime/Management/Network/TcpListener_Unix.cpp:240-302 | reading chunk by chunk, keeping an unparsed tail, gives the frames of the whole stream |
| Framing.ChunkingDoesNotMatter | Runtime/Management/Network/TcpListener_Unix.cpp:240-302 | two ways to cut one stream give the same frames |
| Framing.FramedIsOneFrame | Runtime/Management/Network/ResponseBase.hpp:29-32 | a length prefix before a body under 32768 bytes is read back as exactly that body, whatever follows |
| Framing.FramesOfFramed | Runtime/Management/Network/ResponseBase.hpp:19-33 | parsing is a left inverse of framing a list of bodies, and leaves nothing over |
| Framing.LengthsOfPrefix | Runtime/Management/Network/TcpListener_Unix.cpp:272-272 | lengths acceptable in a stream are acceptable in its prefixes and in what a prefix leaves |
| Framing.RequestsOfAppend | Runtime/Management/Network/TcpListener_Unix.cpp:278-288 | requests of two rows of frames: those of the first, then, unless one of its frames was refused, those of the second |
| Serialization.SerializationState.Put | Runtime/Management/Network/PacketWriter.hpp:14-110 | the bytes go to the offset, the offset moves past them, no other byte changes |
| PacketWriter.WriteInt8 | Runtime/Management/Network/PacketWriter.hpp:14-18 | the little-endian image is all that is added at the offset |
| PacketWriter.WriteUInt8 | Runtime/Management/Network/PacketWriter.hpp:20-24 | the little-endian image is all that is added at the offset |
| PacketWriter.WriteInt16 | Runtime/Management/Network/PacketWriter.hpp:26-30 | the little-endian image is all that is added at the offset |
| PacketWriter.WriteUInt16 | Runtime/Management/Network/PacketWriter.hpp:32-36 | the little-endian image is all that is added at the offset |
| PacketWriter.WriteVarint32 | Runtime/Management/Network/PacketWriter.hpp:50-53 | the varint is all that is added at the offset |
| PacketWriter.WriteUVarint32 | Runtime/Management/Network/PacketWriter.hpp:55-58 | the varint is all that is added at the offset |
| PacketWriter.WriteSVarint32 | Runtime/Management/Network/PacketWriter.hpp:60-63 | the ZigZag varint is all that is added at the offset |
| PacketWriter.WriteInt64 | Runtime/Management/Network/PacketWriter.hpp:65-69 | the little-endian image is all that is added at the offset |
| PacketWriter.WriteUInt64 | Runtime/Management/Network/PacketWriter.hpp:71-75 | the little-endian image is all that is added at the offset |
| PacketWriter.WriteVarint64 | Runtime/Management/Network/PacketWriter.hpp:77-80 | the varint is all that is added at the offset |
| PacketWriter.WriteUVarint64 | Runtime/Management/Network/PacketWriter.hpp:82-85 | the varint is all that is added at the offset |
| PacketWriter.WriteSVarint64 | Runtime/Management/Network/PacketWriter.hpp:87-90 | the ZigZag varint is all that is added at the offset |
| PacketWriter.WriteFloat32 | Runtime/Management/Network/PacketWriter.hpp:92-96 | the little-endian image is all that is added at the offset |
| PacketWriter.WriteFloat64 | Runtime/Management/Network/PacketWriter.hpp:98-102 | the little-endian image is all that is added at the offset |
| PacketWriter.WriteString | Runtime/Management/Network/PacketWriter.hpp:104-110 | a length cut to 16 bits, then only that many bytes of the string |
| PacketWriter.Clip | Runtime/Management/Network/PacketWriter.hpp:106-108 | the part of a string that is written is its first |s| mod 65536 bytes |
| PacketReader.ReadInt8 | Runtime/Management/Network/PacketReader.hpp:14-18 | the value standing at the offset is read, and the offset stops where the bytes after it begin |
| PacketReader.ReadUInt8 | Runtime/Management/Network/PacketReader.hpp:20-24 | the value standing at the offset is read, and the offset stops where the bytes after it begin |
| PacketReader.ReadInt16 | Runtime/Management/Network/PacketReader.hpp:26-30 | the value standing at the offset is read, and the offset stops where the bytes after it begin |
| PacketReader.ReadUInt16 | Runtime/Management/Network/PacketReader.hpp:32-36 | the value standing at the offset is read, and the offset stops where the bytes after it begin |
| PacketReader.ReadVarint32 | Runtime/Management/Network/PacketReader.hpp:50-53 | the value standing at the offset is read, and the offset stops where the bytes after it begin |
| PacketReader.ReadUVarint32 | Runtime/Management/Network/PacketReader.hpp:55-58 | the value standing at the offset is read, and the offset stops where the bytes after it begin |
| PacketReader.ReadSVarint32 | Runtime/Management/Network/PacketReader.hpp:60-63 | the value standing at the offset is read, and the offset stops where the bytes after it begin |
| PacketReader.ReadInt64 | Runtime/Management/Network/PacketReader.hpp:65-69 | the value standing at the offset is read, and the offset stops where the bytes after it begin |
| PacketReader.ReadUInt64 | Runtime/Management/Network/PacketReader.hpp:71-75 | the value standing at the offset is read, and the offset stops where the bytes after it begin |
| PacketReader.ReadVarint64 | Runtime/Management/Network/PacketReader.hpp:77-80 | the value standing at the offset is read, and the offset stops where the bytes after it begin |
| PacketReader.ReadUVarint64 | Runtime/Management/Network/PacketReader.hpp:82-85 | the value standing at the offset is read, and the offset stops where the bytes after it begin |
| PacketReader.ReadSVarint64 | Runtime/Management/Network/PacketReader.hpp:87-90 | the value standing at the offset is read, and the offset stops where the bytes after it begin |
| PacketReader.ReadFloat32 | Runtime/Management/Network/PacketReader.hpp:92-96 | the value standing at the offset is read, and the offset stops where the bytes after it begin |
| PacketReader.ReadFloat64 | Runtime/Management/Network/PacketReader.hpp:98-102 | the value standing at the offset is read, and the offset stops where the bytes after it begin |
| PacketReader.ReadString | Runtime/Management/Network/PacketReader.hpp:104-109 | the string standing at the offset is read, and the offset stops just behind it |
| PacketReader.FixedRoundTrip | Runtime/Management/Network/PacketReader.hpp:14-18 | a fixed-width unsigned value comes back, and the bytes after it are left |
| PacketReader.SignedRoundTrip | Runtime/Management/Network/PacketReader.hpp:26-30 | the same for a signed one |
| PacketReader.IVarintRoundTrip | Runtime/Management/Network/PacketReader.hpp:50-53 | a signed value sent as an unsigned varint comes back through the cast |
| PacketReader.UVarintRoundTrip | Runtime/Management/Network/PacketReader.hpp:55-58 | an unsigned varint comes back |
| PacketReader.SVarintRoundTrip | Runtime/Management/Network/PacketReader.hpp:60-63 | a ZigZag varint comes back |
| PacketReader.StringRoundTrip | Runtime/Management/Network/PacketReader.hpp:104-109 | a string of any length comes back as its first |s| mod 65536 bytes with the reader in step behind it; unchanged if and only if it is under 65536 bytes |
| EchoMessage.WriteStrings | Tests/Network/EchoMessage.hpp:20-27 | a vector's strings, each behind the other |
| EchoMessage.WriteStruct1 | Tests/Network/EchoMessage.hpp:17-28 | the struct's image is all that is added |
| EchoMessage.WriteVector | Tests/Network/EchoMessage.hpp:143-150 | a vector of structs of vectors of strings, behind its length |
| EchoMessage.EchoResponse.PackBody | Tests/Network/EchoMessage.hpp:137-162 | all sixteen fields in their order, and no other byte changed |
| EchoMessage.EchoResponse.PackHeader | Runtime/Management/Network/ResponseBase.hpp:39-42 | the message id in two bytes |
| EchoMessage.EchoResponse.PatchLength | Runtime/Management/Network/ResponseBase.hpp:29-31 | the length goes back before the message, over the first two bytes only |
| EchoMessage.EchoResponse.Pack | Runtime/Management/Network/ResponseBase.hpp:19-33 | the buffer holds prefix, header and body at the offset and is otherwise unchanged; the result is the packet size cut to an int16 |
| EchoMessage.PrefixLength | Runtime/Management/Network/ResponseBase.hpp:29-31 | cutting the size to 16 bits before and after the subtraction stores the body length cut once |
| EchoMessage.ReadStruct1From | Tests/Network/EchoMessage.hpp:30-42 | the struct standing at the offset |
| EchoMessage.ReadVectorFrom | Tests/Network/EchoMessage.hpp:88-96 | the vector standing at the offset, element by element |
| EchoMessage.EchoRequest.UnpackBody | Tests/Network/EchoMessage.hpp:82-108 | the sixteen fields standing at the offset |
| EchoMessage.EchoRequest.Unpack | Runtime/Management/Network/RequestBase.hpp:19-26 | the body is read from the start of the packet given |
| EchoMessage.Produce | Tests/Network/NetworkTest.hpp:13-30 | message id first, body two bytes on |
| EchoLayout.ReadOfStruct1 | Tests/Network/EchoMessage.hpp:17-42 | reading undoes writing for a struct, any bytes following |
| EchoLayout.ReadOfVector | Tests/Network/EchoMessage.hpp:88-96 | reading undoes writing for nested vectors, any bytes following |
| EchoLayout.ReadOfBody | Tests/Network/EchoMessage.hpp:82-162 | reading a packed body gives every field, strings cut as the writer cuts them, and stops at the writer's last byte |
| EchoLayout.BodyRoundTrip | Tests/Network/EchoMessage.hpp:82-162 | a message comes back unchanged if and only if all its strings are under 65536 bytes |
| EchoMessage.ReadOfMessage | Tests/Network/NetworkTest.hpp:13-30 | the producer reads back id and body from a packed message, whatever bytes follow |
| WireFormat.LowestFirst | Runtime/Management/Network/PacketWriter.hpp:65-75 | byte i of an integer of any fixed width is the value divided by 256^i, modulo 256 |
| WireFormat.FixedIntSamples | Runtime/Management/Network/PacketWriter.hpp:14-36 | small, large and negative integers in bytes |
| WireFormat.VarintShape | Runtime/Management/Network/PacketWriter.hpp:50-90 | seven bits to a byte, the lowest first, a top bit on all bytes but the last, and none of them superfluous |
| WireFormat.VarintSamples | Runtime/Management/Network/PacketWriter.hpp:50-90 | the sample values of the encoding guide |
| WireFormat.PacketBytes | Runtime/Management/Network/ResponseBase.hpp:19-42 | a packet is the length of all behind it, the message id, each in two bytes, and the body |
| WireFormat.FrameBytes | Runtime/Management/Network/TcpListener_Unix.cpp:269-284 | the length that two bytes announce, negative ones included, and the bytes of the frame behind them |
| WireFormat.SampleBytes | Tests/Network/EchoMessage.hpp:137-162 | the bytes of a message with a different value in each field, each field at its place in its own encoding |
| TcpListenerUnix.TcpListener.Accept | Runtime/Management/Network/TcpListener_Unix.cpp:218-232 | a connection new or known, its read state reset wherever it stood, is in step with a stream that begins |
| TcpListenerUnix.TcpListener.TakeLength | Runtime/Management/Network/TcpListener_Unix.cpp:269-276 | taking a length leaves the unparsed stream as it was, in a smaller window |
| TcpListenerUnix.TcpListener.TakeBody | Runtime/Management/Network/TcpListener_Unix.cpp:278-293 | the first frame, and no byte after it, makes the request, which is pushed; a refused one leaves the queue alone |
| TcpListenerUnix.TcpListener.TakeFrames | Runtime/Management/Network/TcpListener_Unix.cpp:267-294 | every complete frame of the window is handed on in order up to a refused one, with what is left in the buffer; ends on empty frames too |
| TcpListenerUnix.TcpListener.MoveToFront | Runtime/Management/Network/TcpListener_Unix.cpp:296-300 | the forward copy leaves the unread bytes at the front although source and target overlap |
| TcpListenerUnix.TcpListener.Compact | Runtime/Management/Network/TcpListener_Unix.cpp:296-301 | compaction does not change the unparsed stream |
| TcpListenerUnix.TcpListener.Refill | Runtime/Management/Network/TcpListener_Unix.cpp:242-266 | the bytes of one recv extend the unparsed stream; an error, an interruption or the end changes nothing |
| TcpListenerUnix.TcpListener.AskedForSomething | Runtime/Management/Network/TcpListener_Unix.cpp:242-242 | while lengths stay within maxPacketBytes, that value included, recv is asked for at least one byte, so a zero result is the end of the stream |
| Framing.FramesFitInTwo | Runtime/Management/Network/TcpListener_Unix.cpp:242-266 | a stream read through a window of bounded size has no frame longer than the window allows |
| TcpListenerUnix.TcpListener.Receive | Runtime/Management/Network/TcpListener_Unix.cpp:236-303 | after any calls with any results of recv, the requests made for a connection are those of the frames of all bytes delivered, none of these longer than maxPacketBytes; the buffer and counters hold exactly the unparsed tail; an open connection has drained its socket and has room for more; one is closed only by its peer, a refusal or a length above maxPacketBytes |
| TcpListenerUnix.LengthTaken | Runtime/Management/Network/TcpListener_Unix.cpp:272-274 | a length in waitingBytes and the rest in the window stand for the same bytes |
| TcpListenerUnix.BodyAwaited | Runtime/Management/Network/TcpListener_Unix.cpp:267-267 | pendingBytes >= waitingBytes if and only if the unparsed stream starts with a whole frame |
| TcpListenerWin.Client.Gather | Runtime/Management/Network/TcpListener_Win.cpp:168-173 | an incomplete length or body is kept behind what is pending |
| TcpListenerWin.Client.Complete | Runtime/Management/Network/TcpListener_Win.cpp:175-183 | the bytes completed are those pending followed by those of the read, from the read itself or from the buffer |
| TcpListenerWin.Client.Round | Runtime/Management/Network/TcpListener_Win.cpp:165-197 | one round keeps the frames handed on and the tail together equal to the stream |
| TcpListenerWin.Client.ProcessRead | Runtime/Management/Network/TcpListener_Win.cpp:164-197 | after any reads, the frames handed on and the tail make up all the bytes received |
| TcpListenerWin.Client.HandedOn | Runtime/Management/Network/TcpListener_Win.cpp:164-197 | between reads the frames handed on are those of the stream, except an empty frame at its very end |
| TcpListenerWin.FramersAgree | Runtime/Management/Network/TcpListener_Win.cpp:164-197 | both listeners, given one stream in any two chunkings, yield the same frames if and only if the stream does not stand just behind an empty frame; always, when no body is empty |
| SendResponses.SendPacket | Runtime/Management/Network/TcpListener_Unix.cpp:334-346 | under any pattern of partial sends the connection gets the packet once, whole unless a send fails, and then a prefix of it short of its end |
| SendResponses.SendToAll | Runtime/Management/Network/TcpListener_Unix.cpp:332-347 | each connection named gets one copy for each time it is named, or a start of it if a send fails; a failed one does not hold up the others |
| SendResponses.AddressedIsCounted | Runtime/Management/Network/TcpListener_Unix.cpp:332-347 | as many copies as there are places that name the connection, all alike |
| SendResponses.SendOne | Runtime/Management/Network/TcpListener_Unix.cpp:329-347 | one response reaches exactly the connections it names, whole where no send fails |
| SendResponses.SendAll | Runtime/Management/Network/TcpListener_Unix.cpp:327-348 | each connection's stream grows by the packets of the responses naming it, in order: all of each while no send to it fails; after a failure, whole up to the packet that failed first, and then a start of each |
| SendResponses.StoppedIsPrefix | Runtime/Management/Network/TcpListener_Unix.cpp:338-344 | what was taken before the first failure is a start of all the packets, and not all of them |
| SendResponses.StreamOfAppend | Runtime/Management/Network/TcpListener_Unix.cpp:313-350 | passes of the sender one after the other send what one pass over both would |
| SendResponses.ReturnedLengthFits | Runtime/Management/Network/ResponseBase.hpp:29-32 | the length returned is the packet size if and only if that is under 32768 |
| EndToEnd.Loopback | Tests/Network/EchoMessage.hpp:82-162 | packing and unpacking through one buffer gives back all sixteen fields, unchanged if and only if every string is under 65536 bytes, and stops at the last byte written, whatever else the buffer holds |
| EndToEnd.SentIsOneFrame | Runtime/Management/Network/TcpListener_Unix.cpp:331-346 | a packet stands in the stream as one frame with its message if and only if its size is under 32768 bytes |
| EndToEnd.RowIsSent | Runtime/Management/Network/TcpListener_Unix.cpp:332-347 | the packets addressed to a connection are those of the messages naming it, once for each time |
| EndToEnd.SoundMessages | Runtime/Management/Network/TcpListener_Unix.cpp:338-344 | before the first failed send all packets are out whole if and only if no send fails |
| EndToEnd.StreamMeetsReceiver | Runtime/Management/Network/TcpListener_Unix.cpp:236-303 | the frames of what the sender emits are the messages, and its lengths are not negative |
| EchoLayout.BodyFollowed | Tests/Network/EchoMessage.hpp:82-108 | a body that is read, packed by this program or not, is read the same whatever bytes follow |
| EchoMessage.MessageFollowed | Tests/Network/NetworkTest.hpp:13-30 | a frame that holds a whole message makes the same request whatever follows it |
| EndToEnd.LocalExactly | Tests/Network/NetworkTest.hpp:13-30 | what the producer makes of a frame is independent of the bytes behind it if and only if the frame holds a whole message, or no bytes behind it would complete one |
| EndToEnd.EmptyFrameIsNotLocal | Tests/Network/NetworkTest.hpp:13-30 | it is not independent for an empty frame, which the producer reads past |
| EndToEnd.MessagesAreLocal | Runtime/Management/Network/TcpListener_Unix.cpp:279-279 | the receiver takes every stream whose frames hold whole messages |
| EndToEnd.DeliveredSoFar | Runtime/Management/Network/TcpListener_Unix.cpp:236-303 | at every moment the frames read are the messages whose packets are in, none longer than maxPacketBytes; if a length above that is in, they are all before the first message too long |
| EndToEnd.MadeSoFar | Runtime/Management/Network/TcpListener_Unix.cpp:236-303 | the requests made are those messages, in order |
| EndToEnd.ReceiveStream | Runtime/Management/Network/TcpListener_Unix.cpp:236-303 | wake-up after wake-up, under any results of recv, the messages of a stream come out, up to where the stream was lost |
| EndToEnd.ReceivedUnchanged | Runtime/Management/Network/PacketWriter.hpp:104-110 | messages arrive unchanged if and only if all their strings are under 65536 bytes |
| EndToEnd.AllFitting | Runtime/Management/Network/TcpListener_Unix.cpp:242-264 | no message is too long for the receiver if and only if none stops the row |
| EndToEnd.Session | Runtime/Management/Network/TcpListener_Unix.cpp:236-348 | responses in, the same messages out, for each of the connections they name: under any partial or failed sends and any recv results, the messages in order, none at or behind one above maxPacketBytes; all sent whole before a failure when their bytes are in, which is all if and only if no send fails; these equal what was sent if and only if all strings are under 65536 bytes; all messages get through only if each is within maxPacketBytes, and the receiver ends the session by itself only over one that is not |
| RequestQueue.DispatchKeeps | Runtime/Management/Network/TcpListener_Unix.cpp:115-133 | each step of Dispatch, the unlocked pointer moves included, keeps the invariant of the exchange |
| RequestQueue.ReceiverKeeps | Runtime/Management/Network/TcpListener_Unix.cpp:286-288 | each step of the receiver's push keeps it |
| RequestQueue.RunKeeps | Runtime/Management/Network/TcpListener_Unix.cpp:115-133 | so does every interleaving |
| RequestQueue.PushedIsArrived | Runtime/Management/Network/TcpListener_Unix.cpp:286-288 | over every interleaving the requests pushed are, in order, those of the steps in which the receiver pushes |
| RequestQueue.HandOff | Runtime/Management/Network/TcpListener_Unix.cpp:115-133 | in every reachable state, requests pushed are those visited, then those being visited, then those waiting; a finished Dispatch has visited exactly what was pushed before its exchange |
| RequestQueue.PushAvoidsIteration | Runtime/Management/Network/TcpListener_Unix.cpp:117-123 | a push never goes to the vector being iterated; one made while both names alias one vector is not lost |
| RequestQueue.NeverStuck | Runtime/Management/Network/TcpListener_Unix.cpp:119-121 | one of the two threads can always move |
| RequestQueue.DispatchProgresses | Runtime/Management/Network/TcpListener_Unix.cpp:115-133 | with requests unvisited and nobody pushing, Dispatch can step and comes closer to visiting them |
| RequestQueue.Drains | Runtime/Management/Network/TcpListener_Unix.cpp:115-133 | called again and again it visits every request pushed |
| RequestDelivery.RequestsAreVisited | Runtime/Management/Network/TcpListener_Unix.cpp:115-133 | in every reachable state the requests made are those the handlers were given, then those being visited, then those waiting, then those not pushed yet |
| RequestDelivery.Serve | Runtime/Management/Network/TcpListener_Unix.cpp:115-303 | over every interleaving of wake-ups, pushes and steps of Dispatch, the handlers are given the requests of the frames received, in order |
| RequestDelivery.AllAreHandled | Runtime/Management/Network/TcpListener_Unix.cpp:115-288 | wherever the receiving thread and Dispatch stand, steps of theirs alone bring every request made to its handler, in order |
| RequestDelivery.MessagesAreHandled | Runtime/Management/Network/TcpListener_Unix.cpp:115-303 | from responses to handlers: at any moment the first of the messages sent, and all of them when everything is received, pushed and visited |
| RequestDispatch.Queues.Dispatch | Runtime/Management/Network/TcpListener_Unix.cpp:115-133 | on aliasing heap vectors, with arrivals before and while both names alias, behind the exchange, between visits and before the clear: visited grows by what was there and what came before the exchange, later arrivals wait in the other vector |
| ResponseQueue.ConsumerConserves | Runtime/Management/Network/TcpListener_Unix.cpp:313-350 | no step of the sending thread loses, repeats or reorders a response |
| ResponseQueue.SendConserves | Runtime/Management/Network/TcpListener_Unix.cpp:135-142 | nor does a step of Send |
| ResponseQueue.SendCalled | Runtime/Management/Network/TcpListener_Unix.cpp:135-142 | Send called with r while the lock is free: r is at the end of the producer's vector and of nothing else, the flag is up, and a sleeping sender is notified |
| ResponseQueue.GivenIsEntered | Runtime/Management/Network/TcpListener_Unix.cpp:135-142 | over every interleaving the responses given are, in order, the arguments of the calls of Send that have pushed, read off the actions alone |
| ResponseQueue.StepKeeps | Runtime/Management/Network/TcpListener_Unix.cpp:135-142 | every step, spurious wake-ups included, keeps the invariant |
| ResponseQueue.RunKeeps | Runtime/Management/Network/TcpListener_Unix.cpp:313-350 | every interleaving keeps it |
| ResponseQueue.ResponsesAreHandedOff | Runtime/Management/Network/TcpListener_Unix.cpp:313-350 | in every reachable state: what Send was called with is what is packed, then what is being packed, then what waits; with the lock free, hasNewResponse if and only if responses wait; a sleeping sender with unsent responses has a notification pending |
| ResponseQueue.ConsumerProgresses | Runtime/Management/Network/TcpListener_Unix.cpp:313-350 | with responses unsent and nobody in Send the sending thread can step, and comes closer to sending |
| ResponseQueue.Drains | Runtime/Management/Network/TcpListener_Unix.cpp:313-350 | from there it sends them all by its own steps |
| ResponseQueue.EverythingGivenIsSent | Runtime/Management/Network/TcpListener_Unix.cpp:313-350 | no wake-up is lost: every interleaving that leaves Send can be continued by the sending thread alone until all that Send was called with is packed |
| ResponseDelivery.Interleave | Runtime/Management/Network/TcpListener_Unix.cpp:135-350 | over every interleaving of Send with the sending thread, each connection has received the packets of the responses packed so far that name it, in order, whole unless a send to it failed; those packed are the first that Send was called with, all of them when none waits |
| ResponseDelivery.StreamOfGiven | Runtime/Management/Network/TcpListener_Unix.cpp:135-350 | that is the start of what the responses Send was called with hold for it, and all of it once they are packed |
| Timers.ChangeKeepsBalance | Runtime/Management/GameTime/LapTimer.cpp:6-54 | Set, Restart, Add and Scale, ratios of any sign, keep leftTime == lapLeftTime + scaledInterval * (leftLap - 1) |
| Timers.TickKeepsBalance | Runtime/Management/GameTime/LapTimer.cpp:56-74 | so does a tick, across the end of a lap too |
| Timers.LapRunKeepsBalance | Runtime/Management/GameTime/LapTimer.cpp:6-74 | so does every run of them after a first Set |
| Timers.CallbackKeepsBalance | Runtime/Management/GameTime/LapTimer.cpp:66-73 | a lap callback that changes its own timer keeps the balance if and only if it neither sets, restarts nor scales it, or the interval it fixes last, scaling aside, is zero |
| Timers.ScaleBack | Runtime/Management/GameTime/LapTimer.cpp:38-54 | Scale(r) then Scale(-r) restores the timer if and only if its times were in balance |
| Timers.ChangesToZero | Runtime/Management/GameTime/LapTimer.cpp:38-54 | whether changes leave an interval of zero depends on the last interval set, not on scaling |
| Timers.ScaleAsDocumented | Runtime/Management/GameTime/GameTimerBase.hpp:37-42 | a ratio gives the time its documentation speaks of if and only if it is not negative, or the time is zero |
| Timers.HalvedByScale | Runtime/Management/GameTime/GameTimerBase.hpp:37-42 | the documentation's own negative example leaves two thirds of the time, not half |
| Timers.StateAfterTicks | Runtime/Management/GameTime/LapTimer.cpp:56-74 | the times after any ticks, from the laps gone off and the time passed |
| Timers.LapsClosedForm | Runtime/Management/GameTime/LapTimer.cpp:56-74 | laps gone off after n ticks are the minimum over j of floor(T_j / interval) + (n - j): a long frame delays laps and drops none |
| Timers.LapsOnTime | Runtime/Management/GameTime/LapTimer.cpp:56-74 | with no frame longer than the interval they are floor(T_n / interval) |
| LapRuns.LapsPlayed | Runtime/Management/GameTime/GameTimeManager.cpp:42-78 | a lap timer in the list runs as on its own, whatever the other timers and callbacks do |
| LapRuns.LapTimerRun | Runtime/Management/GameTime/GameTimeManager.cpp:42-78 | over a whole run it sounds each lap once and its end once, and is out of the list from the next Update on |
| LapRuns.LapsInTime | Runtime/Management/GameTime/GameTimeManager.cpp:42-78 | the laps sounded over a run of Updates are the closed form, up to the laps given |
| SetRuns.SetCounts | Runtime/Management/GameTime/CountdownTimer.cpp:6-10 | after Set(time) and Start a countdown goes off in the first Update by which time has passed, whatever it was before |
| SetRuns.LastSet | Runtime/Management/GameTime/CountdownTimer.cpp:6-10 | the interval, and the laps, are those of the last Set, whatever else the game and all callbacks have done since |
| SetRuns.RestartCounts | Runtime/Management/GameTime/CountdownTimer.cpp:18-22 | Restart counts down the time of the last Set once more, however long ago that was |
| SetRuns.AddCounts | Runtime/Management/GameTime/CountdownTimer.cpp:24-27 | Add puts the end of a running countdown off by exactly that time, or brings it forward |
| SetRuns.ScaleCounts | Runtime/Management/GameTime/CountdownTimer.cpp:29-39 | Scale puts its end where the documented factor says for a ratio not negative, and else where that factor would lead back from |
| SetRuns.SetSounds | Runtime/Management/GameTime/LapTimer.cpp:6-14 | after Set(time, laps) and Start the laps sounded are the closed form with that interval, and that many of them |
| SetRuns.RestartSounds | Runtime/Management/GameTime/LapTimer.cpp:23-30 | so they are after Restart, with the interval and laps of the last Set |
| SetRuns.AddGoes | Runtime/Management/GameTime/LapTimer.cpp:32-36 | Add lets a running timer sound the same laps at the same moments, and so many more of them |
| SetRuns.ScaledTogether | Runtime/Management/GameTime/LapTimer.cpp:38-54 | an interval and a lap scaled by a factor, with frames longer by the same factor, give the same laps in the same ticks |
| SetRuns.ScaleGoes | Runtime/Management/GameTime/LapTimer.cpp:38-54 | so a running timer, scaled in the middle of a lap, sounds the laps it would have sounded in frames shorter by the factor of its ratio |
| SetRuns.StopHolds | Runtime/Management/GameTime/GameTimerBase.hpp:32-35 | stopped or reset, a timer is not ticked until it is started, keeps its time, and is out of the list from the next Update on |
| SetRuns.ClearStops | Runtime/Management/GameTime/GameTimeManager.cpp:9-21 | Clear stops the timers of the list and takes their callbacks, and changes no other timer |
| GameTimeManager.Timer.SetCountdown | Runtime/Management/GameTime/CountdownTimer.cpp:6-10 | interval and time left, nothing else |
| GameTimeManager.Timer.SetLaps | Runtime/Management/GameTime/LapTimer.cpp:6-14 | all times and counts of a fresh lap timer; the flag is left alone |
| GameTimeManager.Timer.Reset | Runtime/Management/GameTime/LapTimer.cpp:16-21 | the timer is stopped and its callbacks are emptied, its times kept |
| GameTimeManager.Timer.Restart | Runtime/Management/GameTime/LapTimer.cpp:23-30 | the state of a fresh timer, running, though not linked |
| GameTimeManager.Timer.AddTime | Runtime/Management/GameTime/CountdownTimer.cpp:24-27 | only the time left grows |
| GameTimeManager.Timer.AddLaps | Runtime/Management/GameTime/LapTimer.cpp:32-36 | laps and time left grow together |
| GameTimeManager.Timer.ScaleCountdown | Runtime/Management/GameTime/CountdownTimer.cpp:29-39 | a negative ratio divides, another multiplies |
| GameTimeManager.Timer.ScaleLaps | Runtime/Management/GameTime/LapTimer.cpp:38-54 | interval and lap are scaled, and the time left follows from them |
| GameTimeManager.Timer.PassTime | Runtime/Management/GameTime/LapTimer.cpp:59-66 | due if and only if the time is used up; the overshoot is carried into the next lap |
| GameTimeManager.Timer.FinishLap | Runtime/Management/GameTime/LapTimer.cpp:69-71 | one lap less, stopped with the last |
| GameTimeManager.Manager.AddLast | Runtime/Management/GameTime/GameTimeManager.cpp:23-40 | a timer not in the list becomes its tail, one in it stays where it is; the links stay sound |
| GameTimeManager.Manager.InList | Runtime/Management/GameTime/GameTimeManager.cpp:25-28 | a timer is in the list if and only if it has a link or is the tail |
| GameTimeManager.Manager.Clear | Runtime/Management/GameTime/GameTimeManager.cpp:9-21 | the list is empty, its timers stopped, unlinked and without callbacks, the others untouched |
| GameTimeManager.Manager.Register | Runtime/Management/GameTime/GameTimerBase.hpp:73-74 | the game gives a timer callbacks again; nothing else changes |
| GameTimeManager.Manager.Start | Runtime/Management/GameTime/GameTimerBase.hpp:26-30 | running and in the list |
| GameTimeManager.Manager.Stop | Runtime/Management/GameTime/GameTimerBase.hpp:32-35 | stopped, and still in the list |
| GameTimeManager.Manager.RunScript | Runtime/Management/GameTime/GameTimeManager.cpp:9-40 | any script of Start, Stop, Clear and timer changes keeps the links sound and does to the list what the values say |
| GameTimeManager.Manager.Unlink | Runtime/Management/GameTime/GameTimeManager.cpp:49-72 | the links of the list without the node, head and tail included; what followed it is next |
| GameTimeManager.Manager.TickCountdown | Runtime/Management/GameTime/CountdownTimer.cpp:41-51 | a tick with a callback that may re-enter the list, if the timer still has it |
| GameTimeManager.Manager.TickLaps | Runtime/Management/GameTime/LapTimer.cpp:56-74 | a tick with two callbacks, the count of laps falling between them; the second is gone if the first clears the timer |
| GameTimeManager.Manager.Update | Runtime/Management/GameTime/GameTimeManager.cpp:42-78 | whatever the callbacks start, stop, change or clear while the list is walked: it ends, the list is sound, and list, timers and events are those of the pass over values; at each loop head prevNode is the true predecessor of currNode |
| GameTimeManager.Manager.LateUpdate | Runtime/Management/GameTime/GameTimeManager.cpp:80-92 | the next delta is the length of the frame, 16 ms at least |
| CountdownRuns.DeltaAfter | Runtime/Management/GameTime/GameTimeManager.cpp:80-92 | exactly 16 ms for a shorter frame, and the frame's length for any other |
| GameTime.Pass | Runtime/Management/GameTime/GameTimeManager.cpp:47-77 | the pass ends for all scripts of Start, Stop, Clear and timer changes, however many clear the list |
| GameTime.RoundIsReady | Runtime/Management/GameTime/GameTimeManager.cpp:47-77 | each round keeps the list duplicate-free and gets closer to the end |
| GameTime.After | Runtime/Management/GameTime/GameTimeManager.cpp:76-76 | the walk goes on behind the timer just ticked, or ends if a callback took it out |
| GameTime.CallbacksRunOnce | Runtime/Management/GameTime/GameTimeManager.cpp:47-77 | however often a timer is ticked in an Update, its callbacks are called in at most one of the ticks |
| TicksOnce.TickLeavesBehind | Runtime/Management/GameTime/GameTimeManager.cpp:75-76 | a tick adds to the list, or leaves behind its timer exactly the running timers that its clearing callback put there |
| TicksOnce.UpdateTicksOnce | Runtime/Management/GameTime/GameTimeManager.cpp:47-77 | no timer is ticked twice in an Update if no callback clears the list and leaves its own timer in it with a running timer behind |
| TicksOnce.OvertakingTicksTwice | Runtime/Management/GameTime/GameTimeManager.cpp:47-77 | for any callback that does, and a frame of any length but none, a world of timers just set and started in which an Update ticks one twice |
| TicksOnce.TicksOnceExactly | Runtime/Management/GameTime/GameTimeManager.cpp:47-77 | for a pool of timers, their callbacks and a frame of any length but none: no Update of any world ticks a timer twice if and only if no callback does that |
| TicksOnce.ClearTicksTwice | Runtime/Management/GameTime/GameTimeManager.cpp:47-77 | one such Update in full: a waiting timer is ticked, the one behind it goes off, clears the list and starts both anew, and the waiting one is ticked again |
| GameTimeRuns.RoundAtTimer | Runtime/Management/GameTime/GameTimeManager.cpp:47-77 | a timer come to is ticked once and stays, or, stopped, leaves untouched |
| GameTimeRuns.PassSkips | Runtime/Management/GameTime/GameTimeManager.cpp:47-77 | a timer behind the walk, or out of the list, is not touched |
| GameTimeRuns.PassReaches | Runtime/Management/GameTime/GameTimeManager.cpp:47-77 | an Update comes to every timer in the list that callbacks leave alone, exactly once |
| Callbacks.CountdownCalls | Runtime/Management/GameTime/CountdownTimer.cpp:41-51 | what the callback of a countdown starts when its time is up is in the list after the Update, and runs unless its own time was up in the same Update |
| Callbacks.LapCalls | Runtime/Management/GameTime/LapTimer.cpp:56-67 | so is what the lap callback starts, at every lap that is due |
| Callbacks.LastLapCalls | Runtime/Management/GameTime/LapTimer.cpp:69-73 | so is what the other callback of a lap timer starts at its last lap |
| Callbacks.RegisteredCalls | Runtime/Management/GameTime/GameTimerBase.hpp:58-58 | callbacks that the game registers before an Update are called in it like any other |
| Callbacks.NoOtherCalls | Runtime/Management/GameTime/GameTimeManager.cpp:47-77 | a timer that the callbacks due leave alone stays as it is, whatever those not due, or no longer registered, would do to it |
| Callbacks.OwnChanges | Runtime/Management/GameTime/LapTimer.cpp:56-74 | what callbacks make of their own timer: the lap callback finds the new lap begun and not yet counted, the other one finds it counted and the timer stopped |
| Callbacks.RestartsItself | Runtime/Management/GameTime/GameTimeManager.cpp:47-77 | a timer that restarts itself when its time is up runs on in the list with its whole time and laps before it |
| CountdownRuns.StoppedRun | Runtime/Management/GameTime/GameTimeManager.cpp:49-72 | a stopped timer leaves with the next Update and nothing more happens to it |
| CountdownRuns.CountdownRun | Runtime/Management/GameTime/CountdownTimer.cpp:41-51 | a started countdown goes off in the first Update by which its time has passed, once, and is out of the list from the next Update on |
| CountdownRuns.OverdueRun | Runtime/Management/GameTime/CountdownTimer.cpp:41-51 | one started with no time left goes off in the first Update |
| CountdownRuns.CountdownIsBounded | Runtime/Management/GameTime/GameTimeManager.cpp:80-92 | at least 16 ms a frame, it has gone off after ceil(time / 16 ms) Updates behind the first LateUpdate |
| GameDataManager.BkdrHash | Runtime/Management/GameData/GameDataManager.cpp:8-16 | the loop computes the base-31 polynomial of the bytes modulo 2^32 |
| GameDataManager.HashStep | Runtime/Management/GameData/GameDataManager.cpp:13-13 | wrapping at every step is wrapping once |
| GameDataManager.HashOfConcat | Runtime/Management/GameData/GameDataManager.cpp:8-16 | the hash of a concatenation from the hashes of its parts |
| GameDataManager.ChainIsUnique | Runtime/Management/GameData/GameDataManager.cpp:49-60 | the links from an entry determine the entries met |
| GameDataManager.ChainIsAcyclic | Runtime/Management/GameData/GameDataManager.cpp:49-60 | a chain that ends meets no entry twice |
| GameDataManager.HomeIsInside | Runtime/Management/GameData/GameDataManager.cpp:46-48 | home entries lie inside the image |
| GameDataManager.GetKeyTableOffset | Runtime/Management/GameData/GameDataManager.cpp:39-62 | ends, reads inside the image only, and agrees with the map of names the image holds, -1 for names not in it; equal hashes and chains through entries of other homes included |
| GameDataManager.NamesAreDetermined | Runtime/Management/GameData/GameDataManager.cpp:39-62 | an image holds one map of names |
| GameDataManager.GetDataPointer | Runtime/Management/GameData/GameDataManager.cpp:64-81 | the same for keys, negative ones included; null for keys not in the table |
| GameDataManager.KeysAreDetermined | Runtime/Management/GameData/GameDataManager.cpp:64-81 | a key table holds one map of keys |
| GameDataLayout.LinkedIsPrefix | Runtime/Management/GameData/GameDataManager.cpp:70-79 | following links from the home entry meets the entries of the chain and no others |
| GameDataLayout.HomeEntry | Runtime/Management/GameData/GameDataManager.cpp:69-76 | the entry of 12 bytes at keyTableOffset + 4 + 12 * slot whose key is at home in that slot is in the map, with the data offset 4 bytes on |
| GameDataLayout.KeyEntryIsHeld | Runtime/Management/GameData/GameDataManager.cpp:69-80 | so is every entry reached from there through the links 8 bytes on |
| GameDataLayout.HeldKeyHasEntry | Runtime/Management/GameData/GameDataManager.cpp:69-80 | and every key of the map has such an entry |
| GameDataLayout.NameEntryIsHeld | Runtime/Management/GameData/GameDataManager.cpp:46-60 | the same for names: entries of 24 bytes at 4 + 24 * slot, linked 20 bytes on, a name whose bytes stand behind its length at the offset 4 bytes on |
| GameDataLayout.HeldNameHasEntry | Runtime/Management/GameData/GameDataManager.cpp:46-60 | and every name of the map has such an entry |
| GameDataLayout.StringIsRead | Runtime/Management/GameData/GameDataManager.cpp:88-97 | a string has the length stored at its offset and the bytes from 4 bytes on; none below offset 0 |
| GameDataLayout.HashOfTwo | Runtime/Management/GameData/GameDataManager.cpp:8-16 | the hash of none, one and two characters, in numbers |
| GameDataManager.SampleEncodes | Runtime/Management/GameData/GameDataManager.cpp:64-81 | a key table whose chain runs through another slot's entry meets the conditions |
| GameDataManager.SampleEncodesNames | Runtime/Management/GameData/GameDataManager.cpp:39-62 | so does an index of two names with one home, one of them in the place of another slot |
| I18nTextManager.GetText | Runtime/Management/GameData/I18nTextManager.cpp:41-71 | the text a search entry by entry finds, which for an id at 4 + 8 * i is the bytes at the offset beside it, or none; every read inside the image, min + max and every offset within int32; the id in decimal when no file is mapped |
| I18nTextManager.LinearFinds | Runtime/Management/GameData/I18nTextManager.cpp:55-59 | the entry found is the one entry of that id |
| I18nTextManager.LinearMisses | Runtime/Management/GameData/I18nTextManager.cpp:70-70 | the empty string is returned for absent ids |
| I18nTextManager.LinearIsTextOf | Runtime/Management/GameData/I18nTextManager.cpp:52-58 | what is found for an id has the length stored at the offset beside it, and its bytes are those 4 bytes on; it is empty if no entry has the id |
| I18nTextManager.TextIsDetermined | Runtime/Management/GameData/I18nTextManager.cpp:52-58 | these bytes say one text |
| I18nTextManager.Decimal | Runtime/Management/GameData/I18nTextManager.cpp:43-46 | every byte of it is a digit |
| I18nTextManager.ParseOfDecimal | Runtime/Management/GameData/I18nTextManager.cpp:43-46 | the decimal text of an id stands for that id, without leading zeros |

## Left out

- Sockets, epoll, completion ports, threads and mapped files themselves: foreign calls, represented by byte sequences and scripts.
- Logging, the network and game-state managers, build files: plumbing without state worth a proof.
- UdpListener_Unix.cpp: its packet handling is commented out.
- WriteInt32, WriteUInt32 and their readers: no message uses them, and they repeat the other widths.
- EchoMessage.EchoRequest.Unpack: reads only buffers that hold a whole body; the source has no check for others.
- TcpListenerUnix.TcpListener.Receive: negative lengths, and frames whose producer reads past their end, are not modelled; what a closed socket's number is used for next is not either.
- The compression and encryption buffers: no code uses them yet.
- RequestQueue.HandOff: what a handler does with a request, and the deletion of requests, is not modelled; a request is visited.
- RequestDelivery.Serve: has one connection; `RequestsAreVisited` is about the requests made for any number of them.
- EndToEnd.Session: says nothing of the bytes that a connection takes after a failed send to it, nor of packets of 32768 bytes and more.
- ResponseQueue.EverythingGivenIsSent: says that the sending thread can finish, not that a scheduler lets it run.
- TcpListenerWin.Client.ProcessRead: the sequence-number byte, request creation, Send and Accept of the Windows listener are not modelled.
- GameTimeManager.Manager.Update: nested Updates, callbacks registered inside a callback, destruction of timers and rounding of floats are not modelled.
- GameTimeManager.Timer.Register: the two delegates of a lap timer are registered and emptied together; one without callbacks has an empty script.
- GameDataManager.GetKeyTableOffset: names are compared as byte strings without a zero byte check, and the file's other fields are not read.
- I18nTextManager.GetText: switching the language is a system call on files.
