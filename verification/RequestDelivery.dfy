/** The receiver and the queue of requests together: over every interleaving of wake-ups,
    pushes and steps of Dispatch, what the handlers have been given. */
module RequestDelivery {
  import opened Bytes
  import opened EchoMessage
  import opened EndToEnd
  import opened Framing
  import opened RequestQueue
  import opened TcpListenerUnix

  // The receiving thread pushes the requests it makes in their order, so the one pushed
  // next is known by the number pushed so far.
  predicate Numbered(pushed: seq<Request>) {
    forall i | 0 <= i < |pushed| :: pushed[i] == i
  }

  // The requests with these numbers.
  function Named<T>(made: seq<T>, requests: seq<Request>): seq<T> {
    if requests == [] then []
    else (if requests[0] < |made| then [made[requests[0]]] else []) + Named(made, requests[1..])
  }

  lemma {:induction false} NamedOfAppend<T>(made: seq<T>, rs: seq<Request>, more: seq<Request>)
    ensures Named(made, rs + more) == Named(made, rs) + Named(made, more)
  {
    if rs == [] {
      assert rs + more == more;
    } else {
      assert (rs + more)[1..] == rs[1..] + more;
      NamedOfAppend(made, rs[1..], more);
    }
  }

  lemma {:induction false} NamedInOrder<T>(made: seq<T>, pushed: seq<Request>)
    requires Numbered(pushed) && |pushed| <= |made|
    ensures Named(made, pushed) == made[..|pushed|]
  {
    if pushed != [] {
      var n := |pushed| - 1;
      NamedInOrder(made, pushed[..n]);
      assert pushed == pushed[..n] + [n];
      NamedOfAppend(made, pushed[..n], [n]);
      assert Named(made, [n]) == [made[n]] + Named(made, [n][1..]) == [made[n]];
    }
  }

  // Every request made and pushed has been visited, is being visited or waits, once and in
  // the order made.
  lemma RequestsAreVisited<T>(made: seq<T>, s: State)
    requires Inv(s) && Numbered(s.pushed) && |s.pushed| <= |made|
    ensures Named(made, s.visited) + Named(made, Remainder(s)) + Named(made, s.At(s.producer)) == made[..|s.pushed|]
    ensures Named(made, s.visited) <= made
    ensures s.visited == s.pushed && |s.pushed| == |made| ==> Named(made, s.visited) == made
  {
    assert s.pushed == s.visited + Remainder(s) + s.At(s.producer);
    hide Inv, Numbered, Remainder, State.At, Named;
    NamedInOrder(made, s.pushed);
    NamedOfAppend(made, s.visited + Remainder(s), s.At(s.producer));
    NamedOfAppend(made, s.visited, Remainder(s));
    Associative(Named(made, s.visited), Named(made, Remainder(s)), Named(made, s.At(s.producer)));
  }

  // What happens next: a wake-up of the receiving thread, which makes requests, a step of
  // its pushes, or a step of Dispatch. Making requests touches neither vector.
  datatype Event = WakeUp(script: seq<RecvEvent>) | Pushing | Dispatching

  // A step of one of the threads; one that has to wait, or has nothing to push, stays.
  function Next(s: State, e: Event, made: nat): State {
    match e
    case WakeUp(_) => s
    case Pushing =>
      if (s.receiver.Reading? && |s.pushed| >= made) || ReceiverStep(s, |s.pushed|).None? then s
      else ReceiverStep(s, |s.pushed|).value
    case Dispatching =>
      if DispatchStep(s).None? then s else DispatchStep(s).value
  }

  // The requests pushed are the first of those made, and the receiving thread is about to
  // push only while there are more.
  predicate InOrder(s: State, made: nat) {
    && Inv(s) && Numbered(s.pushed) && |s.pushed| <= made
    && (s.receiver.Entered? || s.receiver.Pointing? ==> |s.pushed| < made)
  }

  lemma NextKeeps(s: State, e: Event, made: nat)
    requires InOrder(s, made)
    ensures InOrder(Next(s, e, made), made)
  {
    PushedNext(s);
    if ReceiverStep(s, |s.pushed|).Some? {
      ReceiverKeeps(s, |s.pushed|);
    }
    if DispatchStep(s).Some? {
      DispatchKeeps(s);
    }
    hide Inv, ReceiverStep, DispatchStep;
  }

  lemma PushedNext(s: State)
    ensures ReceiverStep(s, |s.pushed|).Some? ==>
              var s' := ReceiverStep(s, |s.pushed|).value;
              && s'.pushed == s.pushed + (if s.receiver.Pointing? then [|s.pushed|] else [])
              && (s'.receiver.Entered? ==> s.receiver.Reading?) && (s'.receiver.Pointing? ==> s.receiver.Entered?)
    ensures DispatchStep(s).Some? ==>
              DispatchStep(s).value.pushed == s.pushed && DispatchStep(s).value.receiver == s.receiver
  {
  }

  // ---- Nothing made is left waiting for ever.

  function Nexts(s: State, events: seq<Event>, made: nat): State
    decreases |events|
  {
    if events == [] then s else Nexts(Next(s, events[0], made), events[1..], made)
  }

  predicate Stepping(events: seq<Event>) {
    forall i | 0 <= i < |events| :: !events[i].WakeUp?
  }

  lemma {:induction false} NextsOfAppend(s: State, events: seq<Event>, more: seq<Event>, made: nat)
    ensures Nexts(s, events + more, made) == Nexts(Nexts(s, events, made), more, made)
    decreases |events|
  {
    if events == [] {
      assert events + more == more;
    } else {
      assert (events + more)[1..] == events[1..] + more;
      hide Next;
      NextsOfAppend(Next(s, events[0], made), events[1..], more, made);
    }
  }

  // How far the receiving thread is from having pushed everything and given the lock back.
  function ToGo(s: State, made: nat): nat
    requires |s.pushed| <= made
  {
    4 * (made - |s.pushed|)
    + match s.receiver
      case Reading => 3
      case Entered => 2
      case Pointing(_) => 1
      case Leaving => 4
  }

  // With the lock not in the hands of Dispatch, a push comes closer.
  lemma PushProgresses(s: State, made: nat)
    requires InOrder(s, made) && !s.holder.Dispatcher? && !(s.receiver.Reading? && |s.pushed| == made)
    ensures var s' := Next(s, Pushing, made);
            InOrder(s', made) && !s'.holder.Dispatcher? && ToGo(s', made) < ToGo(s, made)
  {
    NextKeeps(s, Pushing, made);
    hide Numbered, Conserved, Pointers;
  }

  lemma PushesAll(s: State, made: nat) returns (events: seq<Event>)
    requires InOrder(s, made) && !s.holder.Dispatcher?
    ensures Stepping(events)
    ensures var s' := Nexts(s, events, made); InOrder(s', made) && s'.receiver.Reading? && |s'.pushed| == made
    decreases ToGo(s, made)
  {
    hide Next, Inv, Numbered;
    events := [];
    if !(s.receiver.Reading? && |s.pushed| == made) {
      PushProgresses(s, made);
      hide InOrder, ToGo;
      var later := PushesAll(Next(s, Pushing, made), made);
      events := [Pushing] + later;
      assert events[1..] == later;
    }
  }

  // Dispatch gives the lock back after two steps at most.
  lemma LockIsGivenBack(s: State, made: nat) returns (events: seq<Event>)
    requires InOrder(s, made)
    ensures Stepping(events)
    ensures var s' := Nexts(s, events, made); InOrder(s', made) && !s'.holder.Dispatcher?
  {
    events := [];
    if s.holder.Dispatcher? {
      var s1 := Next(s, Event.Dispatching, made);
      var s2 := Next(s1, Event.Dispatching, made);
      NextKeeps(s, Event.Dispatching, made);
      NextKeeps(s1, Event.Dispatching, made);
      assert s.dispatch.Unlock? ==> s1.holder.Nobody?;
      assert s.dispatch.GiveVector? ==> s1.dispatch.Unlock? && s2.holder.Nobody?;
      hide Next, InOrder;
      events := if s1.holder.Dispatcher? then [Event.Dispatching, Event.Dispatching] else [Event.Dispatching];
      assert [Event.Dispatching, Event.Dispatching][1..] == [Event.Dispatching] && [Event.Dispatching][1..] == [];
      assert Nexts(s1, [Event.Dispatching], made) == s2 && Nexts(s1, [], made) == s1;
    }
  }

  // The steps of Dispatch as events.
  lemma {:induction false} RunIsNexts(s: State, actions: seq<Action>, made: nat) returns (events: seq<Event>)
    requires Run(s, actions).Some? && forall a <- actions :: a.Dispatching?
    ensures Stepping(events) && Nexts(s, events, made) == Run(s, actions).value
    decreases |actions|
  {
    events := [];
    if actions != [] {
      assert actions[0] in actions;
      assert Next(s, Event.Dispatching, made) == Step(s, actions[0]).value;
      hide Step, Next;
      var later := RunIsNexts(Step(s, actions[0]).value, actions[1..], made);
      events := [Event.Dispatching] + later;
      assert events[1..] == later;
    }
  }

  // Wherever the two threads stand, steps of theirs alone bring every request made so far to
  // its handler.
  lemma AllAreHandled<T>(made: seq<T>, s: State) returns (events: seq<Event>)
    requires InOrder(s, |made|)
    ensures Stepping(events)
    ensures Named(made, Nexts(s, events, |made|).visited) == made
  {
    hide InOrder, Nexts, Numbered, Named, Run, Stepping;
    var freed := LockIsGivenBack(s, |made|);
    var s1 := Nexts(s, freed, |made|);
    var pushes := PushesAll(s1, |made|);
    var s2 := Nexts(s1, pushes, |made|);
    assert Inv(s2) && Numbered(s2.pushed) by { InOrderParts(s2, |made|); }
    hide Inv;
    var actions := Drains(s2);
    var visits := RunIsNexts(s2, actions, |made|);
    var s3 := Nexts(s2, visits, |made|);
    events := freed + (pushes + visits);
    NextsOfAppend(s, freed, pushes + visits, |made|);
    NextsOfAppend(s1, pushes, visits, |made|);
    SteppingOfAppend(pushes, visits);
    SteppingOfAppend(freed, pushes + visits);
    NamedInOrder(made, s3.visited);
    assert made[..|made|] == made;
  }

  lemma InOrderParts(s: State, made: nat)
    requires InOrder(s, made)
    ensures Inv(s) && Numbered(s.pushed) && |s.pushed| <= made
  {
  }

  lemma SteppingOfAppend(events: seq<Event>, more: seq<Event>)
    requires Stepping(events) && Stepping(more)
    ensures Stepping(events + more)
  {
  }

  // A wake-up: recv will answer as the script says.
  method Wake<T(!new)>(listener: TcpListener<T>, conn: Connection<T>, sock: Socket, script: seq<RecvEvent>)
    requires listener.maxPacketBytes >= LENGTH_SIZE
    requires listener.InStep(conn, sock) && listener.producerRequests == conn.emitted
    requires LengthsWithin(sock.delivered + sock.incoming, MAX_LENGTH)
    requires FrameLocal(listener.produce, sock.delivered + sock.incoming)
    modifies listener, conn, conn.final, sock
    ensures listener.InStep(conn, sock) && listener.producerRequests == conn.emitted && conn.final == old(conn.final)
    ensures old(listener.producerRequests) <= listener.producerRequests
    ensures sock.delivered + sock.incoming == old(sock.delivered + sock.incoming)
  {
    hide LengthsWithin, FrameLocal, Frames, Requests, Rest, AllAccepted, FramesFit;
    sock.script := script;
    var _ := listener.Receive(conn, sock);
  }

  // A server with one connection under any interleaving: the handlers have been given the
  // requests of the frames received, in order, up to those that wait.
  method Serve<T(!new)>(listener: TcpListener<T>, conn: Connection<T>, sock: Socket, events: seq<Event>) returns (s: State)
    requires listener.maxPacketBytes >= LENGTH_SIZE
    requires listener.InStep(conn, sock) && listener.producerRequests == conn.emitted
    requires LengthsWithin(sock.delivered + sock.incoming, MAX_LENGTH)
    requires FrameLocal(listener.produce, sock.delivered + sock.incoming)
    modifies listener, conn, conn.final, sock
    ensures listener.InStep(conn, sock) && sock.delivered + sock.incoming == old(sock.delivered + sock.incoming)
    ensures listener.producerRequests == Requests(listener.produce, Frames(sock.delivered))
    ensures InOrder(s, |listener.producerRequests|)
    ensures var made := listener.producerRequests;
            && Named(made, s.visited) + Named(made, Remainder(s)) + Named(made, s.At(s.producer)) == made[..|s.pushed|]
            && Named(made, s.visited) <= made
  {
    hide LengthsWithin, FrameLocal, Inv, Numbered, Frames, Requests, TcpListener.InStep, Next, Named, InOrder;
    s := Init();
    Starts(|listener.producerRequests|);
    for i := 0 to |events|
      invariant listener.InStep(conn, sock) && listener.producerRequests == conn.emitted
      invariant conn.final == old(conn.final)
      invariant sock.delivered + sock.incoming == old(sock.delivered + sock.incoming)
      invariant InOrder(s, |listener.producerRequests|)
    {
      if events[i].WakeUp? {
        StaysInOrder(s, |listener.producerRequests|);
        Wake(listener, conn, sock, events[i].script);
      } else {
        NextKeeps(s, events[i], |listener.producerRequests|);
        s := Next(s, events[i], |listener.producerRequests|);
      }
    }
    EmittedSoFar(listener, conn, sock);
    InOrderParts(s, |listener.producerRequests|);
    RequestsAreVisited(listener.producerRequests, s);
  }

  lemma Starts(made: nat)
    ensures InOrder(Init(), made)
  {
  }

  // More requests made leave the order as it is.
  lemma StaysInOrder(s: State, made: nat)
    requires InOrder(s, made)
    ensures forall more: nat {:trigger InOrder(s, more)} | more >= made :: InOrder(s, more)
  {
  }

  lemma EmittedSoFar<T(!new)>(listener: TcpListener<T>, conn: Connection<T>, sock: Socket)
    requires listener.InStep(conn, sock)
    ensures conn.emitted == Requests(listener.produce, Frames(sock.delivered))
  {
  }

  // From responses to handlers: at any moment the handlers have been given the first of the
  // messages sent, and with everything received, pushed and visited, all of them.
  lemma MessagesAreHandled(ms: seq<Message>, maxPacketBytes: nat, delivered: seq<byte>, coming: seq<byte>, s: State)
    requires EachFramable(ms)
    requires delivered + coming == SentStream(ms) && FramesFit(delivered, maxPacketBytes)
    requires Inv(s) && Numbered(s.pushed) && |s.pushed| <= |Requests(MakeMessage, Frames(delivered))|
    ensures var made := Requests(MakeMessage, Frames(delivered));
            && Named(made, s.visited) <= Received(Fitting(ms, maxPacketBytes))
            && (coming == [] && s.visited == s.pushed && |s.pushed| == |made| ==> Named(made, s.visited) == Received(ms))
  {
    hide EachFramable, SentStream, Frames, FramesFit, Inv, Numbered, MakeMessage, Requests, Received, Fitting, WholeIn, Named, LengthsWithin;
    DeliveredSoFar(ms, maxPacketBytes, delivered, coming);
    MadeSoFar(ms, maxPacketBytes, delivered, coming);
    RequestsAreVisited(Requests(MakeMessage, Frames(delivered)), s);
  }
}
