/** The hand-off of requests from the receiving thread to Dispatch: two vectors, a producer
    and a consumer pointer, and a lock that guards only part of the exchange. Each action
    is one atomic step of one thread, so a list of actions is an interleaving. */
module RequestQueue {
  import opened Options
  import opened Bytes

  // A request, known by its address.
  type Request = nat

  datatype Vector = First | Second

  // Where Dispatch is: the line it is about to run.
  datatype DispatchPc =
    | SaveConsumer            // temp = consumerRequests
    | TakeProducer            // consumerRequests = producerRequests
    | Lock                    // requestLocker.lock()
    | GiveVector              // producerRequests = temp
    | Unlock                  // requestLocker.unlock()
    | Visit(next: nat)        // the loop over consumerRequests
    | Clear                   // consumerRequests->clear()

  // Where the receiving thread is.
  datatype ReceiverPc =
    | Reading                 // outside the critical section
    | Entered                 // holds the lock
    | Pointing(to: Vector)    // has read producerRequests
    | Leaving                 // has pushed

  datatype Holder = Nobody | Dispatcher | Receiver

  datatype State = State(
    first: seq<Request>, second: seq<Request>,
    producer: Vector, consumer: Vector, temp: Vector,
    holder: Holder, dispatch: DispatchPc, receiver: ReceiverPc,
    // History: all requests pushed, all visited, and those pushed before the last exchange.
    pushed: seq<Request>, visited: seq<Request>, exchanged: seq<Request>)
  {
    function At(v: Vector): seq<Request> {
      if v.First? then first else second
    }

    function Put(v: Vector, items: seq<Request>): State {
      if v.First? then this.(first := items) else this.(second := items)
    }
  }

  function Init(): State {
    State([], [], First, Second, Second, Nobody, SaveConsumer, Reading, [], [], [])
  }

  datatype Action = Dispatching | Receiving(request: Request)

  // One step of a thread, or None while it waits for the lock.
  function Step(s: State, a: Action): Option<State> {
    match a
    case Dispatching => DispatchStep(s)
    case Receiving(request) => ReceiverStep(s, request)
  }

  function DispatchStep(s: State): Option<State> {
    match s.dispatch
    case SaveConsumer => Some(s.(temp := s.consumer, dispatch := TakeProducer))
    case TakeProducer => Some(s.(consumer := s.producer, dispatch := Lock))
    case Lock => if s.holder.Nobody? then Some(s.(holder := Dispatcher, dispatch := GiveVector)) else None
    case GiveVector => Some(s.(producer := s.temp, exchanged := s.pushed, dispatch := Unlock))
    case Unlock => Some(s.(holder := Nobody, dispatch := Visit(0)))
    case Visit(next) =>
      if next < |s.At(s.consumer)|
      then Some(s.(visited := s.visited + [s.At(s.consumer)[next]], dispatch := Visit(next + 1)))
      else Some(s.(dispatch := Clear))
    case Clear => Some(s.Put(s.consumer, []).(dispatch := SaveConsumer))
  }

  function ReceiverStep(s: State, request: Request): Option<State> {
    match s.receiver
    case Reading => if s.holder.Nobody? then Some(s.(holder := Receiver, receiver := Entered)) else None
    case Entered => Some(s.(receiver := Pointing(s.producer)))
    case Pointing(to) => Some(s.Put(to, s.At(to) + [request]).(pushed := s.pushed + [request], receiver := Leaving))
    case Leaving => Some(s.(holder := Nobody, receiver := Reading))
  }

  // The state after an interleaving, if none of its steps had to wait.
  function Run(s: State, actions: seq<Action>): Option<State>
    decreases |actions|
  {
    if actions == [] then Some(s)
    else match Step(s, actions[0])
      case None => None
      case Some(s') => Run(s', actions[1..])
  }

  // The requests handed to Dispatch and not yet visited; none while both pointers name
  // one vector, whose contents count with the producer's.
  function Remainder(s: State): seq<Request> {
    match s.dispatch
    case Unlock => s.At(s.consumer)
    case Visit(next) => if next <= |s.At(s.consumer)| then s.At(s.consumer)[next..] else []
    case _ => []
  }

  predicate Locked(s: State) {
    && (s.holder.Dispatcher? <==> s.dispatch.GiveVector? || s.dispatch.Unlock?)
    && (s.holder.Receiver? <==> !s.receiver.Reading?)
    && (s.receiver.Pointing? ==> s.receiver.to == s.producer)
  }

  predicate Pointers(s: State) {
    match s.dispatch
    case SaveConsumer => s.consumer != s.producer && s.At(s.consumer) == []
    case TakeProducer => s.consumer != s.producer && s.temp == s.consumer && s.At(s.temp) == []
    case Lock => s.consumer == s.producer != s.temp && s.At(s.temp) == []
    case GiveVector => s.consumer == s.producer != s.temp && s.At(s.temp) == []
    case Unlock => s.consumer != s.producer && s.At(s.producer) == []
    case Visit(next) => s.consumer != s.producer && next <= |s.At(s.consumer)|
    case Clear => s.consumer != s.producer
  }

  // No request is lost, repeated or reordered; what Dispatch visits is what was pushed
  // before it exchanged the vectors.
  predicate Conserved(s: State) {
    && s.pushed == s.visited + Remainder(s) + s.At(s.producer)
    && (s.dispatch.Unlock? || s.dispatch.Visit? || s.dispatch.Clear? ==> s.exchanged == s.visited + Remainder(s))
  }

  predicate Inv(s: State) {
    Locked(s) && Pointers(s) && Conserved(s)
  }

  lemma DispatchKeeps(s: State)
    requires Inv(s) && DispatchStep(s).Some?
    ensures Inv(DispatchStep(s).value)
  {
    if s.dispatch.Visit? && s.dispatch.next < |s.At(s.consumer)| {
      VisitKeeps(s);
    } else {
      HandOnKeeps(s);
    }
  }

  lemma VisitKeeps(s: State)
    requires Inv(s) && s.dispatch.Visit? && s.dispatch.next < |s.At(s.consumer)|
    ensures Inv(DispatchStep(s).value)
  {
    var items, n := s.At(s.consumer), s.dispatch.next;
    assert items[n..] == [items[n]] + items[n + 1..];
    Associative(s.visited, [items[n]], items[n + 1..]);
    Associative(s.visited, [items[n]] + items[n + 1..], s.At(s.producer));
    Associative(s.visited + [items[n]], items[n + 1..], s.At(s.producer));
  }

  // Every other step leaves what is to be visited where it was.
  lemma HandOnKeeps(s: State)
    requires Inv(s) && DispatchStep(s).Some?
    requires !(s.dispatch.Visit? && s.dispatch.next < |s.At(s.consumer)|)
    ensures Inv(DispatchStep(s).value)
  {
    var s' := DispatchStep(s).value;
    assert s'.visited == s.visited && s'.pushed == s.pushed;
    Associative(s.visited, Remainder(s), s.At(s.producer));
    Associative(s.visited, Remainder(s'), s'.At(s'.producer));
  }

  lemma ReceiverKeeps(s: State, request: Request)
    requires Inv(s) && ReceiverStep(s, request).Some?
    ensures Inv(ReceiverStep(s, request).value)
  {
    if s.receiver.Pointing? {
      Associative(s.visited + Remainder(s), s.At(s.producer), [request]);
    }
  }

  // Every state of every interleaving conserves the requests.
  lemma {:induction false} RunKeeps(s: State, actions: seq<Action>)
    requires Inv(s) && Run(s, actions).Some?
    ensures Inv(Run(s, actions).value)
    decreases |actions|
  {
    if actions != [] {
      match actions[0] {
        case Dispatching => DispatchKeeps(s);
        case Receiving(request) => ReceiverKeeps(s, request);
      }
      RunKeeps(Step(s, actions[0]).value, actions[1..]);
    }
  }

  // ---- What the receiving thread pushes.

  // The requests that stand in the steps of the receiving thread, in their order.
  function Receives(actions: seq<Action>): seq<Request> {
    if actions == [] then []
    else (if actions[0].Receiving? then [actions[0].request] else []) + Receives(actions[1..])
  }

  // A push is four steps: taking the lock, reading the pointer, the push itself, giving the
  // lock back. The requests that have been pushed.
  function Arrived(requests: seq<Request>): seq<Request> {
    if |requests| < 3 then []
    else [requests[2]] + if |requests| < 4 then [] else Arrived(requests[4..])
  }

  // What is still to be pushed by these steps, when the first push stands at pc.
  function ToPush(pc: ReceiverPc, requests: seq<Request>): seq<Request>
    decreases |requests|
  {
    if requests == [] then []
    else match pc
      case Reading => ToPush(Entered, requests[1..])
      case Entered => ToPush(Pointing(First), requests[1..])
      case Pointing(_) => [requests[0]] + ToPush(Leaving, requests[1..])
      case Leaving => ToPush(Reading, requests[1..])
  }

  lemma {:induction false} ToPushIsArrived(requests: seq<Request>)
    ensures ToPush(Reading, requests) == Arrived(requests)
    decreases |requests|
  {
    if |requests| >= 2 {
      assert requests[1..][1..] == requests[2..];
      assert ToPush(Entered, requests[1..]) == ToPush(Pointing(First), requests[2..]);
      if |requests| >= 3 {
        assert requests[2..][1..] == requests[3..];
        assert ToPush(Pointing(First), requests[2..]) == [requests[2]] + ToPush(Leaving, requests[3..]);
        if |requests| >= 4 {
          assert requests[3..][1..] == requests[4..];
          ToPushIsArrived(requests[4..]);
        }
      }
    }
  }

  lemma AnyVector(to: Vector, requests: seq<Request>)
    ensures ToPush(Pointing(to), requests) == ToPush(Pointing(First), requests)
  {
  }

  lemma StepPushes(s: State, a: Action, later: seq<Request>)
    requires Step(s, a).Some?
    ensures var s', requests := Step(s, a).value, (if a.Receiving? then [a.request] else []) + later;
            s.pushed + ToPush(s.receiver, requests) == s'.pushed + ToPush(s'.receiver, later)
  {
    if a.Receiving? {
      assert ([a.request] + later)[1..] == later;
      AnyVector(s.producer, later);
      if s.receiver.Pointing? {
        Associative(s.pushed, [a.request], ToPush(Leaving, later));
      }
    } else {
      assert [] + later == later;
    }
  }

  lemma {:induction false} RunPushes(s: State, actions: seq<Action>)
    requires Run(s, actions).Some?
    ensures Run(s, actions).value.pushed == s.pushed + ToPush(s.receiver, Receives(actions))
    decreases |actions|
  {
    if actions != [] {
      StepPushes(s, actions[0], Receives(actions[1..]));
      hide Step, ToPush;
      RunPushes(Step(s, actions[0]).value, actions[1..]);
    }
  }

  lemma PushedIsArrived(actions: seq<Action>)
    requires Run(Init(), actions).Some?
    ensures Run(Init(), actions).value.pushed == Arrived(Receives(actions))
  {
    RunPushes(Init(), actions);
    ToPushIsArrived(Receives(actions));
  }

  // The hand-off over every interleaving from the start: of the requests pushed nothing is
  // lost, repeated or reordered, one holder of the lock, and a completed Dispatch has visited
  // exactly what was pushed before it exchanged the vectors.
  lemma HandOff(actions: seq<Action>)
    requires Run(Init(), actions).Some?
    ensures var s := Run(Init(), actions).value;
            && Arrived(Receives(actions)) == s.visited + Remainder(s) + s.At(s.producer)
            && s.pushed == Arrived(Receives(actions))
            && !(!s.receiver.Reading? && (s.dispatch.GiveVector? || s.dispatch.Unlock?))
            && (s.dispatch.Clear? ==> s.visited == s.exchanged)
  {
    PushedIsArrived(actions);
    hide Arrived, Receives;
    RunKeeps(Init(), actions);
  }

  // A vector that Dispatch is iterating is never pushed to, and pushing to the vector both
  // pointers name, before the exchange, is not lost.
  lemma PushAvoidsIteration(actions: seq<Action>, request: Request)
    requires Run(Init(), actions).Some?
    ensures var s := Run(Init(), actions).value;
            s.receiver.Pointing? ==>
              var s' := ReceiverStep(s, request).value;
              && (s.dispatch.Visit? || s.dispatch.Clear? ==> s'.At(s'.consumer) == s.At(s.consumer))
              && s'.At(s'.producer) == s.At(s.producer) + [request]
              && Remainder(s') == Remainder(s)
  {
    RunKeeps(Init(), actions);
  }

  // Some thread can always move: waiting for the lock never blocks both.
  lemma NeverStuck(actions: seq<Action>, request: Request)
    requires Run(Init(), actions).Some?
    ensures var s := Run(Init(), actions).value;
            DispatchStep(s).Some? || ReceiverStep(s, request).Some?
  {
    RunKeeps(Init(), actions);
  }

  // Steps Dispatch still has to make before the next request is visited.
  function Distance(pc: DispatchPc): nat {
    match pc
    case Visit(_) => 8
    case Clear => 7
    case SaveConsumer => 6
    case TakeProducer => 5
    case Lock => 4
    case GiveVector => 3
    case Unlock => 2
  }

  function Work(s: State): nat
    requires |s.visited| <= |s.pushed|
  {
    20 * (|s.pushed| - |s.visited|)
    + if s.dispatch.Visit? && Remainder(s) != [] then 1 else Distance(s.dispatch)
  }

  lemma VisitedIsPushed(s: State)
    requires Inv(s)
    ensures s.visited <= s.pushed
  {
    Associative(s.visited, Remainder(s), s.At(s.producer));
    hide Locked, Pointers;
  }

  lemma DispatchProgresses(s: State)
    requires Inv(s) && s.receiver.Reading? && s.pushed != s.visited
    ensures DispatchStep(s).Some?
    ensures var s' := DispatchStep(s).value;
            && Inv(s') && s'.receiver.Reading? && s'.pushed == s.pushed
            && |s.visited| <= |s.pushed| && |s'.visited| <= |s'.pushed| && Work(s') < Work(s)
  {
    DispatchKeeps(s);
    VisitedIsPushed(s);
    VisitedIsPushed(DispatchStep(s).value);
    DispatchComesCloser(s);
  }

  lemma DispatchComesCloser(s: State)
    requires Inv(s) && s.receiver.Reading? && s.pushed != s.visited && DispatchStep(s).Some?
    requires |s.visited| <= |s.pushed| && |DispatchStep(s).value.visited| <= |DispatchStep(s).value.pushed|
    ensures Work(DispatchStep(s).value) < Work(s)
  {
    if s.dispatch.Unlock? {
      assert s.At(s.producer) == [] && s.visited + Remainder(s) + [] == s.visited + Remainder(s);
      assert Remainder(s) == [] ==> s.visited + Remainder(s) == s.visited;
    }
    hide Locked;
  }

  // With nobody pushing, Dispatch called again and again visits every request pushed.
  lemma Drains(s: State) returns (actions: seq<Action>)
    requires Inv(s) && s.receiver.Reading?
    ensures forall a <- actions :: a.Dispatching?
    ensures Run(s, actions).Some?
    ensures var s' := Run(s, actions).value; s'.pushed == s'.visited == s.pushed
    decreases |s.pushed| >= |s.visited|, if |s.pushed| >= |s.visited| then Work(s) else 0
  {
    actions := [];
    if s.pushed != s.visited {
      DispatchProgresses(s);
      var later := Drains(DispatchStep(s).value);
      actions := [Dispatching] + later;
      assert actions[1..] == later;
    }
  }
}

/** Dispatch over heap vectors, where the two pointers really alias. The receiving thread
    is the lists of requests it pushes at each point where Dispatch can be interrupted. */
module RequestDispatch {
  import opened Bytes

  class Vector<T> {
    var items: seq<T>

    constructor ()
      ensures items == []
    {
      items := [];
    }
  }

  class Queues<T> {
    var producerRequests: Vector<T>
    var consumerRequests: Vector<T>
    var visited: seq<T>

    ghost predicate Idle()
      reads this, consumerRequests
    {
      producerRequests != consumerRequests && consumerRequests.items == []
    }

    constructor ()
      ensures Idle() && producerRequests.items == [] && visited == []
      ensures fresh(producerRequests) && fresh(consumerRequests)
    {
      producerRequests := new Vector();
      consumerRequests := new Vector();
      visited := [];
    }

    // The receiving thread pushes these, each under the lock.
    method Arrive(requests: seq<T>)
      modifies producerRequests
      ensures producerRequests.items == old(producerRequests.items) + requests
    {
      for i := 0 to |requests|
        invariant producerRequests.items == old(producerRequests.items) + requests[..i]
      {
        producerRequests.items := producerRequests.items + [requests[i]];
      }
    }

    // Requests arrive at every point where another thread can come in: before the first
    // pointer moves, while both name one vector, behind the exchange, between two visits,
    // and before the visited ones are cleared.
    method Dispatch(early: seq<T>, whileAliased: seq<T>, exchanged: seq<T>, during: nat -> seq<T>, last: seq<T>)
      returns (ghost late: seq<T>)
      requires Idle()
      modifies this, producerRequests, consumerRequests
      ensures Idle()
      ensures visited == old(visited) + old(producerRequests.items) + early + whileAliased
      ensures producerRequests.items == late
      ensures late == exchanged + Pushed(during, |old(producerRequests.items) + early + whileAliased|) + last
      ensures {producerRequests, consumerRequests} == old({producerRequests, consumerRequests})
    {
      var temp := consumerRequests;
      Arrive(early);
      consumerRequests := producerRequests;
      Arrive(whileAliased);
      producerRequests := temp;
      Arrive(exchanged);

      ghost var taken := consumerRequests.items;
      var i := 0;
      late := exchanged;
      while i < |consumerRequests.items|
        invariant 0 <= i <= |taken| && consumerRequests.items == taken
        invariant producerRequests == temp != consumerRequests
        invariant consumerRequests == old(producerRequests) && temp == old(consumerRequests)
        invariant visited == old(visited) + taken[..i]
        invariant producerRequests.items == late == exchanged + Pushed(during, i)
      {
        Associative(exchanged, Pushed(during, i), during(i));
        visited := visited + [consumerRequests.items[i]];
        Arrive(during(i));
        late := late + during(i);
        i := i + 1;
      }
      Arrive(last);
      late := late + last;
      consumerRequests.items := [];
    }
  }

  // The requests that arrive while the first n are being visited.
  ghost function Pushed<T>(during: nat -> seq<T>, n: nat): seq<T> {
    if n == 0 then [] else Pushed(during, n - 1) + during(n - 1)
  }
}
