/** The hand-off of responses from any number of threads calling Send to the sending
    thread, which sleeps on a condition variable. Each action is one atomic step of one
    thread. Only the thread that holds the lock can be inside Send, so one program counter
    stands for every caller. */
module ResponseQueue {
  import opened Bytes
  import opened Options

  // A response, known by its address.
  type Response = nat

  datatype Vector = First | Second

  // Where the sending thread is: the line it is about to run.
  datatype ConsumerPc =
    | SaveConsumer            // temp = consumerResponses
    | TakeProducer            // consumerResponses = producerResponses
    | Lock                    // uniqueLock.lock()
    | Check                   // while (!hasNewResponse)
    | Asleep                  // inside wait, the lock given up
    | Awake                   // inside wait, taking the lock back
    | GiveVector              // producerResponses = temp
    | LowerFlag               // hasNewResponse = false
    | Unlock                  // uniqueLock.unlock()
    | Transmit(next: nat)     // pack and send, over consumerResponses
    | Clear                   // consumerResponses->clear()

  // Where the thread inside Send is.
  datatype SendPc = Outside | Push(response: Response) | RaiseFlag | Notify | Release

  datatype Holder = Nobody | Consumer | Sender

  datatype State = State(
    first: seq<Response>, second: seq<Response>,
    producer: Vector, consumer: Vector, temp: Vector,
    holder: Holder, consuming: ConsumerPc, sending: SendPc,
    hasNewResponse: bool,
    // A notification that reached the sleeping thread and that it has not acted on.
    notified: bool,
    // History: the responses given to Send, and those packed and sent out.
    given: seq<Response>, packed: seq<Response>)
  {
    function At(v: Vector): seq<Response> {
      if v.First? then first else second
    }

    function Put(v: Vector, items: seq<Response>): State {
      if v.First? then this.(first := items) else this.(second := items)
    }
  }

  function Init(): State {
    State([], [], First, Second, Second, Nobody, SaveConsumer, Outside, false, false, [], [])
  }

  // A spurious wake-up is a step of its own.
  datatype Action = Consuming | Sending(response: Response) | Spurious

  function Step(s: State, a: Action): Option<State> {
    match a
    case Consuming => ConsumerStep(s)
    case Sending(response) => SendStep(s, response)
    case Spurious => if s.consuming.Asleep? then Some(s.(notified := false, consuming := Awake)) else None
  }

  function ConsumerStep(s: State): Option<State> {
    match s.consuming
    case SaveConsumer => Some(s.(temp := s.consumer, consuming := TakeProducer))
    case TakeProducer => Some(s.(consumer := s.producer, consuming := Lock))
    case Lock => if s.holder.Nobody? then Some(s.(holder := Consumer, consuming := Check)) else None
    case Check =>
      if s.hasNewResponse then Some(s.(consuming := GiveVector))
      else Some(s.(holder := Nobody, notified := false, consuming := Asleep))
    case Asleep => if s.notified then Some(s.(notified := false, consuming := Awake)) else None
    case Awake => if s.holder.Nobody? then Some(s.(holder := Consumer, consuming := Check)) else None
    case GiveVector => Some(s.(producer := s.temp, consuming := LowerFlag))
    case LowerFlag => Some(s.(hasNewResponse := false, consuming := Unlock))
    case Unlock => Some(s.(holder := Nobody, consuming := Transmit(0)))
    case Transmit(next) =>
      if next < |s.At(s.consumer)|
      then Some(s.(packed := s.packed + [s.At(s.consumer)[next]], consuming := Transmit(next + 1)))
      else Some(s.(consuming := Clear))
    case Clear => Some(s.Put(s.consumer, []).(consuming := SaveConsumer))
  }

  function SendStep(s: State, response: Response): Option<State> {
    match s.sending
    case Outside => if s.holder.Nobody? then Some(s.(holder := Sender, sending := Push(response))) else None
    case Push(r) => Some(s.Put(s.producer, s.At(s.producer) + [r]).(given := s.given + [r], sending := RaiseFlag))
    case RaiseFlag => Some(s.(hasNewResponse := true, sending := Notify))
    case Notify => Some(s.(notified := s.notified || s.consuming.Asleep?, sending := Release))
    case Release => Some(s.(holder := Nobody, sending := Outside))
  }

  function Run(s: State, actions: seq<Action>): Option<State>
    decreases |actions|
  {
    if actions == [] then Some(s)
    else match Step(s, actions[0])
      case None => None
      case Some(s') => Run(s', actions[1..])
  }

  // The responses taken by the sending thread and not yet packed.
  function Remainder(s: State): seq<Response> {
    match s.consuming
    case LowerFlag => s.At(s.consumer)
    case Unlock => s.At(s.consumer)
    case Transmit(next) => if next <= |s.At(s.consumer)| then s.At(s.consumer)[next..] else []
    case _ => []
  }

  predicate Locked(s: State) {
    && (s.holder.Consumer? <==>
          s.consuming.Check? || s.consuming.GiveVector? || s.consuming.LowerFlag? || s.consuming.Unlock?)
    && (s.holder.Sender? <==> !s.sending.Outside?)
  }

  predicate Pointers(s: State) {
    match s.consuming
    case SaveConsumer => s.consumer != s.producer && s.At(s.consumer) == []
    case TakeProducer => s.consumer != s.producer && s.temp == s.consumer && s.At(s.temp) == []
    case LowerFlag => s.consumer != s.producer && s.At(s.producer) == []
    case Unlock => s.consumer != s.producer && s.At(s.producer) == []
    case Transmit(next) => s.consumer != s.producer && next <= |s.At(s.consumer)|
    case Clear => s.consumer != s.producer
    case _ => s.consumer == s.producer != s.temp && s.At(s.temp) == []
  }

  // The flag says whether the producer's vector holds anything, but between a push and
  // the flag's rise, and between the exchange of the vectors and its fall.
  predicate Flagged(s: State) {
    && (s.sending.RaiseFlag? ==> s.At(s.producer) != [])
    && (s.consuming.GiveVector? || s.consuming.LowerFlag? ==> s.hasNewResponse)
    && (!s.sending.RaiseFlag? && !s.consuming.LowerFlag? ==> (s.hasNewResponse <==> s.At(s.producer) != []))
  }

  // While the sending thread sleeps on a raised flag, a notification is pending or on
  // its way from the thread inside Send.
  predicate WillWake(s: State) {
    s.consuming.Asleep? && s.hasNewResponse ==> s.notified || s.sending.Notify?
  }

  predicate Conserved(s: State) {
    s.given == s.packed + Remainder(s) + s.At(s.producer)
  }

  predicate Inv(s: State) {
    Locked(s) && Pointers(s) && Flagged(s) && WillWake(s) && Conserved(s)
  }

  lemma ConsumerKeepsLock(s: State)
    requires Locked(s) && ConsumerStep(s).Some?
    ensures Locked(ConsumerStep(s).value)
  {
  }

  lemma ConsumerKeepsPointers(s: State)
    requires Pointers(s) && ConsumerStep(s).Some?
    ensures Pointers(ConsumerStep(s).value)
  {
  }

  lemma ConsumerKeepsFlag(s: State)
    requires Locked(s) && Pointers(s) && Flagged(s) && ConsumerStep(s).Some?
    ensures Flagged(ConsumerStep(s).value)
  {
  }

  lemma ConsumerKeepsWaking(s: State)
    requires WillWake(s) && ConsumerStep(s).Some?
    ensures WillWake(ConsumerStep(s).value)
  {
  }

  lemma ConsumerConserves(s: State)
    requires Pointers(s) && Conserved(s) && ConsumerStep(s).Some?
    ensures Conserved(ConsumerStep(s).value)
  {
    if s.consuming.Transmit? && s.consuming.next < |s.At(s.consumer)| {
      PackingConserves(s);
    } else {
      RemainderHandedOn(s);
    }
  }

  lemma PackingConserves(s: State)
    requires s.consuming.Transmit? && s.consuming.next < |s.At(s.consumer)| && Conserved(s)
    ensures Conserved(ConsumerStep(s).value)
  {
    var s' := ConsumerStep(s).value;
    var items, n := s.At(s.consumer), s.consuming.next;
    assert s'.first == s.first && s'.second == s.second && s'.producer == s.producer && s'.consumer == s.consumer;
    assert s'.given == s.given && s'.packed == s.packed + [items[n]];
    assert Remainder(s) == items[n..] && Remainder(s') == items[n + 1..];
    hide ConsumerStep, Remainder;
    OneOver(s.packed, items, n, s.At(s.producer));
  }

  lemma OneOver(packed: seq<Response>, items: seq<Response>, n: nat, waiting: seq<Response>)
    requires n < |items|
    ensures packed + items[n..] + waiting == packed + [items[n]] + items[n + 1..] + waiting
  {
    assert items[n..] == [items[n]] + items[n + 1..];
    Associative(packed, [items[n]], items[n + 1..]);
  }

  // Every other step of the sending thread leaves what is to be packed where it was.
  lemma RemainderHandedOn(s: State)
    requires Pointers(s) && ConsumerStep(s).Some?
    requires !(s.consuming.Transmit? && s.consuming.next < |s.At(s.consumer)|)
    ensures var s' := ConsumerStep(s).value;
            && s'.given == s.given && s'.packed == s.packed
            && Remainder(s') + s'.At(s'.producer) == Remainder(s) + s.At(s.producer)
    ensures Conserved(s) ==> Conserved(ConsumerStep(s).value)
  {
    var s' := ConsumerStep(s).value;
    Associative(s.packed, Remainder(s), s.At(s.producer));
    Associative(s.packed, Remainder(s'), s'.At(s'.producer));
  }

  lemma ConsumerKeeps(s: State)
    requires Inv(s) && ConsumerStep(s).Some?
    ensures Inv(ConsumerStep(s).value)
  {
    hide Locked, Pointers, Flagged, WillWake, Conserved, ConsumerStep;
    ConsumerKeepsLock(s);
    ConsumerKeepsPointers(s);
    ConsumerKeepsFlag(s);
    ConsumerKeepsWaking(s);
    ConsumerConserves(s);
  }

  lemma SendKeepsLock(s: State, response: Response)
    requires Locked(s) && SendStep(s, response).Some?
    ensures Locked(SendStep(s, response).value)
  {
  }

  lemma SendKeepsPointers(s: State, response: Response)
    requires Locked(s) && Pointers(s) && SendStep(s, response).Some?
    ensures Pointers(SendStep(s, response).value)
  {
    if s.sending.Push? {
      PushKeepsPointers(s);
    }
  }

  lemma PushKeepsPointers(s: State)
    requires Locked(s) && Pointers(s) && s.sending.Push?
    ensures Pointers(SendStep(s, 0).value)
  {
    var s' := SendStep(s, 0).value;
    assert s'.producer == s.producer && s'.consumer == s.consumer && s'.temp == s.temp && s'.consuming == s.consuming;
    assert forall v: Vector :: v != s.producer ==> s'.At(v) == s.At(v);
    hide SendStep, State.Put;
  }

  lemma SendKeepsFlag(s: State, response: Response)
    requires Locked(s) && Flagged(s) && SendStep(s, response).Some?
    ensures Flagged(SendStep(s, response).value)
  {
  }

  lemma SendKeepsWaking(s: State, response: Response)
    requires Locked(s) && WillWake(s) && SendStep(s, response).Some?
    ensures WillWake(SendStep(s, response).value)
  {
  }

  lemma SendConserves(s: State, response: Response)
    requires Pointers(s) && Locked(s) && Conserved(s) && SendStep(s, response).Some?
    ensures Conserved(SendStep(s, response).value)
  {
    if s.sending.Push? {
      PushedTo(s, response);
      hide Remainder, Pointers, Locked, SendStep;
      Associative(s.packed + Remainder(s), s.At(s.producer), [s.sending.response]);
    } else {
      NothingPushed(s, response);
      hide Remainder, Pointers, Locked, SendStep, State.At;
    }
  }

  lemma NothingPushed(s: State, response: Response)
    requires SendStep(s, response).Some? && !s.sending.Push?
    ensures var s' := SendStep(s, response).value;
            && s'.given == s.given && s'.packed == s.packed && Remainder(s') == Remainder(s)
            && s'.At(s'.producer) == s.At(s.producer)
  {
    var s' := SendStep(s, response).value;
    assert s'.first == s.first && s'.second == s.second && s'.consuming == s.consuming && s'.consumer == s.consumer;
    hide SendStep;
  }

  // A push adds to the producer's vector, and not to the one being packed.
  lemma PushedTo(s: State, response: Response)
    requires Pointers(s) && Locked(s) && s.sending.Push?
    ensures var s' := SendStep(s, response).value;
            && s'.given == s.given + [s.sending.response] && s'.packed == s.packed && Remainder(s') == Remainder(s)
            && s'.At(s'.producer) == s.At(s.producer) + [s.sending.response]
  {
  }

  lemma SendKeeps(s: State, response: Response)
    requires Inv(s) && SendStep(s, response).Some?
    ensures Inv(SendStep(s, response).value)
  {
    hide Locked, Pointers, Flagged, WillWake, Conserved, SendStep;
    SendKeepsLock(s, response);
    SendKeepsPointers(s, response);
    SendKeepsFlag(s, response);
    SendKeepsWaking(s, response);
    SendConserves(s, response);
  }

  lemma StepKeeps(s: State, a: Action)
    requires Inv(s) && Step(s, a).Some?
    ensures Inv(Step(s, a).value)
  {
    match a {
      case Consuming => ConsumerKeeps(s);
      case Sending(response) => SendKeeps(s, response);
      case Spurious =>
    }
  }

  lemma {:induction false} RunKeeps(s: State, actions: seq<Action>)
    requires Inv(s) && Run(s, actions).Some?
    ensures Inv(Run(s, actions).value)
    decreases |actions|
  {
    if actions != [] {
      StepKeeps(s, actions[0]);
      RunKeeps(Step(s, actions[0]).value, actions[1..]);
    }
  }

  // ---- What Send was called with.

  // Send called with r while nobody holds the lock: r is at the end of the producer's vector,
  // the flag is up, and the sending thread is told if it sleeps.
  lemma SendCalled(s: State, r: Response)
    requires s.sending.Outside? && s.holder.Nobody?
    ensures var s' := Run(s, [Sending(r), Sending(r), Sending(r), Sending(r), Sending(r)]);
            && s'.Some? && s'.value.given == s.given + [r]
            && s'.value.At(s.producer) == s.At(s.producer) + [r]
            && (forall v: Vector :: v != s.producer ==> s'.value.At(v) == s.At(v))
            && s'.value.producer == s.producer && s'.value.consumer == s.consumer && s'.value.temp == s.temp
            && s'.value.packed == s.packed && s'.value.consuming == s.consuming
            && s'.value.sending.Outside? && s'.value.holder.Nobody? && s'.value.hasNewResponse
            && (s'.value.notified <==> s.notified || s.consuming.Asleep?)
  {
    var s1 := SendStep(s, r).value;
    var s2 := SendStep(s1, r).value;
    var s3 := SendStep(s2, r).value;
    var s4 := SendStep(s3, r).value;
    var s5 := SendStep(s4, r).value;
    assert s2.At(s.producer) == s.At(s.producer) + [r];
    FiveSteps(s, Sending(r), s1, s2, s3, s4, s5);
  }

  lemma FiveSteps(s: State, a: Action, s1: State, s2: State, s3: State, s4: State, s5: State)
    requires Step(s, a) == Some(s1) && Step(s1, a) == Some(s2) && Step(s2, a) == Some(s3)
    requires Step(s3, a) == Some(s4) && Step(s4, a) == Some(s5)
    ensures Run(s, [a, a, a, a, a]) == Some(s5)
  {
    hide Step;
    assert [a, a, a, a, a][1..] == [a, a, a, a] && [a, a, a, a][1..] == [a, a, a];
    assert [a, a, a][1..] == [a, a] && [a, a][1..] == [a] && [a][1..] == [];
    assert Run(s4, [a]) == Some(s5);
    assert Run(s3, [a, a]) == Some(s5);
    assert Run(s2, [a, a, a]) == Some(s5);
    assert Run(s1, [a, a, a, a]) == Some(s5);
  }

  // The arguments that stand in the steps of Send, in their order.
  function Sends(actions: seq<Action>): seq<Response> {
    if actions == [] then []
    else (if actions[0].Sending? then [actions[0].response] else []) + Sends(actions[1..])
  }

  // A call of Send is five steps: its argument is that of the first, in which it takes the
  // lock, and it has pushed it with the second. The arguments of all calls that have.
  function Entered(sends: seq<Response>): seq<Response> {
    if |sends| < 2 then []
    else [sends[0]] + if |sends| < 5 then [] else Entered(sends[5..])
  }

  // What is still to be pushed by these steps, when the first call stands at pc.
  function ToPush(pc: SendPc, sends: seq<Response>): seq<Response>
    decreases |sends|
  {
    if sends == [] then []
    else match pc
      case Outside => ToPush(Push(sends[0]), sends[1..])
      case Push(r) => [r] + ToPush(RaiseFlag, sends[1..])
      case RaiseFlag => ToPush(Notify, sends[1..])
      case Notify => ToPush(Release, sends[1..])
      case Release => ToPush(Outside, sends[1..])
  }

  lemma {:induction false} ToPushIsEntered(sends: seq<Response>)
    ensures ToPush(Outside, sends) == Entered(sends)
    decreases |sends|
  {
    if |sends| >= 2 {
      assert sends[1..][1..] == sends[2..];
      assert ToPush(Outside, sends) == [sends[0]] + ToPush(RaiseFlag, sends[2..]);
      ThreeStepsOn(sends[2..]);
      if |sends| >= 5 {
        assert sends[2..][3..] == sends[5..];
        ToPushIsEntered(sends[5..]);
      }
    }
  }

  lemma ThreeStepsOn(sends: seq<Response>)
    ensures ToPush(RaiseFlag, sends) == if |sends| < 3 then [] else ToPush(Outside, sends[3..])
  {
    if |sends| >= 3 {
      assert sends[1..][1..] == sends[2..] && sends[2..][1..] == sends[3..];
      assert ToPush(Release, sends[2..]) == ToPush(Outside, sends[3..]);
      assert ToPush(Notify, sends[1..]) == ToPush(Release, sends[2..]);
    } else if |sends| == 2 {
      assert ToPush(Notify, sends[1..]) == ToPush(Release, []);
    }
  }

  lemma StepPushes(s: State, a: Action, later: seq<Response>)
    requires Step(s, a).Some?
    ensures var s', sends := Step(s, a).value, (if a.Sending? then [a.response] else []) + later;
            s.given + ToPush(s.sending, sends) == s'.given + ToPush(s'.sending, later)
  {
    if a.Sending? {
      assert ([a.response] + later)[1..] == later;
      if s.sending.Push? {
        Associative(s.given, [s.sending.response], ToPush(RaiseFlag, later));
      }
    } else {
      assert [] + later == later;
    }
  }

  lemma {:induction false} RunPushes(s: State, actions: seq<Action>)
    requires Run(s, actions).Some?
    ensures Run(s, actions).value.given == s.given + ToPush(s.sending, Sends(actions))
    decreases |actions|
  {
    if actions != [] {
      StepPushes(s, actions[0], Sends(actions[1..]));
      hide Step, ToPush;
      RunPushes(Step(s, actions[0]).value, actions[1..]);
    }
  }

  // Over every interleaving, what was given to Send is what it was called with.
  lemma GivenIsEntered(actions: seq<Action>)
    requires Run(Init(), actions).Some?
    ensures Run(Init(), actions).value.given == Entered(Sends(actions))
  {
    RunPushes(Init(), actions);
    ToPushIsEntered(Sends(actions));
  }

  // Over every interleaving from the start: responses leave in the order Send was called;
  // whenever nobody holds the lock the flag tells exactly whether responses wait; and a
  // sleeping thread with responses to send has a notification pending.
  lemma ResponsesAreHandedOff(actions: seq<Action>)
    requires Run(Init(), actions).Some?
    ensures var s := Run(Init(), actions).value;
            && Entered(Sends(actions)) == s.packed + Remainder(s) + s.At(s.producer)
            && (s.holder.Nobody? ==> (s.hasNewResponse <==> s.At(s.producer) != []))
            && (s.holder.Nobody? && s.consuming.Asleep? && s.packed != Entered(Sends(actions)) ==> s.notified)
            && (s.consuming.Transmit? && s.sending.Push? ==> s.producer != s.consumer)
  {
    GivenIsEntered(actions);
    hide Entered, Sends;
    RunKeeps(Init(), actions);
  }

  // Steps the sending thread still has to make before the next response is packed.
  function Distance(pc: ConsumerPc): nat {
    match pc
    case Transmit(_) => 11
    case Clear => 10
    case SaveConsumer => 9
    case TakeProducer => 8
    case Lock => 7
    case Asleep => 7
    case Awake => 6
    case Check => 5
    case GiveVector => 4
    case LowerFlag => 3
    case Unlock => 2
  }

  // How far the sending thread is from having packed everything.
  function Work(s: State): nat
    requires |s.packed| <= |s.given|
  {
    20 * (|s.given| - |s.packed|)
    + if s.consuming.Transmit? && Remainder(s) != [] then 1 else Distance(s.consuming)
  }

  lemma ConsumerProgresses(s: State)
    requires Inv(s) && s.sending.Outside? && s.given != s.packed
    ensures |s.packed| <= |s.given| && ConsumerStep(s).Some?
    ensures var s' := ConsumerStep(s).value;
            && Inv(s') && s'.sending.Outside? && s'.given == s.given
            && |s'.packed| <= |s'.given| && Work(s') < Work(s)
  {
    ConsumerCanStep(s);
    ConsumerKeeps(s);
    PackedIsGiven(s);
    PackedIsGiven(ConsumerStep(s).value);
    ConsumerComesCloser(s);
  }

  lemma PackedIsGiven(s: State)
    requires Inv(s)
    ensures |s.packed| <= |s.given|
  {
    hide Locked, Pointers, Flagged, WillWake;
  }

  lemma ConsumerCanStep(s: State)
    requires Inv(s) && s.sending.Outside? && s.given != s.packed
    ensures ConsumerStep(s).Some?
  {
    if s.consuming.Asleep? {
      assert s.packed + Remainder(s) == s.packed;
    }
  }

  lemma ConsumerComesCloser(s: State)
    requires Inv(s) && s.sending.Outside? && s.given != s.packed && ConsumerStep(s).Some?
    requires |s.packed| <= |s.given| && |ConsumerStep(s).value.packed| <= |ConsumerStep(s).value.given|
    ensures var s' := ConsumerStep(s).value;
            s'.sending.Outside? && s'.given == s.given && Work(s') < Work(s)
  {
    if s.consuming.Check? {
      assert s.packed + Remainder(s) == s.packed;
    }
    hide Locked, WillWake;
  }

  lemma RunAppend(s: State, actions: seq<Action>, more: seq<Action>)
    requires Run(s, actions).Some?
    ensures Run(s, actions + more) == Run(Run(s, actions).value, more)
    decreases |actions|
  {
    if actions == [] {
      assert actions + more == more;
    } else {
      assert (actions + more)[1..] == actions[1..] + more;
      RunAppend(Step(s, actions[0]).value, actions[1..], more);
    }
  }

  // No wake-up is lost: from any reachable state with nobody inside Send, the sending
  // thread, left to itself, packs every response given so far.
  lemma Drains(s: State) returns (actions: seq<Action>)
    requires Inv(s) && s.sending.Outside?
    ensures forall a <- actions :: a.Consuming?
    ensures Run(s, actions).Some?
    ensures var s' := Run(s, actions).value; s'.given == s'.packed == s.given
    decreases |s.given| >= |s.packed|, if |s.given| >= |s.packed| then Work(s) else 0
  {
    actions := [];
    if s.given != s.packed {
      ConsumerProgresses(s);
      var later := Drains(ConsumerStep(s).value);
      actions := [Consuming] + later;
      assert actions[1..] == later;
    }
  }

  lemma EverythingGivenIsSent(actions: seq<Action>)
    requires Run(Init(), actions).Some? && Run(Init(), actions).value.sending.Outside?
    ensures exists more: seq<Action> ::
              && (forall a <- more :: a.Consuming?)
              && Run(Init(), actions + more).Some?
              && Run(Init(), actions + more).value.packed == Entered(Sends(actions))
  {
    RunKeeps(Init(), actions);
    GivenIsEntered(actions);
    var more := Drains(Run(Init(), actions).value);
    RunAppend(Init(), actions, more);
  }
}
