/** Countdown and lap timers as values: the state of one timer and what each of its
    operations makes of it. */
module Timers {
  datatype Kind = Countdown | Lap

  // A countdown timer leaves the last four fields alone. `registered` says whether its
  // delegates still hold the callbacks given to them.
  datatype TimerState = TimerState(
    kind: Kind, isStop: bool, registered: bool, leftTime: real, interval: real,
    scaledInterval: real, lapLeftTime: real, totalLap: int, leftLap: int)

  // Reset stops a timer and empties its delegates.
  function Cleared(s: TimerState): TimerState {
    s.(isStop := true, registered := false)
  }

  // The operations that touch one timer and not the list. Set and Add take the arguments
  // of either kind and use those of their own.
  datatype Change = Set(time: real, laps: int) | Restart | Reset | Add(deltaTime: real, laps: int) | Scale(ratio: real)

  function Change1(s: TimerState, c: Change): (r: TimerState)
    ensures r.kind == s.kind && (r.registered <==> s.registered && !c.Reset?)
  {
    if s.kind.Countdown? then ChangeCountdown(s, c) else ChangeLap(s, c)
  }

  function ChangeCountdown(s: TimerState, c: Change): TimerState {
    match c
    case Set(time, _) => s.(interval := time, leftTime := time)
    case Restart => s.(isStop := false, leftTime := s.interval)
    case Reset => Cleared(s)
    case Add(deltaTime, _) => s.(leftTime := s.leftTime + deltaTime)
    case Scale(ratio) => s.(leftTime := Scaled(s.leftTime, ratio))
  }

  function ChangeLap(s: TimerState, c: Change): TimerState {
    match c
    case Set(time, laps) =>
      s.(leftTime := Times(time, laps), interval := time, scaledInterval := time, lapLeftTime := time,
         totalLap := laps, leftLap := laps)
    case Restart =>
      s.(isStop := false, leftTime := Times(s.interval, s.totalLap), scaledInterval := s.interval,
         lapLeftTime := s.interval, leftLap := s.totalLap)
    case Reset => Cleared(s)
    case Add(_, laps) => s.(leftTime := s.leftTime + Times(s.scaledInterval, laps), leftLap := s.leftLap + laps)
    case Scale(ratio) =>
      var interval, left := Scaled(s.scaledInterval, ratio), Scaled(s.lapLeftTime, ratio);
      s.(scaledInterval := interval, lapLeftTime := left, leftTime := left + Times(interval, s.leftLap - 1))
  }

  // So many intervals.
  function Times(interval: real, count: int): real {
    interval * count as real
  }

  // How many whole intervals fit into a time.
  function Whole(time: real, interval: real): int
    requires interval > 0.0
  {
    (time / interval).Floor
  }

  // A negative ratio divides, a positive one multiplies.
  function Scaled(time: real, ratio: real): real {
    if ratio < 0.0 then time / (1.0 - ratio) else time * (1.0 + ratio)
  }

  // The first half of Tick: time passes, and the timer finds out whether it is due.
  function Elapse(s: TimerState, deltaTime: real): (r: TimerState)
    ensures r.kind == s.kind && r.registered == s.registered
  {
    if s.kind.Countdown? then
      var t := s.(leftTime := s.leftTime - deltaTime);
      if t.leftTime > 0.0 then t else t.(isStop := true)
    else
      var t := s.(leftTime := s.leftTime - deltaTime, lapLeftTime := s.lapLeftTime - deltaTime);
      if t.lapLeftTime > 0.0 then t else t.(lapLeftTime := t.lapLeftTime + t.scaledInterval)
  }

  predicate Due(s: TimerState, deltaTime: real) {
    (if s.kind.Countdown? then s.leftTime else s.lapLeftTime) - deltaTime <= 0.0
  }

  // The second half, for a lap timer, after its lap callback.
  function CountLap(s: TimerState): (r: TimerState)
    ensures r.kind == s.kind && r.registered == s.registered
  {
    var t := s.(leftLap := s.leftLap - 1);
    if t.leftLap < 1 then t.(isStop := true) else t
  }

  // A whole tick that no callback disturbs.
  function Tick(s: TimerState, deltaTime: real): (r: TimerState)
    ensures r.kind == s.kind
  {
    if s.kind.Lap? && Due(s, deltaTime) then CountLap(Elapse(s, deltaTime)) else Elapse(s, deltaTime)
  }

  // ---- Lap timers: what is left is the current lap and the laps after it.

  predicate Balanced(s: TimerState) {
    s.leftTime == s.lapLeftTime + Times(s.scaledInterval, s.leftLap - 1)
  }

  lemma Distribute(x: real, a: int, b: int)
    ensures Times(x, a + b) == Times(x, a) + Times(x, b)
    ensures Times(x, 1) == x && Times(x, 0) == 0.0
  {
  }

  lemma ChangeKeepsBalance(s: TimerState, c: Change)
    requires s.kind.Lap? && (Balanced(s) || c.Set?)
    ensures Balanced(ChangeLap(s, c))
  {
    hide Times;
    match c {
      case Set(time, laps) => Distribute(time, laps - 1, 1);
      case Restart => Distribute(s.interval, s.totalLap - 1, 1);
      case Add(_, laps) => Distribute(s.scaledInterval, s.leftLap - 1, laps);
      case _ =>
    }
  }

  lemma TickKeepsBalance(s: TimerState, deltaTime: real)
    requires s.kind.Lap? && Balanced(s)
    ensures Balanced(Tick(s, deltaTime))
  {
    hide Times;
    Distribute(s.scaledInterval, s.leftLap - 2, 1);
  }

  datatype LapStep = Changed(change: Change) | Elapsed(deltaTime: real)

  function LapRun(s: TimerState, steps: seq<LapStep>): TimerState
    decreases |steps|
  {
    if steps == [] then s
    else
      var s' := match steps[0] case Changed(c) => Change1(s, c) case Elapsed(deltaTime) => Tick(s, deltaTime);
      LapRun(s', steps[1..])
  }

  // Conservation over any run of operations and ticks after a first Set.
  lemma {:induction false} LapRunKeepsBalance(s: TimerState, steps: seq<LapStep>)
    requires s.kind.Lap?
    requires Balanced(s) || (steps != [] && steps[0].Changed? && steps[0].change.Set?)
    ensures LapRun(s, steps).kind.Lap? && Balanced(LapRun(s, steps))
    decreases |steps|
  {
    if steps != [] {
      match steps[0] {
        case Changed(c) =>
          ChangeKeepsBalance(s, c);
          LapRunKeepsBalance(Change1(s, c), steps[1..]);
        case Elapsed(deltaTime) =>
          TickKeepsBalance(s, deltaTime);
          LapRunKeepsBalance(Tick(s, deltaTime), steps[1..]);
      }
    }
  }

  // Inside the lap callback one lap is not counted yet.
  predicate BalancedBeforeCount(s: TimerState) {
    s.leftTime == s.lapLeftTime + Times(s.scaledInterval, s.leftLap - 2)
  }

  function Changes(s: TimerState, cs: seq<Change>): (r: TimerState)
    ensures r.kind == s.kind
    decreases |cs|
  {
    if cs == [] then s else Changes(Change1(s, cs[0]), cs[1..])
  }

  // Operations that set the time left from the laps left.
  predicate Recomputes(c: Change) {
    c.Set? || c.Restart? || c.Scale?
  }

  predicate NoneRecomputes(cs: seq<Change>) {
    forall c <- cs :: !Recomputes(c)
  }

  lemma ChangeInsideCallback(s: TimerState, c: Change)
    requires s.kind.Lap?
    ensures BalancedBeforeCount(s) && !Recomputes(c) ==> BalancedBeforeCount(ChangeLap(s, c))
    ensures Balanced(s) || Recomputes(c) ==> Balanced(ChangeLap(s, c))
  {
    hide Times;
    match c {
      case Set(time, laps) => Distribute(time, laps - 1, 1);
      case Restart => Distribute(s.interval, s.totalLap - 1, 1);
      case Add(_, laps) =>
        Distribute(s.scaledInterval, s.leftLap - 2, laps);
        Distribute(s.scaledInterval, s.leftLap - 1, laps);
      case _ =>
    }
  }

  lemma {:induction false} ChangesInsideCallback(s: TimerState, cs: seq<Change>)
    requires s.kind.Lap?
    ensures BalancedBeforeCount(s) && NoneRecomputes(cs) ==> BalancedBeforeCount(Changes(s, cs))
    ensures Balanced(s) || !NoneRecomputes(cs) ==> Balanced(Changes(s, cs))
    decreases |cs|
  {
    if cs != [] {
      var c := cs[0];
      ChangeInsideCallback(s, c);
      assert NoneRecomputes(cs) <==> !Recomputes(c) && NoneRecomputes(cs[1..]);
      hide Balanced, BalancedBeforeCount, NoneRecomputes, Recomputes, ChangeLap;
      ChangesInsideCallback(Change1(s, c), cs[1..]);
    }
  }

  // A due tick whose lap callback makes these changes to its own timer.
  function TickWith(s: TimerState, deltaTime: real, cs: seq<Change>): TimerState {
    CountLap(Changes(Elapse(s, deltaTime), cs))
  }

  // The interval that Set or Restart fixed last, scaling aside.
  function FixedInterval(interval: real, scaledInterval: real, cs: seq<Change>): real
    decreases |cs|
  {
    if cs == [] then scaledInterval
    else match cs[0]
      case Set(time, _) => FixedInterval(time, time, cs[1..])
      case Restart => FixedInterval(interval, interval, cs[1..])
      case _ => FixedInterval(interval, scaledInterval, cs[1..])
  }

  lemma ScaledToZero(time: real, ratio: real)
    ensures Scaled(time, ratio) == 0.0 <==> time == 0.0
  {
    if ratio < 0.0 {
      var d := 1.0 - ratio;
      assert time / d * d == time;
    } else {
      var d := 1.0 + ratio;
      assert time * d / d == time;
    }
  }

  lemma {:induction false} FixedToZero(interval: real, x: real, y: real, cs: seq<Change>)
    requires x == 0.0 <==> y == 0.0
    ensures FixedInterval(interval, x, cs) == 0.0 <==> FixedInterval(interval, y, cs) == 0.0
    decreases |cs|
  {
    if cs != [] && !cs[0].Set? && !cs[0].Restart? {
      FixedToZero(interval, x, y, cs[1..]);
    }
  }

  // Scaling never makes an interval zero, or a zero interval anything else.
  lemma {:induction false} ChangesToZero(s: TimerState, cs: seq<Change>)
    requires s.kind.Lap?
    ensures Changes(s, cs).scaledInterval == 0.0 <==> FixedInterval(s.interval, s.scaledInterval, cs) == 0.0
    decreases |cs|
  {
    if cs != [] {
      hide Times, Scaled;
      if cs[0].Scale? {
        ScaledToZero(s.scaledInterval, cs[0].ratio);
        FixedToZero(s.interval, s.scaledInterval, Scaled(s.scaledInterval, cs[0].ratio), cs[1..]);
      }
      ChangesToZero(Change1(s, cs[0]), cs[1..]);
    }
  }

  // The callback keeps conservation exactly when it neither sets, restarts nor scales its
  // own timer; an interval of zero, known from what the callback sets, hides the difference.
  lemma CallbackKeepsBalance(s: TimerState, deltaTime: real, cs: seq<Change>)
    requires s.kind.Lap? && Balanced(s) && Due(s, deltaTime)
    ensures Balanced(TickWith(s, deltaTime, cs)) <==>
            NoneRecomputes(cs) || FixedInterval(s.interval, s.scaledInterval, cs) == 0.0
  {
    hide Times;
    var e := Elapse(s, deltaTime);
    Distribute(s.scaledInterval, s.leftLap - 2, 1);
    assert BalancedBeforeCount(e);
    ChangesInsideCallback(e, cs);
    ChangesToZero(e, cs);
    var f := Changes(e, cs);
    Distribute(f.scaledInterval, f.leftLap - 2, 1);
  }

  // The remark on Scale promises that much of the time more or less: so it is for ratios
  // that are not negative, and for no other.
  lemma ScaleAsDocumented(time: real, ratio: real)
    ensures Scaled(time, ratio) == time * (1.0 + ratio) <==> ratio >= 0.0 || time == 0.0
  {
    if ratio < 0.0 {
      var quotient, faster := time / (1.0 - ratio), -ratio;
      assert quotient * (1.0 + faster) == time;
      Falls(time, quotient, faster);
      assert 1.0 + ratio == 1.0 - faster;
    }
  }

  lemma Falls(time: real, quotient: real, e: real)
    requires e > 0.0 && quotient * (1.0 + e) == time
    ensures time * (1.0 - e) == quotient <==> time == 0.0
  {
    Squares(quotient, e);
    var square := e * e;
    NotZero(e, e);
    NotZero(quotient, square);
    NotZero(quotient, 1.0 + e);
    var product := time * (1.0 - e);
    assert product == quotient - quotient * square;
  }

  lemma Squares(x: real, e: real)
    ensures x * (1.0 + e) * (1.0 - e) == x - x * (e * e)
  {
  }

  lemma NotZero(x: real, y: real)
    ensures x * y == 0.0 <==> x == 0.0 || y == 0.0
  {
  }

  // Its own example, 50 % less, takes off a third.
  lemma HalvedByScale()
    ensures Scaled(1.0, -0.5) == 2.0 / 3.0 != 0.5
  {
  }

  // Scaling and scaling back restores a lap timer exactly when its times agreed before.
  lemma ScaleBack(s: TimerState, ratio: real)
    requires s.kind.Lap?
    ensures ChangeLap(ChangeLap(s, Scale(ratio)), Scale(-ratio)) == s <==> Balanced(s)
  {
    ScaledBack(s.scaledInterval, ratio);
    ScaledBack(s.lapLeftTime, ratio);
  }

  lemma ScaledBack(time: real, ratio: real)
    ensures Scaled(Scaled(time, ratio), -ratio) == time
  {
    if ratio < 0.0 {
      var d := 1.0 - ratio;
      assert time / d * d == time;
    } else if ratio > 0.0 {
      var d := 1.0 + ratio;
      assert time * d / d == time;
    }
  }

  // ---- Lap timers: how many laps have gone off.

  function Sum(deltas: seq<real>): real {
    if deltas == [] then 0.0 else Sum(deltas[..|deltas| - 1]) + deltas[|deltas| - 1]
  }

  function Ticks(s: TimerState, deltas: seq<real>): TimerState {
    if deltas == [] then s else Tick(Ticks(s, deltas[..|deltas| - 1]), deltas[|deltas| - 1])
  }

  // Laps gone off over the ticks: the due ticks.
  function Fired(s: TimerState, deltas: seq<real>): nat {
    if deltas == [] then 0
    else
      var before := deltas[..|deltas| - 1];
      Fired(s, before) + if Due(Ticks(s, before), deltas[|deltas| - 1]) then 1 else 0
  }

  predicate AtLeast(deltas: seq<real>, least: real) {
    forall i | 0 <= i < |deltas| :: deltas[i] >= least
  }

  predicate AtMost(deltas: seq<real>, most: real) {
    forall i | 0 <= i < |deltas| :: deltas[i] <= most
  }

  // The laps that the first j ticks had time for, plus one lap for each tick after them.
  function RoomAt(deltas: seq<real>, interval: real, j: nat): int
    requires interval > 0.0 && j <= |deltas|
  {
    Whole(Sum(deltas[..j]), interval) + (|deltas| - j)
  }

  predicate IsLeastRoom(deltas: seq<real>, interval: real, least: int)
    requires interval > 0.0
  {
    && (forall j: nat | j <= |deltas| :: least <= RoomAt(deltas, interval, j))
    && (exists j: nat | j <= |deltas| :: least == RoomAt(deltas, interval, j))
  }

  lemma FloorQuotient(t: real, interval: real, n: int)
    requires interval > 0.0
    ensures n <= Whole(t, interval) <==> Times(interval, n) <= t
  {
    var q := t / interval;
    assert q * interval == t;
    if n as real <= q {
      assert n as real * interval <= q * interval;
    } else {
      assert n as real * interval > q * interval;
    }
  }

  // The state after the ticks, in terms of the laps gone off.
  lemma {:induction false} StateAfterTicks(s: TimerState, deltas: seq<real>)
    requires s.kind.Lap?
    ensures var r := Ticks(s, deltas);
            && r.kind.Lap? && r.scaledInterval == s.scaledInterval
            && r.lapLeftTime == s.lapLeftTime + Times(s.scaledInterval, Fired(s, deltas)) - Sum(deltas)
            && r.leftLap == s.leftLap - Fired(s, deltas)
            && (Fired(s, deltas) < s.leftLap ==> r.isStop == s.isStop)
  {
    hide Times;
    Distribute(s.scaledInterval, 0, 0);
    if deltas != [] {
      var before := deltas[..|deltas| - 1];
      StateAfterTicks(s, before);
      Distribute(s.scaledInterval, Fired(s, before), 1);
    }
  }

  // One more lap goes off in the last tick exactly when time has room for it by then.
  lemma LastTickFires(s: TimerState, deltas: seq<real>)
    requires s.kind.Lap? && s.scaledInterval > 0.0 && s.lapLeftTime == s.scaledInterval
    requires deltas != []
    ensures var f := Fired(s, deltas[..|deltas| - 1]);
            Fired(s, deltas) == if f + 1 <= Whole(Sum(deltas), s.scaledInterval) then f + 1 else f
  {
    hide Times, Whole, Tick;
    var before, d := deltas[..|deltas| - 1], deltas[|deltas| - 1];
    var f := Fired(s, before);
    StateAfterTicks(s, before);
    Distribute(s.scaledInterval, f, 1);
    FloorQuotient(Sum(deltas), s.scaledInterval, f + 1);
    assert Sum(deltas) == Sum(before) + d;
  }

  lemma {:induction false} FiredWithinRoom(s: TimerState, deltas: seq<real>)
    requires s.kind.Lap? && s.scaledInterval > 0.0 && s.lapLeftTime == s.scaledInterval
    requires AtLeast(deltas, 0.0)
    ensures Fired(s, deltas) <= Whole(Sum(deltas), s.scaledInterval)
  {
    hide Times, Whole;
    var interval := s.scaledInterval;
    if deltas == [] {
      Distribute(interval, 0, 0);
      FloorQuotient(0.0, interval, 0);
    } else {
      var before := deltas[..|deltas| - 1];
      FiredWithinRoom(s, before);
      LastTickFires(s, deltas);
      FloorQuotient(Sum(before), interval, Fired(s, before));
      FloorQuotient(Sum(deltas), interval, Fired(s, before));
    }
  }

  lemma RoomOfPrefix(deltas: seq<real>, interval: real, j: nat)
    requires interval > 0.0 && j <= |deltas|
    ensures j == |deltas| ==> RoomAt(deltas, interval, j) == Whole(Sum(deltas), interval)
    ensures j < |deltas| ==> RoomAt(deltas, interval, j) == RoomAt(deltas[..|deltas| - 1], interval, j) + 1
  {
    if j < |deltas| {
      assert deltas[..|deltas| - 1][..j] == deltas[..j];
    } else {
      assert deltas[..j] == deltas;
    }
  }

  lemma {:induction false} LapsAreAvailable(s: TimerState, deltas: seq<real>)
    requires s.kind.Lap? && s.scaledInterval > 0.0 && s.lapLeftTime == s.scaledInterval
    requires AtLeast(deltas, 0.0)
    ensures forall j: nat | j <= |deltas| :: Fired(s, deltas) <= RoomAt(deltas, s.scaledInterval, j)
  {
    FiredWithinRoom(s, deltas);
    hide Whole, RoomAt, Ticks, Due;
    if deltas != [] {
      LapsAreAvailable(s, deltas[..|deltas| - 1]);
    }
    forall j: nat | j <= |deltas| ensures Fired(s, deltas) <= RoomAt(deltas, s.scaledInterval, j) {
      RoomOfPrefix(deltas, s.scaledInterval, j);
    }
  }

  lemma {:induction false} LapsAreTaken(s: TimerState, deltas: seq<real>)
    requires s.kind.Lap? && s.scaledInterval > 0.0 && s.lapLeftTime == s.scaledInterval
    requires AtLeast(deltas, 0.0)
    ensures exists j: nat | j <= |deltas| :: Fired(s, deltas) == RoomAt(deltas, s.scaledInterval, j)
  {
    var interval := s.scaledInterval;
    FiredWithinRoom(s, deltas);
    RoomOfPrefix(deltas, interval, |deltas|);
    hide Times, Whole, RoomAt, Ticks, Due;
    if deltas == [] {
      Distribute(interval, 0, 0);
      FloorQuotient(0.0, interval, 1);
    } else {
      var before := deltas[..|deltas| - 1];
      LapsAreTaken(s, before);
      LastTickFires(s, deltas);
      var j: nat :| j <= |before| && Fired(s, before) == RoomAt(before, interval, j);
      RoomOfPrefix(deltas, interval, j);
    }
  }

  // While laps remain, the laps gone off after these ticks are the least, over the moments
  // j so far, of the laps time had room for by then plus one lap for every tick since: one
  // long frame delays laps, one a tick, and drops none.
  lemma {:induction false} LapsClosedForm(s: TimerState, deltas: seq<real>)
    requires s.kind.Lap? && s.scaledInterval > 0.0 && s.lapLeftTime == s.scaledInterval
    requires AtLeast(deltas, 0.0)
    ensures IsLeastRoom(deltas, s.scaledInterval, Fired(s, deltas))
  {
    hide Times, Whole;
    LapsAreAvailable(s, deltas);
    LapsAreTaken(s, deltas);
  }

  // With no frame longer than the interval, no lap is ever late.
  lemma {:induction false} LapsOnTime(s: TimerState, deltas: seq<real>)
    requires s.kind.Lap? && s.scaledInterval > 0.0 && s.lapLeftTime == s.scaledInterval
    requires AtLeast(deltas, 0.0) && AtMost(deltas, s.scaledInterval)
    ensures Fired(s, deltas) == Whole(Sum(deltas), s.scaledInterval)
  {
    hide Times, Whole;
    var interval := s.scaledInterval;
    FiredWithinRoom(s, deltas);
    if deltas == [] {
      Distribute(interval, 0, 0);
      FloorQuotient(0.0, interval, 1);
    } else {
      var before := deltas[..|deltas| - 1];
      LapsOnTime(s, before);
      LastTickFires(s, deltas);
      var f := Fired(s, before);
      FloorQuotient(Sum(before), interval, f + 1);
      FloorQuotient(Sum(deltas), interval, f + 2);
      Distribute(interval, f + 1, 1);
    }
  }
}
