/** The timer list on the heap: timers linked through their own `nextNode`, a head and a
    tail. Every operation, callbacks included, is proved to do to the links what the values
    of `GameTime` say. */
module GameTimeManager {
  import CountdownRuns
  import opened GameTime
  import opened Timers

  // A countdown or a lap timer; `kind` stands for its class.
  class Timer {
    const kind: Kind
    var isStop: bool
    // Whether OnLapTimeUp and OnTimeUp still hold the callbacks given to them.
    var registered: bool
    var leftTime: real
    var interval: real
    var scaledInterval: real
    var lapLeftTime: real
    var totalLap: int
    var leftLap: int
    var nextNode: Timer?

    constructor (kind: Kind)
      ensures this.kind == kind && isStop && !registered && nextNode == null
    {
      this.kind, isStop, registered, nextNode := kind, true, false, null;
      leftTime, interval, scaledInterval, lapLeftTime, totalLap, leftLap := 0.0, 0.0, 0.0, 0.0, 0, 0;
    }

    function State(): TimerState
      reads this`isStop, this`registered, this`leftTime, this`interval, this`scaledInterval, this`lapLeftTime, this`totalLap, this`leftLap
    {
      TimerState(kind, isStop, registered, leftTime, interval, scaledInterval, lapLeftTime, totalLap, leftLap)
    }

    method SetCountdown(time: real)
      requires kind.Countdown?
      modifies this`isStop, this`leftTime, this`interval, this`scaledInterval, this`lapLeftTime, this`totalLap, this`leftLap
      ensures State() == ChangeCountdown(old(State()), Change.Set(time, 0))
    {
      interval := time;
      leftTime := time;
    }

    method SetLaps(time: real, laps: int)
      requires kind.Lap?
      modifies this`isStop, this`leftTime, this`interval, this`scaledInterval, this`lapLeftTime, this`totalLap, this`leftLap
      ensures State() == ChangeLap(old(State()), Change.Set(time, laps))
    {
      leftTime := Times(time, laps);
      interval := time;
      scaledInterval := time;
      lapLeftTime := time;
      totalLap := laps;
      leftLap := laps;
    }

    method Reset()
      modifies this`isStop, this`registered
      ensures State() == Change1(old(State()), Change.Reset)
      ensures State() == Cleared(old(State()))
    {
      isStop := true;
      registered := false;
    }

    // The game gives the timer callbacks.
    method Register()
      modifies this`registered
      ensures State() == old(State()).(registered := true)
    {
      registered := true;
    }

    // What Clear does to each timer.
    method ResetAndUnlink()
      modifies this`isStop, this`registered, this`nextNode
      ensures State() == Cleared(old(State())) && nextNode == null
    {
      Reset();
      nextNode := null;
    }

    method Restart()
      modifies this`isStop, this`leftTime, this`interval, this`scaledInterval, this`lapLeftTime, this`totalLap, this`leftLap
      ensures State() == Change1(old(State()), Change.Restart)
    {
      isStop := false;
      if kind.Countdown? {
        leftTime := interval;
      } else {
        leftTime := Times(interval, totalLap);
        scaledInterval := interval;
        lapLeftTime := interval;
        leftLap := totalLap;
      }
    }

    method AddTime(deltaTime: real)
      requires kind.Countdown?
      modifies this`isStop, this`leftTime, this`interval, this`scaledInterval, this`lapLeftTime, this`totalLap, this`leftLap
      ensures State() == ChangeCountdown(old(State()), Change.Add(deltaTime, 0))
    {
      leftTime := leftTime + deltaTime;
    }

    method AddLaps(laps: int)
      requires kind.Lap?
      modifies this`isStop, this`leftTime, this`interval, this`scaledInterval, this`lapLeftTime, this`totalLap, this`leftLap
      ensures State() == ChangeLap(old(State()), Change.Add(0.0, laps))
    {
      leftTime := leftTime + Times(scaledInterval, laps);
      leftLap := leftLap + laps;
    }

    method ScaleCountdown(ratio: real)
      requires kind.Countdown?
      modifies this`isStop, this`leftTime, this`interval, this`scaledInterval, this`lapLeftTime, this`totalLap, this`leftLap
      ensures State() == ChangeCountdown(old(State()), Change.Scale(ratio))
    {
      if ratio < 0.0 {
        leftTime := leftTime / (1.0 - ratio);
      } else {
        leftTime := leftTime * (1.0 + ratio);
      }
    }

    method ScaleLaps(ratio: real)
      requires kind.Lap?
      modifies this`isStop, this`leftTime, this`interval, this`scaledInterval, this`lapLeftTime, this`totalLap, this`leftLap
      ensures State() == ChangeLap(old(State()), Change.Scale(ratio))
    {
      ghost var interval', left' := Scaled(scaledInterval, ratio), Scaled(lapLeftTime, ratio);
      hide Times;
      if ratio < 0.0 {
        var factor := 1.0 - ratio;
        scaledInterval := scaledInterval / factor;
        lapLeftTime := lapLeftTime / factor;
      } else {
        var factor := 1.0 + ratio;
        scaledInterval := scaledInterval * factor;
        lapLeftTime := lapLeftTime * factor;
      }
      assert scaledInterval == interval' && lapLeftTime == left';
      hide Scaled;
      leftTime := lapLeftTime + Times(scaledInterval, leftLap - 1);
    }

    // The part of Tick before any callback: is the timer due?
    method PassTime(deltaTime: real) returns (due: bool)
      modifies this`isStop, this`leftTime, this`lapLeftTime
      ensures State() == Elapse(old(State()), deltaTime) && due == Due(old(State()), deltaTime)
    {
      leftTime := leftTime - deltaTime;
      if kind.Countdown? {
        if leftTime > 0.0 {
          return false;
        }
        isStop := true;
        return true;
      }
      lapLeftTime := lapLeftTime - deltaTime;
      if lapLeftTime > 0.0 {
        return false;
      }
      lapLeftTime := lapLeftTime + scaledInterval;
      return true;
    }

    // The part of a lap timer's Tick after its lap callback.
    method FinishLap() returns (over: bool)
      modifies this`isStop, this`leftLap
      ensures State() == CountLap(old(State())) && over == (old(State()).leftLap - 1 < 1)
    {
      leftLap := leftLap - 1;
      if leftLap < 1 {
        isStop := true;
        return true;
      }
      return false;
    }

    method Adjust(change: Change)
      modifies this`isStop, this`registered, this`leftTime, this`interval, this`scaledInterval, this`lapLeftTime, this`totalLap, this`leftLap
      ensures State() == Change1(old(State()), change)
    {
      match change
      case Set(time, laps) => if kind.Countdown? { SetCountdown(time); } else { SetLaps(time, laps); }
      case Restart => Restart();
      case Reset => Reset();
      case Add(deltaTime, laps) => if kind.Countdown? { AddTime(deltaTime); } else { AddLaps(laps); }
      case Scale(ratio) => if kind.Countdown? { ScaleCountdown(ratio); } else { ScaleLaps(ratio); }
    }
  }

  // The node at position i, if there is one.
  ghost function NodeAt(nodes: seq<Timer>, i: nat): Timer? {
    if i < |nodes| then nodes[i] else null
  }

  // The node after position i.
  ghost function NextOf(nodes: seq<Timer>, i: nat): Timer? {
    if i + 1 < |nodes| then nodes[i + 1] else null
  }

  // The states after the timers of the list have been reset.
  ghost function ResetStates(states: map<Timer, TimerState>, list: seq<Timer>): map<Timer, TimerState> {
    map t | t in states :: if t in list then Cleared(states[t]) else states[t]
  }

  lemma EndsOfWithout(nodes: seq<Timer>, pos: nat)
    requires pos < |nodes|
    ensures var w := Without(nodes, pos);
            && |w| == |nodes| - 1 && NodeAt(w, pos) == NextOf(nodes, pos)
            && (w != [] ==> w[0] == nodes[if pos == 0 then 1 else 0])
            && (w != [] ==> w[|w| - 1] == nodes[if pos == |nodes| - 1 then pos - 1 else |nodes| - 1])
  {
  }

  lemma NextOfWithout(nodes: seq<Timer>, pos: nat, i: nat)
    requires pos < |nodes| && i + 1 < |nodes|
    ensures Without(nodes, pos)[i] == nodes[if i < pos then i else i + 1]
    ensures NextOf(Without(nodes, pos), i) == NextOf(nodes, if i + 1 < pos then i else i + 1)
  {
  }

  ghost function StatesOf(pool: set<Timer>): map<Timer, TimerState>
    reads pool`isStop, pool`registered, pool`leftTime, pool`interval, pool`scaledInterval, pool`lapLeftTime, pool`totalLap, pool`leftLap
  {
    map t | t in pool :: t.State()
  }

  class Manager {
    var headNode: Timer?
    var tailNode: Timer?
    var deltaTime: real
    // The timers of the list in order, all timers of the game, and what has happened.
    ghost var nodes: seq<Timer>
    ghost var pool: set<Timer>
    ghost var log: seq<Event<Timer>>

    // The links are those of `nodes`, without a cycle, and no other timer has a link.
    ghost predicate Linked()
      reads this`headNode, this`tailNode, this`nodes, this`pool, pool`nextNode
    {
      && Distinct(nodes)
      && (forall t <- nodes :: t in pool)
      && headNode == (if nodes == [] then null else nodes[0])
      && tailNode == (if nodes == [] then null else nodes[|nodes| - 1])
      && (forall i {:trigger nodes[i].nextNode} | 0 <= i < |nodes| :: nodes[i].nextNode == NextOf(nodes, i))
      && (forall t <- pool :: t !in nodes ==> t.nextNode == null)
    }

    ghost function View(): World<Timer>
      reads this, pool
    {
      World(nodes, StatesOf(pool), log)
    }

    lemma ViewIsGood()
      requires Linked()
      ensures Good(View())
    {
    }

    constructor (ghost pool: set<Timer>)
      requires forall t <- pool :: t.nextNode == null
      ensures Linked() && nodes == [] && this.pool == pool && log == []
    {
      headNode, tailNode, deltaTime := null, null, 0.0;
      nodes, this.pool, log := [], pool, [];
    }

    // In the list is linked onward, or the tail.
    lemma InList(timer: Timer)
      requires Linked() && timer in pool
      ensures timer in nodes <==> timer.nextNode != null || timer == tailNode
    {
      if timer in nodes {
        var i :| 0 <= i < |nodes| && nodes[i] == timer;
        assert i + 1 < |nodes| || timer == tailNode;
      }
    }

    method AddLast(timer: Timer)
      requires Linked() && timer in pool
      modifies this`headNode, this`tailNode, this`nodes, pool`nextNode
      ensures Linked() && nodes == Append(old(nodes), timer)
      ensures StatesOf(pool) == old(StatesOf(pool))
    {
      InList(timer);
      if timer.nextNode != null || timer == tailNode {
        return;
      }
      LinkLast(timer);
      hide Manager.Linked;
    }

    // A timer out of the list becomes its tail.
    method LinkLast(timer: Timer)
      requires Linked() && timer in pool && timer !in nodes
      modifies this`headNode, this`tailNode, this`nodes, pool`nextNode
      ensures Linked() && nodes == old(nodes) + [timer]
    {
      if headNode == null {
        headNode := timer;
        tailNode := timer;
      } else {
        tailNode.nextNode := timer;
        tailNode := timer;
      }
      nodes := nodes + [timer];
    }

    // Part way through Clear: the first i timers are reset and unlinked, nothing else is
    // changed from these states.
    ghost predicate UnlinkedUpTo(i: nat, states: map<Timer, TimerState>)
      reads this`nodes, this`pool, pool
    {
      && states.Keys == pool && (forall t <- nodes :: t in pool)
      && (forall j {:trigger nodes[j]} | 0 <= j < |nodes| ::
            && nodes[j].State() == (if j < i then Cleared(states[nodes[j]]) else states[nodes[j]])
            && nodes[j].nextNode == if j < i then null else NextOf(nodes, j))
      && (forall t <- pool :: t !in nodes ==> t.State() == states[t] && t.nextNode == null)
    }

    lemma NoneUnlinked()
      requires Linked()
      ensures UnlinkedUpTo(0, StatesOf(pool)) && Distinct(nodes) && headNode == NodeAt(nodes, 0)
    {
      hide Timer.State;
    }

    lemma NextIsAt(i: nat)
      ensures NextOf(nodes, i) == NodeAt(nodes, i + 1)
    {
    }

    lemma AllUnlinked(states: map<Timer, TimerState>)
      requires UnlinkedUpTo(|nodes|, states)
      ensures forall t <- pool :: t.nextNode == null
      ensures StatesOf(pool) == ResetStates(states, nodes)
    {
      hide Timer.State, Cleared;
      forall t | t in pool ensures t.nextNode == null && t.State() == if t in nodes then Cleared(states[t]) else states[t] {
        if t in nodes {
          var j :| 0 <= j < |nodes| && nodes[j] == t;
          assert nodes[j].nextNode == null;
        }
      }
    }

    // One timer of the list is reset and unlinked; what followed it is next.
    method ResetNode(currNode: Timer, ghost i: nat, ghost states: map<Timer, TimerState>) returns (nextNode: Timer?)
      requires UnlinkedUpTo(i, states) && Distinct(nodes) && i < |nodes| && currNode == nodes[i]
      modifies currNode`isStop, currNode`registered, currNode`nextNode
      ensures UnlinkedUpTo(i + 1, states) && nextNode == NodeAt(nodes, i + 1)
    {
      NextIsAt(i);
      hide Timer.State, Cleared, NextOf;
      assert currNode in nodes;
      assert forall j {:trigger nodes[j]} | 0 <= j < |nodes| :: nodes[j] == currNode <==> j == i;
      hide Distinct;
      nextNode := currNode.nextNode;
      currNode.ResetAndUnlink();
    }

    // The loop of Clear.
    method ResetAll()
      requires Linked()
      modifies pool
      ensures forall t <- pool :: t.nextNode == null
      ensures StatesOf(pool) == ResetStates(old(StatesOf(pool)), nodes)
    {
      ghost var states := StatesOf(pool);
      NoneUnlinked();
      assert forall t <- nodes :: t in pool;
      hide Manager.Linked, Manager.UnlinkedUpTo, Distinct, StatesOf, ResetStates;
      var currNode := headNode;
      ghost var i := 0;
      while currNode != null
        invariant 0 <= i <= |nodes| && currNode == NodeAt(nodes, i)
        invariant UnlinkedUpTo(i, states)
        decreases |nodes| - i
      {
        currNode := ResetNode(currNode, i, states);
        i := i + 1;
      }
      AllUnlinked(states);
    }

    method Clear()
      requires Linked()
      modifies this`headNode, this`tailNode, this`nodes, pool
      ensures Linked() && View() == Apply(old(View()), ClearAll)
    {
      ViewIsGood();
      hide StatesOf, Cleared;
      ResetAll();
      headNode := null;
      tailNode := null;
      nodes := [];
    }

    // Writing the flag of one timer.
    method SetStop(timer: Timer, stop: bool)
      requires Linked() && timer in pool
      modifies timer`isStop
      ensures Linked()
      ensures StatesOf(pool) == old(StatesOf(pool))[timer := Stopped(old(StatesOf(pool))[timer], stop)]
    {
      hide Manager.Linked;
      timer.isStop := stop;
    }

    method Start(timer: Timer)
      requires Linked() && timer in pool
      modifies this`headNode, this`tailNode, this`nodes, pool
      ensures Linked() && View() == Apply(old(View()), Op.Start(timer))
    {
      ViewIsGood();
      hide Manager.Linked, StatesOf, Stopped;
      SetStop(timer, false);
      AddLast(timer);
    }

    method Stop(timer: Timer)
      requires Linked() && timer in pool
      modifies timer`isStop
      ensures Linked() && View() == Apply(old(View()), Op.Stop(timer))
    {
      ViewIsGood();
      hide Manager.Linked, StatesOf, Stopped;
      SetStop(timer, true);
    }

    // The game gives a timer callbacks.
    method Register(timer: Timer)
      requires Linked() && timer in pool
      modifies timer`registered
      ensures Linked() && Good(old(View())) && View() == CountdownRuns.Registered(old(View()), {timer})
    {
      ViewIsGood();
      hide Manager.Linked;
      timer.Register();
    }

    method AdjustState(timer: Timer, change: Change)
      requires timer in pool
      modifies timer`isStop, timer`registered, timer`leftTime, timer`interval, timer`scaledInterval, timer`lapLeftTime, timer`totalLap, timer`leftLap
      ensures StatesOf(pool) == old(StatesOf(pool))[timer := Change1(old(StatesOf(pool))[timer], change)]
    {
      hide Change1, Timer.State;
      timer.Adjust(change);
    }

    method Adjust(timer: Timer, change: Change)
      requires Linked() && timer in pool
      modifies timer`isStop, timer`registered, timer`leftTime, timer`interval, timer`scaledInterval, timer`lapLeftTime, timer`totalLap, timer`leftLap
      ensures Linked() && View() == Apply(old(View()), Op.Adjust(timer, change))
    {
      ViewIsGood();
      hide Manager.Linked, StatesOf, Change1;
      AdjustState(timer, change);
    }

    // One operation of a callback, or of other code of the game.
    method Do(op: Op<Timer>)
      requires Linked() && (!op.ClearAll? ==> op.timer in pool)
      modifies this`headNode, this`tailNode, this`nodes, pool
      ensures Linked() && View() == Apply(old(View()), op)
    {
      ViewIsGood();
      hide Manager.Linked, Manager.View, Apply;
      match op
      case Start(timer) => Start(timer);
      case Stop(timer) => Stop(timer);
      case Adjust(timer, change) => Adjust(timer, change);
      case ClearAll => Clear();
    }

    method RunScript(script: seq<Op<Timer>>)
      requires Linked() && Within(script, pool)
      modifies this`headNode, this`tailNode, this`nodes, pool
      ensures Linked() && View() == ApplyAll(old(View()), script)
    {
      ViewIsGood();
      for i := 0 to |script|
        invariant Linked() && pool == old(pool) && Good(View()) && Within(script[i..], pool)
        invariant ApplyAll(View(), script[i..]) == ApplyAll(old(View()), script)
      {
        assert script[i..][0] == script[i] && script[i..][1..] == script[i + 1..];
        Do(script[i]);
        ViewIsGood();
      }
    }

    method ElapseState(timer: Timer) returns (due: bool)
      requires timer in pool
      modifies timer`isStop, timer`leftTime, timer`lapLeftTime
      ensures due == Due(old(StatesOf(pool))[timer], deltaTime)
      ensures StatesOf(pool) == old(StatesOf(pool))[timer := Elapse(old(StatesOf(pool))[timer], deltaTime)]
    {
      hide Elapse, Due, Timer.State;
      due := timer.PassTime(deltaTime);
    }

    method CountState(timer: Timer) returns (over: bool)
      requires timer in pool
      modifies timer`isStop, timer`leftLap
      ensures over == (old(StatesOf(pool))[timer].leftLap - 1 < 1)
      ensures StatesOf(pool) == old(StatesOf(pool))[timer := CountLap(old(StatesOf(pool))[timer])]
    {
      hide CountLap, Timer.State;
      over := timer.FinishLap();
    }

    ghost method LogEvent(e: Event<Timer>)
      modifies this`log
      ensures View() == Logged(old(View()), e)
    {
      log := log + [e];
    }

    // The start of every Tick.
    method ElapseTimer(timer: Timer) returns (due: bool)
      requires Linked() && timer in pool
      modifies this`log, timer`isStop, timer`leftTime, timer`lapLeftTime
      ensures Linked() && Good(old(View())) && timer in old(View()).timers
      ensures due == Due(old(View()).timers[timer], deltaTime)
      ensures View() == Begun(old(View()), timer, deltaTime)
    {
      ViewIsGood();
      KindKept(timer);
      hide Manager.Linked, StatesOf, Elapse, Due, Good;
      due := ElapseState(timer);
      LogEvent(Ticked(timer));
    }

    // One of the two delegates is called.
    method Call(timer: Timer, script: seq<Op<Timer>>)
      requires Linked() && timer in pool && Within(script, pool)
      modifies this`headNode, this`tailNode, this`nodes, pool
      ensures Linked() && Good(old(View())) && timer in old(View()).timers && Within(script, old(View()).timers.Keys)
      ensures View() == Called(old(View()), timer, script)
    {
      ViewIsGood();
      KindKept(timer);
      hide Manager.Linked, StatesOf, ApplyAll, Good, Within, GrewOrCleared;
      if timer.registered {
        RunScript(script);
      }
    }

    // Tick of a countdown timer, with the script its callback runs.
    method TickCountdown(timer: Timer, scripts: Scripts<Timer>)
      requires Linked() && timer in pool && BothWithin(scripts, pool) && timer.kind.Countdown?
      modifies this`headNode, this`tailNode, this`nodes, this`log, pool
      ensures Linked() && View() == TickOne(old(View()), timer, deltaTime, scripts)
    {
      ViewIsGood();
      KindKept(timer);
      hide Manager.Linked, Manager.View, StatesOf, Begun, Due, Called, Good, Within, Logged, GrewOrCleared;
      var due := ElapseTimer(timer);
      if due {
        LogEvent(TimeUp(timer));
        Call(timer, scripts.onTimeUp);
      }
    }

    // Tick of a lap timer, with the scripts its callbacks run.
    method TickLaps(timer: Timer, scripts: Scripts<Timer>)
      requires Linked() && timer in pool && BothWithin(scripts, pool) && timer.kind.Lap?
      modifies this`headNode, this`tailNode, this`nodes, this`log, pool
      ensures Linked() && View() == TickOne(old(View()), timer, deltaTime, scripts)
    {
      ViewIsGood();
      KindKept(timer);
      hide Manager.Linked, Manager.View, StatesOf, Begun, Due, Called, EndOfLap, Good, Within, Logged, GrewOrCleared;
      var due := ElapseTimer(timer);
      if due {
        CallLapUp(timer, scripts);
      }
    }

    method CallLapUp(timer: Timer, scripts: Scripts<Timer>)
      requires Linked() && timer in pool && BothWithin(scripts, pool)
      modifies this`headNode, this`tailNode, this`nodes, this`log, pool
      ensures Linked()
      ensures var w := Logged(old(View()), LapUp(timer));
              && Good(w) && timer in w.timers && w.timers.Keys == pool
              && View() == EndOfLap(Called(w, timer, scripts.onLap), timer, scripts.onTimeUp)
    {
      ViewIsGood();
      KindKept(timer);
      hide Manager.Linked, StatesOf, Called, Within, EndOfLap, GrewOrCleared;
      LogEvent(LapUp(timer));
      Call(timer, scripts.onLap);
      KindKept(timer);
      FinishTick(timer, scripts.onTimeUp);
    }

    method TickTimer(timer: Timer, scripts: Scripts<Timer>)
      requires Linked() && timer in pool && BothWithin(scripts, pool)
      modifies this`headNode, this`tailNode, this`nodes, this`log, pool
      ensures Linked() && View() == TickOne(old(View()), timer, deltaTime, scripts)
    {
      ViewIsGood();
      KindKept(timer);
      hide Manager.Linked, StatesOf, TickOne, Good, BothWithin, GrewOrCleared;
      if timer.kind.Countdown? {
        TickCountdown(timer, scripts);
      } else {
        TickLaps(timer, scripts);
      }
    }

    // The end of a lap timer's Tick: one lap less, and the end of the last.
    method FinishTick(timer: Timer, onTimeUp: seq<Op<Timer>>)
      requires Linked() && timer in pool && Within(onTimeUp, pool)
      modifies this`headNode, this`tailNode, this`nodes, this`log, pool
      ensures Linked() && Good(old(View())) && timer in old(View()).timers && Within(onTimeUp, old(View()).timers.Keys)
      ensures View() == EndOfLap(old(View()), timer, onTimeUp)
    {
      ViewIsGood();
      KindKept(timer);
      hide Manager.Linked, StatesOf, CountLap, Called, Good, Within, GrewOrCleared;
      var over := CountState(timer);
      if over {
        LogEvent(TimeUp(timer));
        Call(timer, onTimeUp);
      }
    }

    lemma KindKept(timer: Timer)
      requires timer in pool
      ensures timer in View().timers && View().timers[timer].kind == timer.kind
      ensures View().timers[timer].registered == timer.registered
      ensures View().timers.Keys == pool && View().timers == StatesOf(pool)
    {
    }

    lemma LinksAt(pos: nat)
      requires Linked() && pos < |nodes|
      ensures forall j {:trigger nodes[j]} | 0 <= j < |nodes| ::
                && nodes[j].nextNode == NextOf(nodes, j)
                && (nodes[j] == nodes[pos] <==> j == pos)
                && (pos > 0 ==> (nodes[j] == nodes[pos - 1] <==> j == pos - 1))
      ensures NextOf(nodes, pos) == null <==> pos + 1 == |nodes|
    {
    }

    // The links around a node that has been taken out of `list`.
    ghost predicate Bypassed(list: seq<Timer>, pos: nat)
      reads this`nodes, this`pool, pool`nextNode
    {
      && pos < |list| && Distinct(list) && nodes == Without(list, pos)
      && (forall t <- list :: t in pool)
      && (forall j {:trigger list[j].nextNode} | 0 <= j < |list| && j != pos ::
            list[j].nextNode == NextOf(list, if j + 1 == pos then pos else j))
      && list[pos].nextNode == null
      && (forall t <- pool :: t !in list ==> t.nextNode == null)
    }

    lemma BypassedLinks(list: seq<Timer>, pos: nat)
      requires Bypassed(list, pos)
      ensures forall i {:trigger nodes[i].nextNode} | 0 <= i < |nodes| :: nodes[i] in pool && nodes[i].nextNode == NextOf(nodes, i)
    {
      EndsOfWithout(list, pos);
      hide Distinct, NextOf, Without;
      forall i {:trigger nodes[i].nextNode} | 0 <= i < |nodes| ensures nodes[i] in pool && nodes[i].nextNode == NextOf(nodes, i) {
        NextOfWithout(list, pos, i);
        assert nodes[i] == list[if i < pos then i else i + 1];
      }
    }

    lemma BypassedOthers(list: seq<Timer>, pos: nat)
      requires Bypassed(list, pos)
      ensures Distinct(nodes) && forall t <- pool :: t !in nodes ==> t.nextNode == null
    {
      WithoutElement(list, pos);
      hide Distinct, NextOf, Without;
    }

    lemma Relinked(list: seq<Timer>, pos: nat)
      requires Bypassed(list, pos)
      requires headNode == if pos == 0 then NextOf(list, pos) else list[0]
      requires tailNode == if pos + 1 < |list| then list[|list| - 1] else if pos == 0 then null else list[pos - 1]
      ensures Linked()
    {
      BypassedLinks(list, pos);
      BypassedOthers(list, pos);
      EndsOfWithout(list, pos);
      assert nodes == Without(list, pos) && pos < |list|;
      hide Distinct, Without, Manager.Bypassed;
    }

    // A stopped timer leaves the list; what follows it is next.
    method Unlink(prevNode: Timer?, currNode: Timer, ghost pos: nat) returns (nextNode: Timer?)
      requires Linked() && pos < |nodes| && currNode == nodes[pos]
      requires prevNode == if pos == 0 then null else nodes[pos - 1]
      modifies this`headNode, this`tailNode, this`nodes, pool`nextNode
      ensures Linked() && nodes == Without(old(nodes), pos)
      ensures nextNode == NodeAt(nodes, pos)
    {
      hide Without, NextOf, Distinct;
      ghost var list := nodes;
      EndsOfWithout(list, pos);
      LinksAt(pos);
      if prevNode == null {
        headNode := currNode.nextNode;
      } else {
        prevNode.nextNode := currNode.nextNode;
      }
      if currNode.nextNode == null {
        tailNode := prevNode;
      }
      nextNode := currNode.nextNode;
      currNode.nextNode := null;
      nodes := Without(nodes, pos);
      assert Bypassed(list, pos);
      assert headNode == if pos == 0 then NextOf(list, pos) else list[0];
      assert tailNode == if pos + 1 < |list| then list[|list| - 1] else if pos == 0 then null else list[pos - 1];
      hide Manager.Linked, Manager.Bypassed;
      Relinked(list, pos);
    }

    // The loop of Update stands where the walk does: at the timer of its position, with the
    // true predecessor of that timer at hand.
    ghost predicate Walking(f: Frame<Timer>, s: Walk<Timer>, prevNode: Timer?, currNode: Timer?)
      reads this, pool
    {
      && Linked() && s.world == View() && f.deltaTime == deltaTime
      && s.pos <= |nodes| && currNode == NodeAt(nodes, s.pos)
      && (currNode != null ==> prevNode == if s.pos == 0 then null else nodes[s.pos - 1])
    }

    // At the head of the loop: the timer at hand is that of the walk, and the round to come
    // keeps the walk on its way.
    lemma AtRound(f: Frame<Timer>, s: Walk<Timer>, prevNode: Timer?, currNode: Timer)
      requires Walking(f, s, prevNode, currNode) && Ready(f, s)
      ensures !AtEnd(s) && s.pos < |s.world.list| && currNode in pool && BothWithin(f.callbacks(currNode), pool)
      ensures currNode.isStop ==> Round(f, s) == Drop(s)
      ensures !currNode.isStop ==> Round(f, s) == Ahead(f, s)
      ensures Ready(f, Round(f, s)) && Pass(f, s) == Pass(f, Round(f, s))
      ensures Nearer(s, Round(f, s))
    {
      KeysArePool();
      assert currNode == s.world.list[s.pos] && currNode in nodes;
      RoundIsReady(f, s);
      RoundGoesOn(f, s);
      hide Round, Ready, StatesOf, Good, Armed, Drop, Ahead, Pass;
    }

    // A round over a stopped timer.
    method DropRound(prevNode: Timer?, currNode: Timer, ghost f: Frame<Timer>, ghost s: Walk<Timer>) returns (nextNode: Timer?)
      requires Walking(f, s, prevNode, currNode) && !AtEnd(s)
      modifies this`headNode, this`tailNode, this`nodes, pool`nextNode
      ensures Walking(f, Drop(s), prevNode, nextNode)
    {
      EndsOfWithout(nodes, s.pos);
      hide StatesOf, Manager.Linked;
      nextNode := Unlink(prevNode, currNode, s.pos);
      hide Without;
    }

    // A round over a running timer.
    method TickRound(prevNode: Timer?, currNode: Timer, scripts: Scripts<Timer>, ghost f: Frame<Timer>, ghost s: Walk<Timer>)
      returns (nextNode: Timer?)
      requires Walking(f, s, prevNode, currNode) && Ready(f, s) && !AtEnd(s)
      requires currNode in pool && BothWithin(scripts, pool) && scripts == f.callbacks(currNode)
      modifies this`headNode, this`tailNode, this`nodes, this`log, pool
      ensures Walking(f, Ahead(f, s), currNode, nextNode)
    {
      hide Ready, StatesOf, Manager.Linked, After, TickOne, BothWithin, GrewOrCleared;
      TickTimer(currNode, scripts);
      NextInWalk(currNode);
      nextNode := currNode.nextNode;
    }

    lemma WalkStarts(f: Frame<Timer>)
      requires Linked() && f.deltaTime == deltaTime && Tame(f, pool)
      ensures var s := Walk(View(), 0, {}, {});
              && Walking(f, s, null, headNode) && Ready(f, s) && Pass(f, s) == GameTime.Update(f, View())
    {
      ViewIsGood();
      KeysArePool();
    }

    lemma WalkEnds(f: Frame<Timer>, s: Walk<Timer>, prevNode: Timer?)
      requires Walking(f, s, prevNode, null) && Ready(f, s)
      ensures Linked() && Pass(f, s) == View()
    {
      PassEnds(f, s);
    }

    // A round of the loop, over a stopped or a running timer.
    method AnyRound(prevNode: Timer?, currNode: Timer, callbacks: Timer -> Scripts<Timer>, ghost f: Frame<Timer>, ghost s: Walk<Timer>)
      returns (prevNode': Timer?, currNode': Timer?)
      requires Walking(f, s, prevNode, currNode) && Ready(f, s) && callbacks == f.callbacks
      modifies this`headNode, this`tailNode, this`nodes, this`log, pool
      ensures !AtEnd(s) && Walking(f, Round(f, s), prevNode', currNode')
      ensures Ready(f, Round(f, s)) && Pass(f, s) == Pass(f, Round(f, s)) && Nearer(s, Round(f, s))
    {
      AtRound(f, s, prevNode, currNode);
      hide Ready, Round, Drop, Ahead, Pass, Nearer, Manager.Walking, Manager.Linked;
      if currNode.isStop {
        currNode' := DropRound(prevNode, currNode, f, s);
        prevNode' := prevNode;
      } else {
        currNode' := TickRound(prevNode, currNode, callbacks(currNode), f, s);
        prevNode' := currNode;
      }
    }

    // The loop of Update.
    method WalkList(callbacks: Timer -> Scripts<Timer>, ghost f: Frame<Timer>, ghost start: Walk<Timer>)
      requires Walking(f, start, null, headNode) && Ready(f, start) && callbacks == f.callbacks
      modifies this`headNode, this`tailNode, this`nodes, this`log, pool
      ensures Linked() && View() == Pass(f, start)
    {
      hide Pass, Round, Ready, Manager.Walking, Manager.Linked, AtEnd, Armed;
      ghost var s := start;
      var prevNode: Timer? := null;
      var currNode := headNode;
      while currNode != null
        invariant Walking(f, s, prevNode, currNode) && Ready(f, s)
        invariant Pass(f, s) == Pass(f, start)
        decreases Armed(s.world), s.world.timers.Keys - s.ticked, |s.world.list| - s.pos
      {
        prevNode, currNode := AnyRound(prevNode, currNode, callbacks, f, s);
        s := Round(f, s);
      }
      WalkEnds(f, s, prevNode);
    }

    // One pass over the timers, ending in the list, the states and the events that the
    // values say, whatever the callbacks do to the list being walked.
    method Update(callbacks: Timer -> Scripts<Timer>)
      requires Linked() && Tame(Frame(deltaTime, callbacks), pool)
      modifies this`headNode, this`tailNode, this`nodes, this`log, pool
      ensures Linked()
      ensures Good(old(View())) && Tame(Frame(deltaTime, callbacks), old(View()).timers.Keys)
      ensures View() == GameTime.Update(Frame(deltaTime, callbacks), old(View()))
    {
      ViewIsGood();
      KeysArePool();
      ghost var f := Frame(deltaTime, callbacks);
      WalkStarts(f);
      hide Pass, Ready, Tame, Good, Manager.Walking, Manager.Linked, GameTime.Update;
      WalkList(callbacks, f, Walk(View(), 0, {}, {}));
    }

    lemma KeysArePool()
      ensures View().timers.Keys == pool
      ensures forall t <- pool :: View().timers[t].isStop == t.isStop
    {
    }

    // Following the link of a timer just ticked is taking its place in the walk.
    lemma NextInWalk(timer: Timer)
      requires Linked() && timer in pool
      ensures timer.nextNode == NodeAt(nodes, After(nodes, timer))
      ensures After(nodes, timer) < |nodes| ==> After(nodes, timer) > 0 && nodes[After(nodes, timer) - 1] == timer
    {
      var i := After(nodes, timer);
      assert timer in nodes ==> nodes[i - 1].nextNode == NextOf(nodes, i - 1);
    }

    // The delta of the next Update, from the measured length of this frame.
    method LateUpdate(frameTicks: nat)
      modifies this`deltaTime
      ensures deltaTime == CountdownRuns.DeltaAfter(frameTicks)
    {
      if frameTicks < CountdownRuns.MIN_TICKS {
        deltaTime := CountdownRuns.MIN_TICKS as real / CountdownRuns.NANOSECONDS;
      } else {
        deltaTime := frameTicks as real / CountdownRuns.NANOSECONDS;
      }
    }
  }
}
