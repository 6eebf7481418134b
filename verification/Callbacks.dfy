/** Which callbacks an Update calls, and when, told from what they do: every callback that is
    due runs to its end, no other one runs, and each sees its own timer as the tick has left
    it at that moment. */
module Callbacks {
  import opened CountdownRuns
  import opened GameTime
  import opened GameTimeRuns
  import opened Timers

  // A script that starts u, and leaves it alone after that.
  ghost predicate Starts<T>(script: seq<Op<T>>, u: T) {
    exists k | 0 <= k < |script| :: script[k] == Op.Start(u) && Leaves(script[k + 1..], u)
  }

  // The callbacks of these timers but t leave x alone.
  ghost predicate OthersLeave<T>(f: Frame<T>, timers: set<T>, t: T, x: T) {
    forall v <- timers :: v != t ==> BothLeave(f.callbacks(v), x)
  }

  lemma {:induction false} ScriptStarts<T>(w: World<T>, script: seq<Op<T>>, u: T)
    requires Good(w) && Within(script, w.timers.Keys) && Starts(script, u)
    ensures var r := ApplyAll(w, script);
            u in r.list && u in r.timers && !r.timers[u].isStop
    decreases |script|
  {
    var k :| 0 <= k < |script| && script[k] == Op.Start(u) && Leaves(script[k + 1..], u);
    assert script[0] in script;
    var v := Apply(w, script[0]);
    if k == 0 {
      ScriptLeaves(v, script[1..], u);
    } else {
      assert script[1..][k - 1] == Op.Start(u) && script[1..][k..] == script[k + 1..];
      ScriptStarts(v, script[1..], u);
    }
  }

  // ---- An Update up to the tick of t, and from there on.

  // The walk when it comes to t.
  lemma {:induction false} WalkTo<T>(f: Frame<T>, s: Walk<T>, t: T, x: T) returns (r: Walk<T>)
    requires Ready(f, s) && t in s.world.list[s.pos..] && OthersLeave(f, Armed(s.world), t, t)
    ensures Ready(f, r) && !AtEnd(r) && r.world.list[r.pos] == t && Pass(f, s) == Pass(f, r)
    ensures Untouched(s.world, r.world, t) && s.world.log <= r.world.log && Armed(r.world) <= Armed(s.world)
    ensures r.world.timers.Keys == s.world.timers.Keys
    ensures OthersLeave(f, Armed(s.world), t, x) && x in s.world.timers && x !in s.world.list ==>
              Untouched(s.world, r.world, x) && x !in r.world.list
    decreases Armed(s.world), s.world.timers.Keys - s.ticked, |s.world.list| - s.pos
  {
    hide Round, Ready, Untouched, OthersLeave, Good;
    NotAtEnd(f, s, t);
    if s.world.list[s.pos] == t {
      r := s;
      Unchanged(s.world, t);
      Unchanged(s.world, x);
    } else {
      var s' := Round(f, s);
      StepTo(f, s, t, x);
      r := WalkTo(f, s', t, x);
      Chain(s.world, s'.world, r.world, t, 0.0);
      Chain(s.world, s'.world, r.world, x, 0.0);
    }
  }

  lemma NotAtEnd<T>(f: Frame<T>, s: Walk<T>, t: T)
    requires Ready(f, s) && t in s.world.list[s.pos..]
    ensures !AtEnd(s) && t in s.world.timers
  {
  }

  lemma Unchanged<T>(w: World<T>, t: T)
    ensures t in w.timers ==> Untouched(w, w, t)
  {
  }

  lemma StepTo<T>(f: Frame<T>, s: Walk<T>, t: T, x: T)
    requires Ready(f, s) && t in s.world.list[s.pos..] && OthersLeave(f, Armed(s.world), t, t)
    requires !AtEnd(s) && s.world.list[s.pos] != t
    ensures var s' := Round(f, s);
            && Ready(f, s') && Pass(f, s) == Pass(f, s') && Nearer(s, s')
            && s'.pos <= |s'.world.list| && t in s'.world.list[s'.pos..] && OthersLeave(f, Armed(s'.world), t, t)
            && Untouched(s.world, s'.world, t) && s.world.log <= s'.world.log && Armed(s'.world) <= Armed(s.world)
            && (OthersLeave(f, Armed(s.world), t, x) ==> OthersLeave(f, Armed(s'.world), t, x))
            && (OthersLeave(f, Armed(s.world), t, x) && x in s.world.timers && x !in s.world.list ==>
                  Untouched(s.world, s'.world, x) && x !in s'.world.list)
  {
    RoundGoesOn(f, s);
    RoundIsReady(f, s);
    hide Round, Ready, Untouched, OthersLeave, Good;
    OthersRound(f, s, t, t);
    OthersRound(f, s, t, x);
    RoundBeforeTimer(f, s, t);
  }

  lemma LogGrows<T>(w: World<T>, u: T, deltaTime: real, scripts: Scripts<T>)
    requires Good(w) && u in w.timers && BothWithin(scripts, w.timers.Keys)
    ensures w.log <= TickOne(w, u, deltaTime, scripts).log
  {
  }

  // A round of another timer than t.
  lemma OthersRound<T>(f: Frame<T>, s: Walk<T>, t: T, x: T)
    requires Ready(f, s) && !AtEnd(s) && s.world.list[s.pos] != t
    ensures Armed(Round(f, s).world) <= Armed(s.world) && s.world.log <= Round(f, s).world.log
    ensures OthersLeave(f, Armed(s.world), t, x) ==>
              && OthersLeave(f, Armed(Round(f, s).world), t, x)
              && (s.world.timers[s.world.list[s.pos]].registered ==> BothLeave(f.callbacks(s.world.list[s.pos]), x))
    ensures OthersLeave(f, Armed(s.world), t, x) && x in s.world.timers && x !in s.world.list ==>
              Untouched(s.world, Round(f, s).world, x) && x !in Round(f, s).world.list
  {
    var w, u := s.world, s.world.list[s.pos];
    RoundIsReady(f, s);
    assert OthersLeave(f, Armed(w), t, x) && u in Armed(w) ==> BothLeave(f.callbacks(u), x);
    hide BothLeave;
    if w.timers[u].isStop {
      DropIsReady(f, s);
    } else {
      AheadIsReady(f, s);
      LogGrows(w, u, f.deltaTime, f.callbacks(u));
      if OthersLeave(f, Armed(w), t, x) && x in w.timers && x !in w.list {
        TickLeaves(w, u, f.deltaTime, f.callbacks(u), x);
      }
    }
  }

  // The round of t itself: nobody else touches x in what is left of the Update.
  lemma OwnRound<T>(f: Frame<T>, s: Walk<T>, t: T, x: T)
    requires Ready(f, s) && !AtEnd(s) && s.world.list[s.pos] == t && !s.world.timers[t].isStop
    requires OthersLeave(f, Armed(s.world), t, x)
    ensures Ready(f, Ahead(f, s)) && Undisturbed(f, Ahead(f, s), x) && Pass(f, s) == Pass(f, Ahead(f, s))
    ensures t !in Ahead(f, s).world.list[Ahead(f, s).pos..]
  {
    RoundGoesOn(f, s);
    AheadIsReady(f, s);
    var r := Ahead(f, s);
    assert t in s.world.list;
    assert t in r.world.list ==> r.world.list[..r.pos][r.pos - 1] == t;
    hide TickOne, BothLeave, Tame;
  }

  // What runs after the tick of t is in the list at the end of the Update, and runs unless
  // the Update came to it too and its own time was up.
  lemma StaysStarted<T>(f: Frame<T>, s: Walk<T>, u: T)
    requires Ready(f, s) && Undisturbed(f, s, u)
    requires u in s.world.timers && u in s.world.list && !s.world.timers[u].isStop
    ensures var r := Pass(f, s);
            && u in r.list && u in r.timers
            && (r.timers[u].isStop ==> u in s.world.list[s.pos..] && Count(r.log, TimeUp(u)) > Count(s.world.log, TimeUp(u)))
  {
    assert s.pos <= |s.world.list|;
    hide Ready, Undisturbed, Pass, Count, Reached, Untouched;
    if u in s.world.list[s.pos..] {
      PassReaches(f, s, u);
      RanOut(s.world, Pass(f, s), u, f.deltaTime);
    } else {
      PassSkips(f, s, u);
      StillRuns(s.world, Pass(f, s), u);
    }
  }

  lemma RanOut<T>(w: World<T>, r: World<T>, u: T, deltaTime: real)
    requires u in w.timers && !w.timers[u].isStop && Reached(w, r, u, deltaTime)
    ensures u in r.list && u in r.timers
    ensures r.timers[u].isStop ==> Count(r.log, TimeUp(u)) > Count(w.log, TimeUp(u))
  {
    hide Count;
  }

  lemma StillRuns<T>(w: World<T>, r: World<T>, u: T)
    requires Untouched(w, r, u) && !w.timers[u].isStop
    ensures u in w.timers && u in r.timers && !r.timers[u].isStop
  {
  }

  lemma CountGrows<T>(log: seq<Event<T>>, log': seq<Event<T>>, e: Event<T>)
    requires log <= log'
    ensures Count(log, e) <= Count(log', e)
  {
    assert log' == log + log'[|log|..];
  }

  // The timer u runs after an Update from w to r in which t has started it; or it came to
  // be ticked in the same Update, and its own time was up.
  ghost predicate RunsAfter<T>(w: World<T>, r: World<T>, t: T, u: T) {
    && u in r.list && u in r.timers
    && (r.timers[u].isStop ==> u != t && Count(r.log, TimeUp(u)) > Count(w.log, TimeUp(u)))
  }

  lemma StartedByTick<T>(f: Frame<T>, w: World<T>, s: Walk<T>, t: T, u: T)
    requires Good(w) && Tame(f, w.timers.Keys) && w.log <= s.world.log
    requires Ready(f, s) && !AtEnd(s) && s.world.list[s.pos] == t && !s.world.timers[t].isStop
    requires OthersLeave(f, Armed(s.world), t, u) && Update(f, w) == Pass(f, s)
    requires var r := TickOne(s.world, t, f.deltaTime, f.callbacks(t));
             u in r.list && u in r.timers && !r.timers[u].isStop
    ensures RunsAfter(w, Update(f, w), t, u)
  {
    OwnRound(f, s, t, u);
    LogGrows(s.world, t, f.deltaTime, f.callbacks(t));
    var r := Ahead(f, s);
    CountGrows(w.log, r.world.log, TimeUp(u));
    hide Ready, Undisturbed, Pass, Count, TickOne, Update;
    StaysStarted(f, r, u);
  }

  // The walk of an Update that comes to t.
  lemma UpdateTo<T>(f: Frame<T>, w: World<T>, t: T, x: T) returns (s: Walk<T>)
    requires Good(w) && Tame(f, w.timers.Keys) && t in w.list
    requires OthersLeave(f, Armed(w), t, t) && OthersLeave(f, Armed(w), t, x)
    ensures Ready(f, s) && !AtEnd(s) && s.world.list[s.pos] == t && Update(f, w) == Pass(f, s)
    ensures Untouched(w, s.world, t) && w.log <= s.world.log && s.world.timers.Keys == w.timers.Keys
    ensures BothWithin(f.callbacks(t), s.world.timers.Keys)
    ensures OthersLeave(f, Armed(s.world), t, x)
    ensures x in w.timers && x !in w.list ==> Untouched(w, s.world, x) && x !in s.world.list
  {
    var start := Walk(w, 0, {}, {});
    assert w.list[0..] == w.list;
    s := WalkTo(f, start, t, x);
    hide Untouched, BothLeave, Good;
  }

  // ---- Every callback that is due is called.

  // The callback of a countdown whose time is up.
  lemma CountdownCalls<T>(f: Frame<T>, w: World<T>, t: T, u: T)
    requires Good(w) && Tame(f, w.timers.Keys) && t in w.list
    requires OthersLeave(f, Armed(w), t, t) && OthersLeave(f, Armed(w), t, u)
    requires var s := w.timers[t];
             s.kind.Countdown? && !s.isStop && s.registered && s.leftTime <= f.deltaTime
    requires Starts(f.callbacks(t).onTimeUp, u)
    ensures RunsAfter(w, Update(f, w), t, u)
  {
    var s := UpdateTo(f, w, t, u);
    ScriptStarts(Logged(Begun(s.world, t, f.deltaTime), TimeUp(t)), f.callbacks(t).onTimeUp, u);
    hide Ready, ApplyAll, Starts, OthersLeave, Update, Pass, RunsAfter, Within;
    StartedByTick(f, w, s, t, u);
  }

  // The lap callback, at every lap that is due.
  lemma LapCalls<T>(f: Frame<T>, w: World<T>, t: T, u: T)
    requires Good(w) && Tame(f, w.timers.Keys) && t in w.list && u != t
    requires OthersLeave(f, Armed(w), t, t) && OthersLeave(f, Armed(w), t, u)
    requires var s := w.timers[t];
             s.kind.Lap? && !s.isStop && s.registered && s.lapLeftTime <= f.deltaTime
    requires Starts(f.callbacks(t).onLap, u) && Leaves(f.callbacks(t).onTimeUp, u)
    ensures RunsAfter(w, Update(f, w), t, u)
  {
    var s := UpdateTo(f, w, t, u);
    var v := Logged(Begun(s.world, t, f.deltaTime), LapUp(t));
    ScriptStarts(v, f.callbacks(t).onLap, u);
    hide Ready, ApplyAll, Starts, OthersLeave, Update, Pass, RunsAfter, Within, EndOfLap, Leaves;
    EndLeaves(Called(v, t, f.callbacks(t).onLap), t, f.callbacks(t).onTimeUp, u);
    StartedByTick(f, w, s, t, u);
  }

  lemma LastLapStarts<T>(w: World<T>, t: T, deltaTime: real, scripts: Scripts<T>, u: T)
    requires Good(w) && t in w.timers && BothWithin(scripts, w.timers.Keys)
    requires var s := w.timers[t];
             s.kind.Lap? && s.registered && s.lapLeftTime <= deltaTime && s.leftLap <= 1
    requires Leaves(scripts.onLap, t) && Starts(scripts.onTimeUp, u)
    ensures var r := TickOne(w, t, deltaTime, scripts);
            u in r.list && u in r.timers && !r.timers[u].isStop
  {
    hide ApplyAll, Starts, Leaves, Elapse, CountLap, EndOfLap;
    var v := Logged(Begun(w, t, deltaTime), LapUp(t));
    CallLeaves(v, t, scripts.onLap, t);
    LapsElapse(w.timers[t], deltaTime);
    EndStarts(Called(v, t, scripts.onLap), t, scripts.onTimeUp, u);
  }

  lemma EndStarts<T>(w: World<T>, t: T, onTimeUp: seq<Op<T>>, u: T)
    requires Good(w) && t in w.timers && Within(onTimeUp, w.timers.Keys) && Starts(onTimeUp, u)
    requires w.timers[t].registered && w.timers[t].leftLap <= 1
    ensures var r := EndOfLap(w, t, onTimeUp);
            u in r.list && u in r.timers && !r.timers[u].isStop
  {
    StillArmed(w, t, CountLap(w.timers[t]));
    ScriptStarts(Logged(WithTimer(w, t, CountLap(w.timers[t])), TimeUp(t)), onTimeUp, u);
    hide ApplyAll, Starts;
  }

  // And the callback of the last lap.
  lemma LastLapCalls<T>(f: Frame<T>, w: World<T>, t: T, u: T)
    requires Good(w) && Tame(f, w.timers.Keys) && t in w.list
    requires OthersLeave(f, Armed(w), t, t) && OthersLeave(f, Armed(w), t, u)
    requires var s := w.timers[t];
             s.kind.Lap? && !s.isStop && s.registered && s.lapLeftTime <= f.deltaTime && s.leftLap <= 1
    requires Leaves(f.callbacks(t).onLap, t) && Starts(f.callbacks(t).onTimeUp, u)
    ensures RunsAfter(w, Update(f, w), t, u)
  {
    var s := UpdateTo(f, w, t, u);
    LastLapStarts(s.world, t, f.deltaTime, f.callbacks(t), u);
    hide Ready, Starts, OthersLeave, Update, Pass, RunsAfter, Within, Leaves, TickOne;
    StartedByTick(f, w, s, t, u);
  }

  // Callbacks that the game gives a timer before an Update are called in it like any other.
  lemma RegisteredCalls<T>(w: World<T>, turn: Turn<T>, t: T, u: T)
    requires Good(w) && Within(turn.before, w.timers.Keys) && Tame(turn.frame, w.timers.Keys)
    requires t in w.list && Leaves(turn.before, t) && t in turn.registers
    requires OthersLeave(turn.frame, w.timers.Keys, t, t) && OthersLeave(turn.frame, w.timers.Keys, t, u)
    requires var s := w.timers[t];
             s.kind.Countdown? && !s.isStop && s.leftTime <= turn.frame.deltaTime
    requires Starts(turn.frame.callbacks(t).onTimeUp, u)
    ensures RunsAfter(w, PlayOne(w, turn), t, u)
  {
    ScriptLeaves(w, turn.before, t);
    var v := Registered(ApplyAll(w, turn.before), turn.registers);
    assert Armed(v) <= w.timers.Keys;
    assert v.log == w.log && t in v.list && v.timers[t] == w.timers[t].(registered := true);
    hide ApplyAll, Update, BothLeave, Leaves, Starts, Tame, Within, Registered, Good, Distinct;
    CountdownCalls(turn.frame, v, t, u);
  }

  // ---- And no other callback is.

  // The callbacks of t that are due, if it still has any, leave x alone; so does the lap
  // callback leave t, by whose laps the other one is called.
  ghost predicate DueOnesLeave<T>(s: TimerState, deltaTime: real, scripts: Scripts<T>, t: T, x: T) {
    && (s.registered && s.kind.Countdown? && s.leftTime <= deltaTime ==> Leaves(scripts.onTimeUp, x))
    && (s.registered && s.kind.Lap? && s.lapLeftTime <= deltaTime ==>
          && Leaves(scripts.onLap, x) && Leaves(scripts.onLap, t)
          && (s.leftLap <= 1 ==> Leaves(scripts.onTimeUp, x)))
  }

  lemma SparedByTick<T>(w: World<T>, t: T, deltaTime: real, scripts: Scripts<T>, x: T)
    requires Good(w) && t in w.timers && BothWithin(scripts, w.timers.Keys)
    requires DueOnesLeave(w.timers[t], deltaTime, scripts, t, x)
    requires x in w.timers && x != t
    ensures var r := TickOne(w, t, deltaTime, scripts);
            Untouched(w, r, x) && (x in r.list <==> x in w.list)
  {
    var s := w.timers[t];
    var none: seq<Op<T>> := [];
    hide Elapse, CountLap;
    if s.kind.Countdown? {
      var called := Scripts(none, if s.leftTime <= deltaTime then scripts.onTimeUp else none);
      assert TickOne(w, t, deltaTime, scripts) == TickOne(w, t, deltaTime, called);
      hide TickOne, Called, ApplyAll;
      TickLeaves(w, t, deltaTime, called, x);
    } else if s.lapLeftTime > deltaTime {
      assert TickOne(w, t, deltaTime, scripts) == TickOne(w, t, deltaTime, Scripts(none, none));
      hide TickOne, Called, ApplyAll;
      TickLeaves(w, t, deltaTime, Scripts(none, none), x);
    } else {
      SparedByLap(w, t, deltaTime, scripts, x);
    }
  }

  lemma SparedByLap<T>(w: World<T>, t: T, deltaTime: real, scripts: Scripts<T>, x: T)
    requires Good(w) && t in w.timers && BothWithin(scripts, w.timers.Keys)
    requires w.timers[t].kind.Lap? && w.timers[t].lapLeftTime <= deltaTime
    requires DueOnesLeave(w.timers[t], deltaTime, scripts, t, x)
    requires x in w.timers && x != t
    ensures var r := TickOne(w, t, deltaTime, scripts);
            Untouched(w, r, x) && (x in r.list <==> x in w.list)
  {
    hide Elapse, CountLap, Called, EndOfLap, Leaves;
    var v := Logged(Begun(w, t, deltaTime), LapUp(t));
    CallLeaves(v, t, scripts.onLap, x);
    CallLeaves(v, t, scripts.onLap, t);
    LapsElapse(w.timers[t], deltaTime);
    var v1 := Called(v, t, scripts.onLap);
    EndSpares(v1, t, scripts.onTimeUp, x);
    Chain(v, v1, EndOfLap(v1, t, scripts.onTimeUp), x, 0.0);
    assert Untouched(w, v, x);
    hide Untouched;
    Chain(w, v, EndOfLap(v1, t, scripts.onTimeUp), x, 0.0);
  }

  lemma EndSpares<T>(w: World<T>, t: T, onTimeUp: seq<Op<T>>, x: T)
    requires Good(w) && t in w.timers && Within(onTimeUp, w.timers.Keys)
    requires w.timers[t].registered && w.timers[t].leftLap <= 1 ==> Leaves(onTimeUp, x)
    requires x in w.timers && x != t
    ensures var r := EndOfLap(w, t, onTimeUp);
            Untouched(w, r, x) && (x in r.list <==> x in w.list)
  {
    if w.timers[t].leftLap <= 1 {
      EndLeaves(w, t, onTimeUp, x);
    } else {
      hide CountLap, Called;
    }
  }

  // A timer out of the list that every callback due in this Update leaves alone stays as it
  // is, whatever the other callbacks would do to it.
  lemma NoOtherCalls<T>(f: Frame<T>, w: World<T>, t: T, x: T)
    requires Good(w) && Tame(f, w.timers.Keys) && t in w.list && !w.timers[t].isStop
    requires OthersLeave(f, Armed(w), t, t) && OthersLeave(f, Armed(w), t, x)
    requires DueOnesLeave(w.timers[t], f.deltaTime, f.callbacks(t), t, x)
    requires x in w.timers && x !in w.list
    ensures Untouched(w, Update(f, w), x) && x !in Update(f, w).list
  {
    var s := UpdateTo(f, w, t, x);
    hide DueOnesLeave, BothLeave, Tame;
    SparedByTick(s.world, t, f.deltaTime, f.callbacks(t), x);
    OwnRound(f, s, t, x);
    var r := Ahead(f, s);
    hide TickOne, Ready, Undisturbed, Untouched, Pass, Update;
    Chain(w, s.world, r.world, x, 0.0);
    PassSkips(f, r, x);
    Chain(w, r.world, Pass(f, r), x, 0.0);
  }

  // ---- What a callback makes of its own timer.

  function Adjusts<T>(t: T, cs: seq<Change>): (script: seq<Op<T>>)
    ensures |script| == |cs|
  {
    seq(|cs|, i requires 0 <= i < |cs| => Adjust(t, cs[i]))
  }

  // The state of a timer after its tick, when its callbacks change it in these ways: the lap
  // callback works on the state before its lap is counted, and the other one after it.
  function ChangedTick(s: TimerState, deltaTime: real, onLap: seq<Change>, onTimeUp: seq<Change>): TimerState {
    var e := Elapse(s, deltaTime);
    if s.kind.Countdown? then
      if s.leftTime <= deltaTime then CalledOn(e, onTimeUp) else e
    else if s.lapLeftTime <= deltaTime then
      var l := CountLap(CalledOn(e, onLap));
      if l.leftLap <= 0 then CalledOn(l, onTimeUp) else l
    else e
  }

  function CalledOn(s: TimerState, cs: seq<Change>): TimerState {
    if s.registered then Changes(s, cs) else s
  }

  lemma {:induction false} AdjustsApply<T>(w: World<T>, t: T, cs: seq<Change>)
    requires Good(w) && t in w.timers
    ensures Within(Adjusts(t, cs), w.timers.Keys)
    ensures var r := ApplyAll(w, Adjusts(t, cs));
            r.list == w.list && r.timers == w.timers[t := Changes(w.timers[t], cs)]
    decreases |cs|
  {
    if cs != [] {
      assert Adjusts(t, cs)[1..] == Adjusts(t, cs[1..]);
      hide Change1;
      AdjustsApply(Apply(w, Adjusts(t, cs)[0]), t, cs[1..]);
    }
  }

  lemma CallAdjusts<T>(w: World<T>, t: T, cs: seq<Change>)
    requires Good(w) && t in w.timers
    ensures Within(Adjusts(t, cs), w.timers.Keys)
    ensures var r := Called(w, t, Adjusts(t, cs));
            r.list == w.list && r.timers == w.timers[t := CalledOn(w.timers[t], cs)]
  {
    hide ApplyAll, Within;
    AdjustsApply(w, t, cs);
  }

  lemma ScriptsWithin<T>(pool: set<T>, t: T, onLap: seq<Change>, onTimeUp: seq<Change>)
    requires t in pool
    ensures BothWithin(Scripts(Adjusts(t, onLap), Adjusts(t, onTimeUp)), pool)
  {
  }

  lemma TickAdjusts<T>(w: World<T>, t: T, deltaTime: real, onLap: seq<Change>, onTimeUp: seq<Change>)
    requires Good(w) && t in w.timers
    requires BothWithin(Scripts(Adjusts(t, onLap), Adjusts(t, onTimeUp)), w.timers.Keys)
    ensures var r := TickOne(w, t, deltaTime, Scripts(Adjusts(t, onLap), Adjusts(t, onTimeUp)));
            r.list == w.list && r.timers == w.timers[t := ChangedTick(w.timers[t], deltaTime, onLap, onTimeUp)]
  {
    hide Called, CalledOn, Elapse, CountLap, EndOfLap, GrewOrCleared, Within, Adjusts;
    var w1 := Begun(w, t, deltaTime);
    if w.timers[t].kind.Countdown? {
      CallAdjusts(Logged(w1, TimeUp(t)), t, onTimeUp);
    } else if w.timers[t].lapLeftTime <= deltaTime {
      var v := Logged(w1, LapUp(t));
      CallAdjusts(v, t, onLap);
      EndAdjusts(Called(v, t, Adjusts(t, onLap)), t, onTimeUp);
    }
  }

  lemma EndAdjusts<T>(w: World<T>, t: T, onTimeUp: seq<Change>)
    requires Good(w) && t in w.timers
    ensures Within(Adjusts(t, onTimeUp), w.timers.Keys)
    ensures var r, l := EndOfLap(w, t, Adjusts(t, onTimeUp)), CountLap(w.timers[t]);
            && r.list == w.list
            && r.timers == w.timers[t := if l.leftLap <= 0 then CalledOn(l, onTimeUp) else l]
  {
    CallAdjusts(w, t, onTimeUp);
    StillArmed(w, t, CountLap(w.timers[t]));
    CallAdjusts(Logged(WithTimer(w, t, CountLap(w.timers[t])), TimeUp(t)), t, onTimeUp);
    hide Called, CalledOn, Armed, Within;
  }

  // In an Update each callback changes its own timer at the moment it is called.
  lemma OwnChanges<T>(f: Frame<T>, w: World<T>, t: T, onLap: seq<Change>, onTimeUp: seq<Change>)
    requires Good(w) && Tame(f, w.timers.Keys) && t in w.list && !w.timers[t].isStop
    requires OthersLeave(f, Armed(w), t, t)
    requires f.callbacks(t) == Scripts(Adjusts(t, onLap), Adjusts(t, onTimeUp))
    ensures var r := Update(f, w);
            t in r.list && t in r.timers && r.timers[t] == ChangedTick(w.timers[t], f.deltaTime, onLap, onTimeUp)
  {
    var s := UpdateTo(f, w, t, t);
    ScriptsWithin(s.world.timers.Keys, t, onLap, onTimeUp);
    TickAdjusts(s.world, t, f.deltaTime, onLap, onTimeUp);
    OwnRound(f, s, t, t);
    assert t in s.world.list;
    hide TickOne, Ready, Undisturbed, Pass, Update, BothLeave, Tame;
    PassSkips(f, Ahead(f, s), t);
  }

  // A running timer with the whole time of s before it, if s was at the end of its own.
  predicate StartsOver(s: TimerState, r: TimerState, deltaTime: real) {
    && !r.isStop
    && (s.kind.Countdown? && s.leftTime <= deltaTime ==> r == s.(leftTime := s.interval))
    && (s.kind.Lap? && s.lapLeftTime <= deltaTime && s.leftLap <= 1 ==>
          r == s.(leftTime := s.interval * s.totalLap as real, scaledInterval := s.interval,
                  lapLeftTime := s.interval, leftLap := s.totalLap))
  }

  // A timer whose OnTimeUp restarts it runs on, in the list, with its whole time before it
  // again.
  lemma RestartsItself<T>(f: Frame<T>, w: World<T>, t: T)
    requires Good(w) && Tame(f, w.timers.Keys) && t in w.list && !w.timers[t].isStop
    requires OthersLeave(f, Armed(w), t, t) && w.timers[t].registered
    requires f.callbacks(t) == Scripts([], [Adjust(t, Restart)])
    ensures var r := Update(f, w);
            t in r.list && t in r.timers && StartsOver(w.timers[t], r.timers[t], f.deltaTime)
  {
    hide Update, Good, Tame, OthersLeave, ChangedTick, StartsOver;
    OneAdjust(t);
    hide Adjusts;
    OwnChanges(f, w, t, [], [Restart]);
    RestartedTick(w.timers[t], f.deltaTime);
  }

  lemma OneAdjust<T>(t: T)
    ensures Adjusts(t, []) == [] && Adjusts(t, [Restart]) == [Adjust(t, Restart)]
  {
  }

  lemma RestartedTick(s: TimerState, deltaTime: real)
    requires s.registered && !s.isStop
    ensures StartsOver(s, ChangedTick(s, deltaTime, [], [Restart]), deltaTime)
  {
    assert [Restart][1..] == [];
  }
}
