/** Exactly when an Update ticks no timer twice: a callback that clears the list must not
    leave its own timer in it with a running timer behind. */
module TicksOnce {
  import opened GameTime
  import opened GameTimeRuns
  import opened Timers

  // ---- What a script makes of the list once it has cleared it.

  datatype Rebuilt<T> = Rebuilt(list: seq<T>, running: set<T>)

  ghost function Rebuild<T>(b: Rebuilt<T>, op: Op<T>): Rebuilt<T> {
    match op
    case Start(t) => Rebuilt(Append(b.list, t), b.running + {t})
    case Stop(t) => b.(running := b.running - {t})
    case Adjust(t, change) =>
      if change.Restart? then b.(running := b.running + {t})
      else if change.Reset? then b.(running := b.running - {t})
      else b
    case ClearAll => Rebuilt([], {})
  }

  ghost function RebuildAll<T>(b: Rebuilt<T>, script: seq<Op<T>>): Rebuilt<T>
    decreases |script|
  {
    if script == [] then b else RebuildAll(Rebuild(b, script[0]), script[1..])
  }

  ghost function Left<T>(script: seq<Op<T>>): Rebuilt<T> {
    RebuildAll(Rebuilt([], {}), script)
  }

  // The running timers that a script leaves behind t in the list, if it clears the list.
  ghost function Behind<T>(script: seq<Op<T>>, t: T): set<T> {
    if NoClear(script) then {}
    else
      var b := Left(script);
      set u | u in b.list[After(b.list, t)..] && u in b.running
  }

  // A condition on the callbacks alone.
  ghost predicate Quiet<T>(s: Scripts<T>, t: T) {
    Behind(s.onLap, t) == {} && Behind(s.onTimeUp, t) == {}
  }

  ghost predicate AllQuiet<T>(callbacks: T -> Scripts<T>, pool: set<T>) {
    forall t <- pool :: Quiet(callbacks(t), t)
  }

  ghost predicate Agrees<T>(w: World<T>, b: Rebuilt<T>)
    requires Good(w)
  {
    w.list == b.list && forall u <- b.list :: u in b.running <==> !w.timers[u].isStop
  }

  lemma {:induction false} ScriptRebuilds<T>(w: World<T>, script: seq<Op<T>>, b: Rebuilt<T>)
    requires Good(w) && Within(script, w.timers.Keys)
    requires Agrees(w, b) || !NoClear(script)
    ensures Agrees(ApplyAll(w, script), RebuildAll(b, script))
    decreases |script|
  {
    if script != [] {
      OpRebuilds(w, script[0], b);
      assert script[0].ClearAll? || NoClear(script) || !NoClear(script[1..]);
      hide Apply, Rebuild, Agrees;
      ScriptRebuilds(Apply(w, script[0]), script[1..], Rebuild(b, script[0]));
    }
  }

  lemma OpRebuilds<T>(w: World<T>, op: Op<T>, b: Rebuilt<T>)
    requires Good(w) && (!op.ClearAll? ==> op.timer in w.timers)
    ensures Agrees(w, b) || op.ClearAll? ==> Agrees(Apply(w, op), Rebuild(b, op))
  {
  }

  // ---- One tick.

  lemma TickIsLogged<T>(w: World<T>, t: T, deltaTime: real, scripts: Scripts<T>, u: T)
    requires Good(w) && t in w.timers && BothWithin(scripts, w.timers.Keys)
    ensures Count(TickOne(w, t, deltaTime, scripts).log, Ticked(u)) == Count(w.log, Ticked(u)) + if u == t then 1 else 0
  {
    hide Called, Elapse, CountLap;
  }

  // The running timers behind t in the list.
  ghost function RunningBehind<T>(w: World<T>, t: T): set<T>
    requires Good(w)
  {
    set u | u in w.list[After(w.list, t)..] && !w.timers[u].isStop
  }

  lemma NotBehindItself<T>(list: seq<T>, t: T)
    requires Distinct(list)
    ensures t !in list[After(list, t)..]
    ensures forall u <- list[After(list, t)..] :: u in list
  {
  }

  lemma CallLeavesBehind<T>(w: World<T>, t: T, script: seq<Op<T>>)
    requires Good(w) && t in w.timers && Within(script, w.timers.Keys) && w.timers[t].registered
    ensures NoClear(script) ==> w.list <= Called(w, t, script).list
    ensures !NoClear(script) ==> RunningBehind(Called(w, t, script), t) == Behind(script, t)
  {
    if !NoClear(script) {
      ScriptRebuilds(w, script, Rebuilt([], {}));
      var r, b := Called(w, t, script), Left(script);
      hide Called, Left;
      NotBehindItself(r.list, t);
    }
  }

  // After a callback has cleared the list its own timer has no callback left to call.
  lemma EndAfterClear<T>(w: World<T>, t: T, onTimeUp: seq<Op<T>>)
    requires Good(w) && t in w.timers && Within(onTimeUp, w.timers.Keys) && !w.timers[t].registered
    ensures var r := EndOfLap(w, t, onTimeUp);
            r.list == w.list && RunningBehind(r, t) == RunningBehind(w, t)
  {
    hide CountLap;
    NotBehindItself(w.list, t);
    StillArmed(w, t, CountLap(w.timers[t]));
  }

  lemma ClearsItself<T>(w: World<T>, t: T, script: seq<Op<T>>)
    requires Good(w) && t in w.list && Within(script, w.timers.Keys) && !NoClear(script)
    ensures t !in Armed(ApplyAll(w, script))
    decreases |script|
  {
    var v := Apply(w, script[0]);
    if script[0].ClearAll? {
      assert t !in Armed(v);
    } else {
      ClearsItself(v, t, script[1..]);
    }
  }

  lemma TickLeavesBehind<T>(w: World<T>, t: T, deltaTime: real, scripts: Scripts<T>)
    requires Good(w) && t in w.list && BothWithin(scripts, w.timers.Keys)
    ensures var r := TickOne(w, t, deltaTime, scripts);
            w.list <= r.list || RunningBehind(r, t) == Behind(scripts.onLap, t) || RunningBehind(r, t) == Behind(scripts.onTimeUp, t)
  {
    hide Called, EndOfLap, Elapse, Behind, RunningBehind;
    if Due(w.timers[t], deltaTime) && w.timers[t].registered {
      var w1 := Begun(w, t, deltaTime);
      if w.timers[t].kind.Countdown? {
        CallLeavesBehind(Logged(w1, TimeUp(t)), t, scripts.onTimeUp);
      } else {
        LapLeavesBehind(Logged(w1, LapUp(t)), t, scripts);
      }
    }
  }

  lemma LapLeavesBehind<T>(w: World<T>, t: T, scripts: Scripts<T>)
    requires Good(w) && t in w.list && BothWithin(scripts, w.timers.Keys) && w.timers[t].registered
    ensures var r := EndOfLap(Called(w, t, scripts.onLap), t, scripts.onTimeUp);
            w.list <= r.list || RunningBehind(r, t) == Behind(scripts.onLap, t) || RunningBehind(r, t) == Behind(scripts.onTimeUp, t)
  {
    CallLeavesBehind(w, t, scripts.onLap);
    var v := Called(w, t, scripts.onLap);
    if !NoClear(scripts.onLap) {
      ClearsItself(w, t, scripts.onLap);
      EndAfterClear(v, t, scripts.onTimeUp);
    } else {
      EndLeavesBehind(v, t, scripts.onTimeUp);
    }
  }

  lemma EndLeavesBehind<T>(w: World<T>, t: T, onTimeUp: seq<Op<T>>)
    requires Good(w) && t in w.timers && Within(onTimeUp, w.timers.Keys)
    ensures var r := EndOfLap(w, t, onTimeUp);
            w.list <= r.list || RunningBehind(r, t) == Behind(onTimeUp, t)
  {
    hide CountLap, Behind, RunningBehind, Called;
    StillArmed(w, t, CountLap(w.timers[t]));
    var v := WithTimer(w, t, CountLap(w.timers[t]));
    if w.timers[t].registered {
      CallLeavesBehind(Logged(v, TimeUp(t)), t, onTimeUp);
    }
  }

  // ---- Quiet callbacks tick no timer twice.

  lemma {:induction false} StoppedPass<T>(f: Frame<T>, s: Walk<T>)
    requires Ready(f, s) && forall u <- s.world.list[s.pos..] :: s.world.timers[u].isStop
    ensures Pass(f, s).log == s.world.log
    decreases |s.world.list| - s.pos
  {
    if !AtEnd(s) {
      RoundIsReady(f, s);
      DropIsReady(f, s);
      assert s.world.list[s.pos] in s.world.list[s.pos..];
      hide Ready, Good;
      StoppedPass(f, Drop(s));
    }
  }

  lemma {:induction false} PassTicksOnce<T>(f: Frame<T>, s: Walk<T>, u: T)
    requires Ready(f, s) && AllQuiet(f.callbacks, s.world.timers.Keys)
    ensures Count(Pass(f, s).log, Ticked(u)) <= Count(s.world.log, Ticked(u)) + if u in s.ticked then 0 else 1
    decreases Armed(s.world), s.world.timers.Keys - s.ticked, |s.world.list| - s.pos
  {
    if !AtEnd(s) {
      RoundIsReady(f, s);
      var t, s' := s.world.list[s.pos], Round(f, s);
      if s.world.timers[t].isStop {
        hide Ready, Count;
        PassTicksOnce(f, s', u);
      } else {
        AheadTicksOnce(f, s, u);
        hide Ready, Round, Count, Ahead;
        if s.world.list <= s'.world.list {
          PassTicksOnce(f, s', u);
        } else {
          StoppedPass(f, s');
        }
      }
    }
  }

  lemma AheadTicksOnce<T>(f: Frame<T>, s: Walk<T>, u: T)
    requires Ready(f, s) && !AtEnd(s) && AllQuiet(f.callbacks, s.world.timers.Keys)
    ensures var s', t := Ahead(f, s), s.world.list[s.pos];
            && t !in s.ticked
            && Count(s'.world.log, Ticked(u)) == Count(s.world.log, Ticked(u)) + (if u == t then 1 else 0)
            && (s.world.list <= s'.world.list ==> s'.ticked == s.ticked + {t})
            && (!(s.world.list <= s'.world.list) ==>
                  Ready(f, s') && forall u <- s'.world.list[s'.pos..] :: s'.world.timers[u].isStop)
  {
    var t := s.world.list[s.pos];
    AheadIsReady(f, s);
    TickIsLogged(s.world, t, f.deltaTime, f.callbacks(t), u);
    TickLeavesBehind(s.world, t, f.deltaTime, f.callbacks(t));
    hide TickOne, Count, Behind;
    assert Quiet(f.callbacks(t), t);
    var r := TickOne(s.world, t, f.deltaTime, f.callbacks(t));
    if !(s.world.list <= r.list) {
      assert RunningBehind(r, t) == {};
      forall u | u in r.list[After(r.list, t)..] ensures r.timers[u].isStop {
        assert u !in RunningBehind(r, t);
      }
    }
  }

  lemma UpdateTicksOnce<T>(f: Frame<T>, w: World<T>, u: T)
    requires Good(w) && Tame(f, w.timers.Keys) && AllQuiet(f.callbacks, w.timers.Keys)
    ensures Count(Update(f, w).log, Ticked(u)) <= Count(w.log, Ticked(u)) + 1
  {
    PassTicksOnce(f, Walk(w, 0, {}, {}), u);
  }

  // ---- Any other callback ticks some timer twice, in some world.

  // Timers as Set and Start make them: one that outlasts two frames of d seconds, and two
  // that are due in the first, one of either kind.
  function Waiting(d: real): TimerState {
    TimerState(Countdown, false, false, d + d + 1.0, d + d + 1.0, 0.0, 0.0, 0, 0)
  }

  function DueCountdown(d: real): TimerState {
    TimerState(Countdown, false, true, d, d, 0.0, 0.0, 0, 0)
  }

  function DueLap(d: real): TimerState {
    TimerState(Lap, false, true, d + d, d, d, d, 2, 2)
  }

  function DueFor(onLap: bool, d: real): TimerState {
    if onLap then DueLap(d) else DueCountdown(d)
  }

  // Timer u, then t, which is due; whichever of its callbacks is not quiet is called.
  ghost function Overtaking<T>(s: Scripts<T>, pool: set<T>, t: T, u: T, d: real): World<T> {
    World([u, t], map x | x in pool :: if x == t then DueFor(Behind(s.onLap, t) != {}, d) else Waiting(d), [])
  }

  lemma OvertakenIsInPool<T>(script: seq<Op<T>>, pool: set<T>, t: T, u: T)
    requires Within(script, pool) && u in Behind(script, t)
    ensures u in pool && u != t
  {
    var w := World([], map x | x in pool :: Waiting(1.0), []);
    ScriptRebuilds(w, script, Rebuilt([], {}));
    NotBehindItself(ApplyAll(w, script).list, t);
  }

  // The tick of t: u comes to stand behind it, running, and t has lost its callbacks.
  lemma OvertakingTick<T>(w: World<T>, t: T, scripts: Scripts<T>, d: real)
    requires Good(w) && t in w.list && BothWithin(scripts, w.timers.Keys)
    requires w.timers[t] == DueFor(Behind(scripts.onLap, t) != {}, d)
    requires !Quiet(scripts, t)
    ensures var r := TickOne(w, t, d, scripts);
            && t !in Armed(r)
            && RunningBehind(r, t) == if Behind(scripts.onLap, t) != {} then Behind(scripts.onLap, t) else Behind(scripts.onTimeUp, t)
  {
    var w1 := Begun(w, t, d);
    if Behind(scripts.onLap, t) != {} {
      var v := Logged(w1, LapUp(t));
      ClearsItself(v, t, scripts.onLap);
      CallLeavesBehind(v, t, scripts.onLap);
      EndAfterClear(Called(v, t, scripts.onLap), t, scripts.onTimeUp);
      hide Behind, RunningBehind;
    } else {
      var v := Logged(w1, TimeUp(t));
      ClearsItself(v, t, scripts.onTimeUp);
      CallLeavesBehind(v, t, scripts.onTimeUp);
      hide Behind, RunningBehind;
    }
  }

  // The rounds of the Update: u waits, t goes off.
  lemma FirstRound<T>(f: Frame<T>, w: World<T>, u: T, t: T)
    requires Good(w) && Tame(f, w.timers.Keys) && f.deltaTime > 0.0
    requires w.list == [u, t] && w.timers[u] == Waiting(f.deltaTime)
    ensures var s, v := Walk(w, 0, {}, {}), Begun(w, u, f.deltaTime);
            && Ready(f, s) && Ready(f, Walk(v, 1, {u}, {})) && Pass(f, s) == Pass(f, Walk(v, 1, {u}, {}))
            && v.list == [u, t] && v.log == w.log + [Ticked(u)]
            && v.timers == w.timers[u := Waiting(f.deltaTime).(leftTime := f.deltaTime + 1.0)]
  {
    var s := Walk(w, 0, {}, {});
    assert w.list[0] == u && w.list[1] == t && u in w.list;
    var v := Begun(w, u, f.deltaTime);
    assert TickOne(w, u, f.deltaTime, f.callbacks(u)) == v;
    AheadIsReady(f, s);
    assert After(v.list, u) == 1;
    assert Ahead(f, s) == Walk(v, 1, {u}, {});
    hide Ready, TickOne, Begun;
    RoundIsReady(f, s);
  }

  lemma LastRounds<T>(f: Frame<T>, s: Walk<T>, t: T, u: T)
    requires Ready(f, s) && !AtEnd(s) && s.world.list[s.pos] == t && !s.world.timers[t].isStop
    requires u != t && Armed(s.world) <= {t}
    requires var r := TickOne(s.world, t, f.deltaTime, f.callbacks(t));
             t !in Armed(r) && u in RunningBehind(r, t)
    ensures Count(Pass(f, s).log, Ticked(u)) == Count(s.world.log, Ticked(u)) + 1
  {
    RoundIsReady(f, s);
    AheadIsReady(f, s);
    TickIsLogged(s.world, t, f.deltaTime, f.callbacks(t), u);
    var s' := Ahead(f, s);
    assert Armed(s'.world) == {};
    LeftByAll(f, s', {}, u);
    assert Pass(f, s) == Pass(f, s');
    hide Ready, TickOne, Round, Pass;
    PassReaches(f, s', u);
  }

  lemma OvertakingTicksTwice<T>(f: Frame<T>, pool: set<T>, t: T, u: T)
    requires Tame(f, pool) && f.deltaTime > 0.0 && t in pool
    requires u in if Behind(f.callbacks(t).onLap, t) != {} then Behind(f.callbacks(t).onLap, t) else Behind(f.callbacks(t).onTimeUp, t)
    ensures var w := Overtaking(f.callbacks(t), pool, t, u, f.deltaTime);
            && Good(w) && w.timers.Keys == pool && Tame(f, w.timers.Keys)
            && Count(w.log, Ticked(u)) == 0 && Count(Update(f, w).log, Ticked(u)) == 2
  {
    var scripts, d := f.callbacks(t), f.deltaTime;
    assert BothWithin(scripts, pool);
    OvertakenIsInPool(if Behind(scripts.onLap, t) != {} then scripts.onLap else scripts.onTimeUp, pool, t, u);
    var w := Overtaking(scripts, pool, t, u, d);
    assert w.timers.Keys == pool;
    FirstRound(f, w, u, t);
    var v := Begun(w, u, d);
    assert t in v.list by { assert v.list[1] == t; }
    OvertakingTick(v, t, scripts, d);
    assert Armed(v) <= {t} && !v.timers[t].isStop;
    hide Begun, TickOne, Ready, Pass, Behind, RunningBehind, Within, BothWithin, Tame, Good, Armed;
    LastRounds(f, Walk(v, 1, {u}, {}), t, u);
  }

  // With this pool of timers, these callbacks and a frame of this length, no Update ticks a
  // timer twice.
  ghost predicate NeverTwice<T(!new)>(callbacks: T -> Scripts<T>, pool: set<T>, deltaTime: real)
    requires forall t <- pool :: BothWithin(callbacks(t), pool)
  {
    forall w: World<T>, u: T | Good(w) && w.timers.Keys == pool ::
      Count(Update(Frame(deltaTime, callbacks), w).log, Ticked(u)) <= Count(w.log, Ticked(u)) + 1
  }

  // The exact condition, which a caller can read off the callbacks, for every length of the
  // frame but none.
  lemma TicksOnceExactly<T(!new)>(callbacks: T -> Scripts<T>, pool: set<T>, deltaTime: real)
    requires forall t <- pool :: BothWithin(callbacks(t), pool)
    requires deltaTime > 0.0
    ensures NeverTwice(callbacks, pool, deltaTime) <==> AllQuiet(callbacks, pool)
  {
    var f := Frame(deltaTime, callbacks);
    if AllQuiet(callbacks, pool) {
      forall w: World<T>, u: T | Good(w) && w.timers.Keys == pool
        ensures Count(Update(f, w).log, Ticked(u)) <= Count(w.log, Ticked(u)) + 1
      {
        UpdateTicksOnce(f, w, u);
      }
    } else {
      var t :| t in pool && !Quiet(callbacks(t), t);
      var s := callbacks(t);
      var u :| u in if Behind(s.onLap, t) != {} then Behind(s.onLap, t) else Behind(s.onTimeUp, t);
      hide Behind, Update, Count;
      OvertakingTicksTwice(f, pool, t, u);
    }
  }

  // ---- An Update that ticks a timer twice.

  const CLEARING: seq<Op<nat>> := [ClearAll, Op.Start(0), Op.Start(1)]

  ghost function ClearingCallbacks(timer: nat): Scripts<nat> {
    if timer == 0 then Scripts([], CLEARING) else Scripts([], [])
  }

  // Timer 1 waits, without callbacks; timer 0 behind it is due, and clears the list.
  ghost function ClearingWorld(d: real): World<nat> {
    World([1, 0], map[0 := DueCountdown(d), 1 := Waiting(d)], [])
  }

  lemma ThreeOps<T>(w: World<T>, a: Op<T>, b: Op<T>, c: Op<T>)
    requires Good(w) && Within([a, b, c], w.timers.Keys)
    ensures (!a.ClearAll? ==> a.timer in w.timers) && (!b.ClearAll? ==> b.timer in w.timers) && (!c.ClearAll? ==> c.timer in w.timers)
    ensures ApplyAll(w, [a, b, c]) == Apply(Apply(Apply(w, a), b), c)
  {
    assert a in [a, b, c] && b in [a, b, c] && c in [a, b, c];
    assert [a, b, c][1..] == [b, c] && [b, c][1..] == [c] && [c][1..] == [];
    hide Apply, Good, GrewOrCleared;
    assert ApplyAll(Apply(Apply(w, a), b), [c]) == Apply(Apply(Apply(w, a), b), c);
    assert ApplyAll(Apply(w, a), [b, c]) == ApplyAll(Apply(Apply(w, a), b), [c]);
  }

  // What the callback makes of it: timer y stands behind timer x again.
  lemma ClearingScript<T>(w: World<T>, x: T, y: T)
    requires Good(w) && x in w.list && y in w.list && x != y
    ensures Within([ClearAll, Op.Start(x), Op.Start(y)], w.timers.Keys)
    ensures var r := ApplyAll(w, [ClearAll, Op.Start(x), Op.Start(y)]);
            r.list == [x, y] && r.log == w.log && r.timers[y] == Stopped(Cleared(w.timers[y]), false)
  {
    hide GrewOrCleared, Distinct, ApplyAll;
    ThreeOps(w, ClearAll, Op.Start(x), Op.Start(y));
    var c := Apply(w, ClearAll);
    var c1 := Apply(c, Op.Start(x));
    assert c.list == [] && c.timers[y] == Cleared(w.timers[y]) && c.log == w.log;
    assert c1.list == [x] && c1.timers[y] == c.timers[y] && c1.log == w.log;
  }

  lemma ClearingTick(w: World<nat>, d: real)
    requires Good(w) && w.list == [1, 0] && w.timers.Keys == {0, 1} && w.timers[0] == DueCountdown(d)
    ensures BothWithin(Scripts([], CLEARING), w.timers.Keys)
    ensures var r := TickOne(w, 0, d, Scripts([], CLEARING));
            && r.list == [0, 1] && r.log == w.log + [Ticked(0), TimeUp(0)]
            && r.timers[1] == Stopped(Cleared(w.timers[1]), false)
  {
    assert w.list[0] == 1 && w.list[1] == 0;
    var v := Logged(Begun(w, 0, d), TimeUp(0));
    ClearingScript(v, 0, 1);
    hide ApplyAll, GrewOrCleared, Good;
    assert v.log == w.log + [Ticked(0), TimeUp(0)];
  }

  // The round in which timer 0 goes off.
  lemma ClearingRound(f: Frame<nat>, s: Walk<nat>)
    requires Ready(f, s) && f.callbacks == ClearingCallbacks && s.pos == 1
    requires s.world.list == [1, 0] && s.world.timers.Keys == {0, 1}
    requires s.world.timers[0] == DueCountdown(f.deltaTime)
    ensures !AtEnd(s) && var r := Ahead(f, s);
            && Ready(f, r) && Pass(f, s) == Pass(f, r)
            && r.world.list == [0, 1] && r.pos == 1
            && r.world.log == s.world.log + [Ticked(0), TimeUp(0)]
            && r.world.timers[1] == Stopped(Cleared(s.world.timers[1]), false)
  {
    ClearingTick(s.world, f.deltaTime);
    RoundIsReady(f, s);
    hide TickOne, GrewOrCleared, Tame;
    assert [0, 1][0] == 0 && [0, 1][1] == 1;
    assert Round(f, s) == Ahead(f, s);
  }

  lemma LastTick<T>(f: Frame<T>, s: Walk<T>)
    requires Ready(f, s) && |s.world.list| == 2 && s.pos == 1
    requires var t := s.world.list[1];
             && t in s.world.timers && s.world.timers[t].kind.Countdown? && !s.world.timers[t].isStop
             && s.world.timers[t].leftTime > f.deltaTime
    ensures Pass(f, s).log == s.world.log + [Ticked(s.world.list[1])]
  {
    var t := s.world.list[1];
    AheadIsReady(f, s);
    RoundIsReady(f, s);
    assert Ahead(f, s).world == Begun(s.world, t, f.deltaTime);
    hide TickOne, Begun, GrewOrCleared, Tame, Ready, Good;
    assert Round(f, s) == Ahead(f, s);
    assert AtEnd(Ahead(f, s));
  }

  lemma ClearingStarts(d: real)
    ensures Good(ClearingWorld(d)) && Tame(Frame(d, ClearingCallbacks), ClearingWorld(d).timers.Keys)
    ensures ClearingWorld(d).timers.Keys == {0, 1}
  {
  }

  lemma ClearTicksTwice(d: real)
    requires d > 0.0
    ensures Good(ClearingWorld(d)) && Tame(Frame(d, ClearingCallbacks), ClearingWorld(d).timers.Keys)
    ensures Update(Frame(d, ClearingCallbacks), ClearingWorld(d)).log == [Ticked(1)] + [Ticked(0), TimeUp(0)] + [Ticked(1)]
  {
    var f, w := Frame(d, ClearingCallbacks), ClearingWorld(d);
    ClearingStarts(d);
    hide Pass, Ready, Begun, Good, Tame, ClearingCallbacks, Ahead, GrewOrCleared;
    FirstRound(f, w, 1, 0);
    var s := Walk(Begun(w, 1, d), 1, {1}, {});
    ClearingRound(f, s);
    LastTick(f, Ahead(f, s));
  }
}
