/** Countdown timers over whole runs of the game: every turn is some code of the game, then
    an Update. */
module CountdownRuns {
  import opened GameTime
  import opened GameTimeRuns
  import opened Timers

  const NANOSECONDS: real := 1000000000.0
  const MIN_TICKS: nat := 16000000
  const MIN_DELTA: real := 0.016

  // The delta that LateUpdate sets from the measured length of the frame.
  function DeltaAfter(ticks: nat): (delta: real)
    ensures ticks < 16000000 ==> delta == 0.016
    ensures ticks >= 16000000 ==> 0.016 <= delta && delta * 1000000000.0 == ticks as real
  {
    if ticks < MIN_TICKS then MIN_TICKS as real / NANOSECONDS else ticks as real / NANOSECONDS
  }

  // One turn: some operations of the game, callbacks given to some timers, and an Update.
  // Callbacks given and lost again before the Update need no mention.
  datatype Turn<!T> = Turn(before: seq<Op<T>>, registers: set<T>, frame: Frame<T>)

  ghost predicate Fits<T>(turns: seq<Turn<T>>, pool: set<T>) {
    forall i | 0 <= i < |turns| ::
      Within(turns[i].before, pool) && Tame(turns[i].frame, pool) && turns[i].frame.deltaTime >= 0.0
  }

  // The callbacks of the pool, and the game itself, leave t alone.
  ghost predicate TurnLeaves<T>(turn: Turn<T>, pool: set<T>, t: T) {
    Leaves(turn.before, t) && t !in turn.registers && CallbacksLeave(turn.frame, pool, t)
  }

  ghost predicate TurnsLeave<T>(turns: seq<Turn<T>>, pool: set<T>, t: T) {
    forall i | 0 <= i < |turns| :: TurnLeaves(turns[i], pool, t)
  }

  ghost function Registered<T>(w: World<T>, timers: set<T>): (r: World<T>)
    requires Good(w)
    ensures Good(r) && r.timers.Keys == w.timers.Keys && r.list == w.list && r.log == w.log
  {
    w.(timers := map t | t in w.timers :: if t in timers then w.timers[t].(registered := true) else w.timers[t])
  }

  ghost function PlayOne<T>(w: World<T>, turn: Turn<T>): (r: World<T>)
    requires Good(w) && Within(turn.before, w.timers.Keys) && Tame(turn.frame, w.timers.Keys)
    ensures Good(r) && r.timers.Keys == w.timers.Keys
  {
    Update(turn.frame, Registered(ApplyAll(w, turn.before), turn.registers))
  }

  ghost function Play<T>(w: World<T>, turns: seq<Turn<T>>): (r: World<T>)
    requires Good(w) && Fits(turns, w.timers.Keys)
    ensures Good(r) && r.timers.Keys == w.timers.Keys
    decreases |turns|
  {
    if turns == [] then w else Play(PlayOne(w, turns[0]), turns[1..])
  }

  ghost function Elapsed<T>(turns: seq<Turn<T>>): real {
    if turns == [] then 0.0 else turns[0].frame.deltaTime + Elapsed(turns[1..])
  }

  lemma TurnReaches<T>(w: World<T>, turn: Turn<T>, t: T)
    requires Good(w) && Within(turn.before, w.timers.Keys) && Tame(turn.frame, w.timers.Keys)
    requires TurnLeaves(turn, w.timers.Keys, t) && t in w.timers
    ensures t in w.list ==> Reached(w, PlayOne(w, turn), t, turn.frame.deltaTime)
    ensures t !in w.list ==> Untouched(w, PlayOne(w, turn), t) && t !in PlayOne(w, turn).list
  {
    ScriptLeaves(w, turn.before, t);
    var v := ApplyAll(w, turn.before);
    var w' := Registered(v, turn.registers);
    Chain(w, v, w', t, turn.frame.deltaTime);
    var s := Walk(w', 0, {}, {});
    assert w'.list[0..] == w'.list;
    LeftByAll(turn.frame, s, w.timers.Keys, t);
    if t in w.list {
      PassReaches(turn.frame, s, t);
    } else {
      PassSkips(turn.frame, s, t);
    }
    Chain(w, w', Pass(turn.frame, s), t, turn.frame.deltaTime);
  }

  lemma FitsFirst<T>(turns: seq<Turn<T>>, pool: set<T>, t: T)
    requires turns != [] && Fits(turns, pool) && TurnsLeave(turns, pool, t)
    ensures Within(turns[0].before, pool) && Tame(turns[0].frame, pool) && turns[0].frame.deltaTime >= 0.0
    ensures TurnLeaves(turns[0], pool, t)
    ensures Fits(turns[1..], pool) && TurnsLeave(turns[1..], pool, t)
  {
  }

  lemma {:induction false} StoppedRun<T>(w: World<T>, turns: seq<Turn<T>>, t: T)
    requires Good(w) && Fits(turns, w.timers.Keys) && TurnsLeave(turns, w.timers.Keys, t)
    requires t in w.timers && w.timers[t].isStop
    ensures Untouched(w, Play(w, turns), t)
    ensures t in Play(w, turns).list <==> t in w.list && turns == []
    decreases |turns|
  {
    if turns != [] {
      FitsFirst(turns, w.timers.Keys, t);
      StoppedTurn(w, turns[0], t);
      hide Good, Fits, TurnsLeave, TurnLeaves, Untouched, PlayOne, Tame, Within;
      var w' := PlayOne(w, turns[0]);
      Chain(w, w', Play(w, turns), t, 0.0);
      StoppedRun(w', turns[1..], t);
    }
  }

  lemma StoppedTurn<T>(w: World<T>, turn: Turn<T>, t: T)
    requires Good(w) && Within(turn.before, w.timers.Keys) && Tame(turn.frame, w.timers.Keys)
    requires TurnLeaves(turn, w.timers.Keys, t)
    requires t in w.timers && w.timers[t].isStop
    ensures Untouched(w, PlayOne(w, turn), t) && t !in PlayOne(w, turn).list
  {
    TurnReaches(w, turn, t);
    hide PlayOne, Untouched;
  }

  lemma {:induction false} ElapsedIsNonNegative<T>(turns: seq<Turn<T>>)
    requires forall i | 0 <= i < |turns| :: turns[i].frame.deltaTime >= 0.0
    ensures Elapsed(turns) >= 0.0
    decreases |turns|
  {
    if turns != [] {
      ElapsedIsNonNegative(turns[1..]);
    }
  }

  // All but the last turn, seen from the front.
  lemma ElapsedButLast<T>(turns: seq<Turn<T>>)
    requires turns != [] && forall i | 0 <= i < |turns| :: turns[i].frame.deltaTime >= 0.0
    ensures Elapsed(turns[1..]) >= 0.0
    ensures |turns| == 1 ==> Elapsed(turns[..|turns| - 1]) == 0.0
    ensures |turns| > 1 ==>
              && Elapsed(turns[..|turns| - 1]) == turns[0].frame.deltaTime + Elapsed(turns[1..][..|turns| - 2])
              && Elapsed(turns[1..][..|turns| - 2]) >= 0.0
  {
    ElapsedIsNonNegative(turns[1..]);
    if |turns| > 1 {
      assert turns[..|turns| - 1][1..] == turns[1..][..|turns| - 2];
      ElapsedIsNonNegative(turns[1..][..|turns| - 2]);
    }
  }

  // What a countdown with `time` left has come to when the turns have been played.
  ghost predicate CountedDown<T>(w: World<T>, r: World<T>, turns: seq<Turn<T>>, t: T, time: real) {
    && t in r.timers
    && (Elapsed(turns) < time ==> r.timers[t].leftTime == time - Elapsed(turns))
    && (r.timers[t].isStop <==> Elapsed(turns) >= time)
    && Count(r.log, TimeUp(t)) == Count(w.log, TimeUp(t)) + (if Elapsed(turns) >= time then 1 else 0)
    && (t in r.list <==> turns == [] || Elapsed(turns[..|turns| - 1]) < time)
  }

  lemma CountdownTurn<T>(w: World<T>, turn: Turn<T>, t: T)
    requires Good(w) && Within(turn.before, w.timers.Keys) && Tame(turn.frame, w.timers.Keys)
    requires TurnLeaves(turn, w.timers.Keys, t)
    requires t in w.timers && t in w.list && w.timers[t].kind.Countdown? && !w.timers[t].isStop
    ensures var r, left := PlayOne(w, turn), w.timers[t].leftTime - turn.frame.deltaTime;
            && t in r.list && r.timers[t].kind.Countdown? && r.timers[t].leftTime == left
            && (r.timers[t].isStop <==> left <= 0.0)
            && Count(r.log, TimeUp(t)) == Count(w.log, TimeUp(t)) + if left <= 0.0 then 1 else 0
  {
    TurnReaches(w, turn, t);
    hide PlayOne, Count;
  }

  // What the first of some turns leaves of a countdown with `time` left.
  ghost predicate OneTurnLater<T>(w: World<T>, v: World<T>, turns: seq<Turn<T>>, t: T, time: real)
    requires turns != []
  {
    var left := time - turns[0].frame.deltaTime;
    && t in v.timers && v.timers[t].leftTime == left && (v.timers[t].isStop <==> left <= 0.0)
    && Count(v.log, TimeUp(t)) == Count(w.log, TimeUp(t)) + if left <= 0.0 then 1 else 0
  }

  lemma EndsThere<T>(w: World<T>, v: World<T>, r: World<T>, turns: seq<Turn<T>>, t: T, time: real)
    requires turns != [] && forall i | 0 <= i < |turns| :: turns[i].frame.deltaTime >= 0.0
    requires time > 0.0 && OneTurnLater(w, v, turns, t, time) && v.timers[t].isStop
    requires Untouched(v, r, t) && (t in r.list <==> turns[1..] == [])
    ensures CountedDown(w, r, turns, t, time)
  {
    ElapsedButLast(turns);
    hide Count;
  }

  lemma GoesOn<T>(w: World<T>, v: World<T>, r: World<T>, turns: seq<Turn<T>>, t: T, time: real)
    requires turns != [] && forall i | 0 <= i < |turns| :: turns[i].frame.deltaTime >= 0.0
    requires time > 0.0 && OneTurnLater(w, v, turns, t, time) && !v.timers[t].isStop
    requires CountedDown(v, r, turns[1..], t, v.timers[t].leftTime)
    ensures CountedDown(w, r, turns, t, time)
  {
    ElapsedButLast(turns);
    hide Count;
  }

  // A started countdown goes off in the first Update by which its time has passed, once,
  // and is out of the list from the next Update on, never to go off again.
  lemma {:induction false} CountdownRun<T>(w: World<T>, turns: seq<Turn<T>>, t: T)
    requires Good(w) && Fits(turns, w.timers.Keys) && TurnsLeave(turns, w.timers.Keys, t)
    requires t in w.timers && t in w.list && w.timers[t].kind.Countdown?
    requires !w.timers[t].isStop && w.timers[t].leftTime > 0.0
    ensures CountedDown(w, Play(w, turns), turns, t, w.timers[t].leftTime)
    decreases |turns|
  {
    if turns != [] {
      FitsFirst(turns, w.timers.Keys, t);
      CountdownTurn(w, turns[0], t);
      var v, time := PlayOne(w, turns[0]), w.timers[t].leftTime;
      assert OneTurnLater(w, v, turns, t, time);
      assert Play(w, turns) == Play(v, turns[1..]);
      assert forall i | 0 <= i < |turns| :: turns[i].frame.deltaTime >= 0.0;
      hide Good, Fits, TurnsLeave, TurnLeaves, PlayOne, Play, Tame, Within, Untouched, CountedDown, OneTurnLater;
      if v.timers[t].isStop {
        StoppedRun(v, turns[1..], t);
        EndsThere(w, v, Play(w, turns), turns, t, time);
      } else {
        Undone(w, v, turns, t, time);
        CountdownRun(v, turns[1..], t);
        GoesOn(w, v, Play(w, turns), turns, t, time);
      }
    } else {
      hide Count;
    }
  }

  lemma Undone<T>(w: World<T>, v: World<T>, turns: seq<Turn<T>>, t: T, time: real)
    requires turns != [] && OneTurnLater(w, v, turns, t, time) && !v.timers[t].isStop
    ensures v.timers[t].leftTime > 0.0
  {
  }

  // A running countdown with no time left goes off in the next Update.
  lemma OverdueRun<T>(w: World<T>, turns: seq<Turn<T>>, t: T)
    requires Good(w) && Fits(turns, w.timers.Keys) && TurnsLeave(turns, w.timers.Keys, t)
    requires t in w.timers && t in w.list && w.timers[t].kind.Countdown?
    requires !w.timers[t].isStop && w.timers[t].leftTime <= 0.0
    ensures var r := Play(w, turns);
            && t in r.timers && (t in r.list <==> |turns| <= 1)
            && (r.timers[t].isStop <==> turns != [])
            && Count(r.log, TimeUp(t)) == Count(w.log, TimeUp(t)) + if turns == [] then 0 else 1
  {
    if turns != [] {
      FitsFirst(turns, w.timers.Keys, t);
      CountdownTurn(w, turns[0], t);
      hide Good, Fits, TurnsLeave, TurnLeaves, PlayOne, Tame, Within, Count;
      StoppedRun(PlayOne(w, turns[0]), turns[1..], t);
    }
  }

  lemma {:induction false} ElapsedAtLeast<T>(turns: seq<Turn<T>>, least: real)
    requires forall i | 0 <= i < |turns| :: turns[i].frame.deltaTime >= least
    ensures Elapsed(turns) >= Times(least, |turns|)
    decreases |turns|
  {
    hide Times;
    Distribute(least, 0, 0);
    if turns != [] {
      ElapsedAtLeast(turns[1..], least);
      Distribute(least, |turns| - 1, 1);
    }
  }

  lemma LongEnough<T>(turns: seq<Turn<T>>, ticks: seq<nat>)
    requires |turns| == |ticks| + 1 && turns[0].frame.deltaTime >= 0.0
    requires forall i | 0 <= i < |ticks| :: turns[i + 1].frame.deltaTime == DeltaAfter(ticks[i])
    ensures Elapsed(turns) >= Times(MIN_DELTA, |ticks|)
  {
    forall i | 0 <= i < |turns[1..]| ensures turns[1..][i].frame.deltaTime >= MIN_DELTA {
      assert turns[1..][i] == turns[i + 1];
      assert turns[i + 1].frame.deltaTime == DeltaAfter(ticks[i]);
    }
    hide Times;
    ElapsedAtLeast(turns[1..], MIN_DELTA);
  }

  // Once LateUpdate has set the delta of each turn but the first, a countdown has gone off
  // after as many further turns as 16 ms intervals fill its time.
  lemma CountdownIsBounded<T>(w: World<T>, turns: seq<Turn<T>>, t: T, ticks: seq<nat>)
    requires Good(w) && Fits(turns, w.timers.Keys) && TurnsLeave(turns, w.timers.Keys, t)
    requires t in w.timers && t in w.list && w.timers[t].kind.Countdown?
    requires !w.timers[t].isStop && w.timers[t].leftTime > 0.0
    requires |turns| == |ticks| + 1
    requires forall i | 0 <= i < |ticks| :: turns[i + 1].frame.deltaTime == DeltaAfter(ticks[i])
    requires Times(MIN_DELTA, |ticks|) >= w.timers[t].leftTime
    ensures var r := Play(w, turns);
            && t in r.timers && r.timers[t].isStop
            && Count(r.log, TimeUp(t)) == Count(w.log, TimeUp(t)) + 1
  {
    assert turns[0].frame.deltaTime >= 0.0;
    hide Good, Fits, TurnsLeave, Count, Play, Times, Elapsed;
    LongEnough(turns, ticks);
    CountdownRun(w, turns, t);
  }
}
