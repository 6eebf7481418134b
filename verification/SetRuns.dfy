/** What the operations of a timer are for: the time given with Set, Restart, Add or Scale is
    the time by which the timer goes off in the Updates that follow. */
module SetRuns {
  import opened CountdownRuns
  import opened GameTime
  import opened GameTimeRuns
  import opened LapRuns
  import opened Timers

  lemma TwoOps<T>(w: World<T>, a: Op<T>, b: Op<T>)
    requires Good(w) && Within([a, b], w.timers.Keys)
    ensures (!a.ClearAll? ==> a.timer in w.timers) && (!b.ClearAll? ==> b.timer in w.timers)
    ensures ApplyAll(w, [a]) == Apply(w, a) && ApplyAll(w, [a, b]) == Apply(Apply(w, a), b)
  {
    assert a in [a, b] && b in [a, b];
    assert [a][1..] == [] && [a, b][1..] == [b] && [b][1..] == [];
    hide Apply, Good, GrewOrCleared;
    assert ApplyAll(Apply(w, a), [b]) == Apply(Apply(w, a), b);
  }

  ghost function ChangeAndStart<T>(t: T, c: Change): seq<Op<T>> {
    [Adjust(t, c), Op.Start(t)]
  }

  // A timer of the list in another state, which runs.
  lemma ChangedAndStarted<T>(w: World<T>, t: T, c: Change)
    requires Good(w) && t in w.timers
    ensures Within(ChangeAndStart(t, c), w.timers.Keys)
    ensures var r := ApplyAll(w, ChangeAndStart(t, c));
            && t in r.list && r.timers[t] == Change1(w.timers[t], c).(isStop := false)
            && r.log == w.log && r.timers.Keys == w.timers.Keys
  {
    hide GrewOrCleared, Change1, Distinct;
    TwoOps(w, Adjust(t, c), Op.Start(t));
    hide ApplyAll;
  }

  // A timer of the list changed while it is there.
  lemma ChangedInPlace<T>(w: World<T>, t: T, c: Change)
    requires Good(w) && t in w.timers
    ensures Within([Adjust(t, c)], w.timers.Keys)
    ensures var r := ApplyAll(w, [Adjust(t, c)]);
            && r.list == w.list && r.timers[t] == Change1(w.timers[t], c)
            && r.log == w.log && r.timers.Keys == w.timers.Keys
  {
    TwoOps(w, Adjust(t, c), Adjust(t, c));
    hide ApplyAll, GrewOrCleared, Change1;
  }

  // ---- Countdown timers.

  // A countdown started with this time before it goes off in the first Update by which the
  // time has passed, the very first one if there is none, and leaves the list after that.
  ghost predicate GoesOff<T>(w: World<T>, r: World<T>, turns: seq<Turn<T>>, t: T, time: real) {
    && t in r.timers
    && (turns == [] ==> !r.timers[t].isStop && t in r.list && Count(r.log, TimeUp(t)) == Count(w.log, TimeUp(t)))
    && (turns != [] ==>
          && (r.timers[t].isStop <==> CountdownRuns.Elapsed(turns) >= time)
          && Count(r.log, TimeUp(t)) == Count(w.log, TimeUp(t)) + (if CountdownRuns.Elapsed(turns) >= time then 1 else 0)
          && (t in r.list <==> |turns| == 1 || CountdownRuns.Elapsed(turns[..|turns| - 1]) < time))
  }

  lemma Counts<T>(w: World<T>, v: World<T>, turns: seq<Turn<T>>, t: T)
    requires Good(v) && Fits(turns, v.timers.Keys) && TurnsLeave(turns, v.timers.Keys, t) && v.log == w.log
    requires t in v.timers && t in v.list && v.timers[t].kind.Countdown? && !v.timers[t].isStop
    ensures GoesOff(w, Play(v, turns), turns, t, v.timers[t].leftTime)
  {
    TimesPassed(turns, v.timers.Keys);
    hide Play, Fits, TurnsLeave, Good, Count;
    if v.timers[t].leftTime > 0.0 {
      CountdownRun(v, turns, t);
    } else {
      OverdueRun(v, turns, t);
    }
    hide CountdownRuns.Elapsed;
  }

  lemma TimesPassed<T>(turns: seq<Turn<T>>, pool: set<T>)
    requires Fits(turns, pool)
    ensures CountdownRuns.Elapsed(turns) >= 0.0 && (turns == [] ==> CountdownRuns.Elapsed(turns) == 0.0)
    ensures turns != [] ==> CountdownRuns.Elapsed(turns[..|turns| - 1]) >= 0.0
    ensures |turns| == 1 ==> CountdownRuns.Elapsed(turns[..|turns| - 1]) == 0.0
  {
    ElapsedIsNonNegative(turns);
    if turns != [] {
      ElapsedIsNonNegative(turns[..|turns| - 1]);
    }
  }

  // After Set and Start a countdown goes off in the first Update by which the time of Set
  // has passed, whatever the timer was before.
  lemma SetCounts<T>(w: World<T>, turns: seq<Turn<T>>, t: T, time: real, laps: int)
    requires Good(w) && Fits(turns, w.timers.Keys) && TurnsLeave(turns, w.timers.Keys, t)
    requires t in w.timers && w.timers[t].kind.Countdown?
    ensures Within(ChangeAndStart(t, Set(time, laps)), w.timers.Keys)
    ensures GoesOff(w, Play(ApplyAll(w, ChangeAndStart(t, Set(time, laps))), turns), turns, t, time)
  {
    hide ApplyAll, Play, Fits, TurnsLeave, Good, GoesOff, ChangeAndStart, Within, Times, Scaled;
    ChangedAndStarted(w, t, Set(time, laps));
    Counts(w, ApplyAll(w, ChangeAndStart(t, Set(time, laps))), turns, t);
  }

  // Adding to the time of a running countdown puts its end off by exactly that much, or
  // brings it forward.
  lemma AddCounts<T>(w: World<T>, turns: seq<Turn<T>>, t: T, deltaTime: real, laps: int)
    requires Good(w) && Fits(turns, w.timers.Keys) && TurnsLeave(turns, w.timers.Keys, t)
    requires t in w.timers && t in w.list && w.timers[t].kind.Countdown?
    requires !w.timers[t].isStop
    ensures Within([Adjust(t, Add(deltaTime, laps))], w.timers.Keys)
    ensures GoesOff(w, Play(ApplyAll(w, [Adjust(t, Add(deltaTime, laps))]), turns), turns, t,
                    w.timers[t].leftTime + deltaTime)
  {
    hide ApplyAll, Play, Fits, TurnsLeave, Good, GoesOff, Within, Times, Scaled;
    ChangedInPlace(w, t, Add(deltaTime, laps));
    Counts(w, ApplyAll(w, [Adjust(t, Add(deltaTime, laps))]), turns, t);
  }

  // The documented factor for a ratio that is not negative; for another one, the time which
  // scaled by the documented factor is the old one.
  predicate ScaledBy(before: real, after: real, ratio: real) {
    if ratio >= 0.0 then after == before * (1.0 + ratio) else after * (1.0 - ratio) == before
  }

  lemma ScaledByRatio(time: real, ratio: real)
    ensures ScaledBy(time, Scaled(time, ratio), ratio)
  {
  }

  lemma ScaleCounts<T>(w: World<T>, turns: seq<Turn<T>>, t: T, ratio: real) returns (time: real)
    requires Good(w) && Fits(turns, w.timers.Keys) && TurnsLeave(turns, w.timers.Keys, t)
    requires t in w.timers && t in w.list && w.timers[t].kind.Countdown?
    requires !w.timers[t].isStop
    ensures ScaledBy(w.timers[t].leftTime, time, ratio)
    ensures Within([Adjust(t, Scale(ratio))], w.timers.Keys)
    ensures GoesOff(w, Play(ApplyAll(w, [Adjust(t, Scale(ratio))]), turns), turns, t, time)
  {
    hide ApplyAll, Play, Fits, TurnsLeave, Good, GoesOff, Scaled, ScaledBy;
    ChangedInPlace(w, t, Scale(ratio));
    time := Scaled(w.timers[t].leftTime, ratio);
    ScaledByRatio(w.timers[t].leftTime, ratio);
    Counts(w, ApplyAll(w, [Adjust(t, Scale(ratio))]), turns, t);
  }

  // ---- Restart: the time of the last Set, however long ago that was.

  ghost predicate NeverSets<T>(script: seq<Op<T>>, t: T) {
    forall op <- script :: op.Adjust? && op.timer == t ==> !op.change.Set?
  }

  ghost predicate TurnNeverSets<T>(turn: Turn<T>, pool: set<T>, t: T) {
    && NeverSets(turn.before, t)
    && forall u <- pool :: NeverSets(turn.frame.callbacks(u).onLap, t) && NeverSets(turn.frame.callbacks(u).onTimeUp, t)
  }

  ghost predicate Kept<T>(w: World<T>, r: World<T>, t: T) {
    && t in w.timers && t in r.timers && r.timers[t].kind == w.timers[t].kind
    && r.timers[t].interval == w.timers[t].interval && r.timers[t].totalLap == w.timers[t].totalLap
  }

  lemma OpKeeps<T>(w: World<T>, op: Op<T>, t: T)
    requires Good(w) && (!op.ClearAll? ==> op.timer in w.timers) && t in w.timers
    requires op.Adjust? && op.timer == t ==> !op.change.Set?
    ensures Kept(w, Apply(w, op), t)
  {
    hide GrewOrCleared, Times, Scaled, Good;
  }

  lemma {:induction false} ScriptKeeps<T>(w: World<T>, script: seq<Op<T>>, t: T)
    requires Good(w) && Within(script, w.timers.Keys) && NeverSets(script, t) && t in w.timers
    ensures Kept(w, ApplyAll(w, script), t)
    decreases |script|
  {
    if script != [] {
      assert script[0] in script;
      OpKeeps(w, script[0], t);
      hide GrewOrCleared, Apply, Good;
      ScriptKeeps(Apply(w, script[0]), script[1..], t);
    }
  }

  lemma CallKeeps<T>(w: World<T>, u: T, script: seq<Op<T>>, t: T)
    requires Good(w) && u in w.timers && Within(script, w.timers.Keys) && NeverSets(script, t) && t in w.timers
    ensures Kept(w, Called(w, u, script), t)
  {
    ScriptKeeps(w, script, t);
  }

  lemma EndKeeps<T>(w: World<T>, u: T, onTimeUp: seq<Op<T>>, t: T)
    requires Good(w) && u in w.timers && Within(onTimeUp, w.timers.Keys) && NeverSets(onTimeUp, t) && t in w.timers
    ensures Kept(w, EndOfLap(w, u, onTimeUp), t)
  {
    hide Called, NeverSets;
    StillArmed(w, u, CountLap(w.timers[u]));
    CallKeeps(Logged(WithTimer(w, u, CountLap(w.timers[u])), TimeUp(u)), u, onTimeUp, t);
  }

  lemma TickKeeps<T>(w: World<T>, u: T, deltaTime: real, scripts: Scripts<T>, t: T)
    requires Good(w) && u in w.timers && BothWithin(scripts, w.timers.Keys) && t in w.timers
    requires NeverSets(scripts.onLap, t) && NeverSets(scripts.onTimeUp, t)
    ensures Kept(w, TickOne(w, u, deltaTime, scripts), t)
  {
    hide Called, EndOfLap, NeverSets;
    var w1 := Begun(w, u, deltaTime);
    assert Kept(w, w1, t);
    CallKeeps(Logged(w1, TimeUp(u)), u, scripts.onTimeUp, t);
    CallKeeps(Logged(w1, LapUp(u)), u, scripts.onLap, t);
    EndKeeps(Called(Logged(w1, LapUp(u)), u, scripts.onLap), u, scripts.onTimeUp, t);
  }

  lemma {:induction false} PassKeeps<T>(f: Frame<T>, s: Walk<T>, t: T)
    requires Ready(f, s) && t in s.world.timers
    requires forall u <- s.world.timers.Keys :: NeverSets(f.callbacks(u).onLap, t) && NeverSets(f.callbacks(u).onTimeUp, t)
    ensures Kept(s.world, Pass(f, s), t)
    decreases Armed(s.world), s.world.timers.Keys - s.ticked, |s.world.list| - s.pos
  {
    if !AtEnd(s) {
      RoundGoesOn(f, s);
      RoundIsReady(f, s);
      var u := s.world.list[s.pos];
      if !s.world.timers[u].isStop {
        TickKeeps(s.world, u, f.deltaTime, f.callbacks(u), t);
      }
      hide Ready, TickOne, NeverSets, Pass;
      PassKeeps(f, Round(f, s), t);
    }
  }

  lemma {:induction false} PlayKeeps<T>(w: World<T>, turns: seq<Turn<T>>, t: T)
    requires Good(w) && Fits(turns, w.timers.Keys) && t in w.timers
    requires forall i | 0 <= i < |turns| :: TurnNeverSets(turns[i], w.timers.Keys, t)
    ensures Kept(w, Play(w, turns), t)
    decreases |turns|
  {
    if turns != [] {
      assert TurnNeverSets(turns[0], w.timers.Keys, t);
      TurnKeeps(w, turns[0], t);
      hide Good, Tame, Within, PlayOne, TurnNeverSets;
      PlayKeeps(PlayOne(w, turns[0]), turns[1..], t);
    }
  }

  lemma TurnKeeps<T>(w: World<T>, turn: Turn<T>, t: T)
    requires Good(w) && Within(turn.before, w.timers.Keys) && Tame(turn.frame, w.timers.Keys) && t in w.timers
    requires TurnNeverSets(turn, w.timers.Keys, t)
    ensures Kept(w, PlayOne(w, turn), t)
  {
    hide NeverSets, Pass, ApplyAll, Tame, Within;
    ScriptKeeps(w, turn.before, t);
    var v := Registered(ApplyAll(w, turn.before), turn.registers);
    PassKeeps(turn.frame, Walk(v, 0, {}, {}), t);
  }

  // Some of the game after a Set, in which the timer may be started, stopped, scaled, ticked
  // or reset by anyone, but is not set again.
  ghost function SetAndPlayed<T>(w: World<T>, t: T, time: real, laps: int, turns: seq<Turn<T>>): (r: World<T>)
    requires Good(w) && t in w.timers && Fits(turns, w.timers.Keys)
    ensures Good(r) && r.timers.Keys == w.timers.Keys
  {
    ChangedInPlace(w, t, Set(time, laps));
    Play(ApplyAll(w, [Adjust(t, Set(time, laps))]), turns)
  }

  lemma LastSet<T>(w: World<T>, t: T, time: real, laps: int, turns: seq<Turn<T>>)
    requires Good(w) && t in w.timers && Fits(turns, w.timers.Keys)
    requires forall i | 0 <= i < |turns| :: TurnNeverSets(turns[i], w.timers.Keys, t)
    ensures var s := SetAndPlayed(w, t, time, laps, turns).timers[t];
            && s.kind == w.timers[t].kind && s.interval == time && (s.kind.Lap? ==> s.totalLap == laps)
  {
    hide Play, ApplyAll, Fits, Good, TurnNeverSets, Within, Times, Scaled;
    ChangedInPlace(w, t, Set(time, laps));
    PlayKeeps(ApplyAll(w, [Adjust(t, Set(time, laps))]), turns, t);
  }

  // Restart, with Start, counts down the time of the last Set once more.
  lemma RestartCounts<T>(w: World<T>, t: T, time: real, laps: int, turns: seq<Turn<T>>, turns': seq<Turn<T>>)
    requires Good(w) && t in w.timers && w.timers[t].kind.Countdown?
    requires Fits(turns, w.timers.Keys) && forall i | 0 <= i < |turns| :: TurnNeverSets(turns[i], w.timers.Keys, t)
    requires Fits(turns', w.timers.Keys) && TurnsLeave(turns', w.timers.Keys, t)
    ensures var v := SetAndPlayed(w, t, time, laps, turns);
            && Within(ChangeAndStart(t, Restart), v.timers.Keys)
            && GoesOff(v, Play(ApplyAll(v, ChangeAndStart(t, Restart)), turns'), turns', t, time)
  {
    hide ApplyAll, Play, Fits, TurnsLeave, Good, GoesOff, ChangeAndStart, SetAndPlayed, TurnNeverSets, Within, Times, Scaled;
    LastSet(w, t, time, laps, turns);
    var v := SetAndPlayed(w, t, time, laps, turns);
    ChangedAndStarted(v, t, Restart);
    Counts(v, ApplyAll(v, ChangeAndStart(t, Restart)), turns', t);
  }

  // ---- Lap timers.

  // What a run of Updates makes of a lap timer at the start of its first lap, by the
  // interval and the laps it has: the laps that went off are the least, over the moments so
  // far, of the laps time had room for plus one for each Update since.
  ghost predicate LapsSounded<T>(w: World<T>, r: World<T>, turns: seq<Turn<T>>, t: T, interval: real, laps: int) {
    interval > 0.0 && exists least: int | IsLeastRoom(Deltas(turns), interval, least) ::
      && Count(r.log, LapUp(t)) == Count(w.log, LapUp(t)) + (if least >= laps then laps else least)
      && Count(r.log, TimeUp(t)) == Count(w.log, TimeUp(t)) + (if least >= laps then 1 else 0)
      && t in r.timers && (r.timers[t].isStop <==> least >= laps)
  }

  lemma Sounds<T>(w: World<T>, v: World<T>, turns: seq<Turn<T>>, t: T)
    requires Good(v) && Fits(turns, v.timers.Keys) && TurnsLeave(turns, v.timers.Keys, t) && v.log == w.log
    requires t in v.timers && t in v.list && v.timers[t].kind.Lap? && !v.timers[t].isStop && v.timers[t].leftLap >= 1
    requires v.timers[t].scaledInterval > 0.0 && v.timers[t].lapLeftTime == v.timers[t].scaledInterval
    ensures LapsSounded(w, Play(v, turns), turns, t, v.timers[t].scaledInterval, v.timers[t].leftLap)
  {
    hide Play, Fits, TurnsLeave, Good, Count, Deltas, IsLeastRoom;
    var least := LapsInTime(v, turns, t);
  }

  lemma SetSounds<T>(w: World<T>, turns: seq<Turn<T>>, t: T, time: real, laps: int)
    requires Good(w) && Fits(turns, w.timers.Keys) && TurnsLeave(turns, w.timers.Keys, t)
    requires t in w.timers && w.timers[t].kind.Lap? && time > 0.0 && laps >= 1
    ensures Within(ChangeAndStart(t, Set(time, laps)), w.timers.Keys)
    ensures LapsSounded(w, Play(ApplyAll(w, ChangeAndStart(t, Set(time, laps))), turns), turns, t, time, laps)
  {
    hide ApplyAll, Play, Fits, TurnsLeave, Good, LapsSounded, ChangeAndStart, Times, Within, Scaled;
    ChangedAndStarted(w, t, Set(time, laps));
    Sounds(w, ApplyAll(w, ChangeAndStart(t, Set(time, laps))), turns, t);
  }

  lemma RestartSounds<T>(w: World<T>, t: T, time: real, laps: int, turns: seq<Turn<T>>, turns': seq<Turn<T>>)
    requires Good(w) && t in w.timers && w.timers[t].kind.Lap? && time > 0.0 && laps >= 1
    requires Fits(turns, w.timers.Keys) && forall i | 0 <= i < |turns| :: TurnNeverSets(turns[i], w.timers.Keys, t)
    requires Fits(turns', w.timers.Keys) && TurnsLeave(turns', w.timers.Keys, t)
    ensures var v := SetAndPlayed(w, t, time, laps, turns);
            && Within(ChangeAndStart(t, Restart), v.timers.Keys)
            && LapsSounded(v, Play(ApplyAll(v, ChangeAndStart(t, Restart)), turns'), turns', t, time, laps)
  {
    hide ApplyAll, Play, Fits, TurnsLeave, Good, LapsSounded, ChangeAndStart, Times, SetAndPlayed, TurnNeverSets, Within, Scaled;
    LastSet(w, t, time, laps, turns);
    var v := SetAndPlayed(w, t, time, laps, turns);
    ChangedAndStarted(v, t, Restart);
    Sounds(v, ApplyAll(v, ChangeAndStart(t, Restart)), turns', t);
  }

  // Which ticks of a lap timer are due depends on its lap alone.
  lemma {:induction false} SameLapSameTicks(s: TimerState, s': TimerState, deltas: seq<real>)
    requires s.kind.Lap? && s'.kind.Lap?
    requires s'.lapLeftTime == s.lapLeftTime && s'.scaledInterval == s.scaledInterval
    ensures Fired(s', deltas) == Fired(s, deltas)
  {
    if deltas != [] {
      var before := deltas[..|deltas| - 1];
      SameLapSameTicks(s, s', before);
      StateAfterTicks(s, before);
      StateAfterTicks(s', before);
      hide Times, Ticks;
    }
  }

  // What a run of Updates makes of a running lap timer in the middle of a lap, when `fired`
  // laps were due and it had so many left.
  ghost predicate LapsGone<T>(w: World<T>, r: World<T>, t: T, fired: nat, laps: int) {
    && t in r.timers && (r.timers[t].isStop <==> fired >= laps)
    && Count(r.log, LapUp(t)) == Count(w.log, LapUp(t)) + (if fired >= laps then laps else fired)
    && Count(r.log, TimeUp(t)) == Count(w.log, TimeUp(t)) + (if fired >= laps then 1 else 0)
  }

  lemma Goes<T>(w: World<T>, v: World<T>, turns: seq<Turn<T>>, t: T)
    requires Good(v) && Fits(turns, v.timers.Keys) && TurnsLeave(turns, v.timers.Keys, t) && v.log == w.log
    requires t in v.timers && t in v.list && v.timers[t].kind.Lap? && !v.timers[t].isStop && v.timers[t].leftLap >= 1
    ensures LapsGone(w, Play(v, turns), t, Fired(v.timers[t], Deltas(turns)), v.timers[t].leftLap)
  {
    hide Play, Fits, TurnsLeave, Good, Count, Deltas, Fired;
    LapTimerRun(v, turns, t);
  }

  // Adding laps to a running timer: it sounds the same laps at the same moments, and so many
  // more of them.
  lemma AddGoes<T>(w: World<T>, turns: seq<Turn<T>>, t: T, deltaTime: real, more: int)
    requires Good(w) && Fits(turns, w.timers.Keys) && TurnsLeave(turns, w.timers.Keys, t)
    requires t in w.timers && t in w.list && w.timers[t].kind.Lap? && !w.timers[t].isStop
    requires w.timers[t].leftLap + more >= 1
    ensures Within([Adjust(t, Add(deltaTime, more))], w.timers.Keys)
    ensures LapsGone(w, Play(ApplyAll(w, [Adjust(t, Add(deltaTime, more))]), turns), t,
                     Fired(w.timers[t], Deltas(turns)), w.timers[t].leftLap + more)
  {
    hide ApplyAll, Play, Fits, TurnsLeave, Good, LapsGone, Times, Fired, Deltas;
    var script := [Adjust(t, Add(deltaTime, more))];
    ChangedInPlace(w, t, Add(deltaTime, more));
    var v := ApplyAll(w, script);
    SameLapSameTicks(w.timers[t], v.timers[t], Deltas(turns));
    Goes(w, v, turns, t);
  }

  function Longer(time: real, factor: real): real {
    time * factor
  }

  function Stretched(deltas: seq<real>, factor: real): (r: seq<real>)
    ensures |r| == |deltas| && forall i | 0 <= i < |r| :: r[i] == Longer(deltas[i], factor)
  {
    seq(|deltas|, i requires 0 <= i < |deltas| => Longer(deltas[i], factor))
  }

  lemma StretchedPrefix(deltas: seq<real>, factor: real)
    requires deltas != []
    ensures var r := Stretched(deltas, factor);
            && r[..|r| - 1] == Stretched(deltas[..|deltas| - 1], factor)
            && r[|r| - 1] == Longer(deltas[|deltas| - 1], factor)
  {
    hide Longer;
  }

  lemma LongerSum(x: real, y: real, factor: real)
    ensures Longer(x, factor) + Longer(y, factor) == Longer(x + y, factor)
  {
  }

  lemma {:induction false} StretchedSum(deltas: seq<real>, factor: real)
    ensures Sum(Stretched(deltas, factor)) == Longer(Sum(deltas), factor)
  {
    if deltas != [] {
      var before := deltas[..|deltas| - 1];
      StretchedPrefix(deltas, factor);
      StretchedSum(before, factor);
      LongerSum(Sum(before), deltas[|deltas| - 1], factor);
      hide Longer, Stretched;
    }
  }

  lemma LongerTimes(interval: real, n: int, factor: real)
    ensures Times(Longer(interval, factor), n) == Longer(Times(interval, n), factor)
  {
  }

  lemma LongerLeft(lap: real, laps: real, sum: real, delta: real, factor: real)
    requires factor > 0.0
    ensures Longer(lap, factor) + Longer(laps, factor) - Longer(sum, factor) - Longer(delta, factor) <= 0.0 <==>
            lap + laps - sum - delta <= 0.0
  {
    var left := lap + laps - sum - delta;
    assert Longer(lap, factor) + Longer(laps, factor) - Longer(sum, factor) - Longer(delta, factor) == left * factor;
    assert left <= 0.0 <==> left * factor <= 0.0;
  }

  // A timer whose interval and lap are scaled sounds the laps that it would have sounded had
  // the frames been scaled the other way: stretch both, and nothing changes.
  lemma {:induction false} ScaledTogether(s: TimerState, s': TimerState, deltas: seq<real>, factor: real)
    requires s.kind.Lap? && s'.kind.Lap? && factor > 0.0
    requires s'.lapLeftTime == Longer(s.lapLeftTime, factor) && s'.scaledInterval == Longer(s.scaledInterval, factor)
    ensures Fired(s', Stretched(deltas, factor)) == Fired(s, deltas)
  {
    hide Ticks, Stretched, Due, Longer;
    if deltas != [] {
      var before, d := deltas[..|deltas| - 1], deltas[|deltas| - 1];
      StretchedPrefix(deltas, factor);
      ScaledTogether(s, s', before, factor);
      DueTogether(s, s', before, d, factor);
    } else {
      assert Stretched(deltas, factor) == [];
    }
  }

  lemma DueTogether(s: TimerState, s': TimerState, before: seq<real>, d: real, factor: real)
    requires s.kind.Lap? && s'.kind.Lap? && factor > 0.0
    requires s'.lapLeftTime == Longer(s.lapLeftTime, factor) && s'.scaledInterval == Longer(s.scaledInterval, factor)
    requires Fired(s', Stretched(before, factor)) == Fired(s, before)
    ensures Due(Ticks(s', Stretched(before, factor)), Longer(d, factor)) <==> Due(Ticks(s, before), d)
  {
    hide Times, Ticks, Stretched, Sum, Fired, Longer;
    StateAfterTicks(s, before);
    StateAfterTicks(s', Stretched(before, factor));
    StretchedSum(before, factor);
    var n := Fired(s, before);
    LongerTimes(s.scaledInterval, n, factor);
    LongerLeft(s.lapLeftTime, Times(s.scaledInterval, n), Sum(before), d, factor);
  }

  // Scaling a running lap timer in the middle of a lap: with frames longer by the same
  // factor it sounds the same laps in the same Updates.
  lemma ScaleGoes<T>(w: World<T>, turns: seq<Turn<T>>, t: T, ratio: real, deltas: seq<real>)
    requires Good(w) && Fits(turns, w.timers.Keys) && TurnsLeave(turns, w.timers.Keys, t)
    requires t in w.timers && t in w.list && w.timers[t].kind.Lap? && !w.timers[t].isStop
    requires w.timers[t].leftLap >= 1
    requires Deltas(turns) == Stretched(deltas, if ratio >= 0.0 then 1.0 + ratio else 1.0 / (1.0 - ratio))
    ensures Within([Adjust(t, Scale(ratio))], w.timers.Keys)
    ensures LapsGone(w, Play(ApplyAll(w, [Adjust(t, Scale(ratio))]), turns), t,
                     Fired(w.timers[t], deltas), w.timers[t].leftLap)
  {
    hide ApplyAll, Play, Fits, TurnsLeave, Good, LapsGone, Times, Fired, Deltas, Scaled, Stretched, Longer, Within;
    var script, factor := [Adjust(t, Scale(ratio))], if ratio >= 0.0 then 1.0 + ratio else 1.0 / (1.0 - ratio);
    ChangedInPlace(w, t, Scale(ratio));
    var v := ApplyAll(w, script);
    ScaledByFactor(w.timers[t].lapLeftTime, ratio);
    ScaledByFactor(w.timers[t].scaledInterval, ratio);
    ScaledTogether(w.timers[t], v.timers[t], deltas, factor);
    Goes(w, v, turns, t);
  }

  lemma ScaledByFactor(time: real, ratio: real)
    ensures var factor := if ratio >= 0.0 then 1.0 + ratio else 1.0 / (1.0 - ratio);
            factor > 0.0 && Scaled(time, ratio) == Longer(time, factor)
  {
    if ratio < 0.0 {
      var d := 1.0 - ratio;
      assert time / d == time * (1.0 / d);
    }
  }

  // ---- Stop and Reset.

  // A timer that was stopped, or reset, is never ticked again until it is started, and is
  // out of the list from the next Update on.
  lemma StopHolds<T>(w: World<T>, turns: seq<Turn<T>>, t: T, op: Op<T>)
    requires Good(w) && Fits(turns, w.timers.Keys) && TurnsLeave(turns, w.timers.Keys, t)
    requires t in w.timers && (op == Op.Stop(t) || op == Adjust(t, Reset))
    ensures Within([op], w.timers.Keys)
    ensures var r := Play(ApplyAll(w, [op]), turns);
            && t in r.timers && r.timers[t].isStop && r.timers[t].leftTime == w.timers[t].leftTime
            && (op.Adjust? ==> !r.timers[t].registered)
            && Count(r.log, Ticked(t)) == Count(w.log, Ticked(t))
            && (t in r.list <==> t in w.list && turns == [])
  {
    hide ApplyAll, Play, Fits, TurnsLeave, Good, Count, GrewOrCleared, Untouched;
    StoppedBy(w, t, op);
    var v := ApplyAll(w, [op]);
    StoppedRun(v, turns, t);
    SameTicks(w, v, Play(v, turns), t);
  }

  lemma StoppedBy<T>(w: World<T>, t: T, op: Op<T>)
    requires Good(w) && t in w.timers && (op == Op.Stop(t) || op == Adjust(t, Reset))
    ensures Within([op], w.timers.Keys)
    ensures var r := ApplyAll(w, [op]);
            && r.list == w.list && r.log == w.log && r.timers.Keys == w.timers.Keys
            && r.timers[t].isStop && r.timers[t].leftTime == w.timers[t].leftTime
            && (op.Adjust? ==> !r.timers[t].registered)
  {
    hide GrewOrCleared, Times, Scaled, Good;
    TwoOps(w, op, op);
    hide ApplyAll;
  }

  lemma SameTicks<T>(w: World<T>, v: World<T>, r: World<T>, t: T)
    requires Untouched(v, r, t) && v.log == w.log
    ensures t in v.timers && t in r.timers && r.timers[t] == v.timers[t] && Count(r.log, Ticked(t)) == Count(w.log, Ticked(t))
  {
  }

  // ClearAll stops every timer of the list and takes its callbacks, and no other's.
  lemma ClearStops<T>(w: World<T>, t: T)
    requires Good(w) && t in w.timers
    ensures var none: seq<Op<T>> := [ClearAll];
            && Within(none, w.timers.Keys)
            && var r := ApplyAll(w, none);
               && r.list == [] && t in r.timers
               && (t in w.list ==> r.timers[t].isStop && !r.timers[t].registered)
               && (t !in w.list ==> r.timers[t] == w.timers[t])
  {
    var clear: Op<T> := ClearAll;
    TwoOps(w, clear, clear);
    hide ApplyAll, GrewOrCleared;
  }
}
