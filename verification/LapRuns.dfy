/** Lap timers over whole runs of the game: the laps that Updates sound are those of the
    closed form. */
module LapRuns {
  import opened CountdownRuns
  import opened GameTime
  import opened GameTimeRuns
  import opened Timers

  ghost function Deltas<T>(turns: seq<Turn<T>>): (deltas: seq<real>)
    ensures |deltas| == |turns|
  {
    seq(|turns|, i requires 0 <= i < |turns| => turns[i].frame.deltaTime)
  }

  lemma {:induction false} PlayLast<T>(w: World<T>, turns: seq<Turn<T>>)
    requires turns != [] && Good(w) && Fits(turns, w.timers.Keys)
    ensures var before, turn := turns[..|turns| - 1], turns[|turns| - 1];
            && Fits(before, w.timers.Keys)
            && Within(turn.before, w.timers.Keys) && Tame(turn.frame, w.timers.Keys) && turn.frame.deltaTime >= 0.0
            && Play(w, turns) == PlayOne(Play(w, before), turn)
    decreases |turns|
  {
    hide PlayOne, Good, Within, Tame;
    if |turns| > 1 {
      FitsParts(turns, w.timers.Keys);
      PlayLast(PlayOne(w, turns[0]), turns[1..]);
      assert turns[1..][..|turns| - 2] == turns[..|turns| - 1][1..];
      assert turns[..|turns| - 1][0] == turns[0];
    } else {
      assert turns[1..] == [] && turns[..0] == [];
    }
  }

  lemma FitsParts<T>(turns: seq<Turn<T>>, pool: set<T>)
    requires turns != [] && Fits(turns, pool)
    ensures Fits(turns[..|turns| - 1], pool) && Fits(turns[1..], pool)
    ensures Within(turns[0].before, pool) && Tame(turns[0].frame, pool)
  {
  }

  // What the turns have made of a lap timer while it runs.
  ghost predicate Lapped<T>(w: World<T>, r: World<T>, turns: seq<Turn<T>>, t: T)
    requires t in w.timers
  {
    var s, fired := w.timers[t], Fired(w.timers[t], Deltas(turns));
    && t in r.timers && t in r.list && r.timers[t] == Ticks(s, Deltas(turns))
    && r.timers[t].kind.Lap? && (r.timers[t].isStop <==> fired >= s.leftLap)
    && r.timers[t].leftLap == s.leftLap - fired
    && Count(r.log, LapUp(t)) == Count(w.log, LapUp(t)) + fired
    && Count(r.log, TimeUp(t)) == Count(w.log, TimeUp(t)) + if fired >= s.leftLap then 1 else 0
  }

  // One more turn for a lap timer that still runs.
  lemma LapTurn<T>(w: World<T>, turn: Turn<T>, t: T)
    requires Good(w) && Within(turn.before, w.timers.Keys) && Tame(turn.frame, w.timers.Keys)
    requires TurnLeaves(turn, w.timers.Keys, t)
    requires t in w.timers && t in w.list && w.timers[t].kind.Lap? && !w.timers[t].isStop
    ensures var r := PlayOne(w, turn);
            t in r.list && TickedOnce(w, r, t, turn.frame.deltaTime)
  {
    TurnReaches(w, turn, t);
    hide PlayOne, TickedOnce;
  }

  lemma DeltasOfPrefix<T>(turns: seq<Turn<T>>)
    requires turns != []
    ensures Deltas(turns)[..|turns| - 1] == Deltas(turns[..|turns| - 1])
    ensures Deltas(turns)[|turns| - 1] == turns[|turns| - 1].frame.deltaTime
  {
  }

  lemma LappedOnce<T>(w: World<T>, v: World<T>, r: World<T>, turns: seq<Turn<T>>, t: T)
    requires turns != [] && t in w.timers && w.timers[t].kind.Lap?
    requires Lapped(w, v, turns[..|turns| - 1], t) && !v.timers[t].isStop
    requires TickedOnce(v, r, t, turns[|turns| - 1].frame.deltaTime) && t in r.list
    ensures Lapped(w, r, turns, t)
  {
    DeltasOfPrefix(turns);
    var deltas := Deltas(turns);
    assert Ticks(w.timers[t], deltas) == Tick(Ticks(w.timers[t], deltas[..|deltas| - 1]), deltas[|deltas| - 1]);
    hide Count, Elapse, Deltas, Ticks;
  }

  // A started lap timer sounds one lap in each Update that finds it due, and its end with
  // the last lap, until that Update.
  lemma {:induction false} LapsPlayed<T>(w: World<T>, turns: seq<Turn<T>>, t: T)
    requires Good(w) && Fits(turns, w.timers.Keys) && TurnsLeave(turns, w.timers.Keys, t)
    requires t in w.timers && t in w.list && w.timers[t].kind.Lap? && !w.timers[t].isStop
    requires w.timers[t].leftLap >= 1
    requires turns != [] ==> Fired(w.timers[t], Deltas(turns[..|turns| - 1])) < w.timers[t].leftLap
    ensures Lapped(w, Play(w, turns), turns, t)
    decreases |turns|
  {
    hide Play, PlayOne, Good, Fits, Tame, Within, TurnsLeave, TurnLeaves, Deltas, Fired, Lapped, TickedOnce;
    if turns == [] {
      NothingPlayed(w, turns, t);
    } else {
      var before, turn := turns[..|turns| - 1], turns[|turns| - 1];
      PlayLast(w, turns);
      LeftAlone(turns, w.timers.Keys, t);
      StillRuns(w.timers[t], turns);
      LapsPlayed(w, before, t);
      var v := Play(w, before);
      Runs(w, v, before, t);
      LapTurn(v, turn, t);
      LappedOnce(w, v, PlayOne(v, turn), turns, t);
    }
  }

  lemma NothingPlayed<T>(w: World<T>, turns: seq<Turn<T>>, t: T)
    requires turns == [] && Good(w) && Fits(turns, w.timers.Keys)
    requires t in w.timers && t in w.list && w.timers[t].kind.Lap? && !w.timers[t].isStop
    requires w.timers[t].leftLap >= 1
    ensures Lapped(w, Play(w, turns), turns, t)
  {
    hide Count;
  }

  lemma LeftAlone<T>(turns: seq<Turn<T>>, pool: set<T>, t: T)
    requires turns != [] && TurnsLeave(turns, pool, t)
    ensures TurnsLeave(turns[..|turns| - 1], pool, t) && TurnLeaves(turns[|turns| - 1], pool, t)
  {
  }

  // Laps only go up, so a timer that runs now ran before.
  lemma StillRuns<T>(s: TimerState, turns: seq<Turn<T>>)
    requires turns != [] && Fired(s, Deltas(turns[..|turns| - 1])) < s.leftLap
    ensures var before := turns[..|turns| - 1];
            before != [] ==> Fired(s, Deltas(before[..|before| - 1])) < s.leftLap
  {
    var before := turns[..|turns| - 1];
    if before != [] {
      DeltasOfPrefix(before);
    }
  }

  lemma Runs<T>(w: World<T>, v: World<T>, turns: seq<Turn<T>>, t: T)
    requires t in w.timers && Lapped(w, v, turns, t) && Fired(w.timers[t], Deltas(turns)) < w.timers[t].leftLap
    ensures t in v.timers && t in v.list && v.timers[t].kind.Lap? && !v.timers[t].isStop
  {
  }

  lemma DeltasAreNonNegative<T>(turns: seq<Turn<T>>, pool: set<T>)
    requires Fits(turns, pool)
    ensures AtLeast(Deltas(turns), 0.0)
  {
    hide Within, Tame;
  }

  // What a whole run makes of a lap timer, past its end as well.
  ghost predicate LapsCounted<T>(w: World<T>, r: World<T>, turns: seq<Turn<T>>, t: T)
    requires t in w.timers
  {
    var fired, laps := Fired(w.timers[t], Deltas(turns)), w.timers[t].leftLap;
    && t in r.timers && (r.timers[t].isStop <==> fired >= laps)
    && Count(r.log, LapUp(t)) == Count(w.log, LapUp(t)) + (if fired >= laps then laps else fired)
    && Count(r.log, TimeUp(t)) == Count(w.log, TimeUp(t)) + (if fired >= laps then 1 else 0)
    && (t in r.list <==> turns == [] || Fired(w.timers[t], Deltas(turns[..|turns| - 1])) < laps)
  }

  // The turn that ends a lap timer's last lap, or one before it.
  lemma CountedWhileRunning<T>(w: World<T>, r: World<T>, turns: seq<Turn<T>>, t: T)
    requires t in w.timers && Lapped(w, r, turns, t) && w.timers[t].leftLap >= 1
    requires turns != [] ==> Fired(w.timers[t], Deltas(turns[..|turns| - 1])) < w.timers[t].leftLap
    ensures LapsCounted(w, r, turns, t)
  {
    if turns != [] {
      DeltasOfPrefix(turns);
    }
    hide Count, Deltas;
  }

  // A turn after that.
  lemma CountedAfterEnd<T>(w: World<T>, v: World<T>, r: World<T>, turns: seq<Turn<T>>, t: T)
    requires turns != [] && t in w.timers && LapsCounted(w, v, turns[..|turns| - 1], t)
    requires Fired(w.timers[t], Deltas(turns[..|turns| - 1])) >= w.timers[t].leftLap
    requires Untouched(v, r, t) && t !in r.list
    ensures LapsCounted(w, r, turns, t)
  {
    DeltasOfPrefix(turns);
    hide Count, Deltas;
  }

  lemma {:induction false} LapTimerRun<T>(w: World<T>, turns: seq<Turn<T>>, t: T)
    requires Good(w) && Fits(turns, w.timers.Keys) && TurnsLeave(turns, w.timers.Keys, t)
    requires t in w.timers && t in w.list && w.timers[t].kind.Lap? && !w.timers[t].isStop
    requires w.timers[t].leftLap >= 1
    ensures LapsCounted(w, Play(w, turns), turns, t)
    decreases |turns|
  {
    if turns == [] || Fired(w.timers[t], Deltas(turns[..|turns| - 1])) < w.timers[t].leftLap {
      LapsPlayed(w, turns, t);
      hide Lapped, LapsCounted, Play, Good, Fits, TurnsLeave, Fired, Deltas;
      CountedWhileRunning(w, Play(w, turns), turns, t);
    } else {
      var before, turn := turns[..|turns| - 1], turns[|turns| - 1];
      PlayLast(w, turns);
      LeftAlone(turns, w.timers.Keys, t);
      hide Play, PlayOne, Good, Fits, Tame, Within, TurnsLeave, TurnLeaves, Deltas, Fired, Untouched, Count;
      LapTimerRun(w, before, t);
      StoppedTurn(Play(w, before), turn, t);
      hide LapsCounted;
      CountedAfterEnd(w, Play(w, before), PlayOne(Play(w, before), turn), turns, t);
    }
  }

  // The laps a started timer sounds in the game are the least, over the moments so far, of
  // the laps time had room for by then plus one for each Update since; all of them, and the
  // end of its time once, when that is as many as it was given.
  lemma LapsInTime<T>(w: World<T>, turns: seq<Turn<T>>, t: T) returns (least: int)
    requires Good(w) && Fits(turns, w.timers.Keys) && TurnsLeave(turns, w.timers.Keys, t)
    requires t in w.timers && t in w.list && w.timers[t].kind.Lap? && !w.timers[t].isStop
    requires w.timers[t].leftLap >= 1
    requires w.timers[t].scaledInterval > 0.0 && w.timers[t].lapLeftTime == w.timers[t].scaledInterval
    ensures IsLeastRoom(Deltas(turns), w.timers[t].scaledInterval, least)
    ensures var r, laps := Play(w, turns), w.timers[t].leftLap;
            && Count(r.log, LapUp(t)) == Count(w.log, LapUp(t)) + (if least >= laps then laps else least)
            && Count(r.log, TimeUp(t)) == Count(w.log, TimeUp(t)) + (if least >= laps then 1 else 0)
            && t in r.timers && (r.timers[t].isStop <==> least >= laps)
  {
    DeltasAreNonNegative(turns, w.timers.Keys);
    hide Play, Count, IsLeastRoom, Deltas, Fired, Good, Fits, TurnsLeave, AtLeast, Ticks;
    LapTimerRun(w, turns, t);
    LapsClosedForm(w.timers[t], Deltas(turns));
    least := Fired(w.timers[t], Deltas(turns));
  }
}
