/** What an Update, and a run of Updates, does to each timer. */
module GameTimeRuns {
  import opened GameTime
  import opened Timers

  ghost function Count<T>(log: seq<Event<T>>, e: Event<T>): nat {
    multiset(log)[e]
  }

  // ---- An Update whose callbacks leave a timer alone.

  ghost predicate Leaves<T>(script: seq<Op<T>>, t: T) {
    forall op <- script :: !op.ClearAll? && op.timer != t
  }

  ghost predicate BothLeave<T>(s: Scripts<T>, t: T) {
    Leaves(s.onLap, t) && Leaves(s.onTimeUp, t)
  }

  // The callbacks of these timers leave t alone.
  ghost predicate CallbacksLeave<T>(f: Frame<T>, timers: set<T>, t: T) {
    forall u <- timers :: BothLeave(f.callbacks(u), t)
  }

  // Nothing happened to t between two moments.
  ghost predicate Untouched<T>(w: World<T>, r: World<T>, t: T) {
    && t in w.timers && t in r.timers && r.timers[t] == w.timers[t]
    && Count(r.log, Ticked(t)) == Count(w.log, Ticked(t))
    && Count(r.log, LapUp(t)) == Count(w.log, LapUp(t))
    && Count(r.log, TimeUp(t)) == Count(w.log, TimeUp(t))
  }

  lemma {:induction false} ScriptLeaves<T>(w: World<T>, script: seq<Op<T>>, t: T)
    requires Good(w) && Within(script, w.timers.Keys) && Leaves(script, t) && t in w.timers
    ensures var r := ApplyAll(w, script);
            Untouched(w, r, t) && w.list <= r.list && (t in r.list <==> t in w.list)
    decreases |script|
  {
    if script != [] {
      ScriptLeaves(Apply(w, script[0]), script[1..], t);
    }
  }

  // A delegate of some timer, called.
  lemma CallLeaves<T>(w: World<T>, u: T, script: seq<Op<T>>, t: T)
    requires Good(w) && u in w.timers && Within(script, w.timers.Keys) && t in w.timers
    requires w.timers[u].registered ==> Leaves(script, t)
    ensures var r := Called(w, u, script);
            Untouched(w, r, t) && w.list <= r.list && (t in r.list <==> t in w.list)
  {
    if w.timers[u].registered {
      ScriptLeaves(w, script, t);
    }
  }

  lemma TickLeaves<T>(w: World<T>, u: T, deltaTime: real, scripts: Scripts<T>, t: T)
    requires Good(w) && u in w.timers && BothWithin(scripts, w.timers.Keys)
    requires w.timers[u].registered ==> BothLeave(scripts, t)
    requires t in w.timers && u != t
    ensures var r := TickOne(w, u, deltaTime, scripts);
            Untouched(w, r, t) && w.list <= r.list && (t in r.list <==> t in w.list)
  {
    hide Called, Elapse, CountLap;
    var w1 := Begun(w, u, deltaTime);
    if Due(w.timers[u], deltaTime) {
      if w.timers[u].kind.Countdown? {
        CallLeaves(Logged(w1, TimeUp(u)), u, scripts.onTimeUp, t);
      } else {
        CallLeaves(Logged(w1, LapUp(u)), u, scripts.onLap, t);
        EndLeaves(Called(Logged(w1, LapUp(u)), u, scripts.onLap), u, scripts.onTimeUp, t);
      }
    }
  }

  lemma EndLeaves<T>(w: World<T>, u: T, onTimeUp: seq<Op<T>>, t: T)
    requires Good(w) && u in w.timers && Within(onTimeUp, w.timers.Keys)
    requires w.timers[u].registered ==> Leaves(onTimeUp, t)
    requires t in w.timers && u != t
    ensures var r := EndOfLap(w, u, onTimeUp);
            Untouched(w, r, t) && w.list <= r.list && (t in r.list <==> t in w.list)
  {
    hide Called, CountLap;
    StillArmed(w, u, CountLap(w.timers[u]));
    var v := WithTimer(w, u, CountLap(w.timers[u]));
    CallLeaves(Logged(v, TimeUp(u)), u, onTimeUp, t);
  }

  // What a timer's own tick does when its callback leaves it alone.
  ghost predicate TickedOnce<T>(w: World<T>, r: World<T>, t: T, deltaTime: real) {
    && t in w.timers && t in r.timers
    && var s := w.timers[t];
       && r.timers[t] == Tick(s, deltaTime)
       && Count(r.log, Ticked(t)) == Count(w.log, Ticked(t)) + 1
       && Count(r.log, LapUp(t)) == Count(w.log, LapUp(t)) + (if s.kind.Lap? && Due(s, deltaTime) then 1 else 0)
       && Count(r.log, TimeUp(t)) == Count(w.log, TimeUp(t)) + (if TimesUp(s, deltaTime) then 1 else 0)
  }

  predicate TimesUp(s: TimerState, deltaTime: real) {
    Due(s, deltaTime) && (s.kind.Lap? ==> s.leftLap - 1 < 1)
  }

  lemma OwnTick<T>(w: World<T>, t: T, deltaTime: real, scripts: Scripts<T>)
    requires Good(w) && t in w.timers && BothWithin(scripts, w.timers.Keys)
    requires w.timers[t].registered ==> BothLeave(scripts, t)
    ensures TickedOnce(w, TickOne(w, t, deltaTime, scripts), t, deltaTime)
    ensures w.list <= TickOne(w, t, deltaTime, scripts).list
  {
    hide Called, EndOfLap, Elapse, CountLap;
    BeginCounts(w, t, deltaTime);
    var w1 := Begun(w, t, deltaTime);
    if Due(w.timers[t], deltaTime) {
      if w.timers[t].kind.Countdown? {
        CallLeaves(Logged(w1, TimeUp(t)), t, scripts.onTimeUp, t);
      } else {
        OwnLap(w, t, deltaTime, scripts);
      }
    }
  }

  lemma BeginCounts<T>(w: World<T>, t: T, deltaTime: real)
    requires Good(w) && t in w.timers
    ensures var r := Begun(w, t, deltaTime);
            && r.timers[t] == Elapse(w.timers[t], deltaTime)
            && Count(r.log, Ticked(t)) == Count(w.log, Ticked(t)) + 1
            && Count(r.log, LapUp(t)) == Count(w.log, LapUp(t)) && Count(r.log, TimeUp(t)) == Count(w.log, TimeUp(t))
  {
  }

  lemma OwnLap<T>(w: World<T>, t: T, deltaTime: real, scripts: Scripts<T>)
    requires Good(w) && t in w.timers && BothWithin(scripts, w.timers.Keys)
    requires w.timers[t].registered ==> BothLeave(scripts, t)
    requires Due(w.timers[t], deltaTime) && w.timers[t].kind.Lap?
    ensures TickedOnce(w, TickOne(w, t, deltaTime, scripts), t, deltaTime)
    ensures w.list <= TickOne(w, t, deltaTime, scripts).list
  {
    hide Called, EndOfLap, Elapse;
    BeginCounts(w, t, deltaTime);
    var w1 := Begun(w, t, deltaTime);
    CallLeaves(Logged(w1, LapUp(t)), t, scripts.onLap, t);
    OwnEnd(Called(Logged(w1, LapUp(t)), t, scripts.onLap), t, scripts.onTimeUp);
    LapsElapse(w.timers[t], deltaTime);
  }

  lemma LapsElapse(s: TimerState, deltaTime: real)
    requires s.kind.Lap?
    ensures Elapse(s, deltaTime).leftLap == s.leftLap
  {
  }

  lemma OwnEnd<T>(w: World<T>, t: T, onTimeUp: seq<Op<T>>)
    requires Good(w) && t in w.timers && Within(onTimeUp, w.timers.Keys)
    requires w.timers[t].registered ==> Leaves(onTimeUp, t)
    ensures var r := EndOfLap(w, t, onTimeUp);
            && t in r.timers && r.timers[t] == CountLap(w.timers[t]) && w.list <= r.list
            && Count(r.log, Ticked(t)) == Count(w.log, Ticked(t)) && Count(r.log, LapUp(t)) == Count(w.log, LapUp(t))
            && Count(r.log, TimeUp(t)) == Count(w.log, TimeUp(t)) + if w.timers[t].leftLap - 1 < 1 then 1 else 0
  {
    hide Called;
    StillArmed(w, t, CountLap(w.timers[t]));
    var v := WithTimer(w, t, CountLap(w.timers[t]));
    CallLeaves(Logged(v, TimeUp(t)), t, onTimeUp, t);
  }

  lemma Chain<T>(w: World<T>, v: World<T>, r: World<T>, t: T, deltaTime: real)
    ensures Untouched(w, v, t) ==> t in w.timers && t in v.timers && v.timers[t] == w.timers[t]
    ensures Untouched(w, v, t) && Untouched(v, r, t) ==> Untouched(w, r, t)
    ensures TickedOnce(w, v, t, deltaTime) && Untouched(v, r, t) ==> TickedOnce(w, r, t, deltaTime)
    ensures Untouched(w, v, t) && TickedOnce(v, r, t, deltaTime) ==> TickedOnce(w, r, t, deltaTime)
  {
  }

  // From here on no callback that is still to be called touches t.
  ghost predicate Undisturbed<T>(f: Frame<T>, s: Walk<T>, t: T) {
    s.pos <= |s.world.list| && forall u <- Armed(s.world) :: u in s.world.list[..s.pos] || BothLeave(f.callbacks(u), t)
  }

  lemma LeftByAll<T>(f: Frame<T>, s: Walk<T>, timers: set<T>, t: T)
    requires s.pos <= |s.world.list| && Armed(s.world) <= timers && CallbacksLeave(f, timers, t)
    ensures Undisturbed(f, s, t)
  {
    hide BothLeave;
  }

  lemma TickGrows<T>(w: World<T>, u: T, deltaTime: real, scripts: Scripts<T>)
    requires Good(w) && u in w.timers && BothWithin(scripts, w.timers.Keys)
    requires w.timers[u].registered ==> NoClear(scripts.onLap) && NoClear(scripts.onTimeUp)
    ensures w.list <= TickOne(w, u, deltaTime, scripts).list
  {
    hide NoClear, Within, ApplyAll, Elapse, CountLap;
  }

  lemma StaysUndisturbed<T>(f: Frame<T>, s: Walk<T>, t: T)
    requires Ready(f, s) && !AtEnd(s) && Undisturbed(f, s, t)
    ensures Undisturbed(f, Round(f, s), t)
    ensures s.world.timers[s.world.list[s.pos]].registered ==> BothLeave(f.callbacks(s.world.list[s.pos]), t)
  {
    var u := s.world.list[s.pos];
    assert u in s.world.list && u !in s.world.list[..s.pos];
    assert u in Armed(s.world) ==> BothLeave(f.callbacks(u), t);
    if s.world.timers[u].isStop {
      DropIsReady(f, s);
    } else {
      AheadIsReady(f, s);
      TickGrows(s.world, u, f.deltaTime, f.callbacks(u));
      hide TickOne, BothLeave;
      StaysInPrefix(s.world.list, Ahead(f, s).world.list, s.pos);
    }
  }

  // A timer behind the walk, or out of the list, is not touched again.
  ghost predicate Skipped<T>(s: Walk<T>, t: T) {
    t in s.world.timers && s.pos <= |s.world.list| && t !in s.world.list[s.pos..]
  }

  lemma RoundSkips<T>(f: Frame<T>, s: Walk<T>, t: T)
    requires Ready(f, s) && !AtEnd(s) && Undisturbed(f, s, t) && Skipped(s, t)
    ensures var s' := Round(f, s);
            Skipped(s', t) && Untouched(s.world, s'.world, t) && (t in s'.world.list <==> t in s.world.list)
  {
    var w, u := s.world, s.world.list[s.pos];
    StaysUndisturbed(f, s, t);
    hide Undisturbed;
    assert u in w.list[s.pos..];
    if w.timers[u].isStop {
      DropIsReady(f, s);
      InSplit(w.list, s.pos, t);
      InSplit(Drop(s).world.list, s.pos, t);
    } else {
      AheadIsReady(f, s);
      TickLeaves(w, u, f.deltaTime, f.callbacks(s.world.list[s.pos]), t);
      hide TickOne;
      StaysBehind(w.list, Ahead(f, s).world.list, s.pos, t);
    }
  }

  lemma {:induction false} PassSkips<T>(f: Frame<T>, s: Walk<T>, t: T)
    requires Ready(f, s) && Undisturbed(f, s, t) && Skipped(s, t)
    ensures Untouched(s.world, Pass(f, s), t) && (t in Pass(f, s).list <==> t in s.world.list)
    decreases Armed(s.world), s.world.timers.Keys - s.ticked, |s.world.list| - s.pos
  {
    if !AtEnd(s) {
      RoundIsReady(f, s);
      RoundSkips(f, s, t);
      StaysUndisturbed(f, s, t);
      hide Round, Ready, Undisturbed, Skipped;
      PassSkips(f, Round(f, s), t);
    }
  }

  lemma InSplit<T>(list: seq<T>, pos: nat, t: T)
    requires pos <= |list|
    ensures t in list <==> t in list[..pos] || t in list[pos..]
  {
    assert list == list[..pos] + list[pos..];
  }

  lemma StaysBehind<T>(list: seq<T>, list': seq<T>, pos: nat, t: T)
    requires list <= list' && pos < |list| && Distinct(list') && t !in list[pos..]
    requires t in list' <==> t in list
    ensures t !in list'[pos + 1..]
  {
    InSplit(list, pos, t);
    if t in list[..pos] {
      var i :| 0 <= i < pos && list[..pos][i] == t;
      assert list'[i] == t;
    }
  }

  lemma StaysAhead<T>(list: seq<T>, list': seq<T>, pos: nat, t: T)
    requires list <= list' && pos < |list| && t in list[pos..] && list[pos] != t
    ensures t in list'[pos + 1..]
  {
    var i :| 0 <= i < |list[pos..]| && list[pos..][i] == t;
    assert list'[pos + 1..][i - 1] == t;
  }

  // What an Update makes of a timer it comes to: a stopped one leaves the list, a running
  // one is ticked exactly once and stays.
  ghost predicate Reached<T>(w: World<T>, r: World<T>, t: T, deltaTime: real)
    requires t in w.timers
  {
    if w.timers[t].isStop then Untouched(w, r, t) && t !in r.list
    else TickedOnce(w, r, t, deltaTime) && t in r.list
  }

  // The round that comes to t, and the rounds before it.
  lemma RoundAtTimer<T>(f: Frame<T>, s: Walk<T>, t: T)
    requires Ready(f, s) && !AtEnd(s) && Undisturbed(f, s, t) && t == s.world.list[s.pos]
    ensures Skipped(Round(f, s), t) && Reached(s.world, Round(f, s).world, t, f.deltaTime)
  {
    StaysUndisturbed(f, s, t);
    hide Undisturbed;
    if s.world.timers[t].isStop {
      DropIsReady(f, s);
    } else {
      AheadIsReady(f, s);
      OwnTick(s.world, t, f.deltaTime, f.callbacks(s.world.list[s.pos]));
      hide TickOne, TickedOnce;
      assert Ahead(f, s).world.list[s.pos] == t;
    }
  }

  lemma RoundBeforeTimer<T>(f: Frame<T>, s: Walk<T>, t: T)
    requires Ready(f, s) && !AtEnd(s)
    requires s.world.timers[s.world.list[s.pos]].registered ==> BothLeave(f.callbacks(s.world.list[s.pos]), t)
    requires t in s.world.list[s.pos..] && t != s.world.list[s.pos]
    ensures var s' := Round(f, s);
            s'.pos <= |s'.world.list| && t in s'.world.list[s'.pos..] && Untouched(s.world, s'.world, t)
  {
    var w, u := s.world, s.world.list[s.pos];
    assert t in w.list;
    if w.timers[u].isStop {
      DropIsReady(f, s);
    } else {
      AheadIsReady(f, s);
      TickLeaves(w, u, f.deltaTime, f.callbacks(s.world.list[s.pos]), t);
      hide TickOne, Untouched;
      StaysAhead(w.list, Ahead(f, s).world.list, s.pos, t);
    }
  }

  lemma {:induction false} PassReaches<T>(f: Frame<T>, s: Walk<T>, t: T)
    requires Ready(f, s) && Undisturbed(f, s, t) && t in s.world.timers && t in s.world.list[s.pos..]
    ensures Reached(s.world, Pass(f, s), t, f.deltaTime)
    decreases Armed(s.world), s.world.timers.Keys - s.ticked, |s.world.list| - s.pos
  {
    RoundIsReady(f, s);
    StaysUndisturbed(f, s, t);
    var s' := Round(f, s);
    if t == s.world.list[s.pos] {
      RoundAtTimer(f, s, t);
      hide Round, Ready, Undisturbed, Skipped, Untouched, TickedOnce;
      PassSkips(f, s', t);
    } else {
      RoundBeforeTimer(f, s, t);
      hide Round, Ready, Undisturbed, Skipped, Untouched, TickedOnce;
      PassReaches(f, s', t);
    }
    Chain(s.world, s'.world, Pass(f, s), t, f.deltaTime);
  }
}
