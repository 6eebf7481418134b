/** The timers of a game as values: the list in order, the state of every timer, and the log
    of what happened. `Pass` is one Update; the heap form is proved equal to it. */
module GameTime {
  import opened Timers

  // A callback, or other code of the game, is a script of these operations.
  datatype Op<T> = Start(timer: T) | Stop(timer: T) | Adjust(timer: T, change: Change) | ClearAll

  datatype Event<T> = Ticked(timer: T) | LapUp(timer: T) | TimeUp(timer: T)

  datatype World<T> = World(list: seq<T>, timers: map<T, TimerState>, log: seq<Event<T>>)

  // What the callbacks of a timer do when they are called.
  datatype Scripts<T> = Scripts(onLap: seq<Op<T>>, onTimeUp: seq<Op<T>>)

  ghost predicate Distinct<T>(s: seq<T>) {
    forall i, j | 0 <= i < j < |s| :: s[i] != s[j]
  }

  ghost predicate Good<T>(w: World<T>) {
    Distinct(w.list) && forall t <- w.list :: t in w.timers
  }

  // The operations of a script name timers of the pool.
  ghost predicate Within<T>(script: seq<Op<T>>, pool: set<T>) {
    forall op <- script :: !op.ClearAll? ==> op.timer in pool
  }

  ghost predicate BothWithin<T>(s: Scripts<T>, pool: set<T>) {
    Within(s.onLap, pool) && Within(s.onTimeUp, pool)
  }

  ghost predicate NoClear<T>(script: seq<Op<T>>) {
    forall op <- script :: !op.ClearAll?
  }

  // The timers whose callbacks are still registered.
  ghost function Armed<T>(w: World<T>): set<T> {
    set t | t in w.timers && w.timers[t].registered
  }

  // From w to r the list was only added to, or else every timer that was in it has lost its
  // callbacks; and no timer has been given any.
  ghost predicate GrewOrCleared<T>(w: World<T>, r: World<T>)
    requires Good(w)
  {
    && r.timers.Keys == w.timers.Keys && Armed(r) <= Armed(w)
    && (w.list <= r.list || forall t <- w.list :: t !in Armed(r))
  }

  lemma GrewOrClearedAgain<T>(w: World<T>, v: World<T>, r: World<T>)
    requires Good(w) && Good(v) && GrewOrCleared(w, v) && GrewOrCleared(v, r)
    ensures GrewOrCleared(w, r)
  {
    assert w.list <= v.list ==> forall t <- w.list :: t in v.list;
  }

  ghost function WithTimer<T>(w: World<T>, t: T, s: TimerState): World<T> {
    w.(timers := w.timers[t := s])
  }

  ghost function Append<T>(list: seq<T>, t: T): seq<T> {
    if t in list then list else list + [t]
  }

  ghost function Stopped(s: TimerState, stop: bool): TimerState {
    s.(isStop := stop)
  }

  ghost function Apply<T>(w: World<T>, op: Op<T>): (r: World<T>)
    requires Good(w) && (!op.ClearAll? ==> op.timer in w.timers)
    ensures Good(r) && r.timers.Keys == w.timers.Keys && r.log == w.log
    ensures GrewOrCleared(w, r)
    ensures !op.ClearAll? ==> w.list <= r.list
  {
    match op
    case Start(t) => WithTimer(w, t, Stopped(w.timers[t], false)).(list := Append(w.list, t))
    case Stop(t) => WithTimer(w, t, Stopped(w.timers[t], true))
    case Adjust(t, change) => WithTimer(w, t, Change1(w.timers[t], change))
    case ClearAll =>
      World([], map t | t in w.timers :: if t in w.list then Cleared(w.timers[t]) else w.timers[t], w.log)
  }

  ghost function ApplyAll<T>(w: World<T>, script: seq<Op<T>>): (r: World<T>)
    requires Good(w) && Within(script, w.timers.Keys)
    ensures Good(r) && r.timers.Keys == w.timers.Keys && r.log == w.log
    ensures GrewOrCleared(w, r)
    ensures NoClear(script) ==> w.list <= r.list
    decreases |script|
  {
    if script == [] then w
    else
      var v := Apply(w, script[0]);
      var r := ApplyAll(v, script[1..]);
      GrewOrClearedAgain(w, v, r);
      r
  }

  ghost function Logged<T>(w: World<T>, e: Event<T>): World<T> {
    w.(log := w.log + [e])
  }

  // A delegate of a timer is called: its callback, if it still has one, runs to its end.
  ghost function Called<T>(w: World<T>, t: T, script: seq<Op<T>>): (r: World<T>)
    requires Good(w) && t in w.timers && Within(script, w.timers.Keys)
    ensures Good(r) && r.timers.Keys == w.timers.Keys && r.log == w.log
    ensures GrewOrCleared(w, r) && (w.timers[t].registered || r == w)
  {
    if w.timers[t].registered then ApplyAll(w, script) else w
  }

  // Another state of a timer, with the callbacks it had.
  lemma StillArmed<T>(w: World<T>, t: T, s: TimerState)
    requires Good(w) && t in w.timers && s.registered == w.timers[t].registered
    ensures Good(WithTimer(w, t, s)) && Armed(WithTimer(w, t, s)) == Armed(w)
    ensures WithTimer(w, t, s).timers.Keys == w.timers.Keys
  {
  }

  // The start of every tick.
  ghost function Begun<T>(w: World<T>, t: T, deltaTime: real): (r: World<T>)
    requires Good(w) && t in w.timers
    ensures Good(r) && r.timers.Keys == w.timers.Keys && r.list == w.list && Armed(r) == Armed(w)
  {
    StillArmed(w, t, Elapse(w.timers[t], deltaTime));
    Logged(WithTimer(w, t, Elapse(w.timers[t], deltaTime)), Ticked(t))
  }

  // A lap counted after its callback, and the callback of the last.
  ghost function EndOfLap<T>(w: World<T>, t: T, onTimeUp: seq<Op<T>>): (r: World<T>)
    requires Good(w) && t in w.timers && Within(onTimeUp, w.timers.Keys)
    ensures Good(r) && GrewOrCleared(w, r) && (w.timers[t].registered || r.list == w.list)
  {
    StillArmed(w, t, CountLap(w.timers[t]));
    var v := WithTimer(w, t, CountLap(w.timers[t]));
    if w.timers[t].leftLap - 1 < 1 then Called(Logged(v, TimeUp(t)), t, onTimeUp) else v
  }

  // The tick of one timer with its callbacks.
  ghost function TickOne<T>(w: World<T>, t: T, deltaTime: real, scripts: Scripts<T>): (r: World<T>)
    requires Good(w) && t in w.timers && BothWithin(scripts, w.timers.Keys)
    ensures Good(r) && GrewOrCleared(w, r) && (w.timers[t].registered || r.list == w.list)
  {
    var w1 := Begun(w, t, deltaTime);
    if !Due(w.timers[t], deltaTime) then w1
    else if w.timers[t].kind.Countdown? then Called(Logged(w1, TimeUp(t)), t, scripts.onTimeUp)
    else
      var w2 := Called(Logged(w1, LapUp(t)), t, scripts.onLap);
      var r := EndOfLap(w2, t, scripts.onTimeUp);
      GrewOrClearedAgain(w1, w2, r);
      r
  }

  ghost function Without<T>(list: seq<T>, i: nat): seq<T>
    requires i < |list|
  {
    list[..i] + list[i + 1..]
  }

  // Where a walk of the list stands after t: behind it, or at the end if t has left.
  ghost function After<T>(list: seq<T>, t: T): (i: nat)
    ensures i <= |list|
    ensures t in list ==> 0 < i && list[i - 1] == t
    ensures t !in list ==> i == |list|
  {
    if t in list then (var i :| 0 <= i < |list| && list[i] == t; i + 1) else |list|
  }

  lemma AfterInPrefix<T>(list: seq<T>, list': seq<T>, i: nat)
    requires Distinct(list') && list <= list' && i < |list|
    ensures After(list', list[i]) == i + 1
  {
    assert list'[i] == list[i];
  }

  // What drives one Update: the time that passed, and what the callbacks of each timer do.
  datatype Frame<!T> = Frame(deltaTime: real, callbacks: T -> Scripts<T>)

  // An Update on its way: the position in the list, the timers ticked since the list was
  // last taken apart, and those whose callbacks have been called.
  datatype Walk<T> = Walk(world: World<T>, pos: nat, ticked: set<T>, called: set<T>)

  // The callbacks name timers of the pool.
  ghost predicate Tame<T>(f: Frame<T>, pool: set<T>) {
    forall t <- pool :: BothWithin(f.callbacks(t), pool)
  }

  ghost predicate Ready<T>(f: Frame<T>, s: Walk<T>) {
    && Good(s.world) && Tame(f, s.world.timers.Keys)
    && s.pos <= |s.world.list|
    && s.ticked <= s.world.timers.Keys
    && (forall t <- s.ticked :: t in s.world.list[..s.pos])
    && (forall t <- s.called :: t in Armed(s.world) ==> t in s.world.list[..s.pos])
  }

  ghost predicate AtEnd<T>(s: Walk<T>) {
    s.pos >= |s.world.list|
  }

  ghost function Drop<T>(s: Walk<T>): Walk<T>
    requires !AtEnd(s)
  {
    s.(world := s.world.(list := Without(s.world.list, s.pos)))
  }

  // The walk behind a tick of t that has made w of the world.
  ghost function Onwards<T>(s: Walk<T>, t: T, w: World<T>): Walk<T> {
    Walk(w, After(w.list, t), if s.world.list <= w.list then s.ticked + {t} else {},
         if t in Armed(s.world) then s.called + {t} else s.called)
  }

  ghost function Ahead<T>(f: Frame<T>, s: Walk<T>): Walk<T>
    requires Ready(f, s) && !AtEnd(s)
  {
    var t := s.world.list[s.pos];
    var w := TickOne(s.world, t, f.deltaTime, f.callbacks(t));
    Onwards(s, t, w)
  }

  // One round of the loop: a stopped timer is dropped, a running one ticked.
  ghost function Round<T>(f: Frame<T>, s: Walk<T>): Walk<T>
    requires Ready(f, s) && !AtEnd(s)
  {
    if s.world.timers[s.world.list[s.pos]].isStop then Drop(s) else Ahead(f, s)
  }

  lemma DropIsReady<T>(f: Frame<T>, s: Walk<T>)
    requires Ready(f, s) && !AtEnd(s)
    ensures Ready(f, Drop(s)) && Drop(s).world.list[..s.pos] == s.world.list[..s.pos]
    ensures Drop(s).world.list[s.pos..] == s.world.list[s.pos..][1..]
    ensures Armed(Drop(s).world) == Armed(s.world)
  {
    assert Drop(s).world.list[..s.pos] == s.world.list[..s.pos];
  }

  // What is behind the walk stays behind it while the list only grows.
  lemma StaysInPrefix<T>(list: seq<T>, list': seq<T>, pos: nat)
    requires Distinct(list') && list <= list' && pos < |list|
    ensures After(list', list[pos]) == pos + 1
    ensures list'[..pos + 1] == list[..pos] + [list[pos]]
  {
    AfterInPrefix(list, list', pos);
  }

  lemma OnwardsIsReady<T>(f: Frame<T>, s: Walk<T>, w: World<T>)
    requires Ready(f, s) && !AtEnd(s) && Good(w) && GrewOrCleared(s.world, w)
    ensures var t := s.world.list[s.pos];
            && t !in s.ticked && Ready(f, Onwards(s, t, w))
            && (s.world.list <= w.list ==> Onwards(s, t, w).pos == s.pos + 1)
  {
    hide Tame;
    if s.world.list <= w.list {
      StaysInPrefix(s.world.list, w.list, s.pos);
    }
  }

  lemma AheadIsReady<T>(f: Frame<T>, s: Walk<T>)
    requires Ready(f, s) && !AtEnd(s)
    ensures Ready(f, Ahead(f, s)) && GrewOrCleared(s.world, Ahead(f, s).world)
    ensures s.world.list[s.pos] !in s.ticked
    ensures s.world.list <= Ahead(f, s).world.list ==> Ahead(f, s).pos == s.pos + 1
  {
    var t := s.world.list[s.pos];
    assert t in s.world.list && BothWithin(f.callbacks(t), s.world.timers.Keys);
    var w := TickOne(s.world, t, f.deltaTime, f.callbacks(t));
    hide TickOne, GrewOrCleared, BothWithin, Onwards;
    OnwardsIsReady(f, s, w);
  }

  // However often a timer is ticked in an Update, its callbacks are called in one tick at
  // most: only a callback that clears the list brings a timer back in front of the walk,
  // and then without its callbacks.
  lemma CallbacksRunOnce<T>(f: Frame<T>, s: Walk<T>)
    requires Ready(f, s) && !AtEnd(s)
    ensures s.world.list[s.pos] in Armed(s.world) ==> s.world.list[s.pos] !in s.called
  {
  }

  // The measure by which a walk comes to its end.
  ghost predicate Nearer<T>(s: Walk<T>, s': Walk<T>) {
    && s.pos < |s.world.list|
    && s'.world.timers.Keys == s.world.timers.Keys && Armed(s'.world) <= Armed(s.world)
    && (Armed(s'.world) == Armed(s.world) ==>
          || s'.world.timers.Keys - s'.ticked < s.world.timers.Keys - s.ticked
          || (s'.ticked == s.ticked && |s'.world.list| - s'.pos < |s.world.list| - s.pos))
  }

  lemma RoundIsReady<T>(f: Frame<T>, s: Walk<T>)
    requires Ready(f, s) && !AtEnd(s)
    ensures Ready(f, Round(f, s)) && Nearer(s, Round(f, s))
  {
    DropIsReady(f, s);
    AheadIsReady(f, s);
    var t := s.world.list[s.pos];
    assert t in s.world.list;
    hide TickOne, Good, Tame;
    if !s.world.timers[t].isStop && !(s.world.list <= Ahead(f, s).world.list) {
      assert t in Armed(s.world) && t !in Armed(Ahead(f, s).world);
    }
  }

  // The whole Update. It ends, whatever the callbacks start, stop or clear: a tick that
  // takes the list apart costs a timer its callbacks, and until the next such tick no
  // timer is ticked twice.
  ghost function Pass<T>(f: Frame<T>, s: Walk<T>): (r: World<T>)
    requires Ready(f, s)
    ensures Good(r) && r.timers.Keys == s.world.timers.Keys && Armed(r) <= Armed(s.world)
    decreases Armed(s.world), s.world.timers.Keys - s.ticked, |s.world.list| - s.pos
  {
    if AtEnd(s) then s.world
    else
      RoundIsReady(f, s);
      Pass(f, Round(f, s))
  }

  // The whole Update goes on from each round as it would have gone on from before it.
  lemma RoundGoesOn<T>(f: Frame<T>, s: Walk<T>)
    requires Ready(f, s) && !AtEnd(s)
    ensures s.world.list[s.pos] in s.world.timers && BothWithin(f.callbacks(s.world.list[s.pos]), s.world.timers.Keys)
    ensures s.world.timers[s.world.list[s.pos]].isStop ==> Round(f, s) == Drop(s)
    ensures !s.world.timers[s.world.list[s.pos]].isStop ==> Round(f, s) == Ahead(f, s)
    ensures Ready(f, Round(f, s)) && Pass(f, s) == Pass(f, Round(f, s))
  {
    RoundIsReady(f, s);
  }

  lemma PassEnds<T>(f: Frame<T>, s: Walk<T>)
    requires Ready(f, s) && AtEnd(s)
    ensures Pass(f, s) == s.world
  {
  }

  lemma WithoutElement<T>(list: seq<T>, i: nat)
    requires Distinct(list) && i < |list|
    ensures Distinct(Without(list, i)) && list[i] !in Without(list, i)
    ensures forall t <- Without(list, i) :: t in list
    ensures forall t <- list :: t != list[i] ==> t in Without(list, i)
  {
    forall t | t in list && t != list[i] ensures t in Without(list, i) {
      var j :| 0 <= j < |list| && list[j] == t;
      assert Without(list, i)[if j < i then j else j - 1] == t;
    }
  }

  ghost function Update<T>(f: Frame<T>, w: World<T>): (r: World<T>)
    requires Good(w) && Tame(f, w.timers.Keys)
    ensures Good(r) && r.timers.Keys == w.timers.Keys && Armed(r) <= Armed(w)
  {
    Pass(f, Walk(w, 0, {}, {}))
  }
}
