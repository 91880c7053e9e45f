/** Levels two to five: when a timer that is placed there runs, whatever the clock reads, when that can be
    its due tick, and in which order the timers of a bucket run and are handed down. */
module TimerWheelLevels {

  import opened Arithmetic
  import opened TimerWheel
  import opened TimerWheelProof
  import opened TimerWheelTheorems

  // ---- A timer waits for its bucket ----

  /** The timer stands in this bucket and nowhere else. */
  ghost predicate Parked(w: Wheel, x: Task, k: Level, b: nat)
    requires Shaped(w)
  {
    forall j: Level, c: nat :: Stands(w, x, j, c) ==> j == k && c == b
  }

  lemma ParkedCascade(w: Wheel, i: Level, now: int, cancelled: set<nat>, x: Task, k: Level, b: nat)
    requires Shaped(w) && 2 <= i && 2 <= k && Parked(w, x, k, b) && Wait(k, b, w.tick) != 1
    ensures Parked(Cascaded(w, i, now, cancelled), x, k, b)
  {
    var w' := Cascaded(w, i, now, cancelled);
    hide Cascaded, Wait, Hand, Moves, Target, Next;
    forall j: Level, c: nat | Stands(w', x, j, c) ensures j == k && c == b {
      CascadedOrigin(w, i, now, cancelled, x, j, c);
      MovesWhenDue(i, Hand(i, Next(w.tick)), w.tick);
      HandInRange(i, Next(w.tick));
    }
  }

  lemma ParkedAll(w: Wheel, now: int, cancelled: set<nat>, x: Task, k: Level, b: nat)
    requires Shaped(w) && 2 <= k && Parked(w, x, k, b) && Wait(k, b, w.tick) != 1
    ensures Parked(AllCascaded(w, now, cancelled), x, k, b)
  {
    hide Cascaded, Parked, Wait, Shaped;
    var w5 := Cascaded(w, 5, now, cancelled);
    var w4 := Cascaded(w5, 4, now, cancelled);
    var w3 := Cascaded(w4, 3, now, cancelled);
    ParkedCascade(w, 5, now, cancelled, x, k, b);
    ParkedCascade(w5, 4, now, cancelled, x, k, b);
    ParkedCascade(w4, 3, now, cancelled, x, k, b);
    ParkedCascade(w3, 2, now, cancelled, x, k, b);
  }

  lemma {:induction false} OnlyDueRun(tasks: seq<Task>, cancelled: set<nat>, x: Task)
    requires x !in tasks
    ensures multiset(Due(tasks, cancelled))[x] == 0
  {
    if tasks != [] { OnlyDueRun(tasks[1..], cancelled, x); }
  }

  /** Before its bucket is due a tick neither moves the timer nor runs it. */
  lemma ParkedTick(w: Wheel, now: int, cancelled: set<nat>, x: Task, k: Level, b: nat)
    requires Shaped(w) && 2 <= k && Parked(w, x, k, b) && Wait(k, b, w.tick) != 1
    ensures Parked(Ticked(w, now, cancelled), x, k, b) && Wait(k, b, Ticked(w, now, cancelled).tick) == Wait(k, b, w.tick) - 1
    ensures multiset(Fired(w, now, cancelled))[x] == 0
  {
    ParkedAll(w, now, cancelled, x, k, b);
    WaitGoesDown(k, b, w.tick);
    var w1, w' := AllCascaded(w, now, cancelled), Ticked(w, now, cancelled);
    hide AllCascaded, Wait;
    HandInRange(1, w.tick);
    assert !Stands(w1, x, 1, Hand(1, w.tick));
    OnlyDueRun(w1.levels[0][Hand(1, w.tick)], cancelled, x);
    forall j: Level, c: nat | Stands(w', x, j, c) ensures j == k && c == b { assert Stands(w1, x, j, c); }
  }

  lemma ParkedEvent(s: System, e: Event, x: Task, k: Level, b: nat)
    requires Alive(s, x) && 2 <= k && Parked(s.w, x, k, b) && Untouched(e, x) && (e.Tick? ==> Wait(k, b, s.w.tick) != 1)
    ensures Alive(After(s, e), x) && Parked(After(s, e).w, x, k, b) && FiresNow(s, e, x) == 0
    ensures Wait(k, b, After(s, e).w.tick) == Wait(k, b, s.w.tick) - (if e.Tick? then 1 else 0)
  {
    hide Fired, Ticked, Inserted, Wait, Total;
    match e {
      case Add(y, delay) => OtherInserted(s.w, y, delay, x);
      case Cancel(_) =>
      case Tick(now) => ParkedTick(s.w, now, s.cancelled, x, k, b);
    }
  }

  /** As long as fewer ticks pass than its bucket has to wait, the timer does not run. */
  lemma {:induction false} ParkedRun(s: System, es: seq<Event>, x: Task, k: Level, b: nat)
    requires Alive(s, x) && 2 <= k && Parked(s.w, x, k, b) && AllUntouched(es, x) && Ticks(es) < Wait(k, b, s.w.tick)
    ensures Firings(s, es, x) == 0
    decreases |es|
  {
    hide Parked, After, FiresNow, Wait;
    if es != [] {
      assert Untouched(es[0], x);
      ParkedEvent(s, es[0], x, k, b);
      ParkedRun(After(s, es[0]), es[1..], x, k, b);
    }
  }

  lemma InsertedParks(w: Wheel, x: Task, delay: nat)
    requires Shaped(w) && Total(w, x) == 0
    ensures var (k, b) := Choose(w.tick, delay / TICK_GAP); var w' := Inserted(w, x, delay);
      && w'.tick == w.tick && Parked(w', x, k, b) && Within(w', x, Remaining(k, b, w.tick)) && Total(w', x) == 1
  {
    var (k, b) := Choose(w.tick, delay / TICK_GAP);
    InsertedAt(w, x, delay, k, b);
    var w' := Inserted(w, x, delay);
    hide Choose, Remaining;
    assert w'.tick == w.tick;
    forall j: Level, c: nat | Stands(w', x, j, c) ensures j == k && c == b { StandsOnlyThere(w, x, delay, j, c); }
  }

  /** Whatever the clock reads and whatever else is added or cancelled: a timer that is put on level two or
      above does not run before its bucket is due, and has run once when one unit of that level has
      passed since. */
  lemma RunsInWindow(s: System, x: Task, delay: nat, es: seq<Event>)
    requires Alive(s, x) && Total(s.w, x) == 0 && AllUntouched(es, x) && CHECK_ONE < delay / TICK_GAP
    ensures var (k, b) := Choose(s.w.tick, delay / TICK_GAP); var n := Firings(After(s, Add(x, delay)), es, x);
      && 2 <= k
      && (Ticks(es) < Wait(k, b, s.w.tick) ==> n == 0)
      && (Wait(k, b, s.w.tick) + Unit(k) - 1 <= Ticks(es) ==> n == 1)
  {
    var (k, b) := Choose(s.w.tick, delay / TICK_GAP);
    assert 2 <= k;
    InsertedParks(s.w, x, delay);
    var s1, r := After(s, Add(x, delay)), Remaining(k, b, s.w.tick);
    assert r == Wait(k, b, s.w.tick) + Unit(k) - 1;
    hide Choose, Remaining, Wait, Within, Total, Parked, Inserted;
    if Ticks(es) < Wait(k, b, s.w.tick) { ParkedRun(s1, es, x, k, b); }
    if r <= Ticks(es) {
      RunStep(s1, es, x, r);
      NothingLeft(End(s1, es).w, x, r - Ticks(es));
    }
  }

  // ---- When the due tick is in that window ----

  /** The bucket of a level that is due with the unit a tick lies in. */
  predicate RightBucket(k: Level, b: nat, tick: nat, due: nat)
    requires 2 <= k
  {
    b == due / Unit(k) % 64 && 1 <= due / Unit(k) - tick / Unit(k) <= 64
  }

  lemma UnitOf(u: nat, a: nat, c: nat)
    requires 0 < u
    ensures u * c <= a < u * c + u <==> a / u == c
  {
    if u * c <= a < u * c + u { ModUnique(a, u, a - u * c, c); }
  }

  lemma Turn(b: nat, q: nat, q1: nat)
    requires b < 64
    ensures q1 == q + (b - q - 1) % 64 + 1 <==> b == q1 % 64 && 1 <= q1 - q <= 64
  {}

  /** The window of a bucket: it begins with a whole unit. */
  lemma WindowHolds(k: Level, b: nat, tick: nat, gaps: nat)
    requires 2 <= k && b < 64
    ensures Wait(k, b, tick) <= gaps + 1 <= Wait(k, b, tick) + Unit(k) - 1 <==> RightBucket(k, b, tick, tick + gaps + 1)
  {
    var u, q, m := Unit(k), tick / Unit(k), (b - tick / Unit(k) - 1) % 64;
    WaitForm(k, b, tick);
    hide Unit, Wait;
    assert u * q + tick % u == tick;
    assert u * (q + m + 1) == u * q + u * m + u;
    UnitOf(u, tick + gaps + 1, q + m + 1);
    Turn(b, q, (tick + gaps + 1) / u);
  }

  /** The bucket in which a timer can run at its due tick. What the code chooses is that bucket on level two
      unless the due tick ends a turn of level one; on level three only if two parts of the due tick
      agree, and on levels four and five only if one part of it is zero. */
  predicate Lucky(tick: nat, gaps: nat) {
    var due := tick + gaps;
    if gaps <= CHECK_TWO then due % 256 != 255
    else if gaps <= CHECK_THREE then due / 0x100 % 64 == (due + 1) / 0x4000 % 64 && tick / 0x4000 < (due + 1) / 0x4000
    else if gaps <= CHECK_FOUR then (due + 1) / 0x10_0000 % 64 == 0 && tick / 0x10_0000 < (due + 1) / 0x10_0000
    else (due + 1) / 0x400_0000 % 64 == 0 && tick / 0x400_0000 < (due + 1) / 0x400_0000 <= tick / 0x400_0000 + 64
  }

  lemma ChosenTwo(tick: nat, gaps: nat)
    requires CHECK_ONE < gaps <= CHECK_TWO
    ensures var (k, b) := Choose(tick, gaps); k == 2 && (RightBucket(k, b, tick, tick + gaps + 1) <==> Lucky(tick, gaps))
  {
    var d := tick + gaps;
    NextUnit(256, d);
    assert tick / 256 + 1 <= d / 256 <= tick / 256 + 63;
  }

  lemma ChosenThree(tick: nat, gaps: nat)
    requires CHECK_TWO < gaps <= CHECK_THREE
    ensures var (k, b) := Choose(tick, gaps); k == 3 && (RightBucket(k, b, tick, tick + gaps + 1) <==> Lucky(tick, gaps))
  {
    assert (tick + gaps + 1) / 0x4000 <= tick / 0x4000 + 64;
  }

  lemma ChosenAbove(tick: nat, gaps: nat)
    requires CHECK_THREE < gaps
    ensures var (k, b) := Choose(tick, gaps); 4 <= k && (RightBucket(k, b, tick, tick + gaps + 1) <==> Lucky(tick, gaps))
  {
    assert Choose(tick, gaps).1 == 0;
    if gaps <= CHECK_FOUR { assert (tick + gaps + 1) / 0x10_0000 <= tick / 0x10_0000 + 64; }
  }

  /** For every tick and every delay beyond level one: the timer's window contains its due tick if and only
      if this condition on the tick and the delay holds. Otherwise it runs too early or too late for any
      clock. */
  lemma DueTickInWindow(tick: nat, gaps: nat)
    requires CHECK_ONE < gaps
    ensures var (k, b) := Choose(tick, gaps);
      2 <= k && (Wait(k, b, tick) <= gaps + 1 <= Wait(k, b, tick) + Unit(k) - 1 <==> Lucky(tick, gaps))
  {
    var (k, b) := Choose(tick, gaps);
    hide Lucky, RightBucket, Wait;
    if gaps <= CHECK_TWO { ChosenTwo(tick, gaps); }
    else if gaps <= CHECK_THREE { ChosenThree(tick, gaps); }
    else { ChosenAbove(tick, gaps); }
    WindowHolds(k, b, tick, gaps);
  }

  /** So a timer can miss its due tick by far in either direction: added at tick 0, one that is due after
      0x4000 ticks has not run after 0xFFFFF of them, and one that is due after 0x8100 has run after
      0x7FFF. */
  lemma FarOff(s: System, x: Task, es: seq<Event>)
    requires Alive(s, x) && Total(s.w, x) == 0 && AllUntouched(es, x) && s.w.tick == 0
    ensures Ticks(es) <= 0xF_FFFF ==> Firings(After(s, Add(x, 0x4000 * TICK_GAP)), es, x) == 0
    ensures 0x7FFF <= Ticks(es) ==> Firings(After(s, Add(x, 0x8100 * TICK_GAP)), es, x) == 1
  {
    assert Choose(0, 0x4000) == (3, 0) && Choose(0, 0x8100) == (3, 1);
    assert Wait(3, 0, 0) == 0x10_0000 && Wait(3, 1, 0) == 0x4000;
    hide Choose, Wait, Total, Firings, After, Ticks, AllUntouched, Alive;
    RunsInWindow(s, x, 0x4000 * TICK_GAP, es);
    RunsInWindow(s, x, 0x8100 * TICK_GAP, es);
  }

  // ---- Where handing down leads, exactly ----

  /** The whole units of the level below that are left of the delay, as the code computes them. */
  function UnitsLeft(k: Level, now: int, expire: int): nat
    requires 3 <= k
  {
    var gaps: nat := (if expire < now then 0 else expire - now) / TICK_GAP;
    (if k == 3 then Min(gaps, CHECK_TWO) else gaps) / Unit(k - 1)
  }

  /** Handed down to level two, three or four, a timer waits there for the whole units that are left, modulo a
      turn of 64; handed down to level one, for the ticks that are left, at most 255. */
  lemma HandedDownFor(k: Level, tick: nat, now: int, expire: int)
    requires 2 <= k && tick < WORD && Moves(k, tick)
    ensures k == 2 ==> Wait(1, Target(2, tick, now, expire), tick) ==
                       Min((if expire < now then 0 else expire - now) / TICK_GAP, CHECK_ONE) + 1
    ensures 3 <= k ==> Wait(k - 1, Target(k, tick, now, expire), tick) == 1 + Unit(k - 1) * (UnitsLeft(k, now, expire) % 64)
  {
    if k == 2 { ToLevelOne(tick, now, expire); } else { ToLevel(k, tick, now, expire); }
  }

  lemma ToLevelOne(tick: nat, now: int, expire: int)
    ensures Wait(1, Target(2, tick, now, expire), tick) ==
      Min((if expire < now then 0 else expire - now) / TICK_GAP, CHECK_ONE) + 1
  {
    var g := Min((if expire < now then 0 else expire - now) / TICK_GAP, CHECK_ONE);
    assert Hand(1, tick) == tick % 256;
    assert Target(2, tick, now, expire) == (tick % 256 + g) % 256;
  }

  lemma TargetIs(k: Level, tick: nat, now: int, expire: int)
    requires 3 <= k
    ensures Target(k, tick, now, expire) == (Hand(k - 1, Next(tick)) + UnitsLeft(k, now, expire) % 64) % 64
  {}

  lemma UnitsNest(k: Level)
    requires 3 <= k
    ensures Unit(k) == 64 * Unit(k - 1)
  {}

  lemma ToLevel(k: Level, tick: nat, now: int, expire: int)
    requires 3 <= k && tick < WORD && Moves(k, tick)
    ensures Wait(k - 1, Target(k, tick, now, expire), tick) == 1 + Unit(k - 1) * (UnitsLeft(k, now, expire) % 64)
  {
    hide Unit, Next, Wait, Target, Hand, Moves, UnitsLeft;
    var j: Level := k - 1;
    UnitsNest(k);
    MovesAtUnit(k, tick);
    TargetIs(k, tick, now, expire);
    var u, d := Unit(j), UnitsLeft(k, now, expire) % 64;
    LowPartFull(tick, u);
    MovesAtUnit(j, tick);
    WaitForm(j, d, tick);
    Below64(d, tick / u);
  }

  // ---- Order ----

  /** The tasks that pass a test, in their order. */
  function Kept(tasks: seq<Task>, keep: Task -> bool): seq<Task> {
    if tasks == [] then [] else (if keep(tasks[0]) then [tasks[0]] else []) + Kept(tasks[1..], keep)
  }

  /** How many of the first i tasks pass: the place of the next one that does. */
  function Place(tasks: seq<Task>, keep: Task -> bool, i: nat): nat
    requires i <= |tasks|
  {
    if i == 0 then 0 else (if keep(tasks[0]) then 1 else 0) + Place(tasks[1..], keep, i - 1)
  }

  /** Every task that passes has its place, in the order of the tasks, and there are no others. */
  lemma {:induction false} KeptInOrder(tasks: seq<Task>, keep: Task -> bool, i: nat, j: nat)
    requires i <= j <= |tasks|
    ensures |Kept(tasks, keep)| == Place(tasks, keep, |tasks|)
    ensures Place(tasks, keep, i) <= Place(tasks, keep, j) <= Place(tasks, keep, |tasks|)
    ensures i < j && keep(tasks[i]) ==>
      && Place(tasks, keep, i) < Place(tasks, keep, j)
      && Place(tasks, keep, i) < |Kept(tasks, keep)| && Kept(tasks, keep)[Place(tasks, keep, i)] == tasks[i]
  {
    if 0 < i { KeptInOrder(tasks[1..], keep, i - 1, j - 1); }
    else if 0 < j { KeptInOrder(tasks[1..], keep, 0, j - 1); }
    else if tasks != [] { KeptInOrder(tasks[1..], keep, 0, 0); }
  }

  function Live(cancelled: set<nat>): Task -> bool { (x: Task) => x.id !in cancelled }

  function GoesTo(b: nat, k: Level, tick: nat, now: int, cancelled: set<nat>): Task -> bool
    requires 2 <= k
  {
    (x: Task) => x.id !in cancelled && Target(k, tick, now, x.expire) == b
  }

  lemma {:induction false} DueIsKept(tasks: seq<Task>, cancelled: set<nat>)
    ensures Due(tasks, cancelled) == Kept(tasks, Live(cancelled))
  {
    if tasks != [] { DueIsKept(tasks[1..], cancelled); }
  }

  /** Two timers of a bucket that are not cancelled run in the order in which they stand in it. */
  lemma RunInOrder(tasks: seq<Task>, cancelled: set<nat>, i: nat, j: nat) returns (i': nat, j': nat)
    requires i < j < |tasks| && tasks[i].id !in cancelled && tasks[j].id !in cancelled
    ensures i' < j' < |Due(tasks, cancelled)| && Due(tasks, cancelled)[i'] == tasks[i] && Due(tasks, cancelled)[j'] == tasks[j]
  {
    var keep := Live(cancelled);
    DueIsKept(tasks, cancelled);
    KeptInOrder(tasks, keep, i, j);
    KeptInOrder(tasks, keep, j, j + 1);
    i', j' := Place(tasks, keep, i), Place(tasks, keep, j);
  }

  /** Handing down appends to each bucket below, in their order, the timers that are not cancelled and go
      there. */
  lemma {:induction false} HandedDownInOrder(tasks: seq<Task>, below: Buckets, k: Level, tick: nat, now: int,
                                             cancelled: set<nat>, b: nat)
    requires 2 <= k && |below| == Size(k - 1) && b < Size(k - 1)
    ensures Distribute(tasks, below, k, tick, now, cancelled)[b] ==
      below[b] + Kept(tasks, GoesTo(b, k, tick, now, cancelled))
    decreases |tasks|
  {
    hide Target;
    if tasks != [] {
      var y := tasks[0];
      var below' := if y.id in cancelled then below else Put(below, Target(k, tick, now, y.expire), y);
      HandedDownInOrder(tasks[1..], below', k, tick, now, cancelled, b);
    }
  }
}
