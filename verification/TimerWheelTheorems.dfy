/** What the timer wheel promises over any sequence of insertions, cancellations and ticks. */
module TimerWheelTheorems {

  import opened TimerWheel
  import opened TimerWheelProof

  // ---- Where a task stands ----

  ghost predicate Stands(w: Wheel, x: Task, k: Level, b: nat)
    requires Shaped(w)
  {
    b < Size(k) && x in w.levels[k - 1][b]
  }

  /** Wherever the timer stands, it has at most r ticks to go. */
  ghost predicate Within(w: Wheel, x: Task, r: int)
    requires Shaped(w)
  {
    forall k: Level, b: nat :: Stands(w, x, k, b) ==> Remaining(k, b, w.tick) <= r
  }

  /** The bucket that is due on a level does not hold the timer any more. */
  ghost predicate Settled(w: Wheel, x: Task, k: Level)
    requires Shaped(w)
  {
    forall b: nat :: Stands(w, x, k, b) ==> Wait(k, b, w.tick) != 1
  }

  lemma {:induction false} DistributeWhere(tasks: seq<Task>, below: Buckets, k: Level, tick: nat, now: int,
                                           cancelled: set<nat>, x: Task, b: nat)
    requires 2 <= k && |below| == Size(k - 1) && b < Size(k - 1)
    requires x in Distribute(tasks, below, k, tick, now, cancelled)[b]
    ensures x in below[b] || (x in tasks && b == Target(k, tick, now, x.expire))
    decreases |tasks|
  {
    hide Target;
    if tasks != [] {
      var y := tasks[0];
      var below' := if y.id in cancelled then below else Put(below, Target(k, tick, now, y.expire), y);
      DistributeWhere(tasks[1..], below', k, tick, now, cancelled, x, b);
    }
  }

  /** Handing down never lengthens what is left, and leaves the due bucket empty. */
  lemma CascadedStep(w: Wheel, k: Level, now: int, cancelled: set<nat>, x: Task, r: int)
    requires Shaped(w) && 2 <= k && Within(w, x, r)
    ensures Within(Cascaded(w, k, now, cancelled), x, r) && Settled(Cascaded(w, k, now, cancelled), x, k)
  {
    var w' := Cascaded(w, k, now, cancelled);
    forall j: Level, b: nat | Stands(w', x, j, b)
      ensures Remaining(j, b, w.tick) <= r && (j == k ==> Wait(j, b, w.tick) != 1)
    {
      CascadedPlace(w, k, now, cancelled, x, r, j, b);
    }
  }

  /** After handing down, a task stands where it stood or where the level above has put it. */
  lemma CascadedOrigin(w: Wheel, k: Level, now: int, cancelled: set<nat>, x: Task, j: Level, b: nat)
    requires Shaped(w) && 2 <= k && Stands(Cascaded(w, k, now, cancelled), x, j, b)
    ensures
      || (Stands(w, x, j, b) && (j == k && Moves(k, w.tick) ==> b != Hand(k, Next(w.tick))))
      || (j == k - 1 && Moves(k, w.tick) && Stands(w, x, k, Hand(k, Next(w.tick)))
          && b == Target(k, w.tick, now, x.expire))
  {
    hide Target, Hand, Moves;
    if !Stands(w, x, j, b) {
      var from := Hand(k, Next(w.tick));
      HandInRange(k, Next(w.tick));
      DistributeWhere(w.levels[k - 1][from], w.levels[k - 2], k, w.tick, now, cancelled, x, b);
    }
  }

  lemma CascadedPlace(w: Wheel, k: Level, now: int, cancelled: set<nat>, x: Task, r: int, j: Level, b: nat)
    requires Shaped(w) && 2 <= k && Within(w, x, r) && Stands(Cascaded(w, k, now, cancelled), x, j, b)
    ensures Remaining(j, b, w.tick) <= r && (j == k ==> Wait(j, b, w.tick) != 1)
  {
    hide Remaining, Wait, Target, Hand, Cascaded, Moves;
    CascadedOrigin(w, k, now, cancelled, x, j, b);
    if j == k { MovesWhenDue(k, b, w.tick); }
    if !Stands(w, x, j, b) {
      var from := Hand(k, Next(w.tick));
      MovesWhenDue(k, from, w.tick);
      RemainingWhenDue(k, from, w.tick);
      TargetWithinUnit(k, w.tick, now, x.expire);
    }
  }

  lemma HandInRange(k: Level, tick: nat)
    ensures Hand(k, tick) < Size(k)
  {
    HandCounts(k, tick);
  }

  lemma RemainingWhenDue(k: Level, b: nat, tick: nat)
    requires Wait(k, b, tick) == 1
    ensures Remaining(k, b, tick) == Unit(k)
  {}

  /** Handing down one level leaves the levels above as they are. */
  lemma CascadedAbove(w: Wheel, k: Level, now: int, cancelled: set<nat>, x: Task, j: Level)
    requires Shaped(w) && 2 <= k < j && Settled(w, x, j)
    ensures Settled(Cascaded(w, k, now, cancelled), x, j)
  {
    var w' := Cascaded(w, k, now, cancelled);
    assert w'.levels[j - 1] == w.levels[j - 1];
    forall b: nat | Stands(w', x, j, b) ensures Wait(j, b, w'.tick) != 1 { assert Stands(w, x, j, b); }
  }

  lemma AllCascadedSettled(w: Wheel, now: int, cancelled: set<nat>, x: Task, r: int)
    requires Shaped(w) && Within(w, x, r)
    ensures var w' := AllCascaded(w, now, cancelled);
      Within(w', x, r) && Settled(w', x, 5) && Settled(w', x, 4) && Settled(w', x, 3) && Settled(w', x, 2)
  {
    hide Cascaded, Within, Settled, Shaped;
    var w5 := Cascaded(w, 5, now, cancelled);
    var w4 := Cascaded(w5, 4, now, cancelled);
    var w3 := Cascaded(w4, 3, now, cancelled);
    CascadedStep(w, 5, now, cancelled, x, r);
    CascadedStep(w5, 4, now, cancelled, x, r);
    CascadedAbove(w5, 4, now, cancelled, x, 5);
    CascadedStep(w4, 3, now, cancelled, x, r);
    CascadedAbove(w4, 3, now, cancelled, x, 5);
    CascadedAbove(w4, 3, now, cancelled, x, 4);
    CascadedStep(w3, 2, now, cancelled, x, r);
    CascadedAbove(w3, 2, now, cancelled, x, 5);
    CascadedAbove(w3, 2, now, cancelled, x, 4);
    CascadedAbove(w3, 2, now, cancelled, x, 3);
  }

  /** A tick brings every task that does not run one tick closer. */
  lemma TickWithin(w: Wheel, now: int, cancelled: set<nat>, x: Task, r: int)
    requires Shaped(w) && Within(w, x, r)
    ensures Within(Ticked(w, now, cancelled), x, r - 1)
  {
    var w1 := AllCascaded(w, now, cancelled);
    AllCascadedSettled(w, now, cancelled, x, r);
    var w' := Ticked(w, now, cancelled);
    hide AllCascaded;
    forall k: Level, b: nat | Stands(w', x, k, b) ensures Remaining(k, b, w'.tick) <= r - 1 {
      assert Stands(w1, x, k, b);
      if k == 1 { RunsWhenDue(b, w.tick); }
      assert Wait(k, b, w.tick) != 1;
      WaitGoesDown(k, b, w.tick);
    }
  }

  // ---- Counting a task ----

  function CountIn(buckets: Buckets, x: Task): nat {
    if buckets == [] then 0 else multiset(buckets[0])[x] + CountIn(buckets[1..], x)
  }

  lemma {:induction false} CountUpdate(buckets: Buckets, b: nat, tasks: seq<Task>, x: Task)
    requires b < |buckets|
    ensures CountIn(buckets[b := tasks], x) == CountIn(buckets, x) - multiset(buckets[b])[x] + multiset(tasks)[x]
  {
    if b == 0 {
      assert buckets[b := tasks][1..] == buckets[1..];
    } else {
      assert buckets[b := tasks][1..] == buckets[1..][b - 1 := tasks];
      CountUpdate(buckets[1..], b - 1, tasks, x);
    }
  }

  lemma {:induction false} CountNone(buckets: Buckets, x: Task)
    requires forall b :: 0 <= b < |buckets| ==> x !in buckets[b]
    ensures CountIn(buckets, x) == 0
  {
    if buckets != [] { CountNone(buckets[1..], x); }
  }

  lemma {:induction false} DistributeCount(tasks: seq<Task>, below: Buckets, k: Level, tick: nat, now: int,
                                           cancelled: set<nat>, x: Task)
    requires 2 <= k && |below| == Size(k - 1) && x.id !in cancelled
    ensures CountIn(Distribute(tasks, below, k, tick, now, cancelled), x) == CountIn(below, x) + multiset(tasks)[x]
    decreases |tasks|
  {
    hide Target;
    if tasks != [] {
      var y := tasks[0];
      assert tasks == [y] + tasks[1..];
      if y.id in cancelled {
        DistributeCount(tasks[1..], below, k, tick, now, cancelled, x);
      } else {
        var b := Target(k, tick, now, y.expire);
        CountUpdate(below, b, below[b] + [y], x);
        DistributeCount(tasks[1..], Put(below, b, y), k, tick, now, cancelled, x);
      }
    }
  }

  ghost function Total(w: Wheel, x: Task): nat
    requires Shaped(w)
  {
    CountIn(w.levels[0], x) + CountIn(w.levels[1], x) + CountIn(w.levels[2], x)
    + CountIn(w.levels[3], x) + CountIn(w.levels[4], x)
  }

  lemma CascadedTotal(w: Wheel, k: Level, now: int, cancelled: set<nat>, x: Task)
    requires Shaped(w) && 2 <= k && x.id !in cancelled
    ensures Total(Cascaded(w, k, now, cancelled), x) == Total(w, x)
  {
    hide Distribute, CountIn, Moves, Hand;
    HandInRange(k, Next(w.tick));
    var b := Hand(k, Next(w.tick));
    CountUpdate(w.levels[k - 1], b, [], x);
    DistributeCount(w.levels[k - 1][b], w.levels[k - 2], k, w.tick, now, cancelled, x);
  }

  lemma {:induction false} DueCount(tasks: seq<Task>, cancelled: set<nat>, x: Task)
    requires x.id !in cancelled
    ensures multiset(Due(tasks, cancelled))[x] == multiset(tasks)[x]
  {
    if tasks != [] {
      assert tasks == [tasks[0]] + tasks[1..];
      DueCount(tasks[1..], cancelled, x);
    }
  }

  lemma AllCascadedTotal(w: Wheel, now: int, cancelled: set<nat>, x: Task)
    requires Shaped(w) && x.id !in cancelled
    ensures Total(AllCascaded(w, now, cancelled), x) == Total(w, x)
  {
    hide Cascaded, Total, Shaped;
    var w5 := Cascaded(w, 5, now, cancelled);
    var w4 := Cascaded(w5, 4, now, cancelled);
    var w3 := Cascaded(w4, 3, now, cancelled);
    CascadedTotal(w, 5, now, cancelled, x);
    CascadedTotal(w5, 4, now, cancelled, x);
    CascadedTotal(w4, 3, now, cancelled, x);
    CascadedTotal(w3, 2, now, cancelled, x);
  }

  /** Nothing is lost or doubled: what was in the wheel either ran at this tick or is still there. */
  lemma TickTotal(w: Wheel, now: int, cancelled: set<nat>, x: Task)
    requires Shaped(w) && x.id !in cancelled
    ensures Total(w, x) == Total(Ticked(w, now, cancelled), x) + multiset(Fired(w, now, cancelled))[x]
  {
    AllCascadedTotal(w, now, cancelled, x);
    var w1 := AllCascaded(w, now, cancelled);
    hide AllCascaded, CountIn;
    HandInRange(1, w.tick);
    CountUpdate(w1.levels[0], Hand(1, w.tick), [], x);
    DueCount(w1.levels[0][Hand(1, w.tick)], cancelled, x);
  }

  // ---- Runs ----

  /** Between ticks callers add and cancel tasks; at a tick the loop body runs with whatever time the
      clock shows. */
  datatype Event = Add(x: Task, delay: nat) | Cancel(id: nat) | Tick(now: int)

  datatype System = System(w: Wheel, cancelled: set<nat>)

  ghost function After(s: System, e: Event): (r: System)
    requires Shaped(s.w)
    ensures Shaped(r.w)
  {
    match e
    case Add(x, delay) => s.(w := Inserted(s.w, x, delay))
    case Cancel(id) => s.(cancelled := s.cancelled + {id})
    case Tick(now) => s.(w := Ticked(s.w, now, s.cancelled))
  }

  ghost function FiresNow(s: System, e: Event, x: Task): nat
    requires Shaped(s.w)
  {
    if e.Tick? then multiset(Fired(s.w, e.now, s.cancelled))[x] else 0
  }

  /** How often the timer runs during the events. */
  ghost function Firings(s: System, es: seq<Event>, x: Task): nat
    requires Shaped(s.w)
    decreases |es|
  {
    if es == [] then 0 else FiresNow(s, es[0], x) + Firings(After(s, es[0]), es[1..], x)
  }

  ghost function End(s: System, es: seq<Event>): (r: System)
    requires Shaped(s.w)
    ensures Shaped(r.w)
    decreases |es|
  {
    if es == [] then s else End(After(s, es[0]), es[1..])
  }

  function Ticks(es: seq<Event>): nat {
    if es == [] then 0 else (if es[0].Tick? then 1 else 0) + Ticks(es[1..])
  }

  /** Nobody cancels the timer or adds it again. */
  predicate Untouched(e: Event, x: Task) {
    match e case Add(y, _) => y.id != x.id case Cancel(id) => id != x.id case Tick(_) => true
  }

  predicate AllUntouched(es: seq<Event>, x: Task) { forall i :: 0 <= i < |es| ==> Untouched(es[i], x) }

  ghost predicate Alive(s: System, x: Task) { Shaped(s.w) && x.id !in s.cancelled }

  lemma OtherInserted(w: Wheel, y: Task, delay: nat, x: Task)
    requires Shaped(w) && y != x
    ensures Total(Inserted(w, y, delay), x) == Total(w, x) && Inserted(w, y, delay).tick == w.tick
    ensures forall j: Level, c: nat :: Stands(Inserted(w, y, delay), x, j, c) ==> Stands(w, x, j, c)
  {
    hide Choose, CountIn;
    var (k, b) := Choose(w.tick, delay / TICK_GAP);
    CountUpdate(w.levels[k - 1], b, w.levels[k - 1][b] + [y], x);
  }

  /** No event loses or doubles the timer. */
  lemma EventTotal(s: System, e: Event, x: Task)
    requires Alive(s, x) && Untouched(e, x)
    ensures Alive(After(s, e), x) && Total(s.w, x) == FiresNow(s, e, x) + Total(After(s, e).w, x)
  {
    hide Total, Fired, Ticked, Inserted;
    match e {
      case Add(y, delay) => OtherInserted(s.w, y, delay, x);
      case Cancel(_) =>
      case Tick(now) => TickTotal(s.w, now, s.cancelled, x);
    }
  }

  /** A tick brings the timer closer; nothing else moves it. */
  lemma EventStep(s: System, e: Event, x: Task, r: int)
    requires Alive(s, x) && Within(s.w, x, r) && Untouched(e, x)
    ensures Within(After(s, e).w, x, if e.Tick? then r - 1 else r)
  {
    hide Total, Fired, Ticked, Inserted, Remaining;
    match e {
      case Add(y, delay) => OtherInserted(s.w, y, delay, x);
      case Cancel(_) =>
      case Tick(now) => TickWithin(s.w, now, s.cancelled, x, r);
    }
  }

  lemma {:induction false} RunStep(s: System, es: seq<Event>, x: Task, r: int)
    requires Alive(s, x) && Within(s.w, x, r) && AllUntouched(es, x)
    ensures Within(End(s, es).w, x, r - Ticks(es))
    ensures Total(s.w, x) == Firings(s, es, x) + Total(End(s, es).w, x)
    decreases |es|
  {
    hide Within, Total, After, FiresNow;
    if es != [] {
      assert Untouched(es[0], x);
      EventStep(s, es[0], x, r);
      EventTotal(s, es[0], x);
      RunStep(After(s, es[0]), es[1..], x, if es[0].Tick? then r - 1 else r);
    }
  }

  lemma LevelEmpty(w: Wheel, x: Task, r: int, k: Level)
    requires Shaped(w) && Within(w, x, r) && r <= 0
    ensures CountIn(w.levels[k - 1], x) == 0
  {
    var buckets := w.levels[k - 1];
    forall b: nat | b < |buckets| ensures x !in buckets[b] {
      assert Stands(w, x, k, b) ==> 1 <= Remaining(k, b, w.tick) <= r;
    }
    CountNone(buckets, x);
  }

  lemma NothingLeft(w: Wheel, x: Task, r: int)
    requires Shaped(w) && Within(w, x, r) && r <= 0
    ensures Total(w, x) == 0
  {
    hide Within, CountIn;
    LevelEmpty(w, x, r, 1);
    LevelEmpty(w, x, r, 2);
    LevelEmpty(w, x, r, 3);
    LevelEmpty(w, x, r, 4);
    LevelEmpty(w, x, r, 5);
  }

  /** The most ticks a delay can take: one turn of its level and one unit. */
  function Bound(delay: nat): nat {
    var k := Choose(0, delay / TICK_GAP).0;
    Span(k) + Unit(k) - 1
  }

  lemma BoundValue(delay: nat)
    ensures Bound(delay) < 0x1_0000_0000 + 0x400_0000
  {}

  lemma InsertedPlace(w: Wheel, x: Task, delay: nat)
    requires Shaped(w) && Total(w, x) == 0
    ensures Total(Inserted(w, x, delay), x) == 1 && Within(Inserted(w, x, delay), x, Bound(delay))
  {
    var (k, b) := Choose(w.tick, delay / TICK_GAP);
    assert k == Choose(0, delay / TICK_GAP).0;
    InsertedAt(w, x, delay, k, b);
    var w' := Inserted(w, x, delay);
    forall j: Level, c: nat | Stands(w', x, j, c) ensures Remaining(j, c, w'.tick) <= Bound(delay) {
      StandsOnlyThere(w, x, delay, j, c);
    }
  }

  lemma {:induction false} CountSome(buckets: Buckets, b: nat, x: Task)
    requires b < |buckets|
    ensures x in buckets[b] ==> 0 < CountIn(buckets, x)
  {
    if b > 0 { CountSome(buckets[1..], b - 1, x); }
  }

  lemma NotStanding(w: Wheel, x: Task, k: Level, b: nat)
    requires Shaped(w) && Total(w, x) == 0
    ensures !Stands(w, x, k, b)
  {
    if b < Size(k) { CountSome(w.levels[k - 1], b, x); }
    hide CountIn;
    assert CountIn(w.levels[k - 1], x) <= Total(w, x);
  }

  lemma InsertedAt(w: Wheel, x: Task, delay: nat, k: Level, b: nat)
    requires Shaped(w) && (k, b) == Choose(w.tick, delay / TICK_GAP)
    ensures Total(Inserted(w, x, delay), x) == Total(w, x) + 1
  {
    hide CountIn, Choose;
    CountUpdate(w.levels[k - 1], b, w.levels[k - 1][b] + [x], x);
  }

  lemma StandsOnlyThere(w: Wheel, x: Task, delay: nat, j: Level, c: nat)
    requires Shaped(w) && Total(w, x) == 0 && Stands(Inserted(w, x, delay), x, j, c)
    ensures (j, c) == Choose(w.tick, delay / TICK_GAP)
  {
    hide Choose;
    NotStanding(w, x, j, c);
  }

  /** Whatever the clock shows and whatever else is added or cancelled, a task that is not cancelled
      runs exactly once, within the bound of its level, across the wrap of the tick. */
  lemma FiresExactlyOnce(s: System, x: Task, delay: nat, es: seq<Event>)
    requires Alive(s, x) && Total(s.w, x) == 0 && AllUntouched(es, x)
    ensures Firings(After(s, Add(x, delay)), es, x) <= 1
    ensures Bound(delay) <= Ticks(es) ==> Firings(After(s, Add(x, delay)), es, x) == 1
  {
    hide Within, Total, Inserted, Bound;
    InsertedPlace(s.w, x, delay);
    var s1 := After(s, Add(x, delay));
    RunStep(s1, es, x, Bound(delay));
    if Bound(delay) <= Ticks(es) { NothingLeft(End(s1, es).w, x, Bound(delay) - Ticks(es)); }
  }

  lemma {:induction false} NotDue(tasks: seq<Task>, cancelled: set<nat>, x: Task)
    requires x.id in cancelled
    ensures multiset(Due(tasks, cancelled))[x] == 0
  {
    if tasks != [] { NotDue(tasks[1..], cancelled, x); }
  }

  lemma {:induction false} StaysCancelled(s: System, x: Task, es: seq<Event>)
    requires Shaped(s.w) && x.id in s.cancelled
    ensures Firings(s, es, x) == 0
    decreases |es|
  {
    hide Ticked, Inserted, AllCascaded;
    if es != [] {
      if es[0].Tick? { NotDue(AllCascaded(s.w, es[0].now, s.cancelled).levels[0][Hand(1, s.w.tick)], s.cancelled, x); }
      StaysCancelled(After(s, es[0]), x, es[1..]);
    }
  }

  /** After clearTimeout a timer never runs, wherever it stood, whatever the clock shows and whatever is
      done afterwards, adding it again included. */
  lemma CancelledNeverRuns(s: System, x: Task, es: seq<Event>)
    requires Shaped(s.w)
    ensures Firings(After(s, Cancel(x.id)), es, x) == 0
  {
    StaysCancelled(After(s, Cancel(x.id)), x, es);
  }
}
