/** With an ideal clock (now = start + 5 * tick) a task on the first two levels runs at its due tick,
    or one tick earlier when it goes through level two and is due at the last tick of a turn. */
module TimerWheelPrecision {

  import opened Arithmetic
  import opened TimerWheel
  import opened TimerWheelProof
  import opened TimerWheelTheorems

  /** The tick at which level two hands the bucket of due tick d down. */
  function HandDown(d: nat): int { d / 256 * 256 - 1 }

  /** The tick at which a task runs, given the tick n before which it is added. */
  function FiringTick(n: nat, gaps: nat): int {
    var d := n + gaps;
    if gaps <= CHECK_ONE then d
    else if d % 256 == 255 then d - 1
    else d
  }

  /** Before tick n (counted without wrap) the timer stands only where it will run at tick f. */
  ghost predicate Aimed(w: Wheel, x: Task, n: nat, f: int, d: nat)
    requires Shaped(w)
  {
    forall k: Level, b: nat :: Stands(w, x, k, b) ==> AimedAt(w.tick, n, f, d, k, b)
  }

  predicate AimedAt(tick: nat, n: nat, f: int, d: nat, k: Level, b: nat) {
    && k <= 2
    && (k == 1 ==> Wait(1, b, tick) == f - n + 1)
    && (k == 2 ==> Wait(2, b, tick) == HandDown(d) - n + 1 && f == HandDown(d) + Min(d % 256 + 1, CHECK_ONE))
  }

  /** The clock at a tick, and at an insertion before that tick. */
  function Clock(start: int, n: nat): int { start + TICK_GAP * n }

  lemma TargetOnTime(tick: nat, start: int, n: nat, expire: int, d: nat)
    requires n == HandDown(d) && 0 <= expire - Clock(start, d) < TICK_GAP
    ensures Wait(1, Target(2, tick, Clock(start, n), expire), tick) == Min(d % 256 + 1, CHECK_ONE) + 1
  {
    var gaps := (expire - Clock(start, n)) / TICK_GAP;
    assert gaps == d - n == d % 256 + 1;
    var g := Min(gaps, CHECK_ONE);
    hide Target;
    assert Target(2, tick, Clock(start, n), expire) == (tick % 256 + g) % 256 by { HandOne(tick); TargetTwo(tick, Clock(start, n), expire); }
  }

  lemma HandOne(tick: nat)
    ensures Hand(1, tick) == tick % 256
  {}

  lemma TargetTwo(tick: nat, now: int, expire: int)
    requires now <= expire
    ensures Target(2, tick, now, expire) == (Hand(1, tick) + Min((expire - now) / TICK_GAP, CHECK_ONE)) % 256
  {}

  /** Levels three to five have nothing to hand down. */
  lemma CascadeAbove(w: Wheel, k: Level, now: int, cancelled: set<nat>, x: Task, n: nat, f: int, d: nat)
    requires Shaped(w) && 3 <= k && Aimed(w, x, n, f, d)
    ensures Aimed(Cascaded(w, k, now, cancelled), x, n, f, d)
  {
    hide Target, Hand, Moves, Wait;
    var w' := Cascaded(w, k, now, cancelled);
    forall j: Level, b: nat | Stands(w', x, j, b) ensures AimedAt(w'.tick, n, f, d, j, b) {
      CascadedOrigin(w, k, now, cancelled, x, j, b);
    }
  }

  /** Level two hands the timer down exactly at its time, into the bucket that runs at tick f. */
  lemma CascadeTwo(w: Wheel, start: int, cancelled: set<nat>, x: Task, n: nat, f: int, d: nat)
    requires Shaped(w) && Aimed(w, x, n, f, d) && 0 <= x.expire - Clock(start, d) < TICK_GAP
    ensures Aimed(Cascaded(w, 2, Clock(start, n), cancelled), x, n, f, d)
    ensures Settled(Cascaded(w, 2, Clock(start, n), cancelled), x, 2)
  {
    var w' := Cascaded(w, 2, Clock(start, n), cancelled);
    forall j: Level, b: nat | Stands(w', x, j, b)
      ensures AimedAt(w'.tick, n, f, d, j, b) && (j == 2 ==> Wait(2, b, w'.tick) != 1)
    {
      CascadeTwoPlace(w, start, cancelled, x, n, f, d, j, b);
    }
  }

  lemma CascadeTwoPlace(w: Wheel, start: int, cancelled: set<nat>, x: Task, n: nat, f: int, d: nat, j: Level, b: nat)
    requires Shaped(w) && Aimed(w, x, n, f, d) && 0 <= x.expire - Clock(start, d) < TICK_GAP
    requires Stands(Cascaded(w, 2, Clock(start, n), cancelled), x, j, b)
    ensures AimedAt(w.tick, n, f, d, j, b) && (j == 2 ==> Wait(2, b, w.tick) != 1)
  {
    hide Target, Hand, Moves, Wait, Cascaded, Clock;
    CascadedOrigin(w, 2, Clock(start, n), cancelled, x, j, b);
    if j == 2 { MovesWhenDue(2, b, w.tick); }
    if !Stands(w, x, j, b) {
      MovesWhenDue(2, Hand(2, Next(w.tick)), w.tick);
      TargetOnTime(w.tick, start, n, x.expire, d);
    }
  }

  lemma AllCascadedAimed(w: Wheel, start: int, cancelled: set<nat>, x: Task, n: nat, f: int, d: nat)
    requires Shaped(w) && Aimed(w, x, n, f, d) && 0 <= x.expire - Clock(start, d) < TICK_GAP
    ensures Aimed(AllCascaded(w, Clock(start, n), cancelled), x, n, f, d)
    ensures Settled(AllCascaded(w, Clock(start, n), cancelled), x, 2)
  {
    hide Cascaded, Aimed, Settled, Shaped;
    var now := Clock(start, n);
    var w5 := Cascaded(w, 5, now, cancelled);
    var w4 := Cascaded(w5, 4, now, cancelled);
    CascadeAbove(w, 5, now, cancelled, x, n, f, d);
    CascadeAbove(w5, 4, now, cancelled, x, n, f, d);
    CascadeAbove(w4, 3, now, cancelled, x, n, f, d);
    CascadeTwo(Cascaded(w4, 3, now, cancelled), start, cancelled, x, n, f, d);
  }

  /** A tick of the ideal clock keeps the aim. */
  lemma TickAimed(w: Wheel, start: int, cancelled: set<nat>, x: Task, n: nat, f: int, d: nat)
    requires Shaped(w) && Aimed(w, x, n, f, d) && 0 <= x.expire - Clock(start, d) < TICK_GAP
    ensures Aimed(Ticked(w, Clock(start, n), cancelled), x, n + 1, f, d)
    ensures x in Fired(w, Clock(start, n), cancelled) ==> n == f
  {
    AllCascadedAimed(w, start, cancelled, x, n, f, d);
    var now := Clock(start, n);
    var w1 := AllCascaded(w, now, cancelled);
    var w' := Ticked(w, now, cancelled);
    hide AllCascaded, Clock, Wait, Hand;
    forall k: Level, b: nat | Stands(w', x, k, b) ensures AimedAt(w'.tick, n + 1, f, d, k, b) {
      assert Stands(w1, x, k, b);
      if k == 1 { RunsWhenDue(b, w.tick); }
      WaitGoesDown(k, b, w.tick);
    }
    RunsAtAim(w1, x, n, f, d, cancelled);
  }

  lemma RunsAtAim(w: Wheel, x: Task, n: nat, f: int, d: nat, cancelled: set<nat>)
    requires Shaped(w) && Aimed(w, x, n, f, d)
    ensures Hand(1, w.tick) < 256 && (x in Due(w.levels[0][Hand(1, w.tick)], cancelled) ==> n == f)
  {
    HandInRange(1, w.tick);
    var b := Hand(1, w.tick);
    hide Hand;
    DueMember(w.levels[0][b], cancelled, x);
    RunsWhenDue(b, w.tick);
    assert Stands(w, x, 1, b) ==> AimedAt(w.tick, n, f, d, 1, b);
  }

  lemma {:induction false} DueMember(tasks: seq<Task>, cancelled: set<nat>, x: Task)
    ensures x in Due(tasks, cancelled) ==> x in tasks
  {
    if tasks != [] { DueMember(tasks[1..], cancelled, x); }
  }

  // ---- Insertion aims ----

  lemma ChooseAims(tick: nat, n: nat, gaps: nat)
    requires tick == n % WORD && gaps <= CHECK_TWO
    ensures var (k, b) := Choose(tick, gaps); AimedAt(tick, n, FiringTick(n, gaps), n + gaps, k, b)
  {
    if gaps <= CHECK_ONE {
      ChooseOne(tick, gaps);
    } else {
      ChooseTwo(tick, n, gaps);
      LastOfTurn(n + gaps);
    }
    hide Choose, Wait, HandDown;
  }

  lemma ChooseOne(tick: nat, gaps: nat)
    requires gaps <= CHECK_ONE
    ensures Choose(tick, gaps).0 == 1 && Wait(1, Choose(tick, gaps).1, tick) == gaps + 1
  {
    var b := (tick % 256 + gaps) % 256;
    var k := (tick % 256 + gaps) / 256;
    assert b - tick == 256 * (-(tick / 256) - k) + gaps;
    ModUnique(b - tick, 256, gaps, -(tick / 256) - k);
  }

  /** The due tick from the tick at which level two hands down. */
  lemma LastOfTurn(d: nat)
    ensures HandDown(d) + Min(d % 256 + 1, CHECK_ONE) == if d % 256 == 255 then d - 1 else d
  {}

  lemma ChooseTwo(tick: nat, n: nat, gaps: nat)
    requires tick == n % WORD && CHECK_ONE < gaps <= CHECK_TWO
    ensures Choose(tick, gaps) == (2, (tick + gaps) / 256 % 64)
    ensures Wait(2, (tick + gaps) / 256 % 64, tick) == HandDown(n + gaps) - n + 1
  {
    var q, q1 := tick / 256, (tick + gaps) / 256;
    WaitForm(2, q1 % 64, tick);
    hide Wait;
    assert 1 <= q1 - q <= 63;
    DistanceModulo(q1, q);
    assert n + gaps == WORD * (n / WORD) + (tick + gaps);
    assert n + gaps == 256 * (0x100_0000 * (n / WORD) + q1) + (tick + gaps) % 256;
    ModUnique(n + gaps, 256, (tick + gaps) % 256, 0x100_0000 * (n / WORD) + q1);
  }

  lemma DistanceModulo(q1: nat, q: nat)
    requires 1 <= q1 - q <= 63
    ensures (q1 % 64 - q - 1) % 64 == q1 - q - 1
  {
    ModUnique(q1 % 64 - q - 1, 64, q1 - q - 1, -(q1 / 64));
  }

  // ---- Runs under an ideal clock ----

  /** Every tick reads the time that belongs to it; the first one is number n. */
  predicate Ideal(es: seq<Event>, start: int, n: nat) {
    if es == [] then true
    else if es[0].Tick? then es[0].now == Clock(start, n) && Ideal(es[1..], start, n + 1)
    else Ideal(es[1..], start, n)
  }

  lemma {:induction false} FiringsBound(s: System, es: seq<Event>, x: Task)
    requires Alive(s, x) && AllUntouched(es, x)
    ensures Firings(s, es, x) <= Total(s.w, x)
    decreases |es|
  {
    hide Total, After, FiresNow;
    if es != [] {
      assert Untouched(es[0], x);
      EventTotal(s, es[0], x);
      FiringsBound(After(s, es[0]), es[1..], x);
    }
  }

  lemma EventAimed(s: System, e: Event, start: int, x: Task, n: nat, f: int, d: nat)
    requires Alive(s, x) && Aimed(s.w, x, n, f, d) && Untouched(e, x) && 0 <= x.expire - Clock(start, d) < TICK_GAP
    requires e.Tick? ==> e.now == Clock(start, n)
    ensures Aimed(After(s, e).w, x, if e.Tick? then n + 1 else n, f, d)
    ensures FiresNow(s, e, x) > 0 ==> n == f
  {
    hide Total, Fired, Ticked, Inserted, AimedAt, Clock;
    match e {
      case Add(y, delay) => OtherInserted(s.w, y, delay, x);
      case Cancel(_) =>
      case Tick(now) => TickAimed(s.w, start, s.cancelled, x, n, f, d);
    }
  }

  /** Once its tick is over the timer stands nowhere. */
  lemma AimPassed(w: Wheel, x: Task, n: nat, f: int, d: nat)
    requires Shaped(w) && Aimed(w, x, n, f, d) && f < n
    ensures Total(w, x) == 0
  {
    forall k: Level, b: nat ensures Stands(w, x, k, b) ==> Remaining(k, b, w.tick) <= 0 {
      assert Stands(w, x, k, b) ==> AimedAt(w.tick, n, f, d, k, b);
    }
    NothingLeft(w, x, 0);
  }

  lemma {:induction false} RunAimed(s: System, es: seq<Event>, start: int, x: Task, n: nat, f: int, d: nat)
    requires Alive(s, x) && Aimed(s.w, x, n, f, d) && Total(s.w, x) == 1 && AllUntouched(es, x)
    requires 0 <= x.expire - Clock(start, d) < TICK_GAP && Ideal(es, start, n) && n <= f
    ensures Firings(s, es, x) == if f - n < Ticks(es) then 1 else 0
    decreases |es|
  {
    hide Total, After, FiresNow, Aimed, Clock;
    if es != [] {
      assert Untouched(es[0], x) && AllUntouched(es[1..], x);
      var s1 := After(s, es[0]);
      EventTotal(s, es[0], x);
      EventAimed(s, es[0], start, x, n, f, d);
      if !es[0].Tick? {
        NotFiring(s, es[0], x);
        RunAimed(s1, es[1..], start, x, n, f, d);
      } else if n < f {
        RunAimed(s1, es[1..], start, x, n + 1, f, d);
      } else {
        AimPassedAlive(s1, x, n + 1, f, d);
        FiringsBound(s1, es[1..], x);
      }
    }
  }

  lemma AimPassedAlive(s: System, x: Task, n: nat, f: int, d: nat)
    requires Alive(s, x) && Aimed(s.w, x, n, f, d) && f < n
    ensures Total(s.w, x) == 0
  {
    AimPassed(s.w, x, n, f, d);
  }

  lemma NotFiring(s: System, e: Event, x: Task)
    requires Alive(s, x) && !e.Tick?
    ensures FiresNow(s, e, x) == 0
  {}

  lemma InsertedAims(s: System, x: Task, delay: nat, n: nat)
    requires Alive(s, x) && Total(s.w, x) == 0 && s.w.tick == n % WORD && delay / TICK_GAP <= CHECK_TWO
    ensures Aimed(Inserted(s.w, x, delay), x, n, FiringTick(n, delay / TICK_GAP), n + delay / TICK_GAP)
  {
    hide Choose, AimedAt, FiringTick;
    var gaps := delay / TICK_GAP;
    ChooseAims(s.w.tick, n, gaps);
    forall k: Level, b: nat | Stands(Inserted(s.w, x, delay), x, k, b)
      ensures AimedAt(s.w.tick, n, FiringTick(n, gaps), n + gaps, k, b)
    {
      StandsOnlyThere(s.w, x, delay, k, b);
    }
  }

  /** A task of at most 0x3F00 ticks, added before tick n of an ideal clock, runs at tick
      d = n + delay / 5, or at d - 1 if it goes through level two and d is the last tick of a turn:
      not before it, and once it has passed, exactly once. */
  lemma RunsAtDueTick(s: System, x: Task, delay: nat, start: int, n: nat, es: seq<Event>)
    requires Alive(s, x) && Total(s.w, x) == 0 && AllUntouched(es, x)
    requires s.w.tick == n % WORD && Ideal(es, start, n)
    requires x.expire == Clock(start, n) + delay && delay / TICK_GAP <= CHECK_TWO
    ensures Firings(After(s, Add(x, delay)), es, x) ==
      if FiringTick(n, delay / TICK_GAP) < n + Ticks(es) then 1 else 0
  {
    var d := n + delay / TICK_GAP;
    assert 0 <= x.expire - Clock(start, d) < TICK_GAP;
    hide Total, Aimed, Inserted, FiringTick, Within, Bound;
    InsertedAims(s, x, delay, n);
    InsertedPlace(s.w, x, delay);
    FiringTickAhead(n, delay / TICK_GAP);
    RunAimed(After(s, Add(x, delay)), es, start, x, n, FiringTick(n, delay / TICK_GAP), d);
  }

  lemma FiringTickAhead(n: nat, gaps: nat)
    ensures n <= FiringTick(n, gaps) <= n + gaps
  {}
}
