/** When the hands of the wheel move, how long a bucket waits, and where a timer goes when it is handed
    down. */
module TimerWheelProof {

  import opened Arithmetic
  import opened TimerWheel

  // ---- How long a task can still take, by where it stands ----

  /** Ticks, this one included, until bucket b of a level is handed down (or run, at level one). */
  function Wait(k: Level, b: nat, tick: nat): (r: nat)
    ensures 1 <= r <= Span(k)
  {
    if k == 1 then (b - tick) % 256 + 1 else (b * Unit(k) - 1 - tick) % Span(k) + 1
  }

  /** Once handed down, a task runs within one unit of the level it leaves. */
  function Remaining(k: Level, b: nat, tick: nat): (r: nat)
    ensures 1 <= r
  {
    Wait(k, b, tick) + Unit(k) - 1
  }

  // ---- Arithmetic ----

  /** Reducing to a larger multiple first changes nothing. */
  lemma ModOfMultiple(a: int, m: int, k: int)
    requires 0 < m
    ensures (a - m * k) % m == a % m
  {
    assert a - m * k == m * (a / m - k) + a % m;
    ModUnique(a - m * k, m, a % m, a / m - k);
  }

  /** Splitting off the low part of a number in a mixed radix. */
  lemma ModSplit(x: int, y: int, u: int, n: int)
    requires 0 < u && 0 < n && 0 <= y < u
    ensures 0 < u * n && (u * x + y) % (u * n) == u * (x % n) + y
  {
    var r := u * (x % n) + y;
    assert u * (x % n) <= u * (n - 1);
    assert u * x + y == (u * n) * (x / n) + r by {
      assert (u * n) * (x / n) == u * (n * (x / n));
      assert u * (n * (x / n)) + u * (x % n) == u * (n * (x / n) + x % n);
    }
    ModUnique(u * x + y, u * n, r, x / n);
  }

  /** The hand of a level counts whole units. */
  lemma HandCounts(k: Level, tick: nat)
    ensures Hand(k, tick) == tick / Unit(k) % Size(k)
  {
    var u := Unit(k);
    ModSplit(tick / u, tick % u, u, Size(k));
    assert tick == u * (tick / u) + tick % u;
    ModUnique(tick % Span(k), u, tick % u, tick / u % Size(k));
  }

  /** The 32-bit counter wraps at a multiple of every span. */
  function Turns(k: Level): nat {
    match k case 1 => 0x100_0000 case 2 => 0x4_0000 case 3 => 0x1000 case 4 => 64 case _ => 1
  }

  lemma HandWraps(k: Level, tick: nat)
    requires tick < WORD
    ensures Hand(k, Next(tick)) == Hand(k, tick + 1)
  {
    ModOfMultiple(tick + 1, Span(k), Turns(k));
  }

  lemma NextUnit(u: nat, tick: nat)
    requires 0 < u
    ensures (tick + 1) % u == 0 <==> tick % u == u - 1
    ensures (tick + 1) / u == if tick % u == u - 1 then tick / u + 1 else tick / u
    ensures (tick + 1) % u == if tick % u == u - 1 then 0 else tick % u + 1
  {
    var q, r := tick / u, tick % u;
    assert tick == u * q + r;
    if r == u - 1 {
      assert tick + 1 == u * (q + 1) + 0;
      ModUnique(tick + 1, u, 0, q + 1);
    } else {
      ModUnique(tick + 1, u, r + 1, q);
    }
  }

  // ---- When a hand moves ----

  lemma Successor(q: int, q1: int)
    requires q1 == q || q1 == q + 1
    ensures (q % 64 + 1) % 64 == q1 % 64 <==> q1 == q + 1
  {}

  lemma MovesAtUnit(k: Level, tick: nat)
    requires 2 <= k && tick < WORD
    ensures Moves(k, tick) <==> tick % Unit(k) == Unit(k) - 1
    ensures Hand(k, Next(tick)) == (tick + 1) / Unit(k) % 64
  {
    hide Hand, Unit, Next;
    HandWraps(k, tick);
    HandCounts(k, tick);
    HandCounts(k, tick + 1);
    NextUnit(Unit(k), tick);
    Successor(tick / Unit(k), (tick + 1) / Unit(k));
  }

  /** The wait in closed form. */
  lemma WaitForm(k: Level, b: nat, tick: nat)
    requires 2 <= k
    ensures Wait(k, b, tick) == Unit(k) * ((b - tick / Unit(k) - 1) % 64) + (Unit(k) - tick % Unit(k))
  {
    var u, q, r := Unit(k), tick / Unit(k), tick % Unit(k);
    assert tick == u * q + r;
    assert b * u - 1 - tick == u * (b - q - 1) + (u - 1 - r);
    ModSplit(b - q - 1, u - 1 - r, u, 64);
  }

  lemma LastOne(u: nat, m: nat, r: nat)
    requires r < u
    ensures u * m + (u - r) == 1 <==> m == 0 && r == u - 1
  {
    MultipleSize(u, m);
  }

  lemma SameBucket(b: nat, q: int)
    requires b < 64
    ensures (b - q - 1) % 64 == 0 <==> b == (q + 1) % 64
  {}

  /** The bucket that is handed down is the one with no more wait. */
  lemma MovesWhenDue(k: Level, b: nat, tick: nat)
    requires 2 <= k && tick < WORD && b < 64
    ensures Moves(k, tick) && b == Hand(k, Next(tick)) <==> Wait(k, b, tick) == 1
  {
    hide Hand, Unit, Next, Moves, Wait;
    MovesAtUnit(k, tick);
    WaitForm(k, b, tick);
    NextUnit(Unit(k), tick);
    LastOne(Unit(k), (b - tick / Unit(k) - 1) % 64, tick % Unit(k));
    SameBucket(b, tick / Unit(k));
  }

  lemma WaitWraps(k: Level, b: nat, tick: nat)
    requires tick < WORD
    ensures Wait(k, b, Next(tick)) == Wait(k, b, tick + 1)
  {
    if tick + 1 == WORD {
      var minus: int := -(Turns(k) as int);
      if k == 1 { ModOfMultiple(b - WORD, 256, minus); }
      else { ModOfMultiple(b * Unit(k) - 1 - WORD, Span(k), minus); }
    }
  }

  lemma StepDown(q: int, b: nat)
    ensures (b - q - 1) % 64 != 0 ==> (b - (q + 1) - 1) % 64 == (b - q - 1) % 64 - 1
  {}

  lemma OneLess(u: nat, m: int, m1: int, r: nat, r1: nat)
    requires if r == u - 1 then r1 == 0 && m1 == m - 1 else r1 == r + 1 && m1 == m
    ensures u * m1 + (u - r1) == u * m + (u - r) - 1
  {
    assert u * (m - 1) + u == u * m;
  }

  lemma WaitGoesDown(k: Level, b: nat, tick: nat)
    requires tick < WORD && Wait(k, b, tick) != 1
    ensures Wait(k, b, Next(tick)) == Wait(k, b, tick) - 1
  {
    WaitWraps(k, b, tick);
    if k > 1 { WaitGoesDownHigh(k, b, tick); }
  }

  lemma WaitGoesDownHigh(k: Level, b: nat, tick: nat)
    requires 2 <= k && Wait(k, b, tick) != 1
    ensures Wait(k, b, tick + 1) == Wait(k, b, tick) - 1
  {
    hide Unit, Next, Wait;
    var u, q, r := Unit(k), tick / Unit(k), tick % Unit(k);
    var q1, r1 := (tick + 1) / u, (tick + 1) % u;
    WaitForm(k, b, tick);
    WaitForm(k, b, tick + 1);
    NextUnit(u, tick);
    StepDown(q, b);
    LastOne(u, (b - q - 1) % 64, r);
    OneLess(u, (b - q - 1) % 64, (b - q1 - 1) % 64, r, r1);
  }

  lemma RunsWhenDue(b: nat, tick: nat)
    requires b < 256
    ensures b == Hand(1, tick) <==> Wait(1, b, tick) == 1
  {}

  // ---- Where handing down leads ----

  lemma TargetLow(tick: nat, now: int, expire: int)
    ensures Wait(1, Target(2, tick, now, expire), tick) <= 256
  {}

  lemma Below64(d: nat, q: int)
    requires d < 64 && q % 64 == 63
    ensures (d - q - 1) % 64 == d
  {}

  /** Below level two the hand is at zero when the level above moves. */
  lemma TargetHigh(k: Level, tick: nat, now: int, expire: int)
    requires 3 <= k && tick < WORD && Moves(k, tick)
    ensures Remaining(k - 1, Target(k, tick, now, expire), tick) <= Unit(k)
  {
    var j: Level := k - 1;
    assert Unit(k) == 64 * Unit(j);
    MovesAtUnit(k, tick);
    hide Unit, Next, Wait, Target, Hand, Moves;
    var u, d := Unit(j), Target(k, tick, now, expire);
    LowPartFull(tick, u);
    WaitForm(j, d, tick);
    Below64(d, tick / u);
    assert u * d <= u * 63;
  }

  /** When 64u ticks are about to be complete, so are u ticks, and the counter of u-units stands at 63. */
  lemma LowPartFull(tick: nat, u: nat)
    requires 0 < u && tick % (64 * u) == 64 * u - 1
    ensures tick % u == u - 1 && tick / u % 64 == 63 && (tick + 1) / u % 64 == 0
  {
    var c := tick / (64 * u);
    assert tick == (64 * u) * c + (64 * u - 1);
    assert (64 * u) * c == u * (64 * c);
    assert tick == u * (64 * c + 63) + (u - 1);
    ModUnique(tick, u, u - 1, 64 * c + 63);
    NextUnit(u, tick);
  }

  lemma TargetWithinUnit(k: Level, tick: nat, now: int, expire: int)
    requires 2 <= k && tick < WORD && Moves(k, tick)
    ensures Remaining(k - 1, Target(k, tick, now, expire), tick) <= Unit(k)
  {
    if k == 2 { TargetLow(tick, now, expire); } else { TargetHigh(k, tick, now, expire); }
  }
}
