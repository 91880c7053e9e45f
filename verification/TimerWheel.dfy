/** The five-level timer wheel: insertion between ticks and the loop body that runs at each tick.
    Sizes are powers of two, so masks and shifts are remainders and quotients. */
module TimerWheel {

  import opened Arithmetic

  const TICK_GAP: nat := 5          // milliseconds
  const CHECK_ONE: nat := 0xFF
  const CHECK_TWO: nat := 0x3F00
  const CHECK_THREE: nat := 0xFC000
  const CHECK_FOUR: nat := 0x3F00000
  const WORD: nat := 0x1_0000_0000  // the tick is a 32-bit counter

  /** A one-shot task; tasks are told apart by their identity. `expire` is in milliseconds. */
  datatype Task = Task(id: nat, expire: int)

  type Buckets = seq<seq<Task>>

  /** levels[k - 1] is level k. */
  datatype Wheel = Wheel(tick: nat, levels: seq<Buckets>)

  type Level = k: int | 1 <= k <= 5 witness 1

  /** How many ticks one move of the hand of a level stands for. */
  function Unit(k: Level): (u: nat)
    ensures 0 < u
  {
    match k case 1 => 1 case 2 => 0x100 case 3 => 0x4000 case 4 => 0x10_0000 case _ => 0x400_0000
  }

  function Size(k: Level): nat { if k == 1 then 256 else 64 }

  function Span(k: Level): nat { Unit(k) * Size(k) }

  /** `(tick & check) >> shift`: where the hand of a level points. */
  function Hand(k: Level, tick: nat): nat { tick % Span(k) / Unit(k) }

  function Next(tick: nat): nat { (tick + 1) % WORD }

  ghost predicate Shaped(w: Wheel) {
    && w.tick < WORD && |w.levels| == 5
    && forall k: Level :: |w.levels[k - 1]| == Size(k)
  }

  // ---- Insertion ----

  /** The level and the bucket for a delay of `gaps` ticks. From level three on the code uses the mask
      of level two. */
  function Choose(tick: nat, gaps: nat): (r: (Level, nat))
    ensures r.1 < Size(r.0)
  {
    if gaps <= CHECK_ONE then (1, (tick % 256 + gaps % 256) % 256)
    else
      var masked := (tick + gaps) / 256 % 64 * 256;
      if gaps <= CHECK_TWO then (2, masked / 0x100)
      else if gaps <= CHECK_THREE then (3, masked / 0x100)
      else if gaps <= CHECK_FOUR then (4, masked / 0x10_0000)
      else (5, masked / 0x400_0000)
  }

  function Put(buckets: Buckets, b: nat, x: Task): Buckets
    requires b < |buckets|
  {
    buckets[b := buckets[b] + [x]]
  }

  ghost function Inserted(w: Wheel, x: Task, delay: nat): Wheel
    requires Shaped(w)
  {
    var (k, b) := Choose(w.tick, delay / TICK_GAP);
    w.(levels := w.levels[k - 1 := Put(w.levels[k - 1], b, x)])
  }

  // ---- One tick ----

  /** The hand of a level moves between this tick and the next. */
  predicate Moves(k: Level, tick: nat) { (Hand(k, tick) + 1) % Size(k) == Hand(k, Next(tick)) }

  /** The bucket one level down for a task that leaves level k, by the time that is left for it. */
  function Target(k: Level, tick: nat, now: int, expire: int): (b: nat)
    requires 2 <= k
    ensures b < Size(k - 1)
  {
    var gaps: nat := (if expire < now then 0 else expire - now) / TICK_GAP;
    match k
    case 2 => (Hand(1, tick) + Min(gaps, CHECK_ONE)) % 256
    case 3 => (Hand(2, Next(tick)) + Min(gaps, CHECK_TWO) / 0x100 % 64) % 64
    case 4 => (Hand(3, Next(tick)) + gaps / 0x4000 % 64) % 64
    case _ => (Hand(4, Next(tick)) + gaps / 0x10_0000 % 64) % 64
  }

  /** Hand the tasks of a bucket down, first to last; cancelled ones are dropped. */
  function Distribute(tasks: seq<Task>, below: Buckets, k: Level, tick: nat, now: int, cancelled: set<nat>): (r: Buckets)
    requires 2 <= k && |below| == Size(k - 1)
    ensures |r| == |below|
    decreases |tasks|
  {
    if tasks == [] then below
    else
      var x := tasks[0];
      Distribute(tasks[1..], if x.id in cancelled then below else Put(below, Target(k, tick, now, x.expire), x),
                 k, tick, now, cancelled)
  }

  /** What handing down does to the two levels concerned. */
  ghost predicate HandedDown(k: Level, tick: nat, now: int, cancelled: set<nat>,
                             from: Buckets, to: Buckets, from': Buckets, to': Buckets)
    requires 2 <= k && |from| == Size(k) && |to| == Size(k - 1)
  {
    if Moves(k, tick) then
      && from' == from[Hand(k, Next(tick)) := []]
      && to' == Distribute(from[Hand(k, Next(tick))], to, k, tick, now, cancelled)
    else from' == from && to' == to
  }

  lemma CascadedIs(w: Wheel, k: Level, now: int, cancelled: set<nat>, from': Buckets, to': Buckets)
    requires Shaped(w) && 2 <= k && HandedDown(k, w.tick, now, cancelled, w.levels[k - 1], w.levels[k - 2], from', to')
    ensures Cascaded(w, k, now, cancelled) == w.(levels := w.levels[k - 1 := from'][k - 2 := to'])
  {
    hide Distribute, Moves, Hand;
  }

  ghost function Cascaded(w: Wheel, k: Level, now: int, cancelled: set<nat>): (r: Wheel)
    requires Shaped(w) && 2 <= k
    ensures Shaped(r) && r.tick == w.tick
  {
    if !Moves(k, w.tick) then w
    else
      var b := Hand(k, Next(w.tick));
      w.(levels := w.levels[k - 1 := w.levels[k - 1][b := []]]
                           [k - 2 := Distribute(w.levels[k - 1][b], w.levels[k - 2], k, w.tick, now, cancelled)])
  }

  function Due(tasks: seq<Task>, cancelled: set<nat>): seq<Task> {
    if tasks == [] then [] else (if tasks[0].id in cancelled then [] else [tasks[0]]) + Due(tasks[1..], cancelled)
  }

  ghost function AllCascaded(w: Wheel, now: int, cancelled: set<nat>): (r: Wheel)
    requires Shaped(w)
    ensures Shaped(r) && r.tick == w.tick
  {
    Cascaded(Cascaded(Cascaded(Cascaded(w, 5, now, cancelled), 4, now, cancelled), 3, now, cancelled), 2, now, cancelled)
  }

  /** The tasks run at this tick. */
  ghost function Fired(w: Wheel, now: int, cancelled: set<nat>): seq<Task>
    requires Shaped(w)
  {
    Due(AllCascaded(w, now, cancelled).levels[0][Hand(1, w.tick)], cancelled)
  }

  ghost function Emptied(w: Wheel): (r: Wheel)
    requires Shaped(w)
    ensures Shaped(r) && r.tick == w.tick
  {
    w.(levels := w.levels[0 := w.levels[0][Hand(1, w.tick) := []]])
  }

  ghost function Ticked(w: Wheel, now: int, cancelled: set<nat>): (r: Wheel)
    requires Shaped(w)
    ensures Shaped(r)
  {
    Emptied(AllCascaded(w, now, cancelled)).(tick := Next(w.tick))
  }

  // ---- The wheel object ----

  class TimerWheel {
    var tick: nat
    const levelOne: array<seq<Task>>
    const levelTwo: array<seq<Task>>
    const levelThree: array<seq<Task>>
    const levelFour: array<seq<Task>>
    const levelFive: array<seq<Task>>
    var cancelled: set<nat>

    ghost function Repr(): set<object> { {this, levelOne, levelTwo, levelThree, levelFour, levelFive} }

    ghost function Abs(): Wheel
      reads this, levelOne, levelTwo, levelThree, levelFour, levelFive
    {
      Wheel(tick, [levelOne[..], levelTwo[..], levelThree[..], levelFour[..], levelFive[..]])
    }

    ghost predicate Separate() {
      && levelOne != levelTwo && levelOne != levelThree && levelOne != levelFour && levelOne != levelFive
      && levelTwo != levelThree && levelTwo != levelFour && levelTwo != levelFive
      && levelThree != levelFour && levelThree != levelFive && levelFour != levelFive
      && levelOne.Length == 256 && levelTwo.Length == 64 && levelThree.Length == 64
      && levelFour.Length == 64 && levelFive.Length == 64
    }

    ghost predicate Valid()
      reads this
    {
      Separate() && tick < WORD
    }

    constructor ()
      ensures Valid() && tick == 0 && cancelled == {} && fresh(Repr())
      ensures forall b :: 0 <= b < 256 ==> levelOne[b] == []
      ensures forall b :: 0 <= b < 64 ==> levelTwo[b] == [] && levelThree[b] == [] && levelFour[b] == [] && levelFive[b] == []
    {
      levelOne := new seq<Task>[256](_ => []);
      levelTwo := new seq<Task>[64](_ => []);
      levelThree := new seq<Task>[64](_ => []);
      levelFour := new seq<Task>[64](_ => []);
      levelFive := new seq<Task>[64](_ => []);
      tick, cancelled := 0, {};
    }

    /** clearTimeout: from now on the timer is dropped wherever it is met. */
    method ClearTimeout(id: nat)
      requires Valid()
      modifies this`cancelled
      ensures Valid() && cancelled == old(cancelled) + {id}
    {
      cancelled := cancelled + {id};
    }

    method SetTimerWheelTask(delay: nat, x: Task)
      requires Valid()
      modifies levelOne, levelTwo, levelThree, levelFour, levelFive
      ensures Valid() && Shaped(old(Abs())) && Abs() == Inserted(old(Abs()), x, delay)
    {
      var gaps := delay / TICK_GAP;
      if gaps <= CHECK_ONE {
        var bucket := (tick % 256 + gaps % 256) % 256;
        levelOne[bucket] := levelOne[bucket] + [x];
      } else {
        var masked := (tick + gaps) / 256 % 64 * 256;
        if gaps <= CHECK_TWO {
          levelTwo[masked / 0x100] := levelTwo[masked / 0x100] + [x];
        } else if gaps <= CHECK_THREE {
          levelThree[masked / 0x100] := levelThree[masked / 0x100] + [x];
        } else if gaps <= CHECK_FOUR {
          levelFour[masked / 0x10_0000] := levelFour[masked / 0x10_0000] + [x];
        } else {
          levelFive[masked / 0x400_0000] := levelFive[masked / 0x400_0000] + [x];
        }
      }
      assert Abs() == Inserted(old(Abs()), x, delay);
    }

    /** Hand the tasks of the bucket the hand moves to down to the next level. */
    method Cascade(from: array<seq<Task>>, to: array<seq<Task>>, k: Level, now: int)
      requires Valid() && 2 <= k && from != to && from.Length == Size(k) && to.Length == Size(k - 1)
      modifies from, to
      ensures HandedDown(k, tick, now, cancelled, old(from[..]), old(to[..]), from[..], to[..])
    {
      if (Hand(k, tick) + 1) % Size(k) == Hand(k, Next(tick)) {
        var b := Hand(k, Next(tick));
        while from[b] != []
          invariant forall i :: 0 <= i < from.Length && i != b ==> from[i] == old(from[i])
          invariant Distribute(from[b], to[..], k, tick, now, cancelled) ==
                    Distribute(old(from[b]), old(to[..]), k, tick, now, cancelled)
          decreases |from[b]|
        {
          var x := from[b][0];
          if x.id !in cancelled {
            var bucket := Target(k, tick, now, x.expire);
            ghost var below := to[..];
            to[bucket] := to[bucket] + [x];
            assert to[..] == Put(below, bucket, x);
          }
          from[b] := from[b][1..];
        }
        assert from[..] == old(from[..])[b := []];
      }
    }

    method CascadeFive(now: int)
      requires Valid()
      modifies levelFive, levelFour
      ensures Shaped(old(Abs())) && Abs() == Cascaded(old(Abs()), 5, now, cancelled)
    {
      hide HandedDown, Cascaded;
      ghost var w := Abs();
      Cascade(levelFive, levelFour, 5, now);
      CascadedIs(w, 5, now, cancelled, levelFive[..], levelFour[..]);
      assert Abs().levels == w.levels[4 := levelFive[..]][3 := levelFour[..]];
    }

    method CascadeFour(now: int)
      requires Valid()
      modifies levelFour, levelThree
      ensures Shaped(old(Abs())) && Abs() == Cascaded(old(Abs()), 4, now, cancelled)
    {
      hide HandedDown, Cascaded;
      ghost var w := Abs();
      Cascade(levelFour, levelThree, 4, now);
      CascadedIs(w, 4, now, cancelled, levelFour[..], levelThree[..]);
      assert Abs().levels == w.levels[3 := levelFour[..]][2 := levelThree[..]];
    }

    method CascadeThree(now: int)
      requires Valid()
      modifies levelThree, levelTwo
      ensures Shaped(old(Abs())) && Abs() == Cascaded(old(Abs()), 3, now, cancelled)
    {
      hide HandedDown, Cascaded;
      ghost var w := Abs();
      Cascade(levelThree, levelTwo, 3, now);
      CascadedIs(w, 3, now, cancelled, levelThree[..], levelTwo[..]);
      assert Abs().levels == w.levels[2 := levelThree[..]][1 := levelTwo[..]];
    }

    method CascadeTwo(now: int)
      requires Valid()
      modifies levelTwo, levelOne
      ensures Shaped(old(Abs())) && Abs() == Cascaded(old(Abs()), 2, now, cancelled)
    {
      hide HandedDown, Cascaded;
      ghost var w := Abs();
      Cascade(levelTwo, levelOne, 2, now);
      CascadedIs(w, 2, now, cancelled, levelTwo[..], levelOne[..]);
      assert Abs().levels == w.levels[1 := levelTwo[..]][0 := levelOne[..]];
    }

    /** Run a bucket from front to back and empty it. */
    method RunBucket(buckets: array<seq<Task>>, b: nat) returns (run: seq<Task>)
      requires b < buckets.Length
      modifies buckets
      ensures run == Due(old(buckets[b]), cancelled) && buckets[..] == old(buckets[..])[b := []]
    {
      run := [];
      while buckets[b] != []
        invariant forall i :: 0 <= i < buckets.Length && i != b ==> buckets[i] == old(buckets[i])
        invariant run + Due(buckets[b], cancelled) == Due(old(buckets[b]), cancelled)
        decreases |buckets[b]|
      {
        if buckets[b][0].id !in cancelled { run := run + [buckets[b][0]]; }
        buckets[b] := buckets[b][1..];
      }
      assert buckets[..] == old(buckets[..])[b := []];
    }

    /** Run the bucket under the hand of level one. */
    method Execute() returns (run: seq<Task>)
      requires Valid()
      modifies levelOne
      ensures Shaped(old(Abs())) && run == Due(old(Abs()).levels[0][Hand(1, tick)], cancelled)
      ensures Abs() == Emptied(old(Abs()))
    {
      ghost var w := Abs();
      assert Hand(1, tick) < 256;
      hide Due, Hand;
      run := RunBucket(levelOne, Hand(1, tick));
      assert Abs().levels == w.levels[0 := levelOne[..]];
    }

    /** The loop body of the wheel's thread. */
    method Tick(now: int) returns (run: seq<Task>)
      requires Valid()
      modifies this`tick, levelOne, levelTwo, levelThree, levelFour, levelFive
      ensures Valid() && Shaped(old(Abs()))
      ensures run == Fired(old(Abs()), now, cancelled) && Abs() == Ticked(old(Abs()), now, cancelled)
    {
      hide Cascaded, Emptied, Shaped;
      CascadeFive(now);
      CascadeFour(now);
      CascadeThree(now);
      CascadeTwo(now);
      run := Execute();
      ghost var w := Abs();
      tick := (tick + 1) % WORD;
      assert Abs() == w.(tick := tick);
    }
  }
}
