/** What a lone call on the semaphore returns: with permits there it takes what it can, without any it comes
    back empty-handed or sleeps, and once it is posted to it wakes up with at least one. */
module SemaphoreCalls {

  import opened Arithmetic
  import opened Semaphore

  /** Thread t makes up to n steps, nobody else makes any, and no exchange or wait fails without reason. */
  function Alone(s: State, t: Tid, n: nat): State
    decreases n
  {
    if n == 0 || !Enabled(s, t, false) then s else Alone(Step(s, t, false), t, n - 1)
  }

  lemma Back(pcs: seq<Pc>, t: Tid, pc: Pc)
    requires t < |pcs|
    ensures pcs[t := pc][t := pcs[t]] == pcs
  {}

  lemma Twice(pcs: seq<Pc>, t: Tid, pc: Pc, pc': Pc)
    requires t < |pcs|
    ensures pcs[t := pc][t := pc'] == pcs[t := pc']
  {}

  lemma Returned(s: State, t: Tid, n: nat)
    requires t < |s.pcs| && s.pcs[t].Idle?
    ensures Alone(s, t, n) == s
  {}

  lemma OneStep(s: State, t: Tid, n: nat)
    requires 0 < n && Enabled(s, t, false)
    ensures Alone(s, t, n) == Alone(Step(s, t, false), t, n - 1)
  {}

  /** With permits there, `waitMany` takes the smaller of what is asked for and what is there. */
  lemma LoneWaitTakes(s: State, t: Tid, max: nat, timeout: Timeout, n: nat)
    requires t < |s.pcs| && s.pcs[t].Idle? && 0 < max && 0 < s.count && 2 <= n
    ensures Alone(Goto(s, t, TryLoad(max, Block(timeout))), t, n) ==
      s.(count := s.count - Min(s.count, max), log := s.log + [Grant(t, max, Min(s.count, max))])
  {
    var seen: nat := s.count;
    var s0 := Goto(s, t, TryLoad(max, Block(timeout)));
    var s1 := Goto(s, t, TryCas(max, seen, Block(timeout)));
    Twice(s.pcs, t, s0.pcs[t], s1.pcs[t]);
    OneStep(s0, t, n);
    assert Step(s0, t, false) == s1;
    OneStep(s1, t, n - 1);
    Back(s.pcs, t, s1.pcs[t]);
    var s2 := s.(count := s.count - Min(s.count, max), log := s.log + [Grant(t, max, Min(s.count, max))]);
    assert Step(s1, t, false) == s2;
    Returned(s2, t, n - 2);
  }

  /** While there is no permit the spinning ends with the decrement. */
  lemma {:induction false} LoneSpin(s: State, t: Tid, max: nat, spins: nat, timeout: Timeout, n: nat) returns (k: nat)
    requires t < |s.pcs| && s.count <= 0 && spins + 1 <= n
    ensures k <= spins + 1
    ensures Alone(Goto(s, t, SpinLoad(max, spins, timeout)), t, n) == Alone(Goto(s, t, Subtract(max, timeout)), t, n - k)
    decreases spins
  {
    hide Alone;
    var s0 := Goto(s, t, SpinLoad(max, spins, timeout));
    OneStep(s0, t, n);
    SpinsOn(s, t, max, spins, timeout);
    if spins <= 1 {
      k := 1;
    } else {
      k := LoneSpin(s, t, max, spins - 1, timeout, n - 1);
      k := k + 1;
    }
  }

  lemma SpinsOn(s: State, t: Tid, max: nat, spins: nat, timeout: Timeout)
    requires t < |s.pcs| && s.count <= 0
    ensures Enabled(Goto(s, t, SpinLoad(max, spins, timeout)), t, false)
    ensures Step(Goto(s, t, SpinLoad(max, spins, timeout)), t, false) ==
      Goto(s, t, if spins <= 1 then Subtract(max, timeout) else SpinLoad(max, spins - 1, timeout))
  {
    Twice(s.pcs, t, SpinLoad(max, spins, timeout), if spins <= 1 then Subtract(max, timeout) else SpinLoad(max, spins - 1, timeout));
  }

  lemma LoneSubtract(s: State, t: Tid, max: nat, timeout: Timeout, n: nat)
    requires t < |s.pcs| && s.pcs[t].Idle? && 0 < max && s.count <= 0 && s.sema == 0 && 3 <= n
    ensures Alone(Goto(s, t, Subtract(max, timeout)), t, n) ==
      if timeout.Poll? then s.(log := s.log + [Grant(t, max, 0)])
      else s.(count := s.count - 1, pcs := s.pcs[t := KernelWait(max, timeout)])
  {
    var s0 := Goto(s, t, Subtract(max, timeout));
    OneStep(s0, t, n);
    var lower := s.(count := s.count - 1);
    if timeout.Poll? {
      var s1 := Goto(lower, t, ReadjustLoad(max));
      Twice(s.pcs, t, s0.pcs[t], s1.pcs[t]);
      assert Step(s0, t, false) == s1;
      OneStep(s1, t, n - 1);
      var s2 := Goto(lower, t, ReadjustCas(max, s.count - 1));
      Twice(s.pcs, t, s1.pcs[t], s2.pcs[t]);
      assert Step(s1, t, false) == s2;
      OneStep(s2, t, n - 2);
      var s3 := s.(log := s.log + [Grant(t, max, 0)]);
      Back(s.pcs, t, s2.pcs[t]);
      assert Step(s2, t, false) == s3;
      Returned(s3, t, n - 3);
    } else {
      var s1 := Goto(lower, t, KernelWait(max, timeout));
      Twice(s.pcs, t, s0.pcs[t], s1.pcs[t]);
      assert Step(s0, t, false) == s1;
      assert !Enabled(s1, t, false);
    }
  }

  /** Without permits a poll returns nothing and leaves the semaphore as it was; a call that may wait counts
      itself in and sleeps. */
  lemma LoneWaitFinds(s: State, t: Tid, max: nat, timeout: Timeout, n: nat)
    requires t < |s.pcs| && s.pcs[t].Idle? && 0 < max && s.count <= 0 && s.sema == 0 && s.maxSpins + 5 <= n
    ensures Alone(Goto(s, t, TryLoad(max, Block(timeout))), t, n) ==
      if timeout.Poll? then s.(log := s.log + [Grant(t, max, 0)])
      else s.(count := s.count - 1, pcs := s.pcs[t := KernelWait(max, timeout)])
  {
    hide Alone;
    var s0 := Goto(s, t, TryLoad(max, Block(timeout)));
    var s1 := Goto(s, t, SpinLoad(max, s.maxSpins, timeout));
    Tries(s, t, max, timeout);
    OneStep(s0, t, n);
    hide Step;
    var k := LoneSpin(s, t, max, s.maxSpins, timeout, n - 1);
    LoneSubtract(s, t, max, timeout, n - 1 - k);
  }

  lemma Tries(s: State, t: Tid, max: nat, timeout: Timeout)
    requires t < |s.pcs| && s.count <= 0 && 0 < max
    ensures var s0 := Goto(s, t, TryLoad(max, Block(timeout)));
      Enabled(s0, t, false) && Step(s0, t, false) == Goto(s, t, SpinLoad(max, s.maxSpins, timeout))
  {
    Twice(s.pcs, t, TryLoad(max, Block(timeout)), SpinLoad(max, s.maxSpins, timeout));
  }

  /** A sleeper that is posted to returns with one permit and as many more as it wants and finds. */
  lemma LoneWakes(s: State, t: Tid, n: nat)
    requires t < |s.pcs| && s.pcs[t].KernelWait? && 0 < s.pcs[t].max && 0 < s.sema && 3 <= n
    ensures var max := s.pcs[t].max; var more := Min(Positive(s.count), max - 1);
      Alone(s, t, n) == s.(sema := s.sema - 1, count := s.count - more, pcs := s.pcs[t := Idle],
                           log := s.log + [Grant(t, max, 1 + more)])
  {
    var max := s.pcs[t].max;
    var more := Min(Positive(s.count), max - 1);
    var end := s.(sema := s.sema - 1, count := s.count - more, pcs := s.pcs[t := Idle], log := s.log + [Grant(t, max, 1 + more)]);
    OneStep(s, t, n);
    if max == 1 {
      Returned(end, t, n - 1);
    } else {
      var s1 := Goto(s.(sema := s.sema - 1), t, TryLoad(max - 1, Return(1)));
      assert Step(s, t, false) == s1;
      OneStep(s1, t, n - 1);
      Twice(s.pcs, t, s1.pcs[t], Idle);
      if s.count <= 0 {
        assert Step(s1, t, false) == end;
        Returned(end, t, n - 2);
      } else {
        var seen: nat := s.count;
        var s2 := Goto(s.(sema := s.sema - 1), t, TryCas(max - 1, seen, Return(1)));
        Twice(s.pcs, t, s1.pcs[t], s2.pcs[t]);
        Twice(s.pcs, t, s2.pcs[t], Idle);
        assert Step(s1, t, false) == s2;
        OneStep(s2, t, n - 2);
        assert Step(s2, t, false) == end;
        Returned(end, t, n - 3);
      }
    }
  }

  /** A waiter whose wait failed takes the post that was meant for it, if there is one, and otherwise puts
      the count back and returns nothing. */
  lemma LoneReadjust(s: State, t: Tid, n: nat)
    requires t < |s.pcs| && s.pcs[t].ReadjustLoad? && 0 < s.pcs[t].max && 4 <= n
    requires 0 <= s.count ==> 0 < s.sema
    ensures var max := s.pcs[t].max; var more := Min(Positive(s.count), max - 1);
      Alone(s, t, n) ==
        if s.count < 0 then s.(count := s.count + 1, pcs := s.pcs[t := Idle], log := s.log + [Grant(t, max, 0)])
        else s.(sema := s.sema - 1, count := s.count - more, pcs := s.pcs[t := Idle], log := s.log + [Grant(t, max, 1 + more)])
  {
    var max := s.pcs[t].max;
    OneStep(s, t, n);
    if s.count < 0 {
      var s1 := Goto(s, t, ReadjustCas(max, s.count));
      assert Step(s, t, false) == s1;
      OneStep(s1, t, n - 1);
      Twice(s.pcs, t, s1.pcs[t], Idle);
      Returned(Step(s1, t, false), t, n - 2);
    } else {
      var s1, asleep := Goto(s, t, KernelTry(max)), Goto(s, t, KernelWait(max, Forever));
      assert Step(s, t, false) == s1;
      OneStep(s1, t, n - 1);
      OneStep(asleep, t, n - 1);
      SameGrant(s, t, max);
      LoneWakes(asleep, t, n - 1);
      Twice(s.pcs, t, asleep.pcs[t], Idle);
    }
  }

  lemma SameGrant(s: State, t: Tid, max: nat)
    requires t < |s.pcs| && 0 < s.sema
    ensures Enabled(Goto(s, t, KernelTry(max)), t, false) && Enabled(Goto(s, t, KernelWait(max, Forever)), t, false)
    ensures Step(Goto(s, t, KernelTry(max)), t, false) == Step(Goto(s, t, KernelWait(max, Forever)), t, false)
  {
    Twice(s.pcs, t, KernelTry(max), Idle);
    Twice(s.pcs, t, KernelWait(max, Forever), Idle);
    if 1 < max {
      Twice(s.pcs, t, KernelTry(max), TryLoad(max - 1, Return(1)));
      Twice(s.pcs, t, KernelWait(max, Forever), TryLoad(max - 1, Return(1)));
    }
  }
}
