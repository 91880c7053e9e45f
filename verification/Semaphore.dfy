/** The lightweight semaphore: a signed count in front of a kernel semaphore, any number of threads
    that try, wait, time out, take many and signal, one atomic access per step. `tryWait` and `wait`
    make the same accesses as `tryWaitMany` and `waitMany` with a maximum of one. */
module Semaphore {

  import opened Arithmetic

  type Tid = nat

  /** The sign of `timeout_usecs`: negative, zero, positive. */
  datatype Timeout = Forever | Poll | Timed

  /** What follows `tryWaitMany`: the call returns `got` more, or goes on to spin and block. */
  datatype After = Return(got: nat) | Block(timeout: Timeout)

  /** The program counter names the next atomic access and holds the locals it needs. */
  datatype Pc =
    | Idle
    | TryLoad(max: nat, after: After)                                // tryWaitMany: load m_count
    | TryCas(max: nat, seen: nat, after: After)                       // compare_exchange_weak
    | SpinLoad(max: nat, spins: nat, timeout: Timeout)               // spin loop: load m_count
    | SpinCas(max: nat, seen: nat, spins: nat, timeout: Timeout)      // compare_exchange_strong
    | Subtract(max: nat, timeout: Timeout)                           // fetch_sub(1)
    | KernelWait(max: nat, timeout: Timeout)                         // m_sema.wait or timed_wait
    | ReadjustLoad(max: nat)                                         // load m_count after a failed wait
    | KernelTry(max: nat)                                            // m_sema.try_wait
    | ReadjustCas(max: nat, below: int)                               // compare_exchange_strong to below + 1
    | SignalAdd(n: nat)                                              // fetch_add(n)
    | Release(n: nat)                                                // m_sema.signal, n posts to go

  /** A call by `t` for up to `asked` permits returned `got`. */
  datatype Grant = Grant(t: Tid, asked: nat, got: nat)

  /** `count` is m_count, `sema` the kernel semaphore's value, `pcs` the threads.
      `signalled` and `log` are auxiliary. */
  datatype State = State(count: int, sema: nat, maxSpins: nat, pcs: seq<Pc>, signalled: nat, log: seq<Grant>)

  function Positive(n: int): nat { if 0 < n then n else 0 }

  /** `newCount`: what is left after taking up to `max`. */
  function Left(seen: nat, max: nat): (r: nat)
    ensures r <= seen
  {
    if max < seen then seen - max else 0
  }

  function Goto(s: State, t: Tid, pc: Pc): State
    requires t < |s.pcs|
  {
    s.(pcs := s.pcs[t := pc])
  }

  function Done(s: State, t: Tid, asked: nat, got: nat): State
    requires t < |s.pcs|
  {
    s.(pcs := s.pcs[t := Idle], log := s.log + [Grant(t, asked, got)])
  }

  /** `tryWaitMany` with the value `seen` in hand: its loop test. */
  function TryWith(s: State, t: Tid, max: nat, seen: int, after: After): State
    requires t < |s.pcs|
  {
    if 0 < seen then Goto(s, t, TryCas(max, seen, after))
    else match after
      case Return(got) => Done(s, t, max + got, got)
      case Block(timeout) =>
        if max == 0 then Done(s, t, 0, 0) else Goto(s, t, SpinLoad(max, s.maxSpins, timeout))
  }

  /** A weak exchange may fail although the value matches. */
  function DoTryCas(s: State, t: Tid, max: nat, seen: nat, after: After, spurious: bool): State
    requires t < |s.pcs|
  {
    if s.count != seen || spurious then TryWith(s, t, max, s.count, after)
    else
      var left := Left(seen, max);
      var taken := seen - left;
      var s1 := s.(count := left);
      match after
      case Return(got) => Done(s1, t, max + got, got + taken)
      case Block(timeout) =>
        if taken == 0 && 0 < max then Goto(s1, t, SpinLoad(max, s.maxSpins, timeout))
        else Done(s1, t, max, taken)
  }

  function SpinNext(s: State, t: Tid, max: nat, spins: nat, timeout: Timeout): State
    requires t < |s.pcs|
  {
    Goto(s, t, if 0 < spins then SpinLoad(max, spins, timeout) else Subtract(max, timeout))
  }

  function DoSpinLoad(s: State, t: Tid, max: nat, spins: nat, timeout: Timeout): State
    requires t < |s.pcs|
  {
    if spins == 0 then Goto(s, t, Subtract(max, timeout))
    else if 0 < s.count then Goto(s, t, SpinCas(max, s.count, spins - 1, timeout))
    else SpinNext(s, t, max, spins - 1, timeout)
  }

  function DoSpinCas(s: State, t: Tid, max: nat, seen: nat, spins: nat, timeout: Timeout): State
    requires t < |s.pcs|
  {
    if s.count == seen then Done(s.(count := Left(seen, max)), t, max, seen - Left(seen, max))
    else SpinNext(s, t, max, spins, timeout)
  }

  /** One permit has been obtained the slow way; a larger request tries for the rest. */
  function Granted(s: State, t: Tid, max: nat): State
    requires t < |s.pcs|
  {
    if 1 < max then Goto(s, t, TryLoad(max - 1, Return(1))) else Done(s, t, max, 1)
  }

  function DoSubtract(s: State, t: Tid, max: nat, timeout: Timeout): State
    requires t < |s.pcs|
  {
    var s1 := s.(count := s.count - 1);
    if 0 < s.count then Granted(s1, t, max)
    else if timeout.Poll? then Goto(s1, t, ReadjustLoad(max))
    else Goto(s1, t, KernelWait(max, timeout))
  }

  /** The kernel wait takes a post, or fails: by time-out, or with an error. */
  function DoKernelWait(s: State, t: Tid, max: nat, fails: bool): State
    requires t < |s.pcs| && (fails || 0 < s.sema)
  {
    if fails then Goto(s, t, ReadjustLoad(max)) else Granted(s.(sema := s.sema - 1), t, max)
  }

  function DoReadjustLoad(s: State, t: Tid, max: nat): State
    requires t < |s.pcs|
  {
    Goto(s, t, if 0 <= s.count then KernelTry(max) else ReadjustCas(max, s.count))
  }

  function DoKernelTry(s: State, t: Tid, max: nat): State
    requires t < |s.pcs|
  {
    if 0 < s.sema then Granted(s.(sema := s.sema - 1), t, max) else Goto(s, t, ReadjustLoad(max))
  }

  function DoReadjustCas(s: State, t: Tid, max: nat, seen: int): State
    requires t < |s.pcs|
  {
    if s.count == seen then Done(s.(count := seen + 1), t, max, 0) else Goto(s, t, ReadjustLoad(max))
  }

  function DoSignalAdd(s: State, t: Tid, n: nat): State
    requires t < |s.pcs|
  {
    var toRelease := Min(-s.count, n);
    s.(count := s.count + n, signalled := s.signalled + n,
       pcs := s.pcs[t := if 0 < toRelease then Release(toRelease) else Idle])
  }

  function DoRelease(s: State, t: Tid, n: nat): State
    requires t < |s.pcs|
  {
    if 0 < n then s.(sema := s.sema + 1, pcs := s.pcs[t := if 1 < n then Release(n - 1) else Idle])
    else Goto(s, t, Idle)
  }

  /** A thread blocked in the kernel cannot move until a post arrives or its wait fails. */
  predicate Enabled(s: State, t: Tid, choice: bool) {
    && t < |s.pcs| && !s.pcs[t].Idle?
    && (s.pcs[t].KernelWait? ==> choice || 0 < s.sema)
  }

  /** One step of thread `t`. `choice` resolves what the code does not determine: whether a weak
      exchange fails spuriously, whether a kernel wait fails. */
  function Step(s: State, t: Tid, choice: bool): State
    requires Enabled(s, t, choice)
  {
    match s.pcs[t]
    case TryLoad(max, after) => TryWith(s, t, max, s.count, after)
    case TryCas(max, seen, after) => DoTryCas(s, t, max, seen, after, choice)
    case SpinLoad(max, spins, timeout) => DoSpinLoad(s, t, max, spins, timeout)
    case SpinCas(max, seen, spins, timeout) => DoSpinCas(s, t, max, seen, spins, timeout)
    case Subtract(max, timeout) => DoSubtract(s, t, max, timeout)
    case KernelWait(max, _) => DoKernelWait(s, t, max, choice)
    case ReadjustLoad(max) => DoReadjustLoad(s, t, max)
    case KernelTry(max) => DoKernelTry(s, t, max)
    case ReadjustCas(max, seen) => DoReadjustCas(s, t, max, seen)
    case SignalAdd(n) => DoSignalAdd(s, t, n)
    case Release(n) => DoRelease(s, t, n)
  }

  /** The calls an idle thread may make. */
  predicate IsCall(pc: Pc) {
    || (pc.TryLoad? && (pc.after == Return(0) || pc.after.Block?))
    || pc.SignalAdd?
  }

  ghost predicate Next(s: State, s': State) {
    || (exists t: nat, pc :: t < |s.pcs| && s.pcs[t].Idle? && IsCall(pc) && s' == Goto(s, t, pc))
    || (exists t: nat, choice :: Enabled(s, t, choice) && s' == Step(s, t, choice))
  }

  predicate Init(s: State, initial: nat) {
    && s.count == initial && s.sema == 0 && s.signalled == 0 && s.log == []
    && forall t :: 0 <= t < |s.pcs| ==> s.pcs[t].Idle?
  }

  ghost predicate IsRun(run: seq<State>, initial: nat) {
    && run != [] && Init(run[0], initial)
    && forall i :: 0 <= i < |run| - 1 ==> Next(run[i], run[i + 1])
  }

  // ---- Counting over threads ----

  /** Waiting: has lowered the count below its due and not been served. Posting: kernel posts still
      to make. Partial: permits obtained by a call that has not returned. */
  datatype Kind = Waiting | Posting | Partial

  function Weight(pc: Pc, kind: Kind): nat {
    match kind
    case Waiting => if pc.KernelWait? || pc.ReadjustLoad? || pc.KernelTry? || pc.ReadjustCas? then 1 else 0
    case Posting => if pc.Release? then pc.n else 0
    case Partial => if (pc.TryLoad? || pc.TryCas?) && pc.after.Return? then pc.after.got else 0
  }

  function Total(pcs: seq<Pc>, kind: Kind): nat {
    if pcs == [] then 0 else Weight(pcs[0], kind) + Total(pcs[1..], kind)
  }

  lemma {:induction false} TotalUpdate(pcs: seq<Pc>, t: nat, pc: Pc, kind: Kind)
    requires t < |pcs|
    ensures Total(pcs[t := pc], kind) == Total(pcs, kind) - Weight(pcs[t], kind) + Weight(pc, kind)
  {
    if t == 0 {
      assert pcs[t := pc][1..] == pcs[1..];
    } else {
      assert pcs[t := pc][1..] == pcs[1..][t - 1 := pc];
      TotalUpdate(pcs[1..], t - 1, pc, kind);
    }
  }

  lemma {:induction false} TotalAtLeast(pcs: seq<Pc>, t: nat, kind: Kind)
    requires t < |pcs|
    ensures Weight(pcs[t], kind) <= Total(pcs, kind)
  {
    if t > 0 { TotalAtLeast(pcs[1..], t - 1, kind); }
  }

  lemma {:induction false} TotalIdle(pcs: seq<Pc>, kind: Kind)
    requires forall t :: 0 <= t < |pcs| ==> pcs[t].Idle?
    ensures Total(pcs, kind) == 0
  {
    if pcs != [] { TotalIdle(pcs[1..], kind); }
  }

  function Acquired(log: seq<Grant>): nat {
    if log == [] then 0 else Acquired(log[..|log| - 1]) + log[|log| - 1].got
  }

  lemma AcquiredSnoc(log: seq<Grant>, g: Grant)
    ensures Acquired(log + [g]) == Acquired(log) + g.got
  {
    assert (log + [g])[..|log|] == log;
  }

  // ---- The invariant ----

  /** Waiters balance the negative part of the count and the posts on their way to them; permits
      put in balance permits taken out. */
  ghost predicate Balanced(s: State, initial: nat) {
    && Total(s.pcs, Waiting) == Positive(-s.count) + s.sema + Total(s.pcs, Posting)
    && initial + s.signalled ==
         Acquired(s.log) + Total(s.pcs, Partial) + Positive(s.count) + s.sema + Total(s.pcs, Posting)
  }

  predicate PcOk(pc: Pc) {
    match pc
    case TryCas(max, seen, _) => 0 < seen
    case SpinLoad(max, _, _) => 0 < max
    case SpinCas(max, seen, _, _) => 0 < max && 0 < seen
    case Subtract(max, _) => 0 < max
    case KernelWait(max, _) => 0 < max
    case ReadjustLoad(max) => 0 < max
    case KernelTry(max) => 0 < max
    case ReadjustCas(max, seen) => 0 < max && seen < 0
    case _ => true
  }

  ghost predicate Inv(s: State, initial: nat) {
    && Balanced(s, initial)
    && (forall t :: 0 <= t < |s.pcs| ==> PcOk(s.pcs[t]))
    && (forall i :: 0 <= i < |s.log| ==> s.log[i].got <= s.log[i].asked)
  }

  /** What a step does to the totals. */
  lemma Moved(s: State, t: Tid, pc: Pc)
    requires t < |s.pcs|
    ensures Total(s.pcs[t := pc], Waiting) == Total(s.pcs, Waiting) - Weight(s.pcs[t], Waiting) + Weight(pc, Waiting)
    ensures Total(s.pcs[t := pc], Posting) == Total(s.pcs, Posting) - Weight(s.pcs[t], Posting) + Weight(pc, Posting)
    ensures Total(s.pcs[t := pc], Partial) == Total(s.pcs, Partial) - Weight(s.pcs[t], Partial) + Weight(pc, Partial)
  {
    TotalUpdate(s.pcs, t, pc, Waiting);
    TotalUpdate(s.pcs, t, pc, Posting);
    TotalUpdate(s.pcs, t, pc, Partial);
  }

  /** A step rewrites only its own thread's counter, and appends at most one return to the log. */
  ghost predicate Shaped(s: State, s': State, t: Tid)
    requires t < |s.pcs|
  {
    && |s'.pcs| == |s.pcs| && s'.pcs == s.pcs[t := s'.pcs[t]] && PcOk(s'.pcs[t])
    && (s'.log == s.log || (exists g :: s'.log == s.log + [g] && g.got <= g.asked))
  }

  function GotNow(s: State, s': State): nat {
    if |s.log| < |s'.log| then s'.log[|s.log|].got else 0
  }

  /** What one step takes from the counts is what it hands to its thread. */
  ghost predicate Exchanged(s: State, s': State, t: Tid)
    requires t < |s.pcs| == |s'.pcs|
  {
    var pc, pc' := s.pcs[t], s'.pcs[t];
    && Weight(pc', Waiting) - Weight(pc, Waiting) ==
         Positive(-s'.count) - Positive(-s.count) + s'.sema - s.sema + Weight(pc', Posting) - Weight(pc, Posting)
    && s'.signalled - s.signalled ==
         GotNow(s, s') + Weight(pc', Partial) - Weight(pc, Partial) + Positive(s'.count) - Positive(s.count)
         + s'.sema - s.sema + Weight(pc', Posting) - Weight(pc, Posting)
  }

  lemma LogGrew(s: State, s': State)
    ensures |s'.log| == |s.log| + 1 && s.log <= s'.log ==> s'.log == s.log + [s'.log[|s.log|]]
  {}

  lemma TryWithExchanges(s: State, t: Tid, pc: Pc, max: nat, seen: int, after: After)
    requires t < |s.pcs| && s.pcs[t] == pc && (pc == TryLoad(max, after) || (pc.TryCas? && pc.max == max && pc.after == after))
    ensures Shaped(s, TryWith(s, t, max, seen, after), t) && Exchanged(s, TryWith(s, t, max, seen, after), t)
  {
    LogGrew(s, TryWith(s, t, max, seen, after));
  }

  lemma TryCasExchanges(s: State, t: Tid, max: nat, seen: nat, after: After, spurious: bool)
    requires t < |s.pcs| && s.pcs[t] == TryCas(max, seen, after) && 0 < seen
    ensures Shaped(s, DoTryCas(s, t, max, seen, after, spurious), t) && Exchanged(s, DoTryCas(s, t, max, seen, after, spurious), t)
  {
    LogGrew(s, DoTryCas(s, t, max, seen, after, spurious));
  }

  lemma SpinLoadExchanges(s: State, t: Tid, max: nat, spins: nat, timeout: Timeout)
    requires t < |s.pcs| && s.pcs[t] == SpinLoad(max, spins, timeout) && 0 < max
    ensures Shaped(s, DoSpinLoad(s, t, max, spins, timeout), t) && Exchanged(s, DoSpinLoad(s, t, max, spins, timeout), t)
  {
    LogGrew(s, DoSpinLoad(s, t, max, spins, timeout));
  }

  lemma SpinCasExchanges(s: State, t: Tid, max: nat, seen: nat, spins: nat, timeout: Timeout)
    requires t < |s.pcs| && s.pcs[t] == SpinCas(max, seen, spins, timeout) && 0 < max && 0 < seen
    ensures Shaped(s, DoSpinCas(s, t, max, seen, spins, timeout), t) && Exchanged(s, DoSpinCas(s, t, max, seen, spins, timeout), t)
  {
    LogGrew(s, DoSpinCas(s, t, max, seen, spins, timeout));
  }

  lemma SubtractExchanges(s: State, t: Tid, max: nat, timeout: Timeout)
    requires t < |s.pcs| && s.pcs[t] == Subtract(max, timeout) && 0 < max
    ensures Shaped(s, DoSubtract(s, t, max, timeout), t) && Exchanged(s, DoSubtract(s, t, max, timeout), t)
  {
    LogGrew(s, DoSubtract(s, t, max, timeout));
  }

  lemma KernelWaitExchanges(s: State, t: Tid, max: nat, timeout: Timeout, fails: bool)
    requires t < |s.pcs| && s.pcs[t] == KernelWait(max, timeout) && 0 < max && (fails || 0 < s.sema)
    ensures Shaped(s, DoKernelWait(s, t, max, fails), t) && Exchanged(s, DoKernelWait(s, t, max, fails), t)
  {
    LogGrew(s, DoKernelWait(s, t, max, fails));
  }

  lemma KernelTryExchanges(s: State, t: Tid, max: nat)
    requires t < |s.pcs| && s.pcs[t] == KernelTry(max) && 0 < max
    ensures Shaped(s, DoKernelTry(s, t, max), t) && Exchanged(s, DoKernelTry(s, t, max), t)
  {
    LogGrew(s, DoKernelTry(s, t, max));
  }

  lemma ReadjustExchanges(s: State, t: Tid, max: nat, seen: int)
    requires t < |s.pcs| && s.pcs[t] == ReadjustCas(max, seen) && 0 < max && seen < 0
    ensures Shaped(s, DoReadjustCas(s, t, max, seen), t) && Exchanged(s, DoReadjustCas(s, t, max, seen), t)
  {
    LogGrew(s, DoReadjustCas(s, t, max, seen));
  }

  lemma SignalExchanges(s: State, t: Tid, n: nat)
    requires t < |s.pcs| && s.pcs[t] == SignalAdd(n)
    ensures Shaped(s, DoSignalAdd(s, t, n), t) && Exchanged(s, DoSignalAdd(s, t, n), t)
  {
    LogGrew(s, DoSignalAdd(s, t, n));
  }

  lemma StepExchanges(s: State, t: Tid, choice: bool)
    requires Enabled(s, t, choice) && PcOk(s.pcs[t])
    ensures Shaped(s, Step(s, t, choice), t) && Exchanged(s, Step(s, t, choice), t)
  {
    match s.pcs[t] {
      case TryLoad(max, after) => TryWithExchanges(s, t, s.pcs[t], max, s.count, after);
      case TryCas(max, seen, after) => TryCasExchanges(s, t, max, seen, after, choice);
      case SpinLoad(max, spins, timeout) => SpinLoadExchanges(s, t, max, spins, timeout);
      case SpinCas(max, seen, spins, timeout) => SpinCasExchanges(s, t, max, seen, spins, timeout);
      case Subtract(max, timeout) => SubtractExchanges(s, t, max, timeout);
      case KernelWait(max, timeout) => KernelWaitExchanges(s, t, max, timeout, choice);
      case ReadjustLoad(max) =>
      case KernelTry(max) => KernelTryExchanges(s, t, max);
      case ReadjustCas(max, seen) => ReadjustExchanges(s, t, max, seen);
      case SignalAdd(n) => SignalExchanges(s, t, n);
      case Release(n) =>
    }
  }

  lemma ExchangeKeeps(s: State, s': State, t: Tid, initial: nat)
    requires Inv(s, initial) && t < |s.pcs| && Shaped(s, s', t) && Exchanged(s, s', t)
    ensures Inv(s', initial)
  {
    Moved(s, t, s'.pcs[t]);
    if s'.log != s.log {
      var g :| s'.log == s.log + [g] && g.got <= g.asked;
      AcquiredSnoc(s.log, g);
    }
  }

  lemma NextKeeps(s: State, s': State, initial: nat)
    requires Inv(s, initial) && Next(s, s')
    ensures Inv(s', initial)
  {
    if t: nat, pc :| t < |s.pcs| && s.pcs[t].Idle? && IsCall(pc) && s' == Goto(s, t, pc) {
      ExchangeKeeps(s, s', t, initial);
    } else {
      var t: nat, choice :| Enabled(s, t, choice) && s' == Step(s, t, choice);
      StepExchanges(s, t, choice);
      ExchangeKeeps(s, s', t, initial);
    }
  }

  lemma {:induction false} RunInv(run: seq<State>, initial: nat, at: nat)
    requires IsRun(run, initial) && at < |run|
    ensures Inv(run[at], initial)
  {
    if at == 0 {
      TotalIdle(run[0].pcs, Waiting);
      TotalIdle(run[0].pcs, Posting);
      TotalIdle(run[0].pcs, Partial);
    } else {
      RunInv(run, initial, at - 1);
      assert Next(run[at - 1], run[at - 1 + 1]);
      NextKeeps(run[at - 1], run[at], initial);
    }
  }

  // ---- What users of the semaphore rely on ----

  /** Permits acquired never exceed the initial ones plus those signalled, and no call returns more
      than it asked for. */
  lemma NeverOverIssued(run: seq<State>, initial: nat, at: nat)
    requires IsRun(run, initial) && at < |run|
    ensures Acquired(run[at].log) + Positive(run[at].count) <= initial + run[at].signalled
    ensures forall i :: 0 <= i < |run[at].log| ==> run[at].log[i].got <= run[at].log[i].asked
  {
    RunInv(run, initial, at);
  }

  /** Waiters that no post has been made or promised for number exactly max(0, -m_count). */
  lemma UnservedWaiters(run: seq<State>, initial: nat, at: nat)
    requires IsRun(run, initial) && at < |run|
    ensures var s := run[at];
      Total(s.pcs, Waiting) - s.sema - Total(s.pcs, Posting) == if s.count < 0 then -s.count else 0
  {
    RunInv(run, initial, at);
  }

  /** No wake-up is lost: with no signal under way, once the count is back to zero or above there is
      a post for every waiter, and while a waiter finds no post the count is below zero. */
  lemma NoLostWakeUp(run: seq<State>, initial: nat, at: nat)
    requires IsRun(run, initial) && at < |run|
    requires forall t :: 0 <= t < |run[at].pcs| ==> !run[at].pcs[t].Release?
    ensures 0 <= run[at].count ==> run[at].sema == Total(run[at].pcs, Waiting)
    ensures run[at].sema == 0 && 0 < Total(run[at].pcs, Waiting) ==> -run[at].count == Total(run[at].pcs, Waiting)
  {
    RunInv(run, initial, at);
    NoPosting(run[at].pcs);
  }

  lemma {:induction false} NoPosting(pcs: seq<Pc>)
    requires forall t :: 0 <= t < |pcs| ==> !pcs[t].Release?
    ensures Total(pcs, Posting) == 0
  {
    if pcs != [] { NoPosting(pcs[1..]); }
  }

  /** A thread left blocked in the kernel is released by the next signal: the signaller finds the
      count below zero and posts. */
  lemma SignalReachesWaiter(run: seq<State>, initial: nat, at: nat, t: Tid, waiter: Tid, n: nat)
    requires IsRun(run, initial) && at < |run| && t < |run[at].pcs| && waiter < |run[at].pcs|
    requires run[at].pcs[waiter].KernelWait? && run[at].sema == 0
    requires forall u :: 0 <= u < |run[at].pcs| ==> !run[at].pcs[u].Release?
    requires run[at].pcs[t] == SignalAdd(n) && 0 < n
    ensures exists posts :: 0 < posts <= n && Step(run[at], t, false).pcs[t] == Release(posts)
  {
    RunInv(run, initial, at);
    NoPosting(run[at].pcs);
    TotalAtLeast(run[at].pcs, waiter, Waiting);
    assert Step(run[at], t, false).pcs[t] == Release(Min(-run[at].count, n));
  }

  /** When every call has returned nothing is owed: the permits still there are those put in and
      not taken, and the kernel semaphore is empty. */
  lemma QuiescentBalance(run: seq<State>, initial: nat, at: nat)
    requires IsRun(run, initial) && at < |run|
    requires forall t :: 0 <= t < |run[at].pcs| ==> run[at].pcs[t].Idle?
    ensures 0 <= run[at].count && run[at].sema == 0
    ensures initial + run[at].signalled == Acquired(run[at].log) + run[at].count
  {
    RunInv(run, initial, at);
    TotalIdle(run[at].pcs, Waiting);
    TotalIdle(run[at].pcs, Posting);
    TotalIdle(run[at].pcs, Partial);
  }

  /** Whenever an attempt of `tryWaitMany` returns, on its own or behind a slow wait that got one permit, it
      has taken in that very access the smaller of what was asked for and what was there; an attempt that
      does not return has taken nothing. */
  lemma TakesSmaller(run: seq<State>, initial: nat, at: nat, t: Tid, choice: bool)
    requires IsRun(run, initial) && at < |run| && Enabled(run[at], t, choice)
    requires (run[at].pcs[t].TryLoad? || run[at].pcs[t].TryCas?) && run[at].pcs[t].after.Return?
    ensures var s, s', max, before := run[at], Step(run[at], t, choice), run[at].pcs[t].max, run[at].pcs[t].after.got;
      var taken := Min(Positive(s.count), max);
      if s'.pcs[t].Idle? then s'.log == s.log + [Grant(t, max + before, before + taken)] && s'.count == s.count - taken
      else s'.log == s.log && s'.count == s.count && 0 < s.count
  {
    RunInv(run, initial, at);
    assert PcOk(run[at].pcs[t]);
  }

  /** With nobody else at work and no spurious failure, `tryWaitMany` takes the smaller of what is asked for
      and what is there. */
  lemma LoneTryWaitMany(s: State, t: Tid, max: nat)
    requires t < |s.pcs| && s.pcs[t].Idle?
    ensures var s0 := Goto(s, t, TryLoad(max, Return(0)));
      && Enabled(s0, t, false)
      && var s1 := Step(s0, t, false);
      && (s.count <= 0 ==> s1 == s.(log := s.log + [Grant(t, max, 0)]))
      && (0 < s.count ==>
            && Enabled(s1, t, false)
            && Step(s1, t, false) == s.(count := s.count - Min(s.count, max), log := s.log + [Grant(t, max, Min(s.count, max))]))
  {
    assert s.pcs[t := TryLoad(max, Return(0))][t := Idle] == s.pcs;
    if 0 < s.count {
      var seen: nat := s.count;
      assert s.pcs[t := TryLoad(max, Return(0))][t := TryCas(max, seen, Return(0))][t := Idle] == s.pcs;
    }
  }
}
