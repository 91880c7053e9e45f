/** The blocking queue: a concurrent queue and a semaphore. Enqueuers add elements and then signal;
    dequeuers obtain permits and then redeem each for an element, retrying while the queue's own
    `try_dequeue` comes back empty-handed. */
module BlockingQueue {

  import S = Semaphore

  type Tid = nat

  /** Where a thread is in its call. `Calling` is inside the semaphore. */
  datatype Pc =
    | Idle
    | Enqueued(n: nat)     // n elements are in, about to signal(n)
    | Signalling
    | Waiting
    | Draining(left: nat)  // holds permits, redeems them one try at a time

  /** `added` and `removed` count the elements that went in and out; they are auxiliary. */
  datatype State = State(sem: S.State, present: nat, pcs: seq<Pc>, added: nat, removed: nat)

  function Goto(s: State, t: Tid, pc: Pc): State
    requires t < |s.pcs|
  {
    s.(pcs := s.pcs[t := pc])
  }

  /** inner.enqueue or enqueue_bulk of n elements succeeded. */
  function Enqueue(s: State, t: Tid, n: nat): State
    requires t < |s.pcs|
  {
    Goto(s, t, Enqueued(n)).(present := s.present + n, added := s.added + n)
  }

  function CallSignal(s: State, t: Tid, n: nat): State
    requires t < |s.pcs| && t < |s.sem.pcs|
  {
    Goto(s, t, Signalling).(sem := S.Goto(s.sem, t, S.SignalAdd(n)))
  }

  /** Any of the dequeue calls, with or without blocking: at most `max` permits are asked for. */
  function CallWait(s: State, t: Tid, max: nat, after: S.After): State
    requires t < |s.pcs| && t < |s.sem.pcs|
  {
    Goto(s, t, Waiting).(sem := S.Goto(s.sem, t, S.TryLoad(max, after)))
  }

  /** A step inside the semaphore; when it returns, a dequeuer goes on with what it obtained. */
  function SemStep(s: State, t: Tid, choice: bool): State
    requires t < |s.pcs| && S.Enabled(s.sem, t, choice)
  {
    var sem := S.Step(s.sem, t, choice);
    if t < |sem.pcs| && sem.pcs[t].Idle? then
      Goto(s, t, if s.pcs[t].Waiting? && |s.sem.log| < |sem.log| then Draining(sem.log[|s.sem.log|].got) else Idle)
        .(sem := sem)
    else s.(sem := sem)
  }

  /** One try on the inner queue takes k elements: none if it missed the ones that are there. */
  function Redeem(s: State, t: Tid, k: nat): State
    requires t < |s.pcs| && s.pcs[t].Draining? && k <= s.pcs[t].left && k <= s.present
  {
    Goto(s, t, if k < s.pcs[t].left then Draining(s.pcs[t].left - k) else Idle)
      .(present := s.present - k, removed := s.removed + k)
  }

  ghost predicate Next(s: State, s': State) {
    exists t: nat :: t < |s.pcs| && t < |s.sem.pcs| && ThreadNext(s, s', t)
  }

  ghost predicate ThreadNext(s: State, s': State, t: Tid)
    requires t < |s.pcs| && t < |s.sem.pcs|
  {
    match s.pcs[t]
    case Idle =>
      || (exists n :: s' == Enqueue(s, t, n))
      || (exists max, after: S.After :: (after == S.Return(0) || after.Block?) && s' == CallWait(s, t, max, after))
    case Enqueued(n) => s' == CallSignal(s, t, n)
    case Signalling => exists choice :: S.Enabled(s.sem, t, choice) && s' == SemStep(s, t, choice)
    case Waiting => exists choice :: S.Enabled(s.sem, t, choice) && s' == SemStep(s, t, choice)
    case Draining(left) => exists k: nat :: k <= left && k <= s.present && s' == Redeem(s, t, k)
  }

  predicate Init(s: State) {
    && S.Init(s.sem, 0) && |s.pcs| == |s.sem.pcs| && s.present == 0 && s.added == 0 && s.removed == 0
    && forall t :: 0 <= t < |s.pcs| ==> s.pcs[t].Idle?
  }

  ghost predicate IsRun(run: seq<State>) {
    && run != [] && Init(run[0])
    && forall i :: 0 <= i < |run| - 1 ==> Next(run[i], run[i + 1])
  }

  // ---- The invariant ----

  /** Elements a thread has added and not signalled yet. */
  function Unsignalled(pc: Pc, sem: S.Pc): nat {
    if pc.Enqueued? then pc.n else if sem.SignalAdd? then sem.n else 0
  }

  /** Permits a thread holds and has not redeemed yet. */
  function Permits(pc: Pc): nat { if pc.Draining? then pc.left else 0 }

  function TotalUnsignalled(pcs: seq<Pc>, sem: seq<S.Pc>): nat
    requires |pcs| == |sem|
  {
    if pcs == [] then 0 else Unsignalled(pcs[0], sem[0]) + TotalUnsignalled(pcs[1..], sem[1..])
  }

  function TotalPermits(pcs: seq<Pc>): nat {
    if pcs == [] then 0 else Permits(pcs[0]) + TotalPermits(pcs[1..])
  }

  lemma {:induction false} UnsignalledUpdate(pcs: seq<Pc>, sem: seq<S.Pc>, t: nat, pc: Pc, spc: S.Pc)
    requires t < |pcs| == |sem|
    ensures TotalUnsignalled(pcs[t := pc], sem[t := spc]) ==
      TotalUnsignalled(pcs, sem) - Unsignalled(pcs[t], sem[t]) + Unsignalled(pc, spc)
  {
    if t == 0 {
      assert pcs[t := pc][1..] == pcs[1..] && sem[t := spc][1..] == sem[1..];
    } else {
      assert pcs[t := pc][1..] == pcs[1..][t - 1 := pc] && sem[t := spc][1..] == sem[1..][t - 1 := spc];
      UnsignalledUpdate(pcs[1..], sem[1..], t - 1, pc, spc);
    }
  }

  lemma {:induction false} PermitsUpdate(pcs: seq<Pc>, t: nat, pc: Pc)
    requires t < |pcs|
    ensures TotalPermits(pcs[t := pc]) == TotalPermits(pcs) - Permits(pcs[t]) + Permits(pc)
  {
    if t == 0 {
      assert pcs[t := pc][1..] == pcs[1..];
    } else {
      assert pcs[t := pc][1..] == pcs[1..][t - 1 := pc];
      PermitsUpdate(pcs[1..], t - 1, pc);
    }
  }

  /** A thread inside the semaphore runs the operation its call is for. */
  predicate Agrees(pc: Pc, sem: S.Pc) {
    match pc
    case Signalling => sem.SignalAdd? || sem.Release?
    case Waiting => !sem.Idle? && !sem.SignalAdd? && !sem.Release?
    case Idle => sem.Idle?
    case Enqueued(_) => sem.Idle?
    case Draining(_) => sem.Idle?
  }

  ghost predicate Inv(s: State) {
    && S.Inv(s.sem, 0) && |s.pcs| == |s.sem.pcs|
    && (forall t :: 0 <= t < |s.pcs| ==> Agrees(s.pcs[t], s.sem.pcs[t]))
    && s.added == s.sem.signalled + TotalUnsignalled(s.pcs, s.sem.pcs)
    && S.Acquired(s.sem.log) == s.removed + TotalPermits(s.pcs)
    && s.added == s.removed + s.present
  }

  /** A step of one thread, seen from the totals. */
  ghost predicate StepOk(s: State, s': State, t: Tid)
    requires t < |s.pcs| == |s.sem.pcs|
  {
    && |s'.pcs| == |s'.sem.pcs| == |s.pcs| && S.Inv(s'.sem, 0)
    && s'.pcs == s.pcs[t := s'.pcs[t]] && s'.sem.pcs == s.sem.pcs[t := s'.sem.pcs[t]]
    && Agrees(s'.pcs[t], s'.sem.pcs[t])
    && s'.added - s.added == s'.sem.signalled - s.sem.signalled
         + Unsignalled(s'.pcs[t], s'.sem.pcs[t]) - Unsignalled(s.pcs[t], s.sem.pcs[t])
    && S.Acquired(s'.sem.log) - S.Acquired(s.sem.log) == s'.removed - s.removed + Permits(s'.pcs[t]) - Permits(s.pcs[t])
    && s'.added - s.added == s'.removed - s.removed + s'.present - s.present
  }

  lemma StepOkKeeps(s: State, s': State, t: Tid)
    requires Inv(s) && t < |s.pcs| && StepOk(s, s', t)
    ensures Inv(s')
  {
    UnsignalledUpdate(s.pcs, s.sem.pcs, t, s'.pcs[t], s'.sem.pcs[t]);
    PermitsUpdate(s.pcs, t, s'.pcs[t]);
    hide S.Inv, S.Acquired;
  }

  lemma CallKeeps(s: State, t: Tid, pc: S.Pc)
    requires S.Inv(s.sem, 0) && t < |s.sem.pcs| && s.sem.pcs[t].Idle? && S.IsCall(pc)
    ensures S.Inv(S.Goto(s.sem, t, pc), 0)
  {
    S.NextKeeps(s.sem, S.Goto(s.sem, t, pc), 0);
  }

  /** Which way a semaphore call goes: signalling ends without a return entry, waiting ends with one. */
  lemma SemShape(sem: S.State, t: Tid, choice: bool)
    requires S.Enabled(sem, t, choice) && S.PcOk(sem.pcs[t])
    ensures var pc, sem' := sem.pcs[t], S.Step(sem, t, choice);
      && |sem'.pcs| == |sem.pcs|
      && (pc.SignalAdd? ==> sem'.log == sem.log && (sem'.pcs[t].Idle? || sem'.pcs[t].Release?)
                            && sem'.signalled == sem.signalled + pc.n)
      && (pc.Release? ==> sem'.log == sem.log && (sem'.pcs[t].Idle? || sem'.pcs[t].Release?))
      && (!pc.SignalAdd? ==> sem'.signalled == sem.signalled)
      && (!pc.SignalAdd? && !pc.Release? ==>
            && !sem'.pcs[t].SignalAdd? && !sem'.pcs[t].Release?
            && (sem'.pcs[t].Idle? <==> |sem'.log| == |sem.log| + 1)
            && (!sem'.pcs[t].Idle? ==> sem'.log == sem.log))
  {}

  lemma SemInvKeeps(sem: S.State, t: Tid, choice: bool)
    requires S.Inv(sem, 0) && S.Enabled(sem, t, choice)
    ensures var sem' := S.Step(sem, t, choice);
      && S.Inv(sem', 0) && S.PcOk(sem.pcs[t]) && |sem'.pcs| == |sem.pcs| && sem'.pcs == sem.pcs[t := sem'.pcs[t]]
      && S.Acquired(sem'.log) == S.Acquired(sem.log) + (if |sem.log| < |sem'.log| then sem'.log[|sem.log|].got else 0)
  {
    var sem' := S.Step(sem, t, choice);
    S.StepExchanges(sem, t, choice);
    S.ExchangeKeeps(sem, sem', t, 0);
    if sem.log != sem'.log {
      var g :| sem'.log == sem.log + [g] && g.got <= g.asked;
      S.AcquiredSnoc(sem.log, g);
    }
    hide S.Step, S.Inv;
  }

  lemma SemKeeps(s: State, t: Tid, choice: bool)
    requires Inv(s) && t < |s.pcs| && (s.pcs[t].Waiting? || s.pcs[t].Signalling?) && S.Enabled(s.sem, t, choice)
    ensures Inv(SemStep(s, t, choice))
  {
    assert Agrees(s.pcs[t], s.sem.pcs[t]);
    SemInvKeeps(s.sem, t, choice);
    SemShape(s.sem, t, choice);
    hide S.Inv, S.Step, S.Acquired, S.Enabled, Inv;
    assert StepOk(s, SemStep(s, t, choice), t);
    hide StepOk, SemStep;
    StepOkKeeps(s, SemStep(s, t, choice), t);
  }

  lemma IdleKeeps(s: State, s': State, t: Tid)
    requires Inv(s) && t < |s.pcs| && s.pcs[t].Idle? && ThreadNext(s, s', t)
    ensures Inv(s')
  {
    assert Agrees(s.pcs[t], s.sem.pcs[t]);
    hide S.Inv, S.Step, S.Acquired, S.Enabled;
    if n :| s' == Enqueue(s, t, n) {
      StepOkKeeps(s, s', t);
    } else {
      var max, after: S.After :| (after == S.Return(0) || after.Block?) && s' == CallWait(s, t, max, after);
      CallKeeps(s, t, S.TryLoad(max, after));
      StepOkKeeps(s, s', t);
    }
  }

  lemma QueueKeeps(s: State, s': State, t: Tid)
    requires Inv(s) && t < |s.pcs| && (s.pcs[t].Enqueued? || s.pcs[t].Draining?) && ThreadNext(s, s', t)
    ensures Inv(s')
  {
    assert Agrees(s.pcs[t], s.sem.pcs[t]);
    hide S.Inv, S.Step, S.Acquired, S.Enabled;
    if s.pcs[t].Enqueued? {
      CallKeeps(s, t, S.SignalAdd(s.pcs[t].n));
    } else {
      var k: nat :| k <= s.pcs[t].left && k <= s.present && s' == Redeem(s, t, k);
    }
    StepOkKeeps(s, s', t);
  }

  lemma NextKeeps(s: State, s': State)
    requires Inv(s) && Next(s, s')
    ensures Inv(s')
  {
    var t: nat :| t < |s.pcs| && t < |s.sem.pcs| && ThreadNext(s, s', t);
    hide Inv, S.Step, S.Enabled;
    if s.pcs[t].Idle? {
      IdleKeeps(s, s', t);
    } else if s.pcs[t].Enqueued? || s.pcs[t].Draining? {
      QueueKeeps(s, s', t);
    } else {
      var choice :| S.Enabled(s.sem, t, choice) && s' == SemStep(s, t, choice);
      SemKeeps(s, t, choice);
    }
  }

  lemma {:induction false} RunInv(run: seq<State>, at: nat)
    requires IsRun(run) && at < |run|
    ensures Inv(run[at])
  {
    if at == 0 {
      InitInv(run[0]);
    } else {
      RunInv(run, at - 1);
      assert Next(run[at - 1], run[at - 1 + 1]);
      NextKeeps(run[at - 1], run[at]);
    }
  }

  lemma InitInv(s: State)
    requires Init(s)
    ensures Inv(s)
  {
    S.RunInv([s.sem], 0, 0);
    Nothing(s.pcs, s.sem.pcs);
  }

  lemma {:induction false} Nothing(pcs: seq<Pc>, sem: seq<S.Pc>)
    requires |pcs| == |sem| && forall t :: 0 <= t < |pcs| ==> pcs[t].Idle? && sem[t].Idle?
    ensures TotalUnsignalled(pcs, sem) == 0 && TotalPermits(pcs) == 0
  {
    if pcs != [] { Nothing(pcs[1..], sem[1..]); }
  }

  // ---- What callers rely on ----

  /** Where every element present is spoken for: by a permit holder, by a permit still in the
      semaphore or in a call, or by an enqueuer that has not signalled yet. */
  lemma ElementsAccounted(run: seq<State>, at: nat)
    requires IsRun(run) && at < |run|
    ensures |run[at].pcs| == |run[at].sem.pcs|
    ensures var s := run[at];
      s.present == TotalPermits(s.pcs) + S.Total(s.sem.pcs, S.Partial) + S.Positive(s.sem.count) + s.sem.sema
                   + S.Total(s.sem.pcs, S.Posting) + TotalUnsignalled(s.pcs, s.sem.pcs)
  {
    RunInv(run, at);
  }

  lemma {:induction false} PermitsAtLeast(pcs: seq<Pc>, t: nat)
    requires t < |pcs|
    ensures Permits(pcs[t]) <= TotalPermits(pcs)
  {
    if t > 0 { PermitsAtLeast(pcs[1..], t - 1); }
  }

  /** Permit holders never outnumber the elements present, so the retry loop of a dequeuer always
      has an element left to find. */
  lemma HoldersNeverOutnumberElements(run: seq<State>, at: nat)
    requires IsRun(run) && at < |run|
    ensures TotalPermits(run[at].pcs) <= run[at].present
    ensures forall t :: 0 <= t < |run[at].pcs| && run[at].pcs[t].Draining? ==> run[at].pcs[t].left <= run[at].present
  {
    ElementsAccounted(run, at);
    forall t | 0 <= t < |run[at].pcs| && run[at].pcs[t].Draining?
      ensures run[at].pcs[t].left <= run[at].present
    {
      PermitsAtLeast(run[at].pcs, t);
    }
  }

  /** Between calls the semaphore's count is the number of elements present: nothing that was
      enqueued is out of reach and nothing is promised that is not there. */
  lemma QuiescentCount(run: seq<State>, at: nat)
    requires IsRun(run) && at < |run|
    requires forall t :: 0 <= t < |run[at].pcs| ==> run[at].pcs[t].Idle?
    ensures run[at].sem.count == run[at].present && run[at].sem.sema == 0
  {
    RunInv(run, at);
    var s := run[at];
    forall t | 0 <= t < |s.pcs| ensures s.sem.pcs[t].Idle? { assert Agrees(s.pcs[t], s.sem.pcs[t]); }
    Nothing(s.pcs, s.sem.pcs);
    S.TotalIdle(s.sem.pcs, S.Waiting);
    S.TotalIdle(s.sem.pcs, S.Posting);
    S.TotalIdle(s.sem.pcs, S.Partial);
  }
}
