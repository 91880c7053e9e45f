/** What a consumer's call takes, whatever the others do: less than it asked for only if, in the course of
    the call, everything beyond that was claimed. */
module DequeueCalls {

  import opened Arithmetic
  import opened Wrappers
  import opened DequeueAccounting

  // ---- States of one call ----

  /** From state k on up to state `at` consumer t is inside one call. */
  ghost predicate SameCall<T>(run: seq<State<T>>, k: nat, at: nat, t: Tid) {
    && k <= at < |run|
    && forall j :: k <= j <= at ==> t in run[j].pc && !run[j].pc[t].Idle?
  }

  /** What the call under way asked for, recorded when it comes in. */
  ghost function Asked<T>(run: seq<State<T>>, at: nat, t: Tid): nat
    requires at < |run|
  {
    if at == 0 || t !in run[at].pc || t !in run[at - 1].pc || run[at].pc[t].Idle? then 0
    else if run[at - 1].pc[t].Idle? && run[at].pc[t].LoadTail? then run[at].pc[t].max
    else Asked(run, at - 1, t)
  }

  ghost predicate TailSeen<T>(run: seq<State<T>>, at: nat, t: Tid, tail: nat) {
    exists a: nat :: SameCall(run, a, at, t) && |run[a].items| == tail
  }

  ghost predicate OvercommitSeen<T>(run: seq<State<T>>, at: nat, t: Tid, oc: nat) {
    exists b: nat :: SameCall(run, b, at, t) && run[b].overcommit == oc
  }

  /** The overcommit was read, and later the optimistic count. */
  ghost predicate ClaimSeen<T>(run: seq<State<T>>, at: nat, t: Tid, oc: nat, mine: nat) {
    exists b: nat, c: nat :: SameCall(run, b, at, t) && b <= c <= at && run[b].overcommit == oc && run[c].optimistic == mine
  }

  /** In the course of the call all elements but at most `got` were claimed: those there in state a are no
      more than `got` and the claims of state c that had not been given back by state b before it. */
  ghost predicate Claimed<T>(run: seq<State<T>>, at: nat, t: Tid, got: nat) {
    exists a: nat, b: nat, c: nat ::
      && SameCall(run, a, at, t) && SameCall(run, b, at, t) && b <= c <= at
      && |run[a].items| <= run[c].optimistic - run[b].overcommit + got
  }

  lemma Longer<T>(run: seq<State<T>>, k: nat, at: nat, t: Tid)
    requires SameCall(run, k, at, t) && at + 1 < |run| && t in run[at + 1].pc && !run[at + 1].pc[t].Idle?
    ensures SameCall(run, k, at + 1, t)
  {}

  lemma TailStays<T>(run: seq<State<T>>, at: nat, t: Tid, tail: nat)
    requires at + 1 < |run| && t in run[at + 1].pc && !run[at + 1].pc[t].Idle? && TailSeen(run, at, t, tail)
    ensures TailSeen(run, at + 1, t, tail)
  {
    var a: nat :| SameCall(run, a, at, t) && |run[a].items| == tail;
    Longer(run, a, at, t);
  }

  lemma OvercommitStays<T>(run: seq<State<T>>, at: nat, t: Tid, oc: nat)
    requires at + 1 < |run| && t in run[at + 1].pc && !run[at + 1].pc[t].Idle? && OvercommitSeen(run, at, t, oc)
    ensures OvercommitSeen(run, at + 1, t, oc)
  {
    var b: nat :| SameCall(run, b, at, t) && run[b].overcommit == oc;
    Longer(run, b, at, t);
  }

  lemma ClaimStays<T>(run: seq<State<T>>, at: nat, t: Tid, oc: nat, mine: nat)
    requires at + 1 < |run| && t in run[at + 1].pc && !run[at + 1].pc[t].Idle? && ClaimSeen(run, at, t, oc, mine)
    ensures ClaimSeen(run, at + 1, t, oc, mine)
  {
    var b: nat, c: nat :| SameCall(run, b, at, t) && b <= c <= at && run[b].overcommit == oc && run[c].optimistic == mine;
    Longer(run, b, at, t);
  }

  lemma ClaimedStays<T>(run: seq<State<T>>, at: nat, t: Tid, got: nat)
    requires at + 1 < |run| && t in run[at + 1].pc && !run[at + 1].pc[t].Idle? && Claimed(run, at, t, got)
    ensures Claimed(run, at + 1, t, got)
  {
    var a: nat, b: nat, c: nat :|
      && SameCall(run, a, at, t) && SameCall(run, b, at, t) && b <= c <= at
      && |run[a].items| <= run[c].optimistic - run[b].overcommit + got;
    Longer(run, a, at, t);
    Longer(run, b, at, t);
  }

  // ---- What the locals of a call mean ----

  /** The locals are what was read in earlier states of the call, and a share that falls short of what was
      asked for does so because the rest was claimed. */
  ghost predicate Meant<T>(run: seq<State<T>>, at: nat, t: Tid, pc: Pc, asked: nat) {
    match pc
    case Idle => true
    case LoadTail(max) => max == asked
    case LoadOvercommit(max, tail) => max == asked && TailSeen(run, at, t, tail)
    case LoadOptimistic(max, tail, oc) => max == asked && TailSeen(run, at, t, tail) && OvercommitSeen(run, at, t, oc)
    case AddOptimistic(oc, desired) =>
      OvercommitSeen(run, at, t, oc) && desired <= asked && (desired < asked ==> Claimed(run, at, t, desired))
    case ReloadTail(oc, desired, mine) =>
      ClaimSeen(run, at, t, oc, mine) && desired <= asked && (desired < asked ==> Claimed(run, at, t, desired))
    case AddOvercommit(_, actual, _) => actual <= asked && (actual < asked ==> Claimed(run, at, t, actual))
    case AddHead(_, actual) => actual <= asked && (actual < asked ==> Claimed(run, at, t, actual))
  }

  /** What an access of the call leads to, by what the state holds when it is made. */
  ghost predicate Goes<T>(s: State<T>, pc: Pc, pc': Pc) {
    match pc
    case LoadTail(max) => pc' == LoadOvercommit(max, |s.items|)
    case LoadOvercommit(max, tail) => pc' == LoadOptimistic(max, tail, s.overcommit)
    case LoadOptimistic(max, tail, oc) =>
      if tail <= s.optimistic - oc then pc' == Idle
      else pc' == AddOptimistic(oc, Min(tail - (s.optimistic - oc), max))
    case AddOptimistic(oc, desired) => pc' == ReloadTail(oc, desired, s.optimistic)
    case ReloadTail(oc, desired, mine) =>
      && (pc'.AddOvercommit? || pc'.AddHead?)
      && pc'.actual == (if |s.items| <= mine - oc then 0 else Min(desired, |s.items| - (mine - oc)))
    case AddOvercommit(mine, actual, _) => pc' == if 0 < actual then AddHead(mine, actual) else Idle
    case AddHead(_, _) => pc' == Idle
    case Idle => false
  }

  lemma AccessGoes<T>(s: State<T>, t: Tid)
    requires t in s.pc && !s.pc[t].Idle? && PcOk(s, s.pc[t])
    ensures Access(s, t).pc == s.pc[t := Access(s, t).pc[t]] && Goes(s, s.pc[t], Access(s, t).pc[t])
  {}

  lemma OnlyOwn<T>(s: State<T>, u: Tid)
    requires u in s.pc && !s.pc[u].Idle? && PcOk(s, s.pc[u])
    ensures u in Access(s, u).pc && Access(s, u).pc == s.pc[u := Access(s, u).pc[u]]
  {
    AccessGoes(s, u);
  }

  /** In a step consumer t stands, comes in with a call, or makes an access. */
  lemma StepOf<T(!new)>(s: State<T>, s': State<T>, t: Tid)
    requires Next(s, s') && t in s.pc
    ensures t in s'.pc
    ensures s'.pc[t] == s.pc[t] || (s.pc[t].Idle? && s'.pc[t].LoadTail?) || (!s.pc[t].Idle? && Goes(s, s.pc[t], s'.pc[t]))
  {
    hide Access, Goes, PcOk;
    if more :| s' == Publish(s, more) {
    } else if u, max :| u in s.pc && s.pc[u].Idle? && s' == Call(s, u, max) {
    } else {
      var u :| u in s.pc && !s.pc[u].Idle? && PcOk(s, s.pc[u]) && s' == Access(s, u);
      AccessGoes(s, u);
    }
  }

  lemma StaysMeant<T>(run: seq<State<T>>, at: nat, t: Tid, pc: Pc, asked: nat)
    requires at + 1 < |run| && t in run[at + 1].pc && !run[at + 1].pc[t].Idle? && Meant(run, at, t, pc, asked)
    ensures Meant(run, at + 1, t, pc, asked)
  {
    hide TailSeen, OvercommitSeen, ClaimSeen, Claimed;
    match pc {
      case LoadTail(_) =>
      case LoadOvercommit(_, tail) => TailStays(run, at, t, tail);
      case LoadOptimistic(_, tail, oc) => TailStays(run, at, t, tail); OvercommitStays(run, at, t, oc);
      case AddOptimistic(oc, desired) => OvercommitStays(run, at, t, oc); ShortStays(run, at, t, desired, asked);
      case ReloadTail(oc, desired, mine) => ClaimStays(run, at, t, oc, mine); ShortStays(run, at, t, desired, asked);
      case AddOvercommit(_, actual, _) => ShortStays(run, at, t, actual, asked);
      case AddHead(_, actual) => ShortStays(run, at, t, actual, asked);
      case Idle =>
    }
  }

  lemma ShortStays<T>(run: seq<State<T>>, at: nat, t: Tid, got: nat, asked: nat)
    requires at + 1 < |run| && t in run[at + 1].pc && !run[at + 1].pc[t].Idle? && (got < asked ==> Claimed(run, at, t, got))
    ensures got < asked ==> Claimed(run, at + 1, t, got)
  {
    if got < asked { ClaimedStays(run, at, t, got); }
  }

  /** What is loaded now is seen in this state of the call. */
  lemma SeenNow<T>(run: seq<State<T>>, at: nat, t: Tid)
    requires at < |run| && t in run[at].pc && !run[at].pc[t].Idle?
    ensures TailSeen(run, at, t, |run[at].items|) && OvercommitSeen(run, at, t, run[at].overcommit)
  {
    assert SameCall(run, at, at, t);
  }

  lemma ClaimedByCount<T>(run: seq<State<T>>, at: nat, t: Tid, tail: nat, oc: nat, got: nat)
    requires at < |run| && TailSeen(run, at, t, tail) && OvercommitSeen(run, at, t, oc) && tail <= run[at].optimistic - oc + got
    ensures Claimed(run, at, t, got)
  {
    var a: nat :| SameCall(run, a, at, t) && |run[a].items| == tail;
    var b: nat :| SameCall(run, b, at, t) && run[b].overcommit == oc;
  }

  lemma ClaimedBefore<T>(run: seq<State<T>>, at: nat, t: Tid, oc: nat, mine: nat, got: nat)
    requires at < |run| && t in run[at].pc && !run[at].pc[t].Idle? && ClaimSeen(run, at, t, oc, mine)
    requires |run[at].items| <= mine - oc + got
    ensures Claimed(run, at, t, got)
  {
    assert SameCall(run, at, at, t);
    var b: nat, c: nat :| SameCall(run, b, at, t) && b <= c <= at && run[b].overcommit == oc && run[c].optimistic == mine;
  }

  lemma ClaimNow<T>(run: seq<State<T>>, at: nat, t: Tid, oc: nat)
    requires at < |run| && OvercommitSeen(run, at, t, oc)
    ensures ClaimSeen(run, at, t, oc, run[at].optimistic)
  {
    var b: nat :| SameCall(run, b, at, t) && run[b].overcommit == oc;
  }

  /** An access keeps the meaning of the locals, and a call that ends with it has taken what it asked for or
      what was not claimed. The share of a call is known when it adds it to the head. */
  lemma GoesMeant<T>(run: seq<State<T>>, at: nat, t: Tid, asked: nat, pc': Pc)
    requires at < |run| && t in run[at].pc && !run[at].pc[t].Idle?
    requires Meant(run, at, t, run[at].pc[t], asked) && Goes(run[at], run[at].pc[t], pc')
    ensures Meant(run, at, t, pc', asked)
    ensures pc'.Idle? && 0 < asked && !run[at].pc[t].AddHead? ==> Claimed(run, at, t, 0)
  {
    hide TailSeen, OvercommitSeen, ClaimSeen, Claimed;
    SeenNow(run, at, t);
    match run[at].pc[t] {
      case LoadOptimistic(_, _, _) => ChecksMeant(run, at, t, asked, pc');
      case ReloadTail(_, _, _) => DecidesMeant(run, at, t, asked, pc');
      case AddOptimistic(oc, _) => ClaimNow(run, at, t, oc);
      case _ =>
    }
  }

  lemma ChecksMeant<T>(run: seq<State<T>>, at: nat, t: Tid, asked: nat, pc': Pc)
    requires at < |run| && t in run[at].pc && run[at].pc[t].LoadOptimistic?
    requires Meant(run, at, t, run[at].pc[t], asked) && Goes(run[at], run[at].pc[t], pc')
    ensures Meant(run, at, t, pc', asked) && (pc'.Idle? ==> Claimed(run, at, t, 0))
  {
    hide TailSeen, OvercommitSeen, ClaimSeen, Claimed;
    var tail, oc := run[at].pc[t].tail, run[at].pc[t].overcommit;
    if pc'.Idle? { ClaimedByCount(run, at, t, tail, oc, 0); }
    else if pc'.desired < asked { ClaimedByCount(run, at, t, tail, oc, pc'.desired); }
  }

  lemma DecidesMeant<T>(run: seq<State<T>>, at: nat, t: Tid, asked: nat, pc': Pc)
    requires at < |run| && t in run[at].pc && run[at].pc[t].ReloadTail?
    requires Meant(run, at, t, run[at].pc[t], asked) && Goes(run[at], run[at].pc[t], pc')
    ensures Meant(run, at, t, pc', asked) && !pc'.Idle?
  {
    hide TailSeen, OvercommitSeen, ClaimSeen, Claimed;
    var pc := run[at].pc[t];
    if pc'.actual < pc.desired { ClaimedBefore(run, at, t, pc.overcommit, pc.mine, pc'.actual); }
  }

  lemma {:induction false} RunMeant<T(!new)>(run: seq<State<T>>, at: nat, t: Tid)
    requires IsRun(run) && at < |run| && t in run[0].pc
    ensures t in run[at].pc && (!run[at].pc[t].Idle? ==> Meant(run, at, t, run[at].pc[t], Asked(run, at, t)))
  {
    hide Next, Meant, Goes;
    if at > 0 {
      RunMeant(run, at - 1, t);
      assert Next(run[at - 1], run[at - 1 + 1]);
      StepOf(run[at - 1], run[at], t);
      var pc, pc' := run[at - 1].pc[t], run[at].pc[t];
      if !pc'.Idle? {
        if pc.Idle? {
          ComesIn(run, at, t);
        } else {
          if pc' != pc { GoesMeant(run, at - 1, t, Asked(run, at - 1, t), pc'); }
          StaysMeant(run, at - 1, t, pc', Asked(run, at - 1, t));
        }
      }
    }
  }

  lemma ComesIn<T>(run: seq<State<T>>, at: nat, t: Tid)
    requires 0 < at < |run| && t in run[at].pc && t in run[at - 1].pc && run[at - 1].pc[t].Idle? && run[at].pc[t].LoadTail?
    ensures Meant(run, at, t, run[at].pc[t], Asked(run, at, t))
  {}

  /** Whatever the others do, a call of a consumer never takes more than it asked for, and it takes less only
      if all other elements were claimed: in the course of the call there were states a, and b before c,
      such that the elements there in a are no more than what it takes and the claims of c that had not
      been given back in b. In particular it returns with nothing only if every element was claimed. */
  lemma TakesWhatIsUnclaimed<T(!new)>(run: seq<State<T>>, at: nat, t: Tid)
    requires IsRun(run) && at + 1 < |run| && t in run[0].pc
    ensures t in run[at].pc && t in run[at + 1].pc
    ensures run[at].pc[t].AddHead? ==>
      run[at].pc[t].actual <= Asked(run, at, t) && (run[at].pc[t].actual < Asked(run, at, t) ==> Claimed(run, at, t, run[at].pc[t].actual))
    ensures !run[at].pc[t].Idle? && !run[at].pc[t].AddHead? && run[at + 1].pc[t].Idle? && 0 < Asked(run, at, t) ==> Claimed(run, at, t, 0)
  {
    RunMeant(run, at, t);
    assert Next(run[at], run[at + 1]);
    StepOf(run[at], run[at + 1], t);
    hide Next, IsRun, TailSeen, OvercommitSeen, ClaimSeen, Claimed, Goes;
    if !run[at].pc[t].Idle? && run[at + 1].pc[t].Idle? { GoesMeant(run, at, t, Asked(run, at, t), run[at + 1].pc[t]); }
  }

  /** The claims of a state that had not been given back before: elements due to calls, claims that are still
      open, and claims that found nothing and had not been given back. */
  lemma ClaimsAre<T(!new)>(run: seq<State<T>>, b: nat, c: nat)
    requires IsRun(run) && b <= c < |run|
    ensures var s := run[c];
      s.optimistic - run[b].overcommit ==
        Count(s.slots, IsWon) + (|s.slots| - Count(s.slots, IsWon) - Count(s.slots, IsLost))
        + (Count(s.slots, IsLost) - Count(run[b].slots, IsPosted))
  {
    RunInv(run, b);
    RunInv(run, c);
  }
}
