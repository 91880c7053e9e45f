/** What the calls on the free list do for their callers: `try_get` comes back with nothing only if the
    list was empty during the call, and alone it takes the first node, as `add` alone puts one there. */
module FreeListCalls {

  import opened FreeList

  // ---- A call that comes back with nothing ----

  predicate Resumes(a: After) { a.Retry? }

  /** Thread is inside `try_get`, the re-adding of a node on the way included. */
  predicate InTryGet(pc: Pc) {
    match pc
    case GetHead => true
    case ReadRefs(_) => true
    case Acquire(_, _) => true
    case ReadNext(_) => true
    case SwapOut(_, _) => true
    case CheckFlag(_) => true
    case DropTwo(_) => true
    case DropOne(_, _) => true
    case LoadHead(_, a) => Resumes(a)
    case StoreNext(_, _, a) => Resumes(a)
    case StoreRefs(_, _, a) => Resumes(a)
    case SwapIn(_, _, a) => Resumes(a)
    case Reflag(_, _, a) => Resumes(a)
    case _ => false
  }

  /** The value of the local `head` that the loop will test next. */
  function LocalHead(pc: Pc): (h: Ptr)
    requires HoldsHead(pc)
  {
    match pc
    case ReadRefs(h) => h
    case DropOne(_, h) => h
    case LoadHead(_, a) => a.head
    case StoreNext(_, _, a) => a.head
    case StoreRefs(_, _, a) => a.head
    case SwapIn(_, _, a) => a.head
    case Reflag(_, _, a) => a.head
  }

  predicate HoldsHead(pc: Pc) {
    match pc
    case ReadRefs(_) => true
    case DropOne(_, _) => true
    case LoadHead(_, a) => Resumes(a)
    case StoreNext(_, _, a) => Resumes(a)
    case StoreRefs(_, _, a) => Resumes(a)
    case SwapIn(_, _, a) => Resumes(a)
    case Reflag(_, _, a) => Resumes(a)
    case _ => false
  }

  /** From state k on up to state `at` thread t is inside one `try_get`. */
  ghost predicate SameCall(run: seq<State>, k: nat, at: nat, t: Tid) {
    && k <= at < |run|
    && forall j :: k <= j <= at ==> t in run[j].pc && InTryGet(run[j].pc[t])
  }

  /** In a state of the call under way the head of the list was h. */
  ghost predicate HeadWas(run: seq<State>, at: nat, t: Tid, h: Ptr) {
    exists k: nat :: SameCall(run, k, at, t) && run[k].head == h
  }

  /** How one access changes the local `head`: it is loaded from the list, or it stays. */
  lemma HeadLoaded(s: State, t: Tid)
    requires WellFormed(s) && t in s.pc && !s.pc[t].Idle? && t in Access(s, t).pc && HoldsHead(Access(s, t).pc[t])
    ensures InTryGet(s.pc[t])
    ensures (HoldsHead(s.pc[t]) && LocalHead(s.pc[t]) == LocalHead(Access(s, t).pc[t])) || s.head == LocalHead(Access(s, t).pc[t])
  {
    if Links(s.pc[t]) { HeadLinking(s, t); } else { HeadTaking(s, t); }
    hide Access, WellFormed;
  }

  lemma HeadLinking(s: State, t: Tid)
    requires WellFormed(s) && t in s.pc && Links(s.pc[t]) && t in Access(s, t).pc && HoldsHead(Access(s, t).pc[t])
    ensures InTryGet(s.pc[t]) && HoldsHead(s.pc[t]) && LocalHead(s.pc[t]) == LocalHead(Access(s, t).pc[t])
  {}

  lemma HeadTaking(s: State, t: Tid)
    requires WellFormed(s) && t in s.pc && !s.pc[t].Idle? && !Links(s.pc[t]) && t in Access(s, t).pc && HoldsHead(Access(s, t).pc[t])
    ensures InTryGet(s.pc[t])
    ensures (HoldsHead(s.pc[t]) && LocalHead(s.pc[t]) == LocalHead(Access(s, t).pc[t])) || s.head == LocalHead(Access(s, t).pc[t])
  {}

  lemma OthersStay(s: State, s': State, t: Tid)
    requires Next(s, s') && t in s'.pc
    ensures t in s.pc
    ensures
      || s'.pc[t] == s.pc[t]
      || (s.pc[t].Idle? && !HoldsHead(s'.pc[t]))
      || (WellFormed(s) && !s.pc[t].Idle? && s' == Access(s, t))
  {
    var u :| u in s.pc && (
      || (exists n :: CanAdd(s, u, n) && s' == CallAdd(s, u, n))
      || (s.pc[u].Idle? && s' == CallTryGet(s, u))
      || (!s.pc[u].Idle? && s' == Access(s, u)));
    if !s.pc[u].Idle? {
      OwnPc(s, u);
      hide Access, WellFormed;
    }
  }

  lemma {:induction false} HeadWasThere(run: seq<State>, at: nat, t: Tid)
    requires IsRun(run) && at < |run| && t in run[at].pc && HoldsHead(run[at].pc[t])
    ensures HeadWas(run, at, t, LocalHead(run[at].pc[t]))
  {
    hide Next, Init;
    StartsIdle(run[0]);
    if 0 < at {
      assert Next(run[at - 1], run[at - 1 + 1]);
      var s, s' := run[at - 1], run[at];
      OthersStay(s, s', t);
      if s'.pc[t] == s.pc[t] {
        HeadWasThere(run, at - 1, t);
        StillThere(run, at - 1, t, LocalHead(s.pc[t]));
      } else {
        HeadLoaded(s, t);
        if s.head == LocalHead(s'.pc[t]) {
          assert SameCall(run, at - 1, at, t);
        } else {
          HeadWasThere(run, at - 1, t);
          StillThere(run, at - 1, t, LocalHead(s.pc[t]));
        }
      }
    }
  }

  lemma StartsIdle(s: State)
    requires Init(s)
    ensures forall t :: t in s.pc ==> s.pc[t] == Idle
  {}

  lemma StillThere(run: seq<State>, at: nat, t: Tid, h: Ptr)
    requires HeadWas(run, at, t, h) && at + 1 < |run| && t in run[at + 1].pc && InTryGet(run[at + 1].pc[t])
    ensures HeadWas(run, at + 1, t, h)
  {
    var k: nat :| SameCall(run, k, at, t) && run[k].head == h;
    assert SameCall(run, k, at + 1, t);
  }

  /** How a `try_get` ends: with the node it returns, or at the test of a null head. */
  lemma EndsAt(s: State, s': State, t: Tid)
    requires Next(s, s') && t in s.pc && t in s'.pc && InTryGet(s.pc[t]) && s'.pc[t].Idle?
    ensures (s.pc[t].DropTwo? && s'.log == s.log + [Got(t, s.pc[t].n)]) || (s.pc[t] == ReadRefs(Null) && s'.log == s.log)
  {
    AccessEnds(s, t);
    var u :| u in s.pc && (
      || (exists n :: CanAdd(s, u, n) && s' == CallAdd(s, u, n))
      || (s.pc[u].Idle? && s' == CallTryGet(s, u))
      || (!s.pc[u].Idle? && s' == Access(s, u)));
    hide Access, WellFormed;
    if u != t && !s.pc[u].Idle? { OwnPc(s, u); }
  }

  predicate Links(pc: Pc) { pc.AddFlag? || pc.LoadHead? || pc.StoreNext? || pc.StoreRefs? || pc.SwapIn? || pc.Reflag? }

  /** An access moves the program counter of its own thread and no other. */
  lemma OwnPc(s: State, t: Tid)
    requires WellFormed(s) && t in s.pc && !s.pc[t].Idle?
    ensures t in Access(s, t).pc && Access(s, t).pc == s.pc[t := Access(s, t).pc[t]]
  {
    if Links(s.pc[t]) { OwnPcLinking(s, t); }
    else if Claims(s.pc[t]) { OwnPcClaiming(s, t); }
    else { OwnPcTaking(s, t); }
    hide Access, WellFormed;
  }

  lemma OwnPcLinking(s: State, t: Tid)
    requires WellFormed(s) && t in s.pc && Links(s.pc[t])
    ensures t in Access(s, t).pc && Access(s, t).pc == s.pc[t := Access(s, t).pc[t]]
  {}

  predicate Claims(pc: Pc) { pc.GetHead? || pc.ReadRefs? || pc.Acquire? || pc.ReadNext? }

  lemma OwnPcClaiming(s: State, t: Tid)
    requires WellFormed(s) && t in s.pc && Claims(s.pc[t])
    ensures t in Access(s, t).pc && Access(s, t).pc == s.pc[t := Access(s, t).pc[t]]
  {}

  lemma OwnPcTaking(s: State, t: Tid)
    requires WellFormed(s) && t in s.pc && !s.pc[t].Idle? && !Links(s.pc[t]) && !Claims(s.pc[t])
    ensures t in Access(s, t).pc && Access(s, t).pc == s.pc[t := Access(s, t).pc[t]]
  {}

  lemma AccessEnds(s: State, t: Tid)
    requires WellFormed(s) && t in s.pc && InTryGet(s.pc[t])
    ensures Access(s, t).pc[t].Idle? ==>
      || (s.pc[t].DropTwo? && Access(s, t).log == s.log + [Got(t, s.pc[t].n)])
      || (s.pc[t] == ReadRefs(Null) && Access(s, t).log == s.log)
  {}

  /** A `try_get` that ends without a node met an empty list: in some state of that very call there was
      nothing on it. */
  lemma NothingOnlyIfEmpty(run: seq<State>, at: nat, t: Tid) returns (k: nat)
    requires IsRun(run) && at + 1 < |run| && t in run[at].pc && t in run[at + 1].pc
    requires InTryGet(run[at].pc[t]) && run[at + 1].pc[t].Idle? && run[at + 1].log == run[at].log
    ensures SameCall(run, k, at, t) && run[k].list == []
  {
    assert Next(run[at], run[at + 1]);
    hide Next;
    EndsAt(run[at], run[at + 1], t);
    assert run[at].pc[t] == ReadRefs(Null);
    HeadWasThere(run, at, t);
    k :| SameCall(run, k, at, t) && run[k].head == Null;
    ListShape(run, k);
  }

  // ---- Calls that run alone ----

  /** Thread t makes up to n accesses and nobody else makes any. */
  ghost function Alone(s: State, t: Tid, n: nat): State
    decreases n
  {
    if n == 0 || !WellFormed(s) || t !in s.pc || s.pc[t].Idle? then s else Alone(Access(s, t), t, n - 1)
  }

  ghost predicate Quiet(s: State) { forall t :: t in s.pc ==> s.pc[t].Idle? }

  lemma StepAlone(s: State, t: Tid, n: nat)
    requires Inv(s) && t in s.pc && !s.pc[t].Idle? && 0 < n
    ensures WellFormed(s) && Inv(Access(s, t)) && t in Access(s, t).pc && Alone(s, t, n) == Alone(Access(s, t), t, n - 1)
  {
    InvWellFormed(s);
    StepKeeps(s, t);
    hide Inv, Alone;
    OwnPc(s, t);
    UnfoldAlone(s, t, n);
  }

  lemma UnfoldAlone(s: State, t: Tid, n: nat)
    requires WellFormed(s) && t in s.pc && !s.pc[t].Idle? && 0 < n
    ensures Alone(s, t, n) == Alone(Access(s, t), t, n - 1)
  {
    hide Access;
  }

  /** The reference word of a listed node that nobody holds. */
  lemma QuietWord(s: State, t: Tid)
    requires Inv(s) && Quiet(s) && t in s.pc && s.list != []
    ensures s.pc[t] == Idle
    ensures var n := s.list[0];
      && s.head == At(n) && n in s.refs && s.refs[n] == 1 && n in s.next && s.next[n] == First(s.list[1..]) && n in s.phase
  {
    var n := s.list[0];
    assert n in s.phase && s.phase[n].Linked?;
    assert NodeOk(s, n);
    assert Holders(s, n) == {};
  }

  /** One access, by the program counter. */
  lemma TryGetAccess(s: State, t: Tid)
    requires WellFormed(s) && t in s.pc && !s.pc[t].Idle?
    ensures s.pc[t].GetHead? ==> Access(s, t) == s.(pc := s.pc[t := ReadRefs(s.head)])
    ensures s.pc[t].ReadRefs? ==> PtrOk(s, s.pc[t].head) && Access(s, t) == DoReadRefs(s, t, s.pc[t].head)
    ensures s.pc[t].Acquire? ==> s.pc[t].n in s.refs && Access(s, t) == DoAcquire(s, t, s.pc[t].n, s.pc[t].refs)
    ensures s.pc[t].ReadNext? ==> s.pc[t].n in s.next && Access(s, t) == s.(pc := s.pc[t := SwapOut(s.pc[t].n, s.next[s.pc[t].n])])
    ensures s.pc[t].SwapOut? ==> Access(s, t) == DoSwapOut(s, t, s.pc[t].n, s.pc[t].next)
    ensures s.pc[t].CheckFlag? ==> Access(s, t) == s.(pc := s.pc[t := DropTwo(s.pc[t].n)])
    ensures s.pc[t].DropTwo? ==> s.pc[t].n in s.refs && Access(s, t) == DoDropTwo(s, t, s.pc[t].n)
  {}

  lemma AddAccess(s: State, t: Tid)
    requires WellFormed(s) && t in s.pc && !s.pc[t].Idle?
    ensures s.pc[t].AddFlag? ==> s.pc[t].n in s.refs && Access(s, t) == DoAddFlag(s, t, s.pc[t].n)
    ensures s.pc[t].LoadHead? ==> Access(s, t) == s.(pc := s.pc[t := StoreNext(s.pc[t].n, s.head, s.pc[t].after)])
    ensures s.pc[t].StoreNext? ==> Access(s, t) == DoStoreNext(s, t, s.pc[t].n, s.pc[t].head, s.pc[t].after)
    ensures s.pc[t].StoreRefs? ==> Access(s, t) == DoStoreRefs(s, t, s.pc[t].n, s.pc[t].head, s.pc[t].after)
    ensures s.pc[t].SwapIn? ==> Access(s, t) == DoSwapIn(s, t, s.pc[t].n, s.pc[t].head, s.pc[t].after)
  {}

  /** The accesses of a lone `try_get`, one by one, with what the call still has to do. */
  lemma LoadsHead(s: State, t: Tid, k: nat)
    requires Inv(s) && t in s.pc && s.pc[t] == GetHead && 0 < k
    ensures var s' := s.(pc := s.pc[t := ReadRefs(s.head)]); Inv(s') && Alone(s, t, k) == Alone(s', t, k - 1)
  {
    hide Inv, Alone, WellFormed, Access;
    StepAlone(s, t, k);
    TryGetAccess(s, t);
  }

  lemma ReadsRefs(s: State, t: Tid, n: Node, k: nat)
    requires Inv(s) && t in s.pc && s.pc[t] == ReadRefs(At(n)) && n in s.refs && s.refs[n] == 1 && 0 < k
    ensures var s' := s.(pc := s.pc[t := Acquire(n, 1)]); Inv(s') && Alone(s, t, k) == Alone(s', t, k - 1)
  {
    hide Inv, Alone, WellFormed, Access;
    StepAlone(s, t, k);
    TryGetAccess(s, t);
  }

  lemma Acquires(s: State, t: Tid, n: Node, k: nat)
    requires Inv(s) && t in s.pc && s.pc[t] == Acquire(n, 1) && n in s.refs && s.refs[n] == 1 && 0 < k
    ensures var s' := s.(refs := s.refs[n := 2], pc := s.pc[t := ReadNext(n)]); Inv(s') && Alone(s, t, k) == Alone(s', t, k - 1)
  {
    hide Inv, Alone, WellFormed, Access;
    StepAlone(s, t, k);
    TryGetAccess(s, t);
  }

  lemma ReadsNext(s: State, t: Tid, n: Node, k: nat)
    requires Inv(s) && t in s.pc && s.pc[t] == ReadNext(n) && n in s.next && 0 < k
    ensures var s' := s.(pc := s.pc[t := SwapOut(n, s.next[n])]); Inv(s') && Alone(s, t, k) == Alone(s', t, k - 1)
  {
    hide Inv, Alone, WellFormed, Access;
    StepAlone(s, t, k);
    TryGetAccess(s, t);
  }

  lemma SwapsOut(s: State, t: Tid, n: Node, h: Ptr, k: nat)
    requires Inv(s) && t in s.pc && s.pc[t] == SwapOut(n, h) && s.head == At(n) && s.list != [] && 0 < k
    ensures var s' := s.(head := h, pc := s.pc[t := CheckFlag(n)], phase := s.phase[n := Taken(t)], list := s.list[1..]); Inv(s') && Alone(s, t, k) == Alone(s', t, k - 1)
  {
    hide Inv, Alone, WellFormed, Access;
    StepAlone(s, t, k);
    TryGetAccess(s, t);
  }

  lemma ChecksFlag(s: State, t: Tid, n: Node, k: nat)
    requires Inv(s) && t in s.pc && s.pc[t] == CheckFlag(n) && 0 < k
    ensures var s' := s.(pc := s.pc[t := DropTwo(n)]); Inv(s') && Alone(s, t, k) == Alone(s', t, k - 1)
  {
    hide Inv, Alone, WellFormed, Access;
    StepAlone(s, t, k);
    TryGetAccess(s, t);
  }

  lemma DropsTwo(s: State, t: Tid, n: Node, k: nat)
    requires Inv(s) && t in s.pc && s.pc[t] == DropTwo(n) && n in s.refs && s.refs[n] == 2 && 0 < k
    ensures var s' := s.(refs := s.refs[n := 0], pc := s.pc[t := Idle], phase := s.phase[n := Outside], log := s.log + [Got(t, n)]); Inv(s') && Alone(s, t, k) == Alone(s', t, k - 1)
  {
    hide Inv, Alone, WellFormed, Access;
    StepAlone(s, t, k);
    TryGetAccess(s, t);
  }

  /** The accesses of a lone `add`. */
  lemma SetsFlag(s: State, t: Tid, n: Node, k: nat)
    requires Inv(s) && t in s.pc && s.pc[t] == AddFlag(n) && n in s.refs && s.refs[n] == 0 && 0 < k
    ensures var s' := s.(refs := s.refs[n := SHOULD_BE_ON_FREELIST], pc := s.pc[t := LoadHead(n, Finish)], phase := s.phase[n := Linking(t)]); Inv(s') && Alone(s, t, k) == Alone(s', t, k - 1)
  {
    hide Inv, Alone, WellFormed, Access;
    StepAlone(s, t, k);
    AddAccess(s, t);
  }

  lemma LoadsFront(s: State, t: Tid, n: Node, k: nat)
    requires Inv(s) && t in s.pc && s.pc[t] == LoadHead(n, Finish) && 0 < k
    ensures var s' := s.(pc := s.pc[t := StoreNext(n, s.head, Finish)]); Inv(s') && Alone(s, t, k) == Alone(s', t, k - 1)
  {
    hide Inv, Alone, WellFormed, Access;
    StepAlone(s, t, k);
    AddAccess(s, t);
  }

  lemma StoresNext(s: State, t: Tid, n: Node, h: Ptr, k: nat)
    requires Inv(s) && t in s.pc && s.pc[t] == StoreNext(n, h, Finish) && 0 < k
    ensures var s' := s.(next := s.next[n := h], pc := s.pc[t := StoreRefs(n, h, Finish)]); Inv(s') && Alone(s, t, k) == Alone(s', t, k - 1)
  {
    hide Inv, Alone, WellFormed, Access;
    StepAlone(s, t, k);
    AddAccess(s, t);
  }

  lemma StoresRefs(s: State, t: Tid, n: Node, h: Ptr, k: nat)
    requires Inv(s) && t in s.pc && s.pc[t] == StoreRefs(n, h, Finish) && 0 < k
    ensures var s' := s.(refs := s.refs[n := 1], pc := s.pc[t := SwapIn(n, h, Finish)]); Inv(s') && Alone(s, t, k) == Alone(s', t, k - 1)
  {
    hide Inv, Alone, WellFormed, Access;
    StepAlone(s, t, k);
    AddAccess(s, t);
  }

  lemma SwapsIn(s: State, t: Tid, n: Node, h: Ptr, k: nat)
    requires Inv(s) && t in s.pc && s.pc[t] == SwapIn(n, h, Finish) && s.head == h && 0 < k
    ensures var s' := s.(head := At(n), pc := s.pc[t := Idle], phase := s.phase[n := Linked], list := [n] + s.list); Inv(s') && Alone(s, t, k) == Alone(s', t, k - 1)
  {
    hide Inv, Alone, WellFormed, Access;
    StepAlone(s, t, k);
    AddAccess(s, t);
  }

  lemma Overwrites(m: map<Tid, Pc>, t: Tid, a: Pc, b: Pc)
    ensures m[t := a][t := b] == m[t := b]
  {}

  lemma CallTryGetKeeps(s: State, t: Tid)
    requires Inv(s) && t in s.pc && s.pc[t] == Idle
    ensures Inv(CallTryGet(s, t))
  {
    assert ThreadOk(s, t);
    SilentStep(s, t, Null);
    FrameSilent(s, CallTryGet(s, t), t);
  }

  /** From the load of the head up to the swap. */
  lemma LoneApproach(s: State, t: Tid, n: Node)
    requires Inv(s) && t in s.pc && s.pc[t] == GetHead
    requires s.head == At(n) && n in s.refs && s.refs[n] == 1 && n in s.next
    ensures var s' := s.(refs := s.refs[n := 2], pc := s.pc[t := SwapOut(n, s.next[n])]);
      Inv(s') && Alone(s, t, 7) == Alone(s', t, 3)
  {
    hide Inv, Alone;
    LoadsHead(s, t, 7);
    var s1 := s.(pc := s.pc[t := ReadRefs(s.head)]);
    ReadsRefs(s1, t, n, 6);
    Overwrites(s.pc, t, ReadRefs(s.head), Acquire(n, 1));
    var s2 := s.(pc := s.pc[t := Acquire(n, 1)]);
    Acquires(s2, t, n, 5);
    Overwrites(s.pc, t, Acquire(n, 1), ReadNext(n));
    var s3 := s.(refs := s.refs[n := 2], pc := s.pc[t := ReadNext(n)]);
    ReadsNext(s3, t, n, 4);
    Overwrites(s.pc, t, ReadNext(n), SwapOut(n, s.next[n]));
  }

  /** From the swap to the return. */
  lemma LoneReturn(s: State, t: Tid, n: Node, h: Ptr)
    requires Inv(s) && t in s.pc && s.pc[t] == SwapOut(n, h)
    requires s.head == At(n) && s.list != [] && n in s.refs && s.refs[n] == 2
    ensures var s' := Alone(s, t, 3);
      s'.pc == s.pc[t := Idle] && s'.log == s.log + [Got(t, n)] && s'.list == s.list[1..] && s'.head == h
  {
    hide Inv, Alone;
    SwapsOut(s, t, n, h, 3);
    var s1 := s.(head := h, pc := s.pc[t := CheckFlag(n)], phase := s.phase[n := Taken(t)], list := s.list[1..]);
    ChecksFlag(s1, t, n, 2);
    Overwrites(s.pc, t, CheckFlag(n), DropTwo(n));
    var s2 := s1.(pc := s.pc[t := DropTwo(n)]);
    DropsTwo(s2, t, n, 1);
    Overwrites(s.pc, t, DropTwo(n), Idle);
    var s3 := s2.(refs := s2.refs[n := 0], pc := s.pc[t := Idle], phase := s2.phase[n := Outside], log := s2.log + [Got(t, n)]);
    StopAlone(s3, t, 0);
  }

  lemma TakesFirst(s: State, t: Tid)
    requires Inv(s) && Quiet(s) && t in s.pc && s.list != []
    ensures var s' := Alone(CallTryGet(s, t), t, 7);
      && s'.pc == s.pc && s'.log == s.log + [Got(t, s.list[0])]
      && s'.list == s.list[1..] && s'.head == First(s.list[1..])
  {
    hide Inv, Alone, Quiet;
    QuietWord(s, t);
    var n := s.list[0];
    CallTryGetKeeps(s, t);
    var s0 := CallTryGet(s, t);
    LoneApproach(s0, t, n);
    Overwrites(s.pc, t, GetHead, SwapOut(n, s.next[n]));
    var s4 := s.(refs := s.refs[n := 2], pc := s.pc[t := SwapOut(n, s.next[n])]);
    LoneReturn(s4, t, n, s.next[n]);
    Overwrites(s.pc, t, SwapOut(n, s.next[n]), Idle);
    assert s.pc[t := Idle] == s.pc;
  }

  /** From the store of the successor to the return. */
  lemma LoneLink(s: State, t: Tid, n: Node)
    requires Inv(s) && t in s.pc && s.pc[t] == StoreNext(n, s.head, Finish)
    ensures var s' := Alone(s, t, 3);
      s'.pc == s.pc[t := Idle] && s'.list == [n] + s.list && s'.head == At(n) && n in s'.phase && s'.phase[n] == Linked
  {
    hide Inv, Alone;
    var h := s.head;
    StoresNext(s, t, n, h, 3);
    var s1 := s.(next := s.next[n := h], pc := s.pc[t := StoreRefs(n, h, Finish)]);
    StoresRefs(s1, t, n, h, 2);
    Overwrites(s.pc, t, StoreRefs(n, h, Finish), SwapIn(n, h, Finish));
    var s2 := s1.(refs := s.refs[n := 1], pc := s.pc[t := SwapIn(n, h, Finish)]);
    SwapsIn(s2, t, n, h, 1);
    Overwrites(s.pc, t, SwapIn(n, h, Finish), Idle);
    var s3 := s2.(head := At(n), pc := s.pc[t := Idle], phase := s.phase[n := Linked], list := [n] + s.list);
    StopAlone(s3, t, 0);
  }

  lemma PutsInFront(s: State, t: Tid, n: Node)
    requires Inv(s) && Quiet(s) && CanAdd(s, t, n)
    ensures var s' := Alone(CallAdd(s, t, n), t, 5);
      s'.pc == s.pc && s'.list == [n] + s.list && s'.head == At(n) && n in s'.phase && s'.phase[n] == Linked
  {
    hide Inv, Alone, Quiet;
    QuietOutside(s, n);
    CallAddKeeps(s, t, n);
    var s0 := CallAdd(s, t, n);
    SetsFlag(s0, t, n, 5);
    Overwrites(s.pc, t, AddFlag(n), LoadHead(n, Finish));
    var s1 := s0.(refs := s.refs[n := SHOULD_BE_ON_FREELIST], pc := s.pc[t := LoadHead(n, Finish)], phase := s0.phase[n := Linking(t)]);
    LoadsFront(s1, t, n, 4);
    Overwrites(s.pc, t, LoadHead(n, Finish), StoreNext(n, s.head, Finish));
    var s2 := s1.(pc := s.pc[t := StoreNext(n, s.head, Finish)]);
    LoneLink(s2, t, n);
    Overwrites(s.pc, t, StoreNext(n, s.head, Finish), Idle);
    assert s.pc[t := Idle] == s.pc;
  }

  lemma QuietOutside(s: State, n: Node)
    requires Inv(s) && Quiet(s) && n in s.phase && s.phase[n].Outside?
    ensures n in s.refs && s.refs[n] == 0
  {
    assert NodeOk(s, n);
    assert Holders(s, n) == {};
  }

  /** When every call has returned and the list is not empty, the accesses of one `try_get` alone hand
      out the first node and leave the rest on the list. */
  lemma LoneTryGet(run: seq<State>, at: nat, t: Tid)
    requires IsRun(run) && at < |run| && Quiet(run[at]) && t in run[at].pc && run[at].list != []
    ensures run[at].pc[t].Idle?
    ensures var s, s' := run[at], Alone(CallTryGet(run[at], t), t, 7);
      && s'.pc == s.pc && s'.log == s.log + [Got(t, s.list[0])]
      && s'.list == s.list[1..] && s'.head == First(s.list[1..])
  {
    RunInv(run, at);
    hide IsRun, Inv, Alone;
    TakesFirst(run[at], t);
  }

  /** When every call has returned, the accesses of one `add` alone put the node in front of the list. */
  lemma LoneAdd(run: seq<State>, at: nat, t: Tid, n: Node)
    requires IsRun(run) && at < |run| && Quiet(run[at]) && CanAdd(run[at], t, n)
    ensures var s, s' := run[at], Alone(CallAdd(run[at], t, n), t, 5);
      s'.pc == s.pc && s'.list == [n] + s.list && s'.head == At(n) && n in s'.phase && s'.phase[n] == Linked
  {
    RunInv(run, at);
    hide IsRun, Inv, Alone;
    PutsInFront(run[at], t, n);
  }

  lemma StopAlone(s: State, t: Tid, n: nat)
    requires t in s.pc && s.pc[t].Idle?
    ensures Alone(s, t, n) == s
  {}
}
