/** The lock-free free list of blocks: `add`, `add_knowing_refcount_is_zero` and `try_get`,
    run by any number of threads, one atomic access per step, sequentially consistent. */
module FreeList {

  type Node = nat
  type Tid = nat

  datatype Ptr = Null | At(node: Node)

  /** The top bit of `freeListRefs`; the bits below it count references. */
  const SHOULD_BE_ON_FREELIST: nat := 0x8000_0000
  const WORD: nat := 0x1_0000_0000

  /** `refs & REFS_MASK` on a 32-bit word. */
  function Masked(refs: nat): nat { refs % SHOULD_BE_ON_FREELIST }

  /** Fetch-and-add and fetch-and-subtract wrap at 32 bits. */
  function Plus(refs: nat, delta: nat): nat { (refs + delta) % WORD }

  function Minus(refs: nat, delta: nat): nat { (refs + WORD - delta % WORD) % WORD }

  /** Where `add_knowing_refcount_is_zero` goes when it is done. */
  datatype After = Finish | Retry(head: Ptr)

  /** The program counter names the next atomic access and holds the locals it needs. */
  datatype Pc =
    | Idle
    | AddFlag(n: Node)                               // add: fetch_add(SHOULD_BE_ON_FREELIST)
    | LoadHead(n: Node, after: After)                // add_knowing...: load freeListHead
    | StoreNext(n: Node, head: Ptr, after: After)    // freeListNext.store(head)
    | StoreRefs(n: Node, head: Ptr, after: After)    // freeListRefs.store(1)
    | SwapIn(n: Node, head: Ptr, after: After)       // compare_exchange head -> n
    | Reflag(n: Node, head: Ptr, after: After)       // fetch_add(SHOULD_BE_ON_FREELIST - 1)
    | GetHead                                        // try_get: load freeListHead
    | ReadRefs(head: Ptr)                            // loop test, then load freeListRefs
    | Acquire(n: Node, refs: nat)                    // compare_exchange refs -> refs + 1
    | ReadNext(n: Node)                              // load freeListNext
    | SwapOut(n: Node, next: Ptr)                    // compare_exchange head -> next
    | CheckFlag(n: Node)                             // the assertion on the flag
    | DropTwo(n: Node)                               // fetch_sub(2)
    | DropOne(n: Node, head: Ptr)                    // fetch_sub(1)

  /** What a node is being used for. Auxiliary: no step reads it. */
  datatype Phase =
    | Outside              // held by a caller
    | Adding(t: Tid)       // add has been called, the flag is not set yet
    | Flagged              // waits for the last reference to go away
    | Linking(t: Tid)      // t runs add_knowing_refcount_is_zero on it
    | Linked               // on the list
    | Taken(t: Tid)        // t swapped it out and has not returned it yet

  datatype Event = Gave(n: Node) | Got(t: Tid, n: Node)

  /** `phase`, `list` and `log` are auxiliary: steps write them and never read them. */
  datatype State = State(
    head: Ptr, refs: map<Node, nat>, next: map<Node, Ptr>, pc: map<Tid, Pc>,
    phase: map<Node, Phase>, list: seq<Node>, log: seq<Event>)

  ghost predicate PtrOk(s: State, p: Ptr) { p.At? ==> p.node in s.refs }

  ghost predicate AfterOk(s: State, a: After) { a.Retry? ==> PtrOk(s, a.head) }

  ghost predicate PcOk(s: State, pc: Pc) {
    match pc
    case Idle => true
    case AddFlag(n) => n in s.refs
    case LoadHead(n, a) => n in s.refs && AfterOk(s, a)
    case StoreNext(n, h, a) => n in s.refs && PtrOk(s, h) && AfterOk(s, a)
    case StoreRefs(n, h, a) => n in s.refs && PtrOk(s, h) && AfterOk(s, a)
    case SwapIn(n, h, a) => n in s.refs && PtrOk(s, h) && AfterOk(s, a)
    case Reflag(n, h, a) => n in s.refs && PtrOk(s, h) && AfterOk(s, a)
    case GetHead => true
    case ReadRefs(h) => PtrOk(s, h)
    case Acquire(n, r) => n in s.refs && Masked(r) != 0
    case ReadNext(n) => n in s.refs
    case SwapOut(n, nx) => n in s.refs && PtrOk(s, nx)
    case CheckFlag(n) => n in s.refs
    case DropTwo(n) => n in s.refs
    case DropOne(n, h) => n in s.refs && PtrOk(s, h)
  }

  ghost predicate WellFormed(s: State) {
    && s.next.Keys == s.refs.Keys && s.phase.Keys == s.refs.Keys
    && PtrOk(s, s.head)
    && (forall n :: n in s.next ==> PtrOk(s, s.next[n]))
    && (forall t :: t in s.pc ==> PcOk(s, s.pc[t]))
  }

  ghost function Resume(a: After): Pc {
    if a.Finish? then Idle else ReadRefs(a.head)
  }

  /** A caller that holds `n` calls `add(n)`. */
  ghost predicate CanAdd(s: State, t: Tid, n: Node) {
    t in s.pc && s.pc[t].Idle? && n in s.phase && s.phase[n].Outside?
  }

  ghost function CallAdd(s: State, t: Tid, n: Node): State
    requires CanAdd(s, t, n)
  {
    s.(pc := s.pc[t := AddFlag(n)], phase := s.phase[n := Adding(t)], log := s.log + [Gave(n)])
  }

  ghost function CallTryGet(s: State, t: Tid): State
    requires t in s.pc && s.pc[t].Idle?
  {
    s.(pc := s.pc[t := GetHead])
  }

  // add: set the flag; whoever finds the count at zero does the linking
  ghost function DoAddFlag(s: State, t: Tid, n: Node): State
    requires n in s.refs
  {
    var s1 := s.(refs := s.refs[n := Plus(s.refs[n], SHOULD_BE_ON_FREELIST)]);
    if s.refs[n] == 0 then s1.(pc := s.pc[t := LoadHead(n, Finish)], phase := s.phase[n := Linking(t)])
    else s1.(pc := s.pc[t := Idle], phase := s.phase[n := Flagged])
  }

  ghost function DoStoreNext(s: State, t: Tid, n: Node, h: Ptr, a: After): State {
    s.(next := s.next[n := h], pc := s.pc[t := StoreRefs(n, h, a)])
  }

  ghost function DoStoreRefs(s: State, t: Tid, n: Node, h: Ptr, a: After): State {
    s.(refs := s.refs[n := 1], pc := s.pc[t := SwapIn(n, h, a)])
  }

  // a failed compare_exchange leaves the current head in the local variable
  ghost function DoSwapIn(s: State, t: Tid, n: Node, h: Ptr, a: After): State {
    if s.head == h then
      s.(head := At(n), pc := s.pc[t := Resume(a)], phase := s.phase[n := Linked], list := [n] + s.list)
    else s.(pc := s.pc[t := Reflag(n, s.head, a)])
  }

  ghost function DoReflag(s: State, t: Tid, n: Node, h: Ptr, a: After): State
    requires n in s.refs
  {
    var s1 := s.(refs := s.refs[n := Plus(s.refs[n], SHOULD_BE_ON_FREELIST - 1)]);
    if s.refs[n] == 1 then s1.(pc := s.pc[t := StoreNext(n, h, a)])
    else s1.(pc := s.pc[t := Resume(a)], phase := s.phase[n := Flagged])
  }

  ghost function DoReadRefs(s: State, t: Tid, h: Ptr): State
    requires PtrOk(s, h)
  {
    if h.Null? then s.(pc := s.pc[t := Idle])
    else if Masked(s.refs[h.node]) == 0 then s.(pc := s.pc[t := GetHead])
    else s.(pc := s.pc[t := Acquire(h.node, s.refs[h.node])])
  }

  ghost function DoAcquire(s: State, t: Tid, n: Node, r: nat): State
    requires n in s.refs
  {
    if s.refs[n] == r then s.(refs := s.refs[n := Plus(r, 1)], pc := s.pc[t := ReadNext(n)])
    else s.(pc := s.pc[t := GetHead])
  }

  ghost function DoSwapOut(s: State, t: Tid, n: Node, nx: Ptr): State {
    if s.head == At(n) then
      s.(head := nx, pc := s.pc[t := CheckFlag(n)], phase := s.phase[n := Taken(t)],
         list := if s.list == [] then [] else s.list[1..])
    else s.(pc := s.pc[t := DropOne(n, s.head)])
  }

  // one reference for the caller, one for the list
  ghost function DoDropTwo(s: State, t: Tid, n: Node): State
    requires n in s.refs
  {
    s.(refs := s.refs[n := Minus(s.refs[n], 2)], pc := s.pc[t := Idle],
       phase := s.phase[n := Outside], log := s.log + [Got(t, n)])
  }

  ghost function DoDropOne(s: State, t: Tid, n: Node, h: Ptr): State
    requires n in s.refs
  {
    var s1 := s.(refs := s.refs[n := Minus(s.refs[n], 1)]);
    if s.refs[n] == SHOULD_BE_ON_FREELIST + 1 then
      s1.(pc := s.pc[t := LoadHead(n, Retry(h))], phase := s.phase[n := Linking(t)])
    else s1.(pc := s.pc[t := ReadRefs(h)])
  }

  /** One atomic access of thread `t`. */
  ghost function Access(s: State, t: Tid): State
    requires WellFormed(s) && t in s.pc && !s.pc[t].Idle?
  {
    match s.pc[t]
    case AddFlag(n) => DoAddFlag(s, t, n)
    case LoadHead(n, a) => s.(pc := s.pc[t := StoreNext(n, s.head, a)])
    case StoreNext(n, h, a) => DoStoreNext(s, t, n, h, a)
    case StoreRefs(n, h, a) => DoStoreRefs(s, t, n, h, a)
    case SwapIn(n, h, a) => DoSwapIn(s, t, n, h, a)
    case Reflag(n, h, a) => DoReflag(s, t, n, h, a)
    case GetHead => s.(pc := s.pc[t := ReadRefs(s.head)])
    case ReadRefs(h) => DoReadRefs(s, t, h)
    case Acquire(n, r) => DoAcquire(s, t, n, r)
    case ReadNext(n) => s.(pc := s.pc[t := SwapOut(n, s.next[n])])
    case SwapOut(n, nx) => DoSwapOut(s, t, n, nx)
    case CheckFlag(n) => s.(pc := s.pc[t := DropTwo(n)])
    case DropTwo(n) => DoDropTwo(s, t, n)
    case DropOne(n, h) => DoDropOne(s, t, n, h)
  }

  ghost predicate Next(s: State, s': State) {
    WellFormed(s) &&
    exists t :: t in s.pc && (
      || (exists n :: CanAdd(s, t, n) && s' == CallAdd(s, t, n))
      || (s.pc[t].Idle? && s' == CallTryGet(s, t))
      || (!s.pc[t].Idle? && s' == Access(s, t)))
  }

  /** Fresh nodes, all held by callers; fewer threads than the reference count can hold. */
  ghost predicate Init(s: State) {
    && s.head == Null && s.list == [] && s.log == []
    && s.next.Keys == s.refs.Keys && s.phase.Keys == s.refs.Keys
    && (forall n :: n in s.refs ==> s.refs[n] == 0 && s.next[n] == Null && s.phase[n] == Outside)
    && (forall t :: t in s.pc ==> s.pc[t] == Idle)
    && |s.pc| < SHOULD_BE_ON_FREELIST - 1
  }

  ghost predicate IsRun(run: seq<State>) {
    && run != [] && Init(run[0])
    && forall i :: 0 <= i < |run| - 1 ==> Next(run[i], run[i + 1])
  }

  // ---- The invariant ----

  predicate HoldsRef(pc: Pc, n: Node) {
    match pc
    case ReadNext(m) => m == n
    case SwapOut(m, _) => m == n
    case CheckFlag(m) => m == n
    case DropTwo(m) => m == n
    case DropOne(m, _) => m == n
    case _ => false
  }

  /** The `try_get` callers that have incremented the count of `n` and not yet decremented it. */
  ghost function Holders(s: State, n: Node): set<Tid> {
    set t | t in s.pc && HoldsRef(s.pc[t], n)
  }

  lemma HoldersStep(s: State, s': State, t: Tid, n: Node)
    requires t in s.pc && s'.pc.Keys == s.pc.Keys
    requires forall u :: u in s.pc && u != t ==> s'.pc[u] == s.pc[u]
    ensures Holders(s', n) == if HoldsRef(s'.pc[t], n) then Holders(s, n) + {t} else Holders(s, n) - {t}
    ensures t in Holders(s, n) <==> HoldsRef(s.pc[t], n)
    ensures |Holders(s', n)| == |Holders(s, n)|
      + (if HoldsRef(s'.pc[t], n) then 1 else 0) - (if HoldsRef(s.pc[t], n) then 1 else 0)
  {
    assert Holders(s', n) == if HoldsRef(s'.pc[t], n) then Holders(s, n) + {t} else Holders(s, n) - {t};
  }

  lemma HoldersBound(s: State, n: Node)
    ensures |Holders(s, n)| <= |s.pc|
  {
    SubsetSize(Holders(s, n), s.pc.Keys);
    assert |s.pc.Keys| == |s.pc|;
  }

  lemma SubsetSize(a: set<Tid>, b: set<Tid>)
    requires a <= b
    ensures |a| <= |b|
  {
    assert b == a + (b - a);
  }

  predicate BeforeStore(pc: Pc, n: Node) {
    match pc
    case LoadHead(m, _) => m == n
    case StoreNext(m, _, _) => m == n
    case StoreRefs(m, _, _) => m == n
    case _ => false
  }

  predicate AfterStore(pc: Pc, n: Node) {
    match pc
    case SwapIn(m, _, _) => m == n
    case Reflag(m, _, _) => m == n
    case _ => false
  }

  predicate Popped(pc: Pc, n: Node) {
    match pc
    case CheckFlag(m) => m == n
    case DropTwo(m) => m == n
    case _ => false
  }

  /** The part of the reference word that no `try_get` caller accounts for. */
  ghost function Base(s: State, n: Node): nat
    requires n in s.phase
  {
    match s.phase[n]
    case Outside => 0
    case Adding(_) => 0
    case Flagged => SHOULD_BE_ON_FREELIST
    case Linking(t) => if t in s.pc && AfterStore(s.pc[t], n) then 1 else SHOULD_BE_ON_FREELIST
    case Linked => 1
    case Taken(_) => 1
  }

  /** A phase that names a thread is backed by that thread's program counter. */
  ghost predicate PhaseBacked(s: State, n: Node)
    requires n in s.phase
  {
    match s.phase[n]
    case Adding(t) => t in s.pc && s.pc[t] == AddFlag(n)
    case Linking(t) =>
      && t in s.pc
      && (AfterStore(s.pc[t], n) || (BeforeStore(s.pc[t], n) && Holders(s, n) == {}))
    case Taken(t) => t in s.pc && Popped(s.pc[t], n)
    case Flagged => Holders(s, n) != {}
    case _ => true
  }

  ghost predicate NodeOk(s: State, n: Node) {
    && n in s.refs && n in s.next && n in s.phase
    && PtrOk(s, s.next[n])
    && PhaseBacked(s, n)
    && s.refs[n] == Base(s, n) + |Holders(s, n)|
  }

  /** A program counter that claims a node is backed by the node's phase, and a successor that
      has been read or written is still the node's successor. */
  ghost predicate ThreadOk(s: State, t: Tid)
    requires t in s.pc
  {
    && PcOk(s, s.pc[t])
    && match s.pc[t]
       case AddFlag(n) => n in s.phase && s.phase[n] == Adding(t)
       case LoadHead(n, _) => n in s.phase && s.phase[n] == Linking(t)
       case StoreNext(n, _, _) => n in s.phase && s.phase[n] == Linking(t)
       case StoreRefs(n, h, _) => n in s.phase && s.phase[n] == Linking(t) && n in s.next && s.next[n] == h
       case SwapIn(n, h, _) => n in s.phase && s.phase[n] == Linking(t) && n in s.next && s.next[n] == h
       case Reflag(n, _, _) => n in s.phase && s.phase[n] == Linking(t)
       case SwapOut(n, nx) => n in s.next && s.next[n] == nx
       case CheckFlag(n) => n in s.phase && s.phase[n] == Taken(t)
       case DropTwo(n) => n in s.phase && s.phase[n] == Taken(t)
       case _ => true
  }

  function First(list: seq<Node>): Ptr { if list == [] then Null else At(list[0]) }

  /** The list is the chain from the head: no cycle, no duplicate, exactly the linked nodes. */
  ghost predicate ListInv(s: State) {
    && s.head == First(s.list)
    && (forall i, j :: 0 <= i < j < |s.list| ==> s.list[i] != s.list[j])
    && (forall i :: 0 <= i < |s.list| ==> s.list[i] in s.next && s.next[s.list[i]] == First(s.list[i + 1..]))
    && (forall n :: n in s.phase ==> (s.phase[n].Linked? <==> n in s.list))
  }

  /** Whether callers hold `n` according to the history of calls. */
  function Owned(log: seq<Event>, n: Node): bool {
    if log == [] then true
    else
      var last := log[|log| - 1];
      if last.n == n then last.Got? else Owned(log[..|log| - 1], n)
  }

  ghost predicate Alternates(log: seq<Event>) {
    forall i :: 0 <= i < |log| ==> (log[i].Got? <==> !Owned(log[..i], log[i].n))
  }

  ghost predicate LogInv(s: State) {
    && Alternates(s.log)
    && (forall n :: n in s.phase ==> (s.phase[n].Outside? <==> Owned(s.log, n)))
  }

  ghost predicate Inv(s: State) {
    && s.next.Keys == s.refs.Keys && s.phase.Keys == s.refs.Keys
    && PtrOk(s, s.head)
    && (forall n :: n in s.refs ==> NodeOk(s, n))
    && (forall t :: t in s.pc ==> ThreadOk(s, t))
    && ListInv(s) && LogInv(s)
    && |s.pc| < SHOULD_BE_ON_FREELIST - 1
  }

  // ---- Every step keeps the invariant ----

  /** Thread `t` claims node `n` or holds a reference to it. */
  predicate Names(pc: Pc, n: Node) {
    HoldsRef(pc, n) || BeforeStore(pc, n) || AfterStore(pc, n) || pc == AddFlag(n)
  }

  predicate OwnedBy(ph: Phase, t: Tid) {
    match ph
    case Adding(u) => u == t
    case Linking(u) => u == t
    case Taken(u) => u == t
    case _ => true
  }

  /** A step of `t` that touches no node but `n`, and `n` only when nobody else claims it. */
  ghost predicate Local(s: State, s': State, t: Tid, n: Node) {
    && t in s.pc && t in s'.pc && s'.pc == s.pc[t := s'.pc[t]]
    && n in s.refs && n in s.next && n in s.phase && n in s'.refs && n in s'.next && n in s'.phase
    && s'.refs.Keys == s.refs.Keys && s'.next.Keys == s.refs.Keys && s'.phase.Keys == s.refs.Keys
    && s'.refs == s.refs[n := s'.refs[n]]
    && s'.next == s.next[n := s'.next[n]]
    && s'.phase == s.phase[n := s'.phase[n]]
    && (s'.phase[n] == s.phase[n] || OwnedBy(s.phase[n], t))
    && (s'.next[n] == s.next[n] || (s.phase[n] == Linking(t) && Holders(s, n) == {}))
    && (forall m :: m != n ==> !Names(s.pc[t], m) && !Names(s'.pc[t], m))
  }

  lemma OtherNode(s: State, s': State, t: Tid, n: Node, m: Node)
    requires Inv(s) && Local(s, s', t, n) && m in s.refs && m != n
    ensures NodeOk(s', m)
  {
    assert NodeOk(s, m);
    assert !Names(s.pc[t], m) && !Names(s'.pc[t], m);
    SameHolders(s, s', t, n, m);
    hide Inv, ThreadOk, ListInv, LogInv;
  }

  lemma SameHolders(s: State, s': State, t: Tid, n: Node, m: Node)
    requires Local(s, s', t, n) && m != n
    ensures Holders(s', m) == Holders(s, m)
  {
    assert !Names(s.pc[t], m) && !Names(s'.pc[t], m);
    HoldersStep(s, s', t, m);
  }

  lemma OtherThread(s: State, s': State, t: Tid, n: Node, u: Tid)
    requires Inv(s) && Local(s, s', t, n) && u in s.pc && u != t
    ensures ThreadOk(s', u)
  {
    assert ThreadOk(s, u);
    if s.pc[u].SwapOut? { assert u in Holders(s, s.pc[u].n); }
  }

  lemma Frame(s: State, s': State, t: Tid, n: Node)
    requires Inv(s) && Local(s, s', t, n)
    requires NodeOk(s', n) && ThreadOk(s', t)
    requires PtrOk(s', s'.head) && ListInv(s') && LogInv(s')
    ensures Inv(s')
  {
    forall m | m in s'.refs ensures NodeOk(s', m) {
      if m != n { OtherNode(s, s', t, n, m); }
    }
    forall u | u in s'.pc ensures ThreadOk(s', u) {
      if u != t { OtherThread(s, s', t, n, u); }
    }
  }

  /** A step that only moves `t` between program counters that name no node. */
  ghost predicate Silent(s: State, s': State, t: Tid) {
    && t in s.pc && t in s'.pc && s' == s.(pc := s.pc[t := s'.pc[t]])
    && forall m :: !Names(s.pc[t], m) && !Names(s'.pc[t], m)
  }

  lemma SilentNode(s: State, s': State, t: Tid, m: Node)
    requires Silent(s, s', t) && NodeOk(s, m)
    ensures NodeOk(s', m)
  {
    HoldersStep(s, s', t, m);
    assert !Names(s.pc[t], m) && !Names(s'.pc[t], m);
    assert Holders(s', m) == Holders(s, m);
  }

  lemma SilentThread(s: State, s': State, t: Tid, u: Tid)
    requires Silent(s, s', t) && u in s.pc && u != t && ThreadOk(s, u)
    ensures ThreadOk(s', u)
  {}

  lemma SilentLists(s: State, s': State, t: Tid)
    requires Silent(s, s', t) && ListInv(s) && LogInv(s)
    ensures ListInv(s') && LogInv(s')
  {}

  lemma FrameSilent(s: State, s': State, t: Tid)
    requires Inv(s) && Silent(s, s', t) && ThreadOk(s', t)
    ensures Inv(s')
  {
    forall m | m in s'.refs ensures NodeOk(s', m) { SilentNode(s, s', t, m); }
    forall u | u in s'.pc ensures ThreadOk(s', u) {
      if u != t { SilentThread(s, s', t, u); }
    }
    SilentLists(s, s', t);
  }

  lemma SilentStep(s: State, t: Tid, h: Ptr)
    requires t in s.pc && ThreadOk(s, t) && PtrOk(s, s.head)
    ensures s.pc[t].Idle? ==> Silent(s, CallTryGet(s, t), t) && ThreadOk(CallTryGet(s, t), t)
    ensures s.pc[t].GetHead? ==> var s' := s.(pc := s.pc[t := ReadRefs(s.head)]); Silent(s, s', t) && ThreadOk(s', t)
    ensures s.pc[t] == ReadRefs(h) ==> Silent(s, DoReadRefs(s, t, h), t) && ThreadOk(DoReadRefs(s, t, h), t)
  {}

  lemma InvWellFormed(s: State)
    requires Inv(s)
    ensures WellFormed(s)
  {
    forall n | n in s.next ensures PtrOk(s, s.next[n]) { assert NodeOk(s, n); }
    forall t | t in s.pc ensures PcOk(s, s.pc[t]) { assert ThreadOk(s, t); }
  }

  lemma InitInv(s: State)
    requires Init(s)
    ensures Inv(s)
  {
    assert forall n :: Holders(s, n) == {};
    forall n | n in s.refs ensures NodeOk(s, n) {}
  }

  lemma LogGrows(s: State, s': State, e: Event)
    requires LogInv(s) && s'.log == s.log + [e] && e.n in s.phase && e.n in s'.phase
    requires s'.phase == s.phase[e.n := s'.phase[e.n]]
    requires e.Got? <==> !s.phase[e.n].Outside?
    requires e.Got? <==> s'.phase[e.n].Outside?
    ensures LogInv(s')
  {
    assert s'.log[..|s.log|] == s.log;
    forall i | 0 <= i < |s'.log|
      ensures s'.log[i].Got? <==> !Owned(s'.log[..i], s'.log[i].n)
    {
      if i < |s.log| { assert s'.log[..i] == s.log[..i]; }
    }
  }

  /** The part of the invariant that a step of `t` at node `n` can change. */
  ghost predicate Core(s: State, t: Tid, n: Node) {
    && t in s.pc
    && s.next.Keys == s.refs.Keys && s.phase.Keys == s.refs.Keys
    && PtrOk(s, s.head)
    && NodeOk(s, n) && ThreadOk(s, t)
    && |s.pc| < SHOULD_BE_ON_FREELIST - 1
  }

  /** The step leaves the list, and whatever the list says of `n`, alone. */
  ghost predicate ListQuiet(s: State, s': State, n: Node)
    requires n in s.phase && n in s'.phase && n in s.next && n in s'.next
  {
    && s'.head == s.head && s'.list == s.list
    && (s'.phase[n].Linked? <==> s.phase[n].Linked?)
    && (s'.next[n] == s.next[n] || !s.phase[n].Linked?)
  }

  ghost predicate LogQuiet(s: State, s': State, n: Node)
    requires n in s.phase && n in s'.phase
  {
    s'.log == s.log && (s'.phase[n].Outside? <==> s.phase[n].Outside?)
  }

  lemma ListKept(s: State, s': State, t: Tid, n: Node)
    requires Local(s, s', t, n) && ListInv(s) && ListQuiet(s, s', n)
    ensures ListInv(s')
  {}

  lemma LogKept(s: State, s': State, t: Tid, n: Node)
    requires Local(s, s', t, n) && LogInv(s) && LogQuiet(s, s', n)
    ensures LogInv(s')
  {}

  lemma Words(refs: nat)
    requires refs < WORD
    ensures refs + SHOULD_BE_ON_FREELIST < WORD ==> Plus(refs, SHOULD_BE_ON_FREELIST) == refs + SHOULD_BE_ON_FREELIST
    ensures refs + SHOULD_BE_ON_FREELIST - 1 < WORD ==> Plus(refs, SHOULD_BE_ON_FREELIST - 1) == refs + SHOULD_BE_ON_FREELIST - 1
    ensures refs + 1 < WORD ==> Plus(refs, 1) == refs + 1
    ensures refs >= 1 ==> Minus(refs, 1) == refs - 1
    ensures refs >= 2 ==> Minus(refs, 2) == refs - 2
    ensures refs < SHOULD_BE_ON_FREELIST ==> Masked(refs) == refs
    ensures SHOULD_BE_ON_FREELIST <= refs ==> Masked(refs) == refs - SHOULD_BE_ON_FREELIST
  {}

  lemma CoreCount(s: State, s': State, t: Tid, n: Node)
    requires Core(s, t, n) && t in s'.pc && s'.pc == s.pc[t := s'.pc[t]]
    ensures Holders(s', n) == if HoldsRef(s'.pc[t], n) then Holders(s, n) + {t} else Holders(s, n) - {t}
    ensures t in Holders(s, n) <==> HoldsRef(s.pc[t], n)
    ensures |Holders(s', n)| == |Holders(s, n)|
      + (if HoldsRef(s'.pc[t], n) then 1 else 0) - (if HoldsRef(s.pc[t], n) then 1 else 0)
    ensures |Holders(s, n)| < SHOULD_BE_ON_FREELIST - 1
    ensures Holders(s, n) == {} <==> |Holders(s, n)| == 0
    ensures Holders(s, n) == {t} <==> HoldsRef(s.pc[t], n) && |Holders(s, n)| == 1
  {
    HoldersStep(s, s', t, n);
    HoldersBound(s, n);
    if HoldsRef(s.pc[t], n) && |Holders(s, n)| == 1 {
      assert Holders(s, n) == {t} by {
        assert |Holders(s, n) - {t}| == 0;
      }
    }
  }

  lemma CallAddCore(s: State, t: Tid, n: Node)
    requires Core(s, t, n) && CanAdd(s, t, n)
    ensures var s' := CallAdd(s, t, n); Core(s', t, n) && Local(s, s', t, n) && ListQuiet(s, s', n)
  {
    CoreCount(s, CallAdd(s, t, n), t, n);
  }

  lemma Pushed(s: State, s': State, n: Node)
    requires ListInv(s) && s'.list == [n] + s.list && s'.head == At(n) && s'.next == s.next
    requires n in s.next && s.next[n] == s.head
    requires n in s.phase && !s.phase[n].Linked? && s'.phase == s.phase[n := Linked]
    ensures ListInv(s')
  {
    assert s'.list[1..] == s.list;
    forall i | 0 <= i < |s'.list|
      ensures s'.list[i] in s'.next && s'.next[s'.list[i]] == First(s'.list[i + 1..])
    {
      if i > 0 { assert s'.list[i + 1..] == s.list[i..]; }
    }
  }

  lemma Removed(s: State, s': State, n: Node)
    requires ListInv(s) && s.list != [] && s'.list == s.list[1..] && s'.next == s.next
    requires s.head == At(n) && n in s.phase && n in s'.phase && s'.phase == s.phase[n := s'.phase[n]] && !s'.phase[n].Linked?
    requires s'.head == s.next[n]
    ensures ListInv(s')
  {
    assert s.next[s.list[0]] == First(s.list[1..]);
    forall i | 0 <= i < |s'.list|
      ensures s'.list[i] in s'.next && s'.next[s'.list[i]] == First(s'.list[i + 1..])
    {
      assert s'.list[i] == s.list[i + 1] && s'.list[i + 1..] == s.list[i + 2..];
    }
  }

  lemma AddFlagCore(s: State, t: Tid, n: Node)
    requires Core(s, t, n) && s.pc[t] == AddFlag(n)
    ensures var s' := DoAddFlag(s, t, n); Core(s', t, n) && Local(s, s', t, n) && ListQuiet(s, s', n) && LogQuiet(s, s', n)
  {
    var s' := DoAddFlag(s, t, n);
    CoreCount(s, s', t, n);
    Words(s.refs[n]);
  }

  lemma LoadHeadCore(s: State, t: Tid, n: Node, a: After)
    requires Core(s, t, n) && s.pc[t] == LoadHead(n, a)
    ensures var s' := s.(pc := s.pc[t := StoreNext(n, s.head, a)]); Core(s', t, n) && Local(s, s', t, n) && ListQuiet(s, s', n) && LogQuiet(s, s', n)
  {
    var s' := s.(pc := s.pc[t := StoreNext(n, s.head, a)]);
    CoreCount(s, s', t, n);
  }

  lemma StoreNextCore(s: State, t: Tid, n: Node, h: Ptr, a: After)
    requires Core(s, t, n) && s.pc[t] == StoreNext(n, h, a)
    ensures var s' := DoStoreNext(s, t, n, h, a); Core(s', t, n) && Local(s, s', t, n) && ListQuiet(s, s', n) && LogQuiet(s, s', n)
  {
    var s' := DoStoreNext(s, t, n, h, a);
    CoreCount(s, s', t, n);
  }

  lemma StoreRefsCore(s: State, t: Tid, n: Node, h: Ptr, a: After)
    requires Core(s, t, n) && s.pc[t] == StoreRefs(n, h, a)
    ensures var s' := DoStoreRefs(s, t, n, h, a); Core(s', t, n) && Local(s, s', t, n) && ListQuiet(s, s', n) && LogQuiet(s, s', n)
  {
    var s' := DoStoreRefs(s, t, n, h, a);
    CoreCount(s, s', t, n);
  }

  lemma SwapInCore(s: State, t: Tid, n: Node, h: Ptr, a: After)
    requires Core(s, t, n) && s.pc[t] == SwapIn(n, h, a)
    requires ListInv(s)
    ensures var s' := DoSwapIn(s, t, n, h, a); Core(s', t, n) && Local(s, s', t, n) && LogQuiet(s, s', n) && ListInv(s')
  {
    SwapInLocal(s, t, n, h, a);
    var s' := DoSwapIn(s, t, n, h, a);
    if s.head == h {
      Pushed(s, s', n);
    } else {
      ListKept(s, s', t, n);
    }
  }

  lemma SwapInWonNode(s: State, t: Tid, n: Node, h: Ptr, a: After)
    requires Core(s, t, n) && s.pc[t] == SwapIn(n, h, a) && s.head == h
    ensures NodeOk(DoSwapIn(s, t, n, h, a), n)
  {
    CoreCount(s, DoSwapIn(s, t, n, h, a), t, n);
  }

  lemma SwapInWonThread(s: State, t: Tid, n: Node, h: Ptr, a: After)
    requires Core(s, t, n) && s.pc[t] == SwapIn(n, h, a) && s.head == h
    ensures ThreadOk(DoSwapIn(s, t, n, h, a), t) && PtrOk(DoSwapIn(s, t, n, h, a), DoSwapIn(s, t, n, h, a).head)
  {
    hide NodeOk, Base, PhaseBacked;
  }

  lemma SwapInWon(s: State, t: Tid, n: Node, h: Ptr, a: After)
    requires Core(s, t, n) && s.pc[t] == SwapIn(n, h, a) && s.head == h
    ensures var s' := DoSwapIn(s, t, n, h, a); Core(s', t, n) && Local(s, s', t, n) && LogQuiet(s, s', n)
  {
    SwapInWonNode(s, t, n, h, a);
    SwapInWonThread(s, t, n, h, a);
    assert n in s.refs && n in s.next && n in s.phase;
    hide NodeOk, ThreadOk, PtrOk, Holders, Plus, Minus, Masked;
  }

  lemma SwapInLost(s: State, t: Tid, n: Node, h: Ptr, a: After)
    requires Core(s, t, n) && s.pc[t] == SwapIn(n, h, a) && s.head != h
    ensures var s' := DoSwapIn(s, t, n, h, a); Core(s', t, n) && Local(s, s', t, n) && LogQuiet(s, s', n)
  {
    CoreCount(s, DoSwapIn(s, t, n, h, a), t, n);
  }

  lemma SwapInLocal(s: State, t: Tid, n: Node, h: Ptr, a: After)
    requires Core(s, t, n) && s.pc[t] == SwapIn(n, h, a)
    ensures var s' := DoSwapIn(s, t, n, h, a); Core(s', t, n) && Local(s, s', t, n) && LogQuiet(s, s', n)
  {
    hide Local, LogQuiet, DoSwapIn;
    if s.head == h { SwapInWon(s, t, n, h, a); } else { SwapInLost(s, t, n, h, a); }
  }

  lemma ReflagNode(s: State, t: Tid, n: Node, h: Ptr, a: After)
    requires Core(s, t, n) && s.pc[t] == Reflag(n, h, a)
    ensures NodeOk(DoReflag(s, t, n, h, a), n)
  {
    CoreCount(s, DoReflag(s, t, n, h, a), t, n);
    Words(s.refs[n]);
  }

  lemma ReflagThread(s: State, t: Tid, n: Node, h: Ptr, a: After)
    requires Core(s, t, n) && s.pc[t] == Reflag(n, h, a)
    ensures ThreadOk(DoReflag(s, t, n, h, a), t) && PtrOk(DoReflag(s, t, n, h, a), DoReflag(s, t, n, h, a).head)
  {
    hide NodeOk, Base, PhaseBacked;
  }

  lemma ReflagCore(s: State, t: Tid, n: Node, h: Ptr, a: After)
    requires Core(s, t, n) && s.pc[t] == Reflag(n, h, a)
    ensures var s' := DoReflag(s, t, n, h, a); Core(s', t, n) && Local(s, s', t, n) && ListQuiet(s, s', n) && LogQuiet(s, s', n)
  {
    ReflagNode(s, t, n, h, a);
    ReflagThread(s, t, n, h, a);
    assert n in s.refs && n in s.next && n in s.phase;
    hide NodeOk, ThreadOk, PtrOk, Holders, Plus, Minus, Masked;
  }

  lemma AcquireNode(s: State, t: Tid, n: Node, r: nat)
    requires Core(s, t, n) && s.pc[t] == Acquire(n, r)
    ensures NodeOk(DoAcquire(s, t, n, r), n)
  {
    CoreCount(s, DoAcquire(s, t, n, r), t, n);
    Words(s.refs[n]);
  }

  lemma AcquireThread(s: State, t: Tid, n: Node, r: nat)
    requires Core(s, t, n) && s.pc[t] == Acquire(n, r)
    ensures ThreadOk(DoAcquire(s, t, n, r), t) && PtrOk(DoAcquire(s, t, n, r), DoAcquire(s, t, n, r).head)
  {
    hide NodeOk, Base, PhaseBacked;
  }

  lemma AcquireCore(s: State, t: Tid, n: Node, r: nat)
    requires Core(s, t, n) && s.pc[t] == Acquire(n, r)
    ensures var s' := DoAcquire(s, t, n, r); Core(s', t, n) && Local(s, s', t, n) && ListQuiet(s, s', n) && LogQuiet(s, s', n)
  {
    AcquireNode(s, t, n, r);
    AcquireThread(s, t, n, r);
    assert n in s.refs && n in s.next && n in s.phase;
    hide NodeOk, ThreadOk, PtrOk, Holders, Plus, Minus, Masked;
  }

  lemma ReadNextCore(s: State, t: Tid, n: Node)
    requires Core(s, t, n) && s.pc[t] == ReadNext(n)
    ensures var s' := s.(pc := s.pc[t := SwapOut(n, s.next[n])]); Core(s', t, n) && Local(s, s', t, n) && ListQuiet(s, s', n) && LogQuiet(s, s', n)
  {
    var s' := s.(pc := s.pc[t := SwapOut(n, s.next[n])]);
    CoreCount(s, s', t, n);
  }

  lemma SwapOutCore(s: State, t: Tid, n: Node, nx: Ptr)
    requires Core(s, t, n) && s.pc[t] == SwapOut(n, nx)
    requires ListInv(s)
    ensures var s' := DoSwapOut(s, t, n, nx); Core(s', t, n) && Local(s, s', t, n) && LogQuiet(s, s', n) && ListInv(s')
  {
    if s.head == At(n) { assert n in s.list; }
    SwapOutLocal(s, t, n, nx);
    var s' := DoSwapOut(s, t, n, nx);
    if s.head == At(n) {
      Removed(s, s', n);
    } else {
      ListKept(s, s', t, n);
    }
  }

  lemma SwapOutNode(s: State, t: Tid, n: Node, nx: Ptr)
    requires Core(s, t, n) && s.pc[t] == SwapOut(n, nx)
    requires s.head == At(n) ==> s.phase[n].Linked?
    ensures NodeOk(DoSwapOut(s, t, n, nx), n)
  {
    CoreCount(s, DoSwapOut(s, t, n, nx), t, n);
  }

  lemma SwapOutThread(s: State, t: Tid, n: Node, nx: Ptr)
    requires Core(s, t, n) && s.pc[t] == SwapOut(n, nx)
    ensures ThreadOk(DoSwapOut(s, t, n, nx), t) && PtrOk(DoSwapOut(s, t, n, nx), DoSwapOut(s, t, n, nx).head)
  {
    hide NodeOk, Base, PhaseBacked;
  }

  lemma SwapOutLocal(s: State, t: Tid, n: Node, nx: Ptr)
    requires Core(s, t, n) && s.pc[t] == SwapOut(n, nx)
    requires s.head == At(n) ==> s.phase[n].Linked?
    ensures var s' := DoSwapOut(s, t, n, nx); Core(s', t, n) && Local(s, s', t, n) && LogQuiet(s, s', n)
  {
    SwapOutNode(s, t, n, nx);
    SwapOutThread(s, t, n, nx);
    assert n in s.refs && n in s.next && n in s.phase;
    hide NodeOk, ThreadOk, PtrOk, Holders, Plus, Minus, Masked;
  }

  lemma CheckFlagCore(s: State, t: Tid, n: Node)
    requires Core(s, t, n) && s.pc[t] == CheckFlag(n)
    ensures var s' := s.(pc := s.pc[t := DropTwo(n)]); Core(s', t, n) && Local(s, s', t, n) && ListQuiet(s, s', n) && LogQuiet(s, s', n)
  {
    var s' := s.(pc := s.pc[t := DropTwo(n)]);
    CoreCount(s, s', t, n);
  }

  lemma DropTwoCore(s: State, t: Tid, n: Node)
    requires Core(s, t, n) && s.pc[t] == DropTwo(n)
    requires LogInv(s)
    ensures var s' := DoDropTwo(s, t, n); Core(s', t, n) && Local(s, s', t, n) && ListQuiet(s, s', n) && LogInv(s')
  {
    var s' := DoDropTwo(s, t, n);
    CoreCount(s, s', t, n);
    Words(s.refs[n]);
    LogGrows(s, s', Got(t, n));
  }

  lemma DropOneNode(s: State, t: Tid, n: Node, h: Ptr)
    requires Core(s, t, n) && s.pc[t] == DropOne(n, h)
    ensures NodeOk(DoDropOne(s, t, n, h), n)
    ensures n in s.refs && n in s.phase && (s.refs[n] == SHOULD_BE_ON_FREELIST + 1 ==> s.phase[n].Flagged?)
  {
    CoreCount(s, DoDropOne(s, t, n, h), t, n);
    Words(s.refs[n]);
  }

  lemma DropOneThread(s: State, t: Tid, n: Node, h: Ptr)
    requires Core(s, t, n) && s.pc[t] == DropOne(n, h)
    ensures ThreadOk(DoDropOne(s, t, n, h), t) && PtrOk(DoDropOne(s, t, n, h), DoDropOne(s, t, n, h).head)
  {
    hide NodeOk, Base, PhaseBacked;
  }

  lemma DropOneCore(s: State, t: Tid, n: Node, h: Ptr)
    requires Core(s, t, n) && s.pc[t] == DropOne(n, h)
    ensures var s' := DoDropOne(s, t, n, h); Core(s', t, n) && Local(s, s', t, n) && ListQuiet(s, s', n) && LogQuiet(s, s', n)
  {
    DropOneNode(s, t, n, h);
    DropOneThread(s, t, n, h);
    assert n in s.refs && n in s.next && n in s.phase;
    hide NodeOk, ThreadOk, PtrOk, Holders, Plus, Minus, Masked;
  }

  lemma AccessKeeps(s: State, t: Tid, n: Node)
    requires Inv(s) && WellFormed(s) && t in s.pc && !s.pc[t].Idle? && !s.pc[t].GetHead? && !s.pc[t].ReadRefs?
    requires n == s.pc[t].n && Core(s, t, n)
    ensures var s' := Access(s, t); Core(s', t, n) && Local(s, s', t, n) && ListInv(s') && LogInv(s')
  {
    hide Core, Local, ListInv, LogInv, WellFormed;
    var s' := Access(s, t);
    match s.pc[t] {
      case AddFlag(_) => AddFlagCore(s, t, n);
      case LoadHead(_, a) => LoadHeadCore(s, t, n, a);
      case StoreNext(_, h, a) => StoreNextCore(s, t, n, h, a);
      case StoreRefs(_, h, a) => StoreRefsCore(s, t, n, h, a);
      case SwapIn(_, h, a) => SwapInCore(s, t, n, h, a);
      case Reflag(_, h, a) => ReflagCore(s, t, n, h, a);
      case Acquire(_, r) => AcquireCore(s, t, n, r);
      case ReadNext(_) => ReadNextCore(s, t, n);
      case SwapOut(_, nx) => SwapOutCore(s, t, n, nx);
      case CheckFlag(_) => CheckFlagCore(s, t, n);
      case DropTwo(_) => DropTwoCore(s, t, n);
      case DropOne(_, h) => DropOneCore(s, t, n, h);
    }
    if ListQuiet(s, s', n) { ListKept(s, s', t, n); }
    if LogQuiet(s, s', n) { LogKept(s, s', t, n); }
  }

  lemma CallAddKeeps(s: State, t: Tid, n: Node)
    requires Inv(s) && CanAdd(s, t, n)
    ensures Inv(CallAdd(s, t, n))
  {
    var s' := CallAdd(s, t, n);
    assert NodeOk(s, n) && ThreadOk(s, t);
    CallAddCore(s, t, n);
    ListKept(s, s', t, n);
    LogGrows(s, s', Gave(n));
    Frame(s, s', t, n);
  }

  lemma StepKeeps(s: State, t: Tid)
    requires Inv(s) && WellFormed(s) && t in s.pc && !s.pc[t].Idle?
    ensures Inv(Access(s, t))
  {
    var s' := Access(s, t);
    assert ThreadOk(s, t);
    if s.pc[t].GetHead? || s.pc[t].ReadRefs? {
      SilentStep(s, t, if s.pc[t].ReadRefs? then s.pc[t].head else Null);
      FrameSilent(s, s', t);
    } else {
      var n := s.pc[t].n;
      assert NodeOk(s, n);
      AccessKeeps(s, t, n);
      Frame(s, s', t, n);
    }
  }

  lemma NextKeeps(s: State, s': State)
    requires Inv(s) && Next(s, s')
    ensures Inv(s')
  {
    var t :| t in s.pc && (
      || (exists n :: CanAdd(s, t, n) && s' == CallAdd(s, t, n))
      || (s.pc[t].Idle? && s' == CallTryGet(s, t))
      || (!s.pc[t].Idle? && s' == Access(s, t)));
    if !s.pc[t].Idle? {
      StepKeeps(s, t);
    } else if s' == CallTryGet(s, t) {
      assert ThreadOk(s, t);
      SilentStep(s, t, Null);
      FrameSilent(s, s', t);
    } else {
      var n :| CanAdd(s, t, n) && s' == CallAdd(s, t, n);
      CallAddKeeps(s, t, n);
    }
  }

  lemma {:induction false} RunInv(run: seq<State>, i: nat)
    requires IsRun(run) && i < |run|
    ensures Inv(run[i])
  {
    if i == 0 { InitInv(run[0]); }
    else {
      RunInv(run, i - 1);
      assert Next(run[i - 1], run[i - 1 + 1]);
      NextKeeps(run[i - 1], run[i]);
    }
  }

  // ---- What callers and the source rely on, in every reachable state ----

  lemma {:induction false} GaveBetween(log: seq<Event>, n: Node, i: nat, k: nat) returns (j: nat)
    requires Alternates(log) && i < k < |log|
    requires log[i].Got? && log[i].n == n && log[k].Got? && log[k].n == n
    ensures i < j < k && log[j] == Gave(n)
  {
    assert !Owned(log[..k], n);
    j := LastGave(log[..k], n, i);
    assert log[j] == log[..k][j];
  }

  lemma {:induction false} LastGave(log: seq<Event>, n: Node, i: nat) returns (j: nat)
    requires i < |log| && log[i].Got? && log[i].n == n && !Owned(log, n)
    ensures i < j < |log| && log[j] == Gave(n)
  {
    var last := |log| - 1;
    if log[last].n == n { j := last; }
    else {
      j := LastGave(log[..last], n, i);
    }
  }

  /** No node is handed to two callers without an `add` of it in between. */
  lemma NoDoubleHandOut(run: seq<State>, at: nat, n: Node, i: nat, k: nat) returns (j: nat)
    requires IsRun(run) && at < |run|
    requires i < k < |run[at].log|
    requires run[at].log[i].Got? && run[at].log[i].n == n && run[at].log[k].Got? && run[at].log[k].n == n
    ensures i < j < k && run[at].log[j] == Gave(n)
  {
    RunInv(run, at);
    j := GaveBetween(run[at].log, n, i, k);
  }

  /** Whenever the compare-and-swap of `try_get` succeeds, the successor it installs is the one the
      node has now, the node is the front of the list, and the list loses exactly that node. */
  lemma NoAba(run: seq<State>, at: nat, t: Tid)
    requires IsRun(run) && at < |run| && t in run[at].pc && run[at].pc[t].SwapOut?
    requires run[at].head == At(run[at].pc[t].n)
    ensures var s, n := run[at], run[at].pc[t].n;
      && n in s.next && s.next[n] == s.pc[t].next
      && s.list != [] && s.list[0] == n && n !in s.list[1..]
      && WellFormed(s) && Access(s, t).head == First(s.list[1..]) && Access(s, t).list == s.list[1..]
  {
    RunInv(run, at);
    InvWellFormed(run[at]);
    assert ThreadOk(run[at], t);
    assert run[at].next[run[at].list[0]] == First(run[at].list[1..]);
  }

  /** The assertion after the swap: the flag is off. */
  lemma FlagOffAfterSwap(run: seq<State>, at: nat, t: Tid)
    requires IsRun(run) && at < |run| && t in run[at].pc && run[at].pc[t].CheckFlag?
    ensures run[at].pc[t].n in run[at].refs && run[at].refs[run[at].pc[t].n] < SHOULD_BE_ON_FREELIST
  {
    RunInv(run, at);
    var s, n := run[at], run[at].pc[t].n;
    assert ThreadOk(s, t) && NodeOk(s, n);
    HoldersBound(s, n);
  }

  /** The list holds a reference to a node from the store of 1 until the double decrement. */
  predicate ListReference(s: State, n: Node)
    requires n in s.phase
  {
    match s.phase[n]
    case Linked => true
    case Taken(_) => true
    case Linking(t) => t in s.pc && AfterStore(s.pc[t], n)
    case _ => false
  }

  /** The reference word in every reachable state: the masked count is the list's reference plus
      the number of `try_get` callers on the node, and the flag is up exactly while the node waits. */
  lemma ReferenceCount(run: seq<State>, at: nat, n: Node)
    requires IsRun(run) && at < |run| && n in run[at].refs
    ensures var s := run[at];
      && n in s.phase
      && Masked(s.refs[n]) == (if ListReference(s, n) then 1 else 0) + |Holders(s, n)|
      && (s.refs[n] >= SHOULD_BE_ON_FREELIST <==>
            s.phase[n].Flagged? || (s.phase[n].Linking? && !ListReference(s, n)))
  {
    RunInv(run, at);
    var s := run[at];
    assert NodeOk(s, n);
    HoldersBound(s, n);
    Words(s.refs[n]);
  }

  /** The chain from the head never repeats a node, and holds exactly the linked nodes. */
  lemma ListShape(run: seq<State>, at: nat)
    requires IsRun(run) && at < |run|
    ensures ListInv(run[at])
  {
    RunInv(run, at);
  }

  /** Conservation: when every call has returned, the list holds exactly the nodes that were added
      and not taken since, each with a reference count of one, and every other node has count zero. */
  lemma Conservation(run: seq<State>, at: nat, n: Node)
    requires IsRun(run) && at < |run| && n in run[at].refs
    requires forall t :: t in run[at].pc ==> run[at].pc[t].Idle?
    ensures n in run[at].list <==> !Owned(run[at].log, n)
    ensures run[at].refs[n] == if n in run[at].list then 1 else 0
  {
    RunInv(run, at);
    assert NodeOk(run[at], n);
    assert Holders(run[at], n) == {};
  }
}
