/** How the consumers of one producer share out its elements: the optimistic count, the overcommit
    count and the head index, one atomic access per step, any number of consumers.
    `dequeue` makes the same accesses as `dequeue_bulk` with a maximum of one. */
module DequeueAccounting {

  import opened Arithmetic

  type Tid = nat

  /** What became of one unit of `dequeueOptimisticCount`. Auxiliary: no step reads it. */
  datatype Slot =
    | Undecided(t: Tid)   // claimed, tail not reloaded yet
    | Won(t: Tid)         // an element is due, headIndex not advanced yet
    | Taken               // headIndex advanced over it
    | Lost(t: Tid)        // no element, dequeueOvercommit not raised yet
    | Posted              // counted in dequeueOvercommit

  datatype Kind = IsWon | IsTaken | IsLost | IsPosted

  predicate Is(slot: Slot, kind: Kind) {
    match kind
    case IsWon => slot.Won? || slot.Taken?
    case IsTaken => slot.Taken?
    case IsLost => slot.Lost? || slot.Posted?
    case IsPosted => slot.Posted?
  }

  function Count(slots: seq<Slot>, kind: Kind): nat {
    if slots == [] then 0
    else Count(slots[..|slots| - 1], kind) + (if Is(slots[|slots| - 1], kind) then 1 else 0)
  }

  /** The program counter names the next atomic access and holds the locals it needs. */
  datatype Pc =
    | Idle
    | LoadTail(max: nat)
    | LoadOvercommit(max: nat, tail: nat)
    | LoadOptimistic(max: nat, tail: nat, overcommit: nat)
    | AddOptimistic(overcommit: nat, desired: nat)
    | ReloadTail(overcommit: nat, desired: nat, mine: nat)
    | AddOvercommit(mine: nat, actual: nat, desired: nat)
    | AddHead(mine: nat, actual: nat)

  /** A consumer advanced `headIndex` from `first` over `count` elements. */
  datatype Delivery = Delivery(t: Tid, first: nat, count: nat)

  /** `items` is everything enqueued so far, so `tailIndex` is its length.
      `slots` and `log` are auxiliary. */
  datatype State<T> = State(
    items: seq<T>, head: nat, optimistic: nat, overcommit: nat, pc: map<Tid, Pc>,
    slots: seq<Slot>, log: seq<Delivery>)

  /** `slots` with positions `lo` up to `hi` set to `slot`. */
  function Fill(slots: seq<Slot>, lo: nat, hi: nat, slot: Slot): (r: seq<Slot>)
    requires lo <= hi <= |slots|
    ensures |r| == |slots|
    ensures forall i :: 0 <= i < |r| ==> r[i] == if lo <= i < hi then slot else slots[i]
  {
    seq(|slots|, i requires 0 <= i < |slots| => if lo <= i < hi then slot else slots[i])
  }

  /** The range a program counter works on lies inside the claimed slots. */
  predicate PcOk<T>(s: State<T>, pc: Pc) {
    match pc
    case ReloadTail(oc, desired, mine) => mine + desired <= |s.slots|
    case AddOvercommit(mine, actual, desired) => actual <= desired && mine + desired <= |s.slots|
    case AddHead(mine, actual) => mine + actual <= |s.slots|
    case _ => true
  }

  function DoLoadOptimistic<T>(s: State<T>, t: Tid, max: nat, tail: nat, oc: nat): State<T> {
    var room := tail - (s.optimistic - oc);
    if 0 < room then s.(pc := s.pc[t := AddOptimistic(oc, Min(room, max))])
    else s.(pc := s.pc[t := Idle])
  }

  function DoAddOptimistic<T>(s: State<T>, t: Tid, oc: nat, desired: nat): State<T> {
    s.(optimistic := s.optimistic + desired, pc := s.pc[t := ReloadTail(oc, desired, s.optimistic)],
       slots := s.slots + seq(desired, i => Undecided(t)))
  }

  /** The decision: how many of the claimed slots carry an element. */
  function DoReloadTail<T>(s: State<T>, t: Tid, oc: nat, desired: nat, mine: nat): State<T>
    requires mine + desired <= |s.slots|
  {
    var room := |s.items| - (mine - oc);
    var actual := if 0 < room then Min(desired, room) else 0;
    var slots := Fill(Fill(s.slots, mine, mine + actual, Won(t)), mine + actual, mine + desired, Lost(t));
    if 0 < room && actual == desired then s.(pc := s.pc[t := AddHead(mine, actual)], slots := slots)
    else s.(pc := s.pc[t := AddOvercommit(mine, actual, desired)], slots := slots)
  }

  function DoAddOvercommit<T>(s: State<T>, t: Tid, mine: nat, actual: nat, desired: nat): State<T>
    requires actual <= desired && mine + desired <= |s.slots|
  {
    s.(overcommit := s.overcommit + (desired - actual),
       pc := s.pc[t := if 0 < actual then AddHead(mine, actual) else Idle],
       slots := Fill(s.slots, mine + actual, mine + desired, Posted))
  }

  function DoAddHead<T>(s: State<T>, t: Tid, mine: nat, actual: nat): State<T>
    requires mine + actual <= |s.slots|
  {
    s.(head := s.head + actual, pc := s.pc[t := Idle],
       slots := Fill(s.slots, mine, mine + actual, Taken), log := s.log + [Delivery(t, s.head, actual)])
  }

  /** One atomic access of consumer `t`. */
  function Access<T>(s: State<T>, t: Tid): State<T>
    requires t in s.pc && !s.pc[t].Idle? && PcOk(s, s.pc[t])
  {
    match s.pc[t]
    case LoadTail(max) => s.(pc := s.pc[t := LoadOvercommit(max, |s.items|)])
    case LoadOvercommit(max, tail) => s.(pc := s.pc[t := LoadOptimistic(max, tail, s.overcommit)])
    case LoadOptimistic(max, tail, oc) => DoLoadOptimistic(s, t, max, tail, oc)
    case AddOptimistic(oc, desired) => DoAddOptimistic(s, t, oc, desired)
    case ReloadTail(oc, desired, mine) => DoReloadTail(s, t, oc, desired, mine)
    case AddOvercommit(mine, actual, desired) => DoAddOvercommit(s, t, mine, actual, desired)
    case AddHead(mine, actual) => DoAddHead(s, t, mine, actual)
  }

  /** The producer publishes `more` elements by one store to `tailIndex`. */
  function Publish<T>(s: State<T>, more: seq<T>): State<T> { s.(items := s.items + more) }

  function Call<T>(s: State<T>, t: Tid, max: nat): State<T>
  {
    s.(pc := s.pc[t := LoadTail(max)])
  }

  ghost predicate Next<T(!new)>(s: State<T>, s': State<T>) {
    || (exists more :: s' == Publish(s, more))
    || (exists t, max :: t in s.pc && s.pc[t].Idle? && s' == Call(s, t, max))
    || (exists t :: t in s.pc && !s.pc[t].Idle? && PcOk(s, s.pc[t]) && s' == Access(s, t))
  }

  predicate Init<T(==)>(s: State<T>) {
    && s.items == [] && s.head == 0 && s.optimistic == 0 && s.overcommit == 0
    && s.slots == [] && s.log == [] && forall t :: t in s.pc ==> s.pc[t].Idle?
  }

  ghost predicate IsRun<T(!new)>(run: seq<State<T>>) {
    && run != [] && Init(run[0])
    && forall i :: 0 <= i < |run| - 1 ==> Next(run[i], run[i + 1])
  }

  // ---- The invariant ----

  predicate AllAre(slots: seq<Slot>, lo: nat, hi: nat, slot: Slot) {
    lo <= hi <= |slots| && forall i :: lo <= i < hi ==> slots[i] == slot
  }

  ghost predicate ThreadOk<T>(s: State<T>, t: Tid)
    requires t in s.pc
  {
    match s.pc[t]
    case LoadOptimistic(max, tail, oc) => oc <= s.overcommit
    case AddOptimistic(oc, desired) => oc <= s.overcommit
    case ReloadTail(oc, desired, mine) =>
      AllAre(s.slots, mine, mine + desired, Undecided(t)) && oc <= Count(s.slots[..mine], IsLost)
    case AddOvercommit(mine, actual, desired) =>
      && actual <= desired
      && AllAre(s.slots, mine, mine + actual, Won(t)) && AllAre(s.slots, mine + actual, mine + desired, Lost(t))
    case AddHead(mine, actual) => AllAre(s.slots, mine, mine + actual, Won(t))
    case _ => true
  }

  predicate Working(pc: Pc, i: int) {
    match pc
    case ReloadTail(_, desired, mine) => mine <= i < mine + desired
    case AddOvercommit(mine, _, desired) => mine <= i < mine + desired
    case AddHead(mine, actual) => mine <= i < mine + actual
    case _ => false
  }

  /** A slot that still belongs to a consumer is one that consumer is working on. */
  predicate OwnerOk(slot: Slot, i: int, pc: map<Tid, Pc>) {
    slot.Taken? || slot.Posted? || (slot.t in pc && Working(pc[slot.t], i))
  }

  /** A slot is won only if the tail covers it once the slots lost before it are discounted. */
  ghost predicate WonOk<T>(s: State<T>) {
    forall j :: 0 <= j < |s.slots| && Is(s.slots[j], IsWon) ==> j + 1 - Count(s.slots[..j], IsLost) <= |s.items|
  }

  /** Deliveries follow each other without gap or overlap. */
  predicate Contiguous(log: seq<Delivery>, head: nat) {
    if log == [] then head == 0
    else
      var last := log[|log| - 1];
      last.first + last.count == head && Contiguous(log[..|log| - 1], last.first)
  }

  ghost predicate Inv<T>(s: State<T>) {
    && s.optimistic == |s.slots|
    && s.head == Count(s.slots, IsTaken)
    && s.overcommit == Count(s.slots, IsPosted)
    && (forall t :: t in s.pc ==> ThreadOk(s, t))
    && (forall i :: 0 <= i < |s.slots| ==> OwnerOk(s.slots[i], i, s.pc))
    && WonOk(s)
    && Contiguous(s.log, s.head)
  }

  // ---- Counting ----

  lemma {:induction false} CountAppend(a: seq<Slot>, b: seq<Slot>, kind: Kind)
    ensures Count(a + b, kind) == Count(a, kind) + Count(b, kind)
  {
    if b == [] {
      assert a + b == a;
    } else {
      assert (a + b)[..|a + b| - 1] == a + b[..|b| - 1];
      CountAppend(a, b[..|b| - 1], kind);
    }
  }

  lemma {:induction false} CountSame(slots: seq<Slot>, slot: Slot, kind: Kind)
    requires forall i :: 0 <= i < |slots| ==> slots[i] == slot
    ensures Count(slots, kind) == if Is(slot, kind) then |slots| else 0
  {
    if slots != [] { CountSame(slots[..|slots| - 1], slot, kind); }
  }

  /** Refilling a uniform range changes each count by the length of the range or not at all. */
  lemma CountFill(slots: seq<Slot>, lo: nat, hi: nat, was: Slot, slot: Slot, kind: Kind)
    requires AllAre(slots, lo, hi, was)
    ensures Count(Fill(slots, lo, hi, slot), kind) ==
      Count(slots, kind) - (if Is(was, kind) then hi - lo else 0) + (if Is(slot, kind) then hi - lo else 0)
  {
    var filled := Fill(slots, lo, hi, slot);
    var before, here, now, after := slots[..lo], slots[lo..hi], filled[lo..hi], slots[hi..];
    assert slots == (before + here) + after && filled == (before + now) + after;
    assert (forall i :: 0 <= i < |here| ==> here[i] == was) && (forall i :: 0 <= i < |now| ==> now[i] == slot);
    hide Count, Fill, AllAre, Is;
    CountAppend(before + here, after, kind);
    CountAppend(before, here, kind);
    CountAppend(before + now, after, kind);
    CountAppend(before, now, kind);
    CountSame(here, was, kind);
    CountSame(now, slot, kind);
  }

  lemma {:induction false} CountGrows(a: seq<Slot>, b: seq<Slot>, kind: Kind)
    requires |a| == |b| && forall i :: 0 <= i < |a| && Is(a[i], kind) ==> Is(b[i], kind)
    ensures Count(a, kind) <= Count(b, kind)
  {
    if a != [] { CountGrows(a[..|a| - 1], b[..|b| - 1], kind); }
  }

  lemma {:induction false} CountOrder(slots: seq<Slot>)
    ensures Count(slots, IsPosted) <= Count(slots, IsLost)
    ensures Count(slots, IsTaken) <= Count(slots, IsWon)
    ensures Count(slots, IsWon) + Count(slots, IsLost) <= |slots|
  {
    if slots != [] { CountOrder(slots[..|slots| - 1]); }
  }

  /** However the slots were shared out, no more of them are won than there are elements. */
  lemma {:induction false} WonTotal(slots: seq<Slot>, tail: nat)
    requires forall j :: 0 <= j < |slots| && Is(slots[j], IsWon) ==> j + 1 - Count(slots[..j], IsLost) <= tail
    ensures Count(slots, IsWon) <= tail
  {
    if slots != [] {
      var j := |slots| - 1;
      CountOrder(slots[..j]);
      forall i | 0 <= i < j && Is(slots[..j][i], IsWon)
        ensures i + 1 - Count(slots[..j][..i], IsLost) <= tail
      {
        assert slots[..j][..i] == slots[..i];
      }
      WonTotal(slots[..j], tail);
    }
  }

  // ---- Every step keeps the invariant ----

  predicate OwnedBy(slot: Slot, t: Tid) { slot == Undecided(t) || slot == Won(t) || slot == Lost(t) }

  /** A step of `t` rewrites only slots that `t` owns, and a lost slot stays lost. */
  ghost predicate Evolves<T>(s: State<T>, s': State<T>, t: Tid) {
    && t in s.pc && t in s'.pc && s'.pc == s.pc[t := s'.pc[t]]
    && s.overcommit <= s'.overcommit && |s.slots| <= |s'.slots|
    && forall i :: 0 <= i < |s.slots| ==>
        && (s'.slots[i] == s.slots[i] ||
             (OwnedBy(s.slots[i], t) && (OwnedBy(s'.slots[i], t) || s'.slots[i].Taken? || s'.slots[i].Posted?)))
        && (Is(s.slots[i], IsLost) ==> Is(s'.slots[i], IsLost))
  }

  lemma LostPrefixGrows<T>(s: State<T>, s': State<T>, t: Tid, j: nat)
    requires Evolves(s, s', t) && j <= |s.slots|
    ensures Count(s.slots[..j], IsLost) <= Count(s'.slots[..j], IsLost)
  {
    CountGrows(s.slots[..j], s'.slots[..j], IsLost);
  }

  lemma OtherThread<T>(s: State<T>, s': State<T>, t: Tid, u: Tid)
    requires Evolves(s, s', t) && u in s.pc && u != t && ThreadOk(s, u)
    ensures ThreadOk(s', u)
  {
    match s.pc[u]
    case ReloadTail(oc, desired, mine) => LostPrefixGrows(s, s', t, mine);
    case _ =>
  }

  /** A won slot that was already won keeps its bound. */
  lemma WonKept<T>(s: State<T>, s': State<T>, t: Tid, j: nat)
    requires Evolves(s, s', t) && WonOk(s) && |s.items| <= |s'.items|
    requires j < |s.slots| && Is(s.slots[j], IsWon)
    ensures j + 1 - Count(s'.slots[..j], IsLost) <= |s'.items|
  {
    LostPrefixGrows(s, s', t, j);
  }

  /** `t` still owns only slots it is working on. */
  ghost predicate OwnsOnly<T>(s: State<T>, t: Tid)
    requires t in s.pc
  {
    forall i :: 0 <= i < |s.slots| && OwnedBy(s.slots[i], t) ==> Working(s.pc[t], i)
  }

  ghost predicate Counted<T>(s: State<T>) {
    && s.optimistic == |s.slots| && s.head == Count(s.slots, IsTaken) && s.overcommit == Count(s.slots, IsPosted)
    && Contiguous(s.log, s.head)
  }

  ghost predicate NewWonOk<T>(s: State<T>, s': State<T>) {
    forall j :: 0 <= j < |s'.slots| && Is(s'.slots[j], IsWon) && !(j < |s.slots| && Is(s.slots[j], IsWon)) ==>
      j + 1 - Count(s'.slots[..j], IsLost) <= |s'.items|
  }

  /** All that has to be shown of a step of `t`. */
  ghost predicate StepOk<T>(s: State<T>, s': State<T>, t: Tid) {
    && Evolves(s, s', t) && |s.items| <= |s'.items|
    && ThreadOk(s', t) && OwnsOnly(s', t) && Counted(s') && NewWonOk(s, s')
    && (forall i :: |s.slots| <= i < |s'.slots| ==> OwnedBy(s'.slots[i], t))
  }

  lemma Assemble<T>(s: State<T>, s': State<T>, t: Tid)
    requires Inv(s) && StepOk(s, s', t)
    ensures Inv(s')
  {
    forall u | u in s'.pc ensures ThreadOk(s', u) {
      if u != t { OtherThread(s, s', t, u); }
    }
    forall i | 0 <= i < |s'.slots| ensures OwnerOk(s'.slots[i], i, s'.pc) {
      if i < |s.slots| { assert OwnerOk(s.slots[i], i, s.pc); }
    }
    forall j | 0 <= j < |s'.slots| && Is(s'.slots[j], IsWon)
      ensures j + 1 - Count(s'.slots[..j], IsLost) <= |s'.items|
    {
      if j < |s.slots| && Is(s.slots[j], IsWon) { WonKept(s, s', t, j); }
    }
  }

  lemma AddOptimisticStep<T>(s: State<T>, t: Tid, oc: nat, desired: nat)
    requires t in s.pc && s.pc[t] == AddOptimistic(oc, desired)
    requires ThreadOk(s, t) && OwnsOnly(s, t) && Counted(s)
    ensures StepOk(s, DoAddOptimistic(s, t, oc, desired), t)
  {
    var s' := DoAddOptimistic(s, t, oc, desired);
    var more := seq(desired, i => Undecided(t));
    CountAppend(s.slots, more, IsTaken);
    CountAppend(s.slots, more, IsPosted);
    CountSame(more, Undecided(t), IsTaken);
    CountSame(more, Undecided(t), IsPosted);
    CountOrder(s.slots);
    assert s'.slots[..|s.slots|] == s.slots;
  }

  function Decided(slots: seq<Slot>, t: Tid, mine: nat, actual: nat, desired: nat): seq<Slot>
    requires actual <= desired && mine + desired <= |slots|
  {
    Fill(Fill(slots, mine, mine + actual, Won(t)), mine + actual, mine + desired, Lost(t))
  }

  lemma DecidedCount(slots: seq<Slot>, t: Tid, mine: nat, actual: nat, desired: nat, kind: Kind)
    requires actual <= desired && AllAre(slots, mine, mine + desired, Undecided(t))
    requires kind.IsTaken? || kind.IsPosted?
    ensures Count(Decided(slots, t, mine, actual, desired), kind) == Count(slots, kind)
  {
    var half := Fill(slots, mine, mine + actual, Won(t));
    assert AllAre(half, mine + actual, mine + desired, Undecided(t));
    hide Count, Fill, AllAre;
    CountFill(slots, mine, mine + actual, Undecided(t), Won(t), kind);
    CountFill(half, mine + actual, mine + desired, Undecided(t), Lost(t), kind);
  }

  /** Before a slot won in this step there are only the earlier slots and slots won with it. */
  lemma DecidedWon(slots: seq<Slot>, t: Tid, mine: nat, actual: nat, desired: nat, j: nat)
    requires actual <= desired && AllAre(slots, mine, mine + desired, Undecided(t))
    requires mine <= j < mine + actual
    ensures Count(Decided(slots, t, mine, actual, desired)[..j], IsLost) >= Count(slots[..mine], IsLost)
  {
    var decided := Decided(slots, t, mine, actual, desired);
    assert decided[..j] == slots[..mine] + decided[mine..j];
    CountAppend(slots[..mine], decided[mine..j], IsLost);
  }

  function Granted<T>(s: State<T>, oc: nat, desired: nat, mine: nat): nat {
    var room := |s.items| - (mine - oc);
    if 0 < room then Min(desired, room) else 0
  }

  lemma ReloadTailCounted<T>(s: State<T>, t: Tid, oc: nat, desired: nat, mine: nat)
    requires t in s.pc && s.pc[t] == ReloadTail(oc, desired, mine) && mine + desired <= |s.slots|
    requires ThreadOk(s, t) && Counted(s)
    ensures Counted(DoReloadTail(s, t, oc, desired, mine))
  {
    hide Count, Fill;
    var actual := Granted(s, oc, desired, mine);
    DecidedCount(s.slots, t, mine, actual, desired, IsTaken);
    DecidedCount(s.slots, t, mine, actual, desired, IsPosted);
  }

  lemma ReloadTailWon<T>(s: State<T>, t: Tid, oc: nat, desired: nat, mine: nat)
    requires t in s.pc && s.pc[t] == ReloadTail(oc, desired, mine) && mine + desired <= |s.slots|
    requires ThreadOk(s, t)
    ensures NewWonOk(s, DoReloadTail(s, t, oc, desired, mine))
  {
    var s' := DoReloadTail(s, t, oc, desired, mine);
    var actual := Granted(s, oc, desired, mine);
    forall j | 0 <= j < |s'.slots| && Is(s'.slots[j], IsWon) && !(j < |s.slots| && Is(s.slots[j], IsWon))
      ensures j + 1 - Count(s'.slots[..j], IsLost) <= |s'.items|
    {
      DecidedWon(s.slots, t, mine, actual, desired, j);
    }
  }

  lemma ReloadTailEvolves<T>(s: State<T>, t: Tid, oc: nat, desired: nat, mine: nat)
    requires t in s.pc && s.pc[t] == ReloadTail(oc, desired, mine) && mine + desired <= |s.slots|
    requires ThreadOk(s, t) && OwnsOnly(s, t)
    ensures var s' := DoReloadTail(s, t, oc, desired, mine); Evolves(s, s', t) && OwnsOnly(s', t)
  {
    hide Count, Fill;
  }

  lemma ReloadTailThread<T>(s: State<T>, t: Tid, oc: nat, desired: nat, mine: nat)
    requires t in s.pc && s.pc[t] == ReloadTail(oc, desired, mine) && mine + desired <= |s.slots|
    ensures ThreadOk(DoReloadTail(s, t, oc, desired, mine), t)
  {
    hide Count;
  }

  lemma ReloadTailStep<T>(s: State<T>, t: Tid, oc: nat, desired: nat, mine: nat)
    requires t in s.pc && s.pc[t] == ReloadTail(oc, desired, mine) && mine + desired <= |s.slots|
    requires ThreadOk(s, t) && OwnsOnly(s, t) && Counted(s)
    ensures StepOk(s, DoReloadTail(s, t, oc, desired, mine), t)
  {
    ReloadTailCounted(s, t, oc, desired, mine);
    ReloadTailWon(s, t, oc, desired, mine);
    ReloadTailEvolves(s, t, oc, desired, mine);
    ReloadTailThread(s, t, oc, desired, mine);
    hide Count, Counted, NewWonOk, Evolves, OwnsOnly, ThreadOk;
  }

  lemma AddOvercommitCounted<T>(s: State<T>, t: Tid, mine: nat, actual: nat, desired: nat)
    requires t in s.pc && s.pc[t] == AddOvercommit(mine, actual, desired)
    requires actual <= desired && mine + desired <= |s.slots|
    requires ThreadOk(s, t) && Counted(s)
    ensures Counted(DoAddOvercommit(s, t, mine, actual, desired))
  {
    hide Count, Fill;
    CountFill(s.slots, mine + actual, mine + desired, Lost(t), Posted, IsTaken);
    CountFill(s.slots, mine + actual, mine + desired, Lost(t), Posted, IsPosted);
  }

  lemma AddOvercommitStep<T>(s: State<T>, t: Tid, mine: nat, actual: nat, desired: nat)
    requires t in s.pc && s.pc[t] == AddOvercommit(mine, actual, desired)
    requires actual <= desired && mine + desired <= |s.slots|
    requires ThreadOk(s, t) && OwnsOnly(s, t) && Counted(s)
    ensures StepOk(s, DoAddOvercommit(s, t, mine, actual, desired), t)
  {
    AddOvercommitCounted(s, t, mine, actual, desired);
  }

  lemma AddHeadStep<T>(s: State<T>, t: Tid, mine: nat, actual: nat)
    requires t in s.pc && s.pc[t] == AddHead(mine, actual) && mine + actual <= |s.slots|
    requires ThreadOk(s, t) && OwnsOnly(s, t) && Counted(s)
    ensures StepOk(s, DoAddHead(s, t, mine, actual), t)
  {
    hide Count;
    var s' := DoAddHead(s, t, mine, actual);
    CountFill(s.slots, mine, mine + actual, Won(t), Taken, IsTaken);
    CountFill(s.slots, mine, mine + actual, Won(t), Taken, IsPosted);
    assert s'.log[..|s.log|] == s.log;
  }

  lemma PublishKeeps<T>(s: State<T>, more: seq<T>)
    requires Inv(s)
    ensures Inv(Publish(s, more))
  {
    var s' := Publish(s, more);
    forall t | t in s'.pc ensures ThreadOk(s', t) { assert ThreadOk(s, t); }
  }

  lemma QuietStep<T>(s: State<T>, s': State<T>, t: Tid)
    requires t in s.pc && t in s'.pc && s' == s.(pc := s.pc[t := s'.pc[t]]) && ThreadOk(s', t)
    requires OwnsOnly(s, t) && Counted(s) && forall i :: !Working(s.pc[t], i)
    ensures StepOk(s, s', t)
  {}

  lemma AccessKeeps<T>(s: State<T>, t: Tid)
    requires Inv(s) && t in s.pc && !s.pc[t].Idle? && PcOk(s, s.pc[t])
    ensures Inv(Access(s, t))
  {
    var s' := Access(s, t);
    OwnsOnlyHeld(s, t);
    assert ThreadOk(s, t);
    match s.pc[t] {
      case AddOptimistic(oc, desired) => AddOptimisticStep(s, t, oc, desired);
      case ReloadTail(oc, desired, mine) => ReloadTailStep(s, t, oc, desired, mine);
      case AddOvercommit(mine, actual, desired) => AddOvercommitStep(s, t, mine, actual, desired);
      case AddHead(mine, actual) => AddHeadStep(s, t, mine, actual);
      case LoadTail(_) => QuietStep(s, s', t);
      case LoadOvercommit(_, _) => QuietStep(s, s', t);
      case LoadOptimistic(_, _, _) => QuietStep(s, s', t);
    }
    Assemble(s, s', t);
  }

  /** What an access changes besides the slots. */
  lemma AccessShape<T>(s: State<T>, t: Tid)
    requires t in s.pc && !s.pc[t].Idle? && PcOk(s, s.pc[t])
    ensures Access(s, t).items == s.items && Access(s, t).pc.Keys == s.pc.Keys
    ensures forall u :: u in s.pc && u != t ==> Access(s, t).pc[u] == s.pc[u]
    ensures Access(s, t).head == s.head + (if s.pc[t].AddHead? then s.pc[t].actual else 0)
    ensures s.pc[t].AddHead? ==> Access(s, t).pc[t].Idle?
  {}

  lemma OwnsOnlyHeld<T>(s: State<T>, t: Tid)
    requires Inv(s) && t in s.pc
    ensures OwnsOnly(s, t) && Counted(s)
  {
    forall i | 0 <= i < |s.slots| && OwnedBy(s.slots[i], t) ensures Working(s.pc[t], i) {
      assert OwnerOk(s.slots[i], i, s.pc);
    }
  }

  lemma CallKeeps<T>(s: State<T>, t: Tid, max: nat)
    requires Inv(s) && t in s.pc && s.pc[t].Idle?
    ensures Inv(Call(s, t, max))
  {
    OwnsOnlyHeld(s, t);
    QuietStep(s, Call(s, t, max), t);
    Assemble(s, Call(s, t, max), t);
  }

  lemma NextKeeps<T(!new)>(s: State<T>, s': State<T>)
    requires Inv(s) && Next(s, s')
    ensures Inv(s')
  {
    if more :| s' == Publish(s, more) {
      PublishKeeps(s, more);
    } else if t, max :| t in s.pc && s.pc[t].Idle? && s' == Call(s, t, max) {
      CallKeeps(s, t, max);
    } else {
      var t :| t in s.pc && !s.pc[t].Idle? && PcOk(s, s.pc[t]) && s' == Access(s, t);
      AccessKeeps(s, t);
    }
  }

  lemma {:induction false} RunInv<T(!new)>(run: seq<State<T>>, at: nat)
    requires IsRun(run) && at < |run|
    ensures Inv(run[at])
  {
    if at > 0 {
      RunInv(run, at - 1);
      assert Next(run[at - 1], run[at - 1 + 1]);
      NextKeeps(run[at - 1], run[at]);
    }
  }

  // ---- What consumers rely on ----

  lemma DueIsWon(slots: seq<Slot>, t: Tid, mine: nat, actual: nat)
    requires AllAre(slots, mine, mine + actual, Won(t))
    ensures Count(slots, IsTaken) + actual <= Count(slots, IsWon)
  {
    CountFill(slots, mine, mine + actual, Won(t), Taken, IsTaken);
    CountFill(slots, mine, mine + actual, Won(t), Taken, IsWon);
    CountOrder(Fill(slots, mine, mine + actual, Taken));
  }

  /** What a consumer is about to take has been enqueued. */
  lemma DueBehindTail<T>(s: State<T>, t: Tid)
    requires Inv(s) && t in s.pc && s.pc[t].AddHead?
    ensures s.head + s.pc[t].actual <= |s.items|
  {
    assert ThreadOk(s, t);
    DueIsWon(s.slots, t, s.pc[t].mine, s.pc[t].actual);
    WonTotal(s.slots, |s.items|);
  }

  /** What is taken or due never exceeds what has been enqueued. */
  lemma HeadBehindTail<T>(s: State<T>)
    requires Inv(s)
    ensures s.head <= |s.items|
  {
    WonTotal(s.slots, |s.items|);
    CountOrder(s.slots);
  }

  /** In every run, with any number of consumers and any mix of maxima, the head never passes the tail. */
  lemma HeadNeverPassesTail<T(!new)>(run: seq<State<T>>, at: nat)
    requires IsRun(run) && at < |run|
    ensures run[at].head <= |run[at].items|
  {
    RunInv(run, at);
    HeadBehindTail(run[at]);
  }

  predicate Covers(d: Delivery, k: nat) { d.first <= k < d.first + d.count }

  lemma {:induction false} CoveredOnce(log: seq<Delivery>, head: nat, k: nat)
    requires Contiguous(log, head) && k < head
    ensures exists i :: 0 <= i < |log| && Covers(log[i], k)
    ensures forall i, j :: 0 <= i < j < |log| ==> !(Covers(log[i], k) && Covers(log[j], k))
  {
    var last := |log| - 1;
    if log[last].first <= k {
      assert Covers(log[last], k);
      forall i | 0 <= i < last ensures !Covers(log[i], k) { BelowHead(log[..last], log[last].first, i); }
    } else {
      CoveredOnce(log[..last], log[last].first, k);
      var i :| 0 <= i < last && Covers(log[..last][i], k);
      assert Covers(log[i], k);
      assert forall i :: 0 <= i < last ==> log[..last][i] == log[i];
    }
  }

  lemma {:induction false} BelowHead(log: seq<Delivery>, head: nat, i: nat)
    requires Contiguous(log, head) && i < |log|
    ensures log[i].first + log[i].count <= head
  {
    var last := |log| - 1;
    if i < last {
      BelowHead(log[..last], log[last].first, i);
      assert log[..last][i] == log[i];
    }
  }

  /** Each index below the head is handed to exactly one call, and it had been enqueued. */
  lemma EachIndexTakenOnce<T(!new)>(run: seq<State<T>>, at: nat, k: nat)
    requires IsRun(run) && at < |run| && k < run[at].head
    ensures k < |run[at].items|
    ensures exists i :: 0 <= i < |run[at].log| && Covers(run[at].log[i], k)
    ensures forall i, j :: 0 <= i < j < |run[at].log| ==> !(Covers(run[at].log[i], k) && Covers(run[at].log[j], k))
  {
    RunInv(run, at);
    HeadBehindTail(run[at]);
    CoveredOnce(run[at].log, run[at].head, k);
  }

  lemma {:induction false} AllSettled(slots: seq<Slot>)
    requires forall i :: 0 <= i < |slots| ==> slots[i].Taken? || slots[i].Posted?
    ensures Count(slots, IsTaken) + Count(slots, IsPosted) == |slots|
  {
    if slots != [] { AllSettled(slots[..|slots| - 1]); }
  }

  /** The counts are eventually consistent: with no call under way, the optimistic count is the head
      plus the overcommit. */
  lemma QuiescentCounts<T(!new)>(run: seq<State<T>>, at: nat)
    requires IsRun(run) && at < |run|
    requires forall t :: t in run[at].pc ==> run[at].pc[t].Idle?
    ensures run[at].optimistic == run[at].head + run[at].overcommit
  {
    RunInv(run, at);
    var s := run[at];
    forall i | 0 <= i < |s.slots| ensures s.slots[i].Taken? || s.slots[i].Posted? {
      assert OwnerOk(s.slots[i], i, s.pc);
    }
    AllSettled(s.slots);
  }

  /** `n` accesses of one consumer in a row. */
  function Alone<T>(s: State<T>, t: Tid, n: nat): State<T>
    requires t in s.pc
    decreases n
  {
    if n == 0 || s.pc[t].Idle? || !PcOk(s, s.pc[t]) then s else Alone(Access(s, t), t, n - 1)
  }

  /** Left alone after everybody has returned, one call for up to `max` elements takes
      min(max, tail - head) of them: an element that is there is found, and an empty queue is
      recognised without disturbing the counts. */
  lemma LoneCallTakesAll<T>(s: State<T>, t: Tid, max: nat)
    requires t in s.pc && s.pc[t].Idle?
    requires s.optimistic == s.head + s.overcommit && s.optimistic == |s.slots| && s.head <= |s.items|
    ensures var s' := Alone(Call(s, t, max), t, 6);
      && s'.pc[t].Idle?
      && s'.head == s.head + Min(max, |s.items| - s.head)
      && s'.optimistic == s'.head + s'.overcommit
      && (s.head < |s.items| ==> s'.log == s.log + [Delivery(t, s.head, Min(max, |s.items| - s.head))])
  {
    var n := Min(max, |s.items| - s.head);
    var s1 := Access(Access(Call(s, t, max), t), t);
    var s2 := Access(s1, t);
    assert Alone(Call(s, t, max), t, 6) == Alone(s2, t, 3);
    if s.head < |s.items| {
      assert s2.pc[t] == AddOptimistic(s.overcommit, n);
      var s3 := Access(s2, t);
      assert s3.pc[t] == ReloadTail(s.overcommit, n, s.optimistic);
      var s4 := Access(s3, t);
      assert s4.pc[t] == AddHead(s.optimistic, n);
      assert Alone(s2, t, 3) == Alone(s3, t, 2) == Alone(s4, t, 1) == Access(s4, t);
    }
  }
}
