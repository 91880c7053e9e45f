/** The calls behind the ring: what each `enqueue` was given, when it returns and with what, and that every
    call on the ring comes to an end after a bounded number of its own steps. */
module BlockRingHistory {

  import opened Wrappers
  import opened BlockRing
  import opened BlockRingProof
  import A = DequeueAccounting

  // ---- What the calls were given ----

  /** The argument of the `enqueue` under way, recorded when the call comes in. */
  ghost function Argument<T>(run: seq<State<T>>, at: nat): Option<T>
    requires at < |run|
  {
    if at == 0 || run[at].producer.Resting? then None
    else if run[at - 1].producer.Resting? && run[at].producer.Branch? then Some(run[at].producer.v)
    else Argument(run, at - 1)
  }

  /** The call under way returns true with the step to state `at`. */
  ghost predicate ReturnsTrue<T>(run: seq<State<T>>, at: nat)
    requires 0 < at < |run|
  {
    run[at - 1].producer.StoreTail? && run[at].producer.Resting?
  }

  /** The call under way returns false with the step to state `at`. */
  ghost predicate ReturnsFalse<T>(run: seq<State<T>>, at: nat)
    requires 0 < at < |run|
  {
    !run[at - 1].producer.Resting? && !run[at - 1].producer.StoreTail? && run[at].producer.Resting?
  }

  /** The arguments of the `enqueue` calls that have returned true, in order. */
  ghost function Enqueued<T>(run: seq<State<T>>, at: nat): seq<T>
    requires at < |run|
  {
    if at == 0 then []
    else if ReturnsTrue(run, at) && Argument(run, at - 1).Some? then Enqueued(run, at - 1) + [Argument(run, at - 1).value]
    else Enqueued(run, at - 1)
  }

  // ---- The steps of a call ----

  /** An upper bound on the steps the call under way still makes. */
  function StepsLeft<T>(p: Producer<T>): nat {
    match p
    case Resting => 0
    case Branch(_) => 42 + BLOCK_SIZE
    case CheckEmpty(_, i) => if i < BLOCK_SIZE then 41 + BLOCK_SIZE - i else 41
    case CheckRoom(_) => 40
    case GrowIndex(_) => 39
    case Requisition(_) => 38
    case ResetFlags(_, _, i, _) => if i < BLOCK_SIZE then 5 + BLOCK_SIZE - i else 5
    case Link(_, _) => 5
    case WriteEntry(_) => 4
    case StoreFront(_) => 3
    case WriteItem(_) => 2
    case StoreTail(_) => 1
  }

  /** What a step of the producer does to the call: it comes in, goes on with its argument, ends by
      publishing the argument, or ends for want of memory. */
  ghost predicate CallMoves<T>(s: State<T>, s': State<T>) {
    if s.producer.Resting? then s'.producer.Branch? && s'.acc.items == s.acc.items
    else
      && StepsLeft(s'.producer) < StepsLeft(s.producer)
      && (if s.producer.StoreTail? then s'.producer.Resting? && s'.acc.items == s.acc.items + [s.producer.v]
          else
            && s'.acc.items == s.acc.items
            && (if s'.producer.Resting? then s.producer.GrowIndex? || s.producer.Requisition?
                else s'.producer.v == s.producer.v))
  }

  lemma LookMoves<T(!new)>(s: State<T>, s': State<T>)
    requires ProducerNext(s, s') && s.acc.head <= Tail(s)
    requires s.producer.Resting? || s.producer.Branch? || s.producer.CheckRoom?
    ensures CallMoves(s, s')
  {
    hide Requisitioned;
  }

  lemma CheckEmptyMoves<T(!new)>(s: State<T>, s': State<T>)
    requires ProducerNext(s, s') && s.producer.CheckEmpty?
    ensures CallMoves(s, s')
  {
    hide Requisitioned;
  }

  lemma NewBlockMoves<T(!new)>(s: State<T>, s': State<T>)
    requires ProducerNext(s, s')
    requires s.producer.GrowIndex? || s.producer.Requisition? || s.producer.ResetFlags? || s.producer.Link?
    ensures CallMoves(s, s')
  {}

  lemma FillMoves<T(!new)>(s: State<T>, s': State<T>)
    requires ProducerNext(s, s')
    requires s.producer.WriteEntry? || s.producer.StoreFront? || s.producer.WriteItem? || s.producer.StoreTail?
    ensures CallMoves(s, s')
  {}

  lemma ProducerMoves<T(!new)>(s: State<T>, s': State<T>)
    requires ProducerNext(s, s') && s.acc.head <= Tail(s)
    ensures CallMoves(s, s')
  {
    hide ProducerNext, CallMoves;
    var p := s.producer;
    if p.Resting? || p.Branch? || p.CheckRoom? { LookMoves(s, s'); }
    else if p.CheckEmpty? { CheckEmptyMoves(s, s'); }
    else if p.GrowIndex? || p.Requisition? || p.ResetFlags? || p.Link? { NewBlockMoves(s, s'); }
    else { FillMoves(s, s'); }
  }

  lemma ConsumersStand<T>(s: State<T>, t: Tid)
    requires t in s.pc && !s.pc[t].NoShare? && ConsumerReady(s, s.pc[t])
    ensures ConsumerStep(s, t).producer == s.producer && ConsumerStep(s, t).acc == s.acc
  {}

  lemma AccountingStands<T>(s: State<T>, t: Tid)
    requires t in s.acc.pc && !s.acc.pc[t].Idle? && A.PcOk(s.acc, s.acc.pc[t])
    ensures AccountingStep(s, t).producer == s.producer && AccountingStep(s, t).acc.items == s.acc.items
  {}

  /** Only the producer's steps touch its call and the published elements. */
  lemma StepMoves<T(!new)>(s: State<T>, s': State<T>)
    requires Next(s, s') && s.acc.head <= Tail(s)
    ensures CallMoves(s, s') || (s'.producer == s.producer && s'.acc.items == s.acc.items)
  {
    hide ProducerNext, ConsumerStep, AccountingStep, ConsumerReady, CallMoves, A.Access, A.PcOk;
    if ProducerNext(s, s') {
      ProducerMoves(s, s');
    } else if t :| t in s.acc.pc && t in s.pc && !s.acc.pc[t].Idle? && A.PcOk(s.acc, s.acc.pc[t])
                   && s' == AccountingStep(s, t) {
      AccountingStands(s, t);
    } else if t :| t in s.pc && !s.pc[t].NoShare? && ConsumerReady(s, s.pc[t]) && s' == ConsumerStep(s, t) {
      ConsumersStand(s, t);
    }
  }

  lemma RunMoves<T(!new)>(run: seq<State<T>>, at: nat)
    requires IsRun(run) && 0 < at < |run|
    ensures var s, s' := run[at - 1], run[at];
      CallMoves(s, s') || (s'.producer == s.producer && s'.acc.items == s.acc.items)
  {
    RunInv(run, at - 1);
    HeadBehind(run[at - 1]);
    assert Next(run[at - 1], run[at - 1 + 1]);
    hide Inv, Next, CallMoves;
    StepMoves(run[at - 1], run[at]);
  }

  lemma HeadBehind<T>(s: State<T>)
    requires Inv(s)
    ensures s.acc.head <= Tail(s)
  {
    A.HeadBehindTail(s.acc);
  }

  lemma StartsResting<T(!new)>(run: seq<State<T>>)
    requires IsRun(run)
    ensures run[0].producer.Resting? && run[0].acc.items == []
  {}

  /** Whatever the call has reached, the value it works with is the argument it was given. */
  lemma {:induction false} ArgumentKept<T(!new)>(run: seq<State<T>>, at: nat)
    requires IsRun(run) && at < |run|
    ensures !run[at].producer.Resting? ==> Argument(run, at) == Some(run[at].producer.v)
  {
    hide IsRun, StepsLeft;
    StartsResting(run);
    if at > 0 {
      RunMoves(run, at);
      ArgumentKept(run, at - 1);
    }
  }

  // ---- What was enqueued ----

  /** The published elements are the arguments of the calls that returned true, in order. */
  lemma {:induction false} ItemsAreEnqueued<T(!new)>(run: seq<State<T>>, at: nat)
    requires IsRun(run) && at < |run|
    ensures run[at].acc.items == Enqueued(run, at)
  {
    hide IsRun, StepsLeft;
    StartsResting(run);
    if at > 0 {
      ItemsAreEnqueued(run, at - 1);
      ArgumentKept(run, at - 1);
      RunMoves(run, at);
    }
  }

  /** A step publishes something exactly when it ends a call with success, and then it publishes the
      argument of that call. */
  lemma PublishesArgument<T(!new)>(run: seq<State<T>>, at: nat)
    requires IsRun(run) && 0 < at < |run|
    ensures run[at].acc.items != run[at - 1].acc.items <==> ReturnsTrue(run, at)
    ensures ReturnsTrue(run, at) ==>
      Argument(run, at - 1).Some? && run[at].acc.items == run[at - 1].acc.items + [Argument(run, at - 1).value]
  {
    hide IsRun, StepsLeft;
    ArgumentKept(run, at - 1);
    RunMoves(run, at);
  }

  /** An `enqueue` returns false only where no memory was to be had for a larger index or a new block,
      and leaves what is published as it was. */
  lemma FailsForMemoryOnly<T(!new)>(run: seq<State<T>>, at: nat)
    requires IsRun(run) && 0 < at < |run| && ReturnsFalse(run, at)
    ensures run[at - 1].producer.GrowIndex? || run[at - 1].producer.Requisition?
    ensures run[at].acc.items == run[at - 1].acc.items && Enqueued(run, at) == Enqueued(run, at - 1)
  {
    hide IsRun, StepsLeft;
    RunMoves(run, at);
  }

  // ---- Calls end ----

  /** How often the producer moved between two states. */
  ghost function Moves<T>(run: seq<State<T>>, i: nat, k: nat): nat
    requires i <= k < |run|
    decreases k
  {
    if i == k then 0
    else Moves(run, i, k - 1) + (if run[k].producer != run[k - 1].producer then 1 else 0)
  }

  lemma MoveUsesUp<T(!new)>(run: seq<State<T>>, k: nat)
    requires IsRun(run) && 0 < k < |run| && !run[k - 1].producer.Resting?
    ensures StepsLeft(run[k].producer) + (if run[k].producer != run[k - 1].producer then 1 else 0) <= StepsLeft(run[k - 1].producer)
  {
    hide IsRun, StepsLeft;
    RunMoves(run, k);
  }

  lemma {:induction false} MovesUseUp<T(!new)>(run: seq<State<T>>, i: nat, k: nat)
    requires IsRun(run) && i <= k < |run|
    requires forall j :: i <= j < k ==> !run[j].producer.Resting?
    ensures Moves(run, i, k) + StepsLeft(run[k].producer) <= StepsLeft(run[i].producer)
    decreases k
  {
    hide IsRun, StepsLeft;
    if i < k {
      MovesUseUp(run, i, k - 1);
      MoveUsesUp(run, k);
    }
  }

  /** An `enqueue` makes at most 74 steps: while it has not returned, the producer has moved less often than
      that, and it can always make another step. */
  lemma EnqueueEnds<T(!new)>(run: seq<State<T>>, i: nat, k: nat)
    requires IsRun(run) && i <= k < |run| && run[i].producer.Branch?
    requires forall j :: i <= j <= k ==> !run[j].producer.Resting?
    ensures Moves(run, i, k) < 74
  {
    hide IsRun, Moves;
    MovesUseUp(run, i, k);
  }

  /** An upper bound on the steps of a consumer that has its share. */
  function ReadsLeft<T>(c: Consumer<T>): int {
    match c
    case NoShare => 0
    case LoadIndex(first, end) => 3 * (end - first) + 3
    case LoadFront(first, end, _) => 3 * (end - first) + 2
    case ReadBase(first, end, _, _, _) => 3 * (end - first) + 1
    case ReadBlock(_, k, end, _, _, _) => 3 * (end - k)
    case ReadItem(_, start, k, stop, end, _, _, _, _) => (stop - k) + (stop - start) + 3 * (end - stop)
    case MarkEmpty(_, start, j, stop, end, _, _, _, _) => (j - start) + 3 * (end - stop)
  }

  lemma MarkEmptyLeft<T>(s: State<T>, t: Tid, c: Consumer<T>)
    requires t in s.pc && s.pc[t] == c && c.MarkEmpty? && ConsumerReady(s, c) && ThreadNow(s, t)
    ensures t in DoMarkEmpty(s, t, c).pc && 0 <= ReadsLeft(DoMarkEmpty(s, t, c).pc[t]) < ReadsLeft(c)
  {
    hide Share, Unread, Reach, Slot;
  }

  lemma ReadItemLeft<T>(s: State<T>, t: Tid, c: Consumer<T>)
    requires t in s.pc && s.pc[t] == c && c.ReadItem? && ConsumerReady(s, c) && ThreadNow(s, t)
    ensures t in DoReadItem(s, t, c).pc && 0 <= ReadsLeft(DoReadItem(s, t, c).pc[t]) < ReadsLeft(c)
  {
    hide Share, Unread, Reach, Slot;
  }

  lemma LookupLeft<T>(s: State<T>, t: Tid)
    requires t in s.pc && !s.pc[t].NoShare? && ConsumerReady(s, s.pc[t]) && ThreadNow(s, t)
    requires !s.pc[t].ReadItem? && !s.pc[t].MarkEmpty?
    ensures t in ConsumerStep(s, t).pc && 0 <= ReadsLeft(ConsumerStep(s, t).pc[t]) < ReadsLeft(s.pc[t])
  {
    hide Share, Unread, Reach, Slot, SlotFor;
  }

  /** A consumer with a share always can make a step, and every step of it brings its return nearer,
      whatever the others do in between. */
  lemma DequeueEnds<T(!new)>(run: seq<State<T>>, at: nat, t: Tid)
    requires IsRun(run) && at < |run| && t in run[at].pc && !run[at].pc[t].NoShare?
    ensures ConsumerReady(run[at], run[at].pc[t])
    ensures t in ConsumerStep(run[at], t).pc && 0 <= ReadsLeft(ConsumerStep(run[at], t).pc[t]) < ReadsLeft(run[at].pc[t])
  {
    var s := run[at];
    RunInv(run, at);
    ConsumerNeverStuck(s, t);
    assert ThreadNow(s, t);
    hide IsRun, Inv, ThreadNow, ConsumerReady, DoReadItem, DoMarkEmpty, ReadsLeft;
    if s.pc[t].MarkEmpty? { MarkEmptyLeft(s, t, s.pc[t]); }
    else if s.pc[t].ReadItem? { ReadItemLeft(s, t, s.pc[t]); }
    else { LookupLeft(s, t); }
  }
}
