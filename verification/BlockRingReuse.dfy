/** The ring takes memory only when it has to: a new block is asked for only while the block ahead still
    holds an element that has not been consumed. */
module BlockRingReuse {

  import opened Wrappers
  import opened BlockRing
  import opened BlockRingProof
  import opened BlockRingHistory
  import A = DequeueAccounting

  // ---- A consumed element has its flag up ----

  ghost predicate Raised(blocks: seq<Block>, flags: map<Block, seq<bool>>, x: nat) {
    && x / BLOCK_SIZE < |blocks| && blocks[x / BLOCK_SIZE] in flags
    && |flags[blocks[x / BLOCK_SIZE]]| == BLOCK_SIZE && flags[blocks[x / BLOCK_SIZE]][FlagOf(x)]
  }

  ghost predicate GoneRaised(blocks: seq<Block>, low: int, flags: map<Block, seq<bool>>, gone: set<nat>) {
    forall x: nat :: x in gone && low <= x / BLOCK_SIZE ==> Raised(blocks, flags, x)
  }

  ghost predicate GoneNow<T>(s: State<T>) { GoneRaised(s.blocks, Low(s), s.flags, s.gone) }

  /** A step that writes flags of no other block than b, and b holds nothing that was consumed. */
  ghost predicate Touches<T>(s: State<T>, s': State<T>, b: Option<Block>) {
    && s'.gone == s.gone && s.blocks <= s'.blocks && Low(s) <= Low(s')
    && (forall c :: c in s.flags && b != Some(c) ==> c in s'.flags && s'.flags[c] == s.flags[c])
    && (forall x: nat :: x in s.gone && Low(s') <= x / BLOCK_SIZE < |s.blocks| ==> b != Some(s.blocks[x / BLOCK_SIZE]))
  }

  lemma TouchKeeps<T>(s: State<T>, s': State<T>, b: Option<Block>)
    requires GoneNow(s) && Touches(s, s', b)
    ensures GoneNow(s')
  {
    forall x: nat | x in s'.gone && Low(s') <= x / BLOCK_SIZE ensures Raised(s'.blocks, s'.flags, x) {
      assert Raised(s.blocks, s.flags, x);
    }
  }

  /** Which block a step of the producer may touch. */
  ghost function Touched<T>(s: State<T>, s': State<T>): Option<Block> {
    match s.producer
    case ResetFlags(_, b, _, _) => Some(b)
    case Requisition(_) => if s'.producer.ResetFlags? then Some(s'.producer.b) else None
    case _ => None
  }

  lemma ResetTouches<T(!new)>(s: State<T>, s': State<T>)
    requires ProducerNext(s, s') && s.producer.ResetFlags?
    requires forall x: nat :: x in s.gone && Low(s) <= x / BLOCK_SIZE < |s.blocks| ==> s.blocks[x / BLOCK_SIZE] != s.producer.b
    ensures Touches(s, s', Touched(s, s'))
  {
    hide Requisitioned;
  }

  lemma RequisitionTouches<T(!new)>(s: State<T>, s': State<T>)
    requires ProducerNext(s, s') && s.producer.Requisition?
    requires forall q :: 0 <= Low(s) <= q < |s.blocks| ==> s.blocks[q] in s.next
    requires 0 <= Low(s)
    ensures Touches(s, s', Touched(s, s'))
  {
    var v := s.producer.v;
    if s' == s.(producer := Resting) {
    } else {
      var b, cells, flags :| Requisitioned(s, s', v, b, cells, flags);
    }
  }

  lemma LookTouches<T(!new)>(s: State<T>, s': State<T>)
    requires ProducerNext(s, s') && (s.producer.Resting? || s.producer.Branch? || s.producer.CheckRoom? || s.producer.GrowIndex?)
    ensures Touches(s, s', Touched(s, s'))
  {
    hide Requisitioned;
  }

  lemma FillTouches<T(!new)>(s: State<T>, s': State<T>)
    requires ProducerNext(s, s')
    requires s.producer.WriteEntry? || s.producer.StoreFront? || s.producer.WriteItem? || s.producer.StoreTail?
    ensures Touches(s, s', Touched(s, s'))
  {
    hide Requisitioned;
  }

  lemma NewestTouches<T(!new)>(s: State<T>, s': State<T>)
    requires ProducerNext(s, s') && (s.producer.CheckEmpty? || s.producer.Link?)
    ensures Touches(s, s', Touched(s, s'))
  {
    hide Requisitioned;
  }

  /** The block being reset is outside the ring, or the newest one with nothing in it yet. */
  lemma ResetHoldsNothing<T>(s: State<T>, x: nat)
    requires Inv(s) && s.producer.ResetFlags? && x in s.gone && Low(s) <= x / BLOCK_SIZE < |s.blocks|
    ensures s.blocks[x / BLOCK_SIZE] != s.producer.b
  {
    hide HeadersOk, IndexOk, MemoryOk, FlagsOk, ThreadsOk, AccountingOk, ItemsOk, ResultsOk;
    assert x < Tail(s);
    if !s.producer.isNew { assert x / BLOCK_SIZE < |s.blocks| - 1; }
  }

  lemma RingMembers<T>(s: State<T>)
    requires Inv(s)
    ensures 0 <= Low(s) && forall q :: 0 <= Low(s) <= q < |s.blocks| ==> s.blocks[q] in s.next
  {
    hide HeadersOk, IndexOk, MemoryOk, FlagsOk, ThreadsOk, AccountingOk, ItemsOk, ResultsOk, LiveOk, ProducerOk, Distinct;
  }

  lemma ProducerTouches<T(!new)>(s: State<T>, s': State<T>)
    requires Inv(s) && ProducerNext(s, s')
    ensures Touches(s, s', Touched(s, s'))
  {
    hide Inv, ProducerNext, Touches, Touched;
    if s.producer.ResetFlags? {
      forall x: nat | x in s.gone && Low(s) <= x / BLOCK_SIZE < |s.blocks| ensures s.blocks[x / BLOCK_SIZE] != s.producer.b {
        ResetHoldsNothing(s, x);
      }
      ResetTouches(s, s');
    } else if s.producer.Requisition? {
      RingMembers(s);
      RequisitionTouches(s, s');
    } else if s.producer.CheckEmpty? || s.producer.Link? {
      NewestTouches(s, s');
    } else if s.producer.Resting? || s.producer.Branch? || s.producer.CheckRoom? || s.producer.GrowIndex? {
      LookTouches(s, s');
    } else {
      FillTouches(s, s');
    }
  }

  // ---- Consumers ----

  lemma MarkRaises<T>(s: State<T>, t: Tid, c: Consumer<T>)
    requires GoneNow(s) && t in s.pc && s.pc[t] == c && c.MarkEmpty? && ConsumerReady(s, c)
    requires 0 < c.j && (c.j - 1) / BLOCK_SIZE < |s.blocks| && c.b == s.blocks[(c.j - 1) / BLOCK_SIZE]
    ensures GoneNow(DoMarkEmpty(s, t, c))
  {
    var s' := DoMarkEmpty(s, t, c);
    forall x: nat | x in s'.gone && Low(s') <= x / BLOCK_SIZE ensures Raised(s'.blocks, s'.flags, x) {
      if x in s.gone { assert Raised(s.blocks, s.flags, x); }
    }
  }

  lemma MarkedBlock<T>(s: State<T>, t: Tid)
    requires t in s.pc && s.pc[t].MarkEmpty? && ThreadNow(s, t)
    ensures var c := s.pc[t]; 0 < c.j && (c.j - 1) / BLOCK_SIZE < |s.blocks| && c.b == s.blocks[(c.j - 1) / BLOCK_SIZE]
  {
    hide Share, Unread, Reach, Slot;
    var c := s.pc[t];
    assert c.start / BLOCK_SIZE <= (c.j - 1) / BLOCK_SIZE;
    assert c.j - 1 < (c.start / BLOCK_SIZE + 1) * BLOCK_SIZE;
  }

  lemma QuietConsumer<T>(s: State<T>, t: Tid)
    requires t in s.pc && !s.pc[t].NoShare? && !s.pc[t].MarkEmpty? && ConsumerReady(s, s.pc[t])
    ensures var s' := ConsumerStep(s, t);
      s'.gone == s.gone && s'.blocks == s.blocks && s'.slotsUsed == s.slotsUsed && s'.flags == s.flags
  {}

  lemma ConsumerRaises<T>(s: State<T>, t: Tid)
    requires Inv(s) && GoneNow(s) && t in s.pc && !s.pc[t].NoShare? && ConsumerReady(s, s.pc[t])
    ensures GoneNow(ConsumerStep(s, t))
  {
    assert ThreadNow(s, t);
    hide Inv, ThreadNow, GoneRaised, ConsumerReady, DoMarkEmpty, DoReadItem;
    if s.pc[t].MarkEmpty? {
      MarkedBlock(s, t);
      MarkRaises(s, t, s.pc[t]);
    } else {
      QuietConsumer(s, t);
    }
  }

  // ---- Runs ----

  lemma StepRaises<T(!new)>(s: State<T>, s': State<T>)
    requires Inv(s) && GoneNow(s) && Next(s, s')
    ensures GoneNow(s')
  {
    hide Inv, GoneRaised, ProducerNext, ConsumerStep, ConsumerReady, A.Access, A.PcOk, A.Call, Touches, Touched;
    if ProducerNext(s, s') {
      ProducerTouches(s, s');
      TouchKeeps(s, s', Touched(s, s'));
    } else if t :| t in s.pc && !s.pc[t].NoShare? && ConsumerReady(s, s.pc[t]) && s' == ConsumerStep(s, t) {
      ConsumerRaises(s, t);
    }
  }

  lemma StartRaised<T(!new)>(s: State<T>)
    requires Init(s)
    ensures GoneNow(s)
  {}

  lemma {:induction false} RunRaised<T(!new)>(run: seq<State<T>>, at: nat)
    requires IsRun(run) && at < |run|
    ensures GoneNow(run[at])
  {
    hide Next, Inv, GoneRaised, Init;
    if at == 0 {
      StartRaised(run[0]);
    } else {
      RunRaised(run, at - 1);
      RunInv(run, at - 1);
      assert Next(run[at - 1], run[at - 1 + 1]);
      StepRaises(run[at - 1], run[at]);
    }
  }

  // ---- When a new block is asked for ----

  /** The oldest block, which is the one ahead, holds an element that has not been consumed. */
  ghost predicate AheadInUse<T>(s: State<T>) {
    exists x: nat :: x < Tail(s) && x / BLOCK_SIZE == Low(s) && x !in s.gone
  }

  lemma LookStep<T(!new)>(s: State<T>, s': State<T>)
    requires ProducerNext(s, s') && !s.producer.CheckRoom? && s'.producer.CheckRoom?
    ensures s.tailBlock.None? ||
      (s.producer.CheckEmpty? && s.tailBlock.value in s.next && s.next[s.tailBlock.value] in s.flags
       && s.producer.i < BLOCK_SIZE == |s.flags[s.next[s.tailBlock.value]]| && !s.flags[s.next[s.tailBlock.value]][s.producer.i])
  {}

  lemma FlagDown<T>(s: State<T>)
    requires Inv(s) && GoneNow(s) && s.producer.CheckEmpty? && s.tailBlock.Some?
    requires s.tailBlock.value in s.next && s.next[s.tailBlock.value] in s.flags
    requires s.producer.i < BLOCK_SIZE == |s.flags[s.next[s.tailBlock.value]]| && !s.flags[s.next[s.tailBlock.value]][s.producer.i]
    ensures AheadInUse(s)
  {
    hide HeadersOk, IndexOk, MemoryOk, FlagsOk, ThreadsOk, AccountingOk, ItemsOk, ResultsOk, LiveOk, ProducerOk;
    Ahead(s);
    assert TailOk(s.producer, Tail(s), |s.blocks|);
    hide Static, RingOk;
    var x: nat := BLOCK_SIZE * Low(s) + (BLOCK_SIZE - 1 - s.producer.i);
    assert x / BLOCK_SIZE == Low(s) && FlagOf(x) == s.producer.i && x < Tail(s);
    assert x in s.gone ==> Raised(s.blocks, s.flags, x);
    assert x !in s.gone;
  }

  /** In every run, the step by which an `enqueue` turns to a new block is made when the ring is still empty or
      the block ahead holds an element that has not been consumed: an emptied block is always reused. */
  lemma NewBlockOnlyIfInUse<T(!new)>(run: seq<State<T>>, at: nat)
    requires IsRun(run) && 0 < at < |run| && !run[at - 1].producer.CheckRoom? && run[at].producer.CheckRoom?
    ensures run[at - 1].tailBlock.None? || AheadInUse(run[at - 1])
  {
    var s, s' := run[at - 1], run[at];
    RunInv(run, at - 1);
    RunRaised(run, at - 1);
    assert Next(s, run[at - 1 + 1]);
    hide IsRun, Inv, GoneRaised, AheadInUse, ProducerNext, ConsumerStep, AccountingStep, ConsumerReady, A.Access, A.PcOk;
    if ProducerNext(s, s') {
      LookStep(s, s');
      if s.tailBlock.Some? { FlagDown(s); }
    } else {
      OnlyProducer(s, s');
    }
  }

  lemma OnlyProducer<T(!new)>(s: State<T>, s': State<T>)
    requires Next(s, s') && !ProducerNext(s, s')
    ensures s'.producer == s.producer
  {
    hide ProducerNext, ConsumerReady, ConsumerStep, AccountingStep, A.Access, A.PcOk, A.Call;
    if t :| t in s.acc.pc && t in s.pc && !s.acc.pc[t].Idle? && A.PcOk(s.acc, s.acc.pc[t]) && s' == AccountingStep(s, t) {
      AccountingStands(s, t);
    } else if t :| t in s.pc && !s.pc[t].NoShare? && ConsumerReady(s, s.pc[t]) && s' == ConsumerStep(s, t) {
      ConsumersStand(s, t);
    }
  }

  /** The assertion in the code: the flag a consumer sets is still down, so no element is marked twice. */
  lemma MarksOnce<T(!new)>(run: seq<State<T>>, at: nat, t: Tid)
    requires IsRun(run) && at < |run| && t in run[at].pc && run[at].pc[t].MarkEmpty?
    ensures var s, c := run[at], run[at].pc[t];
      c.start < c.j && c.b in s.flags && |s.flags[c.b]| == BLOCK_SIZE && !s.flags[c.b][FlagOf(c.j - 1)]
  {
    var s := run[at];
    hide IsRun, Inv, ConsumerReady, FlagOf;
    RunInv(run, at);
    ConsumerNeverStuck(s, t);
    NotMarked(s, t);
  }

  lemma NotMarked<T>(s: State<T>, t: Tid)
    requires Inv(s) && t in s.pc && s.pc[t].MarkEmpty? && ConsumerReady(s, s.pc[t])
    ensures var c := s.pc[t];
      c.start < c.j && c.b in s.flags && |s.flags[c.b]| == BLOCK_SIZE && !s.flags[c.b][FlagOf(c.j - 1)]
  {
    hide Inv, ThreadNow;
    ThreadsNow(s, t);
    MarkedBlock(s, t);
    MarkedLive(s, t, s.pc[t].j - 1);
    FlagStillDown(s, s.pc[t].j - 1);
  }

  lemma ThreadsNow<T>(s: State<T>, t: Tid)
    requires Inv(s) && t in s.pc
    ensures ThreadNow(s, t)
  {
    hide Static, ThreadOk;
  }

  /** The flag of an element that has not been consumed is down. */
  lemma FlagStillDown<T>(s: State<T>, x: nat)
    requires Inv(s) && x !in s.gone && x < Tail(s)
    ensures x / BLOCK_SIZE < |s.blocks| && s.blocks[x / BLOCK_SIZE] in s.flags && |s.flags[s.blocks[x / BLOCK_SIZE]]| == BLOCK_SIZE
    ensures !s.flags[s.blocks[x / BLOCK_SIZE]][FlagOf(x)]
  {
    hide HeadersOk, IndexOk, MemoryOk, ProducerOk, RingOk, ThreadsOk, AccountingOk, ItemsOk, ResultsOk;
    LiveBlock(s, x);
    hide LiveOk;
    assert FlagOk(s.blocks, x / BLOCK_SIZE, x % BLOCK_SIZE, s.flags, s.gone, s.producer);
  }

  lemma MarkedLive<T>(s: State<T>, t: Tid, x: nat)
    requires t in s.pc && s.pc[t].MarkEmpty? && ThreadNow(s, t) && x == s.pc[t].j - 1
    ensures x !in s.gone && x < Tail(s)
  {
    hide Unread, Reach, Slot;
  }
}
