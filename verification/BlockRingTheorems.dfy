/** What the ring of blocks promises in every run: unconsumed elements are found, blocks are reused
    only when empty, every element is handed out once with its value, and nobody gets stuck. */
module BlockRingTheorems {

  import opened Wrappers
  import opened BlockRing
  import opened BlockRingProof
  import opened BlockRingHistory
  import A = DequeueAccounting

  // ---- Lookup ----

  /** An element that nobody has moved out is found through every index that reaches its block,
      however often the ring was rotated, extended or re-indexed since it was enqueued. */
  lemma UnconsumedIsFound<T(!new)>(run: seq<State<T>>, at: nat, h: nat, k: nat)
    requires IsRun(run) && at < |run|
    requires k < Tail(run[at]) && k !in run[at].read
    requires h < |run[at].headers| && k / BLOCK_SIZE <= run[at].headers[h].newest
    ensures var s := run[at]; var index := s.headers[h];
      && 0 < index.size == |index.entries| && 0 <= index.front < index.size && index.entries[index.front].Entry?
      && var slot := SlotFor(index.front, index.entries[index.front].base, k, index.size);
      && index.entries[slot].Entry?
      && index.entries[slot].base == k / BLOCK_SIZE * BLOCK_SIZE
      && index.entries[slot].block in s.cells && |s.cells[index.entries[slot].block]| == BLOCK_SIZE
      && k < |Enqueued(run, at)| && s.cells[index.entries[slot].block][k % BLOCK_SIZE] == Some(Enqueued(run, at)[k])
  {
    RunInv(run, at);
    ItemsAreEnqueued(run, at);
    hide IsRun, Inv, Enqueued;
    FoundThrough(run[at], h, k);
  }

  lemma FoundThrough<T>(s: State<T>, h: nat, k: nat)
    requires Inv(s) && k < Tail(s) && k !in s.read
    requires h < |s.headers| && k / BLOCK_SIZE <= s.headers[h].newest
    ensures var index := s.headers[h];
      && 0 < index.size == |index.entries| && 0 <= index.front < index.size && index.entries[index.front].Entry?
      && var slot := SlotFor(index.front, index.entries[index.front].base, k, index.size);
      && index.entries[slot].Entry?
      && index.entries[slot].base == k / BLOCK_SIZE * BLOCK_SIZE
      && index.entries[slot].block in s.cells && |s.cells[index.entries[slot].block]| == BLOCK_SIZE
      && s.cells[index.entries[slot].block][k % BLOCK_SIZE] == Some(s.acc.items[k])
  {
    assert k !in s.gone && Holds(k, s.acc.items, s.blocks, s.cells) by {
      hide RingOk, HeadersOk, IndexOk, TailOk, ProducerOk, FlagsOk, ThreadsOk, AccountingOk;
    }
    var index := s.headers[h];
    var q := k / BLOCK_SIZE;
    Lookup(s.headers, s.blocks, Low(s), Tail(s), s.gone, s.read, h, k, index.newest);
    Lookup(s.headers, s.blocks, Low(s), Tail(s), s.gone, s.read, h, k, q);
    assert HeaderOk(index, s.blocks, Low(s));
    SlotShift(index, index.newest, q);
    hide Static, ThreadsOk;
    assert (k / BLOCK_SIZE * BLOCK_SIZE - BLOCK_SIZE * index.newest) / BLOCK_SIZE == q - index.newest;
  }

  /** The index a consumer loads now reaches everything enqueued so far. */
  lemma CurrentReachesAll<T(!new)>(run: seq<State<T>>, at: nat, k: nat)
    requires IsRun(run) && at < |run| && k < Tail(run[at])
    ensures run[at].headers != [] && k / BLOCK_SIZE <= Current(run[at]).newest
  {
    RunInv(run, at);
    hide RingOk, HeadersOk, MemoryOk, ProducerOk, FlagsOk, ThreadsOk, AccountingOk, ItemsOk, LiveOk;
  }

  // ---- Reuse ----

  /** A block whose flags are being reset for another round holds only consumed elements. */
  lemma ReusedBlockWasConsumed<T(!new)>(run: seq<State<T>>, at: nat, x: nat)
    requires IsRun(run) && at < |run| && x < Tail(run[at])
    requires run[at].producer.ResetFlags? && !run[at].producer.isNew
    requires x / BLOCK_SIZE < |run[at].blocks| && run[at].blocks[x / BLOCK_SIZE] == run[at].producer.b
    ensures x in run[at].gone && x in run[at].read
  {
    RunInv(run, at);
    NewestBlockEmpty(run[at], x);
  }

  lemma OnlyNewest(blocks: seq<Block>, low: int, p: nat)
    requires Distinct(blocks, low) && 0 <= low < |blocks| && p < |blocks|
    ensures low <= p && blocks[p] == blocks[|blocks| - 1] ==> p == |blocks| - 1
  {}

  lemma NewestBlockEmpty<T>(s: State<T>, x: nat)
    requires Inv(s) && x < Tail(s) && Pending(s.producer)
    requires s.blocks != [] && x / BLOCK_SIZE < |s.blocks| && s.blocks[x / BLOCK_SIZE] == s.blocks[|s.blocks| - 1]
    ensures x in s.gone && x in s.read
  {
    hide HeadersOk, IndexOk, MemoryOk, ProducerOk, FlagsOk, ThreadsOk, AccountingOk, ItemsOk;
    OnlyNewest(s.blocks, Low(s), x / BLOCK_SIZE);
  }

  /** The slot the producer is about to fill is not that of an element that is still wanted. */
  lemma OverwritesNothingLive<T(!new)>(run: seq<State<T>>, at: nat, x: nat)
    requires IsRun(run) && at < |run| && x < Tail(run[at]) && x !in run[at].read
    requires run[at].producer.WriteItem?
    ensures x / BLOCK_SIZE < |run[at].blocks| && run[at].tailBlock.Some?
    ensures !(run[at].blocks[x / BLOCK_SIZE] == run[at].tailBlock.value && x % BLOCK_SIZE == Tail(run[at]) % BLOCK_SIZE)
  {
    RunInv(run, at);
    var s := run[at];
    hide HeadersOk, IndexOk, MemoryOk, ItemsOk, ProducerOk, FlagsOk, ThreadsOk, AccountingOk, Distinct, ResultsOk;
    assert x !in s.gone;
    hide LiveOk;
    LiveElement(s, x);
    if s.blocks[x / BLOCK_SIZE] == s.blocks[|s.blocks| - 1] {
      TargetCellFree(Tail(s), s.gone, s.read, s.blocks, Low(s), x);
    }
  }

  lemma LiveElement<T>(s: State<T>, x: nat)
    requires LiveOk(Tail(s), s.gone, s.read, |s.blocks|, Low(s)) && x < Tail(s) && x !in s.gone
    ensures x / BLOCK_SIZE < |s.blocks|
  {}

  // ---- Nobody gets stuck ----

  /** Every access the code makes is within bounds and defined, whatever the other threads do. */
  lemma NeverStuck<T(!new)>(run: seq<State<T>>, at: nat)
    requires IsRun(run) && at < |run|
    ensures ProducerReady(run[at])
    ensures forall t :: t in run[at].pc ==> ConsumerReady(run[at], run[at].pc[t])
  {
    RunInv(run, at);
    ProducerNeverStuck(run[at]);
    forall t | t in run[at].pc ensures ConsumerReady(run[at], run[at].pc[t]) { ConsumerNeverStuck(run[at], t); }
  }

  lemma ProducerNeverStuck<T>(s: State<T>)
    requires Inv(s)
    ensures ProducerReady(s)
  {
    hide HeadersOk, FlagsOk, ThreadsOk, AccountingOk, ItemsOk, LiveOk;
    if s.tailBlock.Some? { Ahead(s); }
  }

  /** The test against the head never turns an enqueue away: the head cannot pass the tail. */
  lemma RoomTestPasses<T(!new)>(run: seq<State<T>>, at: nat)
    requires IsRun(run) && at < |run| && run[at].producer.CheckRoom?
    ensures run[at].headers != [] && !DoCheckRoom(run[at], run[at].producer.v).producer.Resting?
  {
    RunInv(run, at);
    A.HeadBehindTail(run[at].acc);
  }

  // ---- Each element is handed out once, with its value ----

  predicate Covers<T>(r: Result<T>, x: nat) { r.first <= x < r.first + |r.values| }

  predicate Holding<T>(c: Consumer<T>, x: nat) { !c.NoShare? && c.first <= x < c.end }

  /** Finished calls and calls under way share out the elements below the head without overlap. */
  ghost predicate SharesOk<T>(owner: seq<Tid>, pc: map<Tid, Consumer<T>>, results: seq<Result<T>>) {
    && (forall t :: t in pc && !pc[t].NoShare? ==> pc[t].first < pc[t].end <= |owner|)
    && (forall t, x: nat {:trigger Holding(pc[t], x)} :: t in pc && Holding(pc[t], x) ==> owner[x] == t)
    && (forall i :: 0 <= i < |results| ==> results[i].values != [])
    && (forall i, x: nat {:trigger Covers(results[i], x)} ::
          0 <= i < |results| && Covers(results[i], x) ==> x < |owner| && owner[x] == results[i].t)
    && (forall i, j, x: nat {:trigger Covers(results[i], x), Covers(results[j], x)} ::
          0 <= i < j < |results| ==> !(Covers(results[i], x) && Covers(results[j], x)))
    && (forall i, t, x: nat {:trigger Covers(results[i], x), Holding(pc[t], x)} ::
          0 <= i < |results| && t in pc ==> !(Covers(results[i], x) && Holding(pc[t], x)))
    && (forall x {:trigger owner[x]} :: 0 <= x < |owner| ==> Accounted(owner[x], x, pc, results))
  }

  ghost predicate Accounted<T>(t: Tid, x: nat, pc: map<Tid, Consumer<T>>, results: seq<Result<T>>) {
    (t in pc && Holding(pc[t], x)) || exists i :: 0 <= i < |results| && Covers(results[i], x)
  }

  ghost predicate SharesNow<T>(s: State<T>) { SharesOk(s.owner, s.pc, s.results) }

  lemma SharesSame<T>(owner: seq<Tid>, pc: map<Tid, Consumer<T>>, pc': map<Tid, Consumer<T>>, results: seq<Result<T>>, t: Tid)
    requires SharesOk(owner, pc, results) && t in pc && t in pc' && pc' == pc[t := pc'[t]]
    requires !pc[t].NoShare? && !pc'[t].NoShare? && pc'[t].first == pc[t].first && pc'[t].end == pc[t].end
    ensures SharesOk(owner, pc', results)
  {
    forall u, x | u in pc' ensures Holding(pc'[u], x) <==> Holding(pc[u], x) {}
    forall x | 0 <= x < |owner| ensures Accounted(owner[x], x, pc', results) {
      assert Accounted(owner[x], x, pc, results);
    }
  }

  lemma SharesFinish<T>(owner: seq<Tid>, pc: map<Tid, Consumer<T>>, results: seq<Result<T>>, t: Tid, values: seq<T>)
    requires SharesOk(owner, pc, results) && t in pc && !pc[t].NoShare? && |values| == pc[t].end - pc[t].first
    ensures SharesOk(owner, pc[t := NoShare], results + [Result(t, pc[t].first, values)])
  {
    var r := Result(t, pc[t].first, values);
    var pc' := pc[t := NoShare];
    var results' := results + [r];
    forall x ensures Covers(r, x) <==> Holding(pc[t], x) {}
    forall x | 0 <= x < |owner| ensures Accounted(owner[x], x, pc', results') {
      assert Accounted(owner[x], x, pc, results);
      if owner[x] == t && Holding(pc[t], x) { assert Covers(results'[|results|], x); }
      else if i :| 0 <= i < |results| && Covers(results[i], x) { assert Covers(results'[i], x); }
    }
  }

  lemma SharesGrant<T>(owner: seq<Tid>, pc: map<Tid, Consumer<T>>, results: seq<Result<T>>, t: Tid, n: nat)
    requires SharesOk(owner, pc, results) && t in pc && pc[t].NoShare? && 0 < n
    ensures SharesOk(owner + Repeat(n, t), pc[t := LoadIndex(|owner|, |owner| + n)], results)
  {
    var owner' := owner + Repeat(n, t);
    var pc' := pc[t := LoadIndex(|owner|, |owner| + n)];
    forall x | 0 <= x < |owner'| ensures Accounted(owner'[x], x, pc', results) {
      if x < |owner| { assert Accounted(owner[x], x, pc, results); }
      else { assert Holding(pc'[t], x); }
    }
  }

  /** A consumer keeps its range until it finishes, and finishes with one value for each element. */
  ghost predicate ShapeKept<T>(s: State<T>, s': State<T>, t: Tid, c: Consumer<T>)
    requires t in s.pc && !c.NoShare?
  {
    && s'.owner == s.owner && t in s'.pc && s'.pc == s.pc[t := s'.pc[t]]
    && (!s'.pc[t].NoShare? ==> s'.results == s.results && s'.pc[t].first == c.first && s'.pc[t].end == c.end)
    && (s'.pc[t].NoShare? ==>
          c.MarkEmpty? && |c.out| == c.end - c.first && s'.results == s.results + [Result(t, c.first, c.out)])
  }

  lemma MarkEmptyShape<T>(s: State<T>, t: Tid, c: Consumer<T>)
    requires t in s.pc && s.pc[t] == c && c.MarkEmpty? && ConsumerReady(s, c)
    requires c.first < c.stop <= c.end && |c.out| == c.stop - c.first
    ensures ShapeKept(s, DoMarkEmpty(s, t, c), t, c)
  {}

  lemma MarkEmptyOut<T>(s: State<T>, t: Tid)
    requires t in s.pc && s.pc[t].MarkEmpty? && ThreadNow(s, t)
    ensures s.pc[t].first < s.pc[t].stop <= s.pc[t].end && |s.pc[t].out| == s.pc[t].stop - s.pc[t].first
  {}

  lemma ReadItemShape<T>(s: State<T>, t: Tid, c: Consumer<T>)
    requires t in s.pc && s.pc[t] == c && c.ReadItem? && ConsumerReady(s, c)
    ensures ShapeKept(s, DoReadItem(s, t, c), t, c)
  {}

  lemma ConsumerShape<T>(s: State<T>, t: Tid)
    requires t in s.pc && !s.pc[t].NoShare? && ConsumerReady(s, s.pc[t]) && ThreadNow(s, t)
    ensures ShapeKept(s, ConsumerStep(s, t), t, s.pc[t])
  {
    if s.pc[t].MarkEmpty? { MarkEmptyOut(s, t); MarkEmptyShape(s, t, s.pc[t]); hide ShapeKept, ThreadNow; }
    else if s.pc[t].ReadItem? { ReadItemShape(s, t, s.pc[t]); hide ShapeKept, ThreadNow; }
    else { hide ThreadNow; }
  }

  lemma ConsumerShares<T>(s: State<T>, t: Tid)
    requires Inv(s) && SharesNow(s) && t in s.pc && !s.pc[t].NoShare? && ConsumerReady(s, s.pc[t])
    ensures SharesNow(ConsumerStep(s, t))
  {
    assert ThreadNow(s, t);
    ConsumerShape(s, t);
    var s' := ConsumerStep(s, t);
    hide Inv, SharesOk, ConsumerStep, ConsumerReady, ThreadNow;
    if s'.pc[t].NoShare? { SharesFinish(s.owner, s.pc, s.results, t, s.pc[t].out); }
    else { SharesSame(s.owner, s.pc, s'.pc, s.results, t); }
  }

  lemma AccountingShares<T>(s: State<T>, t: Tid)
    requires Inv(s) && SharesNow(s) && t in s.acc.pc && t in s.pc && !s.acc.pc[t].Idle? && A.PcOk(s.acc, s.acc.pc[t])
    ensures SharesNow(AccountingStep(s, t))
  {
    hide RingOk, MemoryOk, HeadersOk, IndexOk, TailOk, ProducerNow, ItemsOk, LiveOk, FlagsOk, ResultsOk, ThreadsOk;
    hide SharesOk, A.Inv, A.Access, A.PcOk;
    assert |s.owner| == s.acc.head && (s.acc.pc[t].AddHead? ==> s.pc[t].NoShare?);
    if s.acc.pc[t].AddHead? && 0 < s.acc.pc[t].actual {
      SharesGrant(s.owner, s.pc, s.results, t, s.acc.pc[t].actual);
    }
  }

  lemma {:induction false} RunShares<T(!new)>(run: seq<State<T>>, at: nat)
    requires IsRun(run) && at < |run|
    ensures SharesNow(run[at])
  {
    hide Inv, ProducerNext, ConsumerStep, AccountingStep, ConsumerReady;
    if at > 0 {
      RunShares(run, at - 1);
      RunInv(run, at - 1);
      var s, s' := run[at - 1], run[at];
      assert Next(s, run[at - 1 + 1]);
      hide SharesOk;
      if ProducerNext(s, s') {
        ProducerKeeps(s, s');
      } else if t :| t in s.acc.pc && t in s.pc && !s.acc.pc[t].Idle? && A.PcOk(s.acc, s.acc.pc[t])
                     && s' == AccountingStep(s, t) {
        AccountingShares(s, t);
      } else if t :| t in s.pc && !s.pc[t].NoShare? && ConsumerReady(s, s.pc[t]) && s' == ConsumerStep(s, t) {
        ConsumerShares(s, t);
      }
    }
  }

  /** What a finished call returns is the run of elements it was granted: consecutive arguments of the
      `enqueue` calls that returned true, unchanged and in order. */
  lemma ResultsAreRuns<T(!new)>(run: seq<State<T>>, at: nat, i: nat)
    requires IsRun(run) && at < |run| && i < |run[at].results|
    ensures var r := run[at].results[i]; var given := Enqueued(run, at);
      r.first + |r.values| <= |given| && r.values == given[r.first..r.first + |r.values|]
  {
    hide IsRun, Enqueued, Inv;
    RunInv(run, at);
    ItemsAreEnqueued(run, at);
    GrantedSoFar(run[at]);
  }

  lemma ReturnedOnce<T>(owner: seq<Tid>, pc: map<Tid, Consumer<T>>, results: seq<Result<T>>, items: seq<T>, x: nat)
    requires SharesOk(owner, pc, results) && ResultsOk(results, items) && x < |owner| <= |items|
    ensures forall i, j :: 0 <= i < j < |results| ==> !(Covers(results[i], x) && Covers(results[j], x))
    ensures (forall t :: t in pc ==> pc[t].NoShare?) ==>
      exists i :: 0 <= i < |results| && Covers(results[i], x) && results[i].values[x - results[i].first] == items[x]
  {
    assert Accounted(owner[x], x, pc, results);
    if forall t :: t in pc ==> pc[t].NoShare? {
      var i :| 0 <= i < |results| && Covers(results[i], x);
      assert results[i].values[x - results[i].first] == items[x];
    }
  }

  lemma GrantedSoFar<T>(s: State<T>)
    requires Inv(s)
    ensures ResultsOk(s.results, s.acc.items) && |s.owner| == s.acc.head <= |s.acc.items|
  {
    hide RingOk, HeadersOk, IndexOk, MemoryOk, ProducerOk, FlagsOk, ThreadsOk, ItemsOk, LiveOk, ResultsOk;
    A.HeadBehindTail(s.acc);
  }

  /** No element is returned twice, and once every call has returned, none below the head is missing:
      some call returned the argument of the `enqueue` that put it there. */
  lemma EachElementReturnedOnce<T(!new)>(run: seq<State<T>>, at: nat, x: nat)
    requires IsRun(run) && at < |run| && x < run[at].acc.head
    ensures var s := run[at]; var given := Enqueued(run, at);
      && x < |given|
      && (forall i, j :: 0 <= i < j < |s.results| ==> !(Covers(s.results[i], x) && Covers(s.results[j], x)))
      && ((forall t :: t in s.pc ==> s.pc[t].NoShare?) ==>
            exists i :: 0 <= i < |s.results| && Covers(s.results[i], x)
                        && s.results[i].values[x - s.results[i].first] == given[x])
  {
    var s := run[at];
    hide IsRun, Inv, SharesOk, ResultsOk, Accounted, Enqueued, Covers;
    RunInv(run, at);
    RunShares(run, at);
    ItemsAreEnqueued(run, at);
    GrantedSoFar(s);
    ReturnedOnce(s.owner, s.pc, s.results, Enqueued(run, at), x);
  }
}
