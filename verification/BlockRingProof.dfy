/** The ring of blocks refines a FIFO queue: the invariant of BlockRing and what it gives consumers. */
module BlockRingProof {

  import opened Wrappers
  import opened BlockRing
  import opened Arithmetic
  import A = DequeueAccounting

  // ---- The invariant, component by component ----

  /** Where block number q belongs in an index. */
  function Slot(h: Header, q: int): int
    requires 0 < h.size
  {
    (q - h.shift) % h.size
  }

  ghost predicate HeaderOk(h: Header, blocks: seq<Block>, low: int) {
    && 0 < h.size == |h.entries|
    && h.shift <= h.lo <= h.newest + 1 && h.newest < |blocks| && h.newest - h.lo < h.size
    && h.lo <= low
    && (0 <= h.newest ==> h.front == Slot(h, h.newest))
    && (forall q :: h.lo <= q <= h.newest ==> EntryOk(h, q, blocks))
  }

  ghost predicate EntryOk(h: Header, q: int, blocks: seq<Block>)
    requires 0 < h.size == |h.entries|
  {
    0 <= q < |blocks| && h.entries[Slot(h, q)] == Entry(BLOCK_SIZE * q, blocks[q])
  }

  ghost predicate HeadersOk(headers: seq<Header>, blocks: seq<Block>, low: int) {
    headers != [] && forall i :: 0 <= i < |headers| ==> HeaderOk(headers[i], blocks, low)
  }

  /** The circular list runs through the last `used` blocks, oldest first, and closes on itself. */
  ghost predicate RingOk(blocks: seq<Block>, used: nat, tailBlock: Option<Block>, next: map<Block, Block>) {
    && used <= |blocks| && (used == 0 <==> blocks == [])
    && (blocks == [] ==> tailBlock.None? && next == map[])
    && (blocks != [] ==>
      var low, last := |blocks| - used, |blocks| - 1;
      && tailBlock == Some(blocks[last])
      && (forall q :: low <= q <= last ==> blocks[q] in next)
      && (forall b :: b in next ==> b in blocks[low..])
      && (forall q :: low <= q < last ==> next[blocks[q]] == blocks[q + 1])
      && next[blocks[last]] == blocks[low]
      && Distinct(blocks, low))
  }

  ghost predicate Distinct(blocks: seq<Block>, low: int) {
    forall p, q :: 0 <= low <= p < q < |blocks| ==> blocks[p] != blocks[q]
  }

  ghost predicate MemoryOk<T>(blocks: seq<Block>, cells: map<Block, seq<Option<T>>>, flags: map<Block, seq<bool>>) {
    && (forall b :: b in cells ==> |cells[b]| == BLOCK_SIZE)
    && (forall b :: b in flags ==> |flags[b]| == BLOCK_SIZE)
    && (forall q :: 0 <= q < |blocks| ==> blocks[q] in cells && blocks[q] in flags)
  }

  /** Element x still sits in its slot. */
  ghost predicate Holds<T>(x: nat, items: seq<T>, blocks: seq<Block>, cells: map<Block, seq<Option<T>>>)
    requires x < |items|
  {
    && x / BLOCK_SIZE < |blocks| && blocks[x / BLOCK_SIZE] in cells
    && |cells[blocks[x / BLOCK_SIZE]]| == BLOCK_SIZE
    && cells[blocks[x / BLOCK_SIZE]][x % BLOCK_SIZE] == Some(items[x])
  }

  ghost predicate ItemsOk<T>(items: seq<T>, read: set<nat>, blocks: seq<Block>, cells: map<Block, seq<Option<T>>>) {
    forall x :: 0 <= x < |items| && x !in read ==> Holds(x, items, blocks, cells)
  }

  /** Elements that are not fully consumed lie in the blocks of the ring. */
  ghost predicate LiveOk(n: nat, gone: set<nat>, read: set<nat>, blocks: nat, low: int) {
    && gone <= read && (forall x :: x in read ==> x < n)
    && (forall x {:trigger x in gone} :: 0 <= x < n && x !in gone ==> low <= x / BLOCK_SIZE < blocks)
  }

  predicate Resetting<T>(p: Producer<T>, q: int, last: int, flag: int) {
    p.ResetFlags? && !p.isNew && q == last && p.i <= flag
  }

  /** A raised empty flag means the element was consumed, unless the flag is about to be reset. */
  ghost predicate FlagsOk<T>(blocks: seq<Block>, low: int, flags: map<Block, seq<bool>>, gone: set<nat>, p: Producer<T>) {
    forall q, k :: 0 <= low <= q < |blocks| && 0 <= k < BLOCK_SIZE ==> FlagOk(blocks, q, k, flags, gone, p)
  }

  ghost predicate FlagOk<T>(blocks: seq<Block>, q: nat, k: nat, flags: map<Block, seq<bool>>, gone: set<nat>, p: Producer<T>)
    requires q < |blocks| && k < BLOCK_SIZE
  {
    && blocks[q] in flags && |flags[blocks[q]]| == BLOCK_SIZE
    && (flags[blocks[q]][BLOCK_SIZE - 1 - k] ==>
          BLOCK_SIZE * q + k in gone || Resetting(p, q, |blocks| - 1, BLOCK_SIZE - 1 - k))
  }

  /** A block is in the ring whose entry is not published yet. */
  predicate Pending<T>(p: Producer<T>) {
    (p.ResetFlags? && !p.isNew) || p.WriteEntry? || p.StoreFront?
  }

  predicate AtBoundary<T>(p: Producer<T>) {
    p.CheckEmpty? || p.CheckRoom? || p.GrowIndex? || p.Requisition? || (p.ResetFlags? && p.isNew) || p.Link?
  }

  /** Where the tail stands relative to the blocks, by the producer's program counter. */
  ghost predicate TailOk<T>(p: Producer<T>, tail: nat, blocks: nat) {
    if AtBoundary(p) then tail == BLOCK_SIZE * blocks
    else if Pending(p) then 0 < blocks && tail == BLOCK_SIZE * (blocks - 1)
    else if p.WriteItem? || p.StoreTail? then 0 < blocks && BLOCK_SIZE * (blocks - 1) <= tail < BLOCK_SIZE * blocks
    else BLOCK_SIZE * (blocks - 1) < tail <= BLOCK_SIZE * blocks
  }

  ghost predicate IndexOk<T>(headers: seq<Header>, used: nat, prFront: nat, blocks: seq<Block>, p: Producer<T>) {
    headers != [] &&
    var h := headers[|headers| - 1];
    && 0 < h.size == |h.entries|
    && prFront == Slot(h, h.newest + 1)
    && h.newest == |blocks| - 1 - (if Pending(p) then 1 else 0)
    && used <= h.size
    && (p.GrowIndex? ==> used == h.size)
    && (p.Requisition? || p.Link? || (p.ResetFlags? && p.isNew) ==> used < h.size)
    && (p.StoreFront? ==> h.lo == |blocks| - used && EntryOk(h, |blocks| - 1, blocks))
    && (!p.StoreFront? ==> forall q :: |blocks| - used <= q <= h.newest ==> EntryOk(h, q, blocks))
  }

  ghost predicate ProducerOk<T>(p: Producer<T>, tail: nat, tailBlock: Option<Block>, next: map<Block, Block>,
                                blocks: seq<Block>, cells: map<Block, seq<Option<T>>>, flags: map<Block, seq<bool>>)
  {
    match p
    case CheckEmpty(_, i) =>
      && tailBlock.Some? && tailBlock.value in next && next[tailBlock.value] in flags
      && i < BLOCK_SIZE == |flags[next[tailBlock.value]]|
      && (forall j :: 0 <= j < i ==> flags[next[tailBlock.value]][j])
    case ResetFlags(_, b, i, isNew) =>
      && i < BLOCK_SIZE && b in flags && b in cells
      && |flags[b]| == BLOCK_SIZE && (forall j :: 0 <= j < i ==> !flags[b][j])
      && (if isNew then b !in next else blocks != [] && b == blocks[|blocks| - 1])
    case Link(_, b) =>
      && b !in next && b in cells
      && b in flags && |flags[b]| == BLOCK_SIZE && (forall j :: 0 <= j < BLOCK_SIZE ==> !flags[b][j])
    case StoreTail(v) =>
      && blocks != [] && blocks[|blocks| - 1] in cells
      && |cells[blocks[|blocks| - 1]]| == BLOCK_SIZE
      && cells[blocks[|blocks| - 1]][tail % BLOCK_SIZE] == Some(v)
    case _ => true
  }

  ghost predicate Share(t: Tid, lo: nat, hi: nat, owner: seq<Tid>, gone: set<nat>) {
    hi <= |owner| && forall x :: lo <= x < hi ==> owner[x] == t && x !in gone
  }

  ghost predicate Unread(lo: nat, hi: nat, read: set<nat>) { forall x :: lo <= x < hi ==> x !in read }

  /** The consumer can reach its last element through the index it has loaded. */
  ghost predicate Reach(h: nat, end: nat, headers: seq<Header>) {
    h < |headers| && 0 < headers[h].size && 0 < end && (end - 1) / BLOCK_SIZE <= headers[h].newest
  }

  ghost predicate ThreadOk<T>(t: Tid, c: Consumer<T>, items: seq<T>, owner: seq<Tid>, gone: set<nat>, read: set<nat>,
                              headers: seq<Header>, blocks: seq<Block>)
  {
    |owner| <= |items| && gone <= read &&
    match c
    case NoShare => true
    case LoadIndex(first, end) => first < end && Share(t, first, end, owner, gone) && Unread(first, end, read)
    case LoadFront(first, end, h) =>
      && first < end && Share(t, first, end, owner, gone) && Unread(first, end, read) && Reach(h, end, headers)
    case ReadBase(first, end, h, front, seen) =>
      && first < end && Share(t, first, end, owner, gone) && Unread(first, end, read) && Reach(h, end, headers)
      && (end - 1) / BLOCK_SIZE <= seen <= headers[h].newest && front == Slot(headers[h], seen)
    case ReadBlock(first, k, end, h, slot, out) =>
      && first <= k < end && Share(t, k, end, owner, gone) && Unread(k, end, read) && Reach(h, end, headers)
      && slot == Slot(headers[h], k / BLOCK_SIZE) && out == items[first..k]
    case ReadItem(first, start, k, stop, end, h, slot, b, out) =>
      && first <= start <= k < stop == EndOfBlock(start, end)
      && Share(t, start, end, owner, gone) && Unread(k, end, read) && Reach(h, end, headers)
      && slot == Slot(headers[h], start / BLOCK_SIZE) && out == items[first..k]
      && (forall x :: start <= x < k ==> x in read)
      && start / BLOCK_SIZE < |blocks| && b == blocks[start / BLOCK_SIZE]
    case MarkEmpty(first, start, j, stop, end, h, slot, b, out) =>
      && first <= start < j <= stop == EndOfBlock(start, end)
      && end <= |owner| && Share(t, start, j, owner, gone) && Share(t, stop, end, owner, gone)
      && (forall x :: start <= x < j ==> x in read)
      && Unread(stop, end, read) && Reach(h, end, headers)
      && slot == Slot(headers[h], start / BLOCK_SIZE) && out == items[first..stop]
      && start / BLOCK_SIZE < |blocks| && b == blocks[start / BLOCK_SIZE]
  }

  ghost predicate ThreadsOk<T>(s: State<T>) {
    forall t :: t in s.pc ==> ThreadOk(t, s.pc[t], s.acc.items, s.owner, s.gone, s.read, s.headers, s.blocks)
  }

  ghost predicate AccountingOk<T>(acc: A.State<T>, owner: seq<Tid>, pc: map<Tid, Consumer<T>>, read: set<nat>) {
    && A.Inv(acc) && |owner| == acc.head && (forall x :: x in read ==> x < |owner|)
    && pc.Keys == acc.pc.Keys
    && (forall t :: t in pc && !pc[t].NoShare? ==> acc.pc[t].Idle?)
  }

  ghost predicate ResultsOk<T>(results: seq<Result<T>>, items: seq<T>) {
    forall i :: 0 <= i < |results| ==>
      && results[i].first + |results[i].values| <= |items|
      && results[i].values == items[results[i].first..results[i].first + |results[i].values|]
  }

  ghost predicate ProducerNow<T>(s: State<T>) {
    ProducerOk(s.producer, Tail(s), s.tailBlock, s.next, s.blocks, s.cells, s.flags)
  }

  function Low<T>(s: State<T>): int { |s.blocks| - s.slotsUsed }

  /** Everything but the consumers' local knowledge. */
  ghost predicate Static<T>(s: State<T>) {
    && AccountingOk(s.acc, s.owner, s.pc, s.read)
    && RingOk(s.blocks, s.slotsUsed, s.tailBlock, s.next)
    && MemoryOk(s.blocks, s.cells, s.flags)
    && HeadersOk(s.headers, s.blocks, Low(s)) && IndexOk(s.headers, s.slotsUsed, s.prFront, s.blocks, s.producer)
    && TailOk(s.producer, Tail(s), |s.blocks|) && ProducerNow(s)
    && ItemsOk(s.acc.items, s.read, s.blocks, s.cells)
    && LiveOk(Tail(s), s.gone, s.read, |s.blocks|, Low(s))
    && FlagsOk(s.blocks, Low(s), s.flags, s.gone, s.producer)
    && ResultsOk(s.results, s.acc.items)
  }

  ghost predicate Inv<T>(s: State<T>) { Static(s) && ThreadsOk(s) }

  // ---- Arithmetic of the circular index ----

  lemma SlotRange(h: Header, q: int)
    requires 0 < h.size
    ensures 0 <= Slot(h, q) < h.size
  {}

  /** Moving from the slot of one block number to that of another. */
  lemma SlotShift(h: Header, p: int, q: int)
    requires 0 < h.size
    ensures (Slot(h, p) + (q - p)) % h.size == Slot(h, q)
  {
    ModShift(p - h.shift, q - p, h.size);
  }

  lemma SlotDistinct(h: Header, p: int, q: int)
    requires 0 < h.size && 0 < q - p < h.size
    ensures Slot(h, p) != Slot(h, q)
  {
    ModDistinct(p - h.shift, q - h.shift, h.size);
  }

  // ---- What a step may do behind a consumer's back ----

  ghost predicate HeadersGrow(a: seq<Header>, b: seq<Header>) {
    && |a| <= |b|
    && forall i :: 0 <= i < |a| ==> b[i].size == a[i].size && b[i].shift == a[i].shift && a[i].newest <= b[i].newest
  }

  ghost predicate OthersKeep(t: Tid, owner: seq<Tid>, was: set<nat>, now: set<nat>) {
    was <= now && forall x :: x in now && x !in was ==> x < |owner| && owner[x] != t
  }

  lemma ShareLater(t: Tid, lo: nat, hi: nat, owner: seq<Tid>, gone: set<nat>, owner': seq<Tid>, gone': set<nat>)
    requires Share(t, lo, hi, owner, gone) && owner <= owner' && OthersKeep(t, owner, gone, gone')
    ensures Share(t, lo, hi, owner', gone')
  {}

  lemma UnreadLater(t: Tid, from: nat, lo: nat, hi: nat, owner: seq<Tid>, gone: set<nat>, read: set<nat>, read': set<nat>)
    requires from <= lo && Share(t, from, hi, owner, gone) && Unread(lo, hi, read) && OthersKeep(t, owner, read, read')
    ensures Unread(lo, hi, read')
  {}

  lemma ReachLater(h: nat, end: nat, headers: seq<Header>, headers': seq<Header>)
    requires Reach(h, end, headers) && HeadersGrow(headers, headers')
    ensures Reach(h, end, headers') && h < |headers| && h < |headers'|
    ensures headers'[h].size == headers[h].size && headers'[h].shift == headers[h].shift
    ensures headers[h].newest <= headers'[h].newest && 0 < headers[h].size
  {}

  lemma ThreadFrame<T>(t: Tid, c: Consumer<T>, s: State<T>, s': State<T>)
    requires ThreadOk(t, c, s.acc.items, s.owner, s.gone, s.read, s.headers, s.blocks)
    requires s.acc.items <= s'.acc.items && s.owner <= s'.owner && s.blocks <= s'.blocks
    requires |s'.owner| <= |s'.acc.items| && s'.gone <= s'.read
    requires OthersKeep(t, s.owner, s.gone, s'.gone) && OthersKeep(t, s.owner, s.read, s'.read)
    requires HeadersGrow(s.headers, s'.headers)
    ensures ThreadOk(t, c, s'.acc.items, s'.owner, s'.gone, s'.read, s'.headers, s'.blocks)
  {
    if !c.NoShare? {
      var lo := if c.ReadBlock? then c.k else if c.ReadItem? || c.MarkEmpty? then c.start else c.first;
      hide Share, Unread, Reach, HeadersGrow, OthersKeep;
      if c.MarkEmpty? {
        ShareLater(t, c.start, c.j, s.owner, s.gone, s'.owner, s'.gone);
        ShareLater(t, c.stop, c.end, s.owner, s.gone, s'.owner, s'.gone);
        UnreadLater(t, c.stop, c.stop, c.end, s.owner, s.gone, s.read, s'.read);
      } else {
        var from := if c.ReadItem? then c.k else lo;
        ShareLater(t, lo, c.end, s.owner, s.gone, s'.owner, s'.gone);
        UnreadLater(t, lo, from, c.end, s.owner, s.gone, s.read, s'.read);
      }
      if !c.LoadIndex? { ReachLater(c.h, c.end, s.headers, s'.headers); }
    }
  }

  // ---- Consumer steps ----

  /** An element that is not consumed yet is found through any index that reaches it. */
  lemma Lookup(headers: seq<Header>, blocks: seq<Block>, low: int, n: nat, gone: set<nat>, read: set<nat>, h: nat, k: nat, q: int)
    requires HeadersOk(headers, blocks, low) && LiveOk(n, gone, read, |blocks|, low)
    requires h < |headers| && k < n && k !in gone && k / BLOCK_SIZE <= q <= headers[h].newest
    ensures 0 < headers[h].size == |headers[h].entries| && EntryOk(headers[h], q, blocks)
    ensures 0 <= Slot(headers[h], q) < headers[h].size
  {
    assert HeaderOk(headers[h], blocks, low);
  }

  /** Two elements still in the ring share a block only if they have the same block number. */
  lemma SameBlock(blocks: seq<Block>, low: int, p: int, q: int)
    requires Distinct(blocks, low) && 0 <= low <= p < |blocks| && low <= q < |blocks| && blocks[p] == blocks[q]
    ensures p == q
  {}

  ghost predicate ThreadNow<T>(s: State<T>, t: Tid)
    requires t in s.pc
  {
    ThreadOk(t, s.pc[t], s.acc.items, s.owner, s.gone, s.read, s.headers, s.blocks)
  }

  lemma ThreadsFrame<T>(s: State<T>, s': State<T>, t: Tid)
    requires ThreadsOk(s) && t in s.pc && t in s'.pc && s'.pc == s.pc[t := s'.pc[t]] && ThreadNow(s', t)
    requires s.acc.items <= s'.acc.items && s.owner <= s'.owner && s.blocks <= s'.blocks
    requires |s'.owner| <= |s'.acc.items| && s'.gone <= s'.read && HeadersGrow(s.headers, s'.headers)
    requires forall u :: u in s.pc && u != t ==> OthersKeep(u, s.owner, s.gone, s'.gone) && OthersKeep(u, s.owner, s.read, s'.read)
    ensures ThreadsOk(s')
  {
    forall u | u in s'.pc ensures ThreadNow(s', u) {
      if u != t { ThreadFrame(u, s.pc[u], s, s'); }
    }
  }

  lemma LoadIndexStep<T>(s: State<T>, t: Tid)
    requires Inv(s) && t in s.pc && s.pc[t].LoadIndex?
    ensures ThreadNow(ConsumerStep(s, t), t)
  {
    assert ThreadNow(s, t);
    assert IndexOk(s.headers, s.slotsUsed, s.prFront, s.blocks, s.producer) && TailOk(s.producer, Tail(s), |s.blocks|);
  }

  lemma LoadFrontStep<T>(s: State<T>, t: Tid)
    requires Inv(s) && t in s.pc && s.pc[t].LoadFront? && ConsumerReady(s, s.pc[t])
    ensures ThreadNow(ConsumerStep(s, t), t)
  {
    assert ThreadNow(s, t);
    assert HeaderOk(s.headers[s.pc[t].h], s.blocks, Low(s));
  }

  lemma BlocksBetween(k: nat, seen: nat)
    ensures (k / BLOCK_SIZE * BLOCK_SIZE - BLOCK_SIZE * seen) / BLOCK_SIZE == k / BLOCK_SIZE - seen
  {}

  lemma ReadBaseSlot<T>(s: State<T>, t: Tid)
    requires Inv(s) && t in s.pc && s.pc[t].ReadBase?
    ensures ConsumerReady(s, s.pc[t])
    ensures var c := s.pc[t];
      SlotFor(c.front, s.headers[c.h].entries[c.front].base, c.first, s.headers[c.h].size) == Slot(s.headers[c.h], c.first / BLOCK_SIZE)
  {
    assert ThreadNow(s, t);
    var c := s.pc[t];
    Lookup(s.headers, s.blocks, Low(s), Tail(s), s.gone, s.read, c.h, c.first, c.seen);
    hide Inv, Share, Unread, HeadersOk;
    BlocksBetween(c.first, c.seen);
    SlotShift(s.headers[c.h], c.seen, c.first / BLOCK_SIZE);
  }

  lemma ReadBaseStep<T>(s: State<T>, t: Tid)
    requires Inv(s) && t in s.pc && s.pc[t].ReadBase?
    ensures ConsumerReady(s, s.pc[t]) && ThreadNow(ConsumerStep(s, t), t)
  {
    assert ThreadNow(s, t);
    ReadBaseSlot(s, t);
    hide Inv, Share, Unread, SlotFor, Slot;
  }

  lemma ReadBlockStep<T>(s: State<T>, t: Tid)
    requires Inv(s) && t in s.pc && s.pc[t].ReadBlock?
    ensures ConsumerReady(s, s.pc[t]) && ThreadNow(ConsumerStep(s, t), t)
  {
    assert ThreadNow(s, t);
    var c := s.pc[t];
    Lookup(s.headers, s.blocks, Low(s), Tail(s), s.gone, s.read, c.h, c.k, c.k / BLOCK_SIZE);
  }

  /** The block of an element that is not consumed yet. */
  lemma LiveBlock<T>(s: State<T>, k: nat)
    requires Inv(s) && k < Tail(s) && k !in s.gone
    ensures 0 <= Low(s) <= k / BLOCK_SIZE < |s.blocks| && s.blocks[k / BLOCK_SIZE] in s.next && Distinct(s.blocks, Low(s))
  {}

  lemma ReadItemReady<T>(s: State<T>, t: Tid)
    requires Inv(s) && t in s.pc && s.pc[t].ReadItem?
    ensures ConsumerReady(s, s.pc[t])
    ensures s.pc[t].k < Tail(s) && s.pc[t].k !in s.gone && s.pc[t].k / BLOCK_SIZE == s.pc[t].start / BLOCK_SIZE
    ensures s.cells[s.pc[t].b][s.pc[t].k % BLOCK_SIZE] == Some(s.acc.items[s.pc[t].k])
  {
    assert ThreadNow(s, t);
    assert Holds(s.pc[t].k, s.acc.items, s.blocks, s.cells);
  }

  lemma ReadItemStep<T>(s: State<T>, t: Tid, c: Consumer<T>)
    requires t in s.pc && s.pc[t] == c && c.ReadItem? && ThreadNow(s, t) && ConsumerReady(s, c)
    requires c.k < Tail(s) && s.cells[c.b][c.k % BLOCK_SIZE] == Some(s.acc.items[c.k])
    ensures ThreadNow(DoReadItem(s, t, c), t)
  {
    var items := s.acc.items;
    var out := c.out + [items[c.k]];
    assert out == items[c.first..c.k + 1];
    if c.k + 1 < c.stop {
    } else {
      LastOfBlock(s, t, c, out);
    }
  }

  lemma LastOfBlock<T>(s: State<T>, t: Tid, c: Consumer<T>, out: seq<T>)
    requires c.ReadItem? && ThreadOk(t, c, s.acc.items, s.owner, s.gone, s.read, s.headers, s.blocks)
    requires c.k + 1 == c.stop && c.k < Tail(s) && out == s.acc.items[c.first..c.k + 1]
    requires forall x :: c.start <= x < c.k ==> x in s.read
    ensures ThreadOk(t, MarkEmpty(c.first, c.start, c.stop, c.stop, c.end, c.h, c.slot, c.b, out),
                     s.acc.items, s.owner, s.gone, s.read + {c.k}, s.headers, s.blocks)
  {}

  lemma ReadItemItems<T>(s: State<T>, t: Tid, c: Consumer<T>)
    requires c.ReadItem? && ConsumerReady(s, c) && ItemsOk(s.acc.items, s.read, s.blocks, s.cells)
    requires LiveOk(Tail(s), s.gone, s.read, |s.blocks|, Low(s)) && MemoryOk(s.blocks, s.cells, s.flags)
    requires 0 <= Low(s) <= c.k / BLOCK_SIZE < |s.blocks| && c.b == s.blocks[c.k / BLOCK_SIZE] && Distinct(s.blocks, Low(s))
    ensures var s' := DoReadItem(s, t, c);
      ItemsOk(s'.acc.items, s'.read, s'.blocks, s'.cells) && MemoryOk(s'.blocks, s'.cells, s'.flags)
  {
    var s' := DoReadItem(s, t, c);
    forall x | 0 <= x < Tail(s') && x !in s'.read ensures Holds(x, s'.acc.items, s'.blocks, s'.cells) {
      assert Holds(x, s.acc.items, s.blocks, s.cells);
      assert x !in s.gone;
      if s.blocks[x / BLOCK_SIZE] == c.b { SameBlock(s.blocks, Low(s), x / BLOCK_SIZE, c.k / BLOCK_SIZE); }
    }
  }

  lemma ReadItemProducer<T>(s: State<T>, t: Tid, c: Consumer<T>)
    requires c.ReadItem? && ConsumerReady(s, c) && ProducerNow(s) && TailOk(s.producer, Tail(s), |s.blocks|)
    requires c.k < Tail(s) && MemoryOk(s.blocks, s.cells, s.flags)
    requires 0 <= Low(s) <= c.k / BLOCK_SIZE < |s.blocks| && c.b == s.blocks[c.k / BLOCK_SIZE] && Distinct(s.blocks, Low(s))
    ensures ProducerNow(DoReadItem(s, t, c))
  {
    if s.producer.StoreTail? && s.blocks[|s.blocks| - 1] == c.b {
      SameBlock(s.blocks, Low(s), |s.blocks| - 1, c.k / BLOCK_SIZE);
    }
  }

  lemma MarkEmptyReady<T>(s: State<T>, t: Tid)
    requires Inv(s) && t in s.pc && s.pc[t].MarkEmpty?
    ensures ConsumerReady(s, s.pc[t])
    ensures 0 <= s.pc[t].j - 1 < |s.owner| && s.owner[s.pc[t].j - 1] == t
    ensures s.pc[t].j - 1 in s.read && s.pc[t].j - 1 !in s.gone && |s.owner| <= Tail(s)
    ensures (s.pc[t].j - 1) / BLOCK_SIZE == s.pc[t].start / BLOCK_SIZE
    ensures s.pc[t].start / BLOCK_SIZE < |s.blocks| && s.pc[t].b == s.blocks[s.pc[t].start / BLOCK_SIZE]
  {
    assert ThreadNow(s, t);
    assert HeaderOk(s.headers[s.pc[t].h], s.blocks, Low(s));
  }

  lemma MarkEmptyStep<T>(s: State<T>, t: Tid, c: Consumer<T>)
    requires t in s.pc && s.pc[t] == c && c.MarkEmpty? && ThreadNow(s, t) && ConsumerReady(s, c)
    ensures ThreadNow(DoMarkEmpty(s, t, c), t)
  {
    if c.start == c.j - 1 && c.stop < c.end {
      assert c.stop / BLOCK_SIZE == c.start / BLOCK_SIZE + 1;
      SlotShift(s.headers[c.h], c.start / BLOCK_SIZE, c.start / BLOCK_SIZE + 1);
    }
  }

  lemma MarkEmptyFlags<T>(s: State<T>, t: Tid, c: Consumer<T>)
    requires c.MarkEmpty? && ConsumerReady(s, c) && 0 < c.j && MemoryOk(s.blocks, s.cells, s.flags)
    requires FlagsOk(s.blocks, Low(s), s.flags, s.gone, s.producer)
    requires 0 <= Low(s) <= (c.j - 1) / BLOCK_SIZE < |s.blocks| && c.b == s.blocks[(c.j - 1) / BLOCK_SIZE] && Distinct(s.blocks, Low(s))
    ensures var s' := DoMarkEmpty(s, t, c);
      FlagsOk(s'.blocks, Low(s'), s'.flags, s'.gone, s'.producer) && MemoryOk(s'.blocks, s'.cells, s'.flags)
  {
    var s' := DoMarkEmpty(s, t, c);
    forall q, k | 0 <= Low(s) <= q < |s.blocks| && 0 <= k < BLOCK_SIZE
      ensures FlagOk(s'.blocks, q, k, s'.flags, s'.gone, s'.producer)
    {
      assert FlagOk(s.blocks, q, k, s.flags, s.gone, s.producer);
      if s.blocks[q] == c.b { SameBlock(s.blocks, Low(s), q, (c.j - 1) / BLOCK_SIZE); }
    }
  }

  lemma RaisedFlag<T>(p: Producer<T>, tail: nat, tailBlock: Option<Block>, next: map<Block, Block>, blocks: seq<Block>,
                      cells: map<Block, seq<Option<T>>>, flags: map<Block, seq<bool>>, b: Block, f: nat)
    requires ProducerOk(p, tail, tailBlock, next, blocks, cells, flags)
    requires b in flags && |flags[b]| == BLOCK_SIZE && f < BLOCK_SIZE && b in next
    requires p.ResetFlags? && !p.isNew && blocks != [] ==> b != blocks[|blocks| - 1]
    ensures ProducerOk(p, tail, tailBlock, next, blocks, cells, flags[b := flags[b][f := true]])
  {}

  lemma MarkEmptyProducer<T>(s: State<T>, t: Tid, c: Consumer<T>)
    requires c.MarkEmpty? && ConsumerReady(s, c) && ProducerNow(s) && TailOk(s.producer, Tail(s), |s.blocks|)
    requires 0 < c.j <= Tail(s) && c.b in s.next
    requires 0 <= Low(s) <= (c.j - 1) / BLOCK_SIZE < |s.blocks| && c.b == s.blocks[(c.j - 1) / BLOCK_SIZE] && Distinct(s.blocks, Low(s))
    ensures ProducerNow(DoMarkEmpty(s, t, c))
  {
    assert s.producer.ResetFlags? && !s.producer.isNew ==> (c.j - 1) / BLOCK_SIZE < |s.blocks| - 1;
    hide ProducerOk;
    RaisedFlag(s.producer, Tail(s), s.tailBlock, s.next, s.blocks, s.cells, s.flags, c.b, FlagOf(c.j - 1));
  }

  lemma ReadItemThreads<T>(s: State<T>, t: Tid)
    requires ThreadsOk(s) && t in s.pc && s.pc[t].ReadItem? && ConsumerReady(s, s.pc[t])
    requires s.pc[t].k < Tail(s) && s.cells[s.pc[t].b][s.pc[t].k % BLOCK_SIZE] == Some(s.acc.items[s.pc[t].k])
    ensures ThreadsOk(DoReadItem(s, t, s.pc[t]))
  {
    assert ThreadNow(s, t);
    ReadItemStep(s, t, s.pc[t]);
    ThreadsFrame(s, DoReadItem(s, t, s.pc[t]), t);
  }

  lemma ReadItemKeeps<T>(s: State<T>, t: Tid)
    requires Inv(s) && t in s.pc && s.pc[t].ReadItem? && ConsumerReady(s, s.pc[t])
    ensures Inv(DoReadItem(s, t, s.pc[t]))
  {
    ReadItemReady(s, t);
    LiveBlock(s, s.pc[t].k);
    ReadItemThreads(s, t);
    assert ThreadNow(s, t);
    ReadItemStatic(s, t, s.pc[t]);
  }

  lemma ReadItemStatic<T>(s: State<T>, t: Tid, c: Consumer<T>)
    requires Static(s) && t in s.pc && s.pc[t] == c && c.ReadItem? && ConsumerReady(s, c)
    requires c.k < Tail(s) && c.k < |s.owner|
    requires 0 <= Low(s) <= c.k / BLOCK_SIZE < |s.blocks| && c.b == s.blocks[c.k / BLOCK_SIZE] && Distinct(s.blocks, Low(s))
    ensures Static(DoReadItem(s, t, c))
  {
    hide RingOk, HeadersOk, IndexOk, TailOk, ProducerNow, ItemsOk, FlagsOk;
    ReadItemItems(s, t, c);
    ReadItemProducer(s, t, c);
  }

  lemma MarkEmptyResults<T>(s: State<T>, t: Tid, c: Consumer<T>)
    requires c.MarkEmpty? && ConsumerReady(s, c) && t in s.pc && s.pc[t] == c && ThreadNow(s, t)
    requires ResultsOk(s.results, s.acc.items)
    ensures ResultsOk(DoMarkEmpty(s, t, c).results, s.acc.items)
  {}

  lemma MarkEmptyLive<T>(s: State<T>, t: Tid, c: Consumer<T>)
    requires c.MarkEmpty? && ConsumerReady(s, c) && 0 < c.j && c.j - 1 in s.read
    requires LiveOk(Tail(s), s.gone, s.read, |s.blocks|, Low(s))
    ensures LiveOk(Tail(s), DoMarkEmpty(s, t, c).gone, s.read, |s.blocks|, Low(s))
  {}

  lemma MarkEmptyStatic<T>(s: State<T>, t: Tid, c: Consumer<T>)
    requires Static(s) && t in s.pc && s.pc[t] == c && c.MarkEmpty? && ConsumerReady(s, c)
    requires 0 < c.j <= Tail(s) && c.b in s.next && c.j - 1 in s.read
    requires 0 <= Low(s) <= (c.j - 1) / BLOCK_SIZE < |s.blocks| && c.b == s.blocks[(c.j - 1) / BLOCK_SIZE] && Distinct(s.blocks, Low(s))
    requires ResultsOk(DoMarkEmpty(s, t, c).results, s.acc.items)
    ensures Static(DoMarkEmpty(s, t, c))
  {
    hide RingOk, MemoryOk, HeadersOk, IndexOk, TailOk, ProducerNow, ItemsOk, LiveOk, FlagsOk, ResultsOk;
    var s' := DoMarkEmpty(s, t, c);
    MarkEmptyLive(s, t, c);
    MarkEmptyFlags(s, t, c);
    MarkEmptyProducer(s, t, c);
    MarkEmptyRest(s, s');
  }

  lemma MarkEmptyRest<T>(s: State<T>, s': State<T>)
    requires Static(s)
    requires s' == s.(flags := s'.flags, gone := s'.gone, pc := s'.pc, results := s'.results)
    requires s'.pc.Keys == s.pc.Keys && forall t :: t in s.pc && s.pc[t].NoShare? ==> s'.pc[t].NoShare?
    requires FlagsOk(s'.blocks, Low(s'), s'.flags, s'.gone, s'.producer) && MemoryOk(s'.blocks, s'.cells, s'.flags)
    requires ProducerNow(s') && LiveOk(Tail(s'), s'.gone, s'.read, |s'.blocks|, Low(s')) && ResultsOk(s'.results, s'.acc.items)
    ensures Static(s')
  {}

  lemma MarkEmptyOthers<T>(s: State<T>, t: Tid, c: Consumer<T>)
    requires t in s.pc && s.pc[t] == c && c.MarkEmpty? && ConsumerReady(s, c)
    requires 0 <= c.j - 1 < |s.owner| && s.owner[c.j - 1] == t && c.j - 1 in s.read && s.gone <= s.read
    ensures var s' := DoMarkEmpty(s, t, c);
      && t in s'.pc && s'.pc == s.pc[t := s'.pc[t]] && s'.acc == s.acc && s'.owner == s.owner && s'.blocks == s.blocks
      && s'.headers == s.headers && s'.read == s.read && s'.gone <= s'.read
      && forall u :: u != t ==> OthersKeep(u, s.owner, s.gone, s'.gone)
  {}

  lemma MarkEmptyThreads<T>(s: State<T>, t: Tid)
    requires ThreadsOk(s) && t in s.pc && s.pc[t].MarkEmpty? && ConsumerReady(s, s.pc[t])
    requires 0 <= s.pc[t].j - 1 < |s.owner| && s.owner[s.pc[t].j - 1] == t && s.pc[t].j - 1 in s.read
    ensures ThreadsOk(DoMarkEmpty(s, t, s.pc[t]))
  {
    assert ThreadNow(s, t);
    assert s.gone <= s.read && |s.owner| <= |s.acc.items|;
    MarkEmptyOthers(s, t, s.pc[t]);
    hide ThreadOk, ThreadsOk, DoMarkEmpty;
    MarkEmptyStep(s, t, s.pc[t]);
    ThreadsFrame(s, DoMarkEmpty(s, t, s.pc[t]), t);
  }

  lemma MarkEmptyKeeps<T>(s: State<T>, t: Tid)
    requires Inv(s) && t in s.pc && s.pc[t].MarkEmpty? && ConsumerReady(s, s.pc[t])
    ensures Inv(DoMarkEmpty(s, t, s.pc[t]))
  {
    hide RingOk, MemoryOk, HeadersOk, IndexOk, TailOk, ProducerNow, ItemsOk, LiveOk, FlagsOk, ResultsOk, AccountingOk, ThreadOk, Share, Unread, Reach, ConsumerReady;
    MarkEmptyReady(s, t);
    LiveBlock(s, s.pc[t].j - 1);
    assert ThreadNow(s, t);
    MarkEmptyResults(s, t, s.pc[t]);
    MarkEmptyStatic(s, t, s.pc[t]);
    MarkEmptyThreads(s, t);
  }

  lemma PcStatic<T>(s: State<T>, s': State<T>, t: Tid)
    requires Static(s) && t in s.pc && t in s'.pc && s' == s.(pc := s.pc[t := s'.pc[t]])
    requires s'.pc[t].NoShare? || !s.pc[t].NoShare?
    ensures Static(s')
  {}

  lemma LookupKeeps<T>(s: State<T>, t: Tid)
    requires Inv(s) && t in s.pc && ConsumerReady(s, s.pc[t])
    requires s.pc[t].LoadIndex? || s.pc[t].LoadFront? || s.pc[t].ReadBase? || s.pc[t].ReadBlock?
    ensures Inv(ConsumerStep(s, t))
  {
    if s.pc[t].LoadIndex? { LoadIndexStep(s, t); }
    else if s.pc[t].LoadFront? { LoadFrontStep(s, t); }
    else if s.pc[t].ReadBase? { ReadBaseStep(s, t); }
    else { ReadBlockStep(s, t); }
    PcStatic(s, ConsumerStep(s, t), t);
    ThreadsFrame(s, ConsumerStep(s, t), t);
  }

  /** No consumer ever reads a blank slot, a missing header or an element that is gone. */
  lemma ConsumerNeverStuck<T>(s: State<T>, t: Tid)
    requires Inv(s) && t in s.pc
    ensures ConsumerReady(s, s.pc[t])
  {
    assert ThreadNow(s, t);
    match s.pc[t] {
      case ReadBase(_, _, _, _, _) => ReadBaseStep(s, t);
      case ReadBlock(_, _, _, _, _, _) => ReadBlockStep(s, t);
      case ReadItem(_, _, _, _, _, _, _, _, _) => ReadItemReady(s, t);
      case MarkEmpty(_, _, _, _, _, _, _, _, _) => MarkEmptyReady(s, t);
      case _ =>
    }
  }

  lemma ConsumerKeeps<T>(s: State<T>, t: Tid)
    requires Inv(s) && t in s.pc && !s.pc[t].NoShare? && ConsumerReady(s, s.pc[t])
    ensures Inv(ConsumerStep(s, t))
  {
    if s.pc[t].ReadItem? { ReadItemKeeps(s, t); }
    else if s.pc[t].MarkEmpty? { MarkEmptyKeeps(s, t); }
    else { LookupKeeps(s, t); }
  }

  // ---- Accounting steps ----

  lemma CallStep<T>(s: State<T>, t: Tid, max: nat)
    requires Inv(s) && t in s.acc.pc && s.acc.pc[t].Idle? && t in s.pc && s.pc[t].NoShare?
    ensures Inv(s.(acc := A.Call(s.acc, t, max)))
  {
    A.CallKeeps(s.acc, t, max);
  }

  lemma AccountingStatic<T>(s: State<T>, t: Tid)
    requires Static(s) && t in s.acc.pc && !s.acc.pc[t].Idle? && A.PcOk(s.acc, s.acc.pc[t]) && t in s.pc
    ensures Static(AccountingStep(s, t))
  {
    hide RingOk, MemoryOk, HeadersOk, IndexOk, TailOk, ProducerOk, ItemsOk, LiveOk, FlagsOk, AccountingOk, A.Access;
    AccountingShare(s, t);
  }

  lemma AccountingShare<T>(s: State<T>, t: Tid)
    requires AccountingOk(s.acc, s.owner, s.pc, s.read)
    requires t in s.acc.pc && !s.acc.pc[t].Idle? && A.PcOk(s.acc, s.acc.pc[t]) && t in s.pc
    ensures var s' := AccountingStep(s, t); AccountingOk(s'.acc, s'.owner, s'.pc, s'.read) && s'.acc.items == s.acc.items
  {
    A.AccessKeeps(s.acc, t);
    A.AccessShape(s.acc, t);
    Shared(s.acc, A.Access(s.acc, t), s.owner, s.pc, s.read, t);
  }

  lemma Shared<T>(acc: A.State<T>, acc': A.State<T>, owner: seq<Tid>, pc: map<Tid, Consumer<T>>, read: set<nat>, t: Tid)
    requires AccountingOk(acc, owner, pc, read) && A.Inv(acc') && t in pc && t in acc.pc && !acc.pc[t].Idle?
    requires acc'.pc.Keys == acc.pc.Keys && forall u :: u in acc.pc && u != t ==> acc'.pc[u] == acc.pc[u]
    requires acc'.head == acc.head + (if acc.pc[t].AddHead? then acc.pc[t].actual else 0)
    requires acc.pc[t].AddHead? ==> acc'.pc[t].Idle?
    ensures acc.pc[t].AddHead? && 0 < acc.pc[t].actual ==>
      AccountingOk(acc', owner + Repeat(acc.pc[t].actual, t), pc[t := LoadIndex(acc.head, acc.head + acc.pc[t].actual)], read)
    ensures !(acc.pc[t].AddHead? && 0 < acc.pc[t].actual) ==> AccountingOk(acc', owner, pc, read)
  {}

  lemma AccountingRoom<T>(s: State<T>, t: Tid)
    requires AccountingOk(s.acc, s.owner, s.pc, s.read) && t in s.acc.pc
    ensures |s.owner| + (if s.acc.pc[t].AddHead? then s.acc.pc[t].actual else 0) <= Tail(s)
  {
    hide A.Inv;
    A.HeadBehindTail(s.acc);
    if s.acc.pc[t].AddHead? { A.DueBehindTail(s.acc, t); }
  }

  lemma AccountingThreads<T>(s: State<T>, t: Tid)
    requires AccountingOk(s.acc, s.owner, s.pc, s.read) && ThreadsOk(s) && s.gone <= s.read
    requires t in s.acc.pc && !s.acc.pc[t].Idle? && A.PcOk(s.acc, s.acc.pc[t]) && t in s.pc
    ensures ThreadsOk(AccountingStep(s, t))
  {
    hide ThreadsOk, A.Access, A.Inv, Repeat;
    AccountingRoom(s, t);
    A.AccessShape(s.acc, t);
    var n := if s.acc.pc[t].AddHead? then s.acc.pc[t].actual else 0;
    var s' := AccountingStep(s, t);
    if n == 0 { assert s.owner + Repeat(n, t) == s.owner; }
    SharedThreads(s, s', t, n);
  }

  lemma SharedThreads<T>(s: State<T>, s': State<T>, t: Tid, n: nat)
    requires ThreadsOk(s) && t in s.pc && s.gone <= s.read && (forall x :: x in s.read ==> x < |s.owner|)
    requires |s.owner| + n <= |s.acc.items| && s'.acc.items == s.acc.items
    requires s' == s.(acc := s'.acc, pc := s'.pc, owner := s.owner + Repeat(n, t))
    requires s'.pc == if 0 < n then s.pc[t := LoadIndex(|s.owner|, |s.owner| + n)] else s.pc
    ensures ThreadsOk(s')
  {
    assert ThreadNow(s, t);
    if 0 < n { NewShare(s, t, n); }
    else { ThreadFrame(t, s.pc[t], s, s'); }
    ThreadsFrame(s, s', t);
  }

  lemma NewShare<T>(s: State<T>, t: Tid, n: nat)
    requires 0 < n && |s.owner| + n <= Tail(s) && s.gone <= s.read && (forall x :: x in s.read ==> x < |s.owner|)
    ensures ThreadOk(t, LoadIndex(|s.owner|, |s.owner| + n), s.acc.items, s.owner + Repeat(n, t), s.gone, s.read, s.headers, s.blocks)
  {}

  // ---- Producer steps ----

  lemma ThreadsProducer<T>(s: State<T>, s': State<T>)
    requires ThreadsOk(s) && s'.pc == s.pc && s'.owner == s.owner && s'.gone == s.gone && s'.read == s.read
    requires s.acc.items <= s'.acc.items && s.blocks <= s'.blocks && HeadersGrow(s.headers, s'.headers)
    ensures ThreadsOk(s')
  {
    forall u | u in s'.pc ensures ThreadNow(s', u) {
      assert ThreadNow(s, u);
      ThreadFrame(u, s.pc[u], s, s');
    }
  }

  /** The block ahead of the tail block is the oldest one of the ring. */
  lemma Ahead<T>(s: State<T>)
    requires RingOk(s.blocks, s.slotsUsed, s.tailBlock, s.next) && s.tailBlock.Some?
    ensures 0 <= Low(s) < |s.blocks| && s.tailBlock.value in s.next && s.next[s.tailBlock.value] == s.blocks[Low(s)]
  {}

  /** Moving the oldest block to the newest place keeps the ring's blocks. */
  lemma RotateMembers(blocks: seq<Block>, low: nat, b: Block)
    requires low < |blocks| && b in blocks[low..]
    ensures b in (blocks + [blocks[low]])[low + 1..]
  {
    var blocks' := blocks + [blocks[low]];
    var i :| 0 <= i < |blocks[low..]| && blocks[low..][i] == b;
    if i > 0 { assert blocks'[low + 1..][i - 1] == b; }
    else { assert blocks'[low + 1..][|blocks| - low - 1] == b; }
  }

  lemma RotateDistinct(blocks: seq<Block>, low: nat)
    requires Distinct(blocks, low) && low < |blocks|
    ensures Distinct(blocks + [blocks[low]], low + 1)
  {
    var blocks' := blocks + [blocks[low]];
    forall p, q | 0 <= low + 1 <= p < q < |blocks'| ensures blocks'[p] != blocks'[q] {
      if q == |blocks| { assert blocks[low] != blocks[p]; }
    }
  }

  lemma RotateLinks(blocks: seq<Block>, low: nat, next: map<Block, Block>)
    requires low < |blocks| && (forall q :: low <= q < |blocks| ==> blocks[q] in next)
    requires forall q :: low <= q < |blocks| - 1 ==> next[blocks[q]] == blocks[q + 1]
    requires next[blocks[|blocks| - 1]] == blocks[low]
    ensures var blocks' := blocks + [blocks[low]];
      && (forall q :: low + 1 <= q < |blocks'| ==> blocks'[q] in next)
      && (forall q :: low + 1 <= q < |blocks'| - 1 ==> next[blocks'[q]] == blocks'[q + 1])
      && next[blocks'[|blocks'| - 1]] == blocks'[low + 1]
  {}

  lemma RingReuse(blocks: seq<Block>, used: nat, tailBlock: Option<Block>, next: map<Block, Block>)
    requires RingOk(blocks, used, tailBlock, next) && blocks != []
    ensures var ahead := blocks[|blocks| - used]; RingOk(blocks + [ahead], used, Some(ahead), next)
  {
    var low := |blocks| - used;
    var blocks' := blocks + [blocks[low]];
    forall b | b in next ensures b in blocks'[low + 1..] { RotateMembers(blocks, low, b); }
    RotateDistinct(blocks, low);
    RotateLinks(blocks, low, next);
    hide Distinct;
  }

  lemma LinkDistinct(blocks: seq<Block>, low: nat, b: Block)
    requires Distinct(blocks, low) && low <= |blocks| && b !in blocks[low..]
    ensures Distinct(blocks + [b], low)
  {
    forall p | low <= p < |blocks| ensures blocks[p] != b { assert blocks[p] == blocks[low..][p - low]; }
  }

  lemma LinkLinks(blocks: seq<Block>, low: nat, next: map<Block, Block>, b: Block)
    requires low < |blocks| && Distinct(blocks, low) && b !in next
    requires forall q :: low <= q < |blocks| ==> blocks[q] in next
    requires forall q :: low <= q < |blocks| - 1 ==> next[blocks[q]] == blocks[q + 1]
    requires next[blocks[|blocks| - 1]] == blocks[low]
    ensures var last := blocks[|blocks| - 1]; var next' := next[b := next[last]][last := b]; var blocks' := blocks + [b];
      && (forall q :: low <= q < |blocks'| ==> blocks'[q] in next')
      && (forall q :: low <= q < |blocks'| - 1 ==> next'[blocks'[q]] == blocks'[q + 1])
      && next'[b] == blocks'[low]
  {}

  lemma RingLink(blocks: seq<Block>, used: nat, tailBlock: Option<Block>, next: map<Block, Block>, b: Block)
    requires RingOk(blocks, used, tailBlock, next) && b !in next
    ensures tailBlock.Some? ==> tailBlock.value in next
    ensures var next' := if tailBlock.None? then next[b := b]
                         else next[b := next[tailBlock.value]][tailBlock.value := b];
      RingOk(blocks + [b], used + 1, Some(b), next')
  {
    var low := |blocks| - used;
    var blocks' := blocks + [b];
    assert blocks'[low..] == blocks[low..] + [b];
    if blocks == [] {
      assert blocks'[low..] == [b];
    } else {
      LinkMembers(blocks, low, next, b);
      LinkDistinct(blocks, low, b);
      LinkLinks(blocks, low, next, b);
      hide Distinct;
    }
  }

  lemma LinkMembers(blocks: seq<Block>, low: nat, next: map<Block, Block>, b: Block)
    requires low < |blocks| && b !in next && (forall c :: c in next ==> c in blocks[low..])
    requires forall q :: low <= q < |blocks| ==> blocks[q] in next
    ensures b !in blocks[low..] && forall c :: c in next || c == b ==> c in (blocks + [b])[low..]
  {
    assert (blocks + [b])[low..] == blocks[low..] + [b];
    forall i | 0 <= i < |blocks[low..]| ensures blocks[low..][i] != b { assert blocks[low..][i] == blocks[low + i]; }
  }

  lemma HeadersLater(headers: seq<Header>, blocks: seq<Block>, low: int, blocks': seq<Block>, low': int)
    requires HeadersOk(headers, blocks, low) && blocks <= blocks' && low <= low'
    ensures HeadersOk(headers, blocks', low')
  {
    forall i | 0 <= i < |headers| ensures HeaderOk(headers[i], blocks', low') {
      assert HeaderOk(headers[i], blocks, low);
      forall q | headers[i].lo <= q <= headers[i].newest ensures EntryOk(headers[i], q, blocks') {
        assert EntryOk(headers[i], q, blocks);
      }
    }
  }

  /** What a producer step must re-establish, given that it leaves the accounting alone. */
  ghost predicate ProducerParts<T>(s: State<T>) {
    && RingOk(s.blocks, s.slotsUsed, s.tailBlock, s.next)
    && MemoryOk(s.blocks, s.cells, s.flags)
    && HeadersOk(s.headers, s.blocks, Low(s)) && IndexOk(s.headers, s.slotsUsed, s.prFront, s.blocks, s.producer)
    && TailOk(s.producer, Tail(s), |s.blocks|) && ProducerNow(s)
    && ItemsOk(s.acc.items, s.read, s.blocks, s.cells)
    && LiveOk(Tail(s), s.gone, s.read, |s.blocks|, Low(s))
    && FlagsOk(s.blocks, Low(s), s.flags, s.gone, s.producer)
  }

  /** The step only moves the producer's program counter. */
  lemma QuietProducer<T>(s: State<T>, p: Producer<T>)
    requires ProducerParts(s)
    requires TailOk(p, Tail(s), |s.blocks|) && ProducerNow(s.(producer := p))
    requires IndexOk(s.headers, s.slotsUsed, s.prFront, s.blocks, p)
    requires !s.producer.ResetFlags? || s.producer.isNew
    ensures ProducerParts(s.(producer := p))
  {
    forall q, k | 0 <= Low(s) <= q < |s.blocks| && 0 <= k < BLOCK_SIZE
      ensures FlagOk(s.blocks, q, k, s.flags, s.gone, p)
    {
      assert FlagOk(s.blocks, q, k, s.flags, s.gone, s.producer);
    }
  }

  /** Between enqueues and while it looks for a block the producer's program counter does not matter. */
  lemma QuietIndex<T>(headers: seq<Header>, used: nat, prFront: nat, blocks: seq<Block>, p: Producer<T>, p': Producer<T>)
    requires IndexOk(headers, used, prFront, blocks, p) && !Pending(p) && !Pending(p')
    requires !p'.GrowIndex? && !p'.Requisition? && !p'.Link? && !p'.ResetFlags?
    ensures IndexOk(headers, used, prFront, blocks, p')
  {
    hide EntryOk, Slot;
  }

  lemma BranchIndex<T>(s: State<T>, v: T)
    requires s.producer == Branch(v) && IndexOk(s.headers, s.slotsUsed, s.prFront, s.blocks, s.producer)
    ensures IndexOk(s.headers, s.slotsUsed, s.prFront, s.blocks, DoBranch(s, v).producer)
  {
    hide IndexOk;
    QuietIndex(s.headers, s.slotsUsed, s.prFront, s.blocks, s.producer, DoBranch(s, v).producer);
  }

  lemma BranchTail<T>(s: State<T>, v: T)
    requires s.producer == Branch(v) && TailOk(s.producer, Tail(s), |s.blocks|)
    ensures TailOk(DoBranch(s, v).producer, Tail(s), |s.blocks|)
  {}

  lemma BranchStep<T>(s: State<T>, v: T)
    requires ProducerParts(s) && s.producer == Branch(v)
    ensures ProducerParts(DoBranch(s, v))
  {
    hide IndexOk, HeadersOk, TailOk, ItemsOk, LiveOk, FlagsOk;
    if s.tailBlock.Some? { Ahead(s); }
    BranchIndex(s, v);
    BranchTail(s, v);
    assert DoBranch(s, v) == s.(producer := DoBranch(s, v).producer);
    QuietProducer(s, DoBranch(s, v).producer);
  }

  lemma LookAheadStep<T>(s: State<T>, v: T, i: nat)
    requires ProducerParts(s) && s.producer == CheckEmpty(v, i)
    requires !s.flags[s.next[s.tailBlock.value]][i] || i + 1 < BLOCK_SIZE
    ensures ProducerParts(DoCheckEmpty(s, v, i))
  {
    hide RingOk, MemoryOk, HeadersOk, IndexOk, ItemsOk, LiveOk, FlagsOk;
    QuietIndex(s.headers, s.slotsUsed, s.prFront, s.blocks, s.producer, DoCheckEmpty(s, v, i).producer);
    QuietProducer(s, DoCheckEmpty(s, v, i).producer);
  }

  /** Every flag of the block ahead is up. */
  ghost predicate AllUp(tailBlock: Option<Block>, next: map<Block, Block>, flags: map<Block, seq<bool>>) {
    && tailBlock.Some? && tailBlock.value in next && next[tailBlock.value] in flags
    && |flags[next[tailBlock.value]]| == BLOCK_SIZE
    && forall j :: 0 <= j < BLOCK_SIZE ==> flags[next[tailBlock.value]][j]
  }

  lemma LastFlagUp<T>(s: State<T>, v: T, i: nat)
    requires ProducerNow(s) && s.producer == CheckEmpty(v, i) && i + 1 == BLOCK_SIZE
    requires s.flags[s.next[s.tailBlock.value]][i]
    ensures AllUp(s.tailBlock, s.next, s.flags)
  {}

  lemma AllFlagsUp<T>(s: State<T>)
    requires RingOk(s.blocks, s.slotsUsed, s.tailBlock, s.next) && AllUp(s.tailBlock, s.next, s.flags)
    ensures 0 <= Low(s) < |s.blocks| && s.next[s.tailBlock.value] == s.blocks[Low(s)] && s.blocks[Low(s)] in s.flags
    ensures |s.flags[s.blocks[Low(s)]]| == BLOCK_SIZE
    ensures forall j :: 0 <= j < BLOCK_SIZE ==> s.flags[s.blocks[Low(s)]][j]
  {
    hide RingOk;
    Ahead(s);
  }

  lemma ReuseLive<T>(s: State<T>, x: nat)
    requires LiveOk(Tail(s), s.gone, s.read, |s.blocks|, Low(s)) && FlagsOk(s.blocks, Low(s), s.flags, s.gone, s.producer)
    requires s.producer.CheckEmpty? && 0 <= Low(s) < |s.blocks| && s.blocks[Low(s)] in s.flags
    requires |s.flags[s.blocks[Low(s)]]| == BLOCK_SIZE && forall j :: 0 <= j < BLOCK_SIZE ==> s.flags[s.blocks[Low(s)]][j]
    requires x < Tail(s) && x !in s.gone
    ensures Low(s) + 1 <= x / BLOCK_SIZE < |s.blocks|
  {
    assert FlagOk(s.blocks, Low(s), x % BLOCK_SIZE, s.flags, s.gone, s.producer);
  }

  lemma ReuseFlags<T>(s: State<T>, v: T, i: nat)
    requires ProducerParts(s) && s.producer == CheckEmpty(v, i) && i + 1 == BLOCK_SIZE
    requires s.flags[s.next[s.tailBlock.value]][i]
    ensures var s' := DoCheckEmpty(s, v, i);
      FlagsOk(s'.blocks, Low(s'), s'.flags, s'.gone, s'.producer) && LiveOk(Tail(s'), s'.gone, s'.read, |s'.blocks|, Low(s'))
  {
    LastFlagUp(s, v, i);
    AllFlagsUp(s);
    var s' := DoCheckEmpty(s, v, i);
    hide RingOk, HeadersOk, IndexOk, TailOk, ItemsOk, MemoryOk;
    forall q, k | 0 <= Low(s') <= q < |s'.blocks| && 0 <= k < BLOCK_SIZE
      ensures FlagOk(s'.blocks, q, k, s'.flags, s'.gone, s'.producer)
    {
      if q < |s.blocks| { assert FlagOk(s.blocks, q, k, s.flags, s.gone, s.producer); }
    }
    forall x | 0 <= x < Tail(s) && x !in s.gone ensures Low(s') <= x / BLOCK_SIZE < |s'.blocks| { ReuseLive(s, x); }
  }

  lemma ReuseTail<T>(s: State<T>, v: T, i: nat)
    requires s.producer == CheckEmpty(v, i) && ProducerReady(s) && i + 1 == BLOCK_SIZE
    requires s.flags[s.next[s.tailBlock.value]][i]
    requires TailOk(s.producer, Tail(s), |s.blocks|) && MemoryOk(s.blocks, s.cells, s.flags)
    requires s.next[s.tailBlock.value] in s.blocks
    ensures var s' := DoCheckEmpty(s, v, i);
      && TailOk(s'.producer, Tail(s'), |s'.blocks|) && ProducerNow(s') && MemoryOk(s'.blocks, s'.cells, s'.flags)
  {}

  lemma ReuseStep<T>(s: State<T>, v: T, i: nat)
    requires ProducerParts(s) && s.producer == CheckEmpty(v, i) && i + 1 == BLOCK_SIZE
    requires s.flags[s.next[s.tailBlock.value]][i]
    ensures ProducerParts(DoCheckEmpty(s, v, i))
  {
    Ahead(s);
    var s' := DoCheckEmpty(s, v, i);
    ReuseFlags(s, v, i);
    RingReuse(s.blocks, s.slotsUsed, s.tailBlock, s.next);
    HeadersLater(s.headers, s.blocks, Low(s), s'.blocks, Low(s'));
    ReuseIndex(s, v, i);
    ReuseTail(s, v, i);
    ItemsLater(s.acc.items, s.read, s.blocks, s'.blocks, s.cells);
    hide RingOk, MemoryOk, HeadersOk, IndexOk, TailOk, ProducerNow, ItemsOk, LiveOk, FlagsOk;
  }

  lemma ReuseIndex<T>(s: State<T>, v: T, i: nat)
    requires ProducerParts(s) && s.producer == CheckEmpty(v, i) && i + 1 == BLOCK_SIZE
    requires s.flags[s.next[s.tailBlock.value]][i]
    ensures var s' := DoCheckEmpty(s, v, i); IndexOk(s'.headers, s'.slotsUsed, s'.prFront, s'.blocks, s'.producer)
  {
    var s' := DoCheckEmpty(s, v, i);
    var h := Current(s);
    forall q | |s'.blocks| - s'.slotsUsed <= q <= h.newest ensures EntryOk(h, q, s'.blocks) {
      assert EntryOk(h, q, s.blocks);
    }
  }

  lemma ItemsLater<T>(items: seq<T>, read: set<nat>, blocks: seq<Block>, blocks': seq<Block>, cells: map<Block, seq<Option<T>>>)
    requires ItemsOk(items, read, blocks, cells) && blocks <= blocks'
    ensures ItemsOk(items, read, blocks', cells)
  {
    forall x | 0 <= x < |items| && x !in read ensures Holds(x, items, blocks', cells) {
      assert Holds(x, items, blocks, cells);
    }
  }

  lemma CheckRoomStep<T>(s: State<T>, v: T)
    requires ProducerParts(s) && s.producer == CheckRoom(v) && s.acc.head <= Tail(s)
    ensures ProducerParts(DoCheckRoom(s, v)) && !DoCheckRoom(s, v).producer.Resting?
  {
    QuietProducer(s, DoCheckRoom(s, v).producer);
  }

  lemma GiveUpStep<T>(s: State<T>)
    requires ProducerParts(s) && (s.producer.GrowIndex? || s.producer.Requisition?)
    ensures ProducerParts(s.(producer := Resting))
  {
    hide RingOk, MemoryOk, HeadersOk, ItemsOk, LiveOk, FlagsOk;
    QuietProducer(s, Resting);
  }

  lemma UnrolledEntry(h: Header, front: nat, used: nat, blocks: seq<Block>, q: int)
    requires 0 < h.size == |h.entries| && front == Slot(h, |blocks|) && used <= h.size
    requires |blocks| - used <= q < |blocks| && EntryOk(h, q, blocks)
    ensures 0 <= q && Unrolled(h, front, used)[q - (|blocks| - used)] == Entry(BLOCK_SIZE * q, blocks[q])
  {
    SlotShift(h, |blocks|, q);
  }

  lemma GrownEntry<T>(s: State<T>, q: int)
    requires ProducerParts(s) && s.producer.GrowIndex? && Low(s) <= q < |s.blocks|
    ensures s.slotsUsed <= Current(s).size == |Current(s).entries|
    ensures 0 <= q < |s.blocks| && Unrolled(Current(s), s.prFront, s.slotsUsed)[q - Low(s)] == Entry(BLOCK_SIZE * q, s.blocks[q])
  {
    hide MemoryOk, HeadersOk, TailOk, ProducerNow, ItemsOk, LiveOk, FlagsOk, Slot, EntryOk, Unrolled, Distinct;
    assert EntryOk(Current(s), q, s.blocks);
    UnrolledEntry(Current(s), s.prFront, s.slotsUsed, s.blocks, q);
  }

  lemma GrownHeader<T>(s: State<T>)
    requires ProducerParts(s) && s.producer.GrowIndex?
    ensures ProducerReady(s)
    ensures var h := Current(Grown(s));
      && HeaderOk(h, s.blocks, Low(s)) && Grown(s).prFront == Slot(h, |s.blocks|)
      && forall q :: Low(s) <= q <= h.newest ==> EntryOk(h, q, s.blocks)
  {
    var used := s.slotsUsed;
    var h := Current(Grown(s));
    assert h.size == 2 * Current(s).size && h.lo == h.shift == Low(s) && h.newest == |s.blocks| - 1;
    forall q | Low(s) <= q <= h.newest ensures EntryOk(h, q, s.blocks) {
      assert Slot(h, q) == q - Low(s) by { ModUnique(q - Low(s), h.size, q - Low(s), 0); }
      GrownEntry(s, q);
    }
    ModUnique(used, h.size, used, 0);
    ModUnique(used - 1, h.size, used - 1, 0);
  }

  lemma GrowIndexStep<T>(s: State<T>, v: T)
    requires ProducerParts(s) && s.producer == GrowIndex(v)
    ensures ProducerReady(s) && ProducerParts(Grown(s).(producer := Requisition(v)))
    ensures HeadersGrow(s.headers, Grown(s).headers)
  {
    hide RingOk, MemoryOk, ItemsOk, LiveOk, FlagsOk;
    GrownHeader(s);
    var s' := Grown(s).(producer := Requisition(v));
    forall i | 0 <= i < |s'.headers| ensures HeaderOk(s'.headers[i], s'.blocks, Low(s')) {
      if i < |s.headers| { assert HeaderOk(s.headers[i], s.blocks, Low(s)); }
    }
    GrownFlags(s, s');
  }

  lemma GrownFlags<T>(s: State<T>, s': State<T>)
    requires FlagsOk(s.blocks, Low(s), s.flags, s.gone, s.producer) && !s.producer.ResetFlags?
    requires s'.blocks == s.blocks && Low(s') == Low(s) && s'.flags == s.flags && s'.gone == s.gone
    ensures FlagsOk(s'.blocks, Low(s'), s'.flags, s'.gone, s'.producer)
  {
    forall q, k | 0 <= Low(s') <= q < |s'.blocks| && 0 <= k < BLOCK_SIZE
      ensures FlagOk(s'.blocks, q, k, s'.flags, s'.gone, s'.producer)
    {
      assert FlagOk(s.blocks, q, k, s.flags, s.gone, s.producer);
    }
  }

  lemma NotInRing(blocks: seq<Block>, used: nat, tailBlock: Option<Block>, next: map<Block, Block>, b: Block)
    requires RingOk(blocks, used, tailBlock, next) && b !in next
    ensures forall q :: |blocks| - used <= q < |blocks| ==> blocks[q] != b
  {
    hide Distinct;
  }

  /** Flags of a block outside the ring do not matter. */
  lemma FlagsElsewhere<T>(blocks: seq<Block>, low: int, flags: map<Block, seq<bool>>, gone: set<nat>, p: Producer<T>,
                          b: Block, more: seq<bool>, p': Producer<T>)
    requires FlagsOk(blocks, low, flags, gone, p) && !p.ResetFlags?
    requires forall q :: low <= q < |blocks| && 0 <= q ==> blocks[q] != b
    ensures FlagsOk(blocks, low, flags[b := more], gone, p')
  {
    var flags' := flags[b := more];
    forall q, k | 0 <= low <= q < |blocks| && 0 <= k < BLOCK_SIZE ensures FlagOk(blocks, q, k, flags', gone, p') {
      assert FlagOk(blocks, q, k, flags, gone, p);
    }
  }

  lemma MoreMemory<T>(blocks: seq<Block>, cells: map<Block, seq<Option<T>>>, flags: map<Block, seq<bool>>,
                      b: Block, c: seq<Option<T>>, f: seq<bool>)
    requires MemoryOk(blocks, cells, flags) && |c| == |f| == BLOCK_SIZE
    ensures MemoryOk(blocks, cells[b := c], flags[b := f])
  {}

  lemma RequisitionFlags<T>(s: State<T>, s': State<T>, v: T, b: Block, cells: seq<Option<T>>, flags: seq<bool>)
    requires s.producer == Requisition(v) && Requisitioned(s, s', v, b, cells, flags)
    requires RingOk(s.blocks, s.slotsUsed, s.tailBlock, s.next) && MemoryOk(s.blocks, s.cells, s.flags)
    requires FlagsOk(s.blocks, Low(s), s.flags, s.gone, s.producer)
    ensures FlagsOk(s'.blocks, Low(s'), s'.flags, s'.gone, s'.producer) && MemoryOk(s'.blocks, s'.cells, s'.flags)
  {
    hide RingOk, FlagsOk, MemoryOk;
    NotInRing(s.blocks, s.slotsUsed, s.tailBlock, s.next, b);
    FlagsElsewhere(s.blocks, Low(s), s.flags, s.gone, s.producer, b, flags, s'.producer);
    MoreMemory(s.blocks, s.cells, s.flags, b, cells, flags);
  }

  lemma RequisitionStep<T>(s: State<T>, s': State<T>, v: T, b: Block, cells: seq<Option<T>>, flags: seq<bool>)
    requires ProducerParts(s) && s.producer == Requisition(v) && Requisitioned(s, s', v, b, cells, flags)
    ensures ProducerParts(s')
  {
    RequisitionFlags(s, s', v, b, cells, flags);
    RequisitionItems(s, s', b);
    hide RingOk, MemoryOk, HeadersOk, ItemsOk, LiveOk, FlagsOk;
  }

  lemma RequisitionItems<T>(s: State<T>, s': State<T>, b: Block)
    requires ProducerParts(s) && b !in s.next && b in s'.cells && s'.cells == s.cells[b := s'.cells[b]]
    requires s'.acc == s.acc && s'.read == s.read && s'.blocks == s.blocks
    ensures ItemsOk(s'.acc.items, s'.read, s'.blocks, s'.cells)
  {
    forall x | 0 <= x < Tail(s) && x !in s.read ensures Holds(x, s'.acc.items, s'.blocks, s'.cells) {
      assert Holds(x, s.acc.items, s.blocks, s.cells);
      assert x !in s.gone;
      assert s.blocks[x / BLOCK_SIZE] in s.next;
    }
  }

  lemma ResetFlag<T>(blocks: seq<Block>, q: nat, k: nat, flags: map<Block, seq<bool>>, gone: set<nat>,
                     v: T, b: Block, i: nat, isNew: bool, p: Producer<T>)
    requires q < |blocks| && k < BLOCK_SIZE && FlagOk(blocks, q, k, flags, gone, ResetFlags(v, b, i, isNew))
    requires b in flags && |flags[b]| == BLOCK_SIZE && i < BLOCK_SIZE
    requires blocks[q] == b ==> !isNew && q == |blocks| - 1
    requires if i + 1 < BLOCK_SIZE then p == ResetFlags(v, b, i + 1, isNew) else !p.ResetFlags?
    requires !isNew && q == |blocks| - 1 ==> blocks[q] == b && forall j :: 0 <= j < i ==> !flags[b][j]
    ensures FlagOk(blocks, q, k, flags[b := flags[b][i := false]], gone, p)
  {}

  lemma MemoryFlags<T>(blocks: seq<Block>, cells: map<Block, seq<Option<T>>>, flags: map<Block, seq<bool>>, b: Block, f: seq<bool>)
    requires MemoryOk(blocks, cells, flags) && |f| == BLOCK_SIZE
    ensures MemoryOk(blocks, cells, flags[b := f])
  {}

  lemma FlagsReset<T>(blocks: seq<Block>, low: int, flags: map<Block, seq<bool>>, gone: set<nat>,
                      v: T, b: Block, i: nat, isNew: bool, p: Producer<T>)
    requires FlagsOk(blocks, low, flags, gone, ResetFlags(v, b, i, isNew))
    requires b in flags && |flags[b]| == BLOCK_SIZE && i < BLOCK_SIZE
    requires forall q :: 0 <= low <= q < |blocks| && blocks[q] == b ==> !isNew && q == |blocks| - 1
    requires if i + 1 < BLOCK_SIZE then p == ResetFlags(v, b, i + 1, isNew) else !p.ResetFlags?
    requires !isNew ==> blocks != [] && blocks[|blocks| - 1] == b && forall j :: 0 <= j < i ==> !flags[b][j]
    ensures FlagsOk(blocks, low, flags[b := flags[b][i := false]], gone, p)
  {
    hide FlagOk;
    var flags' := flags[b := flags[b][i := false]];
    forall q, k | 0 <= low <= q < |blocks| && 0 <= k < BLOCK_SIZE ensures FlagOk(blocks, q, k, flags', gone, p) {
      ResetFlag(blocks, q, k, flags, gone, v, b, i, isNew, p);
    }
  }

  lemma ResetFlagsFlags<T>(s: State<T>, v: T, b: Block, i: nat, isNew: bool)
    requires s.producer == ResetFlags(v, b, i, isNew) && ProducerNow(s) && MemoryOk(s.blocks, s.cells, s.flags)
    requires FlagsOk(s.blocks, Low(s), s.flags, s.gone, s.producer)
    requires RingOk(s.blocks, s.slotsUsed, s.tailBlock, s.next)
    ensures var s' := DoResetFlags(s, v, b, i, isNew);
      FlagsOk(s'.blocks, Low(s'), s'.flags, s'.gone, s'.producer) && MemoryOk(s'.blocks, s'.cells, s'.flags)
  {
    if isNew { NotInRing(s.blocks, s.slotsUsed, s.tailBlock, s.next, b); }
    assert s.blocks != [] ==> 0 <= Low(s) < |s.blocks| && Distinct(s.blocks, Low(s));
    hide RingOk, FlagsOk, MemoryOk;
    MemoryFlags(s.blocks, s.cells, s.flags, b, s.flags[b][i := false]);
    FlagsReset(s.blocks, Low(s), s.flags, s.gone, v, b, i, isNew, DoResetFlags(s, v, b, i, isNew).producer);
  }

  lemma ResetFlagsIndex<T>(s: State<T>, v: T, b: Block, i: nat, isNew: bool)
    requires s.producer == ResetFlags(v, b, i, isNew) && ProducerNow(s)
    requires IndexOk(s.headers, s.slotsUsed, s.prFront, s.blocks, s.producer) && TailOk(s.producer, Tail(s), |s.blocks|)
    ensures var s' := DoResetFlags(s, v, b, i, isNew);
      IndexOk(s'.headers, s'.slotsUsed, s'.prFront, s'.blocks, s'.producer) && TailOk(s'.producer, Tail(s'), |s'.blocks|)
  {}

  lemma ResetFlagsStep<T>(s: State<T>, v: T, b: Block, i: nat, isNew: bool)
    requires ProducerParts(s) && s.producer == ResetFlags(v, b, i, isNew)
    ensures ProducerParts(DoResetFlags(s, v, b, i, isNew))
  {
    hide RingOk, MemoryOk, HeadersOk, IndexOk, TailOk, ItemsOk, LiveOk, FlagsOk;
    ResetFlagsFlags(s, v, b, i, isNew);
    ResetFlagsIndex(s, v, b, i, isNew);
  }

  lemma LinkStep<T>(s: State<T>, v: T, b: Block)
    requires ProducerParts(s) && s.producer == Link(v, b)
    ensures ProducerReady(s) && ProducerParts(DoLink(s, v, b))
  {
    hide RingOk, HeadersOk, IndexOk, ItemsOk;
    RingLink(s.blocks, s.slotsUsed, s.tailBlock, s.next, b);
    var s' := DoLink(s, v, b);
    HeadersLater(s.headers, s.blocks, Low(s), s'.blocks, Low(s'));
    ItemsLater(s.acc.items, s.read, s.blocks, s'.blocks, s.cells);
    LinkIndex(s, s', v, b);
    forall q, k | 0 <= Low(s') <= q < |s'.blocks| && 0 <= k < BLOCK_SIZE
      ensures FlagOk(s'.blocks, q, k, s'.flags, s'.gone, s'.producer)
    {
      if q < |s.blocks| { assert FlagOk(s.blocks, q, k, s.flags, s.gone, s.producer); }
    }
  }

  lemma LinkIndex<T>(s: State<T>, s': State<T>, v: T, b: Block)
    requires IndexOk(s.headers, s.slotsUsed, s.prFront, s.blocks, s.producer) && s.producer == Link(v, b)
    requires s'.headers == s.headers && s'.slotsUsed == s.slotsUsed + 1 && s'.prFront == s.prFront
    requires s'.blocks == s.blocks + [b] && s'.producer == WriteEntry(v)
    ensures IndexOk(s'.headers, s'.slotsUsed, s'.prFront, s'.blocks, s'.producer)
  {
    var h := Current(s);
    forall q | |s'.blocks| - s'.slotsUsed <= q <= h.newest ensures EntryOk(h, q, s'.blocks) {
      assert EntryOk(h, q, s.blocks);
    }
  }

  lemma OtherEntryKept(h: Header, blocks: seq<Block>, q: int, last: nat, e: Entry, lo: nat)
    requires 0 < h.size == |h.entries| && EntryOk(h, q, blocks) && 0 < last - q < h.size
    ensures EntryOk(h.(entries := h.entries[Slot(h, last) := e], lo := lo), q, blocks)
  {
    SlotDistinct(h, q, last);
  }

  lemma WrittenHeader(h: Header, blocks: seq<Block>, low: nat, h': Header)
    requires HeaderOk(h, blocks, low) && h.newest == |blocks| - 2 && |blocks| - low <= h.size && low < |blocks|
    requires forall q :: low <= q <= h.newest ==> EntryOk(h, q, blocks)
    requires var last := |blocks| - 1;
      h' == h.(entries := h.entries[Slot(h, last) := Entry(BLOCK_SIZE * last, blocks[last])], lo := low)
    ensures HeaderOk(h', blocks, low) && EntryOk(h', |blocks| - 1, blocks)
  {
    var last := |blocks| - 1;
    forall q | low <= q <= h.newest ensures EntryOk(h', q, blocks) {
      OtherEntryKept(h, blocks, q, last, Entry(BLOCK_SIZE * last, blocks[last]), low);
    }
  }

  lemma WriteEntryFacts<T>(s: State<T>, v: T)
    requires IndexOk(s.headers, s.slotsUsed, s.prFront, s.blocks, s.producer) && s.producer == WriteEntry(v)
    requires RingOk(s.blocks, s.slotsUsed, s.tailBlock, s.next) && TailOk(s.producer, Tail(s), |s.blocks|)
    ensures ProducerReady(s) && 0 <= Low(s) < |s.blocks| && s.tailBlock == Some(s.blocks[|s.blocks| - 1])
    ensures var h := Current(s);
      && 0 < h.size == |h.entries| && h.newest == |s.blocks| - 2 && s.slotsUsed <= h.size
      && s.prFront == Slot(h, |s.blocks| - 1) && Tail(s) == BLOCK_SIZE * (|s.blocks| - 1)
      && forall q :: Low(s) <= q <= h.newest ==> EntryOk(h, q, s.blocks)
  {
    hide Slot, EntryOk, Distinct;
    SlotRange(Current(s), |s.blocks| - 1);
  }

  lemma WriteEntryHeader<T>(s: State<T>, v: T)
    requires ProducerParts(s) && s.producer == WriteEntry(v)
    ensures ProducerReady(s)
    ensures var h := Current(DoWriteEntry(s, v)); HeaderOk(h, s.blocks, Low(s)) && EntryOk(h, |s.blocks| - 1, s.blocks)
  {
    hide MemoryOk, ItemsOk, LiveOk, FlagsOk, ProducerNow, Slot, EntryOk, Distinct, RingOk, IndexOk, TailOk, HeaderOk;
    WriteEntryFacts(s, v);
    assert HeaderOk(s.headers[|s.headers| - 1], s.blocks, Low(s));
    WrittenHeader(Current(s), s.blocks, Low(s), Current(DoWriteEntry(s, v)));
  }

  lemma WriteEntryStep<T>(s: State<T>, v: T)
    requires ProducerParts(s) && s.producer == WriteEntry(v)
    ensures ProducerReady(s) && ProducerParts(DoWriteEntry(s, v)) && HeadersGrow(s.headers, DoWriteEntry(s, v).headers)
  {
    hide RingOk, MemoryOk, ItemsOk, LiveOk, FlagsOk;
    WriteEntryHeader(s, v);
    var s' := DoWriteEntry(s, v);
    forall i | 0 <= i < |s'.headers| ensures HeaderOk(s'.headers[i], s'.blocks, Low(s')) {
      if i < |s.headers| - 1 { assert HeaderOk(s.headers[i], s.blocks, Low(s)); }
    }
    GrownFlags(s, s');
  }

  lemma FrontStored(was: Header, h: Header, blocks: seq<Block>, low: int, prFront: nat)
    requires HeaderOk(was, blocks, low) && was.lo == low && 0 < |blocks| && was.newest == |blocks| - 2
    requires |blocks| - low <= was.size && EntryOk(was, |blocks| - 1, blocks)
    requires prFront == Slot(was, |blocks| - 1) && h == was.(front := prFront, newest := |blocks| - 1)
    ensures HeaderOk(h, blocks, low) && (prFront + 1) % h.size == Slot(h, |blocks|)
    ensures forall q :: low <= q <= h.newest ==> EntryOk(h, q, blocks)
  {
    SlotShift(was, |blocks| - 1, |blocks|);
    forall q | low <= q <= h.newest ensures EntryOk(h, q, blocks) {
      assert EntryOk(was, q, blocks);
    }
  }

  lemma StoreFrontHeader<T>(s: State<T>, v: T)
    requires ProducerParts(s) && s.producer == StoreFront(v)
    ensures ProducerReady(s)
    ensures var s' := DoStoreFront(s, v); var h := Current(s');
      && HeaderOk(h, s.blocks, Low(s)) && s'.prFront == Slot(h, |s.blocks|)
      && forall q :: Low(s) <= q <= h.newest ==> EntryOk(h, q, s.blocks)
  {
    hide RingOk, MemoryOk, ItemsOk, LiveOk, FlagsOk, ProducerNow;
    assert HeaderOk(s.headers[|s.headers| - 1], s.blocks, Low(s));
    hide HeaderOk, EntryOk, Slot;
    FrontStored(Current(s), Current(DoStoreFront(s, v)), s.blocks, Low(s), s.prFront);
  }

  lemma StoreFrontStep<T>(s: State<T>, v: T)
    requires ProducerParts(s) && s.producer == StoreFront(v)
    ensures ProducerReady(s) && ProducerParts(DoStoreFront(s, v)) && HeadersGrow(s.headers, DoStoreFront(s, v).headers)
  {
    hide RingOk, MemoryOk, ItemsOk, LiveOk, FlagsOk;
    StoreFrontHeader(s, v);
    var s' := DoStoreFront(s, v);
    forall i | 0 <= i < |s'.headers| ensures HeaderOk(s'.headers[i], s'.blocks, Low(s')) {
      if i < |s.headers| - 1 { assert HeaderOk(s.headers[i], s.blocks, Low(s)); }
    }
    GrownFlags(s, s');
  }

  /** Writing a cell that holds no wanted element disturbs none. */
  lemma ItemsElsewhere<T>(items: seq<T>, read: set<nat>, blocks: seq<Block>, cells: map<Block, seq<Option<T>>>,
                          b: Block, i: nat, cell: Option<T>)
    requires ItemsOk(items, read, blocks, cells) && b in cells && i < |cells[b]|
    requires forall x: nat :: x < |items| && x !in read && x / BLOCK_SIZE < |blocks| && blocks[x / BLOCK_SIZE] == b ==> x % BLOCK_SIZE != i
    ensures ItemsOk(items, read, blocks, cells[b := cells[b][i := cell]])
  {
    forall x | 0 <= x < |items| && x !in read ensures Holds(x, items, blocks, cells[b := cells[b][i := cell]]) {
      assert Holds(x, items, blocks, cells);
    }
  }

  lemma TargetCellFree(n: nat, gone: set<nat>, read: set<nat>, blocks: seq<Block>, low: int, x: nat)
    requires LiveOk(n, gone, read, |blocks|, low) && Distinct(blocks, low) && 0 <= low < |blocks| && x < n && x !in read
    requires BLOCK_SIZE * (|blocks| - 1) <= n < BLOCK_SIZE * |blocks| && x / BLOCK_SIZE < |blocks|
    requires blocks[x / BLOCK_SIZE] == blocks[|blocks| - 1]
    ensures x % BLOCK_SIZE != n % BLOCK_SIZE
  {
    assert x !in gone;
    SameBlock(blocks, low, x / BLOCK_SIZE, |blocks| - 1);
  }

  lemma WriteItemItems<T>(s: State<T>, v: T)
    requires s.producer == WriteItem(v) && TailOk(s.producer, Tail(s), |s.blocks|)
    requires ItemsOk(s.acc.items, s.read, s.blocks, s.cells) && MemoryOk(s.blocks, s.cells, s.flags)
    requires LiveOk(Tail(s), s.gone, s.read, |s.blocks|, Low(s)) && RingOk(s.blocks, s.slotsUsed, s.tailBlock, s.next)
    ensures ProducerReady(s)
    ensures var s' := DoWriteItem(s, v);
      ItemsOk(s'.acc.items, s'.read, s'.blocks, s'.cells) && MemoryOk(s'.blocks, s'.cells, s'.flags) && ProducerNow(s')
  {
    var b := s.blocks[|s.blocks| - 1];
    assert s.tailBlock == Some(b) && Distinct(s.blocks, Low(s)) && 0 <= Low(s) < |s.blocks|;
    hide RingOk, Distinct, ItemsOk, LiveOk;
    forall x: nat | x < Tail(s) && x !in s.read && x / BLOCK_SIZE < |s.blocks| && s.blocks[x / BLOCK_SIZE] == b
      ensures x % BLOCK_SIZE != Tail(s) % BLOCK_SIZE
    {
      TargetCellFree(Tail(s), s.gone, s.read, s.blocks, Low(s), x);
    }
    ItemsElsewhere(s.acc.items, s.read, s.blocks, s.cells, b, Tail(s) % BLOCK_SIZE, Some(v));
  }

  lemma WriteItemStep<T>(s: State<T>, v: T)
    requires ProducerParts(s) && s.producer == WriteItem(v)
    ensures ProducerReady(s) && ProducerParts(DoWriteItem(s, v))
  {
    WriteItemItems(s, v);
    GrownFlags(s, DoWriteItem(s, v));
    hide HeadersOk, ItemsOk, LiveOk, FlagsOk, RingOk, MemoryOk, ProducerNow;
  }

  lemma StoreTailStep<T>(s: State<T>, v: T)
    requires ProducerParts(s) && s.producer == StoreTail(v)
    ensures ProducerParts(s.(acc := A.Publish(s.acc, [v]), producer := Resting))
  {
    hide MemoryOk, HeadersOk;
    var s' := s.(acc := A.Publish(s.acc, [v]), producer := Resting);
    forall x | 0 <= x < Tail(s') && x !in s'.read ensures Holds(x, s'.acc.items, s'.blocks, s'.cells) {
      if x < Tail(s) { assert Holds(x, s.acc.items, s.blocks, s.cells); }
    }
    assert Tail(s) / BLOCK_SIZE == |s.blocks| - 1;
    GrownFlags(s, s');
  }

  // ---- Every step keeps the invariant ----

  /** A producer step leaves the consumers alone, and what they rely on only grows. */
  ghost predicate ProducerFrame<T(!new)>(s: State<T>, s': State<T>) {
    && s'.pc == s.pc && s'.owner == s.owner && s'.gone == s.gone && s'.read == s.read && s'.results == s.results
    && s.blocks <= s'.blocks && HeadersGrow(s.headers, s'.headers)
    && (s'.acc == s.acc || exists v :: s'.acc == A.Publish(s.acc, [v]))
  }

  lemma RestingStep<T(!new)>(s: State<T>, v: T)
    requires ProducerParts(s) && s.producer.Resting?
    ensures ProducerParts(s.(producer := Branch(v))) && ProducerFrame(s, s.(producer := Branch(v)))
  {
    hide RingOk, MemoryOk, HeadersOk, ItemsOk, LiveOk, FlagsOk;
    QuietProducer(s, Branch(v));
  }

  lemma CheckEmptyStep<T(!new)>(s: State<T>, v: T, i: nat)
    requires ProducerParts(s) && s.producer == CheckEmpty(v, i)
    ensures ProducerReady(s) && ProducerParts(DoCheckEmpty(s, v, i)) && ProducerFrame(s, DoCheckEmpty(s, v, i))
  {
    hide RingOk, MemoryOk, HeadersOk, IndexOk, TailOk, ItemsOk, LiveOk, FlagsOk;
    if s.flags[s.next[s.tailBlock.value]][i] && i + 1 == BLOCK_SIZE { ReuseStep(s, v, i); }
    else { LookAheadStep(s, v, i); }
  }

  lemma GrowOrGiveUp<T(!new)>(s: State<T>, s': State<T>, v: T)
    requires ProducerParts(s) && s.producer == GrowIndex(v) && ProducerNext(s, s')
    ensures ProducerParts(s') && ProducerFrame(s, s')
  {
    hide RingOk, MemoryOk, HeadersOk, IndexOk, TailOk, ItemsOk, LiveOk, FlagsOk, ProducerNow;
    if s' == s.(producer := Resting) { GiveUpStep(s); } else { GrowIndexStep(s, v); }
  }

  lemma RequisitionOrGiveUp<T(!new)>(s: State<T>, s': State<T>, v: T)
    requires ProducerParts(s) && s.producer == Requisition(v) && ProducerNext(s, s')
    ensures ProducerParts(s') && ProducerFrame(s, s')
  {
    hide RingOk, MemoryOk, HeadersOk, IndexOk, TailOk, ItemsOk, LiveOk, FlagsOk, ProducerNow;
    if s' == s.(producer := Resting) { GiveUpStep(s); }
    else {
      var b, cells, flags :| Requisitioned(s, s', v, b, cells, flags);
      RequisitionStep(s, s', v, b, cells, flags);
    }
  }

  lemma MovesOnly<T(!new)>(s: State<T>, p: Producer<T>)
    ensures ProducerFrame(s, s.(producer := p))
  {}

  lemma LookParts<T(!new)>(s: State<T>, s': State<T>)
    requires ProducerParts(s) && s.acc.head <= Tail(s) && ProducerNext(s, s')
    requires s.producer.Resting? || s.producer.Branch? || s.producer.CheckEmpty? || s.producer.CheckRoom?
    ensures ProducerParts(s') && ProducerFrame(s, s')
  {
    hide ProducerParts, ProducerFrame, ProducerReady;
    match s.producer {
      case Resting => var v :| s' == s.(producer := Branch(v)); RestingStep(s, v);
      case Branch(v) => BranchStep(s, v); MovesOnly(s, s'.producer);
      case CheckEmpty(v, i) => hide DoCheckEmpty; CheckEmptyStep(s, v, i);
      case CheckRoom(v) => CheckRoomStep(s, v); MovesOnly(s, s'.producer);
    }
  }

  lemma NewBlockParts<T(!new)>(s: State<T>, s': State<T>)
    requires ProducerParts(s) && ProducerNext(s, s')
    requires s.producer.GrowIndex? || s.producer.Requisition? || s.producer.ResetFlags? || s.producer.Link?
    ensures ProducerParts(s') && ProducerFrame(s, s')
  {
    hide RingOk, MemoryOk, HeadersOk, IndexOk, TailOk, ItemsOk, LiveOk, FlagsOk, ProducerNow, ProducerParts;
    match s.producer {
      case GrowIndex(v) => GrowOrGiveUp(s, s', v);
      case Requisition(v) => RequisitionOrGiveUp(s, s', v);
      case ResetFlags(v, b, i, isNew) => ResetFlagsStep(s, v, b, i, isNew);
      case Link(v, b) => LinkStep(s, v, b);
    }
  }

  lemma FillParts<T(!new)>(s: State<T>, s': State<T>)
    requires ProducerParts(s) && ProducerNext(s, s')
    requires s.producer.WriteEntry? || s.producer.StoreFront? || s.producer.WriteItem? || s.producer.StoreTail?
    ensures ProducerParts(s') && ProducerFrame(s, s')
  {
    hide RingOk, MemoryOk, HeadersOk, IndexOk, TailOk, ItemsOk, LiveOk, FlagsOk, ProducerNow, ProducerParts;
    match s.producer {
      case WriteEntry(v) => WriteEntryStep(s, v);
      case StoreFront(v) => StoreFrontStep(s, v);
      case WriteItem(v) => WriteItemStep(s, v);
      case StoreTail(v) => StoreTailStep(s, v);
    }
  }

  lemma ProducerAccounting<T(!new)>(s: State<T>, s': State<T>)
    requires AccountingOk(s.acc, s.owner, s.pc, s.read) && ResultsOk(s.results, s.acc.items) && ProducerFrame(s, s')
    ensures AccountingOk(s'.acc, s'.owner, s'.pc, s'.read) && ResultsOk(s'.results, s'.acc.items)
    ensures s.acc.items <= s'.acc.items
  {
    if s'.acc != s.acc {
      var v :| s'.acc == A.Publish(s.acc, [v]);
      A.PublishKeeps(s.acc, [v]);
    }
  }

  lemma ProducerParted<T(!new)>(s: State<T>, s': State<T>)
    requires ProducerParts(s) && s.acc.head <= Tail(s) && ProducerNext(s, s')
    ensures ProducerParts(s') && ProducerFrame(s, s')
  {
    hide ProducerParts, ProducerFrame, ProducerReady;
    match s.producer {
      case Resting => LookParts(s, s');
      case Branch(_) => LookParts(s, s');
      case CheckEmpty(_, _) => LookParts(s, s');
      case CheckRoom(_) => LookParts(s, s');
      case GrowIndex(_) => NewBlockParts(s, s');
      case Requisition(_) => NewBlockParts(s, s');
      case ResetFlags(_, _, _, _) => NewBlockParts(s, s');
      case Link(_, _) => NewBlockParts(s, s');
      case WriteEntry(_) => FillParts(s, s');
      case StoreFront(_) => FillParts(s, s');
      case WriteItem(_) => FillParts(s, s');
      case StoreTail(_) => FillParts(s, s');
    }
  }

  lemma ProducerKeeps<T(!new)>(s: State<T>, s': State<T>)
    requires Inv(s) && ProducerNext(s, s')
    ensures Inv(s') && ProducerFrame(s, s')
  {
    A.HeadBehindTail(s.acc);
    hide RingOk, MemoryOk, HeadersOk, IndexOk, TailOk, ItemsOk, LiveOk, FlagsOk, ProducerNow, ProducerNext;
    ProducerParted(s, s');
    ProducerAccounting(s, s');
    ThreadsProducer(s, s');
  }

  lemma InitInv<T(!new)>(s: State<T>)
    requires Init(s)
    ensures Inv(s)
  {}

  lemma AccountingKeeps<T>(s: State<T>, t: Tid)
    requires Inv(s) && t in s.acc.pc && t in s.pc && !s.acc.pc[t].Idle? && A.PcOk(s.acc, s.acc.pc[t])
    ensures Inv(AccountingStep(s, t))
  {
    hide RingOk, MemoryOk, HeadersOk, IndexOk, TailOk, ProducerNow, ItemsOk, FlagsOk, ResultsOk, ThreadsOk, AccountingOk;
    assert s.gone <= s.read;
    hide LiveOk;
    AccountingStatic(s, t);
    AccountingThreads(s, t);
    hide Static;
  }

  lemma NextKeeps<T(!new)>(s: State<T>, s': State<T>)
    requires Inv(s) && Next(s, s')
    ensures Inv(s')
  {
    hide Inv, ProducerNext, ConsumerStep, AccountingStep, ConsumerReady;
    if ProducerNext(s, s') {
      ProducerKeeps(s, s');
    } else if t, max :| t in s.acc.pc && s.acc.pc[t].Idle? && t in s.pc && s.pc[t].NoShare?
                        && s' == s.(acc := A.Call(s.acc, t, max)) {
      CallStep(s, t, max);
    } else if t :| t in s.acc.pc && t in s.pc && !s.acc.pc[t].Idle? && A.PcOk(s.acc, s.acc.pc[t])
                   && s' == AccountingStep(s, t) {
      AccountingKeeps(s, t);
    } else {
      var t :| t in s.pc && !s.pc[t].NoShare? && ConsumerReady(s, s.pc[t]) && s' == ConsumerStep(s, t);
      ConsumerKeeps(s, t);
    }
  }

  lemma {:induction false} RunInv<T(!new)>(run: seq<State<T>>, at: nat)
    requires IsRun(run) && at < |run|
    ensures Inv(run[at])
  {
    hide Inv, Next;
    if at == 0 {
      InitInv(run[0]);
    } else {
      RunInv(run, at - 1);
      assert Next(run[at - 1], run[at - 1 + 1]);
      NextKeeps(run[at - 1], run[at]);
    }
  }
}
