/** The implicit producer's block index: a circular table of shared entries that consumers clear in
    any order, that the producer extends, rewinds and doubles. */
module ImplicitIndex {

  import opened Wrappers
  import opened Arithmetic

  type Block = nat

  const BLOCK_SIZE: nat := 32

  /** Block bases are multiples of the block size, so an odd number marks an entry never used. */
  const INVALID_BLOCK_BASE: nat := 1

  /** A fresh entry has an invalid key and whatever value was in memory. */
  class BlockIndexEntry {
    var key: nat
    var value: Option<Block>

    constructor ()
      ensures key == INVALID_BLOCK_BASE
    {
      key := INVALID_BLOCK_BASE;
    }
  }

  /** What an entry holds. */
  datatype Cell = Cell(key: nat, value: Option<Block>) {
    predicate Occupied() { key != INVALID_BLOCK_BASE && value.Some? }
  }

  function Cells(table: seq<BlockIndexEntry>): (cells: seq<Cell>)
    reads table
    ensures |cells| == |table| && forall i :: 0 <= i < |cells| ==> cells[i] == Cell(table[i].key, table[i].value)
  {
    seq(|table|, i requires 0 <= i < |table| reads table => Cell(table[i].key, table[i].value))
  }

  // ---- Slots of a circular table ----

  /** Where block number q belongs. Table sizes are powers of two, so `x & (size - 1)` is the remainder. */
  function Slot(q: int, shift: int, size: nat): (r: nat)
    requires 0 < size
    ensures r < size
  {
    (q - shift) % size
  }

  /** Moving d slots along the circle. */
  function Walk(slot: int, d: int, size: nat): (r: nat)
    requires 0 < size
    ensures r < size
  {
    (slot + d) % size
  }

  /** From the slot of p, walking q - p places leads to the slot of q. */
  lemma SlotWalk(p: int, q: int, shift: int, size: nat)
    requires 0 < size
    ensures Walk(Slot(p, shift, size), q - p, size) == Slot(q, shift, size)
  {
    ModShift(p - shift, q - p, size);
  }

  lemma SlotDistinct(p: int, q: int, shift: int, size: nat)
    requires 0 < size && 0 < q - p < size
    ensures Slot(p, shift, size) != Slot(q, shift, size)
  {
    ModDistinct(p - shift, q - shift, size);
  }

  lemma SmallSlot(q: int, shift: int, size: nat)
    requires shift <= q < shift + size
    ensures Slot(q, shift, size) == q - shift
  {
    ModUnique(q - shift, size, q - shift, 0);
  }

  /** Numbers a table length apart share a slot. */
  lemma SlotWraps(q: int, shift: int, size: nat)
    requires 0 < size
    ensures Slot(q - size, shift, size) == Slot(q, shift, size)
  {
    SlotWalk(q, q - size, shift, size);
    var x := Slot(q, shift, size);
    ModUnique(x - size, size, x, -1);
  }

  // ---- What the index stands for ----

  /** The table, how many block numbers have been entered and not rewound (number q starts at element
      32q), the blocks that must be found, by number, and whether the newest entry is reserved but
      has no block yet. */
  datatype View = View(cells: seq<Cell>, shift: int, inserted: nat, live: map<nat, Block>, reserved: bool)

  /** The first element of block number q, and back. */
  function Base(q: nat): nat { BLOCK_SIZE * q }

  function Number(key: nat): nat { key / BLOCK_SIZE }

  lemma NumberOfBase(q: nat)
    ensures Number(Base(q)) == q && Base(q) != INVALID_BLOCK_BASE
  {}

  function At(v: View, q: int): nat
    requires v.cells != []
  {
    Slot(q, v.shift, |v.cells|)
  }

  /** A key that was ever stored in a slot belongs there. */
  predicate KeyOk(v: View, i: nat)
    requires i < |v.cells|
  {
    var key := v.cells[i].key;
    key == INVALID_BLOCK_BASE || (key == Base(Number(key)) && At(v, Number(key)) == i)
  }

  ghost predicate LiveOk(v: View, q: nat)
    requires v.cells != [] && q in v.live
  {
    && v.inserted - |v.cells| <= q < v.inserted - (if v.reserved then 1 else 0)
    && v.cells[At(v, q)] == Cell(Base(q), Some(v.live[q]))
  }

  /** From the oldest live block to the newest number every slot carries its own key. */
  ghost predicate UsedOk(v: View)
    requires v.cells != []
  {
    && (forall p, q :: p in v.live && p <= q < v.inserted ==> v.cells[At(v, q)].key == Base(q))
    && (v.reserved ==> 0 < v.inserted && v.cells[At(v, v.inserted - 1)].key == Base(v.inserted - 1))
  }

  /** A slot that looks occupied is. */
  ghost predicate OccupiedOk(v: View, i: nat)
    requires i < |v.cells|
  {
    v.cells[i].Occupied() && !(v.reserved && i == At(v, v.inserted - 1)) ==> Number(v.cells[i].key) in v.live
  }

  ghost predicate Ok(v: View) {
    && v.cells != []
    && (forall i :: 0 <= i < |v.cells| ==> KeyOk(v, i))
    && (forall q :: q in v.live ==> LiveOk(v, q))
    && UsedOk(v)
    && (forall i :: 0 <= i < |v.cells| ==> OccupiedOk(v, i))
  }

  // ---- The operations on views ----

  /** Reserve the slot after the tail for the next block number. */
  ghost function Inserted(v: View): View
    requires v.cells != []
  {
    var i := At(v, v.inserted);
    v.(cells := v.cells[i := v.cells[i].(key := Base(v.inserted))], inserted := v.inserted + 1, reserved := true)
  }

  ghost function Published(v: View, b: Block): View
    requires v.cells != [] && 0 < v.inserted
  {
    var i := At(v, v.inserted - 1);
    v.(cells := v.cells[i := v.cells[i].(value := Some(b))], live := v.live[v.inserted - 1 := b], reserved := false)
  }

  ghost function Cancelled(v: View): View
    requires v.cells != [] && 0 < v.inserted
  {
    var i := At(v, v.inserted - 1);
    v.(cells := v.cells[i := v.cells[i].(value := None)], inserted := v.inserted - 1, reserved := false)
  }

  ghost function Released(v: View, q: nat): View
    requires v.cells != []
  {
    var i := At(v, q);
    v.(cells := v.cells[i := v.cells[i].(value := None)], live := map p | p in v.live && p != q :: v.live[p])
  }

  /** Doubling moves the slot after the tail to slot 0 and adds as many fresh entries. */
  ghost predicate Grown(v: View, v': View) {
    && v.cells != [] && !v.reserved && v.inserted - |v.cells| in v.live
    && v' == v.(cells := v'.cells, shift := v.inserted - |v.cells|) && |v'.cells| == 2 * |v.cells|
    && (forall i :: 0 <= i < |v.cells| ==> v'.cells[i] == v.cells[Walk(At(v, v.inserted - 1), 1 + i, |v.cells|)])
    && (forall i :: |v.cells| <= i < |v'.cells| ==> v'.cells[i].key == INVALID_BLOCK_BASE)
  }

  /** Exactly the entries of the block numbers from `first` up to `end` have been emptied. */
  ghost predicate Cleared(v: View, cells: seq<Cell>, first: nat, end: nat)
    requires v.cells != []
  {
    && |cells| == |v.cells|
    && (forall i :: 0 <= i < |cells| ==> ClearedAt(v, cells, first, end, i))
    && (forall q :: first <= q < end ==> cells[At(v, q)].value.None?)
  }

  ghost predicate ClearedAt(v: View, cells: seq<Cell>, first: nat, end: nat, i: nat)
    requires i < |cells| == |v.cells|
  {
    cells[i] == v.cells[i] || (cells[i] == v.cells[i].(value := None) && exists q :: first <= q < end && At(v, q) == i)
  }

  /** Blocks `first` and later are taken back. */
  ghost predicate RolledBack(v: View, v': View, first: nat) {
    && v.cells != [] && first <= v.inserted && !v.reserved
    && v' == v.(cells := v'.cells, inserted := first, live := map q | q in v.live && q < first :: v.live[q])
    && Cleared(v, v'.cells, first, v.inserted)
  }

  // ---- Every operation keeps the view in order ----

  /** The slot after the tail is free unless the block a full turn older is still live. */
  lemma NextSlotFree(v: View)
    requires Ok(v) && !v.reserved && !v.cells[At(v, v.inserted)].Occupied()
    ensures v.inserted - |v.cells| !in v.live
  {
    hide Slot, Number, Base;
    NumberOfBase(if 0 <= v.inserted - |v.cells| then v.inserted - |v.cells| else 0);
    SlotWraps(v.inserted, v.shift, |v.cells|);
    var q := v.inserted - |v.cells|;
    assert q in v.live ==> LiveOk(v, q);
  }

  lemma InsertOk(v: View)
    requires Ok(v) && !v.reserved && !v.cells[At(v, v.inserted)].Occupied()
    ensures Ok(Inserted(v))
  {
    hide Slot, Walk, Number, Base;
    NumberOfBase(v.inserted);
    NextSlotFree(v);
    var v' := Inserted(v);
    forall p, q | p in v.live && p <= q < v'.inserted ensures v'.cells[At(v', q)].key == Base(q) {
      assert LiveOk(v, p);
      if q < v.inserted { SlotDistinct(q, v.inserted, v.shift, |v.cells|); }
    }
    forall q | q in v'.live ensures LiveOk(v', q) {
      assert LiveOk(v, q);
      SlotDistinct(q, v.inserted, v.shift, |v.cells|);
    }
    forall i | 0 <= i < |v'.cells| ensures KeyOk(v', i) && OccupiedOk(v', i) { assert KeyOk(v, i) && OccupiedOk(v, i); }
  }

  lemma PublishOk(v: View, b: Block)
    requires Ok(v) && v.reserved
    ensures Ok(Published(v, b))
  {
    hide Slot, Walk, Number, Base;
    NumberOfBase(v.inserted - 1);
    var v' := Published(v, b);
    forall q | q in v'.live ensures LiveOk(v', q) {
      if q != v.inserted - 1 {
        assert LiveOk(v, q);
        SlotDistinct(q, v.inserted - 1, v.shift, |v.cells|);
      }
    }
    forall i | 0 <= i < |v'.cells| ensures KeyOk(v', i) && OccupiedOk(v', i) { assert KeyOk(v, i) && OccupiedOk(v, i); }
  }

  lemma CancelOk(v: View)
    requires Ok(v) && v.reserved
    ensures Ok(Cancelled(v))
  {
    hide Slot, Walk, Number, Base;
    NumberOfBase(v.inserted - 1);
    var v' := Cancelled(v);
    forall q | q in v'.live ensures LiveOk(v', q) {
      assert LiveOk(v, q);
      SlotDistinct(q, v.inserted - 1, v.shift, |v.cells|);
    }
    forall i | 0 <= i < |v'.cells| ensures KeyOk(v', i) && OccupiedOk(v', i) { assert KeyOk(v, i) && OccupiedOk(v, i); }
  }

  lemma OneSlotEach(v: View, p: nat, q: nat)
    requires Ok(v) && p in v.live && q in v.live && p < q
    ensures At(v, p) != At(v, q)
  {
    hide Slot, Walk, Number, Base;
    assert LiveOk(v, p) && LiveOk(v, q);
    SlotDistinct(p, q, v.shift, |v.cells|);
  }

  lemma ReleaseOk(v: View, q: nat)
    requires Ok(v) && q in v.live
    ensures Ok(Released(v, q))
  {
    hide Slot, Walk, Number, Base;
    NumberOfBase(q);
    var v' := Released(v, q);
    assert LiveOk(v, q);
    forall p | p in v'.live ensures LiveOk(v', p) {
      assert LiveOk(v, p);
      if p < q { OneSlotEach(v, p, q); } else { OneSlotEach(v, q, p); }
    }
    forall i | 0 <= i < |v'.cells| ensures KeyOk(v', i) && OccupiedOk(v', i) { assert KeyOk(v, i) && OccupiedOk(v, i); }
    if v.reserved { SlotDistinct(q, v.inserted - 1, v.shift, |v.cells|); }
  }

  /** The doubled table keeps each number of the last turn at its place in the old order. */
  lemma GrownSlot(v: View, v': View, q: int)
    requires Grown(v, v') && v.inserted - |v.cells| <= q < v.inserted
    ensures At(v', q) == q - v'.shift && v'.cells[At(v', q)] == v.cells[At(v, q)]
  {
    SmallSlot(q, v'.shift, |v'.cells|);
    SlotWalk(v.inserted - 1, q + |v.cells|, v.shift, |v.cells|);
    SlotWraps(q + |v.cells|, v.shift, |v.cells|);
    hide Slot, Walk, Number, Base;
  }

  lemma GrownSlots(v: View, v': View)
    requires Ok(v) && Grown(v, v')
    ensures forall q :: v.inserted - |v.cells| <= q < v.inserted ==>
      At(v', q) == q - v'.shift && v'.cells[At(v', q)] == v.cells[At(v, q)] && v.cells[At(v, q)].key == Base(q)
  {
    assert LiveOk(v, v.inserted - |v.cells|);
    hide Slot, Walk, Number, Base;
    forall q | v.inserted - |v.cells| <= q < v.inserted
      ensures At(v', q) == q - v'.shift && v'.cells[At(v', q)] == v.cells[At(v, q)] && v.cells[At(v, q)].key == Base(q)
    {
      GrownSlot(v, v', q);
    }
  }

  lemma GrowOk(v: View, v': View)
    requires Ok(v) && Grown(v, v')
    ensures Ok(v') && v'.cells[At(v', v'.inserted)].key == INVALID_BLOCK_BASE
    ensures At(v', v'.inserted - 1) == |v.cells| - 1
  {
    hide Slot, Walk, Number, Base;
    var n := |v.cells|;
    assert LiveOk(v, v.inserted - n);
    SmallSlot(v.inserted, v'.shift, 2 * n);
    GrownSlots(v, v');
    forall i | 0 <= i < |v'.cells| ensures KeyOk(v', i) && OccupiedOk(v', i) {
      if i < n {
        var q := v'.shift + i;
        assert At(v', q) == i && v'.cells[i] == v.cells[At(v, q)];
        assert OccupiedOk(v, At(v, q));
        NumberOfBase(q);
      }
    }
    forall q | q in v'.live ensures LiveOk(v', q) { assert LiveOk(v, q); }
    assert UsedOk(v') by { assert forall p :: p in v.live ==> LiveOk(v, p); }
  }

  lemma RollBackOk(v: View, v': View, first: nat)
    requires Ok(v) && RolledBack(v, v', first)
    ensures Ok(v')
  {
    hide Slot, Walk, Number, Base;
    ClearedKeys(v, v'.cells, first, v.inserted);
    forall q | q in v'.live ensures LiveOk(v', q) {
      assert LiveOk(v, q);
      NumberOfBase(q);
      var i := At(v, q);
      assert ClearedAt(v, v'.cells, first, v.inserted, i);
      if p :| first <= p < v.inserted && At(v, p) == i { SlotDistinct(q, p, v.shift, |v.cells|); }
    }
    forall i | 0 <= i < |v'.cells| ensures KeyOk(v', i) && OccupiedOk(v', i) {
      assert KeyOk(v, i) && OccupiedOk(v, i) && ClearedAt(v, v'.cells, first, v.inserted, i);
      var q := Number(v.cells[i].key);
      assert v'.cells[i].Occupied() ==> q in v.live && At(v, q) == i && LiveOk(v, q);
    }
  }

  /** An occupied slot after the tail holds the block a full turn older. */
  lemma FullTurn(v: View)
    requires Ok(v) && !v.reserved && v.cells[At(v, v.inserted)].Occupied()
    ensures v.inserted - |v.cells| in v.live
  {
    hide Slot, Walk, Number, Base;
    var i := At(v, v.inserted);
    assert KeyOk(v, i) && OccupiedOk(v, i);
    var q := Number(v.cells[i].key);
    assert LiveOk(v, q);
    if q != v.inserted - |v.cells| { SlotDistinct(q, v.inserted, v.shift, |v.cells|); }
  }

  // ---- Lookup ----

  /** The arithmetic of the lookup: from any slot whose key has been set, the distance between the
      bases leads to the slot of the number asked for. */
  lemma LookupSlot(v: View, from: nat, q: nat)
    requires Ok(v) && from < |v.cells| && v.cells[from].key != INVALID_BLOCK_BASE
    ensures Walk(from, (Base(q) - v.cells[from].key) / BLOCK_SIZE, |v.cells|) == At(v, q)
  {
    hide Slot, Walk;
    assert KeyOk(v, from);
    var p := Number(v.cells[from].key);
    assert (Base(q) - Base(p)) / BLOCK_SIZE == q - p;
    SlotWalk(p, q, v.shift, |v.cells|);
  }

  // ---- Any sequence of operations ----

  ghost predicate Next(v: View, v': View) {
    v.cells != [] &&
    (|| (!v.reserved && !v.cells[At(v, v.inserted)].Occupied() && v' == Inserted(v))
     || (v.reserved && 0 < v.inserted && exists b :: v' == Published(v, b))
     || (v.reserved && 0 < v.inserted && v' == Cancelled(v))
     || (exists q :: q in v.live && v' == Released(v, q))
     || Grown(v, v')
     || (exists first :: RolledBack(v, v', first)))
  }

  lemma NextOk(v: View, v': View)
    requires Ok(v) && Next(v, v')
    ensures Ok(v')
    ensures forall q :: q in v.live && q in v'.live ==> v'.live[q] == v.live[q]
  {
    hide Ok, Slot;
    if !v.reserved && !v.cells[At(v, v.inserted)].Occupied() && v' == Inserted(v) {
      InsertOk(v);
    } else if v.reserved && 0 < v.inserted && exists b :: v' == Published(v, b) {
      var b :| v' == Published(v, b);
      PublishOk(v, b);
      NewestNotLive(v);
    } else if v.reserved && 0 < v.inserted && v' == Cancelled(v) {
      CancelOk(v);
    } else if q :| q in v.live && v' == Released(v, q) {
      ReleaseOk(v, q);
    } else if Grown(v, v') {
      GrowOk(v, v');
    } else {
      var first :| RolledBack(v, v', first);
      RollBackOk(v, v', first);
    }
  }

  lemma NewestNotLive(v: View)
    requires Ok(v) && v.reserved && 0 < v.inserted
    ensures v.inserted - 1 !in v.live
  {}

  ghost predicate IsRun(run: seq<View>) {
    && run != [] && Ok(run[0])
    && forall i :: 0 <= i < |run| - 1 ==> Next(run[i], run[i + 1])
  }

  /** As long as a block is not released or taken back, whatever is inserted, cancelled, released,
      rolled back or doubled meanwhile, its entry keeps its key and its block, and the lookup finds
      it from any slot that has been used. */
  lemma {:induction false} FoundUntilReleased(run: seq<View>, at: nat, q: nat)
    requires IsRun(run) && at < |run| && forall i :: 0 <= i <= at ==> q in run[i].live
    ensures Ok(run[at]) && run[at].live[q] == run[0].live[q]
    ensures run[at].cells != [] && run[at].cells[At(run[at], q)] == Cell(Base(q), Some(run[0].live[q]))
    ensures forall from :: 0 <= from < |run[at].cells| && run[at].cells[from].key != INVALID_BLOCK_BASE ==>
      Walk(from, (Base(q) - run[at].cells[from].key) / BLOCK_SIZE, |run[at].cells|) == At(run[at], q)
  {
    hide Ok, Next, At, Walk, Base;
    if at > 0 {
      FoundUntilReleased(run, at - 1, q);
      assert Next(run[at - 1], run[at - 1 + 1]);
      NextOk(run[at - 1], run[at]);
    }
    LiveCell(run[at], q);
    forall from | 0 <= from < |run[at].cells| && run[at].cells[from].key != INVALID_BLOCK_BASE
      ensures Walk(from, (Base(q) - run[at].cells[from].key) / BLOCK_SIZE, |run[at].cells|) == At(run[at], q)
    {
      LookupSlot(run[at], from, q);
    }
  }

  // ---- The index itself ----

  /** The first half of a doubled table is the old one, the slot after its tail first. */
  ghost predicate Shares(was: seq<BlockIndexEntry>, now: seq<BlockIndexEntry>, tail: nat) {
    was != [] && |now| == 2 * |was| && forall j :: 0 <= j < |was| ==> now[j] == was[Walk(tail, 1 + j, |was|)]
  }

  class Index {
    var capacity: nat
    var tail: nat
    var index: array<BlockIndexEntry>
    var nextBlockIndexCapacity: nat

    ghost var shift: int
    ghost var inserted: nat
    ghost var live: map<nat, Block>
    ghost var reserved: bool

    ghost function Abs(): View
      reads this, index, index[..]
    {
      View(Cells(index[..]), shift, inserted, live, reserved)
    }

    ghost predicate Valid()
      reads this, index, index[..]
    {
      && 0 < capacity == index.Length && nextBlockIndexCapacity == 2 * capacity
      && (forall i, j :: 0 <= i < j < capacity ==> index[i] != index[j])
      && tail == Slot(inserted - 1, shift, capacity)
      && Ok(Abs())
    }

    /** Copy the table in order, oldest slot first. */
    method CopyTable(table: array<BlockIndexEntry>)
      requires 0 < capacity == index.Length && tail < capacity && table.Length == 2 * capacity && table != index
      modifies table
      ensures forall j :: 0 <= j < capacity ==> table[j] == index[Walk(tail, 1 + j, capacity)]
    {
      hide Slot, Walk;
      var n := capacity;
      var prevPos := tail;
      var i := 0;
      WalkNowhere(tail, n);
      while i < n
        invariant 0 <= i <= n && prevPos == Walk(tail, i, n)
        invariant forall j :: 0 <= j < i ==> table[j] == index[Walk(tail, 1 + j, n)]
      {
        WalkOn(tail, i, n);
        prevPos := Walk(prevPos, 1, n);
        table[i] := index[prevPos];
        i := i + 1;
      }
    }

    /** Fill the second half with fresh entries. */
    method FillTable(table: array<BlockIndexEntry>)
      requires table.Length == 2 * capacity
      modifies table
      ensures forall j :: 0 <= j < capacity ==> table[j] == old(table[j])
      ensures forall j :: capacity <= j < 2 * capacity ==> fresh(table[j]) && table[j].key == INVALID_BLOCK_BASE
      ensures forall j, k :: capacity <= j < k < 2 * capacity ==> table[j] != table[k]
    {
      var i := capacity;
      while i < 2 * capacity
        invariant capacity <= i <= 2 * capacity
        invariant forall j :: 0 <= j < capacity ==> table[j] == old(table[j])
        invariant forall j :: capacity <= j < i ==> fresh(table[j]) && table[j].key == INVALID_BLOCK_BASE
        invariant forall j, k :: capacity <= j < k < i ==> table[j] != table[k]
      {
        table[i] := new BlockIndexEntry();
        i := i + 1;
      }
    }

    method BuildTable() returns (table: array<BlockIndexEntry>)
      requires 0 < capacity == index.Length && tail < capacity
      ensures fresh(table) && table.Length == 2 * capacity && Shares(index[..], table[..], tail)
      ensures forall j :: capacity <= j < 2 * capacity ==> fresh(table[j]) && table[j].key == INVALID_BLOCK_BASE
      ensures forall j, k :: capacity <= j < k < 2 * capacity ==> table[j] != table[k]
    {
      hide Slot, Walk;
      var filler := index[0];
      table := new BlockIndexEntry[2 * capacity](_ => filler);
      CopyTable(table);
      FillTable(table);
    }

    /** Double the table. Entries are shared with the old table, not copied. */
    method NewBlockIndex(mallocFails: bool) returns (ok: bool)
      requires Valid() && !reserved && inserted - capacity in live
      modifies this
      ensures Valid() && ok == !mallocFails
      ensures !ok ==> index == old(index) && Abs() == old(Abs())
      ensures ok ==> fresh(index) && Grown(old(Abs()), Abs())
      ensures ok ==> capacity == 2 * old(capacity) && Shares(old(index[..]), index[..], old(tail))
      ensures ok ==> forall i :: old(capacity) <= i < capacity ==> fresh(index[i])
    {
      hide Slot, Walk, Ok, Grown, Shares;
      if mallocFails { return false; }
      ghost var v, was := Abs(), index[..];
      assert tail == At(v, v.inserted - 1) && v.cells == Cells(was);
      hide Cells, At;
      var table := BuildTable();
      TableDistinct(was, table[..], tail);
      index, tail, capacity := table, capacity - 1, nextBlockIndexCapacity;
      nextBlockIndexCapacity := 2 * nextBlockIndexCapacity;
      shift := inserted - old(capacity);
      ok := true;
      ghost var v' := Abs();
      TableGrown(was, table[..], v, v');
      GrowOk(v, v');
    }

    /** The table a new producer allocates: nothing in use, the tail just before slot 0. */
    constructor (size: nat)
      requires 0 < size
      ensures Valid() && fresh(index) && (forall i :: 0 <= i < index.Length ==> fresh(index[i]))
      ensures capacity == size && inserted == 0 && live == map[] && !reserved
    {
      var first := new BlockIndexEntry();
      var table := new BlockIndexEntry[size](_ => first);
      capacity, nextBlockIndexCapacity, tail, index := size, 2 * size, size - 1, table;
      inserted, live, reserved, shift := 0, map[], false, 0;
      new;
      var i := 0;
      while i < size
        invariant 0 <= i <= size && index == table && fresh(table) && table.Length == size
        invariant forall j :: 0 <= j < i ==> fresh(table[j]) && table[j].key == INVALID_BLOCK_BASE
        invariant forall j, k :: 0 <= j < k < i ==> table[j] != table[k]
        invariant capacity == size && nextBlockIndexCapacity == 2 * size && tail == size - 1
        invariant inserted == 0 && live == map[] && !reserved && shift == 0
      {
        table[i] := new BlockIndexEntry();
        i := i + 1;
      }
      assert tail == Slot(-1, 0, size) by { ModUnique(-1, size, size - 1, -1); }
    }

    /** Make sure nothing lives in the slot after the tail, doubling the table if something does. */
    method MakeRoom(mayAlloc: bool, mallocFails: bool) returns (ok: bool)
      requires Valid() && !reserved
      modifies this
      ensures Valid() && live == old(live) && inserted == old(inserted) && !reserved
      ensures ok <==> !old(Abs().cells[At(Abs(), inserted)].Occupied()) || (mayAlloc && !mallocFails)
      ensures !ok ==> Abs() == old(Abs())
      ensures ok ==> !Abs().cells[At(Abs(), inserted)].Occupied()
      ensures index == old(index) ||
        (fresh(index) && Grown(old(Abs()), Abs()) && Shares(old(index[..]), index[..], old(tail)))
      ensures index == old(index) || forall i :: old(capacity) <= i < capacity ==> fresh(index[i])
    {
      hide Slot, Walk, Ok;
      var newTail := NextSlot();
      var entry := index[newTail];
      ok := true;
      if entry.key != INVALID_BLOCK_BASE && entry.value.Some? {
        FullTurn(Abs());
        if mayAlloc { ok := NewBlockIndex(mallocFails); } else { ok := false; }
        if ok { GrownNext(old(Abs()), Abs()); }
      }
    }

    /** Claim the free slot after the tail for the next block number. */
    method Reserve(start: nat) returns (entry: BlockIndexEntry)
      requires Valid() && !reserved && start == Base(inserted) && !Abs().cells[At(Abs(), inserted)].Occupied()
      modifies this`tail, this`inserted, this`reserved, index[..]
      ensures Valid() && Abs() == Inserted(old(Abs())) && entry == index[tail] && entry.key == start
    {
      hide Slot, Walk, Ok;
      ghost var v := Abs();
      var newTail := NextSlot();
      entry := index[newTail];
      entry.key := start;
      tail, inserted, reserved := newTail, inserted + 1, true;
      InsertOk(v);
      assert Abs() == Inserted(v);
    }

    /** insert_block_index_entry for the next block number. */
    method Insert(start: nat, mayAlloc: bool, mallocFails: bool) returns (ok: bool, entry: BlockIndexEntry)
      requires Valid() && !reserved && start == Base(inserted)
      modifies this, index[..]
      ensures Valid() && (!ok ==> Abs() == old(Abs()))
      ensures ok <==> !old(Abs().cells[At(Abs(), inserted)].Occupied()) || (mayAlloc && !mallocFails)
      ensures ok ==> entry == index[tail] && entry.key == start
      ensures ok ==> live == old(live) && inserted == old(inserted) + 1 && reserved
      ensures index == old(index) ||
        (fresh(index) && old(inserted - capacity in live) && Shares(old(index[..]), index[..], old(tail)))
      ensures index == old(index) || forall i :: old(capacity) <= i < capacity ==> fresh(index[i])
    {
      hide Slot, Walk, Ok, Cells, At, Grown, Inserted, Shares;
      ghost var v := Abs();
      TailInTable(v);
      entry := index[tail];
      ok := MakeRoom(mayAlloc, mallocFails);
      GrownParts(v, Abs());
      SharesMembers(old(index[..]), index[..], old(tail));
      InsertedParts(Abs());
      if ok { entry := Reserve(start); }
    }

    method NextSlot() returns (next: nat)
      requires Valid()
      ensures next == Slot(inserted, shift, capacity) && next < capacity
    {
      SlotWalk(inserted - 1, inserted, shift, capacity);
      next := Walk(tail, 1, capacity);
    }

    /** The reserved entry gets its block. */
    method Publish(entry: BlockIndexEntry, b: Block)
      requires Valid() && reserved && entry == index[tail]
      modifies this`live, this`reserved, entry`value
      ensures Valid() && Abs() == Published(old(Abs()), b)
    {
      hide Slot, Walk, Ok;
      ghost var v := Abs();
      OkUsed(v);
      entry.value := Some(b);
      live, reserved := live[inserted - 1 := b], false;
      PublishOk(v, b);
      assert Abs() == Published(v, b);
    }

    /** No block could be had: rewind_block_index_tail, then clear the entry. */
    method Cancel(entry: BlockIndexEntry)
      requires Valid() && reserved && entry == index[tail]
      modifies this`tail, this`inserted, this`reserved, entry`value
      ensures Valid() && Abs() == Cancelled(old(Abs()))
    {
      hide Slot, Walk, Ok;
      ghost var v := Abs();
      OkUsed(v);
      SlotWalk(inserted - 1, inserted - 2, shift, capacity);
      tail := Walk(tail, -1, capacity);
      entry.value := None;
      inserted, reserved := inserted - 1, false;
      CancelOk(v);
      assert Abs() == Cancelled(v);
    }

    /** get_block_index_index_for_index, with a tail slot that may be out of date. Only keys matter. */
    method Locate(from: nat, k: nat, ghost v: View) returns (i: nat)
      requires Ok(v) && 0 < capacity == index.Length == |v.cells| && from < capacity
      requires index[from].key == v.cells[from].key != INVALID_BLOCK_BASE
      ensures i == At(v, Number(k))
    {
      hide Slot, Ok;
      var base := k / BLOCK_SIZE * BLOCK_SIZE;
      var offset := (base - index[from].key) / BLOCK_SIZE;
      LookupSlot(v, from, Number(k));
      i := Walk(from, offset, capacity);
    }

    /** Any slot the tail has ever pointed at leads to the entry of a live block. */
    method LookupFrom(from: nat, k: nat) returns (entry: BlockIndexEntry)
      requires Valid() && from < capacity && index[from].key != INVALID_BLOCK_BASE && Number(k) in live
      ensures entry in index[..] && entry.key == k / BLOCK_SIZE * BLOCK_SIZE && entry.value == Some(live[Number(k)])
      ensures entry == index[Slot(Number(k), shift, capacity)]
    {
      hide Slot, Walk, Ok;
      var i := Locate(from, k, Abs());
      LiveCell(Abs(), Number(k));
      entry := index[i];
    }

    /** get_block_index_entry_for_index for any element of a live block. */
    method Lookup(k: nat) returns (entry: BlockIndexEntry)
      requires Valid() && Number(k) in live
      ensures entry in index[..] && entry.key == k / BLOCK_SIZE * BLOCK_SIZE && entry.value == Some(live[Number(k)])
      ensures entry == index[Slot(Number(k), shift, capacity)]
    {
      hide Slot, Walk, Ok;
      TailUsed(Abs(), Number(k));
      entry := LookupFrom(tail, k);
    }

    /** A consumer has emptied the block of element k and clears its entry. */
    method Release(k: nat)
      requires Valid() && Number(k) in live
      modifies this`live, index[..]
      ensures Valid() && Abs() == Released(old(Abs()), Number(k))
    {
      hide Slot, Walk, Ok;
      var entry := Lookup(k);
      ghost var v := Abs();
      entry.value := None;
      live := map p | p in live && p != Number(k) :: live[p];
      ReleaseOk(v, Number(k));
      assert Abs() == Released(v, Number(k));
    }

    /** While a roll-back is under way, the partly rewound tail still leads to the next block to clear. */
    method FindToClear(k: nat, ghost v: View, ghost first: nat, i: nat) returns (at: nat)
      requires Ok(v) && 0 < capacity == index.Length == |v.cells| && first + i < v.inserted && first in v.live
      requires tail == Slot(v.inserted - 1 - i, v.shift, capacity) && k == Base(first + i)
      requires Cleared(v, Cells(index[..]), first, first + i)
      ensures at == At(v, first + i)
    {
      hide Slot, Walk, Ok, Cleared;
      NumberOfBase(first + i);
      UsedSlot(v, first, v.inserted - 1 - i);
      ClearedKeys(v, Cells(index[..]), first, first + i);
      at := Locate(tail, k, v);
    }

    /** One round of a roll-back. */
    method ClearAndRewind(k: nat, ghost v: View, ghost first: nat, i: nat)
      requires Ok(v) && 0 < capacity == index.Length == |v.cells| && first + i < v.inserted && first in v.live
      requires forall j, l :: 0 <= j < l < capacity ==> index[j] != index[l]
      requires tail == Slot(v.inserted - 1 - i, v.shift, capacity) && k == Base(first + i)
      requires Cleared(v, Cells(index[..]), first, first + i)
      modifies this`tail, index[..]
      ensures tail == Slot(v.inserted - 2 - i, v.shift, capacity)
      ensures Cleared(v, Cells(index[..]), first, first + i + 1)
    {
      hide Slot, Walk, Ok, Cleared;
      ghost var cells := Cells(index[..]);
      var at := FindToClear(k, v, first, i);
      index[at].value := None;
      assert Cells(index[..]) == cells[at := cells[at].(value := None)];
      ClearOne(v, cells, first, first + i, Cells(index[..]));
      SlotWalk(v.inserted - 1 - i, v.inserted - 2 - i, v.shift, capacity);
      tail := Walk(tail, -1, capacity);
    }

    /** enqueue_bulk failed: the `count` newest blocks, the first of which starts at element `start`,
        are looked up and cleared one by one, and the tail is rewound once for each. */
    method RollBack(start: nat, count: nat)
      requires Valid() && !reserved && count <= inserted && start == Base(inserted - count)
      requires forall q :: inserted - count <= q < inserted ==> q in live
      modifies this`tail, this`inserted, this`live, index[..]
      ensures Valid() && RolledBack(old(Abs()), Abs(), old(inserted) - count)
    {
      hide Slot, Walk, Ok, Number, Cleared, Cells;
      ghost var v := Abs();
      ghost var first := inserted - count;
      ClearedNone(v, first);
      var i := 0;
      while i < count
        invariant 0 <= i <= count && tail == Slot(v.inserted - 1 - i, shift, capacity)
        invariant inserted == v.inserted && live == v.live
        invariant Cleared(v, Cells(index[..]), first, first + i)
      {
        ClearAndRewind(start + BLOCK_SIZE * i, v, first, i);
        i := i + 1;
      }
      inserted, live := first, map q | q in live && q < first :: live[q];
      RollBackOk(v, Abs(), first);
    }
  }

  lemma InsertedParts(v: View)
    requires v.cells != []
    ensures Inserted(v).live == v.live && Inserted(v).inserted == v.inserted + 1 && Inserted(v).reserved
  {}

  lemma GrownParts(v: View, v': View)
    ensures Grown(v, v') ==> v.inserted - |v.cells| in v.live
  {}

  lemma TailInTable(v: View)
    requires v.cells != []
    ensures At(v, v.inserted - 1) < |v.cells|
  {}

  lemma ClearOne(v: View, cells: seq<Cell>, first: nat, end: nat, cells': seq<Cell>)
    requires v.cells != [] && first <= end && Cleared(v, cells, first, end)
    requires cells' == cells[At(v, end) := cells[At(v, end)].(value := None)]
    ensures Cleared(v, cells', first, end + 1)
  {
    hide Slot;
    var end' := end + 1;
    forall i | 0 <= i < |cells'| ensures ClearedAt(v, cells', first, end', i) {
      assert ClearedAt(v, cells, first, end, i);
    }
  }

  lemma ClearedNone(v: View, first: nat)
    requires v.cells != []
    ensures Cleared(v, v.cells, first, first)
  {
    forall i | 0 <= i < |v.cells| ensures ClearedAt(v, v.cells, first, first, i) {}
  }

  lemma ClearedKeys(v: View, cells: seq<Cell>, first: nat, end: nat)
    requires v.cells != [] && Cleared(v, cells, first, end)
    ensures |cells| == |v.cells| && forall i :: 0 <= i < |cells| ==> cells[i].key == v.cells[i].key
  {
    forall i | 0 <= i < |cells| ensures cells[i].key == v.cells[i].key {
      assert ClearedAt(v, cells, first, end, i);
    }
  }

  lemma UsedSlot(v: View, p: nat, q: nat)
    requires Ok(v) && p in v.live && p <= q < v.inserted
    ensures v.cells != [] && v.cells[At(v, q)].key != INVALID_BLOCK_BASE
  {
    NumberOfBase(q);
  }

  lemma OkUsed(v: View)
    requires Ok(v) && v.reserved
    ensures 0 < v.inserted && v.cells != []
  {}

  lemma GrownNext(v: View, v': View)
    requires Ok(v) && Grown(v, v')
    ensures v'.cells != [] && !v'.cells[At(v', v'.inserted)].Occupied()
    ensures v'.live == v.live && v'.inserted == v.inserted && !v'.reserved
    ensures |v'.cells| == 2 * |v.cells| && v.inserted - |v.cells| in v.live
  {
    GrowOk(v, v');
  }

  lemma LiveCell(v: View, q: nat)
    requires Ok(v) && q in v.live
    ensures v.cells != [] && v.cells[At(v, q)] == Cell(Base(q), Some(v.live[q]))
  {
    assert LiveOk(v, q);
  }

  lemma TailUsed(v: View, q: nat)
    requires Ok(v) && q in v.live
    ensures 0 < v.inserted && v.cells != [] && v.cells[At(v, v.inserted - 1)].key != INVALID_BLOCK_BASE
  {
    assert LiveOk(v, q);
    NumberOfBase(v.inserted - 1);
  }

  lemma TableDistinct(was: seq<BlockIndexEntry>, now: seq<BlockIndexEntry>, tail: nat)
    requires 0 < |was| && |now| == 2 * |was| && tail < |was|
    requires forall i, j :: 0 <= i < j < |was| ==> was[i] != was[j]
    requires Shares(was, now, tail)
    requires forall j, k :: 0 <= j < |was| <= k < |now| ==> was[j] != now[k]
    requires forall j, k :: |was| <= j < k < |now| ==> now[j] != now[k]
    ensures forall j, k :: 0 <= j < k < |now| ==> now[j] != now[k]
  {
    forall j, k | 0 <= j < k < |was| ensures now[j] != now[k] {
      WalkDistinct(tail, 1 + j, 1 + k, |was|);
    }
    hide Walk;
  }

  lemma TableGrown(was: seq<BlockIndexEntry>, now: seq<BlockIndexEntry>, v: View, v': View)
    requires v.cells == Cells(was) && v'.cells == Cells(now) && |now| == 2 * |was| && was != []
    requires !v.reserved && v.inserted - |was| in v.live && v' == v.(cells := v'.cells, shift := v.inserted - |was|)
    requires Shares(was, now, At(v, v.inserted - 1))
    requires forall j :: |was| <= j < |now| ==> now[j].key == INVALID_BLOCK_BASE
    ensures Grown(v, v')
  {
    hide Walk, At;
  }

  lemma SharesMembers(was: seq<BlockIndexEntry>, now: seq<BlockIndexEntry>, tail: nat)
    ensures Shares(was, now, tail) ==> |was| <= |now| && forall i :: 0 <= i < |was| ==> now[i] in was
  {}

  lemma WalkNowhere(slot: nat, size: nat)
    requires slot < size
    ensures Walk(slot, 0, size) == slot
  {
    SlotWalk(slot, slot, 0, size);
    SmallSlot(slot, 0, size);
  }

  lemma WalkDistinct(slot: nat, d: nat, e: nat, size: nat)
    requires 0 < size && d < e < d + size
    ensures Walk(slot, d, size) != Walk(slot, e, size)
  {
    SlotDistinct(slot + d, slot + e, 0, size);
  }

  lemma WalkOn(slot: int, d: int, size: nat)
    requires 0 < size
    ensures Walk(Walk(slot, d, size), 1, size) == Walk(slot, d + 1, size)
  {
    SlotWalk(slot + d, slot + d + 1, 0, size);
  }
}
