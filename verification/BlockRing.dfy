/** The explicit producer's ring of blocks and its circular block index, with one producer running
    `enqueue` and any number of consumers running `dequeue` or `dequeue_bulk`, one atomic access
    (or one element) per step. The consumers' shares come from DequeueAccounting. */
module BlockRing {

  import opened Wrappers
  import A = DequeueAccounting

  type Tid = nat
  type Block = nat

  const BLOCK_SIZE: nat := 32

  /** A slot of the circular index. */
  datatype Entry = Blank | Entry(base: nat, block: Block)

  /** A block index. The table sizes are powers of two, so `x & (size - 1)` is the remainder.
      Auxiliary: block number q (the one that starts at element 32q) belongs at slot
      (q - shift) mod size; `newest` is the number behind `front`, and the slots of the numbers
      `lo` to `newest` are intact. */
  datatype Header = Header(size: nat, front: int, entries: seq<Entry>, shift: nat, lo: nat, newest: int)

  datatype Producer<T> =
    | Resting
    | Branch(v: T)                                        // load tailIndex, test the block boundary
    | CheckEmpty(v: T, i: nat)                            // is_empty of the block ahead, flag i
    | CheckRoom(v: T)                                     // load headIndex, test the index
    | GrowIndex(v: T)                                     // new_block_index
    | Requisition(v: T)                                   // requisition_block
    | ResetFlags(v: T, b: Block, i: nat, isNew: bool)     // reset_empty, flag i
    | Link(v: T, b: Block)                                // insert into the circular list
    | WriteEntry(v: T)
    | StoreFront(v: T)
    | WriteItem(v: T)
    | StoreTail(v: T)

  /** A consumer that owns the elements `first` up to `end`. `out` is what it has moved out;
      `seen` in ReadBase is auxiliary: the block number whose slot `front` was loaded. */
  datatype Consumer<T> =
    | NoShare
    | LoadIndex(first: nat, end: nat)
    | LoadFront(first: nat, end: nat, h: nat)
    | ReadBase(first: nat, end: nat, h: nat, front: int, seen: int)
    | ReadBlock(first: nat, k: nat, end: nat, h: nat, slot: nat, out: seq<T>)
    | ReadItem(first: nat, start: nat, k: nat, stop: nat, end: nat, h: nat, slot: nat, b: Block, out: seq<T>)
    | MarkEmpty(first: nat, start: nat, j: nat, stop: nat, end: nat, h: nat, slot: nat, b: Block, out: seq<T>)

  datatype Result<T> = Result(t: Tid, first: nat, values: seq<T>)

  /** `headers` is every index allocated so far; `blockIndex` points at the last one.
      Auxiliary: `blocks` (the block used for each block number), `gone` (elements whose empty flag
      has been set), `read` (elements moved out), `owner` and `results`. */
  datatype State<T> = State(
    acc: A.State<T>,
    tailBlock: Option<Block>, next: map<Block, Block>, slotsUsed: nat, prFront: nat, headers: seq<Header>,
    cells: map<Block, seq<Option<T>>>, flags: map<Block, seq<bool>>,
    producer: Producer<T>, pc: map<Tid, Consumer<T>>,
    blocks: seq<Block>, gone: set<nat>, read: set<nat>, owner: seq<Tid>, results: seq<Result<T>>)

  function Tail<T>(s: State<T>): nat { |s.acc.items| }

  function Current<T>(s: State<T>): Header
    requires s.headers != []
  {
    s.headers[|s.headers| - 1]
  }

  // ---- The producer ----

  function DoBranch<T>(s: State<T>, v: T): State<T> {
    if Tail(s) % BLOCK_SIZE != 0 then s.(producer := WriteItem(v))
    else if s.tailBlock.None? then s.(producer := CheckRoom(v))
    else s.(producer := CheckEmpty(v, 0))
  }

  /** The flag of element k of a block is number 31 - k. */
  function FlagOf(k: nat): nat { BLOCK_SIZE - 1 - k % BLOCK_SIZE }

  function DoCheckEmpty<T>(s: State<T>, v: T, i: nat): State<T>
    requires s.tailBlock.Some? && s.tailBlock.value in s.next && s.next[s.tailBlock.value] in s.flags
    requires i < BLOCK_SIZE == |s.flags[s.next[s.tailBlock.value]]|
  {
    var ahead := s.next[s.tailBlock.value];
    if !s.flags[ahead][i] then s.(producer := CheckRoom(v))
    else if i + 1 < BLOCK_SIZE then s.(producer := CheckEmpty(v, i + 1))
    else s.(tailBlock := Some(ahead), producer := ResetFlags(v, ahead, 0, false), blocks := s.blocks + [ahead])
  }

  function DoCheckRoom<T>(s: State<T>, v: T): State<T>
    requires s.headers != []
  {
    if !(s.acc.head < Tail(s) + BLOCK_SIZE) then s.(producer := Resting)
    else if s.slotsUsed == Current(s).size then s.(producer := GrowIndex(v))
    else s.(producer := Requisition(v))
  }

  /** The entries in use, oldest first. */
  function Unrolled(h: Header, front: nat, used: nat): seq<Entry>
    requires 0 < h.size == |h.entries|
  {
    seq(used, j requires 0 <= j < used => h.entries[(front - used + j) % h.size])
  }

  /** new_block_index: double the table and move the entries in use to its start. */
  function Grown<T>(s: State<T>): State<T>
    requires s.headers != [] && 0 < Current(s).size == |Current(s).entries| && s.slotsUsed <= Current(s).size
  {
    var h, used := Current(s), s.slotsUsed;
    var entries := Unrolled(h, s.prFront, used) + seq(2 * h.size - used, j => Blank);
    var lo := if used <= |s.blocks| then |s.blocks| - used else 0;
    s.(headers := s.headers + [Header(2 * h.size, used - 1, entries, lo, lo, |s.blocks| - 1)], prFront := used)
  }

  function DoResetFlags<T>(s: State<T>, v: T, b: Block, i: nat, isNew: bool): State<T>
    requires b in s.flags && i < BLOCK_SIZE == |s.flags[b]|
  {
    s.(flags := s.flags[b := s.flags[b][i := false]],
       producer := if i + 1 < BLOCK_SIZE then ResetFlags(v, b, i + 1, isNew)
                   else if isNew then Link(v, b) else WriteEntry(v))
  }

  function DoLink<T>(s: State<T>, v: T, b: Block): State<T>
    requires s.tailBlock.Some? ==> s.tailBlock.value in s.next
  {
    s.(next := if s.tailBlock.None? then s.next[b := b]
               else s.next[b := s.next[s.tailBlock.value]][s.tailBlock.value := b],
       tailBlock := Some(b), slotsUsed := s.slotsUsed + 1, producer := WriteEntry(v), blocks := s.blocks + [b])
  }

  function DoWriteEntry<T>(s: State<T>, v: T): State<T>
    requires s.headers != [] && s.tailBlock.Some? && s.prFront < |Current(s).entries|
  {
    var h := Current(s);
    var lo := if s.slotsUsed <= |s.blocks| then |s.blocks| - s.slotsUsed else 0;
    s.(headers := s.headers[|s.headers| - 1 := h.(
         entries := h.entries[s.prFront := Entry(Tail(s), s.tailBlock.value)], lo := lo)],
       producer := StoreFront(v))
  }

  function DoStoreFront<T>(s: State<T>, v: T): State<T>
    requires s.headers != [] && 0 < Current(s).size
  {
    var h := Current(s);
    s.(headers := s.headers[|s.headers| - 1 := h.(front := s.prFront, newest := |s.blocks| - 1)],
       prFront := (s.prFront + 1) % h.size, producer := WriteItem(v))
  }

  function DoWriteItem<T>(s: State<T>, v: T): State<T>
    requires s.tailBlock.Some? && s.tailBlock.value in s.cells && |s.cells[s.tailBlock.value]| == BLOCK_SIZE
  {
    var b := s.tailBlock.value;
    s.(cells := s.cells[b := s.cells[b][Tail(s) % BLOCK_SIZE := Some(v)]], producer := StoreTail(v))
  }

  ghost predicate ProducerReady<T>(s: State<T>) {
    match s.producer
    case CheckEmpty(_, i) =>
      && s.tailBlock.Some? && s.tailBlock.value in s.next && s.next[s.tailBlock.value] in s.flags
      && i < BLOCK_SIZE == |s.flags[s.next[s.tailBlock.value]]|
    case CheckRoom(_) => s.headers != []
    case GrowIndex(_) =>
      s.headers != [] && 0 < Current(s).size == |Current(s).entries| && s.slotsUsed <= Current(s).size
    case ResetFlags(_, b, i, _) => b in s.flags && i < BLOCK_SIZE == |s.flags[b]|
    case Link(_, _) => s.tailBlock.Some? ==> s.tailBlock.value in s.next
    case WriteEntry(_) => s.headers != [] && s.tailBlock.Some? && s.prFront < |Current(s).entries|
    case StoreFront(_) => s.headers != [] && 0 < Current(s).size
    case WriteItem(_) =>
      s.tailBlock.Some? && s.tailBlock.value in s.cells && |s.cells[s.tailBlock.value]| == BLOCK_SIZE
    case _ => true
  }

  /** The producer's steps. Growing the index and requisitioning a block may fail; a block that is
      handed out belongs to nobody in this ring and carries arbitrary cells and flags. */
  ghost predicate ProducerNext<T(!new)>(s: State<T>, s': State<T>) {
    ProducerReady(s) &&
    match s.producer
    case Resting => exists v :: s' == s.(producer := Branch(v))
    case Branch(v) => s' == DoBranch(s, v)
    case CheckEmpty(v, i) => s' == DoCheckEmpty(s, v, i)
    case CheckRoom(v) => s' == DoCheckRoom(s, v)
    case GrowIndex(v) => s' == s.(producer := Resting) || s' == Grown(s).(producer := Requisition(v))
    case Requisition(v) =>
      || s' == s.(producer := Resting)
      || exists b, cells, flags :: Requisitioned(s, s', v, b, cells, flags)
    case ResetFlags(v, b, i, isNew) => s' == DoResetFlags(s, v, b, i, isNew)
    case Link(v, b) => s' == DoLink(s, v, b)
    case WriteEntry(v) => s' == DoWriteEntry(s, v)
    case StoreFront(v) => s' == DoStoreFront(s, v)
    case WriteItem(v) => s' == DoWriteItem(s, v)
    case StoreTail(v) => s' == s.(acc := A.Publish(s.acc, [v]), producer := Resting)
  }

  ghost predicate Requisitioned<T>(s: State<T>, s': State<T>, v: T, b: Block, cells: seq<Option<T>>, flags: seq<bool>) {
    && b !in s.next && |cells| == BLOCK_SIZE == |flags|
    && s' == s.(cells := s.cells[b := cells], flags := s.flags[b := flags], producer := ResetFlags(v, b, 0, true))
  }

  // ---- The consumers ----

  /** The slot of the block that holds element k, computed from the slot `front` and its base. */
  function SlotFor(front: int, base: nat, k: nat, size: nat): nat
    requires 0 < size
  {
    (front + (k / BLOCK_SIZE * BLOCK_SIZE - base) / BLOCK_SIZE) % size
  }

  function EndOfBlock(k: nat, end: nat): nat {
    var stop := (k / BLOCK_SIZE + 1) * BLOCK_SIZE;
    if end < stop then end else stop
  }

  ghost predicate ConsumerReady<T>(s: State<T>, c: Consumer<T>) {
    match c
    case LoadIndex(_, _) => s.headers != []
    case LoadFront(_, _, h) => h < |s.headers|
    case ReadBase(_, _, h, front, _) =>
      && h < |s.headers| && 0 < s.headers[h].size && 0 <= front < |s.headers[h].entries|
      && s.headers[h].entries[front].Entry?
    case ReadBlock(_, _, _, h, slot, _) =>
      h < |s.headers| && slot < |s.headers[h].entries| && s.headers[h].entries[slot].Entry?
    case ReadItem(_, _, k, _, _, _, _, b, _) =>
      b in s.cells && |s.cells[b]| == BLOCK_SIZE && s.cells[b][k % BLOCK_SIZE].Some?
    case MarkEmpty(_, start, j, _, _, h, _, b, _) =>
      && b in s.flags && |s.flags[b]| == BLOCK_SIZE && start < j
      && h < |s.headers| && 0 < s.headers[h].size
    case _ => true
  }

  function DoReadItem<T>(s: State<T>, t: Tid, c: Consumer<T>): State<T>
    requires c.ReadItem? && c.b in s.cells && |s.cells[c.b]| == BLOCK_SIZE && s.cells[c.b][c.k % BLOCK_SIZE].Some?
  {
    var out := c.out + [s.cells[c.b][c.k % BLOCK_SIZE].value];
    s.(cells := s.cells[c.b := s.cells[c.b][c.k % BLOCK_SIZE := None]], read := s.read + {c.k},
       pc := s.pc[t := if c.k + 1 < c.stop then c.(k := c.k + 1, out := out)
                       else MarkEmpty(c.first, c.start, c.stop, c.stop, c.end, c.h, c.slot, c.b, out)])
  }

  /** set_many_empty sets the flag of the last element first. */
  function DoMarkEmpty<T>(s: State<T>, t: Tid, c: Consumer<T>): State<T>
    requires c.MarkEmpty? && c.b in s.flags && |s.flags[c.b]| == BLOCK_SIZE && c.start < c.j
    requires c.h < |s.headers| && 0 < s.headers[c.h].size
  {
    var s1 := s.(flags := s.flags[c.b := s.flags[c.b][FlagOf(c.j - 1) := true]], gone := s.gone + {c.j - 1});
    if c.start < c.j - 1 then s1.(pc := s.pc[t := c.(j := c.j - 1)])
    else if c.stop < c.end then
      s1.(pc := s.pc[t := ReadBlock(c.first, c.stop, c.end, c.h, (c.slot + 1) % s.headers[c.h].size, c.out)])
    else s1.(pc := s.pc[t := NoShare], results := s.results + [Result(t, c.first, c.out)])
  }

  function ConsumerStep<T>(s: State<T>, t: Tid): State<T>
    requires t in s.pc && !s.pc[t].NoShare? && ConsumerReady(s, s.pc[t])
  {
    match s.pc[t]
    case LoadIndex(first, end) => s.(pc := s.pc[t := LoadFront(first, end, |s.headers| - 1)])
    case LoadFront(first, end, h) =>
      s.(pc := s.pc[t := ReadBase(first, end, h, s.headers[h].front, s.headers[h].newest)])
    case ReadBase(first, end, h, front, _) =>
      var slot := SlotFor(front, s.headers[h].entries[front].base, first, s.headers[h].size);
      s.(pc := s.pc[t := ReadBlock(first, first, end, h, slot, [])])
    case ReadBlock(first, k, end, h, slot, out) =>
      s.(pc := s.pc[t := ReadItem(first, k, k, EndOfBlock(k, end), end, h, slot, s.headers[h].entries[slot].block, out)])
    case ReadItem(_, _, _, _, _, _, _, _, _) => DoReadItem(s, t, s.pc[t])
    case MarkEmpty(_, _, _, _, _, _, _, _, _) => DoMarkEmpty(s, t, s.pc[t])
  }

  function Repeat(n: nat, t: Tid): (r: seq<Tid>)
    ensures |r| == n && forall i :: 0 <= i < n ==> r[i] == t
  {
    seq(n, i => t)
  }

  /** A step of the accounting; advancing the head hands the consumer its share. */
  function AccountingStep<T>(s: State<T>, t: Tid): State<T>
    requires t in s.acc.pc && !s.acc.pc[t].Idle? && A.PcOk(s.acc, s.acc.pc[t])
  {
    var s1 := s.(acc := A.Access(s.acc, t));
    if s.acc.pc[t].AddHead? && 0 < s.acc.pc[t].actual then
      s1.(pc := s.pc[t := LoadIndex(s.acc.head, s.acc.head + s.acc.pc[t].actual)],
          owner := s.owner + Repeat(s.acc.pc[t].actual, t))
    else s1
  }

  ghost predicate Next<T(!new)>(s: State<T>, s': State<T>) {
    || ProducerNext(s, s')
    || (exists t, max :: t in s.acc.pc && s.acc.pc[t].Idle? && t in s.pc && s.pc[t].NoShare?
          && s' == s.(acc := A.Call(s.acc, t, max)))
    || (exists t :: t in s.acc.pc && t in s.pc && !s.acc.pc[t].Idle? && A.PcOk(s.acc, s.acc.pc[t])
          && s' == AccountingStep(s, t))
    || (exists t :: t in s.pc && !s.pc[t].NoShare? && ConsumerReady(s, s.pc[t]) && s' == ConsumerStep(s, t))
  }

  /** The state the constructor leaves: an index of 32 blank entries and no block. */
  ghost predicate Init<T(!new)>(s: State<T>) {
    && A.Init(s.acc) && s.pc.Keys == s.acc.pc.Keys && (forall t :: t in s.pc ==> s.pc[t].NoShare?)
    && s.tailBlock == None && s.next == map[] && s.slotsUsed == 0 && s.prFront == 0
    && s.headers == [Header(32, -1, seq(32, i => Blank), 0, 0, -1)]
    && s.cells == map[] && s.flags == map[] && s.producer.Resting?
    && s.blocks == [] && s.gone == {} && s.read == {} && s.owner == [] && s.results == []
  }

  ghost predicate IsRun<T(!new)>(run: seq<State<T>>) {
    && run != [] && Init(run[0])
    && forall i :: 0 <= i < |run| - 1 ==> Next(run[i], run[i + 1])
  }
}
