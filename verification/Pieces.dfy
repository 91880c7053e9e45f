/** Messages in pieces: bitmaps, the acknowledged prefix, the buffers pieces are copied into, and the
    three objects that keep them: Request on the server, ResponseData on the client, Response on the
    server's way back. */
module Pieces {

  import opened Bytes
  import opened Protocol

  // ---- Bitmaps ----

  /** getAckNumber: the index of the first missing piece, or the size if none is missing. */
  function AckNumber(bits: seq<bool>): (n: nat)
    ensures n <= |bits|
  {
    if bits == [] || !bits[0] then 0 else 1 + AckNumber(bits[1..])
  }

  lemma {:induction false} AckIsPrefix(bits: seq<bool>)
    ensures forall i :: 0 <= i < AckNumber(bits) ==> bits[i]
    ensures AckNumber(bits) < |bits| ==> !bits[AckNumber(bits)]
  {
    if bits != [] && bits[0] {
      AckIsPrefix(bits[1..]);
      forall i | 0 <= i < AckNumber(bits) ensures bits[i] {
        if i > 0 { assert bits[1..][i - 1]; }
      }
    }
  }

  /** The prefix is the longest one: n pieces are all there if and only if n is not above it. */
  lemma AckIsLongest(bits: seq<bool>, n: nat)
    requires n <= |bits|
    ensures n <= AckNumber(bits) <==> forall i :: 0 <= i < n ==> bits[i]
  {
    AckIsPrefix(bits);
  }

  ghost predicate Covers(bits': seq<bool>, bits: seq<bool>) {
    |bits'| == |bits| && forall i :: 0 <= i < |bits| && bits[i] ==> bits'[i]
  }

  /** More pieces never make the prefix shorter. */
  lemma AckGrows(bits: seq<bool>, bits': seq<bool>)
    requires Covers(bits', bits)
    ensures AckNumber(bits) <= AckNumber(bits')
  {
    AckIsPrefix(bits);
    AckIsLongest(bits', AckNumber(bits));
  }

  function AllFalse(n: nat): seq<bool> { seq(n, i => false) }

  // ---- Buffers ----

  /** memcpy of a piece into a buffer. */
  function StoreAt(data: seq<byte>, at: nat, body: seq<byte>): (r: seq<byte>)
    requires at + |body| <= |data|
    ensures |r| == |data|
  {
    data[..at] + body + data[at + |body|..]
  }

  /** Piece i of a message. */
  function PieceOf(m: seq<byte>, i: nat): seq<byte>
    requires i < PieceCount(|m|)
  {
    PiecesTile(|m|, i);
    m[PIECE_LIMIT * i..PIECE_LIMIT * i + PieceSize(|m|, i)]
  }

  /** The buffer's region for piece i equals the sender's bytes. */
  ghost predicate Holds(data: seq<byte>, m: seq<byte>, i: nat)
    requires i < PieceCount(|m|)
  {
    |data| == |m| && PieceOf(data, i) == PieceOf(m, i)
  }

  lemma RegionsApart(n: nat, i: nat, j: nat)
    requires i < j < PieceCount(n)
    ensures PIECE_LIMIT * i + PieceSize(n, i) <= PIECE_LIMIT * j
  {
    PiecesTile(n, i);
  }

  lemma StoreHolds(data: seq<byte>, m: seq<byte>, i: nat)
    requires |data| == |m| && i < PieceCount(|m|)
    ensures PIECE_LIMIT * i + |PieceOf(m, i)| <= |data|
    ensures Holds(StoreAt(data, PIECE_LIMIT * i, PieceOf(m, i)), m, i)
  {
    PiecesTile(|m|, i);
    var r := StoreAt(data, PIECE_LIMIT * i, PieceOf(m, i));
    assert r[PIECE_LIMIT * i..PIECE_LIMIT * i + PieceSize(|m|, i)] == PieceOf(m, i);
  }

  lemma StoreKeeps(data: seq<byte>, m: seq<byte>, i: nat, j: nat)
    requires |data| == |m| && i < PieceCount(|m|) && j < PieceCount(|m|) && i != j && Holds(data, m, j)
    ensures PIECE_LIMIT * i + |PieceOf(m, i)| <= |data|
    ensures Holds(StoreAt(data, PIECE_LIMIT * i, PieceOf(m, i)), m, j)
  {
    PiecesTile(|m|, i);
    PiecesTile(|m|, j);
    var at, n := PIECE_LIMIT * i, |PieceOf(m, i)|;
    var lo, hi := PIECE_LIMIT * j, PIECE_LIMIT * j + PieceSize(|m|, j);
    if i < j { RegionsApart(|m|, i, j); } else { RegionsApart(|m|, j, i); }
    SpliceOutside(data, at, PieceOf(m, i), lo, hi);
  }

  lemma SpliceOutside(data: seq<byte>, at: nat, body: seq<byte>, lo: nat, hi: nat)
    requires at + |body| <= |data| && lo <= hi <= |data| && (hi <= at || at + |body| <= lo)
    ensures StoreAt(data, at, body)[lo..hi] == data[lo..hi]
  {}

  /** A buffer whose every region is right is the message. */
  lemma AllRegionsRight(data: seq<byte>, m: seq<byte>)
    requires |data| == |m| && forall i :: 0 <= i < PieceCount(|m|) ==> Holds(data, m, i)
    ensures data == m
  {
    forall k | 0 <= k < |m| ensures data[k] == m[k] {
      var i := k / PIECE_LIMIT;
      assert Holds(data, m, i);
      PiecesTile(|m|, i);
      assert PieceOf(data, i)[k - PIECE_LIMIT * i] == data[k] && PieceOf(m, i)[k - PIECE_LIMIT * i] == m[k];
    }
  }

  /** A bitmap and a buffer agree with a message. */
  ghost predicate Agrees(bits: seq<bool>, data: seq<byte>, m: seq<byte>) {
    && |bits| == PieceCount(|m|) && |data| == |m|
    && forall i :: 0 <= i < |bits| && bits[i] ==> Holds(data, m, i)
  }

  lemma AgreeingStore(bits: seq<bool>, data: seq<byte>, m: seq<byte>, i: nat)
    requires Agrees(bits, data, m) && i < |bits|
    ensures PIECE_LIMIT * i + |PieceOf(m, i)| <= |data|
    ensures Agrees(bits[i := true], StoreAt(data, PIECE_LIMIT * i, PieceOf(m, i)), m)
  {
    StoreHolds(data, m, i);
    var data' := StoreAt(data, PIECE_LIMIT * i, PieceOf(m, i));
    forall j | 0 <= j < |bits| && bits[i := true][j] ensures Holds(data', m, j) {
      if j != i { StoreKeeps(data, m, i, j); }
    }
  }

  /** Once the prefix is everything, the buffer is the message. */
  lemma FullBuffer(bits: seq<bool>, data: seq<byte>, m: seq<byte>)
    requires Agrees(bits, data, m) && AckNumber(bits) == |bits|
    ensures data == m
  {
    AckIsPrefix(bits);
    AllRegionsRight(data, m);
  }

  // ---- What the objects stand for ----

  datatype Record = Record(count: nat, total: nat, bits: seq<bool>, triggered: bool, data: seq<byte>)

  datatype Outgoing = Outgoing(count: nat, total: nat, ack: nat, data: seq<byte>)

  /** The client's reassembly: nothing until the first data packet. */
  datatype Incoming = Incoming(started: bool, count: nat, total: nat, bits: seq<bool>, data: seq<byte>)

  /** How an access ends: it is in range, or the bounds test throws, or it goes past the end of a
      bitmap or buffer and has no defined behaviour. */
  datatype Reach = Within | Refused | Beyond

  /** The bounds test of the bitmaps lets an index equal to the piece count pass. */
  function IndexReach(index: nat, count: nat): Reach {
    if index > count then Refused else if index == count then Beyond else Within
  }

  /** Request: a message being received. */
  class Request {
    var pieceState: seq<bool>
    const pieceCount: nat
    const totalDataSize: nat
    var isTrigger: bool
    const data: array<byte>

    ghost predicate Valid()
      reads this
    {
      |pieceState| == pieceCount && data.Length == totalDataSize
    }

    ghost function Abs(): Record
      reads this, data
    {
      Record(pieceCount, totalDataSize, pieceState, isTrigger, data[..])
    }

    constructor (pieces: nat, size: nat)
      ensures Valid() && pieceCount == pieces && totalDataSize == size && fresh(data)
      ensures pieceState == AllFalse(pieces) && !isTrigger
    {
      pieceState, pieceCount, totalDataSize, isTrigger := AllFalse(pieces), pieces, size, false;
      data := new byte[size];
    }

    method GetAckNumber() returns (result: nat)
      requires Valid()
      ensures result == AckNumber(pieceState)
    {
      result := FirstMissing(pieceState);
    }

    method GetPieceState(index: nat) returns (reach: Reach, there: bool)
      requires Valid()
      ensures reach == IndexReach(index, pieceCount) && (reach.Within? ==> there == pieceState[index])
    {
      if index > pieceCount { return Refused, false; }
      if index == pieceCount { return Beyond, false; }
      reach, there := Within, pieceState[index];
    }

    method SetPieceState(index: nat, value: bool) returns (reach: Reach, ack: nat)
      requires Valid()
      modifies this`pieceState
      ensures Valid() && reach == IndexReach(index, pieceCount)
      ensures reach.Refused? ==> pieceState == old(pieceState)
      ensures reach.Within? ==> pieceState == old(pieceState)[index := value] && ack == AckNumber(pieceState)
    {
      if index > pieceCount { return Refused, 0; }
      if index == pieceCount { return Beyond, 0; }
      pieceState := pieceState[index := value];
      ack := GetAckNumber();
      reach := Within;
    }

    method Trigger()
      modifies this`isTrigger
      ensures isTrigger
    {
      isTrigger := true;
    }

    method CopyPiece(at: nat, body: seq<byte>)
      requires Valid() && at + |body| <= data.Length
      modifies data
      ensures Valid() && data[..] == StoreAt(old(data[..]), at, body)
    {
      Copy(data, at, body);
    }
  }

  /** The loop both bitmaps share. */
  method FirstMissing(bits: seq<bool>) returns (result: nat)
    ensures result == AckNumber(bits)
  {
    AckIsPrefix(bits);
    result := |bits|;
    var i := 0;
    while i < |bits|
      invariant 0 <= i <= |bits| == result && forall j :: 0 <= j < i ==> bits[j]
    {
      if !bits[i] {
        result := i;
        break;
      }
      i := i + 1;
    }
  }

  method Copy(data: array<byte>, at: nat, body: seq<byte>)
    requires at + |body| <= data.Length
    modifies data
    ensures data[..] == StoreAt(old(data[..]), at, body)
  {
    var i := 0;
    while i < |body|
      invariant 0 <= i <= |body|
      invariant data[..] == old(data[..at]) + body[..i] + old(data[at + i..])
    {
      data[at + i] := body[i];
      i := i + 1;
    }
    assert body[..i] == body;
  }

  /** ResponseData: the response as the client puts it together. */
  class ResponseData {
    var messageId: nat
    var pieceState: seq<bool>
    var pieceCount: nat
    var totalSize: nat
    var isInitial: bool
    var data: array<byte>

    ghost predicate Valid()
      reads this
    {
      |pieceState| == pieceCount && (isInitial ==> data.Length == totalSize) && (!isInitial ==> pieceCount == 0)
    }

    ghost function Abs(): Incoming
      reads this, data
    {
      if isInitial then Incoming(true, pieceCount, totalSize, pieceState, data[..]) else Incoming(false, 0, 0, [], [])
    }

    constructor ()
      ensures Valid() && !isInitial && fresh(data)
    {
      messageId, pieceState, pieceCount, totalSize, isInitial := 0, [], 0, 0, false;
      data := new byte[0];
    }

    /** Only the first call has an effect. The buffer starts with whatever the pool hands out. */
    method Initialize(id: nat, pieces: nat, size: nat, memory: seq<byte>)
      requires Valid() && |memory| == size
      modifies this
      ensures Valid() && isInitial
      ensures old(isInitial) ==> Abs() == old(Abs()) && data == old(data)
      ensures !old(isInitial) ==>
        && fresh(data) && messageId == id
        && Abs() == Incoming(true, pieces, size, AllFalse(pieces), memory)
    {
      if !isInitial {
        messageId, pieceState, pieceCount, totalSize := id, AllFalse(pieces), pieces, size;
        data := new byte[size](i requires 0 <= i < size => memory[i]);
        isInitial := true;
        assert data[..] == memory;
      }
    }

    method GetAckNumber() returns (result: nat)
      requires Valid()
      ensures result == AckNumber(pieceState)
    {
      result := FirstMissing(pieceState);
    }

    method GetPieceState(index: nat) returns (reach: Reach, there: bool)
      requires Valid()
      ensures reach == IndexReach(index, pieceCount) && (reach.Within? ==> there == pieceState[index])
    {
      if index > pieceCount { return Refused, false; }
      if index == pieceCount { return Beyond, false; }
      reach, there := Within, pieceState[index];
    }

    method SetPieceState(index: nat, value: bool) returns (reach: Reach, ack: nat)
      requires Valid()
      modifies this`pieceState
      ensures Valid() && reach == IndexReach(index, pieceCount)
      ensures reach.Refused? ==> pieceState == old(pieceState)
      ensures reach.Within? ==> pieceState == old(pieceState)[index := value] && ack == AckNumber(pieceState)
    {
      if index > pieceCount { return Refused, 0; }
      if index == pieceCount { return Beyond, 0; }
      pieceState := pieceState[index := value];
      ack := GetAckNumber();
      reach := Within;
    }

    method CopyPiece(at: nat, body: seq<byte>)
      requires Valid() && isInitial && at + |body| <= data.Length
      modifies data
      ensures Valid() && data[..] == StoreAt(old(data[..]), at, body)
    {
      Copy(data, at, body);
    }
  }

  /** Response: the result on its way back. The stored acknowledgement only rises. */
  class Response {
    const pieceCount: nat
    const totalDataSize: nat
    const lastPieceSize: nat
    const data: array<byte>
    var ackAccept: nat
    var isGetNewAck: bool

    ghost function Abs(): Outgoing
      reads this, data
    {
      Outgoing(pieceCount, totalDataSize, ackAccept, data[..])
    }

    constructor (pieces: nat, size: nat, bytes: array<byte>)
      requires bytes.Length == size
      ensures Abs() == Outgoing(pieces, size, 0, bytes[..]) && data == bytes && lastPieceSize == LastPieceSize(size)
    {
      pieceCount, totalDataSize, data, ackAccept, isGetNewAck := pieces, size, bytes, 0, true;
      lastPieceSize := if size % PIECE_LIMIT == 0 then PIECE_LIMIT else size % PIECE_LIMIT;
    }

    method SetAckAccept(newAck: nat) returns (raised: bool)
      modifies this`ackAccept
      ensures raised <==> old(ackAccept) < newAck
      ensures ackAccept == if raised then newAck else old(ackAccept)
    {
      if newAck > ackAccept {
        ackAccept := newAck;
        return true;
      }
      raised := false;
    }

    method SetNewAckState(value: bool)
      modifies this`isGetNewAck
      ensures isGetNewAck == value
    {
      isGetNewAck := value;
    }
  }
}
