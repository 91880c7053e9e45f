/** The 26-byte SR2P header in network byte order, on a little-endian host: the writer and the setters
    work in place on a buffer, the parser computes from it. */
module Protocol {

  import opened Wrappers
  import opened Bytes

  const HEADER_SIZE: nat := 26
  const PIECE_LIMIT: nat := 522
  const SYNCHRONOUS_WORD: byte := 0xF0
  const WORD16: nat := 65536

  datatype Phase = Request | Response

  datatype Kind =
    | RequestSend | HearBeat | ReceiverACK | RequestACK | TimedOutRequestHeartbeat
    | TimedOutResponseHeartbeat | UnsupportedNetworkProtocol | StateReset | TheServerResourcesExhausted

  datatype Header = Header(
    phase: Phase, kind: Kind, order: nat, size: nat, acceptMin: nat, id: nat,
    count: nat, standard: nat, total: nat, ack: nat)

  function PhaseCode(p: Phase): byte { if p.Request? then 0 else 1 }

  function KindCode(k: Kind): byte {
    match k
    case RequestSend => 0 case HearBeat => 1 case ReceiverACK => 2 case RequestACK => 3
    case TimedOutRequestHeartbeat => 4 case TimedOutResponseHeartbeat => 5
    case UnsupportedNetworkProtocol => 6 case StateReset => 7 case TheServerResourcesExhausted => 8
  }

  function PhaseOf(code: nat): Option<Phase> {
    if code == 0 then Some(Request) else if code == 1 then Some(Response) else None
  }

  function KindOf(code: nat): Option<Kind> {
    if code == 0 then Some(RequestSend) else if code == 1 then Some(HearBeat)
    else if code == 2 then Some(ReceiverACK) else if code == 3 then Some(RequestACK)
    else if code == 4 then Some(TimedOutRequestHeartbeat) else if code == 5 then Some(TimedOutResponseHeartbeat)
    else if code == 6 then Some(UnsupportedNetworkProtocol) else if code == 7 then Some(StateReset)
    else if code == 8 then Some(TheServerResourcesExhausted) else None
  }

  // ---- Cutting a message into pieces ----

  /** How many pieces n bytes make. */
  function PieceCount(n: nat): nat { n / PIECE_LIMIT + (if n % PIECE_LIMIT == 0 then 0 else 1) }

  /** The size of the last piece. */
  function LastPieceSize(n: nat): nat { if n % PIECE_LIMIT == 0 then PIECE_LIMIT else n % PIECE_LIMIT }

  function PieceSize(n: nat, i: nat): nat { if i == PieceCount(n) - 1 then LastPieceSize(n) else PIECE_LIMIT }

  /** The pieces tile the message. */
  lemma PiecesTile(n: nat, i: nat)
    requires i < PieceCount(n)
    ensures 0 < PieceSize(n, i) && PIECE_LIMIT * i + PieceSize(n, i) <= n
    ensures i + 1 < PieceCount(n) ==> PIECE_LIMIT * i + PieceSize(n, i) == PIECE_LIMIT * (i + 1)
    ensures i + 1 == PieceCount(n) ==> PIECE_LIMIT * i + PieceSize(n, i) == n
  {}

  /** getSendCount: the window, by the number of pieces. */
  function SendCount(pieces: nat): (times: nat)
    ensures 1 <= times <= 7
  {
    if pieces <= 3 then 1 else if pieces <= 10 then 3 else if pieces <= 1024 then 5 else 7
  }

  // ---- The format ----

  predicate Fits(h: Header) {
    && h.order < WORD16 && h.size < WORD16 && h.acceptMin < WORD16 && h.id < Pow256(8)
    && h.count < WORD16 && h.standard < WORD16 && h.total < Pow256(4) && h.ack < WORD16
  }

  function Packed(h: Header): byte { PhaseCode(h.phase) * 16 + KindCode(h.kind) }

  function Encode(h: Header): (b: seq<byte>)
    ensures |b| == HEADER_SIZE
  {
    [SYNCHRONOUS_WORD, Packed(h)] + BigEndian(h.order, 2) + BigEndian(h.size, 2) + BigEndian(h.acceptMin, 2)
    + BigEndian(h.id, 8) + BigEndian(h.count, 2) + BigEndian(h.standard, 2) + BigEndian(h.total, 4) + BigEndian(h.ack, 2)
  }

  function Field(b: seq<byte>, at: nat, width: nat): nat
    requires at + width <= |b|
  {
    FromBigEndian(b[at..at + width])
  }

  /** parse: refuses a short buffer, a wrong synchronous word, an unknown phase or an unknown type. */
  function Parse(b: seq<byte>): Option<Header> {
    if |b| < HEADER_SIZE || b[0] != SYNCHRONOUS_WORD then None
    else
      var phase, kind := PhaseOf(b[1] / 16), KindOf(b[1] % 16);
      if phase.None? || kind.None? then None
      else Some(Header(phase.value, kind.value, Field(b, 2, 2), Field(b, 4, 2), Field(b, 6, 2), Field(b, 8, 8),
                       Field(b, 16, 2), Field(b, 18, 2), Field(b, 20, 4), Field(b, 24, 2)))
  }

  /** The slices of an encoded header are its fields. */
  lemma EncodedFields(h: Header, body: seq<byte>)
    ensures var b := Encode(h) + body;
      && b[0] == SYNCHRONOUS_WORD && b[1] == Packed(h)
      && b[2..4] == BigEndian(h.order, 2) && b[4..6] == BigEndian(h.size, 2) && b[6..8] == BigEndian(h.acceptMin, 2)
      && b[8..16] == BigEndian(h.id, 8) && b[16..18] == BigEndian(h.count, 2) && b[18..20] == BigEndian(h.standard, 2)
      && b[20..24] == BigEndian(h.total, 4) && b[24..26] == BigEndian(h.ack, 2)
  {
    hide BigEndian;
  }

  /** What is written is what is parsed, whatever follows the header. */
  lemma ParseEncoded(h: Header, body: seq<byte>)
    requires Fits(h)
    ensures Parse(Encode(h) + body) == Some(h)
  {
    EncodedFields(h, body);
    Pow256Values();
    hide Encode, BigEndian, FromBigEndian, Pow256;
    BigEndianRoundTrip(h.order, 2);
    BigEndianRoundTrip(h.size, 2);
    BigEndianRoundTrip(h.acceptMin, 2);
    BigEndianRoundTrip(h.id, 8);
    BigEndianRoundTrip(h.count, 2);
    BigEndianRoundTrip(h.standard, 2);
    BigEndianRoundTrip(h.total, 4);
    BigEndianRoundTrip(h.ack, 2);
  }

  lemma {:induction false} FromBigEndianRoundTrip(b: seq<byte>)
    ensures BigEndian(FromBigEndian(b), |b|) == b
  {
    if b != [] {
      FromBigEndianRoundTrip(b[..|b| - 1]);
      assert b == b[..|b| - 1] + [b[|b| - 1]];
    }
  }

  lemma FieldRoundTrip(b: seq<byte>, at: nat, width: nat)
    requires at + width <= |b|
    ensures BigEndian(Field(b, at, width), width) == b[at..at + width] && Field(b, at, width) < Pow256(width)
  {
    FromBigEndianRoundTrip(b[at..at + width]);
    FromBigEndianBound(b[at..at + width]);
  }

  lemma Tiles(b: seq<byte>)
    requires HEADER_SIZE <= |b|
    ensures b[..HEADER_SIZE] ==
      [b[0], b[1]] + b[2..4] + b[4..6] + b[6..8] + b[8..16] + b[16..18] + b[18..20] + b[20..24] + b[24..26]
  {}

  /** The header is the whole of the first 26 bytes: no two of them parse alike. */
  lemma EncodeParsed(b: seq<byte>)
    requires Parse(b).Some?
    ensures Fits(Parse(b).value) && b[..HEADER_SIZE] == Encode(Parse(b).value)
  {
    var h := Parse(b).value;
    Pow256Values();
    hide BigEndian, Field, Pow256;
    FieldRoundTrip(b, 2, 2);
    FieldRoundTrip(b, 4, 2);
    FieldRoundTrip(b, 6, 2);
    FieldRoundTrip(b, 8, 8);
    FieldRoundTrip(b, 16, 2);
    FieldRoundTrip(b, 18, 2);
    FieldRoundTrip(b, 20, 4);
    FieldRoundTrip(b, 24, 2);
    assert b[1] == Packed(h);
    hide Parse, PhaseOf, KindOf;
    Tiles(b);
  }

  // ---- Writing in place ----

  /** A freshly initiated header: phase and type zero, order, acceptMin and ack zero. */
  function Fresh(id: nat, total: nat): Header {
    Header(Request, RequestSend, 0, HEADER_SIZE, 0, id, PieceCount(total) % WORD16, PIECE_LIMIT, total, 0)
  }

  /** Store a number in network order at an offset. */
  method Store(buffer: array<byte>, at: nat, n: nat, width: nat)
    requires at + width <= buffer.Length
    modifies buffer
    ensures buffer[..] == old(buffer[..at]) + BigEndian(n, width) + old(buffer[at + width..])
  {
    var b := BigEndian(n, width);
    var i := 0;
    while i < width
      invariant 0 <= i <= width
      invariant buffer[..] == old(buffer[..at]) + b[..i] + old(buffer[at + i..])
    {
      buffer[at + i] := b[i];
      i := i + 1;
    }
    assert b[..i] == b;
  }

  /** Fields written one behind the other. */
  method StoreNext(buffer: array<byte>, at: nat, ghost done: seq<byte>, ghost was: seq<byte>, n: nat, width: nat)
    returns (ghost done': seq<byte>)
    requires at == |done| && at + width <= buffer.Length == |was| && buffer[..] == done + was[|done|..]
    modifies buffer
    ensures done' == done + BigEndian(n, width) && |done'| == at + width
    ensures buffer[..] == done' + was[|done'|..]
  {
    hide BigEndian;
    assert buffer[..|done|] == done && buffer[|done| + width..] == was[|done| + width..];
    Store(buffer, at, n, width);
    done' := done + BigEndian(n, width);
  }

  /** initiateSenderProtocolHeader */
  method Initiate(buffer: array<byte>, id: nat, total: nat, protocolSize: nat) returns (ok: bool)
    requires HEADER_SIZE <= buffer.Length && id < Pow256(8) && total < Pow256(4)
    modifies buffer
    ensures ok <==> HEADER_SIZE <= protocolSize
    ensures ok ==> buffer[..] == Encode(Fresh(id, total)) + old(buffer[HEADER_SIZE..])
    ensures !ok ==> buffer[..] == old(buffer[..])
  {
    if protocolSize < HEADER_SIZE { return false; }
    hide BigEndian, PieceCount;
    ghost var was := buffer[..];
    buffer[0] := SYNCHRONOUS_WORD;
    buffer[1] := 0;
    ghost var done: seq<byte> := [SYNCHRONOUS_WORD, 0];
    assert buffer[..] == done + was[2..];
    done := StoreNext(buffer, 2, done, was, 0, 2);
    done := StoreNext(buffer, 4, done, was, HEADER_SIZE, 2);
    done := StoreNext(buffer, 6, done, was, 0, 2);
    done := StoreNext(buffer, 8, done, was, id, 8);
    done := StoreNext(buffer, 16, done, was, PieceCount(total) % WORD16, 2);
    done := StoreNext(buffer, 18, done, was, PIECE_LIMIT, 2);
    done := StoreNext(buffer, 20, done, was, total, 4);
    done := StoreNext(buffer, 24, done, was, 0, 2);
    ok := true;
  }

  /** The buffer starts with this header. */
  ghost predicate Carries(b: seq<byte>, h: Header) { HEADER_SIZE <= |b| && b[..HEADER_SIZE] == Encode(h) }

  method SetProtocolType(buffer: array<byte>, kind: Kind, ghost h: Header)
    requires Carries(buffer[..], h)
    modifies buffer
    ensures buffer[..] == Encode(h.(kind := kind)) + old(buffer[HEADER_SIZE..])
  {
    ghost var b := buffer[..];
    CarriedFields(b, h);
    buffer[1] := buffer[1] / 16 * 16 + KindCode(kind);
    hide BigEndian, Encode;
    Repacked(b, h, h.(kind := kind));
  }

  method SetProtocolPhase(buffer: array<byte>, phase: Phase, ghost h: Header)
    requires Carries(buffer[..], h)
    modifies buffer
    ensures buffer[..] == Encode(h.(phase := phase)) + old(buffer[HEADER_SIZE..])
  {
    ghost var b := buffer[..];
    CarriedFields(b, h);
    buffer[1] := PhaseCode(phase) * 16 + buffer[1] % 16;
    hide BigEndian, Encode;
    Repacked(b, h, h.(phase := phase));
  }

  method SetProtocolOrderAndSize(buffer: array<byte>, order: nat, size: nat, ghost h: Header)
    requires Carries(buffer[..], h) && order < WORD16 && size < WORD16
    modifies buffer
    ensures buffer[..] == Encode(h.(order := order, size := size)) + old(buffer[HEADER_SIZE..])
  {
    hide BigEndian;
    ghost var b := buffer[..];
    assert b == Encode(h) + b[HEADER_SIZE..];
    Store(buffer, 2, order, 2);
    Store(buffer, 4, size, 2);
  }

  method SetACKAcceptOrder(buffer: array<byte>, ack: nat, ghost h: Header)
    requires Carries(buffer[..], h) && ack < WORD16
    modifies buffer
    ensures buffer[..] == Encode(h.(ack := ack)) + old(buffer[HEADER_SIZE..])
  {
    hide BigEndian;
    ghost var b := buffer[..];
    assert b == Encode(h) + b[HEADER_SIZE..];
    Store(buffer, 24, ack, 2);
  }

  lemma CarriedFields(b: seq<byte>, h: Header)
    requires Carries(b, h)
    ensures b[1] == Packed(h) && b[1] / 16 == PhaseCode(h.phase) && b[1] % 16 == KindCode(h.kind)
  {
    EncodedFields(h, []);
    assert b[1] == b[..HEADER_SIZE][1];
    hide Encode;
    assert (Encode(h) + [])[1] == Encode(h)[1];
  }

  /** Changing the second byte changes the phase and the type and nothing else. */
  lemma Repacked(b: seq<byte>, h: Header, h': Header)
    requires Carries(b, h) && h' == h.(phase := h'.phase, kind := h'.kind)
    ensures b[1 := Packed(h')] == Encode(h') + b[HEADER_SIZE..]
  {
    hide BigEndian;
    assert b == Encode(h) + b[HEADER_SIZE..];
    assert Encode(h') == Encode(h)[1 := Packed(h')];
  }
}
