/** The tagged binary format on a little-endian host: what each type writes, and what a read of that
    type does with any byte string, including where it leaves the read position when it throws. */
module Serializer {

  import opened Bytes

  const MAX_STRING_LENGTH: nat := 1048576
  const MAX_BYTE_COUNT: nat := 65536
  const MAX_ELEMENT_COUNT: nat := 16777216   // vectors, arrays, lists, sets, maps
  const MAX_TUPLE_COUNT: nat := 64

  // ---- Types and values ----

  datatype Kind = Bool | Char | UInt8 | Int16 | Int32 | Int64 | UInt16 | UInt32 | UInt64 | Float | Double

  /** BlobString is std::string; the other two are raw buffers with a length known to the reader. */
  datatype BlobKind = BlobString | BlobBytes | BlobUBytes

  datatype ListKind = Vector | Array | List | Set

  datatype MapKind = Map | HashMap

  /** The C++ type a read is made for. A raw buffer and an array have their size in the type. */
  datatype Ty =
    | TScalar(kind: Kind)
    | TString
    | TBuffer(blob: BlobKind, len: nat)
    | TList(list: ListKind, elem: Ty, size: nat)
    | TMap(map_: MapKind, key: Ty, val: Ty)
    | TTuple(elems: seq<Ty>)
    | TClass(fields: seq<Ty>)

  /** A value. Floating-point numbers stand for their bit patterns. Sets and maps are enumerations:
      their elements in the order the container yields them. */
  datatype Value =
    | Scalar(kind: Kind, n: int)
    | Blob(blob: BlobKind, data: seq<byte>)
    | Elements(list: ListKind, elems: seq<Value>)
    | Table(map_: MapKind, entries: seq<Entry>)
    | Tuple(parts: seq<Value>)
    | Class(parts: seq<Value>)

  datatype Entry = Entry(key: Value, val: Value)

  function Width(kind: Kind): nat {
    match kind
    case Bool => 1 case Char => 1 case UInt8 => 1
    case Int16 => 2 case UInt16 => 2
    case Int32 => 4 case UInt32 => 4 case Float => 4
    case Int64 => 8 case UInt64 => 8 case Double => 8
  }

  predicate IsSigned(kind: Kind) { kind.Int16? || kind.Int32? || kind.Int64? }

  function Tag(kind: Kind): byte {
    match kind
    case Bool => 0 case Int16 => 1 case Int32 => 2 case Int64 => 3
    case UInt16 => 4 case UInt32 => 5 case UInt64 => 6 case Float => 7 case Double => 8
    case Char => 9 case UInt8 => 21
  }

  function BlobTag(blob: BlobKind): byte {
    match blob case BlobString => 10 case BlobBytes => 11 case BlobUBytes => 12
  }

  function ListTag(list: ListKind): byte {
    match list case Vector => 13 case List => 14 case Set => 18 case Array => 20
  }

  function MapTag(m: MapKind): byte {
    match m case Map => 15 case HashMap => 17
  }

  const TUPLE_TAG: byte := 16
  const CLASS_TAG: byte := 19

  // ---- Numbers ----

  predicate InRange(kind: Kind, n: int) {
    if kind.Bool? then 0 <= n < 2
    else if IsSigned(kind) then 0 <= 2 * n + Pow256(Width(kind)) < 2 * Pow256(Width(kind))
    else 0 <= n < Pow256(Width(kind))
  }

  /** Two's complement. */
  function Raw(kind: Kind, n: int): nat
    requires InRange(kind, n)
  {
    if n < 0 then n + Pow256(Width(kind)) else n
  }

  /** A bool is read as "not zero". */
  function FromRaw(kind: Kind, raw: nat): int {
    if kind.Bool? then (if raw == 0 then 0 else 1)
    else if IsSigned(kind) && Pow256(Width(kind)) <= 2 * raw then raw - Pow256(Width(kind))
    else raw
  }

  lemma RawRoundTrip(kind: Kind, n: int)
    requires InRange(kind, n)
    ensures Raw(kind, n) < Pow256(Width(kind)) && FromRaw(kind, Raw(kind, n)) == n
  {
    if kind.Bool? { assert Pow256(1) == 256 * Pow256(0); }
  }

  // ---- What belongs to a type ----

  /** The value is one of the type and within the size limits; map keys and set elements are distinct. */
  ghost predicate HasType(v: Value, ty: Ty)
    decreases ty, 1
  {
    match ty
    case TScalar(kind) => v.Scalar? && v.kind == kind && InRange(kind, v.n)
    case TString => v.Blob? && v.blob.BlobString? && |v.data| <= MAX_STRING_LENGTH
    case TBuffer(blob, len) => v.Blob? && v.blob == blob && |v.data| == len <= MAX_BYTE_COUNT
    case TList(list, elem, size) =>
      && v.Elements? && v.list == list && |v.elems| <= MAX_ELEMENT_COUNT
      && (list.Array? ==> |v.elems| == size) && (list.Set? ==> Distinct(v.elems))
      && AllHaveType(v.elems, elem)
    case TMap(m, key, val) =>
      && v.Table? && v.map_ == m && |v.entries| <= MAX_ELEMENT_COUNT && DistinctKeys(v.entries)
      && forall i :: 0 <= i < |v.entries| ==> HasType(v.entries[i].key, key) && HasType(v.entries[i].val, val)
    case TTuple(elems) => v.Tuple? && |elems| <= MAX_TUPLE_COUNT && HaveTypes(v.parts, elems)
    case TClass(fields) => v.Class? && HaveTypes(v.parts, fields)
  }

  ghost predicate AllHaveType(vs: seq<Value>, ty: Ty)
    decreases ty, 2
  {
    forall i :: 0 <= i < |vs| ==> HasType(vs[i], ty)
  }

  ghost predicate HaveTypes(vs: seq<Value>, tys: seq<Ty>)
    decreases tys
  {
    |vs| == |tys| && forall i :: 0 <= i < |vs| ==> HasType(vs[i], tys[i])
  }

  predicate Distinct(vs: seq<Value>) { forall i, j :: 0 <= i < j < |vs| ==> vs[i] != vs[j] }

  predicate DistinctKeys(es: seq<Entry>) { forall i, j :: 0 <= i < j < |es| ==> es[i].key != es[j].key }

  // ---- Writing ----

  function Count(n: nat): seq<byte> { LittleEndian(n, 4) }

  function Encode(v: Value): seq<byte> {
    match v
    case Scalar(kind, n) => [Tag(kind)] + (if InRange(kind, n) then LittleEndian(Raw(kind, n), Width(kind)) else [])
    case Blob(blob, data) => [BlobTag(blob)] + Count(|data|) + data
    case Elements(list, elems) => [ListTag(list)] + Count(|elems|) + EncodeAll(elems)
    case Table(m, entries) => [MapTag(m)] + Count(|entries|) + EncodeEntries(entries)
    case Tuple(parts) =>
      if parts == [] then [] else [TUPLE_TAG] + LittleEndian(|parts|, 2) + EncodeAll(parts)
    case Class(parts) => [CLASS_TAG] + EncodeAll(parts)
  }

  function EncodeAll(vs: seq<Value>): seq<byte> {
    if vs == [] then [] else Encode(vs[0]) + EncodeAll(vs[1..])
  }

  function EncodeEntry(e: Entry): seq<byte> { Encode(e.key) + Encode(e.val) }

  function EncodeEntries(es: seq<Entry>): seq<byte> {
    if es == [] then [] else EncodeEntry(es[0]) + EncodeEntries(es[1..])
  }

  lemma {:induction false} EncodeAllAppend(a: seq<Value>, b: seq<Value>)
    ensures EncodeAll(a + b) == EncodeAll(a) + EncodeAll(b)
  {
    if a == [] {
      assert a + b == b;
    } else {
      assert (a + b)[1..] == a[1..] + b;
      EncodeAllAppend(a[1..], b);
    }
  }

  lemma {:induction false} EncodeEntriesAppend(a: seq<Entry>, b: seq<Entry>)
    ensures EncodeEntries(a + b) == EncodeEntries(a) + EncodeEntries(b)
  {
    if a == [] {
      assert a + b == b;
    } else {
      assert (a + b)[1..] == a[1..] + b;
      EncodeEntriesAppend(a[1..], b);
    }
  }

  // ---- Reading ----

  datatype Error =
    | DataTypeError | InsufficientRemainingMemory
    | IllegalStringLength | IllegalBytesCount | ReadIllegalBytesCount
    | IllegalVectorCount | IllegalListCount | IllegalSetCount | IllegalMapKVCount | IllegalHashMapKVCount
    | IllegalTupleCount | IllegalParameterTupleCount

  /** A read yields a value and the new position, or throws and leaves a position, or has no defined
      behaviour: it copies bytes beyond the end of the stream, or stores beyond an array. */
  datatype Outcome<T> = Ok(value: T, pos: nat) | Throws(error: Error, pos: nat) | Undefined

  function DecodeScalar(kind: Kind, b: seq<byte>, pos: nat): Outcome<Value>
    requires pos <= |b|
  {
    if |b| - pos < 1 + Width(kind) then Throws(InsufficientRemainingMemory, pos)
    else if b[pos] != Tag(kind) then Throws(DataTypeError, pos)
    else Ok(Scalar(kind, FromRaw(kind, FromLittleEndian(b[pos + 1..pos + 1 + Width(kind)]))), pos + 1 + Width(kind))
  }

  /** Tag and 32-bit count of a container or blob; a count above the limit throws `tooMany`. */
  function DecodeCount(tag: byte, limit: nat, tooMany: Error, b: seq<byte>, pos: nat): (r: Outcome<nat>)
    requires pos <= |b|
    ensures r.Ok? ==> r.pos == pos + 5 <= |b| && r.value <= limit && b[pos] == tag
    ensures r.Throws? ==> r.pos == pos
    ensures !r.Undefined?
  {
    if pos == |b| then Throws(InsufficientRemainingMemory, pos)
    else if b[pos] != tag then Throws(DataTypeError, pos)
    else if |b| - (pos + 1) < 4 then Throws(InsufficientRemainingMemory, pos)
    else
      var n := FromLittleEndian(b[pos + 1..pos + 5]);
      if limit < n then Throws(tooMany, pos) else Ok(n, pos + 5)
  }

  /** The payload. The remaining length is measured from the tag, so a payload cut short by up to
      five bytes passes the test and is read past the end. */
  function DecodePayload(blob: BlobKind, len: nat, b: seq<byte>, start: nat): Outcome<Value>
    requires start + 5 <= |b|
  {
    if |b| - start < len then Throws(InsufficientRemainingMemory, start)
    else if |b| < start + 5 + len then Undefined
    else Ok(Blob(blob, b[start + 5..start + 5 + len]), start + 5 + len)
  }

  function DecodeString(b: seq<byte>, pos: nat): Outcome<Value>
    requires pos <= |b|
  {
    match DecodeCount(BlobTag(BlobString), MAX_STRING_LENGTH, IllegalStringLength, b, pos)
    case Ok(len, _) => DecodePayload(BlobString, len, b, pos)
    case Throws(e, p) => Throws(e, p)
    case Undefined => Undefined
  }

  /** A length that differs from the one asked for throws with the position behind the tag. */
  function DecodeBuffer(blob: BlobKind, asked: nat, b: seq<byte>, pos: nat): Outcome<Value>
    requires pos <= |b|
  {
    match DecodeCount(BlobTag(blob), MAX_BYTE_COUNT, IllegalBytesCount, b, pos)
    case Ok(len, _) => if len != asked then Throws(ReadIllegalBytesCount, pos + 1) else DecodePayload(blob, len, b, pos)
    case Throws(e, p) => Throws(e, p)
    case Undefined => Undefined
  }

  function TooMany(list: ListKind): Error {
    match list
    case Vector => IllegalVectorCount case Array => IllegalVectorCount
    case List => IllegalListCount case Set => IllegalSetCount
  }

  function TooManyPairs(m: MapKind): Error {
    match m case Map => IllegalMapKVCount case HashMap => IllegalHashMapKVCount
  }

  // ---- Limits on writing ----

  datatype WriteError =
    | TheStringLengthExceedsTheLimit | TheBytesCountExceedsTheLimit | TheVectorCountExceedsTheLimit
    | TheListCountExceedsTheLimit | TheSetSizeExceedsTheLimit | TheMapKVCountExceedsTheLimit
    | TheHashMapKVCountExceedsTheLimit | TheTupleCountExceedsTheLimit

  /** A C++ value: numbers fit their types, lengths and counts fit the integers that hold them, and
      arrays respect the compile-time limit. */
  ghost predicate Representable(v: Value) {
    match v
    case Scalar(kind, n) => InRange(kind, n)
    case Blob(_, data) => |data| < Pow256(4)
    case Elements(list, elems) =>
      (list.Array? ==> |elems| < MAX_ELEMENT_COUNT) && forall i :: 0 <= i < |elems| ==> Representable(elems[i])
    case Table(_, entries) => forall i :: 0 <= i < |entries| ==> RepresentableEntry(entries[i])
    case Tuple(parts) => |parts| < Pow256(2) && forall i :: 0 <= i < |parts| ==> Representable(parts[i])
    case Class(parts) => forall i :: 0 <= i < |parts| ==> Representable(parts[i])
  }

  ghost predicate RepresentableEntry(e: Entry) { Representable(e.key) && Representable(e.val) }

  /** No length or count anywhere in the value is above its limit. */
  ghost predicate WithinLimits(v: Value) {
    match v
    case Scalar(_, _) => true
    case Blob(blob, data) => |data| <= (if blob.BlobString? then MAX_STRING_LENGTH else MAX_BYTE_COUNT)
    case Elements(_, elems) => |elems| <= MAX_ELEMENT_COUNT && forall i :: 0 <= i < |elems| ==> WithinLimits(elems[i])
    case Table(_, entries) => |entries| <= MAX_ELEMENT_COUNT && forall i :: 0 <= i < |entries| ==> EntryWithinLimits(entries[i])
    case Tuple(parts) => |parts| <= MAX_TUPLE_COUNT && forall i :: 0 <= i < |parts| ==> WithinLimits(parts[i])
    case Class(parts) => forall i :: 0 <= i < |parts| ==> WithinLimits(parts[i])
  }

  ghost predicate EntryWithinLimits(e: Entry) { WithinLimits(e.key) && WithinLimits(e.val) }

  /** How a container takes in one more element: a set ignores one it has. */
  function Insert(list: ListKind, elems: seq<Value>, v: Value): seq<Value> {
    if list.Set? && v in elems then elems else elems + [v]
  }

  /** `value[k] = v`: a key that is there keeps its place and gets the new value. */
  function Assign(es: seq<Entry>, k: Value, v: Value): seq<Entry> {
    if es == [] then [Entry(k, v)]
    else if es[0].key == k then [Entry(k, v)] + es[1..]
    else [es[0]] + Assign(es[1..], k, v)
  }

  /** A container that catches an error puts the position back to its start. */
  function Rewind<T>(r: Outcome<T>, pos: nat): Outcome<T> {
    if r.Throws? then Throws(r.error, pos) else r
  }

  function Decode(ty: Ty, b: seq<byte>, pos: nat): (r: Outcome<Value>)
    requires pos <= |b|
    ensures !r.Undefined? ==> pos <= r.pos <= |b|
    decreases ty, 2, 0
  {
    match ty
    case TScalar(kind) => DecodeScalar(kind, b, pos)
    case TString => DecodeString(b, pos)
    case TBuffer(blob, len) => DecodeBuffer(blob, len, b, pos)
    case TList(list, elem, size) => DecodeList(list, elem, size, b, pos)
    case TMap(m, key, val) => DecodeMap(m, key, val, b, pos)
    case TTuple(elems) => DecodeTuple(elems, b, pos)
    case TClass(fields) =>
      if pos == |b| then Throws(InsufficientRemainingMemory, pos)
      else if b[pos] != CLASS_TAG then Throws(DataTypeError, pos)
      else match DecodeParts(fields, b, pos + 1)
        case Ok(vs, p) => Ok(Class(vs), p)
        case Throws(e, p) => Throws(e, p)
        case Undefined => Undefined
  }

  /** Elements are stored as many as the stream says; an array of fewer is overrun. */
  function DecodeList(list: ListKind, elem: Ty, size: nat, b: seq<byte>, pos: nat): (r: Outcome<Value>)
    requires pos <= |b|
    ensures !r.Undefined? ==> pos <= r.pos <= |b|
    decreases elem, 4, 0
  {
    match DecodeCount(ListTag(list), MAX_ELEMENT_COUNT, TooMany(list), b, pos)
    case Throws(e, p) => Throws(e, p)
    case Undefined => Undefined
    case Ok(n, p) =>
      if list.Array? && size < n then Undefined
      else match Rewind(DecodeElements(list, elem, n, b, p, []), pos)
        case Ok(vs, q) => Ok(Elements(list, vs), q)
        case Throws(e, q) => Throws(e, q)
        case Undefined => Undefined
  }

  function DecodeElements(list: ListKind, elem: Ty, n: nat, b: seq<byte>, pos: nat, acc: seq<Value>): (r: Outcome<seq<Value>>)
    requires pos <= |b|
    ensures !r.Undefined? ==> pos <= r.pos <= |b|
    decreases elem, 3, n
  {
    if n == 0 then Ok(acc, pos)
    else match Decode(elem, b, pos)
      case Ok(v, p) => DecodeElements(list, elem, n - 1, b, p, Insert(list, acc, v))
      case Throws(e, p) => Throws(e, p)
      case Undefined => Undefined
  }

  function DecodeMap(m: MapKind, key: Ty, val: Ty, b: seq<byte>, pos: nat): (r: Outcome<Value>)
    requires pos <= |b|
    ensures !r.Undefined? ==> pos <= r.pos <= |b|
    decreases TMap(m, key, val), 1, 0
  {
    match DecodeCount(MapTag(m), MAX_ELEMENT_COUNT, TooManyPairs(m), b, pos)
    case Throws(e, p) => Throws(e, p)
    case Undefined => Undefined
    case Ok(n, p) =>
      match Rewind(DecodeEntries(m, key, val, n, b, p, []), pos)
      case Ok(es, q) => Ok(Table(m, es), q)
      case Throws(e, q) => Throws(e, q)
      case Undefined => Undefined
  }

  function DecodeEntries(m: MapKind, key: Ty, val: Ty, n: nat, b: seq<byte>, pos: nat, acc: seq<Entry>): (r: Outcome<seq<Entry>>)
    requires pos <= |b|
    ensures !r.Undefined? ==> pos <= r.pos <= |b|
    decreases TMap(m, key, val), 0, n
  {
    if n == 0 then Ok(acc, pos)
    else match Decode(key, b, pos)
      case Throws(e, p) => Throws(e, p)
      case Undefined => Undefined
      case Ok(k, p) =>
        match Decode(val, b, p)
        case Throws(e, q) => Throws(e, q)
        case Undefined => Undefined
        case Ok(v, q) => DecodeEntries(m, key, val, n - 1, b, q, Assign(acc, k, v))
  }

  /** The count is 16 bits wide and must equal the tuple's own; an empty tuple reads nothing. */
  function DecodeTuple(elems: seq<Ty>, b: seq<byte>, pos: nat): (r: Outcome<Value>)
    requires pos <= |b|
    ensures !r.Undefined? ==> pos <= r.pos <= |b|
    decreases elems, 1
  {
    if elems == [] then Ok(Tuple([]), pos)
    else if pos == |b| then Throws(InsufficientRemainingMemory, pos)
    else if b[pos] != TUPLE_TAG then Throws(DataTypeError, pos)
    else if |b| - (pos + 1) < 2 then Throws(InsufficientRemainingMemory, pos)
    else
      var n := FromLittleEndian(b[pos + 1..pos + 3]);
      if MAX_TUPLE_COUNT < n then Throws(IllegalTupleCount, pos)
      else if n != |elems| then Throws(IllegalParameterTupleCount, pos)
      else match Rewind(DecodeParts(elems, b, pos + 3), pos)
        case Ok(vs, q) => Ok(Tuple(vs), q)
        case Throws(e, q) => Throws(e, q)
        case Undefined => Undefined
  }

  function DecodeParts(tys: seq<Ty>, b: seq<byte>, pos: nat): (r: Outcome<seq<Value>>)
    requires pos <= |b|
    ensures !r.Undefined? ==> pos <= r.pos <= |b|
    decreases tys, 0
  {
    if tys == [] then Ok([], pos)
    else match Decode(tys[0], b, pos)
      case Throws(e, p) => Throws(e, p)
      case Undefined => Undefined
      case Ok(v, p) =>
        match DecodeParts(tys[1..], b, p)
        case Ok(vs, q) => Ok([v] + vs, q)
        case Throws(e, q) => Throws(e, q)
        case Undefined => Undefined
  }
}
