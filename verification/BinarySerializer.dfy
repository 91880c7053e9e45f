/** The serializer object: a byte stream that grows by doubling and a read position, with the writing
    and reading methods of each type. What they do to the object is stated by Encode and Decode. */
module BinarySerializer {

  import opened Wrappers
  import opened Bytes
  import opened Serializer

  const DEFAULT_CAPACITY: nat := 32

  function Doubled(cap: nat, times: nat): nat {
    if times == 0 then cap else 2 * Doubled(cap, times - 1)
  }

  /** The doubling loop of `expansion` reaches the room it needs if and only if it starts from some
      capacity, or needs none: from the capacity zero of a moved-from stream it never ends. */
  lemma ExpansionEnds(cap: nat, size: nat, len: nat)
    requires size <= cap
    ensures (exists times: nat :: len <= Doubled(cap, times) - size) <==> 0 < cap || len == 0
  {
    if 0 < cap {
      DoubledGrows(cap, size + len);
      assert len <= Doubled(cap, size + len) - size;
    } else {
      forall times: nat ensures Doubled(cap, times) == 0 { DoubledZero(times); }
      if len == 0 { assert len <= Doubled(cap, 0) - size; }
    }
  }

  lemma {:induction false} DoubledGrows(cap: nat, times: nat)
    requires 0 < cap
    ensures times < Doubled(cap, times)
  {
    if times > 0 { DoubledGrows(cap, times - 1); }
  }

  lemma {:induction false} DoubledZero(times: nat)
    ensures Doubled(0, times) == 0
  {
    if times > 0 { DoubledZero(times - 1); }
  }

  class BinarySerializer {
    var byteStream: seq<byte>
    var capacity: nat
    var readPosition: nat

    ghost predicate Valid()
      reads this
    {
      |byteStream| <= capacity && 0 < capacity && readPosition <= |byteStream|
    }

    constructor ()
      ensures Valid() && byteStream == [] && readPosition == 0 && capacity == DEFAULT_CAPACITY
    {
      byteStream, capacity, readPosition := [], DEFAULT_CAPACITY, 0;
    }

    /** Double the capacity until `len` more bytes fit, and no further. */
    method Expansion(len: nat)
      requires Valid()
      modifies this`capacity
      ensures Valid() && len <= capacity - |byteStream|
      ensures exists times: nat :: capacity == Doubled(old(capacity), times)
                && forall fewer: nat :: fewer < times ==> Doubled(old(capacity), fewer) - |byteStream| < len
    {
      ghost var times: nat := 0;
      if capacity - |byteStream| < len {
        var cap := capacity;
        while cap - |byteStream| < len
          invariant 0 < cap && |byteStream| <= cap && cap == Doubled(capacity, times)
          invariant forall fewer: nat :: fewer < times ==> Doubled(capacity, fewer) - |byteStream| < len
          decreases |byteStream| + len - cap
        {
          cap, times := cap * 2, times + 1;
        }
        capacity := cap;
      }
      assert capacity == Doubled(old(capacity), times);
    }

    method Write(data: seq<byte>)
      requires Valid()
      modifies this`byteStream, this`capacity
      ensures Valid() && byteStream == old(byteStream) + data
    {
      if 0 < |data| {
        Expansion(|data|);
        byteStream := byteStream + data;
      }
    }

    // ---- Writing ----

    method InputScalar(kind: Kind, n: int)
      requires Valid() && InRange(kind, n)
      modifies this`byteStream, this`capacity
      ensures Valid() && byteStream == old(byteStream) + Encode(Scalar(kind, n))
    {
      hide LittleEndian;
      Write([Tag(kind)]);
      Write(LittleEndian(Raw(kind, n), Width(kind)));
    }

    method InputBlob(blob: BlobKind, data: seq<byte>) returns (failed: Option<WriteError>)
      requires Valid() && Representable(Blob(blob, data))
      modifies this`byteStream, this`capacity
      ensures Valid() && (failed.None? <==> WithinLimits(Blob(blob, data)))
      ensures byteStream == if failed.None? then old(byteStream) + Encode(Blob(blob, data)) else old(byteStream)
    {
      if |data| > if blob.BlobString? then MAX_STRING_LENGTH else MAX_BYTE_COUNT {
        return Some(if blob.BlobString? then TheStringLengthExceedsTheLimit else TheBytesCountExceedsTheLimit);
      }
      Write([BlobTag(blob)]);
      Write(Count(|data|));
      Write(data);
      failed := None;
    }

    /** The tag goes out before the count is checked, so a refused container leaves its tag behind. */
    method InputHead(tag: byte, n: nat, tooMany: WriteError) returns (failed: Option<WriteError>)
      requires Valid()
      modifies this`byteStream, this`capacity
      ensures Valid() && (failed.None? <==> n <= MAX_ELEMENT_COUNT)
      ensures byteStream == old(byteStream) + [tag] + (if failed.None? then Count(n) else [])
    {
      Write([tag]);
      if n > MAX_ELEMENT_COUNT { return Some(tooMany); }
      Write(Count(n));
      failed := None;
    }

    method InputElements(vs: seq<Value>) returns (failed: Option<WriteError>)
      requires Valid() && forall i :: 0 <= i < |vs| ==> Representable(vs[i])
      modifies this`byteStream, this`capacity
      ensures Valid() && (failed.None? <==> forall i :: 0 <= i < |vs| ==> WithinLimits(vs[i]))
      ensures if failed.None? then byteStream == old(byteStream) + EncodeAll(vs) else old(byteStream) <= byteStream
      decreases vs, 1
    {
      hide Encode, WithinLimits, Representable;
      var i := 0;
      while i < |vs|
        invariant 0 <= i <= |vs| && Valid()
        invariant forall j :: 0 <= j < i ==> WithinLimits(vs[j])
        invariant byteStream == old(byteStream) + EncodeAll(vs[..i])
      {
        EncodeAllSnoc(vs, i);
        failed := Input(vs[i]);
        if failed.Some? { return; }
        i := i + 1;
      }
      assert vs[..i] == vs;
      failed := None;
    }

    method InputEntries(es: seq<Entry>) returns (failed: Option<WriteError>)
      requires Valid() && forall i :: 0 <= i < |es| ==> RepresentableEntry(es[i])
      modifies this`byteStream, this`capacity
      ensures Valid() && (failed.None? <==> forall i :: 0 <= i < |es| ==> EntryWithinLimits(es[i]))
      ensures if failed.None? then byteStream == old(byteStream) + EncodeEntries(es) else old(byteStream) <= byteStream
      decreases es, 1
    {
      hide Encode, WithinLimits, Representable, EncodeEntry;
      var i := 0;
      while i < |es|
        invariant 0 <= i <= |es| && Valid()
        invariant forall j :: 0 <= j < i ==> EntryWithinLimits(es[j])
        invariant byteStream == old(byteStream) + EncodeEntries(es[..i])
      {
        EncodeEntriesSnoc(es, i);
        failed := InputEntry(es[i]);
        if failed.Some? { return; }
        i := i + 1;
      }
      assert es[..i] == es;
      failed := None;
    }

    method InputEntry(e: Entry) returns (failed: Option<WriteError>)
      requires Valid() && RepresentableEntry(e)
      modifies this`byteStream, this`capacity
      ensures Valid() && (failed.None? <==> EntryWithinLimits(e))
      ensures if failed.None? then byteStream == old(byteStream) + EncodeEntry(e) else old(byteStream) <= byteStream
      decreases e, 0
    {
      hide Encode, WithinLimits, Representable;
      failed := Input(e.key);
      if failed.None? { failed := Input(e.val); }
    }

    /** `input` of any value: it fails exactly when some length or count is above its limit, and
        otherwise appends the encoding. */
    method Input(v: Value) returns (failed: Option<WriteError>)
      requires Valid() && Representable(v)
      modifies this`byteStream, this`capacity
      ensures Valid() && (failed.None? <==> WithinLimits(v))
      ensures if failed.None? then byteStream == old(byteStream) + Encode(v) else old(byteStream) <= byteStream
      decreases v, 0
    {
      hide Encode, WithinLimits;
      WithinLimitsScalar(v);
      match v {
        case Scalar(kind, n) => InputScalar(kind, n); failed := None;
        case Blob(blob, data) => failed := InputBlob(blob, data);
        case Elements(list, elems) => failed := InputList(list, elems);
        case Table(m, entries) => failed := InputMap(m, entries);
        case Tuple(parts) => failed := InputTuple(parts);
        case Class(parts) => failed := InputClass(parts);
      }
    }

    method InputClass(parts: seq<Value>) returns (failed: Option<WriteError>)
      requires Valid() && Representable(Class(parts))
      modifies this`byteStream, this`capacity
      ensures Valid() && (failed.None? <==> WithinLimits(Class(parts)))
      ensures if failed.None? then byteStream == old(byteStream) + Encode(Class(parts)) else old(byteStream) <= byteStream
      decreases parts, 2
    {
      hide Encode, EncodeAll, WithinLimits, Representable;
      Unfold(Class(parts));
      Write([CLASS_TAG]);
      failed := InputElements(parts);
    }

    method InputList(list: ListKind, elems: seq<Value>) returns (failed: Option<WriteError>)
      requires Valid() && Representable(Elements(list, elems))
      modifies this`byteStream, this`capacity
      ensures Valid() && (failed.None? <==> WithinLimits(Elements(list, elems)))
      ensures if failed.None? then byteStream == old(byteStream) + Encode(Elements(list, elems)) else old(byteStream) <= byteStream
      decreases elems, 2
    {
      hide Encode, EncodeAll, WithinLimits, Representable;
      Unfold(Elements(list, elems));
      failed := InputHead(ListTag(list), |elems|, TooManyToWrite(list));
      if failed.None? { failed := InputElements(elems); }
    }

    method InputMap(m: MapKind, entries: seq<Entry>) returns (failed: Option<WriteError>)
      requires Valid() && Representable(Table(m, entries))
      modifies this`byteStream, this`capacity
      ensures Valid() && (failed.None? <==> WithinLimits(Table(m, entries)))
      ensures if failed.None? then byteStream == old(byteStream) + Encode(Table(m, entries)) else old(byteStream) <= byteStream
      decreases entries, 2
    {
      hide Encode, EncodeEntries, WithinLimits, Representable, RepresentableEntry, EntryWithinLimits;
      Unfold(Table(m, entries));
      failed := InputHead(MapTag(m), |entries|, TooManyPairsToWrite(m));
      if failed.None? { failed := InputEntries(entries); }
    }

    method InputTuple(parts: seq<Value>) returns (failed: Option<WriteError>)
      requires Valid() && Representable(Tuple(parts))
      modifies this`byteStream, this`capacity
      ensures Valid() && (failed.None? <==> WithinLimits(Tuple(parts)))
      ensures if failed.None? then byteStream == old(byteStream) + Encode(Tuple(parts)) else old(byteStream) <= byteStream
      decreases parts, 2
    {
      hide Encode, EncodeAll, WithinLimits, Representable, LittleEndian;
      Unfold(Tuple(parts));
      if parts == [] { return None; }
      Write([TUPLE_TAG]);
      if |parts| > MAX_TUPLE_COUNT { return Some(TheTupleCountExceedsTheLimit); }
      Write(LittleEndian(|parts|, 2));
      failed := InputElements(parts);
      assert old(byteStream) + [TUPLE_TAG] + LittleEndian(|parts|, 2) + EncodeAll(parts)
        == old(byteStream) + ([TUPLE_TAG] + LittleEndian(|parts|, 2) + EncodeAll(parts));
    }

    // ---- Reading ----

    method OutputScalar(kind: Kind) returns (r: Outcome<Value>)
      requires Valid()
      modifies this`readPosition
      ensures Valid() && r == DecodeScalar(kind, byteStream, old(readPosition)) && readPosition == r.pos
    {
      if |byteStream| - readPosition < 1 + Width(kind) { return Throws(InsufficientRemainingMemory, readPosition); }
      if byteStream[readPosition] != Tag(kind) { return Throws(DataTypeError, readPosition); }
      readPosition := readPosition + 1;
      var raw := FromLittleEndian(byteStream[readPosition..readPosition + Width(kind)]);
      readPosition := readPosition + Width(kind);
      r := Ok(Scalar(kind, FromRaw(kind, raw)), readPosition);
    }

    /** Tag and count; when it throws, the position is back where it was. */
    method OutputCount(tag: byte, limit: nat, tooMany: Error) returns (r: Outcome<nat>)
      requires Valid()
      modifies this`readPosition
      ensures Valid() && r == DecodeCount(tag, limit, tooMany, byteStream, old(readPosition)) && readPosition == r.pos
    {
      if readPosition == |byteStream| { return Throws(InsufficientRemainingMemory, readPosition); }
      if byteStream[readPosition] != tag { return Throws(DataTypeError, readPosition); }
      var defaultPosition := readPosition;
      readPosition := readPosition + 1;
      if |byteStream| - readPosition < 4 {
        readPosition := defaultPosition;
        return Throws(InsufficientRemainingMemory, defaultPosition);
      }
      var n := FromLittleEndian(byteStream[readPosition..readPosition + 4]);
      if n > limit {
        readPosition := defaultPosition;
        return Throws(tooMany, defaultPosition);
      }
      readPosition := readPosition + 4;
      r := Ok(n, readPosition);
    }

    method OutputString() returns (r: Outcome<Value>)
      requires Valid()
      modifies this`readPosition
      ensures Valid() && r == DecodeString(byteStream, old(readPosition))
      ensures !r.Undefined? ==> readPosition == r.pos
    {
      var defaultPosition := readPosition;
      var count := OutputCount(BlobTag(BlobString), MAX_STRING_LENGTH, IllegalStringLength);
      if count.Throws? { return Throws(count.error, count.pos); }
      r := OutputPayload(BlobString, count.value, defaultPosition);
    }

    method OutputPayload(blob: BlobKind, len: nat, defaultPosition: nat) returns (r: Outcome<Value>)
      requires Valid() && readPosition == defaultPosition + 5
      modifies this`readPosition
      ensures Valid() && r == DecodePayload(blob, len, byteStream, defaultPosition)
      ensures !r.Undefined? ==> readPosition == r.pos
    {
      if |byteStream| - defaultPosition < len {
        readPosition := defaultPosition;
        return Throws(InsufficientRemainingMemory, defaultPosition);
      }
      if |byteStream| < readPosition + len { return Undefined; }
      var data := byteStream[readPosition..readPosition + len];
      readPosition := readPosition + len;
      r := Ok(Blob(blob, data), readPosition);
    }

    method OutputBuffer(blob: BlobKind, len: nat) returns (r: Outcome<Value>)
      requires Valid()
      modifies this`readPosition
      ensures Valid() && r == DecodeBuffer(blob, len, byteStream, old(readPosition))
      ensures !r.Undefined? ==> readPosition == r.pos
    {
      var defaultPosition := readPosition;
      var count := OutputCount(BlobTag(blob), MAX_BYTE_COUNT, IllegalBytesCount);
      if count.Throws? { return Throws(count.error, count.pos); }
      if count.value != len {
        readPosition := defaultPosition + 1;
        return Throws(ReadIllegalBytesCount, readPosition);
      }
      r := OutputPayload(blob, len, defaultPosition);
    }

    /** The elements one after the other, inside the `try`. */
    method OutputElements(list: ListKind, elem: Ty, n: nat) returns (r: Outcome<seq<Value>>)
      requires Valid()
      modifies this`readPosition
      ensures Valid() && r == DecodeElements(list, elem, n, byteStream, old(readPosition), [])
      ensures r.Ok? ==> readPosition == r.pos
      decreases elem, 4
    {
      hide Decode, Insert;
      ghost var start := readPosition;
      var elems: seq<Value> := [];
      var i := 0;
      while i < n
        invariant 0 <= i <= n && Valid()
        invariant DecodeElements(list, elem, n, byteStream, start, []) ==
                  DecodeElements(list, elem, n - i, byteStream, readPosition, elems)
      {
        var one := Output(elem);
        if one.Undefined? { return Undefined; }
        if one.Throws? { return Throws(one.error, one.pos); }
        elems := Insert(list, elems, one.value);
        i := i + 1;
      }
      r := Ok(elems, readPosition);
    }

    method OutputList(list: ListKind, elem: Ty, size: nat) returns (r: Outcome<Value>)
      requires Valid()
      modifies this`readPosition
      ensures Valid() && r == DecodeList(list, elem, size, byteStream, old(readPosition))
      ensures !r.Undefined? ==> readPosition == r.pos
      decreases elem, 5
    {
      hide Decode, DecodeElements, DecodeCount;
      var defaultPosition := readPosition;
      var count := OutputCount(ListTag(list), MAX_ELEMENT_COUNT, TooMany(list));
      if count.Throws? { return Throws(count.error, count.pos); }
      if list.Array? && size < count.value { return Undefined; }
      var elems := OutputElements(list, elem, count.value);
      if elems.Undefined? { return Undefined; }
      if elems.Throws? {
        readPosition := defaultPosition;
        return Throws(elems.error, defaultPosition);
      }
      r := Ok(Elements(list, elems.value), readPosition);
    }

    /** The pairs one after the other, inside the `try`. */
    method OutputEntries(m: MapKind, key: Ty, val: Ty, n: nat) returns (r: Outcome<seq<Entry>>)
      requires Valid()
      modifies this`readPosition
      ensures Valid() && r == DecodeEntries(m, key, val, n, byteStream, old(readPosition), [])
      ensures r.Ok? ==> readPosition == r.pos
      decreases TMap(m, key, val), 0
    {
      hide Decode, Assign;
      ghost var start := readPosition;
      var entries: seq<Entry> := [];
      var i := 0;
      while i < n
        invariant 0 <= i <= n && Valid()
        invariant DecodeEntries(m, key, val, n, byteStream, start, []) ==
                  DecodeEntries(m, key, val, n - i, byteStream, readPosition, entries)
      {
        var k := Output(key);
        if k.Undefined? { return Undefined; }
        if k.Throws? { return Throws(k.error, k.pos); }
        var v := Output(val);
        if v.Undefined? { return Undefined; }
        if v.Throws? { return Throws(v.error, v.pos); }
        entries := Assign(entries, k.value, v.value);
        i := i + 1;
      }
      r := Ok(entries, readPosition);
    }

    method OutputMap(m: MapKind, key: Ty, val: Ty) returns (r: Outcome<Value>)
      requires Valid()
      modifies this`readPosition
      ensures Valid() && r == DecodeMap(m, key, val, byteStream, old(readPosition))
      ensures !r.Undefined? ==> readPosition == r.pos
      decreases TMap(m, key, val), 1
    {
      hide Decode, DecodeEntries, DecodeCount;
      var defaultPosition := readPosition;
      var count := OutputCount(MapTag(m), MAX_ELEMENT_COUNT, TooManyPairs(m));
      if count.Throws? { return Throws(count.error, count.pos); }
      var entries := OutputEntries(m, key, val, count.value);
      if entries.Undefined? { return Undefined; }
      if entries.Throws? {
        readPosition := defaultPosition;
        return Throws(entries.error, defaultPosition);
      }
      r := Ok(Table(m, entries.value), readPosition);
    }

    method OutputTuple(elems: seq<Ty>) returns (r: Outcome<Value>)
      requires Valid()
      modifies this`readPosition
      ensures Valid() && r == DecodeTuple(elems, byteStream, old(readPosition))
      ensures !r.Undefined? ==> readPosition == r.pos
      decreases elems, 2
    {
      if elems == [] { return Ok(Tuple([]), readPosition); }
      if readPosition == |byteStream| { return Throws(InsufficientRemainingMemory, readPosition); }
      if byteStream[readPosition] != TUPLE_TAG { return Throws(DataTypeError, readPosition); }
      var defaultPosition := readPosition;
      readPosition := readPosition + 1;
      if |byteStream| - readPosition < 2 {
        readPosition := defaultPosition;
        return Throws(InsufficientRemainingMemory, defaultPosition);
      }
      var n := FromLittleEndian(byteStream[readPosition..readPosition + 2]);
      if n > MAX_TUPLE_COUNT {
        readPosition := defaultPosition;
        return Throws(IllegalTupleCount, defaultPosition);
      }
      if n != |elems| {
        readPosition := defaultPosition;
        return Throws(IllegalParameterTupleCount, defaultPosition);
      }
      readPosition := readPosition + 2;
      var parts := OutputArgs(elems);
      if parts.Undefined? { return Undefined; }
      if parts.Throws? {
        readPosition := defaultPosition;
        return Throws(parts.error, defaultPosition);
      }
      r := Ok(Tuple(parts.value), readPosition);
    }

    /** outputArgs: the fields one after the other; no roll-back of its own. */
    method OutputArgs(tys: seq<Ty>) returns (r: Outcome<seq<Value>>)
      requires Valid()
      modifies this`readPosition
      ensures Valid() && r == DecodeParts(tys, byteStream, old(readPosition))
      ensures !r.Undefined? ==> readPosition == r.pos
      decreases tys, 1
    {
      if tys == [] { return Ok([], readPosition); }
      var first := Output(tys[0]);
      if first.Undefined? { return Undefined; }
      if first.Throws? { return Throws(first.error, first.pos); }
      var rest := OutputArgs(tys[1..]);
      if rest.Undefined? { return Undefined; }
      if rest.Throws? { return Throws(rest.error, rest.pos); }
      r := Ok([first.value] + rest.value, readPosition);
    }

    /** `output` of any type, on any stream. */
    method Output(ty: Ty) returns (r: Outcome<Value>)
      requires Valid()
      modifies this`readPosition
      ensures Valid() && r == Decode(ty, byteStream, old(readPosition))
      ensures !r.Undefined? ==> readPosition == r.pos
      decreases ty, 2
    {
      match ty {
        case TScalar(kind) => r := OutputScalar(kind);
        case TString => r := OutputString();
        case TBuffer(blob, len) => r := OutputBuffer(blob, len);
        case TList(list, elem, size) => r := OutputList(list, elem, size);
        case TMap(m, key, val) => r := OutputMap(m, key, val);
        case TTuple(elems) => r := OutputTuple(elems);
        case TClass(fields) =>
          if readPosition == |byteStream| { return Throws(InsufficientRemainingMemory, readPosition); }
          if byteStream[readPosition] != CLASS_TAG { return Throws(DataTypeError, readPosition); }
          readPosition := readPosition + 1;
          var parts := OutputArgs(fields);
          if parts.Undefined? { return Undefined; }
          if parts.Throws? { return Throws(parts.error, parts.pos); }
          r := Ok(Class(parts.value), readPosition);
      }
    }
  }

  function TooManyToWrite(list: ListKind): WriteError {
    match list
    case Vector => TheVectorCountExceedsTheLimit case Array => TheVectorCountExceedsTheLimit
    case List => TheListCountExceedsTheLimit case Set => TheSetSizeExceedsTheLimit
  }

  function TooManyPairsToWrite(m: MapKind): WriteError {
    match m case Map => TheMapKVCountExceedsTheLimit case HashMap => TheHashMapKVCountExceedsTheLimit
  }

  lemma WithinLimitsScalar(v: Value)
    ensures v.Scalar? ==> WithinLimits(v)
  {}

  /** One level of the definitions of Encode, WithinLimits and Representable. */
  lemma Unfold(v: Value)
    ensures v.Elements? ==>
      && Encode(v) == [ListTag(v.list)] + Count(|v.elems|) + EncodeAll(v.elems)
      && (WithinLimits(v) <==> |v.elems| <= MAX_ELEMENT_COUNT && forall i :: 0 <= i < |v.elems| ==> WithinLimits(v.elems[i]))
      && (Representable(v) ==> forall i :: 0 <= i < |v.elems| ==> Representable(v.elems[i]))
    ensures v.Table? ==>
      && Encode(v) == [MapTag(v.map_)] + Count(|v.entries|) + EncodeEntries(v.entries)
      && (WithinLimits(v) <==>
            |v.entries| <= MAX_ELEMENT_COUNT && forall i :: 0 <= i < |v.entries| ==> EntryWithinLimits(v.entries[i]))
      && (Representable(v) ==> forall i :: 0 <= i < |v.entries| ==> RepresentableEntry(v.entries[i]))
    ensures v.Tuple? ==>
      && Encode(v) == (if v.parts == [] then [] else [TUPLE_TAG] + LittleEndian(|v.parts|, 2) + EncodeAll(v.parts))
      && (WithinLimits(v) <==> |v.parts| <= MAX_TUPLE_COUNT && forall i :: 0 <= i < |v.parts| ==> WithinLimits(v.parts[i]))
      && (Representable(v) ==> forall i :: 0 <= i < |v.parts| ==> Representable(v.parts[i]))
    ensures v.Class? ==>
      && Encode(v) == [CLASS_TAG] + EncodeAll(v.parts)
      && (WithinLimits(v) <==> forall i :: 0 <= i < |v.parts| ==> WithinLimits(v.parts[i]))
      && (Representable(v) ==> forall i :: 0 <= i < |v.parts| ==> Representable(v.parts[i]))
  {}

  lemma EncodeAllSnoc(vs: seq<Value>, i: nat)
    requires i < |vs|
    ensures EncodeAll(vs[..i + 1]) == EncodeAll(vs[..i]) + Encode(vs[i])
  {
    assert vs[..i + 1] == vs[..i] + [vs[i]];
    EncodeAllAppend(vs[..i], [vs[i]]);
    assert EncodeAll([vs[i]]) == Encode(vs[i]) + EncodeAll([]);
  }

  lemma EncodeEntriesSnoc(es: seq<Entry>, i: nat)
    requires i < |es|
    ensures EncodeEntries(es[..i + 1]) == EncodeEntries(es[..i]) + EncodeEntry(es[i])
  {
    assert es[..i + 1] == es[..i] + [es[i]];
    EncodeEntriesAppend(es[..i], [es[i]]);
    assert EncodeEntries([es[i]]) == EncodeEntry(es[i]) + EncodeEntries([]);
  }
}
