/** What a read that succeeds says about the bytes, and which reads are refused: the type's own tag was
    there, the value is one of the type, and where a type has one encoding for each value, the bytes
    that were consumed are that encoding. */
module SerializerReading {

  import opened Wrappers
  import opened Bytes
  import opened Serializer
  import RT = SerializerRoundTrip

  // ---- Tags ----

  /** The byte every encoding of the type starts with. The empty tuple writes nothing. */
  function TypeTag(ty: Ty): Option<byte> {
    match ty
    case TScalar(kind) => Some(Tag(kind))
    case TString => Some(BlobTag(BlobString))
    case TBuffer(blob, _) => Some(BlobTag(blob))
    case TList(list, _, _) => Some(ListTag(list))
    case TMap(m, _, _) => Some(MapTag(m))
    case TTuple(elems) => if elems == [] then None else Some(TUPLE_TAG)
    case TClass(_) => Some(CLASS_TAG)
  }

  /** Types that differ in more than their parts have different tags. */
  lemma TagsApart(ty: Ty, ty': Ty)
    requires TypeTag(ty).Some? && TypeTag(ty) == TypeTag(ty')
    ensures ty.TScalar? || ty'.TScalar? ==> ty == ty'
    ensures ty.TString? ==> ty'.TString? || (ty'.TBuffer? && ty'.blob.BlobString?)
    ensures ty.TBuffer? ==> (ty'.TBuffer? && ty'.blob == ty.blob) || (ty'.TString? && ty.blob.BlobString?)
    ensures ty.TList? ==> ty'.TList? && ty'.list == ty.list
    ensures ty.TMap? ==> ty'.TMap? && ty'.map_ == ty.map_
    ensures ty.TTuple? ==> ty'.TTuple?
    ensures ty.TClass? ==> ty'.TClass?
  {}

  lemma FirstByte(v: Value, ty: Ty)
    requires HasType(v, ty) && TypeTag(ty).Some?
    ensures Encode(v) != [] && Encode(v)[0] == TypeTag(ty).value
  {}

  /** A read that does not find its tag throws and stays put. A scalar looks at the length first. */
  lemma WrongTag(ty: Ty, b: seq<byte>, pos: nat)
    requires pos < |b| && TypeTag(ty).Some? && b[pos] != TypeTag(ty).value
    ensures Decode(ty, b, pos) ==
      Throws(if ty.TScalar? && |b| - pos < 1 + Width(ty.kind) then InsufficientRemainingMemory else DataTypeError, pos)
  {}

  /** So does one at the end of the stream. */
  lemma NothingLeft(ty: Ty, b: seq<byte>)
    requires TypeTag(ty).Some?
    ensures Decode(ty, b, |b|) == Throws(InsufficientRemainingMemory, |b|)
  {}

  /** On any bytes, a read that succeeds stands at the tag of its type. */
  lemma FoundItsTag(ty: Ty, b: seq<byte>, pos: nat)
    requires pos <= |b| && TypeTag(ty).Some? && !Decode(ty, b, pos).Throws?
    ensures pos < |b| && b[pos] == TypeTag(ty).value
  {
    hide Decode, TypeTag;
    if pos == |b| { NothingLeft(ty, b); } else if b[pos] != TypeTag(ty).value { WrongTag(ty, b, pos); }
  }

  /** A value is never read as one of a type with another tag. */
  lemma OtherTypeRefused(v: Value, ty: Ty, ty': Ty, pre: seq<byte>, post: seq<byte>)
    requires HasType(v, ty) && TypeTag(ty).Some? && TypeTag(ty').Some? && TypeTag(ty) != TypeTag(ty')
    ensures var left := |Encode(v)| + |post|;
      Decode(ty', pre + Encode(v) + post, |pre|) ==
        Throws(if ty'.TScalar? && left < 1 + Width(ty'.kind) then InsufficientRemainingMemory else DataTypeError, |pre|)
  {
    hide Encode, Decode, HasType, TypeTag;
    FirstByte(v, ty);
    var b := pre + Encode(v) + post;
    assert b[|pre|] == Encode(v)[0];
    WrongTag(ty', b, |pre|);
  }

  // ---- Values ----

  /** Like HasType, except that an array may have been filled in part. */
  ghost predicate Shaped(v: Value, ty: Ty)
    decreases ty, 1
  {
    match ty
    case TScalar(kind) => v.Scalar? && v.kind == kind && InRange(kind, v.n)
    case TString => v.Blob? && v.blob.BlobString? && |v.data| <= MAX_STRING_LENGTH
    case TBuffer(blob, len) => v.Blob? && v.blob == blob && |v.data| == len <= MAX_BYTE_COUNT
    case TList(list, elem, size) =>
      && v.Elements? && v.list == list && |v.elems| <= MAX_ELEMENT_COUNT
      && (list.Array? ==> |v.elems| <= size) && (list.Set? ==> Distinct(v.elems))
      && AllShaped(v.elems, elem)
    case TMap(m, key, val) =>
      && v.Table? && v.map_ == m && |v.entries| <= MAX_ELEMENT_COUNT && DistinctKeys(v.entries)
      && forall i :: 0 <= i < |v.entries| ==> Shaped(v.entries[i].key, key) && Shaped(v.entries[i].val, val)
    case TTuple(elems) => v.Tuple? && |elems| <= MAX_TUPLE_COUNT && EachShaped(v.parts, elems)
    case TClass(fields) => v.Class? && EachShaped(v.parts, fields)
  }

  ghost predicate AllShaped(vs: seq<Value>, ty: Ty)
    decreases ty, 2
  {
    forall i :: 0 <= i < |vs| ==> Shaped(vs[i], ty)
  }

  ghost predicate EachShaped(vs: seq<Value>, tys: seq<Ty>)
    decreases tys
  {
    |vs| == |tys| && forall i :: 0 <= i < |vs| ==> Shaped(vs[i], tys[i])
  }

  lemma ReadScalar(kind: Kind, b: seq<byte>, pos: nat)
    requires pos <= |b| && DecodeScalar(kind, b, pos).Ok?
    ensures Shaped(DecodeScalar(kind, b, pos).value, TScalar(kind))
  {
    Pow256Values();
    var bytes := b[pos + 1..pos + 1 + Width(kind)];
    FromLittleEndianBound(bytes);
    assert |bytes| == Width(kind);
  }

  /** Whatever the bytes are, a read that succeeds yields a value of the type within all limits. */
  lemma {:induction false} ReadIsTyped(ty: Ty, b: seq<byte>, pos: nat)
    requires pos <= |b| && Decode(ty, b, pos).Ok?
    ensures Shaped(Decode(ty, b, pos).value, ty)
    decreases ty, 3, 0
  {
    match ty {
      case TScalar(kind) => ReadScalar(kind, b, pos);
      case TString =>
      case TBuffer(_, _) =>
      case TList(list, elem, size) =>
        var count := DecodeCount(ListTag(list), MAX_ELEMENT_COUNT, TooMany(list), b, pos);
        ReadElements(list, elem, count.value, b, count.pos, []);
      case TMap(m, key, val) =>
        var count := DecodeCount(MapTag(m), MAX_ELEMENT_COUNT, TooManyPairs(m), b, pos);
        ReadEntries(m, key, val, count.value, b, count.pos, []);
      case TTuple(elems) => if elems != [] { ReadParts(elems, b, pos + 3); }
      case TClass(fields) => ReadParts(fields, b, pos + 1);
    }
  }

  lemma {:induction false} ReadElements(list: ListKind, elem: Ty, n: nat, b: seq<byte>, pos: nat, acc: seq<Value>)
    requires pos <= |b| && DecodeElements(list, elem, n, b, pos, acc).Ok?
    requires AllShaped(acc, elem) && (list.Set? ==> Distinct(acc))
    ensures var vs := DecodeElements(list, elem, n, b, pos, acc).value;
      AllShaped(vs, elem) && (list.Set? ==> Distinct(vs)) && |vs| <= |acc| + n
    decreases elem, 4, n
  {
    if n > 0 {
      ReadIsTyped(elem, b, pos);
      var one := Decode(elem, b, pos);
      hide Decode, Shaped;
      ReadElements(list, elem, n - 1, b, one.pos, Insert(list, acc, one.value));
    }
  }

  ghost predicate EntriesShaped(es: seq<Entry>, key: Ty, val: Ty) {
    forall i :: 0 <= i < |es| ==> Shaped(es[i].key, key) && Shaped(es[i].val, val)
  }

  lemma {:induction false} AssignShaped(es: seq<Entry>, k: Value, v: Value, key: Ty, val: Ty)
    requires EntriesShaped(es, key, val) && Shaped(k, key) && Shaped(v, val)
    ensures EntriesShaped(Assign(es, k, v), key, val) && |Assign(es, k, v)| <= |es| + 1
    decreases |es|
  {
    hide Shaped, EntriesShaped;
    if es == [] {
      MoreShaped(Entry(k, v), [], key, val);
      assert [Entry(k, v)] + [] == [Entry(k, v)];
    } else {
      LessShaped(es, key, val);
      if es[0].key == k {
        MoreShaped(Entry(k, v), es[1..], key, val);
      } else {
        AssignShaped(es[1..], k, v, key, val);
        MoreShaped(es[0], Assign(es[1..], k, v), key, val);
      }
    }
  }

  lemma MoreShaped(e: Entry, es: seq<Entry>, key: Ty, val: Ty)
    requires Shaped(e.key, key) && Shaped(e.val, val) && (es == [] || EntriesShaped(es, key, val))
    ensures EntriesShaped([e] + es, key, val)
  {
    hide Shaped;
  }

  lemma LessShaped(es: seq<Entry>, key: Ty, val: Ty)
    requires es != [] && EntriesShaped(es, key, val)
    ensures Shaped(es[0].key, key) && Shaped(es[0].val, val) && EntriesShaped(es[1..], key, val)
  {
    hide Shaped;
  }

  /** Assignment adds at most the one key. */
  lemma {:induction false} AssignKeys(es: seq<Entry>, k: Value, v: Value, i: nat)
    requires i < |Assign(es, k, v)|
    ensures Assign(es, k, v)[i].key == k || exists j :: 0 <= j < |es| && es[j].key == Assign(es, k, v)[i].key
    decreases |es|
  {
    if es != [] && es[0].key != k {
      var rest := Assign(es[1..], k, v);
      if i == 0 {
        assert es[0].key == Assign(es, k, v)[0].key;
      } else {
        AssignKeys(es[1..], k, v, i - 1);
        if rest[i - 1].key != k {
          var j :| 0 <= j < |es[1..]| && es[1..][j].key == rest[i - 1].key;
          assert es[j + 1].key == rest[i - 1].key;
        }
      }
    } else if es != [] {
      assert es[i].key == Assign(es, k, v)[i].key;
    }
  }

  lemma {:induction false} AssignDistinct(es: seq<Entry>, k: Value, v: Value)
    requires DistinctKeys(es)
    ensures DistinctKeys(Assign(es, k, v))
    decreases |es|
  {
    if es != [] && es[0].key != k {
      AssignDistinct(es[1..], k, v);
      var rest := Assign(es[1..], k, v);
      forall i | 0 <= i < |rest| ensures rest[i].key != es[0].key { AssignKeys(es[1..], k, v, i); }
      assert Assign(es, k, v) == [es[0]] + rest;
    } else if es != [] {
      forall i | 0 <= i < |es| ensures Assign(es, k, v)[i].key == es[i].key {}
    }
  }

  lemma {:induction false} FirstEntry(m: MapKind, key: Ty, val: Ty, n: nat, b: seq<byte>, pos: nat, acc: seq<Entry>)
    requires pos <= |b| && 0 < n && DecodeEntries(m, key, val, n, b, pos, acc).Ok?
    ensures var k := Decode(key, b, pos);
      && k.Ok? && k.pos <= |b|
      && var v := Decode(val, b, k.pos);
      && v.Ok? && v.pos <= |b|
      && DecodeEntries(m, key, val, n, b, pos, acc) ==
         DecodeEntries(m, key, val, n - 1, b, v.pos, Assign(acc, k.value, v.value))
  {
    hide Decode, Assign;
  }

  lemma {:induction false} ReadEntries(m: MapKind, key: Ty, val: Ty, n: nat, b: seq<byte>, pos: nat, acc: seq<Entry>)
    requires pos <= |b| && DecodeEntries(m, key, val, n, b, pos, acc).Ok?
    requires DistinctKeys(acc) && EntriesShaped(acc, key, val)
    ensures var es := DecodeEntries(m, key, val, n, b, pos, acc).value;
      DistinctKeys(es) && |es| <= |acc| + n && EntriesShaped(es, key, val)
    decreases TMap(m, key, val), 1, n
  {
    if n > 0 {
      FirstEntry(m, key, val, n, b, pos, acc);
      hide Decode, DecodeEntries, Shaped, EntriesShaped, DistinctKeys, Assign;
      ReadIsTyped(key, b, pos);
      var k := Decode(key, b, pos);
      ReadIsTyped(val, b, k.pos);
      var v := Decode(val, b, k.pos);
      AssignShaped(acc, k.value, v.value, key, val);
      AssignDistinct(acc, k.value, v.value);
      ReadEntries(m, key, val, n - 1, b, v.pos, Assign(acc, k.value, v.value));
    }
  }

  lemma {:induction false} ReadParts(tys: seq<Ty>, b: seq<byte>, pos: nat)
    requires pos <= |b| && DecodeParts(tys, b, pos).Ok?
    ensures EachShaped(DecodeParts(tys, b, pos).value, tys)
    decreases tys, 0
  {
    if tys != [] {
      ReadIsTyped(tys[0], b, pos);
      var one := Decode(tys[0], b, pos);
      hide Decode, Shaped;
      ReadParts(tys[1..], b, one.pos);
    }
  }

  // ---- Bytes ----

  /** Types that have one encoding for each value: no bool (any byte but zero reads as true), no set and
      no map (a repeated element or key is dropped). */
  predicate OneEncoding(ty: Ty) {
    match ty
    case TScalar(kind) => !kind.Bool?
    case TString => true
    case TBuffer(_, _) => true
    case TList(list, elem, _) => !list.Set? && OneEncoding(elem)
    case TMap(_, _, _) => false
    case TTuple(elems) => forall i :: 0 <= i < |elems| ==> OneEncoding(elems[i])
    case TClass(fields) => forall i :: 0 <= i < |fields| ==> OneEncoding(fields[i])
  }

  lemma RawOf(kind: Kind, raw: nat)
    requires raw < Pow256(Width(kind)) && !kind.Bool?
    ensures InRange(kind, FromRaw(kind, raw)) && Raw(kind, FromRaw(kind, raw)) == raw
  {}

  lemma ScalarBytes(kind: Kind, b: seq<byte>, pos: nat)
    requires pos <= |b| && DecodeScalar(kind, b, pos).Ok? && !kind.Bool?
    ensures var r := DecodeScalar(kind, b, pos);
      StandsAt(b, pos, Encode(r.value)) && r.pos == pos + |Encode(r.value)|
  {
    var bytes := b[pos + 1..pos + 1 + Width(kind)];
    FromLittleEndianBound(bytes);
    assert |bytes| == Width(kind);
    RawOf(kind, FromLittleEndian(bytes));
    LittleEndianOfBytes(bytes);
    hide FromLittleEndian, LittleEndian, FromRaw, Raw, InRange, Pow256;
    assert b[pos..pos + 1 + Width(kind)] == [b[pos]] + bytes;
  }

  lemma CountBytes(tag: byte, limit: nat, tooMany: Error, b: seq<byte>, pos: nat)
    requires pos <= |b| && DecodeCount(tag, limit, tooMany, b, pos).Ok?
    ensures StandsAt(b, pos, [tag] + Count(DecodeCount(tag, limit, tooMany, b, pos).value))
  {
    var bytes := b[pos + 1..pos + 5];
    LittleEndianOfBytes(bytes);
    assert b[pos..pos + 5] == [tag] + bytes;
  }

  lemma PayloadBytes(blob: BlobKind, limit: nat, tooMany: Error, b: seq<byte>, pos: nat)
    requires pos <= |b| && DecodeCount(BlobTag(blob), limit, tooMany, b, pos).Ok?
    requires DecodePayload(blob, DecodeCount(BlobTag(blob), limit, tooMany, b, pos).value, b, pos).Ok?
    ensures var r := DecodePayload(blob, DecodeCount(BlobTag(blob), limit, tooMany, b, pos).value, b, pos);
      StandsAt(b, pos, Encode(r.value)) && r.pos == pos + |Encode(r.value)|
  {
    CountBytes(BlobTag(blob), limit, tooMany, b, pos);
    var len := DecodeCount(BlobTag(blob), limit, tooMany, b, pos).value;
    var head := [BlobTag(blob)] + Count(len);
    assert b[pos..pos + 5 + len] == b[pos..pos + 5] + b[pos + 5..pos + 5 + len];
  }

  /** Reading inverts writing in the other direction too: for a type with one encoding for each value,
      what a successful read consumed is the encoding of what it yields. */
  lemma {:induction false} ReadIsWritten(ty: Ty, b: seq<byte>, pos: nat)
    requires pos <= |b| && OneEncoding(ty) && Decode(ty, b, pos).Ok?
    ensures var r := Decode(ty, b, pos); StandsAt(b, pos, Encode(r.value)) && r.pos == pos + |Encode(r.value)|
    decreases ty, 3, 0
  {
    match ty {
      case TScalar(kind) => ScalarBytes(kind, b, pos);
      case TString => PayloadBytes(BlobString, MAX_STRING_LENGTH, IllegalStringLength, b, pos);
      case TBuffer(blob, _) => PayloadBytes(blob, MAX_BYTE_COUNT, IllegalBytesCount, b, pos);
      case TList(list, elem, size) => ListBytes(list, elem, size, b, pos);
      case TTuple(elems) => TupleBytes(elems, b, pos);
      case TClass(fields) => ClassBytes(fields, b, pos);
    }
    hide Encode, OneEncoding;
  }

  lemma {:induction false} ListBytes(list: ListKind, elem: Ty, size: nat, b: seq<byte>, pos: nat)
    requires pos <= |b| && OneEncoding(elem) && !list.Set? && DecodeList(list, elem, size, b, pos).Ok?
    ensures var r := DecodeList(list, elem, size, b, pos); StandsAt(b, pos, Encode(r.value)) && r.pos == pos + |Encode(r.value)|
    decreases elem, 5, 0
  {
    CountBytes(ListTag(list), MAX_ELEMENT_COUNT, TooMany(list), b, pos);
    var n := DecodeCount(ListTag(list), MAX_ELEMENT_COUNT, TooMany(list), b, pos).value;
    ElementBytes(list, elem, n, b, pos + 5, []);
    var vs := DecodeElements(list, elem, n, b, pos + 5, []).value;
    assert vs[0..] == vs;
    hide EncodeAll, LittleEndian, DecodeElements, OneEncoding, DecodeCount;
    Joined(b, pos, [ListTag(list)] + Count(n), EncodeAll(vs));
    assert Encode(Elements(list, vs)) == [ListTag(list)] + Count(n) + EncodeAll(vs);
  }

  lemma {:induction false} TupleBytes(elems: seq<Ty>, b: seq<byte>, pos: nat)
    requires pos <= |b| && (forall i :: 0 <= i < |elems| ==> OneEncoding(elems[i])) && DecodeTuple(elems, b, pos).Ok?
    ensures var r := DecodeTuple(elems, b, pos); StandsAt(b, pos, Encode(r.value)) && r.pos == pos + |Encode(r.value)|
    decreases elems, 1
  {
    if elems != [] {
      PartBytes(elems, b, pos + 3);
      LittleEndianOfBytes(b[pos + 1..pos + 3]);
      assert b[pos..pos + 3] == [TUPLE_TAG] + b[pos + 1..pos + 3];
      var vs := DecodeParts(elems, b, pos + 3).value;
      hide EncodeAll, LittleEndian, DecodeParts, OneEncoding;
      Joined(b, pos, [TUPLE_TAG] + LittleEndian(|vs|, 2), EncodeAll(vs));
      assert Encode(Tuple(vs)) == [TUPLE_TAG] + LittleEndian(|vs|, 2) + EncodeAll(vs);
    }
  }

  lemma {:induction false} ClassBytes(fields: seq<Ty>, b: seq<byte>, pos: nat)
    requires pos <= |b| && (forall i :: 0 <= i < |fields| ==> OneEncoding(fields[i])) && Decode(TClass(fields), b, pos).Ok?
    ensures var r := Decode(TClass(fields), b, pos); StandsAt(b, pos, Encode(r.value)) && r.pos == pos + |Encode(r.value)|
    decreases fields, 1
  {
    PartBytes(fields, b, pos + 1);
    assert b[pos..pos + 1] == [CLASS_TAG];
    var vs := DecodeParts(fields, b, pos + 1).value;
    hide EncodeAll, DecodeParts, OneEncoding;
    Joined(b, pos, [CLASS_TAG], EncodeAll(vs));
    assert Encode(Class(vs)) == [CLASS_TAG] + EncodeAll(vs);
  }

  lemma Joined(b: seq<byte>, pos: nat, head: seq<byte>, rest: seq<byte>)
    requires StandsAt(b, pos, head) && StandsAt(b, pos + |head|, rest)
    ensures StandsAt(b, pos, head + rest)
  {
    assert b[pos..pos + |head + rest|] == b[pos..pos + |head|] + b[pos + |head|..pos + |head| + |rest|];
  }

  lemma ElementFirst(list: ListKind, elem: Ty, n: nat, b: seq<byte>, pos: nat, acc: seq<Value>)
    requires pos <= |b| && 0 < n && !list.Set? && DecodeElements(list, elem, n, b, pos, acc).Ok?
    ensures var one := Decode(elem, b, pos);
      && one.Ok? && pos <= one.pos <= |b|
      && DecodeElements(list, elem, n, b, pos, acc) == DecodeElements(list, elem, n - 1, b, one.pos, acc + [one.value])
  {
    hide Decode;
  }

  /** Splitting what was added into the first value and the rest. */
  lemma Behind(vs: seq<Value>, acc: seq<Value>, v: Value)
    requires |acc| < |vs| && vs[..|acc| + 1] == acc + [v]
    ensures vs[..|acc|] == acc && |acc + [v]| == |acc| + 1
    ensures EncodeAll(vs[|acc|..]) == Encode(v) + EncodeAll(vs[|acc| + 1..])
  {
    hide Encode;
    assert vs[..|acc|] == vs[..|acc| + 1][..|acc|];
    assert vs[|acc|..][0] == vs[..|acc| + 1][|acc|];
    assert vs[|acc|..][1..] == vs[|acc| + 1..];
  }

  lemma NoneBehind(b: seq<byte>, pos: nat, acc: seq<Value>)
    requires pos <= |b|
    ensures acc[..|acc|] == acc && EncodeAll(acc[|acc|..]) == [] && StandsAt(b, pos, [])
  {
    assert acc[|acc|..] == [];
  }

  /** The elements that are added are the ones whose encodings are consumed. */
  lemma {:induction false} ElementBytes(list: ListKind, elem: Ty, n: nat, b: seq<byte>, pos: nat, acc: seq<Value>)
    requires pos <= |b| && OneEncoding(elem) && !list.Set? && DecodeElements(list, elem, n, b, pos, acc).Ok?
    ensures var r := DecodeElements(list, elem, n, b, pos, acc);
      && |r.value| == |acc| + n && r.value[..|acc|] == acc
      && StandsAt(b, pos, EncodeAll(r.value[|acc|..])) && r.pos == pos + |EncodeAll(r.value[|acc|..])|
    decreases elem, 4, n
  {
    hide Decode, Encode, OneEncoding, EncodeAll, StandsAt, Insert;
    if n > 0 {
      ElementFirst(list, elem, n, b, pos, acc);
      ReadIsWritten(elem, b, pos);
      var one := Decode(elem, b, pos);
      ElementBytes(list, elem, n - 1, b, one.pos, acc + [one.value]);
      hide DecodeElements;
      var vs := DecodeElements(list, elem, n, b, pos, acc).value;
      Behind(vs, acc, one.value);
      Joined(b, pos, Encode(one.value), EncodeAll(vs[|acc| + 1..]));
    } else {
      NoneBehind(b, pos, acc);
    }
  }

  lemma {:induction false} PartBytes(tys: seq<Ty>, b: seq<byte>, pos: nat)
    requires pos <= |b| && (forall i :: 0 <= i < |tys| ==> OneEncoding(tys[i])) && DecodeParts(tys, b, pos).Ok?
    ensures var r := DecodeParts(tys, b, pos);
      |r.value| == |tys| && StandsAt(b, pos, EncodeAll(r.value)) && r.pos == pos + |EncodeAll(r.value)|
    decreases tys, 0
  {
    if tys != [] {
      ReadIsWritten(tys[0], b, pos);
      var one := Decode(tys[0], b, pos);
      PartBytes(tys[1..], b, one.pos);
      var rest := DecodeParts(tys[1..], b, one.pos).value;
      assert DecodeParts(tys, b, pos).value == [one.value] + rest;
      assert ([one.value] + rest)[1..] == rest;
      hide Decode, Encode, DecodeParts;
      Joined(b, pos, Encode(one.value), EncodeAll(rest));
    }
  }
}
