/** Reading inverts writing, for every nested value, wherever its bytes stand. */
module SerializerRoundTrip {

  import opened Bytes
  import opened Serializer

  // ---- Leaves ----

  lemma ScalarTrip(kind: Kind, n: int, b: seq<byte>, pos: nat)
    requires InRange(kind, n) && pos <= |b| && StandsAt(b, pos, Encode(Scalar(kind, n)))
    ensures DecodeScalar(kind, b, pos) == Ok(Scalar(kind, n), pos + |Encode(Scalar(kind, n))|)
  {
    var raw := LittleEndian(Raw(kind, n), Width(kind));
    StandsSplit(b, pos, [Tag(kind)], raw);
    RawRoundTrip(kind, n);
    LittleEndianRoundTrip(Raw(kind, n), Width(kind));
    assert b[pos + 1..pos + 1 + Width(kind)] == raw;
    assert b[pos] == b[pos..pos + 1][0];
  }

  lemma CountTrip(tag: byte, n: nat, limit: nat, tooMany: Error, b: seq<byte>, pos: nat)
    requires n <= limit <= MAX_ELEMENT_COUNT && pos <= |b| && StandsAt(b, pos, [tag] + Count(n))
    ensures DecodeCount(tag, limit, tooMany, b, pos) == Ok(n, pos + 5)
  {
    StandsSplit(b, pos, [tag], Count(n));
    assert n < Pow256(4) by { Pow256Values(); }
    LittleEndianRoundTrip(n, 4);
    assert b[pos + 1..pos + 5] == Count(n);
    assert b[pos] == b[pos..pos + 1][0];
  }

  lemma BlobTrip(blob: BlobKind, data: seq<byte>, b: seq<byte>, pos: nat)
    requires |data| <= MAX_STRING_LENGTH && pos <= |b| && StandsAt(b, pos, Encode(Blob(blob, data)))
    ensures blob.BlobString? ==> DecodeString(b, pos) == Ok(Blob(blob, data), pos + 5 + |data|)
    ensures |data| <= MAX_BYTE_COUNT ==> DecodeBuffer(blob, |data|, b, pos) == Ok(Blob(blob, data), pos + 5 + |data|)
  {
    var head := [BlobTag(blob)] + Count(|data|);
    StandsSplit(b, pos, head, data);
    CountTrip(BlobTag(blob), |data|, MAX_STRING_LENGTH, IllegalStringLength, b, pos);
    if |data| <= MAX_BYTE_COUNT { CountTrip(BlobTag(blob), |data|, MAX_BYTE_COUNT, IllegalBytesCount, b, pos); }
  }

  // ---- Containers ----

  lemma {:induction false} AssignNew(es: seq<Entry>, k: Value, v: Value)
    requires forall i :: 0 <= i < |es| ==> es[i].key != k
    ensures Assign(es, k, v) == es + [Entry(k, v)]
  {
    if es != [] {
      AssignNew(es[1..], k, v);
      assert es == [es[0]] + es[1..];
    }
  }

  /** A value read where its encoding stands comes back, and the position stops exactly behind it. */
  lemma {:induction false} ReadBack(v: Value, ty: Ty, b: seq<byte>, pos: nat)
    requires HasType(v, ty) && pos <= |b| && StandsAt(b, pos, Encode(v))
    ensures Decode(ty, b, pos) == Ok(v, pos + |Encode(v)|)
    decreases ty, 3, 0
  {
    match ty {
      case TScalar(kind) => ScalarTrip(kind, v.n, b, pos);
      case TString => BlobTrip(BlobString, v.data, b, pos);
      case TBuffer(blob, len) => BlobTrip(blob, v.data, b, pos);
      case TList(list, elem, size) => ListTrip(list, elem, size, v.elems, b, pos);
      case TMap(m, key, val) => MapTrip(m, key, val, v.entries, b, pos);
      case TTuple(elems) => TupleTrip(elems, v.parts, b, pos);
      case TClass(fields) =>
        StandsSplit(b, pos, [CLASS_TAG], EncodeAll(v.parts));
        assert b[pos] == b[pos..pos + 1][0];
        PartsTrip(fields, v.parts, b, pos + 1);
    }
  }

  lemma {:induction false} ListTrip(list: ListKind, elem: Ty, size: nat, vs: seq<Value>, b: seq<byte>, pos: nat)
    requires HasType(Elements(list, vs), TList(list, elem, size)) && pos <= |b|
    requires StandsAt(b, pos, Encode(Elements(list, vs)))
    ensures DecodeList(list, elem, size, b, pos) == Ok(Elements(list, vs), pos + |Encode(Elements(list, vs))|)
    decreases elem, 5, 0
  {
    var head := [ListTag(list)] + Count(|vs|);
    StandsSplit(b, pos, head, EncodeAll(vs));
    CountTrip(ListTag(list), |vs|, MAX_ELEMENT_COUNT, TooMany(list), b, pos);
    hide StandsAt, DecodeCount, Decode, DecodeElements, EncodeAll;
    ElementsTrip(list, elem, vs, b, pos + 5, []);
    assert [] + vs == vs;
  }

  lemma ElementsStep(list: ListKind, elem: Ty, n: nat, b: seq<byte>, pos: nat, acc: seq<Value>, v: Value, p: nat)
    requires 0 < n && pos <= |b| && Decode(elem, b, pos) == Ok(v, p)
    ensures p <= |b|
    ensures DecodeElements(list, elem, n, b, pos, acc) == DecodeElements(list, elem, n - 1, b, p, Insert(list, acc, v))
  {}

  lemma EntriesStep(m: MapKind, key: Ty, val: Ty, n: nat, b: seq<byte>, pos: nat, acc: seq<Entry>, e: Entry, p: nat, q: nat)
    requires 0 < n && pos <= p <= |b| && Decode(key, b, pos) == Ok(e.key, p) && Decode(val, b, p) == Ok(e.val, q)
    ensures q <= |b|
    ensures DecodeEntries(m, key, val, n, b, pos, acc) == DecodeEntries(m, key, val, n - 1, b, q, Assign(acc, e.key, e.val))
  {}

  lemma InsertNew(list: ListKind, acc: seq<Value>, vs: seq<Value>)
    requires vs != [] && (list.Set? ==> Distinct(acc + vs))
    ensures Insert(list, acc, vs[0]) == acc + [vs[0]]
  {
    assert (acc + vs)[|acc|] == vs[0];
    assert forall i :: 0 <= i < |acc| ==> (acc + vs)[i] == acc[i];
  }

  lemma {:induction false} ElementsTrip(list: ListKind, elem: Ty, vs: seq<Value>, b: seq<byte>, pos: nat, acc: seq<Value>)
    requires AllHaveType(vs, elem) && pos <= |b| && StandsAt(b, pos, EncodeAll(vs))
    requires list.Set? ==> Distinct(acc + vs)
    ensures DecodeElements(list, elem, |vs|, b, pos, acc) == Ok(acc + vs, pos + |EncodeAll(vs)|)
    decreases elem, 4, |vs|
  {
    hide StandsAt, Distinct, HasType, AllHaveType, Insert, Decode, Encode;
    if vs == [] {
      assert acc + vs == acc;
    } else {
      assert EncodeAll(vs) == Encode(vs[0]) + EncodeAll(vs[1..]);
      hide DecodeElements, EncodeAll;
      RestOfElements(list, elem, vs, acc);
      StandsSplit(b, pos, Encode(vs[0]), EncodeAll(vs[1..]));
      ReadBack(vs[0], elem, b, pos);
      ElementsStep(list, elem, |vs|, b, pos, acc, vs[0], pos + |Encode(vs[0])|);
      ElementsTrip(list, elem, vs[1..], b, pos + |Encode(vs[0])|, acc + [vs[0]]);
    }
  }

  lemma RestOfElements(list: ListKind, elem: Ty, vs: seq<Value>, acc: seq<Value>)
    requires vs != [] && AllHaveType(vs, elem) && (list.Set? ==> Distinct(acc + vs))
    ensures HasType(vs[0], elem) && AllHaveType(vs[1..], elem) && (acc + [vs[0]]) + vs[1..] == acc + vs
    ensures Insert(list, acc, vs[0]) == acc + [vs[0]]
  {
    hide HasType;
    InsertNew(list, acc, vs);
  }

  lemma {:induction false} MapTrip(m: MapKind, key: Ty, val: Ty, es: seq<Entry>, b: seq<byte>, pos: nat)
    requires HasType(Table(m, es), TMap(m, key, val)) && pos <= |b| && StandsAt(b, pos, Encode(Table(m, es)))
    ensures DecodeMap(m, key, val, b, pos) == Ok(Table(m, es), pos + |Encode(Table(m, es))|)
    decreases TMap(m, key, val), 2, 0
  {
    var head := [MapTag(m)] + Count(|es|);
    assert [] + es == es;
    StandsSplit(b, pos, head, EncodeEntries(es));
    CountTrip(MapTag(m), |es|, MAX_ELEMENT_COUNT, TooManyPairs(m), b, pos);
    hide StandsAt, DecodeCount, Decode, DecodeEntries, EncodeEntries;
    EntriesTrip(m, key, val, es, b, pos + 5, []);
  }

  ghost predicate EntryHasType(e: Entry, key: Ty, val: Ty) { HasType(e.key, key) && HasType(e.val, val) }

  lemma {:induction false} EntriesTrip(m: MapKind, key: Ty, val: Ty, es: seq<Entry>, b: seq<byte>, pos: nat, acc: seq<Entry>)
    requires forall i :: 0 <= i < |es| ==> EntryHasType(es[i], key, val)
    requires DistinctKeys(acc + es) && pos <= |b| && StandsAt(b, pos, EncodeEntries(es))
    ensures DecodeEntries(m, key, val, |es|, b, pos, acc) == Ok(acc + es, pos + |EncodeEntries(es)|)
    decreases TMap(m, key, val), 1, |es|
  {
    hide StandsAt, DistinctKeys, EntryHasType, Assign, Decode, EncodeEntry;
    if es == [] {
      assert acc + es == acc;
    } else {
      var e, rest := es[0], es[1..];
      assert EncodeEntries(es) == EncodeEntry(e) + EncodeEntries(rest);
      hide DecodeEntries, EncodeEntries;
      RestOfEntries(acc, es);
      StandsSplit(b, pos, EncodeEntry(e), EncodeEntries(rest));
      EntryTrip(m, key, val, e, |es|, b, pos, acc);
      EntriesTrip(m, key, val, rest, b, pos + |EncodeEntry(e)|, acc + [e]);
    }
  }

  lemma {:induction false} EntryTrip(m: MapKind, key: Ty, val: Ty, e: Entry, n: nat, b: seq<byte>, pos: nat, acc: seq<Entry>)
    requires EntryHasType(e, key, val) && pos <= |b| && StandsAt(b, pos, EncodeEntry(e)) && 0 < n
    ensures pos + |EncodeEntry(e)| <= |b|
    ensures DecodeEntries(m, key, val, n, b, pos, acc) ==
      DecodeEntries(m, key, val, n - 1, b, pos + |EncodeEntry(e)|, Assign(acc, e.key, e.val))
    decreases TMap(m, key, val), 0, 0
  {
    hide HasType, Decode, Encode, Assign;
    StandsSplit(b, pos, Encode(e.key), Encode(e.val));
    ReadBack(e.key, key, b, pos);
    ReadBack(e.val, val, b, pos + |Encode(e.key)|);
    EntriesStep(m, key, val, n, b, pos, acc, e, pos + |Encode(e.key)|, pos + |EncodeEntry(e)|);
  }

  lemma RestOfEntries(acc: seq<Entry>, es: seq<Entry>)
    requires es != [] && DistinctKeys(acc + es)
    ensures (acc + [es[0]]) + es[1..] == acc + es && Assign(acc, es[0].key, es[0].val) == acc + [es[0]]
  {
    AssignFresh(acc, es);
  }

  lemma AssignFresh(acc: seq<Entry>, es: seq<Entry>)
    requires es != [] && DistinctKeys(acc + es)
    ensures Assign(acc, es[0].key, es[0].val) == acc + [es[0]]
  {
    assert (acc + es)[|acc|] == es[0];
    assert forall i :: 0 <= i < |acc| ==> (acc + es)[i] == acc[i];
    AssignNew(acc, es[0].key, es[0].val);
  }

  lemma {:induction false} TupleTrip(elems: seq<Ty>, vs: seq<Value>, b: seq<byte>, pos: nat)
    requires HaveTypes(vs, elems) && |elems| <= MAX_TUPLE_COUNT && pos <= |b| && StandsAt(b, pos, Encode(Tuple(vs)))
    ensures DecodeTuple(elems, b, pos) == Ok(Tuple(vs), pos + |Encode(Tuple(vs))|)
    decreases elems, 1
  {
    if elems != [] {
      var count := LittleEndian(|vs|, 2);
      StandsSplit(b, pos, [TUPLE_TAG] + count, EncodeAll(vs));
      StandsSplit(b, pos, [TUPLE_TAG], count);
      Pow256Values();
      LittleEndianRoundTrip(|vs|, 2);
      assert b[pos + 1..pos + 3] == count;
      assert b[pos] == b[pos..pos + 1][0];
      PartsTrip(elems, vs, b, pos + 3);
    }
  }

  lemma {:induction false} PartsTrip(tys: seq<Ty>, vs: seq<Value>, b: seq<byte>, pos: nat)
    requires HaveTypes(vs, tys) && pos <= |b| && StandsAt(b, pos, EncodeAll(vs))
    ensures DecodeParts(tys, b, pos) == Ok(vs, pos + |EncodeAll(vs)|)
    decreases tys, 0
  {
    if tys != [] {
      StandsSplit(b, pos, Encode(vs[0]), EncodeAll(vs[1..]));
      ReadBack(vs[0], tys[0], b, pos);
      PartsTrip(tys[1..], vs[1..], b, pos + |Encode(vs[0])|);
      assert [vs[0]] + vs[1..] == vs;
    }
  }

  // ---- What the format promises ----

  /** Round trip, with any bytes before and after. */
  lemma RoundTrip(v: Value, ty: Ty, pre: seq<byte>, post: seq<byte>)
    requires HasType(v, ty)
    ensures Decode(ty, pre + Encode(v) + post, |pre|) == Ok(v, |pre| + |Encode(v)|)
  {
    StandsBetween(pre, Encode(v), post);
    ReadBack(v, ty, pre + Encode(v) + post, |pre|);
  }

  /** No encoding of a type is a prefix of another one, and different values have different encodings. */
  lemma PrefixFree(v: Value, w: Value, ty: Ty, more: seq<byte>)
    requires HasType(v, ty) && HasType(w, ty) && Encode(w) == Encode(v) + more
    ensures v == w && more == []
  {
    RoundTrip(v, ty, [], more);
    RoundTrip(w, ty, [], []);
    assert [] + Encode(v) + more == [] + Encode(w) + [];
  }

  // ---- Unordered containers ----

  /** The map an enumeration of distinct keys stands for. */
  function MapOf(es: seq<Entry>): map<Value, Value> {
    if es == [] then map[] else MapOf(es[..|es| - 1])[es[|es| - 1].key := es[|es| - 1].val]
  }

  predicate Maps(m: map<Value, Value>, k: Value, v: Value) { k in m && m[k] == v }

  lemma {:induction false} MapOfHolds(es: seq<Entry>, k: Value, v: Value)
    requires DistinctKeys(es)
    ensures Maps(MapOf(es), k, v) <==> Entry(k, v) in es
  {
    if es != [] {
      var last := |es| - 1;
      MapOfHolds(es[..last], k, v);
      assert es == es[..last] + [es[last]];
      assert Entry(k, v) in es[..last] ==> es[last].key != k;
    }
  }

  /** Whatever order a hash map (or any map) is walked in when written, the reader rebuilds the same
      map and stops at the same place. */
  lemma OrderDoesNotMatter(m: MapKind, key: Ty, val: Ty, es: seq<Entry>, other: seq<Entry>, pre: seq<byte>, post: seq<byte>)
    requires HasType(Table(m, es), TMap(m, key, val)) && HasType(Table(m, other), TMap(m, key, val))
    requires multiset(es) == multiset(other)
    ensures var r := Decode(TMap(m, key, val), pre + Encode(Table(m, other)) + post, |pre|);
      r.Ok? && r.value.Table? && MapOf(r.value.entries) == MapOf(es) && r.pos == |pre| + |Encode(Table(m, es))|
  {
    RoundTrip(Table(m, other), TMap(m, key, val), pre, post);
    forall k, v ensures Maps(MapOf(es), k, v) <==> Maps(MapOf(other), k, v) {
      MapOfHolds(es, k, v);
      MapOfHolds(other, k, v);
      assert Entry(k, v) in multiset(es) <==> Entry(k, v) in multiset(other);
    }
    SameMap(MapOf(es), MapOf(other));
    SameLength(es, other);
  }

  lemma SameMap(a: map<Value, Value>, b: map<Value, Value>)
    requires forall k, v :: Maps(a, k, v) <==> Maps(b, k, v)
    ensures a == b
  {
    forall k | k in a && k in b ensures a[k] == b[k] { assert Maps(b, k, a[k]); }
    forall k ensures k in a <==> k in b {
      if k in a { assert Maps(b, k, a[k]); }
      if k in b { assert Maps(a, k, b[k]); }
    }
  }

  lemma {:induction false} SameLength(es: seq<Entry>, other: seq<Entry>)
    requires multiset(es) == multiset(other)
    ensures |EncodeEntries(es)| == |EncodeEntries(other)| && |es| == |other|
  {
    hide EncodeEntry;
    if es == [] {
      assert |multiset(other)| == 0;
    } else {
      assert es[0] in multiset(other);
      var i :| 0 <= i < |other| && other[i] == es[0];
      WithoutOne(es, other, i);
      SameLength(es[1..], other[..i] + other[i + 1..]);
      LengthWithoutOne(other, i);
    }
  }

  lemma WithoutOne(es: seq<Entry>, other: seq<Entry>, i: nat)
    requires es != [] && multiset(es) == multiset(other) && i < |other| && other[i] == es[0]
    ensures multiset(es[1..]) == multiset(other[..i] + other[i + 1..])
  {
    assert other == other[..i] + [other[i]] + other[i + 1..];
    assert es == [es[0]] + es[1..];
    assert multiset(other) == multiset(other[..i]) + multiset{other[i]} + multiset(other[i + 1..]);
    assert multiset(es) == multiset{es[0]} + multiset(es[1..]);
    assert multiset(other[..i] + other[i + 1..]) == multiset(other) - multiset{es[0]};
    assert multiset(es[1..]) == multiset(es) - multiset{es[0]};
  }

  lemma LengthWithoutOne(es: seq<Entry>, i: nat)
    requires i < |es|
    ensures |EncodeEntries(es)| == |EncodeEntry(es[i])| + |EncodeEntries(es[..i] + es[i + 1..])|
  {
    hide EncodeEntry;
    EncodeEntriesAppend(es[..i], es[i..]);
    EncodeEntriesAppend(es[..i], es[i + 1..]);
    assert es[i..] == [es[i]] + es[i + 1..];
    assert es[..i] + es[i..] == es;
  }

  // ---- Reads that fail ----

  predicate LooksLikeClass(b: seq<byte>, pos: nat) { pos < |b| && b[pos] == CLASS_TAG }

  /** A raw buffer stands here whose length is legal and not the one asked for. */
  predicate HasOtherLength(blob: BlobKind, len: nat, b: seq<byte>, pos: nat) {
    && pos + 5 <= |b| && b[pos] == BlobTag(blob)
    && FromLittleEndian(b[pos + 1..pos + 5]) <= MAX_BYTE_COUNT && FromLittleEndian(b[pos + 1..pos + 5]) != len
  }

  /** A read that throws leaves the position where it was, unless it is for a raw buffer and one of
      another length stands there, or for a class and the tag of a class stands there. */
  lemma RollBack(ty: Ty, b: seq<byte>, pos: nat)
    requires pos <= |b| && Decode(ty, b, pos).Throws?
    ensures Decode(ty, b, pos).pos == pos <==>
      !(ty.TBuffer? && HasOtherLength(ty.blob, ty.len, b, pos)) && !(ty.TClass? && LooksLikeClass(b, pos))
  {}

  /** One byte written and two asked for: the position stays behind the tag. */
  lemma OtherLengthStays()
    ensures Decode(TBuffer(BlobBytes, 2), Encode(Blob(BlobBytes, [7])), 0) == Throws(ReadIllegalBytesCount, 1)
  {
    var b := Encode(Blob(BlobBytes, [7]));
    assert b[1..5] == Count(1);
    LittleEndianRoundTrip(1, 4);
  }

  /** A class with no bytes behind its tag: the position stays behind the tag. Inside a tuple the same
      failure puts it back. */
  lemma CutClassStays()
    ensures Decode(TClass([TScalar(Bool)]), [CLASS_TAG], 0) == Throws(InsufficientRemainingMemory, 1)
    ensures Decode(TTuple([TClass([TScalar(Bool)])]), [TUPLE_TAG] + LittleEndian(1, 2) + [CLASS_TAG], 0)
      == Throws(InsufficientRemainingMemory, 0)
  {
    var fields := [TScalar(Bool)];
    assert DecodeParts(fields, [CLASS_TAG], 1) == Throws(InsufficientRemainingMemory, 1);
    var b := [TUPLE_TAG] + LittleEndian(1, 2) + [CLASS_TAG];
    assert b[1..3] == LittleEndian(1, 2) && b[3] == CLASS_TAG;
    LittleEndianRoundTrip(1, 2);
    assert DecodeParts(fields, b, 4) == Throws(InsufficientRemainingMemory, 4);
    assert DecodeParts([TClass(fields)], b, 3) == Throws(InsufficientRemainingMemory, 4);
  }

  // ---- Streams that are cut off ----

  /** The bytes of a string or raw buffer, short of the last k, behind anything. */
  function Cut(pre: seq<byte>, blob: BlobKind, data: seq<byte>, k: nat): seq<byte>
    requires k <= 5 + |data|
  {
    pre + Encode(Blob(blob, data))[..5 + |data| - k]
  }

  lemma CutHead(pre: seq<byte>, blob: BlobKind, data: seq<byte>, k: nat, limit: nat, tooMany: Error)
    requires |data| <= limit < Pow256(4) && 1 <= k <= 5 + |data|
    ensures var b := Cut(pre, blob, data, k);
      && |b| == |pre| + 5 + |data| - k
      && DecodeCount(BlobTag(blob), limit, tooMany, b, |pre|) ==
           if k <= |data| then Ok(|data|, |pre| + 5) else Throws(InsufficientRemainingMemory, |pre|)
  {
    var whole := [BlobTag(blob)] + Count(|data|) + data;
    assert Encode(Blob(blob, data)) == whole;
    hide Encode, BlobTag;
    LittleEndianRoundTrip(|data|, 4);
    hide LittleEndian, FromLittleEndian, Pow256;
    var b, n := Cut(pre, blob, data, k), 5 + |data| - k;
    assert b == pre + whole[..n];
    if k <= |data| {
      assert whole[..n][1..5] == Count(|data|);
      assert b[|pre| + 1..|pre| + 5] == whole[..n][1..5];
    }
  }

  /** What is left is measured from the tag, so the read goes past the end of the stream if and only if
      at most five bytes are missing and only of the payload; otherwise it throws and stays put. */
  lemma CutShort(blob: BlobKind, data: seq<byte>, pre: seq<byte>, k: nat)
    requires |data| <= (if blob.BlobString? then MAX_STRING_LENGTH else MAX_BYTE_COUNT) && 1 <= k <= 5 + |data|
    ensures var b := Cut(pre, blob, data, k); var ty := if blob.BlobString? then TString else TBuffer(blob, |data|);
      && (Decode(ty, b, |pre|).Undefined? <==> k <= 5 && k <= |data|)
      && (Decode(ty, b, |pre|).Throws? <==> 5 < k || |data| < k)
      && (Decode(ty, b, |pre|).Throws? ==> Decode(ty, b, |pre|).pos == |pre|)
  {
    Pow256Values();
    CutHead(pre, blob, data, k, MAX_STRING_LENGTH, IllegalStringLength);
    if !blob.BlobString? { CutHead(pre, blob, data, k, MAX_BYTE_COUNT, IllegalBytesCount); }
    hide Cut, DecodeCount, Encode, FromLittleEndian;
  }
}
