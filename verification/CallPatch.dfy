/** How the server prepares a call whose name starts with "@context/": the caller's address and port
    are added to the encoded argument tuple without decoding it. */
module CallPatch {

  import opened Bytes
  import opened Serializer
  import RT = SerializerRoundTrip

  /** "@context/" */
  const PREFIX: seq<byte> := [64, 99, 111, 110, 116, 101, 120, 116, 47]

  /** BinaryDeserializeView: a read position over a byte buffer that is not its own. */
  class DeserializeView {
    const byteStream: array<byte>
    var readPosition: nat

    ghost predicate Valid()
      reads this
    {
      readPosition <= byteStream.Length
    }

    constructor (b: array<byte>)
      ensures Valid() && byteStream == b && readPosition == 0
    {
      byteStream, readPosition := b, 0;
    }

    method OutputString() returns (r: Outcome<Value>)
      requires Valid()
      modifies this`readPosition
      ensures Valid() && r == DecodeString(byteStream[..], old(readPosition))
      ensures !r.Undefined? ==> readPosition == r.pos
    {
      if readPosition == byteStream.Length { return Throws(InsufficientRemainingMemory, readPosition); }
      var defaultPosition := readPosition;
      if byteStream[readPosition] != BlobTag(BlobString) { return Throws(DataTypeError, readPosition); }
      readPosition := readPosition + 1;
      if byteStream.Length - readPosition < 4 {
        readPosition := defaultPosition;
        return Throws(InsufficientRemainingMemory, defaultPosition);
      }
      assert byteStream[readPosition..readPosition + 4] == byteStream[..][readPosition..readPosition + 4];
      var stringLength := FromLittleEndian(byteStream[readPosition..readPosition + 4]);
      if stringLength > MAX_STRING_LENGTH {
        readPosition := defaultPosition;
        return Throws(IllegalStringLength, defaultPosition);
      }
      readPosition := readPosition + 4;
      if byteStream.Length - defaultPosition < stringLength {
        readPosition := defaultPosition;
        return Throws(InsufficientRemainingMemory, defaultPosition);
      }
      if byteStream.Length < readPosition + stringLength { return Undefined; }
      assert byteStream[readPosition..readPosition + stringLength] == byteStream[..][readPosition..readPosition + stringLength];
      var str := byteStream[readPosition..readPosition + stringLength];
      readPosition := readPosition + stringLength;
      r := Ok(Blob(BlobString, str), readPosition);
    }
  }

  // ---- The patch ----

  function Peer(ip: nat, port: nat): seq<Value> { [Scalar(UInt32, ip), Scalar(UInt16, port)] }

  predicate PeerOk(ip: nat, port: nat) { ip < Pow256(4) && port < Pow256(2) }

  /** What is appended behind a call whose name ends at `pos`: the two values alone if an argument
      tuple is there, a whole tuple if nothing is. */
  function Appendix(pure: seq<byte>, pos: nat, ip: nat, port: nat): seq<byte> {
    if |pure| == pos then Encode(Tuple(Peer(ip, port))) else EncodeAll(Peer(ip, port))
  }

  /** The 16-bit count behind the tuple's tag raised by two, in place. */
  function Raised(store: seq<byte>, pos: nat): (r: seq<byte>)
    requires pos + 3 <= |store|
    ensures |r| == |store|
  {
    var n := (FromLittleEndian(store[pos + 1..pos + 3]) + 2) % 65536;
    store[..pos + 1] + LittleEndian(n, 2) + store[pos + 3..]
  }

  lemma AppendixLength(pure: seq<byte>, pos: nat, ip: nat, port: nat)
    requires PeerOk(ip, port)
    ensures |Appendix(pure, pos, ip, port)| == if |pure| == pos then 11 else 8
  {
    PeerEncoding(ip, port);
  }

  lemma PeerEncoding(ip: nat, port: nat)
    requires PeerOk(ip, port)
    ensures EncodeAll(Peer(ip, port)) == [Tag(UInt32)] + LittleEndian(ip, 4) + ([Tag(UInt16)] + LittleEndian(port, 2))
  {
    var a, b := Scalar(UInt32, ip), Scalar(UInt16, port);
    assert Peer(ip, port)[1..] == [b];
    assert EncodeAll([b]) == Encode(b) + EncodeAll([]);
    assert EncodeAll(Peer(ip, port)) == Encode(a) + EncodeAll([b]);
  }

  function Patched(pure: seq<byte>, pos: nat, ip: nat, port: nat): seq<byte>
    requires pos <= |pure| && PeerOk(ip, port)
  {
    AppendixLength(pure, pos, ip, port);
    var store := pure + Appendix(pure, pos, ip, port);
    if |pure| == pos then store else Raised(store, pos)
  }

  datatype Prepared = Ready | Failed(error: Error) | Unreadable

  /** The part of triggerTask that turns the bytes of a call into the bytes handed to the router. */
  method Prepare(pure: array<byte>, ip: nat, port: nat) returns (r: Prepared, store: array<byte>)
    requires PeerOk(ip, port)
    ensures var name := DecodeString(pure[..], 0);
      match name
      case Ok(v, pos) =>
        && r == Ready && pos <= pure.Length
        && store[..] == if PREFIX <= v.data then Patched(pure[..], pos, ip, port) else pure[..]
      case Throws(e, _) => r == Failed(e)
      case Undefined => r == Unreadable
    ensures pure[..] == old(pure[..])
  {
    var view := new DeserializeView(pure);
    store := pure;
    var name := view.OutputString();
    if name.Undefined? { return Unreadable, pure; }
    if name.Throws? { return Failed(name.error), pure; }
    r := Ready;
    if PREFIX <= name.value.data {
      var pos := view.readPosition;
      var noOtherArgs := pure.Length == pos;
      var more := if noOtherArgs then Encode(Tuple(Peer(ip, port))) else EncodeAll(Peer(ip, port));
      AppendixLength(pure[..], pos, ip, port);
      store := Concatenate(pure, more);
      if !noOtherArgs {
        ghost var before := store[..];
        assert store[pos + 1..pos + 3] == before[pos + 1..pos + 3];
        var tplSize := FromLittleEndian(store[pos + 1..pos + 3]);
        var patch := LittleEndian((tplSize + 2) % 65536, 2);
        store[pos + 1], store[pos + 2] := patch[0], patch[1];
        assert store[..] == Raised(before, pos);
      }
    }
  }

  /** The two memcpy calls into a fresh buffer. */
  method Concatenate(a: array<byte>, b: seq<byte>) returns (store: array<byte>)
    ensures fresh(store) && store[..] == a[..] + b
  {
    store := new byte[a.Length + |b|];
    var i := 0;
    while i < a.Length
      invariant 0 <= i <= a.Length && store[..i] == a[..i]
    {
      store[i] := a[i];
      i := i + 1;
    }
    while i < store.Length
      invariant a.Length <= i <= store.Length && store[..i] == a[..] + b[..i - a.Length]
    {
      store[i] := b[i - a.Length];
      i := i + 1;
    }
    assert store[..] == store[..i] && b[..i - a.Length] == b;
  }

  // ---- What the patch means ----

  function Call(name: seq<byte>, args: seq<Value>): seq<byte> {
    Encode(Blob(BlobString, name)) + Encode(Tuple(args))
  }

  /** The patched bytes are the encoding of the same call with the address and the port as two more
      arguments, whatever the arguments are and whether or not there are any. */
  lemma PatchExtendsArguments(name: seq<byte>, args: seq<Value>, ip: nat, port: nat)
    requires |name| <= MAX_STRING_LENGTH && |args| + 2 < 65536 && PeerOk(ip, port)
    ensures var pos := |Encode(Blob(BlobString, name))|;
      && pos <= |Call(name, args)| && DecodeString(Call(name, args), 0) == Ok(Blob(BlobString, name), pos)
      && Patched(Call(name, args), pos, ip, port) == Call(name, args + Peer(ip, port))
  {
    var head := Encode(Blob(BlobString, name));
    RT.BlobTrip(BlobString, name, Call(name, args), 0);
    if args == [] {
      assert args + Peer(ip, port) == Peer(ip, port);
      assert Call(name, args) == head;
    } else {
      PatchInPlace(head, args, ip, port);
    }
  }

  lemma RaisedSplice(head: seq<byte>, tag: byte, n: nat, rest: seq<byte>)
    requires n < 65536
    ensures Raised(head + [tag] + LittleEndian(n, 2) + rest, |head|) ==
      head + [tag] + LittleEndian((n + 2) % 65536, 2) + rest
  {
    var store := head + [tag] + LittleEndian(n, 2) + rest;
    var pos := |head|;
    Pow256Values();
    LittleEndianRoundTrip(n, 2);
    assert store[pos + 1..pos + 3] == LittleEndian(n, 2);
    assert store[..pos + 1] == head + [tag] && store[pos + 3..] == rest;
    hide LittleEndian, FromLittleEndian;
  }

  lemma {:induction false} TupleEncoding(parts: seq<Value>)
    requires parts != []
    ensures Encode(Tuple(parts)) == [TUPLE_TAG] + LittleEndian(|parts|, 2) + EncodeAll(parts)
  {
    hide EncodeAll, LittleEndian;
  }

  lemma PatchInPlace(head: seq<byte>, args: seq<Value>, ip: nat, port: nat)
    requires args != [] && |args| + 2 < 65536 && PeerOk(ip, port)
    ensures Patched(head + Encode(Tuple(args)), |head|, ip, port) == head + Encode(Tuple(args + Peer(ip, port)))
  {
    hide EncodeAll, Encode, LittleEndian, Raised, PeerOk;
    var all, tail := args + Peer(ip, port), EncodeAll(Peer(ip, port));
    var pure := head + Encode(Tuple(args));
    TupleEncoding(args);
    TupleEncoding(all);
    EncodeAllAppend(args, Peer(ip, port));
    AppendixLength(pure, |head|, ip, port);
    assert pure + tail == head + [TUPLE_TAG] + LittleEndian(|args|, 2) + (EncodeAll(args) + tail);
    RaisedSplice(head, TUPLE_TAG, |args|, EncodeAll(args) + tail);
    assert |args| + 2 == |all|;
    assert Patched(pure, |head|, ip, port) == Raised(pure + tail, |head|);
    assert head + Encode(Tuple(all)) == head + [TUPLE_TAG] + LittleEndian(|all|, 2) + (EncodeAll(args) + tail);
  }

  /** The router reads the longer tuple back if and only if the call had at most 62 arguments: with 63
      or 64 the raised count is above the tuple limit. */
  lemma PatchedCallReadable(name: seq<byte>, args: seq<Value>, tys: seq<Ty>, ip: nat, port: nat, post: seq<byte>)
    requires HaveTypes(args, tys) && |args| <= MAX_TUPLE_COUNT && PeerOk(ip, port)
    ensures var b := Call(name, args + Peer(ip, port)) + post; var pos := |Encode(Blob(BlobString, name))|;
      && pos <= |b|
      && var r := Decode(TTuple(tys + [TScalar(UInt32), TScalar(UInt16)]), b, pos);
      && (|args| <= 62 ==> r == Ok(Tuple(args + Peer(ip, port)), |b| - |post|))
      && (|args| > 62 ==> r == Throws(IllegalTupleCount, pos))
  {
    var head := Encode(Blob(BlobString, name));
    var all, types := args + Peer(ip, port), tys + [TScalar(UInt32), TScalar(UInt16)];
    var b := head + Encode(Tuple(all)) + post;
    if |args| <= 62 {
      assert HaveTypes(all, types);
      RT.RoundTrip(Tuple(all), TTuple(types), head, post);
    } else {
      var count := LittleEndian(|all|, 2);
      assert b[|head|] == TUPLE_TAG && b[|head| + 1..|head| + 3] == count;
      Pow256Values();
      LittleEndianRoundTrip(|all|, 2);
    }
  }
}
