/** Clean rounds of phase one: every packet of the window and every acknowledgement arrives once, in
    any order, and nothing else does. */
module WindowProgress {

  import opened Wrappers
  import opened Arithmetic
  import opened Bytes
  import opened Protocol
  import opened Pieces
  import opened SubReactor
  import opened Sr2p
  import opened Sr2pProof
  import I = Invoker

  /** Piece i arrives at the server on one of its paths. */
  datatype Arrival = Arrival(path: Path, i: nat, memory: seq<byte>)

  ghost predicate ArrivalOk(c: Call, a: Arrival) { a.i < Total(c) && |a.memory| == |c.m| }

  ghost predicate RecordSound(c: Call, slot: Slot) { RecOk(c, slot.rec, Total(c)) }

  function Bits(c: Call, slot: Slot): seq<bool> {
    if slot.rec.Some? then slot.rec.value.bits else AllFalse(Total(c))
  }

  /** One arrival: the slot behind it and the number that is acknowledged. */
  ghost function Arrive(c: Call, slot: Slot, a: Arrival): (Slot, nat)
    requires CallOk(c) && RecordSound(c, slot) && ArrivalOk(c, a)
  {
    ReceivedOk(c, a.path, slot, a.i, a.memory, Total(c));
    var e := OnData(a.path, slot, I.DataPacket(c, a.i), a.memory);
    (e.slot, e.replies[0].h.ack)
  }

  lemma ArriveStep(c: Call, slot: Slot, a: Arrival)
    requires CallOk(c) && RecordSound(c, slot) && ArrivalOk(c, a)
    ensures var (slot', ack) := Arrive(c, slot, a);
      && RecordSound(c, slot') && slot'.rec.Some? && |Bits(c, slot)| == Total(c)
      && Bits(c, slot') == Bits(c, slot)[a.i := true]
      && ack == if !Bits(c, slot)[a.i] || a.path.InLoop? then AckNumber(Bits(c, slot')) else 0
  {
    ReceivedOk(c, a.path, slot, a.i, a.memory, Total(c));
    DataPacketFields(c, a.i);
    var p := I.DataPacket(c, a.i);
    var (r, ack) := Received(a.path, slot, p, a.memory);
    assert Bits(c, slot)[a.i] ==> Bits(c, slot)[a.i := true] == Bits(c, slot);
    hide I.DataPacket, Agrees, StoreAt;
  }

  /** Arrivals one after the other, with the numbers that are acknowledged. */
  ghost function Serve(c: Call, slot: Slot, arrivals: seq<Arrival>): (Slot, seq<nat>)
    requires CallOk(c) && RecordSound(c, slot) && forall k :: 0 <= k < |arrivals| ==> ArrivalOk(c, arrivals[k])
    decreases |arrivals|
  {
    if arrivals == [] then (slot, [])
    else
      ArriveStep(c, slot, arrivals[0]);
      var (slot1, ack) := Arrive(c, slot, arrivals[0]);
      var (slot', acks) := Serve(c, slot1, arrivals[1..]);
      (slot', [ack] + acks)
  }

  ghost predicate Arrives(arrivals: seq<Arrival>, i: nat) { exists k :: 0 <= k < |arrivals| && arrivals[k].i == i }

  /** After the arrivals exactly their pieces have been added. */
  lemma {:induction false} ServeBits(c: Call, slot: Slot, arrivals: seq<Arrival>)
    requires CallOk(c) && RecordSound(c, slot) && forall k :: 0 <= k < |arrivals| ==> ArrivalOk(c, arrivals[k])
    ensures var (slot', acks) := Serve(c, slot, arrivals);
      && RecordSound(c, slot') && |acks| == |arrivals| && |Bits(c, slot)| == Total(c) == |Bits(c, slot')|
      && (arrivals != [] ==> slot'.rec.Some?)
      && (forall i: nat :: i < Total(c) ==> (Bits(c, slot')[i] <==> Bits(c, slot)[i] || Arrives(arrivals, i)))
      && (forall k :: 0 <= k < |acks| ==> acks[k] <= AckNumber(Bits(c, slot')))
    decreases |arrivals|
  {
    hide Arrive, RecordSound;
    SoundBits(c, slot);
    if arrivals != [] {
      ArriveStep(c, slot, arrivals[0]);
      var slot1 := Arrive(c, slot, arrivals[0]).0;
      ServeBits(c, slot1, arrivals[1..]);
      var (slot', acks) := Serve(c, slot, arrivals);
      forall i: nat | i < Total(c) ensures Bits(c, slot')[i] <==> Bits(c, slot)[i] || Arrives(arrivals, i) {
        assert Arrives(arrivals, i) <==> arrivals[0].i == i || Arrives(arrivals[1..], i) by { ArrivesSplit(arrivals, i); }
      }
      AckGrows(Bits(c, slot1), Bits(c, slot'));
    }
  }

  lemma SoundBits(c: Call, slot: Slot)
    requires RecordSound(c, slot)
    ensures |Bits(c, slot)| == Total(c)
  {}

  lemma ArrivesSplit(arrivals: seq<Arrival>, i: nat)
    requires arrivals != []
    ensures Arrives(arrivals, i) <==> arrivals[0].i == i || Arrives(arrivals[1..], i)
  {
    if k :| 0 <= k < |arrivals| && arrivals[k].i == i && k > 0 { assert arrivals[1..][k - 1].i == i; }
    if k :| 0 <= k < |arrivals[1..]| && arrivals[1..][k].i == i { assert arrivals[k + 1].i == i; }
  }

  /** Some acknowledgement reaches n. */
  ghost predicate Reaches(acks: seq<nat>, n: nat) { exists k :: 0 <= k < |acks| && n <= acks[k] }

  lemma ReachesSplit(ack: nat, acks: seq<nat>, n: nat)
    ensures Reaches([ack] + acks, n) <==> n <= ack || Reaches(acks, n)
  {
    if n <= ack { assert ([ack] + acks)[0] == ack; }
    if k :| 0 <= k < |acks| && n <= acks[k] { assert ([ack] + acks)[k + 1] == acks[k]; }
  }

  /** Acknowledgements reach a prefix that the arrivals complete; a prefix that was complete before is
      acknowledged again only by the loop's path. */
  lemma {:induction false} ServeReaches(c: Call, slot: Slot, arrivals: seq<Arrival>, n: nat)
    requires CallOk(c) && RecordSound(c, slot) && forall k :: 0 <= k < |arrivals| ==> ArrivalOk(c, arrivals[k])
    requires 0 < n && (forall k :: 0 <= k < |arrivals| ==> arrivals[k].i < n)
    requires n <= AckNumber(Bits(c, Serve(c, slot, arrivals).0))
    ensures Reaches(Serve(c, slot, arrivals).1, n) <==>
      AckNumber(Bits(c, slot)) < n || exists k :: 0 <= k < |arrivals| && arrivals[k].path.InLoop?
    decreases |arrivals|
  {
    hide Arrive, RecordSound;
    SoundBits(c, slot);
    if arrivals != [] {
      var a := arrivals[0];
      ArriveStep(c, slot, a);
      var (slot1, ack) := Arrive(c, slot, a);
      ServeReaches(c, slot1, arrivals[1..], n);
      var acks := Serve(c, slot1, arrivals[1..]).1;
      ReachesSplit(ack, acks, n);
      AckGrows(Bits(c, slot), Bits(c, slot1));
      AckIsPrefix(Bits(c, slot));
      AckUnchanged(Bits(c, slot), a.i);
      assert (exists k :: 0 <= k < |arrivals| && arrivals[k].path.InLoop?) <==>
             a.path.InLoop? || (exists k :: 0 <= k < |arrivals[1..]| && arrivals[1..][k].path.InLoop?) by { LoopSplit(arrivals); }
    }
  }

  ghost predicate OnlyNew(arrivals: seq<Arrival>) { forall k :: 0 <= k < |arrivals| ==> arrivals[k].path.OnNewConnection? }

  /** Duplicates on the path of new connections are all answered with zero and change nothing. */
  lemma {:induction false} ServeDuplicates(c: Call, slot: Slot, arrivals: seq<Arrival>)
    requires CallOk(c) && RecordSound(c, slot) && forall k :: 0 <= k < |arrivals| ==> ArrivalOk(c, arrivals[k])
    requires |Bits(c, slot)| == Total(c)
    requires OnlyNew(arrivals) && forall k :: 0 <= k < |arrivals| ==> arrivals[k].i < Total(c) && Bits(c, slot)[arrivals[k].i]
    ensures var (slot', acks) := Serve(c, slot, arrivals);
      Bits(c, slot') == Bits(c, slot) && forall k :: 0 <= k < |acks| ==> acks[k] == 0
    decreases |arrivals|
  {
    hide Arrive, RecordSound, Bits;
    if arrivals != [] {
      ArriveStep(c, slot, arrivals[0]);
      AckUnchanged(Bits(c, slot), arrivals[0].i);
      ServeDuplicates(c, Arrive(c, slot, arrivals[0]).0, arrivals[1..]);
    }
  }

  lemma LoopSplit(arrivals: seq<Arrival>)
    requires arrivals != []
    ensures (exists k :: 0 <= k < |arrivals| && arrivals[k].path.InLoop?) <==>
      arrivals[0].path.InLoop? || (exists k :: 0 <= k < |arrivals[1..]| && arrivals[1..][k].path.InLoop?)
  {
    if k :| 0 <= k < |arrivals| && arrivals[k].path.InLoop? && k > 0 { assert arrivals[1..][k - 1].path.InLoop?; }
    if k :| 0 <= k < |arrivals[1..]| && arrivals[1..][k].path.InLoop? { assert arrivals[k + 1].path.InLoop?; }
  }

  lemma AckUnchanged(bits: seq<bool>, i: nat)
    requires i < |bits|
    ensures bits[i] ==> bits[i := true] == bits
  {}

  // ---- The client's side of a round ----

  function MaxOf(a: nat, acks: seq<nat>): nat
    decreases |acks|
  {
    if acks == [] then a else MaxOf(if acks[0] > a then acks[0] else a, acks[1..])
  }

  lemma {:induction false} MaxOfReaches(a: nat, acks: seq<nat>, n: nat)
    ensures n <= MaxOf(a, acks) <==> n <= a || Reaches(acks, n)
    decreases |acks|
  {
    if acks != [] {
      MaxOfReaches(if acks[0] > a then acks[0] else a, acks[1..], n);
      assert acks == [acks[0]] + acks[1..];
      ReachesSplit(acks[0], acks[1..], n);
    }
  }

  /** Acknowledgements received one after the other, as long as the inner loop is at a receive. */
  function Feed(c: Call, s: I.Client, acks: seq<nat>): I.Client
    decreases |acks|
  {
    if acks == [] || !s.Await? then s else Feed(c, I.OnAnswer(c, s, Ack(c.id, acks[0]).h), acks[1..])
  }

  /** However they are ordered, the round ends at the greatest of them. */
  lemma {:induction false} FeedMax(c: Call, s: I.Client, acks: seq<nat>)
    requires CallOk(c) && s.Await? && s.ack < Total(c) && s.j < s.end && s.j < Total(c) && |acks| == Min(s.end, Total(c)) - s.j
    requires forall k :: 0 <= k < |acks| ==> acks[k] <= Total(c)
    ensures var s' := Feed(c, s, acks);
      s'.Top? && s'.ack == MaxOf(s.ack, acks) && s'.got != 0 && s'.tries == I.TRY_TIMES
    decreases |acks|
  {
    Exact(c);
    var s1 := I.OnAnswer(c, s, Ack(c.id, acks[0]).h);
    if s1.Await? {
      FeedMax(c, s1, acks[1..]);
    } else if s1.ack == Total(c) {
      MaxAtTop(Total(c), acks[1..]);
    }
  }

  lemma {:induction false} MaxAtTop(a: nat, acks: seq<nat>)
    requires forall k :: 0 <= k < |acks| ==> acks[k] <= a
    ensures MaxOf(a, acks) == a
  {
    if acks != [] { MaxAtTop(a, acks[1..]); }
  }

  // ---- Clean rounds ----

  /** Where the window ends. */
  function Target(c: Call, s: I.Client): nat
    requires s.Top?
  {
    Min(s.ack + SendCount(Total(c)), Total(c))
  }

  /** Each packet of the window arrives once, and each acknowledgement is delivered once. */
  ghost predicate CleanRound(c: Call, s: I.Client, slot: Slot, arrivals: seq<Arrival>, delivered: seq<nat>,
                             s': I.Client, slot': Slot)
    requires CallOk(c)
  {
    && s.Top? && s.got != 0 && s.ack < Total(c)
    && (forall k :: 0 <= k < |arrivals| ==> ArrivalOk(c, arrivals[k])) && RecordSound(c, slot)
    && var (w, sent) := I.EnterRound(c, s);
    && |arrivals| == |sent|
    && (forall k :: 0 <= k < |arrivals| ==> I.DataPacket(c, arrivals[k].i) in sent)
    && (forall i: nat :: i < Total(c) && I.DataPacket(c, i) in sent ==> Arrives(arrivals, i))
    && slot' == Serve(c, slot, arrivals).0
    && multiset(delivered) == multiset(Serve(c, slot, arrivals).1)
    && s' == Feed(c, w, delivered)
  }

  lemma {:induction false} WindowContents(c: Call, i: nat, end: nat)
    requires CallOk(c) && i <= Min(end, Total(c))
    ensures |I.Window(c, i, end)| == Min(end, Total(c)) - i
    ensures forall k: nat :: k < Total(c) ==> (I.DataPacket(c, k) in I.Window(c, i, end) <==> i <= k < Min(end, Total(c)))
    decreases end - i
  {
    Exact(c);
    if i < end && i < Total(c) {
      WindowContents(c, i + 1, end);
      assert I.Window(c, i, end) == [I.DataPacket(c, i)] + I.Window(c, i + 1, end);
      forall k: nat | k < Total(c) ensures I.DataPacket(c, k) == I.DataPacket(c, i) <==> k == i {}
    }
  }

  lemma RoundStart(c: Call, s: I.Client)
    requires CallOk(c) && s.Top? && s.got != 0 && s.ack < Total(c)
    ensures var (w, sent) := I.EnterRound(c, s);
      && w == I.Await(s.ack, s.ack + SendCount(Total(c)), s.ack, 0, s.tries)
      && sent == I.Window(c, s.ack, s.ack + SendCount(Total(c)))
  {
    Exact(c);
  }

  lemma ReachesAnyOrder(a: seq<nat>, b: seq<nat>, n: nat)
    requires multiset(a) == multiset(b) && Reaches(a, n)
    ensures Reaches(b, n)
  {
    var k :| 0 <= k < |a| && n <= a[k];
    assert a[k] in multiset(b);
    var l :| 0 <= l < |b| && b[l] == a[k];
  }

  lemma SameMembers(a: seq<nat>, b: seq<nat>, top: nat)
    requires multiset(a) == multiset(b) && forall k :: 0 <= k < |b| ==> b[k] <= top
    ensures |a| == |b| && forall k :: 0 <= k < |a| ==> a[k] <= top
  {
    assert |a| == |multiset(a)| == |b|;
    forall k | 0 <= k < |a| ensures a[k] <= top { assert a[k] in multiset(b); }
  }

  /** Exactly the pieces of the window arrive. */
  lemma WindowArrives(c: Call, s: I.Client, slot: Slot, arrivals: seq<Arrival>, delivered: seq<nat>, s': I.Client, slot': Slot)
    requires CallOk(c) && CleanRound(c, s, slot, arrivals, delivered, s', slot')
    ensures |arrivals| == Target(c, s) - s.ack && s.ack < Target(c, s)
    ensures forall k :: 0 <= k < |arrivals| ==> s.ack <= arrivals[k].i < Target(c, s)
    ensures forall i: nat :: i < Total(c) ==> (Arrives(arrivals, i) <==> s.ack <= i < Target(c, s))
  {
    RoundStart(c, s);
    WindowContents(c, s.ack, s.ack + SendCount(Total(c)));
    hide Serve, I.Window, I.EnterRound, I.DataPacket, RecordSound, Feed;
  }

  /** The round ends with the client at the greatest acknowledgement. */
  lemma RoundClient(c: Call, s: I.Client, slot: Slot, arrivals: seq<Arrival>, delivered: seq<nat>, s': I.Client, slot': Slot)
    requires CallOk(c) && CleanRound(c, s, slot, arrivals, delivered, s', slot')
    ensures s'.Top? && s'.ack == MaxOf(s.ack, delivered) && s'.got != 0 && s'.tries == I.TRY_TIMES
    ensures |Bits(c, slot')| == Total(c) && forall k :: 0 <= k < |delivered| ==> delivered[k] <= AckNumber(Bits(c, slot'))
  {
    WindowArrives(c, s, slot, arrivals, delivered, s', slot');
    RoundStart(c, s);
    hide Bits, I.Window, I.EnterRound, I.DataPacket, RecordSound, Arrive, I.OnAnswer;
    ServeBits(c, slot, arrivals);
    SameMembers(delivered, Serve(c, slot, arrivals).1, AckNumber(Bits(c, slot')));
    FeedMax(c, I.EnterRound(c, s).0, delivered);
  }

  /** What a clean round leaves: the pieces of the window are there besides what was there before. */
  lemma RoundEnd(c: Call, s: I.Client, slot: Slot, arrivals: seq<Arrival>, delivered: seq<nat>, s': I.Client, slot': Slot)
    requires CallOk(c) && CleanRound(c, s, slot, arrivals, delivered, s', slot')
    ensures RecordSound(c, slot') && |Bits(c, slot)| == |Bits(c, slot')| == Total(c)
    ensures forall i: nat :: i < Total(c) ==>
      (Bits(c, slot')[i] <==> Bits(c, slot)[i] || s.ack <= i < Target(c, s))
  {
    WindowArrives(c, s, slot, arrivals, delivered, s', slot');
    hide Bits, I.Window, I.EnterRound, I.DataPacket, RecordSound, Arrive, Feed, Arrives, Target;
    ServeBits(c, slot, arrivals);
  }

  /** The record's prefix ends before the client's window, as it can once a record has expired and a
      new one was begun. */
  ghost predicate Behind(c: Call, s: I.Client, slot: Slot)
    requires s.Top?
  {
    AckNumber(Bits(c, slot)) < s.ack
  }

  /** Every piece of the window is there already. */
  ghost predicate AllThere(c: Call, s: I.Client, slot: Slot)
    requires s.Top?
  {
    Target(c, s) <= AckNumber(Bits(c, slot))
  }

  /** A clean round either raises the acknowledged number at least to the end of its window or leaves it
      as it is. It leaves it if and only if the record's prefix ends before the window, or every piece
      of the window was there before and every packet of it came by the path of new connections, which
      answers duplicates with zero. Either way the count of tries starts afresh. */
  lemma CleanRoundProgress(c: Call, s: I.Client, slot: Slot, arrivals: seq<Arrival>, delivered: seq<nat>,
                           s': I.Client, slot': Slot)
    requires CallOk(c) && CleanRound(c, s, slot, arrivals, delivered, s', slot')
    ensures s'.Top? && s'.got != 0 && s'.tries == I.TRY_TIMES
    ensures Target(c, s) <= s'.ack <==> !Behind(c, s, slot) && !(AllThere(c, s, slot) && OnlyNew(arrivals))
    ensures Target(c, s) <= s'.ack || s'.ack == s.ack
    ensures Behind(c, s, slot) ==> AckNumber(Bits(c, slot')) == AckNumber(Bits(c, slot))
    ensures AllThere(c, s, slot) && OnlyNew(arrivals) ==> Bits(c, slot') == Bits(c, slot)
  {
    WindowArrives(c, s, slot, arrivals, delivered, s', slot');
    if Behind(c, s, slot) {
      BehindRound(c, s, slot, arrivals, delivered, s', slot');
    } else if AllThere(c, s, slot) && OnlyNew(arrivals) {
      DuplicateRound(c, s, slot, arrivals, delivered, s', slot');
    } else {
      AdvancingRound(c, s, slot, arrivals, delivered, s', slot');
    }
  }

  lemma BehindRound(c: Call, s: I.Client, slot: Slot, arrivals: seq<Arrival>, delivered: seq<nat>, s': I.Client, slot': Slot)
    requires CallOk(c) && CleanRound(c, s, slot, arrivals, delivered, s', slot') && Behind(c, s, slot)
    ensures s'.Top? && s'.got != 0 && s'.tries == I.TRY_TIMES && s'.ack == s.ack
    ensures AckNumber(Bits(c, slot')) == AckNumber(Bits(c, slot))
    ensures !AllThere(c, s, slot)
  {
    RoundClient(c, s, slot, arrivals, delivered, s', slot');
    RoundEnd(c, s, slot, arrivals, delivered, s', slot');
    WindowArrives(c, s, slot, arrivals, delivered, s', slot');
    var first := AckNumber(Bits(c, slot));
    AckIsPrefix(Bits(c, slot));
    AckIsLongest(Bits(c, slot'), first);
    AckIsLongest(Bits(c, slot'), first + 1);
    hide CleanRound, Bits;
    assert !Bits(c, slot')[first];
    MaxAtTop(s.ack, delivered);
  }

  lemma DuplicateRound(c: Call, s: I.Client, slot: Slot, arrivals: seq<Arrival>, delivered: seq<nat>, s': I.Client, slot': Slot)
    requires CallOk(c) && CleanRound(c, s, slot, arrivals, delivered, s', slot')
    requires AllThere(c, s, slot) && OnlyNew(arrivals)
    ensures s'.Top? && s'.got != 0 && s'.tries == I.TRY_TIMES && s'.ack == s.ack && s.ack < Target(c, s)
    ensures Bits(c, slot') == Bits(c, slot)
  {
    RoundClient(c, s, slot, arrivals, delivered, s', slot');
    RoundEnd(c, s, slot, arrivals, delivered, s', slot');
    WindowArrives(c, s, slot, arrivals, delivered, s', slot');
    AckIsPrefix(Bits(c, slot));
    hide Bits, I.Window, I.EnterRound, I.DataPacket, RecordSound, Arrive, Feed, Arrives, Serve;
    ServeDuplicates(c, slot, arrivals);
    SameMembers(delivered, Serve(c, slot, arrivals).1, 0);
    MaxAtTop(s.ack, delivered);
  }

  lemma AdvancingRound(c: Call, s: I.Client, slot: Slot, arrivals: seq<Arrival>, delivered: seq<nat>, s': I.Client, slot': Slot)
    requires CallOk(c) && CleanRound(c, s, slot, arrivals, delivered, s', slot')
    requires !Behind(c, s, slot) && !(AllThere(c, s, slot) && OnlyNew(arrivals))
    ensures s'.Top? && s'.got != 0 && s'.tries == I.TRY_TIMES && Target(c, s) <= s'.ack
  {
    var n := Target(c, s);
    WindowArrives(c, s, slot, arrivals, delivered, s', slot');
    RoundClient(c, s, slot, arrivals, delivered, s', slot');
    RoundEnd(c, s, slot, arrivals, delivered, s', slot');
    AckIsPrefix(Bits(c, slot));
    AckIsLongest(Bits(c, slot'), n);
    ServeReaches(c, slot, arrivals, n);
    var acks := Serve(c, slot, arrivals).1;
    assert Reaches(acks, n);
    ReachesAnyOrder(acks, delivered, n);
    MaxOfReaches(s.ack, delivered, n);
  }

  // ---- Rounds in a row ----

  /** The states at the top of the outer loop, and the server's slots, over clean rounds. */
  ghost predicate Rounds(c: Call, tops: seq<I.Client>, slots: seq<Slot>, arrivals: seq<seq<Arrival>>, delivered: seq<seq<nat>>)
    requires CallOk(c)
  {
    && |tops| == |slots| == |arrivals| + 1 == |delivered| + 1
    && tops[0].Top?
    && forall k :: 0 <= k < |arrivals| ==>
        CleanRound(c, tops[k], slots[k], arrivals[k], delivered[k], tops[k + 1], slots[k + 1])
  }

  lemma RoundAt(c: Call, tops: seq<I.Client>, slots: seq<Slot>, arrivals: seq<seq<Arrival>>, delivered: seq<seq<nat>>, k: nat)
    requires CallOk(c) && Rounds(c, tops, slots, arrivals, delivered) && 0 < k < |tops|
    ensures CleanRound(c, tops[k - 1], slots[k - 1], arrivals[k - 1], delivered[k - 1], tops[k], slots[k])
  {
    assert CleanRound(c, tops[k - 1], slots[k - 1], arrivals[k - 1], delivered[k - 1], tops[k - 1 + 1], slots[k - 1 + 1]);
  }

  /** A client that is ahead of the record stays where it is, however many clean rounds follow on
      whatever paths, and never runs out of tries. */
  lemma {:induction false} BehindForGood(c: Call, tops: seq<I.Client>, slots: seq<Slot>, arrivals: seq<seq<Arrival>>,
                                         delivered: seq<seq<nat>>, k: nat)
    requires CallOk(c) && Rounds(c, tops, slots, arrivals, delivered) && k < |tops| && Behind(c, tops[0], slots[0])
    ensures tops[k].Top? && tops[k].ack == tops[0].ack && Behind(c, tops[k], slots[k])
    ensures 0 < k ==> tops[k].got != 0 && tops[k].tries == I.TRY_TIMES
    ensures AckNumber(Bits(c, slots[k])) == AckNumber(Bits(c, slots[0]))
  {
    hide CleanRound;
    if k > 0 {
      BehindForGood(c, tops, slots, arrivals, delivered, k - 1);
      RoundAt(c, tops, slots, arrivals, delivered, k);
      CleanRoundProgress(c, tops[k - 1], slots[k - 1], arrivals[k - 1], delivered[k - 1], tops[k], slots[k]);
    }
  }

  /** The same for a client whose whole window is there, as long as its packets come by the path of new
      connections. */
  lemma {:induction false} DuplicatesForGood(c: Call, tops: seq<I.Client>, slots: seq<Slot>, arrivals: seq<seq<Arrival>>,
                                             delivered: seq<seq<nat>>, k: nat)
    requires CallOk(c) && Rounds(c, tops, slots, arrivals, delivered) && k < |tops| && AllThere(c, tops[0], slots[0])
    requires forall j :: 0 <= j < |arrivals| ==> OnlyNew(arrivals[j])
    ensures tops[k].Top? && tops[k].ack == tops[0].ack && Bits(c, slots[k]) == Bits(c, slots[0])
    ensures 0 < k ==> tops[k].got != 0 && tops[k].tries == I.TRY_TIMES
  {
    hide CleanRound;
    if k > 0 {
      DuplicatesForGood(c, tops, slots, arrivals, delivered, k - 1);
      RoundAt(c, tops, slots, arrivals, delivered, k);
      CleanRoundProgress(c, tops[k - 1], slots[k - 1], arrivals[k - 1], delivered[k - 1], tops[k], slots[k]);
    }
  }

  // ---- A loss-free phase one ----

  /** The record holds exactly the first `ack` pieces. */
  ghost predicate HoldsExactly(c: Call, slot: Slot, ack: nat) {
    |Bits(c, slot)| == Total(c) && forall i: nat :: i < Total(c) ==> (Bits(c, slot)[i] <==> i < ack)
  }

  lemma ExactAck(c: Call, slot: Slot, ack: nat)
    requires HoldsExactly(c, slot, ack) && ack <= Total(c)
    ensures AckNumber(Bits(c, slot)) == ack
  {
    AckIsPrefix(Bits(c, slot));
    AckIsLongest(Bits(c, slot), ack);
    if ack < Total(c) {
      assert !Bits(c, slot)[ack];
      AckIsLongest(Bits(c, slot), ack + 1);
    }
  }

  lemma ExactRound(c: Call, s: I.Client, slot: Slot, arrivals: seq<Arrival>, delivered: seq<nat>, s': I.Client, slot': Slot)
    requires CallOk(c) && CleanRound(c, s, slot, arrivals, delivered, s', slot') && HoldsExactly(c, slot, s.ack)
    ensures s'.Top? && s'.got != 0 && s'.ack == Target(c, s) && HoldsExactly(c, slot', s'.ack) && RecordSound(c, slot')
  {
    var n := Target(c, s);
    ExactAck(c, slot, s.ack);
    RoundClient(c, s, slot, arrivals, delivered, s', slot');
    RoundEnd(c, s, slot, arrivals, delivered, s', slot');
    CleanRoundProgress(c, s, slot, arrivals, delivered, s', slot');
    assert HoldsExactly(c, slot', n);
    ExactAck(c, slot', n);
    hide CleanRound, HoldsExactly;
    MaxOfReaches(s.ack, delivered, n + 1);
    assert !Reaches(delivered, n + 1);
  }

  /** Clean rounds from the start of a call. */
  ghost predicate CleanRun(c: Call, tops: seq<I.Client>, slots: seq<Slot>, arrivals: seq<seq<Arrival>>, delivered: seq<seq<nat>>)
    requires CallOk(c)
  {
    Rounds(c, tops, slots, arrivals, delivered) && tops[0] == I.START && slots[0] == Slot(None, false, None)
  }

  lemma {:induction false} RoundsDone(c: Call, tops: seq<I.Client>, slots: seq<Slot>, arrivals: seq<seq<Arrival>>,
                                      delivered: seq<seq<nat>>, k: nat)
    requires CallOk(c) && CleanRun(c, tops, slots, arrivals, delivered) && k < |tops|
    ensures tops[k].Top? && tops[k].ack == Min(k * SendCount(Total(c)), Total(c))
    ensures HoldsExactly(c, slots[k], tops[k].ack)
  {
    hide CleanRound, HoldsExactly;
    if k == 0 {
      Nothing(c);
    } else {
      RoundsDone(c, tops, slots, arrivals, delivered, k - 1);
      RoundAt(c, tops, slots, arrivals, delivered, k);
      ExactRound(c, tops[k - 1], slots[k - 1], arrivals[k - 1], delivered[k - 1], tops[k], slots[k]);
      var t := SendCount(Total(c));
      assert (k - 1) * t + t == k * t;
    }
  }

  lemma Nothing(c: Call)
    ensures HoldsExactly(c, Slot(None, false, None), 0)
  {}

  function CeilDiv(n: nat, d: nat): nat
    requires 0 < d
  {
    (n + d - 1) / d
  }

  lemma RoundsNeeded(n: nat, pieces: nat, k: nat)
    ensures n <= k * SendCount(pieces) <==> CeilDiv(n, SendCount(pieces)) <= k
  {}

  /** Without loss phase one takes exactly ceil(pieces / window) rounds. */
  lemma LossFreePhaseOne(c: Call, tops: seq<I.Client>, slots: seq<Slot>, arrivals: seq<seq<Arrival>>,
                         delivered: seq<seq<nat>>, k: nat)
    requires CallOk(c) && CleanRun(c, tops, slots, arrivals, delivered) && k < |tops|
    ensures tops[k].Top?
    ensures I.EnterRound(c, tops[k]).0.PhaseTwo? <==> CeilDiv(Total(c), SendCount(Total(c))) <= k
  {
    RoundsDone(c, tops, slots, arrivals, delivered, k);
    RoundsNeeded(Total(c), Total(c), k);
    EnteringTwo(c, tops[k]);
  }

  lemma EnteringTwo(c: Call, s: I.Client)
    requires CallOk(c) && s.Top?
    ensures I.EnterRound(c, s).0.PhaseTwo? <==> s.ack == Total(c)
  {
    Exact(c);
  }
}
