/** When a message reaches the handler: exactly when its last piece does, and always before the client
    goes on to phase two. */
module Sr2pHandOver {

  import opened Wrappers
  import opened Arithmetic
  import opened Bytes
  import opened Protocol
  import opened Pieces
  import opened SubReactor
  import opened Sr2p
  import opened Sr2pProof
  import I = Invoker

  // ---- One packet ----

  predicate AllSet(bits: seq<bool>) { forall i :: 0 <= i < |bits| ==> bits[i] }

  predicate HasPiece(slot: Slot, i: nat) { slot.rec.Some? && i < |slot.rec.value.bits| && slot.rec.value.bits[i] }

  predicate Triggered(slot: Slot) { slot.rec.Some? && slot.rec.value.triggered }

  lemma FullPrefix(bits: seq<bool>)
    ensures AckNumber(bits) == |bits| <==> AllSet(bits)
  {
    AckIsLongest(bits, |bits|);
  }

  /** What a data packet leaves of a sound record: its own piece is there besides those there before. */
  lemma PieceAdded(c: Call, path: Path, slot: Slot, i: nat, memory: seq<byte>, reached: nat)
    requires CallOk(c) && RecOk(c, slot.rec, reached) && i < Total(c) && |memory| == |c.m|
    ensures ReceiveOk(slot, I.DataPacket(c, i)) && I.DataPacket(c, i).h.total == |memory|
    ensures var (r, ack) := Received(path, slot, I.DataPacket(c, i), memory);
      && |r.bits| == Total(c) && r.triggered == Triggered(slot)
      && (forall j: nat :: j < Total(c) ==> (r.bits[j] <==> j == i || HasPiece(slot, j)))
      && ack == if HasPiece(slot, i) && path.OnNewConnection? then 0 else AckNumber(r.bits)
  {
    DataPacketFields(c, i);
    ReceivedOk(c, path, slot, i, memory, reached);
    hide Agrees, StoreAt, I.DataPacket;
  }

  /** A data packet hands the message over if and only if every piece is there afterwards, the record had
      not handed it over before, and the piece was missing or came by the loop's path. */
  lemma HandsOverExactly(c: Call, path: Path, slot: Slot, i: nat, memory: seq<byte>, reached: nat)
    requires CallOk(c) && RecOk(c, slot.rec, reached) && i < Total(c) && |memory| == |c.m|
    ensures ReceiveOk(slot, I.DataPacket(c, i)) && I.DataPacket(c, i).h.total == |memory|
    ensures var e := OnData(path, slot, I.DataPacket(c, i), memory);
      && e.slot.rec.Some? && |e.slot.rec.value.bits| == Total(c)
      && (forall j: nat :: j < Total(c) ==> (HasPiece(e.slot, j) <==> j == i || HasPiece(slot, j)))
      && (e.handed.Some? ==> e.handed.value == c.m)
      && (e.handed.Some? <==>
            AllSet(e.slot.rec.value.bits) && !Triggered(slot) && (!HasPiece(slot, i) || path.InLoop?))
      && (e.slot.rec.value.triggered <==>
            Triggered(slot) || (AllSet(e.slot.rec.value.bits) && (!HasPiece(slot, i) || path.InLoop?)))
      && (e.slot.rec.value.triggered && !Triggered(slot) ==> e.slot.known)
      && (slot.known ==> e.slot.known)
  {
    PieceAdded(c, path, slot, i, memory, reached);
    DataPacketFields(c, i);
    HandedIsMessage(c, path, slot, i, memory, reached);
    var (r, ack) := Received(path, slot, I.DataPacket(c, i), memory);
    FullPrefix(r.bits);
    hide Received, RecOk, AllSet, I.DataPacket;
  }

  // ---- While nothing is lost ----

  /** The record has lost nothing, no response has come up, and the handler still has what it was given. */
  ghost predicate Undisturbed(c: Call, w: World) {
    && w.slot.resp.None? && w.results == multiset{} && w.installed == []
    && w.reached == RecordPrefix(w.slot)
    && (Triggered(w.slot) ==> w.slot.known && c.m in w.jobs)
  }

  lemma StaysUndisturbed(c: Call, w: World, path: Path, i: nat, memory: seq<byte>)
    requires CallOk(c) && RecOk(c, w.slot.rec, Total(c)) && i < Total(c) && |memory| == |c.m| && Undisturbed(c, w)
    ensures ReceiveOk(w.slot, I.DataPacket(c, i)) && I.DataPacket(c, i).h.total == |memory|
    ensures Undisturbed(c, ServerGoes(w, OnData(path, w.slot, I.DataPacket(c, i), memory), true))
  {
    HandsOverExactly(c, path, w.slot, i, memory, Total(c));
    HandedIsMessage(c, path, w.slot, i, memory, Total(c));
    var e := OnData(path, w.slot, I.DataPacket(c, i), memory);
    hide OnData, I.DataPacket, ReceiveOk, RecOk, AllSet;
    if w.slot.rec.Some? {
      var was, now := w.slot.rec.value.bits, e.slot.rec.value.bits;
      assert forall j: nat :: j < |was| && was[j] ==> HasPiece(w.slot, j) && HasPiece(e.slot, j);
      AckGrows(was, now);
    }
  }

  // ---- Runs ----

  /** A record with every piece has handed its message over, and what has been handed over was counted. */
  ghost predicate HandedInv(c: Call, slot: Slot, reached: nat, handed: nat) {
    && (slot.rec.Some? && RecordPrefix(slot) == Total(c) ==> Triggered(slot))
    && (Triggered(slot) ==> 0 < handed)
    && (reached == Total(c) ==> 0 < handed)
  }

  lemma DataHands(c: Call, path: Path, slot: Slot, i: nat, memory: seq<byte>, reached: nat, handed: nat)
    requires CallOk(c) && RecOk(c, slot.rec, reached) && i < Total(c) && |memory| == |c.m|
    requires HandedInv(c, slot, reached, handed)
    ensures ReceiveOk(slot, I.DataPacket(c, i)) && I.DataPacket(c, i).h.total == |memory|
    ensures var e := OnData(path, slot, I.DataPacket(c, i), memory);
      HandedInv(c, e.slot, Max(reached, RecordPrefix(e.slot)), if e.handed.Some? then handed + 1 else handed)
  {
    HandsOverExactly(c, path, slot, i, memory, reached);
    var e := OnData(path, slot, I.DataPacket(c, i), memory);
    hide OnData, I.DataPacket, ReceiveOk;
    FullPrefix(e.slot.rec.value.bits);
    if HasPiece(slot, i) && AllSet(e.slot.rec.value.bits) {
      assert |slot.rec.value.bits| == Total(c);
      assert AllSet(slot.rec.value.bits) by {
        forall j: nat | j < |slot.rec.value.bits| ensures slot.rec.value.bits[j] { assert HasPiece(e.slot, j); }
      }
      FullPrefix(slot.rec.value.bits);
    }
  }

  /** What a datagram that is no data packet changes for the record. */
  lemma ControlHands(path: Path, slot: Slot, p: Packet, memory: seq<byte>)
    requires ReceivesSafely(path, slot, p) && |memory| == p.h.total && !IsData(path, p)
    ensures var e := Receive(path, slot, p, memory); e.slot.rec == slot.rec && e.handed.None?
  {
    hide NextPiece, Acknowledged, SendOk, ReceiveOk;
  }

  /** The data packets among the packets of this client. */
  lemma ClientData(c: Call, p: Packet, clientReached: nat, path: Path) returns (i: nat)
    requires ClientPacketOk(c, p, clientReached) && IsData(path, p)
    ensures i < Total(c) && p == I.DataPacket(c, i)
  {
    i :| i < Total(c) && p == I.DataPacket(c, i);
  }

  lemma ServerHands(env: Env, w: World, path: Path, p: Packet, memory: seq<byte>, accepted: bool)
    requires CallOk(env.call) && Inv(env, w) && Enabled(env, w, ServerReceives(path, p, memory, accepted))
    requires HandedInv(env.call, w.slot, w.reached, w.handed)
    ensures var w' := Do(env, w, ServerReceives(path, p, memory, accepted)); HandedInv(env.call, w'.slot, w'.reached, w'.handed)
  {
    assert ClientPacketOk(env.call, p, w.clientReached) && RecOk(env.call, w.slot.rec, w.reached);
    hide Inv;
    if IsData(path, p) {
      var i := ClientData(env.call, p, w.clientReached, path);
      DataPacketFields(env.call, i);
      DataHands(env.call, path, w.slot, i, memory, w.reached, w.handed);
      hide HandedInv, ReceiveOk, OnData, ClientPacketOk, I.DataPacket;
    } else {
      ControlHands(path, w.slot, p, memory);
      hide HandedInv, Receive, ClientPacketOk;
      assert Max(w.reached, RecordPrefix(w.slot)) == w.reached;
    }
  }

  lemma StepHands(env: Env, w: World, step: Step)
    requires CallOk(env.call) && Inv(env, w) && Enabled(env, w, step) && 0 < Total(env.call)
    requires HandedInv(env.call, w.slot, w.reached, w.handed)
    ensures var w' := Do(env, w, step); HandedInv(env.call, w'.slot, w'.reached, w'.handed)
  {
    hide Inv, I.EnterRound, I.OnEvent, Receive, NextPiece, PrefixAfter;
    if step.ServerReceives? { ServerHands(env, w, step.path, step.p, step.memory, step.accepted); }
  }

  /** In step k of the run the server hands the whole message to the handler. */
  ghost predicate HandsOver(env: Env, run: seq<World>, k: nat)
    requires k + 1 < |run|
  {
    exists path, p, memory, accepted ::
      && Enabled(env, run[k], ServerReceives(path, p, memory, accepted))
      && run[k + 1] == Do(env, run[k], ServerReceives(path, p, memory, accepted))
      && Receive(path, run[k].slot, p, memory).handed == Some(env.call.m)
  }

  lemma HandedValue(env: Env, w: World, path: Path, p: Packet, memory: seq<byte>, accepted: bool)
    requires CallOk(env.call) && Inv(env, w) && Enabled(env, w, ServerReceives(path, p, memory, accepted))
    ensures Receive(path, w.slot, p, memory).handed.Some? ==> Receive(path, w.slot, p, memory).handed.value == env.call.m
  {
    assert ClientPacketOk(env.call, p, w.clientReached) && RecOk(env.call, w.slot.rec, w.reached);
    hide Inv;
    if IsData(path, p) {
      var i := ClientData(env.call, p, w.clientReached, path);
      DataPacketFields(env.call, i);
      HandsOverExactly(env.call, path, w.slot, i, memory, w.reached);
      hide ReceiveOk, OnData, ClientPacketOk, I.DataPacket;
    } else {
      ControlHands(path, w.slot, p, memory);
    }
  }

  lemma CountedStep(env: Env, w: World, step: Step)
    requires CallOk(env.call) && Inv(env, w) && Enabled(env, w, step)
    ensures Do(env, w, step).handed != w.handed ==>
      && step.ServerReceives? && ReceivesSafely(step.path, w.slot, step.p) && |step.memory| == step.p.h.total
      && Receive(step.path, w.slot, step.p, step.memory).handed == Some(env.call.m)
  {
    hide Inv, I.EnterRound, I.OnEvent, Receive, NextPiece, PrefixAfter, RecordPrefix;
    if step.ServerReceives? { HandedValue(env, w, step.path, step.p, step.memory, step.accepted); }
  }

  lemma {:induction false} HandedIsGiven(env: Env, run: seq<World>, at: nat)
    requires CallOk(env.call) && IsRun(env, run) && at < |run|
    ensures 0 < run[at].handed ==> exists k: nat :: k < at && HandsOver(env, run, k)
  {
    hide Enabled, Do, Inv, Receive, ReceivesSafely;
    if at > 0 {
      HandedIsGiven(env, run, at - 1);
      RunInv(env, run, at - 1);
      assert Next(env, run[at - 1], run[at - 1 + 1]);
      var step :| Enabled(env, run[at - 1], step) && run[at] == Do(env, run[at - 1], step);
      CountedStep(env, run[at - 1], step);
      if run[at].handed != run[at - 1].handed { assert HandsOver(env, run, at - 1); }
    }
  }

  lemma {:induction false} RunHands(env: Env, run: seq<World>, at: nat)
    requires CallOk(env.call) && IsRun(env, run) && at < |run| && 0 < Total(env.call)
    ensures HandedInv(env.call, run[at].slot, run[at].reached, run[at].handed)
  {
    hide Enabled, Do, Inv, HandedInv;
    if at == 0 {
      StartHands(env.call, run[0]);
    } else {
      RunHands(env, run, at - 1);
      RunInv(env, run, at - 1);
      assert Next(env, run[at - 1], run[at - 1 + 1]);
      var step :| Enabled(env, run[at - 1], step) && run[at] == Do(env, run[at - 1], step);
      StepHands(env, run[at - 1], step);
    }
  }

  lemma StartHands(c: Call, w: World)
    requires Init(w) && 0 < Total(c)
    ensures HandedInv(c, w.slot, w.reached, w.handed)
  {}

  /** Once some record had every piece of the message, the handler was given the message. */
  lemma CompleteIsHandedOver(env: Env, run: seq<World>, at: nat)
    requires CallOk(env.call) && IsRun(env, run) && at < |run| && env.call.m != []
    requires run[at].reached == PieceCount(|env.call.m|)
    ensures 0 < run[at].handed && exists k: nat :: k < at && HandsOver(env, run, k)
  {
    RunHands(env, run, at);
    HandedIsGiven(env, run, at);
  }

  /** A client that waits for the response of a message that is not empty, or has it, waits for something:
      the handler was given the message before. */
  lemma PhaseTwoMeansHandedOver(env: Env, run: seq<World>, at: nat)
    requires CallOk(env.call) && IsRun(env, run) && at < |run| && env.call.m != []
    requires run[at].client.PhaseTwo? || (run[at].client.Finished? && run[at].client.outcome.Success?)
    ensures 0 < run[at].handed && exists k: nat :: k < at && HandsOver(env, run, k)
  {
    RunInv(env, run, at);
    assert ClientOk(env.call, run[at].client, run[at].reached, run[at].clientReached);
    hide IsRun, Inv;
    CompleteIsHandedOver(env, run, at);
  }

  /** In every run, whichever path a datagram takes: it hands something over if and only if it carries a
      piece, every piece of the message is there with it, the record has not been handed over, and the
      piece was missing or came by the loop's path; and what is handed over is the message. */
  lemma HandOver(env: Env, run: seq<World>, at: nat, path: Path, p: Packet, memory: seq<byte>, accepted: bool)
    requires CallOk(env.call) && IsRun(env, run) && at < |run|
    requires Enabled(env, run[at], ServerReceives(path, p, memory, accepted))
    ensures var slot, e := run[at].slot, Receive(path, run[at].slot, p, memory);
      && (e.handed.Some? ==> e.handed.value == env.call.m)
      && (e.handed.Some? <==>
            && IsData(path, p) && e.slot.rec.Some? && AllSet(e.slot.rec.value.bits) && |e.slot.rec.value.bits| == PieceCount(|env.call.m|)
            && !Triggered(slot) && (!HasPiece(slot, p.h.order) || path.InLoop?))
  {
    var w := run[at];
    RunInv(env, run, at);
    assert ToServerOk(env.call, w.toServer, w.clientReached) && RecOk(env.call, w.slot.rec, w.reached);
    assert ClientPacketOk(env.call, p, w.clientReached);
    hide Inv, IsRun;
    if IsData(path, p) {
      var i := ClientData(env.call, p, w.clientReached, path);
      DataPacketFields(env.call, i);
      HandsOverExactly(env.call, path, w.slot, i, memory, w.reached);
      hide ReceiveOk, OnData, ClientPacketOk, I.DataPacket, HasPiece, Triggered, AllSet;
    } else {
      ControlHands(path, w.slot, p, memory);
    }
  }
}
