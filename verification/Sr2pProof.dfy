/** The invariant of an SR2P call and what it gives: delivery, sound acknowledgements, the execution
    count, and the result of a whole call. */
module Sr2pProof {

  import opened Wrappers
  import opened Arithmetic
  import opened Bytes
  import opened Protocol
  import opened Pieces
  import opened SubReactor
  import opened Sr2p
  import I = Invoker

  type Call = I.Call

  function Total(c: Call): nat { PieceCount(|c.m|) }

  // ---- The invariant, component by component ----

  /** Every packet this client sends under the call's id. */
  ghost predicate ClientPacketOk(c: Call, p: Packet, clientReached: nat) {
    || (exists i: nat :: i < Total(c) && p == I.DataPacket(c, i))
    || p == I.AskForAck(c)
    || (p.h.phase.Response? && !p.h.kind.RequestSend? && p.h.id == c.id && p.h.ack <= clientReached)
  }

  ghost predicate ToServerOk(c: Call, ps: set<Packet>, clientReached: nat) {
    forall p :: p in ps ==> ClientPacketOk(c, p, clientReached)
  }

  /** A record's buffer agrees with the message wherever its bitmap says so. */
  ghost predicate RecOk(c: Call, rec: Option<Record>, reached: nat) {
    rec.Some? ==>
      && rec.value.count == Total(c) && rec.value.total == |c.m|
      && Agrees(rec.value.bits, rec.value.data, c.m) && AckNumber(rec.value.bits) <= reached
  }

  function Owed(rec: Option<Record>): nat { if rec.Some? && !rec.value.triggered then 1 else 0 }

  ghost predicate CountsOk(c: Call, w: World) {
    && w.handed + Owed(w.slot.rec) <= w.created
    && |w.jobs| + |w.results| + |w.installed| <= w.handed
    && w.reached <= Total(c) && (0 < w.handed ==> w.reached == Total(c))
  }

  ghost predicate WorkOk(env: Env, w: World) {
    && (forall d :: d in w.jobs ==> d == env.call.m)
    && (forall r :: r in w.results ==> env.serves(env.call.m, r))
    && (forall i :: 0 <= i < |w.installed| ==> env.serves(env.call.m, w.installed[i]))
  }

  ghost predicate RespOk(resp: Option<Outgoing>, installed: seq<seq<byte>>, clientReached: nat) {
    resp.Some? ==> resp.value.data in installed && OutgoingOk(resp.value) && resp.value.ack <= clientReached
  }

  /** The packet for piece k of an installed response. */
  ghost predicate ResponsePieceOk(c: Call, p: Packet, data: seq<byte>, k: nat) {
    var r := Outgoing(PieceCount(|data|) % WORD16, |data|, k, data);
    k < r.count && SendOk(r) && p == ResponsePiece(c.id, r)
  }

  /** Every packet the server sends under the call's id. */
  ghost predicate ServerPacketOk(c: Call, p: Packet, reached: nat, installed: seq<seq<byte>>) {
    && p.h.id == c.id
    && (p.h.phase.Request? ==>
          (p.h.kind.ReceiverACK? && p.h.ack <= reached) || p.h.kind.StateReset? || p.h.kind.TimedOutResponseHeartbeat?)
    && (p.h.phase.Response? ==> exists data, k: nat :: data in installed && ResponsePieceOk(c, p, data, k))
  }

  ghost predicate ToClientOk(c: Call, ps: set<Packet>, reached: nat, installed: seq<seq<byte>>) {
    forall p :: p in ps ==> ServerPacketOk(c, p, reached, installed)
  }

  /** The client's own acknowledgement, and the prefix of its reassembly. */
  ghost predicate ClientOk(c: Call, s: Client, reached: nat, clientReached: nat) {
    match s
    case Top(ack, _, tries) => ack <= reached && 0 < tries
    case Await(ack, _, _, _, tries) => ack <= reached && 0 < tries
    case PhaseTwo(tries, resp) =>
      0 < tries && reached == Total(c) && I.IncomingOk(resp) && AckNumber(resp.bits) <= clientReached
    case Finished(outcome) => outcome.Success? ==> reached == Total(c)
  }

  ghost predicate AllAre(installed: seq<seq<byte>>, d: seq<byte>) { forall i :: 0 <= i < |installed| ==> installed[i] == d }

  /** What the client has put together is the one response that was installed. */
  ghost predicate Holding(s: Client, d: seq<byte>) {
    match s
    case PhaseTwo(_, resp) =>
      resp.started ==> resp.count == PieceCount(|d|) && resp.total == |d| && Agrees(resp.bits, resp.data, d)
    case Finished(outcome) => outcome.Success? ==> outcome.data == d
    case Top(_, _, _) => true
    case Await(_, _, _, _, _) => true
  }

  ghost predicate SameOk(s: Client, installed: seq<seq<byte>>, d: seq<byte>) {
    AllAre(installed, d) && PieceCount(|d|) < WORD16 ==> Holding(s, d)
  }

  ghost predicate Inv(env: Env, w: World) {
    && ToServerOk(env.call, w.toServer, w.clientReached)
    && RecOk(env.call, w.slot.rec, w.reached)
    && CountsOk(env.call, w) && WorkOk(env, w)
    && RespOk(w.slot.resp, w.installed, w.clientReached)
    && ToClientOk(env.call, w.toClient, w.reached, w.installed)
    && ClientOk(env.call, w.client, w.reached, w.clientReached)
    && (forall d :: SameOk(w.client, w.installed, d))
  }

  // ---- What the client sends ----

  lemma Exact(c: Call)
    requires CallOk(c)
    ensures I.Pieces16(c) == Total(c)
  {}

  lemma {:induction false} WindowIsData(c: Call, i: nat, end: nat, p: Packet)
    requires CallOk(c) && p in I.Window(c, i, end)
    ensures exists k: nat :: k < Total(c) && p == I.DataPacket(c, k)
    decreases end - i
  {
    Exact(c);
    if i < end && i < Total(c) && p != I.DataPacket(c, i) { WindowIsData(c, i + 1, end, p); }
  }

  lemma ClientPacketsKeep(c: Call, w: World, ps: seq<Packet>, clientReached: nat)
    requires ToServerOk(c, w.toServer, w.clientReached) && w.clientReached <= clientReached
    requires forall p :: p in ps ==> ClientPacketOk(c, p, clientReached)
    ensures ToServerOk(c, w.toServer + SetOf(ps), clientReached)
  {
    forall p | p in w.toServer + SetOf(ps) ensures ClientPacketOk(c, p, clientReached) {
      if p in w.toServer { assert ClientPacketOk(c, p, w.clientReached); }
    }
  }

  /** A response-phase packet from the server proves that every piece was there once. */
  lemma ResponseMeansComplete(env: Env, w: World, p: Packet)
    requires Inv(env, w) && p in w.toClient && p.h.phase.Response?
    ensures w.reached == Total(env.call) && w.installed != []
  {
    assert ServerPacketOk(env.call, p, w.reached, w.installed);
  }

  // ---- Client steps ----

  lemma EnterKeeps(env: Env, w: World)
    requires CallOk(env.call) && Inv(env, w) && w.client.Top?
    ensures Inv(env, Do(env, w, ClientEnters))
  {
    Exact(env.call);
    var r := I.EnterRound(env.call, w.client);
    forall p | p in r.1 ensures ClientPacketOk(env.call, p, w.clientReached) {
      WindowIsData(env.call, w.client.ack, (w.client.ack + SendCount(I.Pieces16(env.call))) % WORD16, p);
    }
    ClientPacketsKeep(env.call, w, r.1, w.clientReached);
    hide ToServerOk, RecOk, CountsOk, WorkOk, RespOk, ToClientOk;
  }

  lemma HearsClient(c: Call, w: World, e: Event)
    requires CallOk(c) && ClientOk(c, w.client, w.reached, w.clientReached)
    requires (w.client.Await? || w.client.PhaseTwo?) && (e.Arrived? ==> e.p.h.id != c.id)
    ensures var r := I.OnEvent(c, w.client, e, []);
      && ClientOk(c, r.0, w.reached, w.clientReached)
      && (forall p :: p in r.1 ==> ClientPacketOk(c, p, w.clientReached))
      && (forall d :: Holding(w.client, d) ==> Holding(r.0, d))
  {}

  lemma HearsKeeps(env: Env, w: World, e: Event)
    requires CallOk(env.call) && Inv(env, w) && Enabled(env, w, ClientHears(e))
    ensures Inv(env, Do(env, w, ClientHears(e)))
  {
    HearsClient(env.call, w, e);
    var r := I.OnEvent(env.call, w.client, e, []);
    ClientPacketsKeep(env.call, w, r.1, w.clientReached);
    hide ToServerOk, RecOk, CountsOk, WorkOk, RespOk, ToClientOk, ClientOk, Holding, ClientPacketOk, I.OnEvent;
    forall d ensures SameOk(r.0, w.installed, d) { assert SameOk(w.client, w.installed, d); }
  }

  lemma AnswerKeeps(env: Env, w: World, p: Packet, memory: seq<byte>)
    requires CallOk(env.call) && Inv(env, w) && w.client.Await? && Enabled(env, w, ClientReceives(p, memory))
    ensures Inv(env, Do(env, w, ClientReceives(p, memory)))
  {
    Exact(env.call);
    assert ServerPacketOk(env.call, p, w.reached, w.installed);
    if p.h.phase.Response? { ResponseMeansComplete(env, w, p); }
    var r := I.OnEvent(env.call, w.client, I.Arrived(p), memory);
    ClientPacketsKeep(env.call, w, r.1, w.clientReached);
    hide ToServerOk, RecOk, CountsOk, WorkOk, RespOk, ToClientOk, ServerPacketOk;
  }

  /** What the piece of an installed response carries. */
  lemma PieceContents(c: Call, p: Packet, data: seq<byte>, k: nat)
    requires ResponsePieceOk(c, p, data, k) && PieceCount(|data|) < WORD16
    ensures p.h.kind.RequestSend? && p.h.phase.Response? && p.h.order == k < PieceCount(|data|)
    ensures p.h.count == PieceCount(|data|) && p.h.total == |data| && p.h.size == |p.body| && p.body == PieceOf(data, k)
  {
    PiecesTile(|data|, k);
  }

  /** A piece arrives: the reassembly grows, and what is in it is what was installed. */
  lemma PieceTaken(c: Call, s: Client, p: Packet, memory: seq<byte>, reached: nat, clientReached: nat)
    requires s.PhaseTwo? && ClientOk(c, s, reached, clientReached) && I.IsPiece(c, I.Arrived(p))
    requires |memory| == p.h.total
    ensures I.Sound(s)
    ensures var after := PrefixAfter(c, s, I.Arrived(p), memory);
      var r := I.OnEvent(c, s, I.Arrived(p), memory);
      && ClientOk(c, r.0, reached, Max(clientReached, after))
      && (forall q :: q in r.1 ==> ClientPacketOk(c, q, Max(clientReached, after)))
  {
    hide Agrees;
  }

  lemma AllFalseAgrees(d: seq<byte>, memory: seq<byte>)
    requires |memory| == |d|
    ensures Agrees(AllFalse(PieceCount(|d|)), memory, d)
  {}

  lemma PieceHeld(c: Call, s: Client, p: Packet, memory: seq<byte>, d: seq<byte>, k: nat)
    requires s.PhaseTwo? && Holding(s, d) && I.IsPiece(c, I.Arrived(p)) && PieceCount(|d|) < WORD16
    requires I.Sound(s) && |memory| == p.h.total && ResponsePieceOk(c, p, d, k)
    ensures Holding(I.OnEvent(c, s, I.Arrived(p), memory).0, d)
  {
    PieceContents(c, p, d, k);
    AllFalseAgrees(d, memory);
    PiecesTile(|d|, k);
    var r := I.Sized(s.resp, p, memory);
    assert Agrees(r.bits, r.data, d) && r.count == PieceCount(|d|) && r.total == |d|;
    assert I.PieceReach(r, p).Within?;
    AgreeingStore(r.bits, r.data, d, k);
    var r1 := I.Taken(r, p);
    assert Agrees(r1.bits, r1.data, d);
    if AckNumber(r1.bits) == r1.count { FullBuffer(r1.bits, r1.data, d); }
  }

  lemma PieceKeeps(env: Env, w: World, p: Packet, memory: seq<byte>)
    requires CallOk(env.call) && Inv(env, w) && w.client.PhaseTwo? && Enabled(env, w, ClientReceives(p, memory))
    requires I.IsPiece(env.call, I.Arrived(p))
    ensures Inv(env, Do(env, w, ClientReceives(p, memory)))
  {
    var r := I.OnEvent(env.call, w.client, I.Arrived(p), memory);
    var after := Max(w.clientReached, PrefixAfter(env.call, w.client, I.Arrived(p), memory));
    PieceTaken(env.call, w.client, p, memory, w.reached, w.clientReached);
    ClientPacketsKeep(env.call, w, r.1, after);
    assert ServerPacketOk(env.call, p, w.reached, w.installed);
    forall d ensures SameOk(r.0, w.installed, d) {
      assert SameOk(w.client, w.installed, d);
      if AllAre(w.installed, d) && PieceCount(|d|) < WORD16 {
        var data, k: nat :| data in w.installed && ResponsePieceOk(env.call, p, data, k);
        PieceHeld(env.call, w.client, p, memory, d, k);
      }
    }
    hide ToServerOk, RecOk, CountsOk, WorkOk, ToClientOk, ClientOk, Holding, ClientPacketOk, ServerPacketOk, SameOk, I.OnEvent;
  }

  /** In phase two a control packet only resets the tries. */
  lemma ControlKeeps(env: Env, w: World, p: Packet, memory: seq<byte>)
    requires CallOk(env.call) && Inv(env, w) && w.client.PhaseTwo? && Enabled(env, w, ClientReceives(p, memory))
    requires !I.IsPiece(env.call, I.Arrived(p))
    ensures Inv(env, Do(env, w, ClientReceives(p, memory)))
  {
    assert ServerPacketOk(env.call, p, w.reached, w.installed);
    assert p.h.phase.Request?;
    var r := I.OnEvent(env.call, w.client, I.Arrived(p), memory);
    assert r == (I.PhaseTwo(I.TRY_TIMES, w.client.resp), []);
    ClientPacketsKeep(env.call, w, r.1, w.clientReached);
    forall d ensures SameOk(r.0, w.installed, d) { assert SameOk(w.client, w.installed, d); }
    hide ToServerOk, RecOk, CountsOk, WorkOk, RespOk, ToClientOk, ClientPacketOk, ServerPacketOk, I.OnEvent;
  }

  // ---- Server steps ----

  lemma DataPacketFields(c: Call, i: nat)
    requires CallOk(c) && i < Total(c)
    ensures var p := I.DataPacket(c, i);
      && p.h.kind.RequestSend? && p.h.phase.Request? && p.h.id == c.id && p.h.order == i && p.h.count == Total(c)
      && p.h.total == |c.m| && p.h.standard == PIECE_LIMIT && p.h.size == |p.body| && p.body == PieceOf(c.m, i)
      && PieceOk(Total(c), |c.m|, p)
  {
    PiecesTile(|c.m|, i);
  }

  /** A data packet keeps the record in agreement with the message, and the number acknowledged is a
      prefix the record has. */
  lemma ReceivedOk(c: Call, path: Path, slot: Slot, i: nat, memory: seq<byte>, reached: nat)
    requires CallOk(c) && RecOk(c, slot.rec, reached) && i < Total(c) && |memory| == |c.m|
    ensures ReceiveOk(slot, I.DataPacket(c, i)) && I.DataPacket(c, i).h.total == |memory|
    ensures var (r, ack) := Received(path, slot, I.DataPacket(c, i), memory);
      && RecOk(c, Some(r), Max(reached, AckNumber(r.bits))) && ack <= AckNumber(r.bits) <= Total(c)
      && r.triggered == (slot.rec.Some? && slot.rec.value.triggered)
  {
    DataPacketFields(c, i);
    var was := if slot.rec.Some? then slot.rec.value
               else Record(Total(c), |c.m|, AllFalse(Total(c)), false, memory);
    AllFalseAgrees(c.m, memory);
    assert Agrees(was.bits, was.data, c.m);
    AgreeingStore(was.bits, was.data, c.m, i);
    hide Agrees;
  }

  /** What is handed to the handler is the whole message, whichever path took the last piece, and it
      is handed over only with every piece there and only once for each record. */
  lemma HandedIsMessage(c: Call, path: Path, slot: Slot, i: nat, memory: seq<byte>, reached: nat)
    requires CallOk(c) && RecOk(c, slot.rec, reached) && i < Total(c) && |memory| == |c.m|
    ensures ReceiveOk(slot, I.DataPacket(c, i)) && I.DataPacket(c, i).h.total == |memory|
    ensures var e := OnData(path, slot, I.DataPacket(c, i), memory);
      && e.slot.rec.Some? && e.slot.resp == slot.resp && |e.replies| == 1
      && RecOk(c, e.slot.rec, Max(reached, RecordPrefix(e.slot)))
      && (forall q :: q in e.replies ==> exists n: nat :: n <= RecordPrefix(e.slot) && q == Ack(c.id, n))
      && (e.handed.Some? ==> e.handed.value == c.m && RecordPrefix(e.slot) == Total(c)
                             && Owed(e.slot.rec) == 0 && !(slot.rec.Some? && slot.rec.value.triggered))
      && (e.handed.None? && slot.rec.Some? ==> Owed(e.slot.rec) == Owed(slot.rec))
      && RecordPrefix(e.slot) <= Total(c)
  {
    ReceivedOk(c, path, slot, i, memory, reached);
    DataPacketFields(c, i);
    var p := I.DataPacket(c, i);
    var (r, ack) := Received(path, slot, p, memory);
    hide Received;
    if ack == p.h.count { FullBuffer(r.bits, r.data, c.m); }
    assert OnData(path, slot, p, memory).replies == [Ack(c.id, ack)];
  }

  lemma ServerPacketsKeep(c: Call, ps: set<Packet>, more: seq<Packet>, reached: nat, reached': nat,
                          installed: seq<seq<byte>>, installed': seq<seq<byte>>)
    requires ToClientOk(c, ps, reached, installed) && reached <= reached' && installed <= installed'
    requires forall p :: p in more ==> ServerPacketOk(c, p, reached', installed')
    ensures ToClientOk(c, ps + SetOf(more), reached', installed')
  {
    forall p | p in ps + SetOf(more) ensures ServerPacketOk(c, p, reached', installed') {
      if p in ps { assert ServerPacketOk(c, p, reached, installed); }
    }
  }

  lemma ControlReplyOk(c: Call, slot: Slot, reached: nat, installed: seq<seq<byte>>, n: nat)
    requires n <= reached
    ensures ServerPacketOk(c, Ack(c.id, n), reached, installed)
    ensures ServerPacketOk(c, Reset(c.id), reached, installed) && ServerPacketOk(c, Heartbeat(c.id), reached, installed)
  {}

  lemma ClientLater(c: Call, s: Client, reached: nat, reached': nat, clientReached: nat)
    requires ClientOk(c, s, reached, clientReached) && reached <= reached' <= Total(c)
    ensures ClientOk(c, s, reached', clientReached)
  {}

  lemma DataCounts(env: Env, w: World, path: Path, i: nat, memory: seq<byte>, accepted: bool)
    requires CallOk(env.call) && Inv(env, w) && i < Total(env.call) && |memory| == |env.call.m|
    ensures ReceiveOk(w.slot, I.DataPacket(env.call, i)) && I.DataPacket(env.call, i).h.total == |memory|
    ensures var w' := ServerGoes(w, OnData(path, w.slot, I.DataPacket(env.call, i), memory), accepted);
      CountsOk(env.call, w') && WorkOk(env, w')
  {
    HandedIsMessage(env.call, path, w.slot, i, memory, w.reached);
    hide OnData, RecOk, Agrees, ToServerOk, ToClientOk, ClientOk, RespOk, SameOk;
  }

  lemma DataKeeps(env: Env, w: World, path: Path, i: nat, memory: seq<byte>, accepted: bool)
    requires CallOk(env.call) && Inv(env, w) && i < Total(env.call) && |memory| == |env.call.m|
    ensures ReceiveOk(w.slot, I.DataPacket(env.call, i)) && I.DataPacket(env.call, i).h.total == |memory|
    ensures Inv(env, ServerGoes(w, OnData(path, w.slot, I.DataPacket(env.call, i), memory), accepted))
  {
    HandedIsMessage(env.call, path, w.slot, i, memory, w.reached);
    DataCounts(env, w, path, i, memory, accepted);
    var e := OnData(path, w.slot, I.DataPacket(env.call, i), memory);
    var reached := Max(w.reached, RecordPrefix(e.slot));
    forall q | q in e.replies ensures ServerPacketOk(env.call, q, reached, w.installed) {
      var n: nat :| n <= RecordPrefix(e.slot) && q == Ack(env.call.id, n);
      ControlReplyOk(env.call, e.slot, reached, w.installed, n);
    }
    ServerPacketsKeep(env.call, w.toClient, e.replies, w.reached, reached, w.installed, w.installed);
    ClientLater(env.call, w.client, w.reached, reached, w.clientReached);
    hide OnData, RecOk, CountsOk, WorkOk, ToServerOk, ToClientOk, ClientOk, RespOk, SameOk;
  }

  /** A step of the server that stores nothing and hands nothing over. */
  lemma QuietServer(env: Env, w: World, e: Effect, accepted: bool)
    requires CallOk(env.call) && Inv(env, w) && e.slot.rec == w.slot.rec && e.handed.None?
    requires RespOk(e.slot.resp, w.installed, w.clientReached)
    requires forall q :: q in e.replies ==> ServerPacketOk(env.call, q, w.reached, w.installed)
    ensures Inv(env, ServerGoes(w, e, accepted))
  {
    ServerPacketsKeep(env.call, w.toClient, e.replies, w.reached, w.reached, w.installed, w.installed);
    assert Max(w.reached, RecordPrefix(w.slot)) == w.reached;
    hide ToServerOk, ToClientOk, ClientOk, RespOk, SameOk, ServerPacketOk;
  }

  lemma NextPieceOk(c: Call, r: Outgoing, reached: nat, installed: seq<seq<byte>>)
    requires r.data in installed && OutgoingOk(r)
    ensures SendOk(r) && forall q :: q in NextPiece(c.id, r) ==> ServerPacketOk(c, q, reached, installed)
  {
    SendAlwaysOk(r);
    assert r == Outgoing(PieceCount(|r.data|) % WORD16, |r.data|, r.ack, r.data);
    if r.ack < r.count { assert ResponsePieceOk(c, ResponsePiece(c.id, r), r.data, r.ack); }
  }

  lemma RespSafe(slot: Slot, installed: seq<seq<byte>>, clientReached: nat, p: Packet)
    requires RespOk(slot.resp, installed, clientReached)
    ensures slot.resp.Some? ==> SendOk(slot.resp.value) && SendOk(Acknowledged(slot.resp.value, p.h.ack))
  {
    if slot.resp.Some? { BothSendOk(slot.resp.value, p.h.ack); }
  }

  lemma ResponsePhaseKeeps(env: Env, w: World, p: Packet, accepted: bool)
    requires CallOk(env.call) && Inv(env, w) && p.h.id == env.call.id && p.h.ack <= w.clientReached
    ensures w.slot.resp.Some? ==> SendOk(w.slot.resp.value) && SendOk(Acknowledged(w.slot.resp.value, p.h.ack))
    ensures Inv(env, ServerGoes(w, OnResponsePhase(w.slot, p), accepted))
  {
    RespSafe(w.slot, w.installed, w.clientReached, p);
    ControlReplyOk(env.call, w.slot, w.reached, w.installed, 0);
    var e := OnResponsePhase(w.slot, p);
    if w.slot.resp.Some? {
      NextPieceOk(env.call, w.slot.resp.value, w.reached, w.installed);
      NextPieceOk(env.call, Acknowledged(w.slot.resp.value, p.h.ack), w.reached, w.installed);
    }
    forall q | q in e.replies ensures ServerPacketOk(env.call, q, w.reached, w.installed) {}
    QuietServer(env, w, e, accepted);
  }

  lemma ControlRequestKeeps(env: Env, w: World, p: Packet, accepted: bool)
    requires CallOk(env.call) && Inv(env, w) && p.h.id == env.call.id
    ensures Inv(env, ServerGoes(w, OnRequestAck(w.slot, p), accepted))
    ensures Inv(env, ServerGoes(w, OnHeartbeat(w.slot, p), accepted))
    ensures Inv(env, ServerGoes(w, Effect(w.slot, [Reset(p.h.id)], None), accepted))
  {
    ControlReplyOk(env.call, w.slot, w.reached, w.installed, RecordPrefix(w.slot));
    hide ServerPacketOk;
    QuietServer(env, w, OnRequestAck(w.slot, p), accepted);
    QuietServer(env, w, OnHeartbeat(w.slot, p), accepted);
    QuietServer(env, w, Effect(w.slot, [Reset(p.h.id)], None), accepted);
  }

  /** How a packet of this client is dispatched. */
  lemma Dispatch(path: Path, slot: Slot, p: Packet, memory: seq<byte>)
    requires ReceivesSafely(path, slot, p) && |memory| == p.h.total
    ensures p.h.phase.Request? && p.h.kind.RequestSend? ==>
      ReceiveOk(slot, p) && Receive(path, slot, p, memory) == OnData(path, slot, p, memory)
    ensures p.h.phase.Request? && p.h.kind.RequestACK? ==> Receive(path, slot, p, memory) == OnRequestAck(slot, p)
    ensures p.h.phase.Response? && !p.h.kind.RequestSend? ==>
      || (path.InLoop? && (slot.resp.Some? ==> SendOk(slot.resp.value) && SendOk(Acknowledged(slot.resp.value, p.h.ack)))
          && Receive(path, slot, p, memory) == OnResponsePhase(slot, p))
      || Receive(path, slot, p, memory) == OnRequestAck(slot, p)
      || Receive(path, slot, p, memory) == OnHeartbeat(slot, p)
  {
    hide OnData, OnRequestAck, OnHeartbeat, OnResponsePhase, ReceiveOk;
  }

  lemma ServerKeeps(env: Env, w: World, path: Path, p: Packet, memory: seq<byte>, accepted: bool)
    requires CallOk(env.call) && Inv(env, w) && Enabled(env, w, ServerReceives(path, p, memory, accepted))
    ensures Inv(env, Do(env, w, ServerReceives(path, p, memory, accepted)))
  {
    assert ClientPacketOk(env.call, p, w.clientReached);
    Dispatch(path, w.slot, p, memory);
    hide Inv, OnData, OnRequestAck, OnHeartbeat, OnResponsePhase, Receive, ServerGoes;
    if i: nat :| i < Total(env.call) && p == I.DataPacket(env.call, i) {
      DataPacketFields(env.call, i);
      hide ClientPacketOk, I.DataPacket;
      DataKeeps(env, w, path, i, memory, accepted);
    } else {
      ControlRequestKeeps(env, w, p, accepted);
      if p.h.phase.Response? { ResponsePhaseKeeps(env, w, p, accepted); }
    }
  }

  // ---- The handler, the timer and expiry ----

  lemma HandlerKeeps(env: Env, w: World, data: seq<byte>, result: seq<byte>)
    requires Inv(env, w) && Enabled(env, w, HandlerReturns(data, result))
    ensures Inv(env, Do(env, w, HandlerReturns(data, result)))
  {
    hide ToServerOk, RecOk, RespOk, ToClientOk, ClientOk, SameOk;
    assert |w.jobs - multiset{data}| == |w.jobs| - 1;
    assert |w.results + multiset{result}| == |w.results| + 1;
  }

  lemma LossKeeps(env: Env, w: World, result: seq<byte>)
    requires Inv(env, w) && Enabled(env, w, ResultLost(result))
    ensures Inv(env, Do(env, w, ResultLost(result)))
  {
    hide ToServerOk, RecOk, RespOk, ToClientOk, ClientOk, SameOk;
    assert |w.results - multiset{result}| == |w.results| - 1;
  }

  lemma ExpiryKeeps(env: Env, w: World)
    requires Inv(env, w)
    ensures Inv(env, Do(env, w, RecordExpires))
  {
    hide ToServerOk, ToClientOk, ClientOk, SameOk, Agrees, RespOk, WorkOk;
    assert WorkOk(env, Do(env, w, RecordExpires)) by { SameWork(env, w, Do(env, w, RecordExpires)); }
  }

  lemma ResponseExpiryKeeps(env: Env, w: World)
    requires Inv(env, w)
    ensures Inv(env, Do(env, w, ResponseExpires))
  {
    hide ToServerOk, ToClientOk, ClientOk, SameOk, RecOk, WorkOk;
    assert WorkOk(env, Do(env, w, ResponseExpires)) by { SameWork(env, w, Do(env, w, ResponseExpires)); }
  }

  lemma SameWork(env: Env, w: World, w': World)
    requires w'.jobs == w.jobs && w'.results == w.results && w'.installed == w.installed
    ensures WorkOk(env, w') <==> WorkOk(env, w)
  {}

  lemma InstallKeeps(env: Env, w: World, result: seq<byte>)
    requires CallOk(env.call) && Inv(env, w) && Enabled(env, w, ResultInstalled(result))
    ensures Inv(env, Do(env, w, ResultInstalled(result)))
  {
    var installed := w.installed + [result];
    var r := Outgoing(PieceCount(|result|) % WORD16, |result|, 0, result);
    assert installed[|w.installed|] == result;
    NextPieceOk(env.call, r, w.reached, installed);
    var e := Installed(env.call.id, w.slot, result);
    hide ServerPacketOk;
    ServerPacketsKeep(env.call, w.toClient, e.replies, w.reached, w.reached, w.installed, installed);
    forall d ensures SameOk(w.client, installed, d) {
      assert SameOk(w.client, w.installed, d);
      assert AllAre(installed, d) ==> AllAre(w.installed, d) by {
        assert forall i :: 0 <= i < |w.installed| ==> installed[i] == w.installed[i];
      }
    }
    hide ToServerOk, ToClientOk, ClientOk, SameOk, Agrees;
  }

  // ---- Runs ----

  lemma StepKeeps(env: Env, w: World, step: Step)
    requires CallOk(env.call) && Inv(env, w) && Enabled(env, w, step)
    ensures Inv(env, Do(env, w, step))
  {
    match step {
      case ClientEnters => EnterKeeps(env, w);
      case ClientReceives(p, memory) =>
        if w.client.Await? { AnswerKeeps(env, w, p, memory); }
        else if I.IsPiece(env.call, I.Arrived(p)) { PieceKeeps(env, w, p, memory); }
        else { ControlKeeps(env, w, p, memory); }
      case ClientHears(e) => HearsKeeps(env, w, e);
      case ServerReceives(path, p, memory, accepted) => ServerKeeps(env, w, path, p, memory, accepted);
      case ResultInstalled(result) => InstallKeeps(env, w, result);
      case HandlerReturns(data, result) => HandlerKeeps(env, w, data, result);
      case ResultLost(result) => LossKeeps(env, w, result);
      case RecordExpires => ExpiryKeeps(env, w);
      case ResponseExpires => ResponseExpiryKeeps(env, w);
    }
    hide Inv, Enabled, Do;
  }

  lemma InitInv(env: Env, w: World)
    requires CallOk(env.call) && Init(w)
    ensures Inv(env, w)
  {}

  lemma {:induction false} RunInv(env: Env, run: seq<World>, at: nat)
    requires CallOk(env.call) && IsRun(env, run) && at < |run|
    ensures Inv(env, run[at])
  {
    hide Inv, Enabled, Do;
    if at == 0 {
      InitInv(env, run[0]);
    } else {
      RunInv(env, run, at - 1);
      assert Next(env, run[at - 1], run[at - 1 + 1]);
      var step :| Enabled(env, run[at - 1], step) && run[at] == Do(env, run[at - 1], step);
      StepKeeps(env, run[at - 1], step);
    }
  }
}
