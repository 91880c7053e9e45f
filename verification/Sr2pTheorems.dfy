/** What SR2P promises in every run. */
module Sr2pTheorems {

  import opened Wrappers
  import opened Arithmetic
  import opened Bytes
  import opened Protocol
  import opened Pieces
  import opened SubReactor
  import opened Sr2p
  import opened Sr2pProof
  import I = Invoker
  import M = Middleware

  /** Delivery: each set bit's region of the server's buffer holds the sender's bytes, and everything
      handed to the handler is the whole message. */
  lemma Delivery(env: Env, run: seq<World>, at: nat, i: nat)
    requires CallOk(env.call) && IsRun(env, run) && at < |run|
    ensures forall d :: d in run[at].jobs ==> d == env.call.m
    ensures run[at].slot.rec.Some? ==>
      var r := run[at].slot.rec.value;
      && |r.bits| == PieceCount(|env.call.m|) && |r.data| == |env.call.m|
      && (i < |r.bits| && r.bits[i] ==> PieceOf(r.data, i) == PieceOf(env.call.m, i))
  {
    RunInv(env, run, at);
    hide ToServerOk, CountsOk, RespOk, ToClientOk, ClientOk, SameOk;
    if run[at].slot.rec.Some? && i < |run[at].slot.rec.value.bits| && run[at].slot.rec.value.bits[i] {
      assert Holds(run[at].slot.rec.value.data, env.call.m, i);
    }
  }

  /** No acknowledgement runs ahead of what was received, in either direction: every number the server
      ever sent and the client stores is at most a prefix some record had, and every number the client
      ever sent and the server stores is at most a prefix the client had. */
  lemma AckSoundness(env: Env, run: seq<World>, at: nat, p: Packet)
    requires CallOk(env.call) && IsRun(env, run) && at < |run|
    ensures p in run[at].toClient && p.h.phase.Request? && p.h.kind.ReceiverACK? ==> p.h.ack <= run[at].reached
    ensures run[at].client.Top? || run[at].client.Await? ==> run[at].client.ack <= run[at].reached
    ensures p in run[at].toServer && p.h.phase.Response? && p.h.kind.ReceiverACK? ==> p.h.ack <= run[at].clientReached
    ensures run[at].slot.resp.Some? ==> run[at].slot.resp.value.ack <= run[at].clientReached
    ensures run[at].reached <= PieceCount(|env.call.m|)
  {
    RunInv(env, run, at);
    hide RecOk, WorkOk, SameOk;
    var w := run[at];
    if p in w.toClient { assert ServerPacketOk(env.call, p, w.reached, w.installed); }
    if p in w.toServer { assert ClientPacketOk(env.call, p, w.clientReached); }
  }

  /** The client leaves phase one only if a record once held every piece. */
  lemma PhaseTwoMeansComplete(env: Env, run: seq<World>, at: nat)
    requires CallOk(env.call) && IsRun(env, run) && at < |run|
    requires run[at].client.PhaseTwo? || (run[at].client.Finished? && run[at].client.outcome.Success?)
    ensures run[at].reached == PieceCount(|env.call.m|)
  {
    RunInv(env, run, at);
    hide ToServerOk, RecOk, WorkOk, CountsOk, RespOk, ToClientOk, SameOk;
  }

  /** The history variables mean what they say: a prefix above zero was reached by a record that was
      created. */
  lemma {:induction false} ReachedByRecord(env: Env, run: seq<World>, at: nat)
    requires CallOk(env.call) && IsRun(env, run) && at < |run|
    ensures run[at].slot.rec.Some? ==> 0 < run[at].created
    ensures 0 < run[at].reached ==>
      0 < run[at].created && exists k :: 0 <= k <= at && RecordPrefix(run[k].slot) == run[at].reached
  {
    hide Enabled, Do;
    if at > 0 {
      ReachedByRecord(env, run, at - 1);
      assert Next(env, run[at - 1], run[at - 1 + 1]);
      var step :| Enabled(env, run[at - 1], step) && run[at] == Do(env, run[at - 1], step);
      ReachedStep(env, run[at - 1], step);
      if run[at].reached != run[at - 1].reached { assert RecordPrefix(run[at].slot) == run[at].reached; }
    }
  }

  lemma ReachedServer(w: World, path: Path, p: Packet, memory: seq<byte>)
    requires |memory| == p.h.total && ReceivesSafely(path, w.slot, p)
    ensures w.slot.rec.Some? ==> Receive(path, w.slot, p, memory).slot.rec.Some?
  {
    hide Received, NextPiece, Acknowledged, SendOk, ReceiveOk;
  }

  lemma ReachedStep(env: Env, w: World, step: Step)
    requires Enabled(env, w, step)
    ensures var w' := Do(env, w, step);
      && w.created <= w'.created && (w'.reached != w.reached ==> w'.reached == RecordPrefix(w'.slot))
      && (w'.slot.rec.Some? && w.slot.rec.None? ==> w'.created == w.created + 1)
  {
    hide I.EnterRound, I.OnEvent, NextPiece, Receive, RecordPrefix;
    if step.ServerReceives? { ReachedServer(w, step.path, step.p, step.memory); }
  }

  /** In step k of the run the client takes in a piece of a response, has this prefix of it in its own
      bitmap then, and acknowledges it. */
  ghost predicate TakesPrefix(env: Env, run: seq<World>, k: nat, n: nat)
    requires k + 1 < |run|
  {
    exists p, memory ::
      && Enabled(env, run[k], ClientReceives(p, memory))
      && run[k + 1] == Do(env, run[k], ClientReceives(p, memory))
      && PrefixAfter(env.call, run[k].client, I.Arrived(p), memory) == n
      && I.ResponseAck(env.call.id, n) in run[k + 1].toServer
  }

  /** The same for the client: a prefix above zero was one of its own bitmap. */
  lemma {:induction false} ClientReachedByState(env: Env, run: seq<World>, at: nat)
    requires IsRun(env, run) && at < |run|
    ensures 0 < run[at].clientReached ==> exists k: nat :: k < at && TakesPrefix(env, run, k, run[at].clientReached)
  {
    hide Enabled, Do;
    if at > 0 {
      ClientReachedByState(env, run, at - 1);
      assert Next(env, run[at - 1], run[at - 1 + 1]);
      var step :| Enabled(env, run[at - 1], step) && run[at] == Do(env, run[at - 1], step);
      PrefixStep(env, run[at - 1], step);
      if run[at].clientReached != run[at - 1].clientReached {
        assert TakesPrefix(env, run, at - 1, run[at].clientReached);
      }
    }
  }

  lemma PrefixStep(env: Env, w: World, step: Step)
    requires Enabled(env, w, step)
    ensures var w' := Do(env, w, step);
      w'.clientReached != w.clientReached ==>
        && step.ClientReceives? && I.Sound(w.client) && |step.memory| == step.p.h.total
        && PrefixAfter(env.call, w.client, I.Arrived(step.p), step.memory) == w'.clientReached
        && I.ResponseAck(env.call.id, w'.clientReached) in w'.toServer
  {
    hide I.EnterRound, NextPiece, Receive, RecordPrefix, I.Taken, I.Sized;
  }

  /** With an empty message there is nothing to send: the client goes to phase two at once, and no
      record need ever exist. */
  lemma EmptyCallSkipsPhaseOne(env: Env, w: World)
    requires Init(w) && env.call.m == []
    ensures IsRun(env, [w, Do(env, w, ClientEnters)])
    ensures Do(env, w, ClientEnters).client.PhaseTwo? && Do(env, w, ClientEnters).created == 0
  {
    var run := [w, Do(env, w, ClientEnters)];
    assert Next(env, run[0], run[1]) by { assert Enabled(env, w, ClientEnters); }
  }

  /** Some run enters phase two without any record having been created if and only if the message is
      empty. */
  lemma PhaseTwoWithoutRecord(env: Env)
    requires CallOk(env.call)
    ensures (exists run: seq<World>, at: nat :: IsRun(env, run) && at < |run| && run[at].client.PhaseTwo? && run[at].created == 0)
      <==> env.call.m == []
  {
    if env.call.m == [] {
      var w := World(I.START, Slot(None, false, None), {}, {}, multiset{}, multiset{}, 0, 0, 0, 0, []);
      EmptyCallSkipsPhaseOne(env, w);
      var run := [w, Do(env, w, ClientEnters)];
      assert run[1].client.PhaseTwo? && run[1].created == 0;
    } else {
      forall run: seq<World>, at: nat | IsRun(env, run) && at < |run| && run[at].client.PhaseTwo?
        ensures run[at].created != 0
      {
        PhaseTwoMeansComplete(env, run, at);
        ReachedByRecord(env, run, at);
      }
    }
  }

  /** The handler is given the message at most once for each record that was created. */
  lemma ExecutionCount(env: Env, run: seq<World>, at: nat)
    requires CallOk(env.call) && IsRun(env, run) && at < |run|
    ensures run[at].handed <= run[at].created
    ensures |run[at].jobs| + |run[at].results| + |run[at].installed| <= run[at].handed
  {
    RunInv(env, run, at);
    hide ToServerOk, RecOk, WorkOk, RespOk, ToClientOk, ClientOk, SameOk;
  }

  // ---- Bounds ----

  /** Every packet this client sends is within the server's bitmap and buffers, on both paths. */
  lemma ServerWithinBounds(env: Env, run: seq<World>, at: nat, path: Path, p: Packet)
    requires CallOk(env.call) && IsRun(env, run) && at < |run| && p in run[at].toServer
    ensures ReceivesSafely(path, run[at].slot, p)
  {
    RunInv(env, run, at);
    var w := run[at];
    assert ClientPacketOk(env.call, p, w.clientReached);
    RespSafe(w.slot, w.installed, w.clientReached, p);
    if i: nat :| i < Total(env.call) && p == I.DataPacket(env.call, i) {
      DataPacketFields(env.call, i);
      hide I.DataPacket;
    }
  }

  /** Unless a response is replaced by a different one, every packet the server sends is within the
      client's bitmap and buffer. */
  lemma ClientWithinBounds(env: Env, run: seq<World>, at: nat, p: Packet, memory: seq<byte>, d: seq<byte>)
    requires CallOk(env.call) && IsRun(env, run) && at < |run| && p in run[at].toClient && |memory| == p.h.total
    requires AllAre(run[at].installed, d) && PieceCount(|d|) < WORD16
    ensures I.Sound(run[at].client)
    ensures run[at].client.PhaseTwo? && I.IsPiece(env.call, I.Arrived(p)) ==>
      I.PieceReach(I.Sized(run[at].client.resp, p, memory), p).Within?
  {
    RunInv(env, run, at);
    var w := run[at];
    if w.client.PhaseTwo? && I.IsPiece(env.call, I.Arrived(p)) {
      assert ServerPacketOk(env.call, p, w.reached, w.installed) && SameOk(w.client, w.installed, d);
      hide Inv;
      var data, k: nat :| data in w.installed && ResponsePieceOk(env.call, p, data, k);
      PieceContents(env.call, p, d, k);
      PiecesTile(|d|, k);
    }
  }

  // ---- Whole calls ----

  /** If every response that was installed carries the same bytes, a call that succeeds returns them. */
  lemma SuccessReturnsInstalled(env: Env, run: seq<World>, at: nat, d: seq<byte>)
    requires CallOk(env.call) && IsRun(env, run) && at < |run|
    requires run[at].client.Finished? && run[at].client.outcome.Success?
    requires AllAre(run[at].installed, d) && PieceCount(|d|) < WORD16
    ensures run[at].client.outcome.data == d && run[at].installed != []
  {
    RunInv(env, run, at);
    var w := run[at];
    hide ToServerOk, RecOk, CountsOk, WorkOk, RespOk, ToClientOk, ClientOk;
    assert SameOk(w.client, w.installed, d);
    assert SameOk(w.client, w.installed, []) && SameOk(w.client, w.installed, [0]);
  }

  /** If the record was not expired and created again, a call that succeeds returns a response the
      handler computed from the message that was sent. */
  lemma SuccessIsHandlersResult(env: Env, run: seq<World>, at: nat)
    requires CallOk(env.call) && IsRun(env, run) && at < |run|
    requires run[at].client.Finished? && run[at].client.outcome.Success? && run[at].created <= 1
    requires forall r :: env.serves(env.call.m, r) ==> PieceCount(|r|) < WORD16
    ensures env.serves(env.call.m, run[at].client.outcome.data)
  {
    RunInv(env, run, at);
    ExecutionCount(env, run, at);
    var w := run[at];
    assert WorkOk(env, w);
    if w.installed == [] {
      SuccessReturnsInstalled(env, run, at, []);
    } else {
      assert env.serves(env.call.m, w.installed[0]);
      SuccessReturnsInstalled(env, run, at, w.installed[0]);
    }
  }

  /** The server's side of a call, with `handle` for the router: what it computes from the message. */
  function Served(services: seq<M.Service>, handle: seq<byte> -> seq<byte>, m: seq<byte>): seq<byte> {
    M.OutThrough(services, handle(M.InThrough(M.ClientSide(services), m)))
  }

  /** The whole call: through the middleware, the pieces, the handler and back, a request that succeeds
      returns the handler's result on the bytes that were passed in, even if records or responses
      expired and were made again. */
  lemma WholeCall(env: Env, run: seq<World>, at: nat, services: seq<M.Service>, handle: seq<byte> -> seq<byte>, request: seq<byte>)
    requires CallOk(env.call) && IsRun(env, run) && at < |run| && M.ChannelOk(services)
    requires env.call.m == M.OutThrough(M.ClientSide(services), request)
    requires forall r :: env.serves(env.call.m, r) <==> r == Served(services, handle, env.call.m)
    requires PieceCount(|Served(services, handle, env.call.m)|) < WORD16
    requires run[at].client.Finished? && run[at].client.outcome.Success?
    ensures M.InThrough(M.ClientSide(services), run[at].client.outcome.data) == handle(request)
  {
    RunInv(env, run, at);
    assert WorkOk(env, run[at]);
    var d := Served(services, handle, env.call.m);
    SuccessReturnsInstalled(env, run, at, d);
    M.ServerUndoesClient(services, request);
    M.ClientUndoesServer(services, handle(request));
  }
}
