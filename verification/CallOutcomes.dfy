/** When a call ends and with what: the conditions under which each phase gives each outcome, and what
    the arrival of a piece means for a call in phase two. */
module CallOutcomes {

  import opened Wrappers
  import opened Arithmetic
  import opened Bytes
  import opened Protocol
  import opened Pieces
  import opened SubReactor
  import opened Sr2p
  import opened Sr2pProof
  import opened Sr2pTheorems
  import I = Invoker

  // ---- One receive ----

  /** Every piece but this one is there. */
  predicate OthersThere(bits: seq<bool>, i: nat) { forall j :: 0 <= j < |bits| ==> j == i || bits[j] }

  lemma LastOne(bits: seq<bool>, i: nat)
    requires i < |bits|
    ensures AckNumber(bits[i := true]) == |bits| <==> OthersThere(bits, i)
  {
    AckIsLongest(bits[i := true], |bits|);
    assert forall j :: 0 <= j < |bits| ==> (bits[i := true][j] <==> j == i || bits[j]);
  }

  /** The client has piece j of the response. */
  predicate Has(r: Incoming, j: nat) { r.started && j < |r.bits| && r.bits[j] }

  /** What the piece does to the bitmap. */
  lemma TakenBits(r: Incoming, p: Packet)
    requires I.IncomingOk(r) && I.PieceReach(r, p).Within?
    ensures p.h.order < |r.bits| && I.Taken(r, p).bits == r.bits[p.h.order := true] && I.Taken(r, p).count == r.count
    ensures AckNumber(I.Taken(r, p).bits) == r.count <==> OthersThere(r.bits, p.h.order)
  {
    LastOne(r.bits, p.h.order);
    assert r.bits[p.h.order] ==> r.bits[p.h.order := true] == r.bits;
  }

  /** How a receive in phase two ends the call: with success if and only if it brings a piece in range and
      every other piece is there; for want of answers if and only if it is silent and the last try. */
  lemma PhaseTwoEnds(c: Call, s: Client, e: Event, memory: seq<byte>)
    requires s.PhaseTwo? && I.Sound(s) && I.Supplied(c, e, memory)
    ensures var s' := I.OnEvent(c, s, e, memory).0;
      && (s'.PhaseTwo? || s'.Finished?)
      && (s'.Finished? ==> s'.outcome.Success? || s'.outcome in {I.NetworkTimeout, I.PieceRefused, I.Undefined})
      && (s' == I.Finished(I.NetworkTimeout) <==> e.TimedOut? && s.tries <= 1)
      && (s' == I.Finished(I.PieceRefused) <==> I.IsPiece(c, e) && I.PieceReach(I.Sized(s.resp, e.p, memory), e.p).Refused?)
      && (s' == I.Finished(I.Undefined) <==> I.IsPiece(c, e) && I.PieceReach(I.Sized(s.resp, e.p, memory), e.p).Beyond?)
      && (s'.Finished? && s'.outcome.Success? <==>
            && I.IsPiece(c, e) && I.PieceReach(I.Sized(s.resp, e.p, memory), e.p).Within?
            && OthersThere(I.Sized(s.resp, e.p, memory).bits, e.p.h.order))
  {
    if I.IsPiece(c, e) && I.PieceReach(I.Sized(s.resp, e.p, memory), e.p).Within? {
      TakenBits(I.Sized(s.resp, e.p, memory), e.p);
    }
    hide OthersThere, I.Taken, I.PieceReach;
  }

  /** Silence costs one try, a packet of the call restores all three, anything else costs nothing. */
  lemma PhaseTwoTries(c: Call, s: Client, e: Event, memory: seq<byte>)
    requires s.PhaseTwo? && I.Sound(s) && I.Supplied(c, e, memory) && I.OnEvent(c, s, e, memory).0.PhaseTwo?
    ensures I.OnEvent(c, s, e, memory).0.tries ==
      if e.TimedOut? then s.tries - 1 else if e.Arrived? && e.p.h.id == c.id then I.TRY_TIMES else s.tries
  {
    hide I.Taken, I.PieceReach;
  }

  /** How a receive in phase one ends the call: a datagram that cannot be parsed, an exhausted server, or
      the end of a round in which nothing of this call arrived, on the last try. */
  lemma PhaseOneEnds(c: Call, s: Client, e: Event)
    requires CallOk(c) && s.Await?
    ensures var s' := I.PhaseOne(c, s, e).0;
      && (s' == I.Finished(I.CannotParse) <==> e.Unparsable?)
      && (s' == I.Finished(I.ServerExhausted) <==>
            e.Arrived? && e.p.h.id == c.id && e.p.h.phase.Request? && e.p.h.kind.TheServerResourcesExhausted?)
      && (s' == I.Finished(I.NetworkTimeout) <==>
            && s.got == 0 && s.tries <= 1
            && (e.TimedOut? || (e.Arrived? && e.p.h.id != c.id && (s.end <= s.j + 1 || Total(c) <= s.j + 1))))
      && (s'.Finished? ==> s'.outcome in {I.CannotParse, I.ServerExhausted, I.NetworkTimeout})
  {
    Exact(c);
  }

  /** What the client does with a piece in range. */
  lemma PieceGoes(c: Call, s: Client, p: Packet, memory: seq<byte>)
    requires s.PhaseTwo? && I.Sound(s) && I.IsPiece(c, I.Arrived(p)) && |memory| == p.h.total
    requires I.PieceReach(I.Sized(s.resp, p, memory), p).Within?
    ensures var sized := I.Sized(s.resp, p, memory);
      && I.IncomingOk(sized) && p.h.order < |sized.bits| && I.Taken(sized, p).bits == sized.bits[p.h.order := true]
      && I.Taken(sized, p).started
      && I.OnEvent(c, s, I.Arrived(p), memory).0 ==
        (if OthersThere(sized.bits, p.h.order) then I.Finished(I.Success(I.Taken(sized, p).data))
         else I.PhaseTwo(I.TRY_TIMES, I.Taken(sized, p)))
      && I.OnEvent(c, s, I.Arrived(p), memory).1 == [I.ResponseAck(c.id, AckNumber(I.Taken(sized, p).bits))]
  {
    TakenBits(I.Sized(s.resp, p, memory), p);
    hide OthersThere, I.PieceReach;
  }

  // ---- Pieces of the installed response ----

  lemma PieceInRun(env: Env, run: seq<World>, at: nat, p: Packet, memory: seq<byte>, d: seq<byte>)
    requires CallOk(env.call) && IsRun(env, run) && at < |run|
    requires Enabled(env, run[at], ClientReceives(p, memory)) && run[at].client.PhaseTwo? && I.IsPiece(env.call, I.Arrived(p))
    requires AllAre(run[at].installed, d) && PieceCount(|d|) < WORD16
    ensures var sized := I.Sized(run[at].client.resp, p, memory);
      && I.IncomingOk(sized) && I.PieceReach(sized, p).Within? && sized.count == PieceCount(|d|)
      && Holding(I.OnEvent(env.call, run[at].client, I.Arrived(p), memory).0, d)
  {
    var w := run[at];
    RunInv(env, run, at);
    ClientWithinBounds(env, run, at, p, memory, d);
    Extended(env, run, at, p, memory);
    var after := run[..at + 1] + [Do(env, w, ClientReceives(p, memory))];
    RunInv(env, after, at + 1);
    assert SameOk(w.client, w.installed, d) && SameOk(after[at + 1].client, w.installed, d);
    SizedCount(env, w, p, memory, d);
    hide Inv, IsRun;
  }

  lemma SizedCount(env: Env, w: World, p: Packet, memory: seq<byte>, d: seq<byte>)
    requires Inv(env, w) && p in w.toClient && |memory| == p.h.total && w.client.PhaseTwo?
    requires I.IsPiece(env.call, I.Arrived(p)) && AllAre(w.installed, d) && PieceCount(|d|) < WORD16
    ensures I.IncomingOk(w.client.resp) && I.Sized(w.client.resp, p, memory).count == PieceCount(|d|)
  {
    assert ServerPacketOk(env.call, p, w.reached, w.installed) && SameOk(w.client, w.installed, d);
    assert ClientOk(env.call, w.client, w.reached, w.clientReached);
    hide Inv;
    var data, k: nat :| data in w.installed && ResponsePieceOk(env.call, p, data, k);
    PieceContents(env.call, p, d, k);
  }

  /** Any enabled step continues the run up to the state it is enabled in. */
  lemma Extended(env: Env, run: seq<World>, at: nat, p: Packet, memory: seq<byte>)
    requires IsRun(env, run) && at < |run| && Enabled(env, run[at], ClientReceives(p, memory))
    ensures IsRun(env, run[..at + 1] + [Do(env, run[at], ClientReceives(p, memory))])
  {
    var longer := run[..at + 1] + [Do(env, run[at], ClientReceives(p, memory))];
    forall i | 0 <= i < |longer| - 1 ensures Next(env, longer[i], longer[i + 1]) {
      if i < at { assert Next(env, run[i], run[i + 1]); }
    }
  }

  /** In every run in which the installed responses carry the same bytes d: a piece that arrives in phase
      two ends the call if and only if every other piece is there, and then the call returns d. */
  lemma LastPieceSucceeds(env: Env, run: seq<World>, at: nat, p: Packet, memory: seq<byte>, d: seq<byte>)
    requires CallOk(env.call) && IsRun(env, run) && at < |run|
    requires Enabled(env, run[at], ClientReceives(p, memory)) && run[at].client.PhaseTwo? && I.IsPiece(env.call, I.Arrived(p))
    requires AllAre(run[at].installed, d) && PieceCount(|d|) < WORD16
    ensures var r, s' := run[at].client.resp, Do(env, run[at], ClientReceives(p, memory)).client;
      && p.h.order < PieceCount(|d|) && (r.started ==> |r.bits| == PieceCount(|d|))
      && (s' == I.Finished(I.Success(d)) <==>
            forall j: nat :: j < PieceCount(|d|) ==> j == p.h.order || Has(r, j))
      && (s' != I.Finished(I.Success(d)) ==>
            && s'.PhaseTwo? && s'.tries == I.TRY_TIMES && s'.resp.started && |s'.resp.bits| == PieceCount(|d|)
            && forall j: nat :: j < PieceCount(|d|) ==> (s'.resp.bits[j] <==> j == p.h.order || Has(r, j)))
  {
    var s, e := run[at].client, I.Arrived(p);
    PieceInRun(env, run, at, p, memory, d);
    var sized := I.Sized(s.resp, p, memory);
    PieceGoes(env.call, s, p, memory);
    hide IsRun, I.Taken, I.PieceReach, AllAre, I.OnEvent;
    assert forall j: nat :: j < sized.count ==> (sized.bits[j] <==> Has(s.resp, j));
    EachOther(s.resp, sized.bits, p.h.order);
    hide OthersThere;
  }

  lemma EachOther(r: Incoming, sized: seq<bool>, i: nat)
    requires forall j: nat :: j < |sized| ==> (sized[j] <==> Has(r, j))
    ensures OthersThere(sized, i) <==> forall j: nat :: j < |sized| ==> j == i || Has(r, j)
  {
    if OthersThere(sized, i) {
      forall j: nat | j < |sized| ensures j == i || Has(r, j) { assert j == i || sized[j]; }
    }
  }
}
