/** Calls can succeed: a run in which nothing is lost takes any call on a message that is not empty to the
    end and returns the handler's result, unless that result is empty. */
module CallSuccess {

  import opened Wrappers
  import opened Arithmetic
  import opened Bytes
  import opened Protocol
  import opened Pieces
  import opened SubReactor
  import opened Sr2p
  import opened Sr2pProof
  import opened Sr2pTheorems
  import opened Sr2pHandOver
  import opened CallOutcomes
  import opened WindowProgress
  import opened WindowStalls
  import I = Invoker

  // ---- Phase one ----

  /** Between rounds, with exactly the acknowledged pieces in the record. */
  ghost predicate BetweenRounds(c: Call, w: World) {
    && w.client.Top? && w.client.got != 0 && w.client.ack <= Total(c)
    && RecordSound(c, w.slot) && HoldsExactly(c, w.slot, w.client.ack) && Undisturbed(c, w)
  }

  lemma NextRound(env: Env, run: seq<World>) returns (longer: seq<World>)
    requires CallOk(env.call) && IsRun(env, run) && BetweenRounds(env.call, Last(run)) && Last(run).client.ack < Total(env.call)
    ensures IsRun(env, longer) && BetweenRounds(env.call, Last(longer)) && Last(run).client.ack < Last(longer).client.ack
  {
    var c, w := env.call, Last(run);
    hide IsRun, RecordSound, HoldsExactly, Undisturbed, CleanRound;
    var arrivals, delivered, s', slot' := RoundExists(c, w.client, w.slot, InLoop);
    ExactRound(c, w.client, w.slot, arrivals, delivered, s', slot');
    longer := CleanRoundIsRun(env, run, arrivals, delivered, s', slot');
  }

  lemma {:induction false} AllRounds(env: Env, run: seq<World>) returns (longer: seq<World>)
    requires CallOk(env.call) && IsRun(env, run) && BetweenRounds(env.call, Last(run))
    ensures IsRun(env, longer) && BetweenRounds(env.call, Last(longer)) && Last(longer).client.ack == Total(env.call)
    decreases Total(env.call) - Last(run).client.ack
  {
    assert run != [] && Last(run).client.Top? && Last(run).client.ack <= Total(env.call);
    hide IsRun;
    longer := run;
    if Last(run).client.ack < Total(env.call) {
      longer := NextRound(env, run);
      hide RecordSound, HoldsExactly, Undisturbed;
      longer := AllRounds(env, longer);
    }
  }

  lemma RoundsEnd(env: Env, w: World, handed: nat)
    requires BetweenRounds(env.call, w) && w.client.ack == Total(env.call) && 0 < Total(env.call)
    requires HandedInv(env.call, w.slot, w.reached, handed)
    ensures w.slot.known && env.call.m in w.jobs && w.slot.resp.None? && w.installed == []
  {
    hide RecordSound;
    ExactAck(env.call, w.slot, Total(env.call));
    AckIsPrefix(AllFalse(Total(env.call)));
  }

  /** A run that loses nothing takes the client to phase two with the message at the handler. */
  lemma PhaseOneDone(env: Env) returns (run: seq<World>)
    requires CallOk(env.call) && env.call.m != []
    ensures IsRun(env, run) && Last(run).client == I.PhaseTwo(I.TRY_TIMES, I.NOTHING)
    ensures var w := Last(run); w.slot.known && env.call.m in w.jobs && w.slot.resp.None? && w.installed == []
  {
    var c := env.call;
    var w := World(I.START, Slot(None, false, None), {}, {}, multiset{}, multiset{}, 0, 0, 0, 0, []);
    Nothing(c);
    assert IsRun(env, [w]);
    assert BetweenRounds(c, w);
    run := AllRounds(env, [w]);
    RunHands(env, run, |run| - 1);
    hide IsRun, Init;
    w := Last(run);
    RoundsEnd(env, w, w.handed);
    Exact(c);
    hide BetweenRounds;
    assert Enabled(env, w, ClientEnters);
    Extend(env, run, ClientEnters);
    run := run + [Do(env, w, ClientEnters)];
  }

  lemma RecordAsked(env: Env, w: World, path: Path)
    requires CallOk(env.call) && I.AskForAck(env.call) in w.toServer && w.slot.rec.Some?
    ensures var step := ServerReceives(path, I.AskForAck(env.call), env.call.m, true);
      && Enabled(env, w, step)
      && Do(env, w, step) == w.(toClient := w.toClient + {Ack(env.call.id, RecordPrefix(w.slot))},
                                reached := Max(w.reached, RecordPrefix(w.slot)))
  {
    var p, q := I.AskForAck(env.call), Ack(env.call.id, RecordPrefix(w.slot));
    Dispatch(path, w.slot, p, env.call.m);
    hide Receive, RecordPrefix;
    assert OnRequestAck(w.slot, p) == Effect(w.slot, [q], None);
    assert SetOf([q]) == {q} by { assert [q][0] == q; }
  }

  /** A silent round: the client asks, and begins another round without sending its window again. */
  lemma AsksAfterSilence(env: Env, run: seq<World>) returns (longer: seq<World>)
    requires CallOk(env.call) && IsRun(env, run)
    requires Last(run).client.Await? && Last(run).client.got == 0 && 1 < Last(run).client.tries
    requires Last(run).client.ack < Total(env.call)
    ensures IsRun(env, longer) && run <= longer && |longer| == |run| + 2 && Last(longer).slot == Last(run).slot
    ensures Last(longer).toServer == Last(run).toServer + {I.AskForAck(env.call)}
    ensures var s, ack := Last(longer).client, Last(run).client.ack;
      s == I.Await(ack, ack + SendCount(Total(env.call)), ack, 0, Last(run).client.tries - 1)
  {
    var c, w := env.call, Last(run);
    assert run != [];
    hide IsRun, RecordPrefix, Receive, I.PhaseTwoStep, NextPiece, PieceCount;
    var silence := ClientHears(I.TimedOut);
    assert Enabled(env, w, silence);
    Extend(env, run, silence);
    var w1 := Do(env, w, silence);
    assert w1.client == I.Top(w.client.ack, 0, w.client.tries - 1) && w1.slot == w.slot;
    assert SetOf([I.AskForAck(c)]) == {I.AskForAck(c)} by { assert [I.AskForAck(c)][0] == I.AskForAck(c); }
    EntersAgain(c, w1.client);
    Extend(env, run + [w1], ClientEnters);
    longer := run + [w1] + [Do(env, w1, ClientEnters)];
    assert SetOf([]) == {};
  }

  /** The record answers, and the answer brings the client to its prefix. */
  lemma AnswerComes(env: Env, run: seq<World>, path: Path) returns (longer: seq<World>)
    requires CallOk(env.call) && IsRun(env, run) && Last(run).client.Await? && I.AskForAck(env.call) in Last(run).toServer
    requires Last(run).slot.rec.Some? && Last(run).client.ack < RecordPrefix(Last(run).slot) <= Total(env.call)
    ensures IsRun(env, longer) && run <= longer && |longer| == |run| + 2 && Last(longer).slot == Last(run).slot
    ensures Last(longer).toServer == Last(run).toServer
    ensures var s := Last(longer).client;
      (s.Top? || s.Await?) && s.ack == RecordPrefix(Last(run).slot) && s.got != 0 && s.tries == I.TRY_TIMES
  {
    var c, w, n := env.call, Last(run), RecordPrefix(Last(run).slot);
    assert run != [];
    hide IsRun, RecordPrefix, Receive, I.PhaseTwoStep, NextPiece, PieceCount;
    Exact(c);
    RecordAsked(env, w, path);
    var asked := ServerReceives(path, I.AskForAck(c), c.m, true);
    Extend(env, run, asked);
    var w1 := Do(env, w, asked);
    var answer := ClientReceives(Ack(c.id, n), []);
    assert Enabled(env, w1, answer);
    Extend(env, run + [w1], answer);
    longer := run + [w1] + [Do(env, w1, answer)];
    assert SetOf([]) == {};
  }

  /** Whatever was lost of the acknowledgements of a round: after its silence the client asks, without sending
      anything else, and the answer brings it to the prefix the record has, with all its tries. */
  lemma SilenceRecovers(env: Env, run: seq<World>, path: Path) returns (longer: seq<World>)
    requires CallOk(env.call) && IsRun(env, run)
    requires Last(run).client.Await? && Last(run).client.got == 0 && 1 < Last(run).client.tries
    requires Last(run).slot.rec.Some? && Last(run).client.ack < RecordPrefix(Last(run).slot) <= Total(env.call)
    ensures IsRun(env, longer) && run <= longer && |longer| == |run| + 4 && Last(longer).slot == Last(run).slot
    ensures Last(longer).toServer == Last(run).toServer + {I.AskForAck(env.call)}
    ensures var s := Last(longer).client;
      (s.Top? || s.Await?) && s.ack == RecordPrefix(Last(run).slot) && s.got != 0 && s.tries == I.TRY_TIMES
  {
    assert run != [];
    hide IsRun, RecordPrefix, PieceCount, CallOk;
    longer := AsksAfterSilence(env, run);
    longer := AnswerComes(env, longer, path);
  }

  lemma EntersAgain(c: Call, s: Client)
    requires CallOk(c) && s.Top? && s.ack < Total(c)
    ensures I.EnterRound(c, s).0 == I.Await(s.ack, s.ack + SendCount(Total(c)), s.ack, 0, s.tries)
  {
    Exact(c);
  }

  /** A packet of the response phase ends phase one, whatever has been acknowledged: after at most one more
      silence the client is in phase two, and has sent no more data. */
  lemma ResponseEndsPhaseOne(env: Env, run: seq<World>, p: Packet, memory: seq<byte>) returns (longer: seq<World>)
    requires CallOk(env.call) && IsRun(env, run) && Last(run).client.Await?
    requires Enabled(env, Last(run), ClientReceives(p, memory)) && p.h.id == env.call.id && p.h.phase.Response?
    ensures IsRun(env, longer) && run <= longer && |longer| <= |run| + 3
    ensures Last(longer).client == I.PhaseTwo(I.TRY_TIMES, I.NOTHING)
    ensures Last(longer).toServer <= Last(run).toServer + {I.AskForAck(env.call)}
  {
    var c, w := env.call, Last(run);
    assert run != [];
    hide IsRun, RecordPrefix, Receive, I.PhaseTwoStep, NextPiece, PieceCount;
    var step := ClientReceives(p, memory);
    Extend(env, run, step);
    var w1 := Do(env, w, step);
    longer := run + [w1];
    assert SetOf([]) == {} && SetOf([I.AskForAck(c)]) == {I.AskForAck(c)} by { assert [I.AskForAck(c)][0] == I.AskForAck(c); }
    if w1.client.Await? {
      var silence := ClientHears(I.TimedOut);
      assert Enabled(env, w1, silence);
      Extend(env, longer, silence);
      w1 := Do(env, w1, silence);
      longer := longer + [w1];
    }
    assert Enabled(env, w1, ClientEnters);
    Extend(env, longer, ClientEnters);
    longer := longer + [Do(env, w1, ClientEnters)];
  }

  // ---- Phase two ----

  lemma HeartbeatAnswered(env: Env, w: World, path: Path)
    requires I.ResponseHeartbeat(env.call.id, TimedOutRequestHeartbeat) in w.toServer && w.slot.resp.None?
    ensures var step := ServerReceives(path, I.ResponseHeartbeat(env.call.id, TimedOutRequestHeartbeat), [], true);
      && Enabled(env, w, step)
      && var w' := Do(env, w, step);
      && w'.client == w.client && w'.slot == w.slot && w'.jobs == w.jobs
      && (Heartbeat(env.call.id) in w'.toClient || Reset(env.call.id) in w'.toClient)
  {
    var p := I.ResponseHeartbeat(env.call.id, TimedOutRequestHeartbeat);
    Dispatch(path, w.slot, p, []);
    var e := Receive(path, w.slot, p, []);
    hide RecordPrefix;
    assert e.replies == [Heartbeat(env.call.id)] || e.replies == [Reset(env.call.id)];
    assert e.replies[0] in e.replies;
  }

  lemma AliveAgain(env: Env, w: World, q: Packet)
    requires w.client.PhaseTwo? && I.Sound(w.client) && q in w.toClient && q.h.id == env.call.id && q.h.phase.Request? && q.h.total == 0
    ensures Enabled(env, w, ClientReceives(q, []))
    ensures var w' := Do(env, w, ClientReceives(q, []));
      w'.client == I.PhaseTwo(I.TRY_TIMES, w.client.resp) && w'.slot == w.slot && w'.jobs == w.jobs
  {}

  /** As long as the handler is at work, silence does not end a call: the client asks, the server answers on
      either path, and the client has all its tries again. */
  lemma StaysAlive(env: Env, run: seq<World>, path: Path) returns (longer: seq<World>)
    requires CallOk(env.call) && IsRun(env, run)
    requires Last(run).client.PhaseTwo? && 1 < Last(run).client.tries && Last(run).slot.resp.None?
    ensures IsRun(env, longer) && run <= longer && |longer| == |run| + 3
    ensures Last(longer).client == I.PhaseTwo(I.TRY_TIMES, Last(run).client.resp)
    ensures Last(longer).slot == Last(run).slot && Last(longer).jobs == Last(run).jobs
  {
    var w := Last(run);
    RunInv(env, run, |run| - 1);
    assert I.Sound(w.client) by { assert ClientOk(env.call, w.client, w.reached, w.clientReached); }
    assert run != [];
    hide IsRun, Inv, RecordPrefix, Receive, I.PhaseOne, NextPiece, I.OnPiece, PrefixAfter;
    var beat := I.ResponseHeartbeat(env.call.id, TimedOutRequestHeartbeat);
    var silence := ClientHears(I.TimedOut);
    assert Enabled(env, w, silence);
    Extend(env, run, silence);
    var w1 := Do(env, w, silence);
    assert beat in w1.toServer by { assert [beat][0] == beat; }
    HeartbeatAnswered(env, w1, path);
    var answer := ServerReceives(path, beat, [], true);
    Extend(env, run + [w1], answer);
    var w2 := Do(env, w1, answer);
    var q := if Heartbeat(env.call.id) in w2.toClient then Heartbeat(env.call.id) else Reset(env.call.id);
    hide Enabled, Do;
    AliveAgain(env, w2, q);
    Extend(env, run + [w1] + [w2], ClientReceives(q, []));
    longer := run + [w1] + [w2] + [Do(env, w2, ClientReceives(q, []))];
  }

  /** So a call outlasts any number of silences. */
  lemma {:induction false} OutlastsSilence(env: Env, run: seq<World>, path: Path, n: nat) returns (longer: seq<World>)
    requires CallOk(env.call) && IsRun(env, run)
    requires Last(run).client.PhaseTwo? && 1 < Last(run).client.tries && Last(run).slot.resp.None?
    ensures IsRun(env, longer) && run <= longer && |longer| == |run| + 3 * n
    ensures Last(longer).client.PhaseTwo? && Last(longer).client.resp == Last(run).client.resp && 1 < Last(longer).client.tries
    ensures Last(longer).slot == Last(run).slot && Last(longer).jobs == Last(run).jobs
    decreases n
  {
    assert run != [];
    hide IsRun, CallOk;
    longer := run;
    if 0 < n {
      longer := StaysAlive(env, run, path);
      longer := OutlastsSilence(env, longer, path, n - 1);
    }
  }

  /** The client has exactly the first k pieces. */
  ghost predicate HasFirst(r: Incoming, n: nat, k: nat) { forall j: nat :: j < n ==> (Has(r, j) <==> j < k) }

  function Responding(d: seq<byte>, k: nat): Outgoing { Outgoing(PieceCount(|d|), |d|, k, d) }

  /** The client has the first k pieces of the response and the next one is on its way. */
  ghost predicate NextOnItsWay(c: Call, w: World, d: seq<byte>, k: nat) {
    && w.client.PhaseTwo? && k < PieceCount(|d|) && HasFirst(w.client.resp, PieceCount(|d|), k)
    && w.slot.known && w.slot.resp == Some(Responding(d, k)) && AllAre(w.installed, d)
    && SendOk(Responding(d, k)) && ResponsePiece(c.id, Responding(d, k)) in w.toClient
  }

  /** The packet for piece k. */
  lemma PiecePacket(c: Call, d: seq<byte>, k: nat)
    requires k < PieceCount(|d|) < WORD16
    ensures SendOk(Responding(d, k))
    ensures var p := ResponsePiece(c.id, Responding(d, k));
      && I.IsPiece(c, I.Arrived(p)) && p.h.order == k && p.h.total == |d| && NextPiece(c.id, Responding(d, k)) == [p]
      && p.body == PieceOf(d, k)
  {
    SendAlwaysOk(Responding(d, k));
    PiecesTile(|d|, k);
  }

  lemma FirstPrefix(bits: seq<bool>, k: nat)
    requires k <= |bits| && forall j: nat :: j < |bits| ==> (bits[j] <==> j < k)
    ensures AckNumber(bits) == k
  {
    AckIsLongest(bits, k);
    if k < |bits| {
      assert !bits[k];
      AckIsLongest(bits, k + 1);
    }
  }

  /** The client takes in the next piece: it is done with the last one, and acknowledges the others. */
  lemma TakesNext(env: Env, run: seq<World>, d: seq<byte>, k: nat) returns (longer: seq<World>)
    requires CallOk(env.call) && IsRun(env, run) && NextOnItsWay(env.call, Last(run), d, k) && PieceCount(|d|) < WORD16
    ensures IsRun(env, longer) && |longer| == |run| + 1 && run <= longer
    ensures k + 1 == PieceCount(|d|) ==> Last(longer).client == I.Finished(I.Success(d))
    ensures k + 1 < PieceCount(|d|) ==>
      && Last(longer).client.PhaseTwo? && HasFirst(Last(longer).client.resp, PieceCount(|d|), k + 1)
      && I.ResponseAck(env.call.id, k + 1) in Last(longer).toServer
    ensures Last(longer).slot == Last(run).slot && Last(longer).installed == Last(run).installed
  {
    var c, w, n := env.call, Last(run), PieceCount(|d|);
    PiecePacket(c, d, k);
    var p := ResponsePiece(c.id, Responding(d, k));
    RunInv(env, run, |run| - 1);
    assert I.Sound(w.client) by { assert ClientOk(c, w.client, w.reached, w.clientReached); }
    hide Inv, ResponsePiece;
    var step := ClientReceives(p, d);
    assert Enabled(env, w, step);
    LastPieceSucceeds(env, run, |run| - 1, p, d, d);
    PieceInRun(env, run, |run| - 1, p, d, d);
    PieceGoes(c, w.client, p, d);
    Extend(env, run, step);
    hide IsRun;
    longer := run + [Do(env, w, step)];
    AcknowledgesNext(c, w.client, p, d, k, n);
    LastOfAll(w.client.resp, n, k);
    hide HasFirst, Has;
    if k + 1 < n { OneMore(w.client.resp, Last(longer).client.resp, n, k); }
  }

  lemma LastOfAll(r: Incoming, n: nat, k: nat)
    requires HasFirst(r, n, k) && k < n
    ensures (forall j: nat :: j < n ==> j == k || Has(r, j)) <==> k + 1 == n
  {
    if k + 1 < n { assert !Has(r, k + 1); }
  }

  lemma OneMore(r: Incoming, r': Incoming, n: nat, k: nat)
    requires HasFirst(r, n, k) && k < n && r'.started && |r'.bits| == n
    requires forall j: nat :: j < n ==> (r'.bits[j] <==> j == k || Has(r, j))
    ensures HasFirst(r', n, k + 1)
  {
    forall j: nat | j < n ensures Has(r', j) <==> j < k + 1 { assert r'.bits[j] <==> j == k || Has(r, j); }
  }

  lemma AcknowledgesNext(c: Call, s: Client, p: Packet, memory: seq<byte>, k: nat, n: nat)
    requires s.PhaseTwo? && I.Sound(s) && I.IsPiece(c, I.Arrived(p)) && |memory| == p.h.total
    requires I.PieceReach(I.Sized(s.resp, p, memory), p).Within? && I.Sized(s.resp, p, memory).count == n
    requires HasFirst(s.resp, n, k) && p.h.order == k < n
    ensures var r := I.OnEvent(c, s, I.Arrived(p), memory); r.1 == [I.ResponseAck(c.id, k + 1)]
  {
    PieceGoes(c, s, p, memory);
    var sized := I.Sized(s.resp, p, memory);
    assert forall j: nat :: j < n ==> (sized.bits[j] <==> Has(s.resp, j));
    FirstPrefix(sized.bits[k := true], k + 1);
    hide I.OnEvent, I.PieceReach, I.Taken;
  }

  /** The acknowledgement brings the next piece. */
  lemma SendsNext(env: Env, run: seq<World>, d: seq<byte>, k: nat) returns (longer: seq<World>)
    requires CallOk(env.call) && IsRun(env, run) && k + 1 < PieceCount(|d|) < WORD16
    requires var w := Last(run);
      && w.client.PhaseTwo? && HasFirst(w.client.resp, PieceCount(|d|), k + 1) && I.ResponseAck(env.call.id, k + 1) in w.toServer
      && w.slot.known && w.slot.resp == Some(Responding(d, k)) && AllAre(w.installed, d)
    ensures IsRun(env, longer) && |longer| == |run| + 1 && run <= longer
    ensures NextOnItsWay(env.call, Last(longer), d, k + 1)
  {
    var c, w := env.call, Last(run);
    PiecePacket(c, d, k);
    PiecePacket(c, d, k + 1);
    var p := I.ResponseAck(c.id, k + 1);
    hide IsRun, ResponsePiece, HasFirst;
    assert Acknowledged(Responding(d, k), k + 1) == Responding(d, k + 1);
    var step := ServerReceives(InLoop, p, [], true);
    assert Enabled(env, w, step);
    Extend(env, run, step);
    longer := run + [Do(env, w, step)];
    var q := ResponsePiece(c.id, Responding(d, k + 1));
    assert OnResponsePhase(w.slot, p) == Effect(w.slot.(resp := Some(Responding(d, k + 1))), [q], None);
    assert [q][0] == q;
  }

  lemma NotEmpty(env: Env, run: seq<World>, d: seq<byte>, k: nat)
    requires IsRun(env, run) && NextOnItsWay(env.call, Last(run), d, k)
    ensures run != [] && k < PieceCount(|d|)
  {}

  ghost predicate StaysInTwo(run: seq<World>, i: nat, k: nat) {
    k <= |run| && forall j :: i <= j < k ==> run[j].client.PhaseTwo?
  }

  lemma StaysNowhere(run: seq<World>, i: nat)
    requires i <= |run|
    ensures StaysInTwo(run, i, i)
  {}

  lemma StaysOn(run: seq<World>, longer: seq<World>, i: nat)
    requires run <= longer && |run| == i + 2 && |run| < |longer| && StaysInTwo(longer, |run|, |longer| - 1)
    requires run[i].client.PhaseTwo? && run[i + 1].client.PhaseTwo?
    ensures StaysInTwo(longer, i, |longer| - 1)
  {
    assert longer[i] == run[i] && longer[i + 1] == run[i + 1];
  }

  /** One exchange short of the end. */
  lemma Exchange(env: Env, run: seq<World>, d: seq<byte>, k: nat) returns (longer: seq<World>)
    requires CallOk(env.call) && IsRun(env, run) && NextOnItsWay(env.call, Last(run), d, k) && k + 1 < PieceCount(|d|) < WORD16
    ensures IsRun(env, longer) && |longer| == |run| + 2 && run <= longer && NextOnItsWay(env.call, Last(longer), d, k + 1)
    ensures longer[|run|].client.PhaseTwo? && longer[|run| + 1].client.PhaseTwo?
  {
    hide IsRun, NextOnItsWay, HasFirst, AllAre, PieceCount, Responding, CallOk;
    NotEmpty(env, run, d, k);
    InPhaseTwo(env.call, Last(run), d, k);
    var run1 := TakesNext(env, run, d, k);
    longer := SendsNext(env, run1, d, k);
    InPhaseTwo(env.call, Last(longer), d, k + 1);
    assert longer[|run|] == Last(run1) && longer[|run| + 1] == Last(longer);
  }

  /** Without loss, phase two of a response of n pieces takes exactly n exchanges: from piece k on there
      are 2 * (n - k) - 1 more steps, and the call is not over before the last of them. */
  lemma {:induction false} LossFreePhaseTwo(env: Env, run: seq<World>, d: seq<byte>, k: nat) returns (longer: seq<World>)
    requires CallOk(env.call) && IsRun(env, run) && NextOnItsWay(env.call, Last(run), d, k) && PieceCount(|d|) < WORD16
    ensures IsRun(env, longer) && |longer| == |run| + 2 * (PieceCount(|d|) - k) - 1 && run <= longer
    ensures Last(longer).client == I.Finished(I.Success(d))
    ensures StaysInTwo(longer, |run|, |longer| - 1)
    decreases PieceCount(|d|) - k
  {
    NotEmpty(env, run, d, k);
    hide IsRun, NextOnItsWay, HasFirst, AllAre, PieceCount, CallOk, StaysInTwo, Responding;
    if k + 1 < PieceCount(|d|) {
      var run2 := Exchange(env, run, d, k);
      longer := LossFreePhaseTwo(env, run2, d, k + 1);
      StaysOn(run2, longer, |run|);
    } else {
      longer := TakesNext(env, run, d, k);
      StaysNowhere(longer, |run|);
    }
  }

  lemma InPhaseTwo(c: Call, w: World, d: seq<byte>, k: nat)
    requires NextOnItsWay(c, w, d, k)
    ensures w.client.PhaseTwo? && w.slot.known && w.slot.resp == Some(Responding(d, k)) && AllAre(w.installed, d)
  {}

  /** In every run: an acknowledgement in phase two raises the server's count or leaves it, a heartbeat
      leaves it, and either is answered with the piece behind the count, if there is one, and with
      nothing else. */
  lemma AckBringsNext(env: Env, run: seq<World>, at: nat, p: Packet, memory: seq<byte>, accepted: bool)
    requires CallOk(env.call) && IsRun(env, run) && at < |run|
    requires Enabled(env, run[at], ServerReceives(InLoop, p, memory, accepted))
    requires p.h.phase.Response? && (p.h.kind.ReceiverACK? || p.h.kind.TimedOutRequestHeartbeat?)
    requires run[at].slot.known && run[at].slot.resp.Some? && PieceCount(|run[at].slot.resp.value.data|) < WORD16
    ensures p.h.id == env.call.id
    ensures var r, e := run[at].slot.resp.value, Receive(InLoop, run[at].slot, p, memory);
      var k := if p.h.kind.ReceiverACK? then Max(r.ack, p.h.ack) else r.ack;
      && e.slot == run[at].slot.(resp := Some(r.(ack := k))) && e.handed.None?
      && (PieceCount(|r.data|) <= k ==> e.replies == [])
      && (k < PieceCount(|r.data|) ==>
            && |e.replies| == 1 && I.IsPiece(env.call, I.Arrived(e.replies[0]))
            && e.replies[0].h.order == k && e.replies[0].body == PieceOf(r.data, k))
  {
    RunInv(env, run, at);
    var w := run[at];
    assert ClientPacketOk(env.call, p, w.clientReached) && RespOk(w.slot.resp, w.installed, w.clientReached);
    hide Inv, IsRun;
    var r := w.slot.resp.value;
    var k := if p.h.kind.ReceiverACK? then Max(r.ack, p.h.ack) else r.ack;
    assert r.(ack := k) == Responding(r.data, k);
    BothSendOk(r, p.h.ack);
    hide ResponsePiece;
    if k < PieceCount(|r.data|) { PiecePacket(env.call, r.data, k); }
  }

  // ---- The whole call ----

  /** The handler answers and its result becomes the response. */
  lemma Answered(env: Env, run: seq<World>, r: seq<byte>) returns (longer: seq<World>)
    requires CallOk(env.call) && IsRun(env, run) && env.serves(env.call.m, r) && 0 < PieceCount(|r|) < WORD16
    requires Last(run).client == I.PhaseTwo(I.TRY_TIMES, I.NOTHING)
    requires var w := Last(run); w.slot.known && env.call.m in w.jobs && w.slot.resp.None? && w.installed == []
    ensures IsRun(env, longer) && NextOnItsWay(env.call, Last(longer), r, 0)
  {
    var c, w := env.call, Last(run);
    PiecePacket(c, r, 0);
    hide IsRun, ResponsePiece;
    var back := HandlerReturns(c.m, r);
    assert Enabled(env, w, back);
    Extend(env, run, back);
    var w1 := Do(env, w, back);
    var run1 := run + [w1];
    var install := ResultInstalled(r);
    assert Enabled(env, w1, install);
    Extend(env, run1, install);
    longer := run1 + [Do(env, w1, install)];
    var q := ResponsePiece(c.id, Responding(r, 0));
    assert Installed(c.id, w1.slot, r) == Effect(w1.slot.(resp := Some(Responding(r, 0))), [q], None);
    assert [q][0] == q;
  }

  /** Every call on a message that is not empty can succeed with every result of the handler that fits
      the piece count and is not empty. */
  lemma SuccessIsPossible(env: Env, r: seq<byte>) returns (run: seq<World>)
    requires CallOk(env.call) && env.call.m != [] && env.serves(env.call.m, r) && 0 < PieceCount(|r|) < WORD16
    ensures IsRun(env, run) && Last(run).client == I.Finished(I.Success(r))
  {
    run := PhaseOneDone(env);
    hide IsRun;
    run := Answered(env, run, r);
    run := LossFreePhaseTwo(env, run, r, 0);
  }

  // ---- Empty messages and empty results ----

  /** Responses of no piece: empty ones, and those whose piece count is a multiple of 2^16. */
  ghost predicate NoPieces(installed: seq<seq<byte>>) {
    forall i :: 0 <= i < |installed| ==> PieceCount(|installed[i]|) % WORD16 == 0
  }

  predicate Succeeded(s: Client) { s.Finished? && s.outcome.Success? }

  lemma SuccessStep(env: Env, w: World, step: Step)
    requires CallOk(env.call) && Inv(env, w) && Enabled(env, w, step) && !Succeeded(w.client)
    ensures w.installed <= Do(env, w, step).installed
    ensures Succeeded(Do(env, w, step).client) ==> !NoPieces(w.installed)
  {
    hide Inv, Receive, I.EnterRound, I.OnEvent, NextPiece, PrefixAfter, NoPieces;
    match step {
      case ClientReceives(p, memory) =>
        if w.client.PhaseTwo? {
          PhaseTwoEnds(env.call, w.client, I.Arrived(p), memory);
          if I.IsPiece(env.call, I.Arrived(p)) { PieceIsInstalled(env, w, p); }
        } else { PhaseOneEnds(env.call, w.client, I.Arrived(p)); InPhaseOne(env.call, w.client, I.Arrived(p), memory); }
      case ClientHears(e) =>
        if w.client.PhaseTwo? { PhaseTwoEnds(env.call, w.client, e, []); }
        else { PhaseOneEnds(env.call, w.client, e); InPhaseOne(env.call, w.client, e, []); }
      case ClientEnters => EnterSucceedsNot(env.call, w.client);
      case _ =>
    }
  }

  lemma InPhaseOne(c: Call, s: Client, e: Event, memory: seq<byte>)
    requires s.Await? && I.Supplied(c, e, memory)
    ensures I.OnEvent(c, s, e, memory) == I.PhaseOne(c, s, e)
  {}

  lemma EnterSucceedsNot(c: Call, s: Client)
    requires s.Top?
    ensures !Succeeded(I.EnterRound(c, s).0)
  {}

  lemma PieceIsInstalled(env: Env, w: World, p: Packet)
    requires Inv(env, w) && p in w.toClient && I.IsPiece(env.call, I.Arrived(p))
    ensures !NoPieces(w.installed)
  {
    assert ServerPacketOk(env.call, p, w.reached, w.installed);
    hide Inv;
    var data, k: nat :| data in w.installed && ResponsePieceOk(env.call, p, data, k);
    var i :| 0 <= i < |w.installed| && w.installed[i] == data;
  }

  /** As long as no installed response has a piece to send, the call does not succeed. */
  lemma {:induction false} NoPieceNoSuccess(env: Env, run: seq<World>, at: nat)
    requires CallOk(env.call) && IsRun(env, run) && at < |run| && NoPieces(run[at].installed)
    ensures !Succeeded(run[at].client)
  {
    hide Enabled, Do, Inv;
    if at > 0 {
      RunInv(env, run, at - 1);
      assert Next(env, run[at - 1], run[at - 1 + 1]);
      var step :| Enabled(env, run[at - 1], step) && run[at] == Do(env, run[at - 1], step);
      if Succeeded(run[at - 1].client) {
        InstalledGrows(env, run[at - 1], step);
        FewerPieces(run[at - 1].installed, run[at].installed);
        NoPieceNoSuccess(env, run, at - 1);
      } else {
        SuccessStep(env, run[at - 1], step);
        FewerPieces(run[at - 1].installed, run[at].installed);
      }
    }
  }

  lemma InstalledGrows(env: Env, w: World, step: Step)
    requires Enabled(env, w, step)
    ensures w.installed <= Do(env, w, step).installed
  {
    hide Receive, I.EnterRound, I.OnEvent, NextPiece, PrefixAfter;
  }

  lemma FewerPieces(a: seq<seq<byte>>, b: seq<seq<byte>>)
    requires a <= b && NoPieces(b)
    ensures NoPieces(a)
  {
    forall i | 0 <= i < |a| ensures PieceCount(|a[i]|) % WORD16 == 0 { assert a[i] == b[i]; }
  }

  /** Nothing is handed over for an empty message. */
  lemma NothingHanded(env: Env, run: seq<World>, k: nat)
    requires CallOk(env.call) && IsRun(env, run) && k + 1 < |run| && env.call.m == []
    ensures !HandsOver(env, run, k)
  {
    if HandsOver(env, run, k) {
      var path, p, memory, accepted :| Enabled(env, run[k], ServerReceives(path, p, memory, accepted))
        && run[k + 1] == Do(env, run[k], ServerReceives(path, p, memory, accepted))
        && Receive(path, run[k].slot, p, memory).handed == Some(env.call.m);
      RunInv(env, run, k);
      HandOver(env, run, k, path, p, memory, accepted);
      assert ToServerOk(env.call, run[k].toServer, run[k].clientReached);
      assert ClientPacketOk(env.call, p, run[k].clientReached);
      hide IsRun, Inv, Enabled, Do, Receive;
      var i := ClientData(env.call, p, run[k].clientReached, path);
    }
  }

  lemma EmptyCallFails(env: Env, run: seq<World>, at: nat)
    requires CallOk(env.call) && IsRun(env, run) && at < |run| && env.call.m == []
    ensures !Succeeded(run[at].client)
  {
    ExecutionCount(env, run, at);
    HandedIsGiven(env, run, at);
    hide IsRun, HandsOver;
    forall k: nat | k < at ensures !HandsOver(env, run, k) { NothingHanded(env, run, k); }
    assert run[at].installed == [];
    NoPieceNoSuccess(env, run, at);
  }

  /** A call whose handler computes r and nothing else can succeed if and only if neither the message nor
      r is empty: for an empty message no record is ever made, and of an empty response no piece is
      ever sent. */
  lemma SuccessIffNotEmpty(env: Env, r: seq<byte>)
    requires CallOk(env.call) && PieceCount(|r|) < WORD16
    requires forall x :: env.serves(env.call.m, x) <==> x == r
    ensures (exists run: seq<World>, at: nat :: IsRun(env, run) && at < |run| && Succeeded(run[at].client))
      <==> env.call.m != [] && r != []
  {
    if env.call.m != [] && r != [] {
      var run := SuccessIsPossible(env, r);
      assert run != [];
      assert Succeeded(run[|run| - 1].client);
    } else {
      forall run: seq<World>, at: nat | IsRun(env, run) && at < |run| ensures !Succeeded(run[at].client) {
        if env.call.m == [] { EmptyCallFails(env, run, at); }
        else {
          RunInv(env, run, at);
          assert WorkOk(env, run[at]);
          NoPieceNoSuccess(env, run, at);
        }
      }
    }
  }
}
