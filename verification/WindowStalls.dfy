/** Clean rounds are stretches of SR2P runs, and the rounds without progress do occur: after the record
    of a call expired, and when everything that arrives is a duplicate. */
module WindowStalls {

  import opened Wrappers
  import opened Arithmetic
  import opened Bytes
  import opened Protocol
  import opened Pieces
  import opened SubReactor
  import opened Sr2p
  import opened Sr2pProof
  import opened Sr2pHandOver
  import opened WindowProgress
  import I = Invoker

  function Last(run: seq<World>): World
    requires run != []
  {
    run[|run| - 1]
  }

  lemma Extend(env: Env, run: seq<World>, step: Step)
    requires IsRun(env, run) && Enabled(env, Last(run), step)
    ensures IsRun(env, run + [Do(env, Last(run), step)])
  {
    var longer := run + [Do(env, Last(run), step)];
    forall i | 0 <= i < |longer| - 1 ensures Next(env, longer[i], longer[i + 1]) {
      if i < |run| - 1 { assert Next(env, run[i], run[i + 1]); }
    }
  }

  // ---- A clean round as steps ----

  ghost predicate AllSent(c: Call, w: World, arrivals: seq<Arrival>) {
    forall k :: 0 <= k < |arrivals| ==> ArrivalOk(c, arrivals[k]) && I.DataPacket(c, arrivals[k].i) in w.toServer
  }

  ghost predicate AllAcked(c: Call, w: World, acks: seq<nat>) { forall k :: 0 <= k < |acks| ==> Ack(c.id, acks[k]) in w.toClient }

  /** What the arrival of a piece does to the world. */
  lemma ArriveInWorld(env: Env, w: World, a: Arrival)
    requires CallOk(env.call) && RecordSound(env.call, w.slot) && AllSent(env.call, w, [a])
    ensures ArrivalOk(env.call, a)
    ensures var step := ServerReceives(a.path, I.DataPacket(env.call, a.i), a.memory, true);
      && Enabled(env, w, step)
      && var w' := Do(env, w, step);
      && (Undisturbed(env.call, w) ==> Undisturbed(env.call, w'))
      && w'.client == w.client && w'.toServer == w.toServer && w.toClient <= w'.toClient
      && w'.slot == Arrive(env.call, w.slot, a).0 && Ack(env.call.id, Arrive(env.call, w.slot, a).1) in w'.toClient
  {
    assert ArrivalOk(env.call, [a][0]) && I.DataPacket(env.call, [a][0].i) in w.toServer;
    var p := I.DataPacket(env.call, a.i);
    DataPacketFields(env.call, a.i);
    ReceivedOk(env.call, a.path, w.slot, a.i, a.memory, Total(env.call));
    Dispatch(a.path, w.slot, p, a.memory);
    HandedIsMessage(env.call, a.path, w.slot, a.i, a.memory, Total(env.call));
    if Undisturbed(env.call, w) { StaysUndisturbed(env.call, w, a.path, a.i, a.memory); }
    hide I.DataPacket, ReceiveOk, RecOk, Receive, OnData, Undisturbed;
    var e := OnData(a.path, w.slot, p, a.memory);
    assert e.replies[0] in e.replies;
  }

  lemma {:induction false} ServeInRun(env: Env, run: seq<World>, arrivals: seq<Arrival>) returns (longer: seq<World>)
    requires CallOk(env.call) && IsRun(env, run)
    requires RecordSound(env.call, Last(run).slot) && AllSent(env.call, Last(run), arrivals)
    ensures IsRun(env, longer) && run <= longer && (Undisturbed(env.call, Last(run)) ==> Undisturbed(env.call, Last(longer)))
    ensures Last(longer).client == Last(run).client && Last(longer).toServer == Last(run).toServer
    ensures Last(run).toClient <= Last(longer).toClient
    ensures Last(longer).slot == Serve(env.call, Last(run).slot, arrivals).0
    ensures AllAcked(env.call, Last(longer), Serve(env.call, Last(run).slot, arrivals).1)
    decreases |arrivals|
  {
    assert run != [];
    hide Enabled, Do, Arrive, RecordSound, IsRun, Init, Undisturbed;
    if arrivals == [] {
      longer := run;
    } else {
      var a, w := arrivals[0], Last(run);
      assert AllSent(env.call, w, [a]);
      ArriveInWorld(env, w, a);
      ArriveStep(env.call, w.slot, a);
      var step := ServerReceives(a.path, I.DataPacket(env.call, a.i), a.memory, true);
      Extend(env, run, step);
      var run1 := run + [Do(env, w, step)];
      longer := ServeInRun(env, run1, arrivals[1..]);
    }
  }

  lemma {:induction false} FeedInRun(env: Env, run: seq<World>, acks: seq<nat>) returns (longer: seq<World>)
    requires IsRun(env, run) && AllAcked(env.call, Last(run), acks)
    requires Last(run).client.Await? || Last(run).client.Top?
    ensures IsRun(env, longer) && run <= longer && (Undisturbed(env.call, Last(run)) ==> Undisturbed(env.call, Last(longer)))
    ensures Last(longer).client == Feed(env.call, Last(run).client, acks) && Last(longer).slot == Last(run).slot
    decreases |acks|
  {
    assert run != [];
    hide IsRun, Init;
    longer := run;
    if acks != [] && Last(run).client.Await? {
      var w := Last(run);
      var step := ClientReceives(Ack(env.call.id, acks[0]), []);
      assert Enabled(env, w, step);
      Extend(env, run, step);
      var run1 := run + [Do(env, w, step)];
      assert Last(run1).client == I.OnAnswer(env.call, w.client, Ack(env.call.id, acks[0]).h);
      if Last(run1).client.Await? || Last(run1).client.Top? {
        longer := FeedInRun(env, run1, acks[1..]);
      }
    }
  }

  /** Every clean round is a stretch of a run: from the state it starts in, some steps lead to the state
      it ends in, and what the server has for the handler is still there. */
  lemma CleanRoundIsRun(env: Env, run: seq<World>, arrivals: seq<Arrival>, delivered: seq<nat>, s': I.Client, slot': Slot)
    returns (longer: seq<World>)
    requires CallOk(env.call) && IsRun(env, run)
    requires CleanRound(env.call, Last(run).client, Last(run).slot, arrivals, delivered, s', slot')
    ensures IsRun(env, longer) && run <= longer && Last(longer).client == s' && Last(longer).slot == slot'
    ensures Undisturbed(env.call, Last(run)) ==> Undisturbed(env.call, Last(longer))
  {
    var c, w := env.call, Last(run);
    RoundStart(c, w.client);
    WindowArrives(c, w.client, w.slot, arrivals, delivered, s', slot');
    Extend(env, run, ClientEnters);
    var run1 := run + [Do(env, w, ClientEnters)];
    assert AllSent(c, Last(run1), arrivals);
    hide Enabled, Do, IsRun, Feed, RecordSound, I.EnterRound;
    var run2 := ServeInRun(env, run1, arrivals);
    var acks := Serve(c, w.slot, arrivals).1;
    hide Serve;
    forall k | 0 <= k < |delivered| ensures Ack(c.id, delivered[k]) in Last(run2).toClient {
      assert delivered[k] in multiset(acks);
      var l :| 0 <= l < |acks| && acks[l] == delivered[k];
    }
    longer := FeedInRun(env, run2, delivered);
  }

  // ---- Clean rounds exist ----

  /** The window arrives in order on one path. */
  function InOrder(from: nat, n: nat, path: Path, memory: seq<byte>): seq<Arrival> {
    seq(n, k requires 0 <= k < n => Arrival(path, from + k, memory))
  }

  lemma InOrderArrives(c: Call, from: nat, n: nat, path: Path)
    requires from + n <= Total(c)
    ensures var a := InOrder(from, n, path, c.m);
      && (forall k :: 0 <= k < n ==> ArrivalOk(c, a[k]) && a[k].i == from + k && a[k].path == path)
      && (forall i: nat :: from <= i < from + n ==> Arrives(a, i))
  {
    var a := InOrder(from, n, path, c.m);
    forall i: nat | from <= i < from + n ensures Arrives(a, i) { assert a[i - from].i == i; }
  }

  lemma RoundExists(c: Call, s: I.Client, slot: Slot, path: Path)
    returns (arrivals: seq<Arrival>, delivered: seq<nat>, s': I.Client, slot': Slot)
    requires CallOk(c) && s.Top? && s.got != 0 && s.ack < Total(c) && RecordSound(c, slot)
    ensures CleanRound(c, s, slot, arrivals, delivered, s', slot')
    ensures forall k :: 0 <= k < |arrivals| ==> arrivals[k].path == path
  {
    var n: nat := Target(c, s) - s.ack;
    RoundStart(c, s);
    WindowContents(c, s.ack, s.ack + SendCount(Total(c)));
    InOrderArrives(c, s.ack, n, path);
    arrivals := InOrder(s.ack, n, path, c.m);
    hide InOrder, I.Window, I.EnterRound, I.DataPacket, RecordSound;
    delivered := Serve(c, slot, arrivals).1;
    slot' := Serve(c, slot, arrivals).0;
    s' := Feed(c, I.EnterRound(c, s).0, delivered);
  }

  // ---- Stalled calls ----

  lemma Start(env: Env) returns (run: seq<World>)
    requires CallOk(env.call) && 0 < Total(env.call)
    ensures IsRun(env, run) && Last(run).slot == Slot(None, false, None)
    ensures Last(run).client == I.Await(0, SendCount(Total(env.call)), 0, 0, I.TRY_TIMES)
    ensures forall i: nat :: i < Min(SendCount(Total(env.call)), Total(env.call)) ==> I.DataPacket(env.call, i) in Last(run).toServer
  {
    var w := World(I.START, Slot(None, false, None), {}, {}, multiset{}, multiset{}, 0, 0, 0, 0, []);
    RoundStart(env.call, I.START);
    WindowContents(env.call, 0, SendCount(Total(env.call)));
    run := [w];
    assert IsRun(env, run);
    Extend(env, run, ClientEnters);
    run := run + [Do(env, w, ClientEnters)];
  }

  /** One acknowledgement arrives and then nothing more: the round ends with it. */
  lemma OneAnswer(env: Env, run: seq<World>, ack: nat) returns (longer: seq<World>)
    requires CallOk(env.call) && IsRun(env, run) && ack < Total(env.call)
    requires Last(run).client == I.Await(0, SendCount(Total(env.call)), 0, 0, I.TRY_TIMES)
    requires Ack(env.call.id, ack) in Last(run).toClient
    ensures IsRun(env, longer) && Last(longer).slot == Last(run).slot
    ensures Last(longer).client == I.Top(ack, 1, I.TRY_TIMES)
  {
    Exact(env.call);
    hide IsRun, Init;
    assert AllAcked(env.call, Last(run), [ack]);
    longer := FeedInRun(env, run, [ack]);
    if Last(longer).client.Await? {
      var w := Last(longer);
      assert Enabled(env, w, ClientHears(I.TimedOut));
      Extend(env, longer, ClientHears(I.TimedOut));
      longer := longer + [Do(env, w, ClientHears(I.TimedOut))];
    }
  }

  /** The client is between rounds, not done, and ahead of the record. */
  ghost predicate AheadOfRecord(c: Call, w: World) {
    w.client.Top? && w.client.got != 0 && w.client.ack < Total(c) && RecordSound(c, w.slot) && Behind(c, w.client, w.slot)
  }

  /** The first piece is received and acknowledged, then the record expires. */
  lemma ExpiryLeavesClientAhead(env: Env) returns (run: seq<World>)
    requires CallOk(env.call) && 2 <= Total(env.call)
    ensures IsRun(env, run) && AheadOfRecord(env.call, Last(run))
  {
    var c := env.call;
    run := Start(env);
    var a := Arrival(InLoop, 0, c.m);
    var w := Last(run);
    assert AllSent(c, w, [a]);
    run := ServeInRun(env, run, [a]);
    ArriveStep(c, w.slot, a);
    FirstAck(c, a);
    hide IsRun;
    assert Ack(c.id, Serve(c, w.slot, [a]).1[0]) in Last(run).toClient;
    run := OneAnswer(env, run, 1);
    var w1 := Last(run);
    Extend(env, run, RecordExpires);
    run := run + [Do(env, w1, RecordExpires)];
    AckIsLongest(Bits(c, Last(run).slot), 1);
  }

  lemma FirstAck(c: Call, a: Arrival)
    requires CallOk(c) && 2 <= Total(c) && ArrivalOk(c, a) && a.i == 0
    ensures var slot := Slot(None, false, None); RecordSound(c, slot) && Serve(c, slot, [a]).1 == [1]
  {
    var slot := Slot(None, false, None);
    ArriveStep(c, slot, a);
    var bits := Bits(c, Arrive(c, slot, a).0);
    hide Arrive;
    AckIsPrefix(bits);
    AckIsLongest(bits, 1);
    AckIsLongest(bits, 2);
    assert [a][1..] == [];
  }

  /** A client can get ahead of the record if and only if the message has at least two pieces. */
  lemma ClientGetsAhead(env: Env)
    requires CallOk(env.call)
    ensures (exists run: seq<World> :: IsRun(env, run) && AheadOfRecord(env.call, Last(run))) <==> 2 <= Total(env.call)
  {
    if 2 <= Total(env.call) {
      var run := ExpiryLeavesClientAhead(env);
    }
  }

  /** The client is between rounds, not done, and every piece of its window is there. */
  ghost predicate OnlyDuplicates(c: Call, w: World) {
    w.client.Top? && w.client.got != 0 && w.client.ack < Total(c) && RecordSound(c, w.slot) && AllThere(c, w.client, w.slot)
  }

  /** The window is received, and no answer gets through. */
  lemma WindowReceived(env: Env) returns (run: seq<World>)
    requires CallOk(env.call) && 0 < Total(env.call)
    ensures IsRun(env, run) && RecordSound(env.call, Last(run).slot)
    ensures Last(run).client == I.Await(0, SendCount(Total(env.call)), 0, 0, I.TRY_TIMES)
    ensures I.DataPacket(env.call, 0) in Last(run).toServer && |Bits(env.call, Last(run).slot)| == Total(env.call)
    ensures forall i: nat :: i < Min(SendCount(Total(env.call)), Total(env.call)) ==> Bits(env.call, Last(run).slot)[i]
  {
    var c := env.call;
    run := Start(env);
    var n: nat, slot := Min(SendCount(Total(c)), Total(c)), Last(run).slot;
    InOrderArrives(c, 0, n, InLoop);
    var window := InOrder(0, n, InLoop, c.m);
    assert AllSent(c, Last(run), window);
    hide InOrder, IsRun, AckNumber;
    ServeBits(c, slot, window);
    run := ServeInRun(env, run, window);
  }

  /** Then a duplicate of its first piece is answered with zero, and only that answer gets through. */
  lemma LostAnswersLeaveDuplicates(env: Env) returns (run: seq<World>)
    requires CallOk(env.call) && 0 < Total(env.call)
    ensures IsRun(env, run) && OnlyDuplicates(env.call, Last(run))
  {
    var c := env.call;
    run := WindowReceived(env);
    var slot, again := Last(run).slot, [Arrival(OnNewConnection, 0, c.m)];
    assert AllSent(c, Last(run), again);
    hide IsRun, AckNumber, Bits, RecordSound;
    assert forall k :: 0 <= k < |again| ==> ArrivalOk(c, again[k]) && again[k].i < Total(c) && Bits(c, slot)[again[k].i];
    ServeDuplicates(c, slot, again);
    ServeBits(c, slot, again);
    run := ServeInRun(env, run, again);
    assert Ack(c.id, Serve(c, slot, again).1[0]) in Last(run).toClient;
    run := OneAnswer(env, run, 0);
    AckIsLongest(Bits(c, slot), Min(SendCount(Total(c)), Total(c)));
  }

  lemma ClientMeetsDuplicates(env: Env)
    requires CallOk(env.call)
    ensures (exists run: seq<World> :: IsRun(env, run) && OnlyDuplicates(env.call, Last(run))) <==> 0 < Total(env.call)
  {
    if 0 < Total(env.call) {
      var run := LostAnswersLeaveDuplicates(env);
    }
  }

  /** A state in which a clean round on this path brings nothing. */
  ghost predicate Stalled(c: Call, w: World, path: Path) {
    AheadOfRecord(c, w) || (path.OnNewConnection? && OnlyDuplicates(c, w))
  }

  /** A stalled call goes on with a clean round, and is stalled as before. */
  lemma StalledRound(env: Env, run: seq<World>, path: Path)
    returns (longer: seq<World>, arrivals: seq<Arrival>, delivered: seq<nat>)
    requires CallOk(env.call) && IsRun(env, run) && Stalled(env.call, Last(run), path)
    ensures IsRun(env, longer) && run <= longer && Stalled(env.call, Last(longer), path)
    ensures CleanRound(env.call, Last(run).client, Last(run).slot, arrivals, delivered, Last(longer).client, Last(longer).slot)
    ensures forall j :: 0 <= j < |arrivals| ==> arrivals[j].path == path
    ensures Last(run).client.Top? && Last(longer).client.Top? && Last(longer).client.ack == Last(run).client.ack
  {
    var c, w := env.call, Last(run);
    hide IsRun, CleanRound, RecordSound, Bits, AckNumber;
    var s', slot';
    arrivals, delivered, s', slot' := RoundExists(c, w.client, w.slot, path);
    CleanRoundProgress(c, w.client, w.slot, arrivals, delivered, s', slot');
    RoundEnd(c, w.client, w.slot, arrivals, delivered, s', slot');
    longer := CleanRoundIsRun(env, run, arrivals, delivered, s', slot');
  }

  lemma OneMoreRound(c: Call, s: I.Client, slot: Slot, first: seq<Arrival>, acks: seq<nat>,
                     tops: seq<I.Client>, slots: seq<Slot>, arrivals: seq<seq<Arrival>>, delivered: seq<seq<nat>>)
    requires CallOk(c) && Rounds(c, tops, slots, arrivals, delivered) && s.Top?
    requires CleanRound(c, s, slot, first, acks, tops[0], slots[0])
    ensures Rounds(c, [s] + tops, [slot] + slots, [first] + arrivals, [acks] + delivered)
  {
    var t, sl, ar, de := [s] + tops, [slot] + slots, [first] + arrivals, [acks] + delivered;
    hide CleanRound;
    forall k | 0 <= k < |ar| ensures CleanRound(c, t[k], sl[k], ar[k], de[k], t[k + 1], sl[k + 1]) {
      if k > 0 {
        assert CleanRound(c, tops[k - 1], slots[k - 1], arrivals[k - 1], delivered[k - 1], tops[k - 1 + 1], slots[k - 1 + 1]);
      }
    }
  }

  ghost predicate AllOn(arrivals: seq<seq<Arrival>>, path: Path) {
    forall k :: 0 <= k < |arrivals| ==> forall j :: 0 <= j < |arrivals[k]| ==> arrivals[k][j].path == path
  }

  lemma AllOnMore(arrivals: seq<seq<Arrival>>, first: seq<Arrival>, path: Path)
    requires AllOn(arrivals, path) && forall j :: 0 <= j < |first| ==> first[j].path == path
    ensures AllOn([first] + arrivals, path)
  {}

  /** A stalled call goes on with n clean rounds, all on the given path. */
  lemma {:induction false} StalledRounds(env: Env, run: seq<World>, path: Path, n: nat)
    returns (longer: seq<World>, tops: seq<I.Client>, slots: seq<Slot>, arrivals: seq<seq<Arrival>>, delivered: seq<seq<nat>>)
    requires CallOk(env.call) && IsRun(env, run) && Stalled(env.call, Last(run), path)
    ensures IsRun(env, longer) && run <= longer && Rounds(env.call, tops, slots, arrivals, delivered)
    ensures |arrivals| == n && AllOn(arrivals, path)
    ensures Last(longer).client == tops[n] && Last(longer).slot == slots[n]
    ensures tops[0] == Last(run).client && slots[0] == Last(run).slot
    ensures tops[n].Top? && tops[0].Top? && tops[n].ack == tops[0].ack
    decreases n
  {
    assert run != [] && Last(run).client.Top?;
    hide IsRun, CleanRound, Stalled;
    var w := Last(run);
    if n == 0 {
      longer, tops, slots, arrivals, delivered := run, [w.client], [w.slot], [], [];
    } else {
      var run1, first, acks := StalledRound(env, run, path);
      longer, tops, slots, arrivals, delivered := StalledRounds(env, run1, path, n - 1);
      OneMoreRound(env.call, w.client, w.slot, first, acks, tops, slots, arrivals, delivered);
      AllOnMore(arrivals, first, path);
      hide Rounds, AllOn;
      tops, slots, arrivals, delivered := [w.client] + tops, [w.slot] + slots, [first] + arrivals, [acks] + delivered;
    }
  }

  /** For every message of two pieces or more and every n there is a run in which, after the record
      expired, n rounds go by with nothing lost, on either path, and the client is where it was. */
  lemma StalledRun(env: Env, path: Path, n: nat)
    returns (run: seq<World>, tops: seq<I.Client>, slots: seq<Slot>, arrivals: seq<seq<Arrival>>, delivered: seq<seq<nat>>)
    requires CallOk(env.call) && 2 <= Total(env.call)
    ensures IsRun(env, run) && Rounds(env.call, tops, slots, arrivals, delivered) && |arrivals| == n && AllOn(arrivals, path)
    ensures Last(run).client == tops[n] && Last(run).slot == slots[n]
    ensures tops[0].Top? && tops[n].Top? && 0 < tops[n].ack == tops[0].ack < Total(env.call)
  {
    var ahead := ExpiryLeavesClientAhead(env);
    assert ahead != [] && 0 < Last(ahead).client.ack < Total(env.call);
    hide IsRun, Rounds;
    run, tops, slots, arrivals, delivered := StalledRounds(env, ahead, path, n);
  }
}
