/** The client side of SR2P: Invoker::request as a step machine, and as the nested loops that run it. */
module Invoker {

  import opened Wrappers
  import opened Bytes
  import opened Protocol
  import opened Pieces
  import S = SubReactor

  type Packet = S.Packet

  const TRY_TIMES: nat := 3

  /** What a receive yields: a datagram that parses, one that does not, or nothing in time. */
  datatype Event = Arrived(p: Packet) | Unparsable | TimedOut

  /** The last two: the bitmap's bounds test throws, or a piece goes past the end of bitmap or buffer. */
  datatype Outcome =
    | Success(data: seq<byte>) | NetworkTimeout | ServerExhausted | CannotParse | PieceRefused | Undefined

  /** One call: the message as it leaves the middleware, and its id. */
  datatype Call = Call(m: seq<byte>, id: nat)

  /** Top: at the test of the outer loop. Await: at a receive of the inner loop. */
  datatype Client =
    | Top(ack: nat, got: nat, tries: nat)
    | Await(ack: nat, end: nat, j: nat, got: nat, tries: nat)
    | PhaseTwo(tries: nat, resp: Incoming)
    | Finished(outcome: Outcome)

  const NOTHING: Incoming := Incoming(false, 0, 0, [], [])

  const START: Client := Top(0, 1, TRY_TIMES)

  /** 16-bit fields. */
  function Pieces16(c: Call): nat { PieceCount(|c.m|) % WORD16 }

  // ---- Packets the client sends ----

  function DataPacket(c: Call, i: nat): Packet
    requires i < PieceCount(|c.m|)
  {
    S.Packet(Fresh(c.id, |c.m|).(order := i, size := PieceSize(|c.m|, i)), PieceOf(c.m, i))
  }

  function AskForAck(c: Call): Packet { S.Packet(Fresh(c.id, |c.m|).(kind := RequestACK), []) }

  function ResponseAck(id: nat, n: nat): Packet {
    S.Packet(Fresh(id, 0).(kind := ReceiverACK, phase := Response, ack := n), [])
  }

  function ResponseHeartbeat(id: nat, kind: Kind): Packet {
    S.Packet(Fresh(id, 0).(kind := kind, phase := Response), [])
  }

  /** The pieces from i up to the end of the window. */
  function Window(c: Call, i: nat, end: nat): seq<Packet>
    decreases end - i
  {
    if i < end && i < Pieces16(c) then [DataPacket(c, i)] + Window(c, i + 1, end) else []
  }

  // ---- Phase one ----

  /** After the inner loop: a round without an answer costs one of the tries. */
  function EndRound(ack: nat, got: nat, tries: nat): Client {
    if got != 0 then Top(ack, got, tries)
    else if tries <= 1 then Finished(NetworkTimeout)
    else Top(ack, got, tries - 1)
  }

  /** The test of the inner loop. */
  function Continue(c: Call, ack: nat, end: nat, j: nat, got: nat, tries: nat): Client {
    if j < end && j < Pieces16(c) then Await(ack, end, j, got, tries) else EndRound(ack, got, tries)
  }

  /** A round begins: the window goes out unless the last round was silent. */
  function EnterRound(c: Call, s: Client): (Client, seq<Packet>)
    requires s.Top?
  {
    if s.ack == Pieces16(c) then (PhaseTwo(TRY_TIMES, NOTHING), [])
    else
      var end := (s.ack + SendCount(Pieces16(c))) % WORD16;
      (Continue(c, s.ack, end, s.ack, 0, s.tries), if s.got != 0 then Window(c, s.ack, end) else [])
  }

  /** A datagram of this call arrived in phase one. */
  function OnAnswer(c: Call, s: Client, h: Header): Client
    requires s.Await?
  {
    var got := s.got + 1;
    if h.phase.Response? then Continue(c, Pieces16(c), s.end, s.j + 1, got, TRY_TIMES)
    else if h.kind.ReceiverACK? then
      var ack := if h.ack > s.ack then h.ack else s.ack;
      if ack == Pieces16(c) then EndRound(ack, got, TRY_TIMES)
      else Continue(c, ack, s.end, s.j + 1, got, TRY_TIMES)
    else if h.kind.TheServerResourcesExhausted? then Finished(ServerExhausted)
    else Continue(c, s.ack, s.end, s.j + 1, got, TRY_TIMES)
  }

  function PhaseOne(c: Call, s: Client, e: Event): (Client, seq<Packet>)
    requires s.Await?
  {
    match e
    case Unparsable => (Finished(CannotParse), [])
    case TimedOut => (EndRound(s.ack, s.got, s.tries), [AskForAck(c)])
    case Arrived(p) =>
      if p.h.id != c.id then (Continue(c, s.ack, s.end, s.j + 1, s.got, s.tries), [])
      else (OnAnswer(c, s, p.h), [])
  }

  // ---- Phase two ----

  /** The response as `initialize` leaves it: only the first packet sizes it. */
  function Sized(r: Incoming, p: Packet, memory: seq<byte>): Incoming
    requires |memory| == p.h.total
  {
    if r.started then r else Incoming(true, p.h.count, p.h.total, AllFalse(p.h.count), memory)
  }

  predicate IncomingOk(r: Incoming) { |r.bits| == r.count && |r.data| == r.total }

  /** What a piece touches; one that is there already is not copied. */
  function PieceReach(r: Incoming, p: Packet): Reach
    requires IncomingOk(r)
  {
    if p.h.order > r.count then Refused
    else if p.h.order == r.count then Beyond
    else if r.bits[p.h.order] || (p.h.size <= |p.body| && PIECE_LIMIT * p.h.order + p.h.size <= r.total) then Within
    else Beyond
  }

  function Taken(r: Incoming, p: Packet): (r': Incoming)
    requires IncomingOk(r) && PieceReach(r, p).Within?
    ensures IncomingOk(r')
  {
    if r.bits[p.h.order] then r
    else r.(bits := r.bits[p.h.order := true], data := StoreAt(r.data, PIECE_LIMIT * p.h.order, S.Payload(p)))
  }

  function OnPiece(c: Call, r: Incoming, p: Packet, memory: seq<byte>): (Client, seq<Packet>)
    requires |memory| == p.h.total && IncomingOk(r)
  {
    var sized := Sized(r, p, memory);
    match PieceReach(sized, p)
    case Refused => (Finished(PieceRefused), [])
    case Beyond => (Finished(Undefined), [])
    case Within =>
      var r1 := Taken(sized, p);
      var ack := AckNumber(r1.bits);
      (if ack == r1.count then Finished(Success(r1.data)) else PhaseTwo(TRY_TIMES, r1), [ResponseAck(c.id, ack)])
  }

  predicate IsPiece(c: Call, e: Event) {
    e.Arrived? && e.p.h.id == c.id && e.p.h.phase.Response? && e.p.h.kind.RequestSend?
  }

  /** Bitmap and buffer have the sizes the object says they have. */
  predicate Sound(s: Client) { s.PhaseTwo? ==> IncomingOk(s.resp) }

  /** The pool gives a buffer of the size it is asked for. */
  predicate Supplied(c: Call, e: Event, memory: seq<byte>) { IsPiece(c, e) ==> |memory| == e.p.h.total }

  function PhaseTwoStep(c: Call, s: Client, e: Event, memory: seq<byte>): (Client, seq<Packet>)
    requires s.PhaseTwo? && Sound(s) && Supplied(c, e, memory)
  {
    match e
    case Unparsable => (s, [])
    case TimedOut =>
      (if s.tries <= 1 then Finished(NetworkTimeout) else PhaseTwo(s.tries - 1, s.resp),
       [ResponseHeartbeat(c.id, TimedOutRequestHeartbeat)])
    case Arrived(p) =>
      if p.h.id != c.id then (s, [])
      else if p.h.phase.Request? then (PhaseTwo(TRY_TIMES, s.resp), [])
      else if p.h.kind.RequestSend? then OnPiece(c, s.resp, p, memory)
      else
        (PhaseTwo(TRY_TIMES, s.resp),
         if p.h.kind.RequestACK? then [ResponseAck(c.id, if s.resp.started then AckNumber(s.resp.bits) else 0)]
         else if p.h.kind.TimedOutRequestHeartbeat? then [ResponseHeartbeat(c.id, TimedOutResponseHeartbeat)]
         else [])
  }

  /** A receive, in either phase. */
  function OnEvent(c: Call, s: Client, e: Event, memory: seq<byte>): (Client, seq<Packet>)
    requires (s.Await? || s.PhaseTwo?) && Sound(s) && Supplied(c, e, memory)
  {
    if s.Await? then PhaseOne(c, s, e) else PhaseTwoStep(c, s, e, memory)
  }

  // ---- Whole calls over a script of receives ----

  /** What the pool hands out for a given size. */
  type Pool = nat -> seq<byte>

  ghost predicate PoolOk(pool: Pool) { forall n :: |pool(n)| == n }

  function MemoryFor(e: Event, pool: Pool): seq<byte> { if e.Arrived? then pool(e.p.h.total) else [] }

  /** The next receive: the script's, or a time-out once it has run out. */
  function Head(inbox: seq<Event>): Event { if inbox == [] then TimedOut else inbox[0] }

  function Rest(inbox: seq<Event>): seq<Event> { if inbox == [] then [] else inbox[1..] }

  /** Silence costs tries, so a run that receives nothing more comes to an end. */
  function Tries(s: Client): nat {
    match s
    case Finished(_) => 0
    case PhaseTwo(tries, _) => tries
    case Top(_, _, tries) => tries + TRY_TIMES
    case Await(_, _, _, _, tries) => tries + TRY_TIMES
  }

  function Rank(s: Client): nat { if s.Top? then 1 else if s.Await? && s.got != 0 then 2 else 0 }

  predicate Trying(s: Client) { s.Finished? || 0 < s.tries }

  lemma EnterRoundProgress(c: Call, s: Client)
    requires s.Top? && Trying(s)
    ensures var s1 := EnterRound(c, s).0;
      Trying(s1) && Sound(s1) && (Tries(s1) < Tries(s) || (Tries(s1) == Tries(s) && Rank(s1) < Rank(s)))
  {}

  lemma OnEventProgress(c: Call, s: Client, e: Event, memory: seq<byte>)
    requires (s.Await? || s.PhaseTwo?) && Trying(s) && Sound(s) && Supplied(c, e, memory)
    ensures var s1 := OnEvent(c, s, e, memory).0;
      && Trying(s1) && Sound(s1)
      && (e.TimedOut? ==> Tries(s1) < Tries(s) || (Tries(s1) == Tries(s) && Rank(s1) < Rank(s)))
  {}

  /** A run of the machine: the outcome and everything that was sent. */
  ghost function Run(c: Call, s: Client, inbox: seq<Event>, pool: Pool, sent: seq<Packet>): (Outcome, seq<Packet>)
    requires Trying(s) && Sound(s) && PoolOk(pool)
    decreases |inbox|, Tries(s), Rank(s)
  {
    if s.Finished? then (s.outcome, sent)
    else if s.Top? then
      EnterRoundProgress(c, s);
      var (s1, out) := EnterRound(c, s);
      Run(c, s1, inbox, pool, sent + out)
    else
      var e := Head(inbox);
      OnEventProgress(c, s, e, MemoryFor(e, pool));
      var (s1, out) := OnEvent(c, s, e, MemoryFor(e, pool));
      Run(c, s1, Rest(inbox), pool, sent + out)
  }

  // ---- The loops of `request` ----

  lemma PiecesBelow(c: Call)
    ensures Pieces16(c) <= PieceCount(|c.m|)
  {}

  method SendWindow(c: Call, ack: nat, end: nat) returns (sent: seq<Packet>)
    ensures sent == Window(c, ack, end)
  {
    sent := [];
    PiecesBelow(c);
    var i := ack;
    while i < end && i < Pieces16(c)
      invariant sent + Window(c, i, end) == Window(c, ack, end)
      decreases end - i
    {
      sent := sent + [DataPacket(c, i)];
      i := i + 1;
    }
  }

  /** The inner loop of phase one and the count of tries behind it. */
  method Round(c: Call, ack0: nat, end: nat, tries0: nat, inbox: seq<Event>, pool: Pool, sent0: seq<Packet>)
    returns (ended: Option<Outcome>, ack: nat, got: nat, needTry: nat, rest: seq<Event>, sent: seq<Packet>)
    requires 0 < tries0 && PoolOk(pool)
    ensures var result := Run(c, Continue(c, ack0, end, ack0, 0, tries0), inbox, pool, sent0);
      && (ended.Some? ==> result == (ended.value, sent))
      && (ended.None? ==> 0 < needTry && result == Run(c, Top(ack, got, needTry), rest, pool, sent))
    ensures ended.None? ==> |rest| < |inbox| || (rest == inbox && needTry < tries0)
  {
    ghost var result := Run(c, Continue(c, ack0, end, ack0, 0, tries0), inbox, pool, sent0);
    ack, got, needTry, rest, sent := ack0, 0, tries0, inbox, sent0;
    var j, stop := ack, false;
    while !stop && j < end && j < Pieces16(c)
      invariant 0 < needTry && |rest| <= |inbox|
      invariant if got == 0 then needTry == tries0 else |rest| < |inbox|
      invariant rest == inbox || |rest| < |inbox|
      invariant Run(c, if stop then EndRound(ack, got, needTry) else Continue(c, ack, end, j, got, needTry), rest, pool, sent) == result
      decreases !stop, end - j
    {
      var e := Head(rest);
      ghost var was, out := Await(ack, end, j, got, needTry), PhaseOne(c, Await(ack, end, j, got, needTry), e).1;
      OnEventProgress(c, was, e, MemoryFor(e, pool));
      assert e.Arrived? || e.Unparsable? ==> rest != [];
      rest := Rest(rest);
      match e {
        case TimedOut =>
          sent := sent + [AskForAck(c)];
          stop := true;
        case Unparsable =>
          assert sent + [] == sent;
          return Some(CannotParse), ack, got, needTry, rest, sent;
        case Arrived(p) =>
          assert sent + [] == sent;
          if p.h.id == c.id {
            got, needTry := got + 1, TRY_TIMES;
            if p.h.phase.Response? {
              ack := Pieces16(c);
            } else if p.h.kind.ReceiverACK? {
              if p.h.ack > ack { ack := p.h.ack; }
              if ack == Pieces16(c) { stop := true; }
            } else if p.h.kind.TheServerResourcesExhausted? {
              return Some(ServerExhausted), ack, got, needTry, rest, sent;
            }
          }
          j := j + 1;
      }
    }
    ended := None;
    if got == 0 {
      if needTry <= 1 { ended := Some(NetworkTimeout); } else { needTry := needTry - 1; }
    }
  }

  /** Phase two. */
  method AwaitResponse(c: Call, inbox: seq<Event>, pool: Pool, sent0: seq<Packet>) returns (outcome: Outcome, sent: seq<Packet>)
    requires PoolOk(pool)
    ensures Run(c, PhaseTwo(TRY_TIMES, NOTHING), inbox, pool, sent0) == (outcome, sent)
  {
    ghost var result := Run(c, PhaseTwo(TRY_TIMES, NOTHING), inbox, pool, sent0);
    var response := new ResponseData();
    var tries, rest := TRY_TIMES, inbox;
    sent := sent0;
    while true
      invariant response.Valid() && fresh(response) && fresh(response.data) && 0 < tries
      invariant Run(c, PhaseTwo(tries, response.Abs()), rest, pool, sent) == result
      decreases |rest|, tries
    {
      var e := Head(rest);
      ghost var was := PhaseTwo(tries, response.Abs());
      OnEventProgress(c, was, e, MemoryFor(e, pool));
      rest := Rest(rest);
      assert sent + [] == sent;
      match e {
        case TimedOut =>
          sent := sent + [ResponseHeartbeat(c.id, TimedOutRequestHeartbeat)];
          if tries <= 1 { return NetworkTimeout, sent; }
          tries := tries - 1;
        case Unparsable =>
        case Arrived(p) =>
          if p.h.id == c.id {
            tries := TRY_TIMES;
            if p.h.phase.Response? {
              if p.h.kind.RequestSend? {
                var reach, ack := TakePiece(response, p, pool(p.h.total));
                if reach.Refused? { return PieceRefused, sent; }
                if reach.Beyond? { return Undefined, sent; }
                sent := sent + [ResponseAck(c.id, ack)];
                if ack == response.pieceCount { return Success(response.data[..]), sent; }
              } else if p.h.kind.RequestACK? {
                var ack := 0;
                if response.isInitial { ack := response.GetAckNumber(); }
                sent := sent + [ResponseAck(c.id, ack)];
              } else if p.h.kind.TimedOutRequestHeartbeat? {
                sent := sent + [ResponseHeartbeat(c.id, TimedOutResponseHeartbeat)];
              }
            }
          }
      }
    }
  }

  /** initialize, copy unless the piece is there, set its bit, and report the prefix. */
  method TakePiece(response: ResponseData, p: Packet, memory: seq<byte>) returns (reach: Reach, ack: nat)
    requires response.Valid() && |memory| == p.h.total
    modifies response, response.data
    ensures response.Valid() && response.isInitial && (response.data == old(response.data) || fresh(response.data))
    ensures IncomingOk(Sized(old(response.Abs()), p, memory)) && reach == PieceReach(Sized(old(response.Abs()), p, memory), p)
    ensures reach.Within? ==> response.Abs() == Taken(Sized(old(response.Abs()), p, memory), p)
    ensures reach.Within? ==> ack == AckNumber(response.pieceState) && response.Abs().bits == response.pieceState
  {
    response.Initialize(p.h.id, p.h.count, p.h.total, memory);
    assert response.Abs() == Sized(old(response.Abs()), p, memory);
    ack := 0;
    var there: bool;
    reach, there := response.GetPieceState(p.h.order);
    if !reach.Within? { return; }
    if !there {
      if |p.body| < p.h.size || response.data.Length < PIECE_LIMIT * p.h.order + p.h.size { return Beyond, 0; }
      response.CopyPiece(PIECE_LIMIT * p.h.order, S.Payload(p));
    }
    reach, ack := response.SetPieceState(p.h.order, true);
  }

  /** The part of `request` between the middleware's ClientOut and ClientIn. */
  method Request(c: Call, inbox: seq<Event>, pool: Pool) returns (outcome: Outcome, sent: seq<Packet>)
    requires PoolOk(pool)
    ensures Run(c, START, inbox, pool, []) == (outcome, sent)
  {
    ghost var result := Run(c, START, inbox, pool, []);
    var pieceCount := Pieces16(c);
    var times := SendCount(pieceCount);
    var ack: nat, needTry: nat, got: nat := 0, TRY_TIMES, 1;
    var rest := inbox;
    sent := [];
    while ack != pieceCount
      invariant 0 < needTry && Run(c, Top(ack, got, needTry), rest, pool, sent) == result
      decreases |rest|, needTry
    {
      var end := (ack + times) % WORD16;
      EnterRoundProgress(c, Top(ack, got, needTry));
      var window: seq<Packet> := [];
      if got != 0 { window := SendWindow(c, ack, end); }
      sent := sent + window;
      var ended: Option<Outcome>;
      ended, ack, got, needTry, rest, sent := Round(c, ack, end, needTry, rest, pool, sent);
      if ended.Some? { return ended.value, sent; }
    }
    EnterRoundProgress(c, Top(ack, got, needTry));
    assert sent + [] == sent;
    outcome, sent := AwaitResponse(c, rest, pool, sent);
  }
}
