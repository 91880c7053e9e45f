/** One SR2P call over a network that loses, repeats and reorders: the client, the server's slot for
    the call's message, and monotone sets of sent packets. */
module Sr2p {

  import opened Wrappers
  import opened Arithmetic
  import opened Bytes
  import opened Protocol
  import opened Pieces
  import opened SubReactor
  import I = Invoker

  type Client = I.Client
  type Event = I.Event

  /** The call, and which responses the server's side may compute from which request bytes. */
  datatype Env = Env(call: I.Call, serves: (seq<byte>, seq<byte>) -> bool)

  /** `jobs` is what the handler still works on, `results` what waits for the timer that installs it.
      Auxiliary: how many records were created and how many times data was handed to the handler, the
      longest prefix a record of the message ever had, the longest prefix the client ever had of a
      response, and every response installed so far. */
  datatype World = World(
    client: Client, slot: Slot, toServer: set<Packet>, toClient: set<Packet>,
    jobs: multiset<seq<byte>>, results: multiset<seq<byte>>,
    created: nat, handed: nat, reached: nat, clientReached: nat, installed: seq<seq<byte>>)

  datatype Step =
    | ClientEnters                                                   // top of the outer loop
    | ClientReceives(p: Packet, memory: seq<byte>)                   // a packet the server sent
    | ClientHears(e: Event)                                          // foreign, unparsable, or silence
    | ServerReceives(path: Path, p: Packet, memory: seq<byte>, accepted: bool)
    | HandlerReturns(data: seq<byte>, result: seq<byte>)
    | ResultInstalled(result: seq<byte>)
    | ResultLost(result: seq<byte>)
    | RecordExpires
    | ResponseExpires                                                // or its connection is closed

  function SetOf(ps: seq<Packet>): set<Packet> { set p | p in ps }

  function ClientGoes(w: World, r: (Client, seq<Packet>)): World {
    w.(client := r.0, toServer := w.toServer + SetOf(r.1))
  }

  /** The prefix of the response the client has after this packet. */
  function PrefixAfter(c: I.Call, s: Client, e: Event, memory: seq<byte>): nat
    requires I.Sound(s) && I.Supplied(c, e, memory)
  {
    if s.PhaseTwo? && I.IsPiece(c, e) && I.PieceReach(I.Sized(s.resp, e.p, memory), e.p).Within?
    then AckNumber(I.Taken(I.Sized(s.resp, e.p, memory), e.p).bits) else 0
  }

  function RecordPrefix(slot: Slot): nat { if slot.rec.Some? then AckNumber(slot.rec.value.bits) else 0 }

  /** The handler's pool may refuse a task; then it is lost. */
  function ServerGoes(w: World, e: Effect, accepted: bool): World {
    w.(slot := e.slot, toClient := w.toClient + SetOf(e.replies),
       jobs := if e.handed.Some? && accepted then w.jobs + multiset{e.handed.value} else w.jobs,
       created := if w.slot.rec.None? && e.slot.rec.Some? then w.created + 1 else w.created,
       handed := if e.handed.Some? then w.handed + 1 else w.handed,
       reached := Max(w.reached, RecordPrefix(e.slot)))
  }

  ghost predicate Enabled(env: Env, w: World, step: Step) {
    match step
    case ClientEnters => w.client.Top?
    case ClientReceives(p, memory) =>
      && (w.client.Await? || w.client.PhaseTwo?) && p in w.toClient
      && I.Sound(w.client) && |memory| == p.h.total
    case ClientHears(e) =>
      (w.client.Await? || w.client.PhaseTwo?) && I.Sound(w.client) && (e.Arrived? ==> e.p.h.id != env.call.id)
    case ServerReceives(path, p, memory, _) =>
      p in w.toServer && |memory| == p.h.total && ReceivesSafely(path, w.slot, p)
    case HandlerReturns(data, result) => data in w.jobs && env.serves(data, result)
    case ResultInstalled(result) => result in w.results
    case ResultLost(result) => result in w.results
    case RecordExpires => true
    case ResponseExpires => true
  }

  ghost function Do(env: Env, w: World, step: Step): World
    requires Enabled(env, w, step)
  {
    match step
    case ClientEnters => ClientGoes(w, I.EnterRound(env.call, w.client))
    case ClientReceives(p, memory) =>
      var e := I.Arrived(p);
      ClientGoes(w, I.OnEvent(env.call, w.client, e, memory))
        .(clientReached := Max(w.clientReached, PrefixAfter(env.call, w.client, e, memory)))
    case ClientHears(e) => ClientGoes(w, I.OnEvent(env.call, w.client, e, []))
    case ServerReceives(path, p, memory, accepted) => ServerGoes(w, Receive(path, w.slot, p, memory), accepted)
    case HandlerReturns(data, result) =>
      w.(jobs := w.jobs - multiset{data}, results := w.results + multiset{result})
    case ResultInstalled(result) =>
      var e := Installed(env.call.id, w.slot, result);
      w.(slot := e.slot, toClient := w.toClient + SetOf(e.replies), results := w.results - multiset{result},
         installed := w.installed + [result])
    case ResultLost(result) => w.(results := w.results - multiset{result})
    case RecordExpires => w.(slot := w.slot.(rec := None))
    case ResponseExpires => w.(slot := w.slot.(known := false, resp := None))
  }

  predicate Init(w: World) {
    && w.client == I.START && w.slot == Slot(None, false, None) && w.toServer == {} && w.toClient == {}
    && w.jobs == multiset{} && w.results == multiset{}
    && w.created == 0 && w.handed == 0 && w.reached == 0 && w.clientReached == 0 && w.installed == []
  }

  ghost predicate Next(env: Env, w: World, w': World) {
    exists step :: Enabled(env, w, step) && w' == Do(env, w, step)
  }

  ghost predicate IsRun(env: Env, run: seq<World>) {
    && run != [] && Init(run[0])
    && forall i :: 0 <= i < |run| - 1 ==> Next(env, run[i], run[i + 1])
  }

  /** Messages whose 16-bit fields are exact. */
  predicate CallOk(c: I.Call) { |c.m| < Pow256(4) && PieceCount(|c.m|) <= 65529 && c.id < Pow256(8) }
}
