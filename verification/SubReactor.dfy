/** The server side of SR2P: what one datagram does to the record, the known ids and the response of
    its message, on both receive paths, and the reactor that keeps these for all messages. */
module SubReactor {

  import opened Wrappers
  import opened Bytes
  import opened Protocol
  import opened Pieces

  datatype Packet = Packet(h: Header, body: seq<byte>)

  /** `loop` reads from a connection's own socket; `dealWithNewConnection` takes datagrams handed over
      by the main reactor. */
  datatype Path = InLoop | OnNewConnection

  /** What the server keeps for one message: the record of the request, whether its id is in the
      connection's list, and the response. */
  datatype Slot = Slot(rec: Option<Record>, known: bool, resp: Option<Outgoing>)

  /** What receiving a datagram leads to; `handed` is the data given to the handler. */
  datatype Effect = Effect(slot: Slot, replies: seq<Packet>, handed: Option<seq<byte>>)

  // ---- Packets the server sends ----

  /** These control packets all leave with phase Request. */
  function Ack(id: nat, n: nat): Packet { Packet(Fresh(id, 0).(kind := ReceiverACK, ack := n), []) }

  function Reset(id: nat): Packet { Packet(Fresh(id, 0).(kind := StateReset), []) }

  function Heartbeat(id: nat): Packet { Packet(Fresh(id, 0).(kind := TimedOutResponseHeartbeat), []) }

  function ResponsePiece(id: nat, r: Outgoing): (p: Packet)
    requires r.ack < r.count && PIECE_LIMIT * r.ack + OutSize(r) <= |r.data|
  {
    var size := OutSize(r);
    Packet(Fresh(id, r.total).(phase := Response, kind := RequestSend, order := r.ack, size := size),
           r.data[PIECE_LIMIT * r.ack..PIECE_LIMIT * r.ack + size])
  }

  function OutSize(r: Outgoing): nat { if r.ack == r.count - 1 then LastPieceSize(r.total) else PIECE_LIMIT }

  /** Stop and wait: the one piece behind the acknowledged prefix, if any is left. */
  function NextPiece(id: nat, r: Outgoing): seq<Packet>
    requires SendOk(r)
  {
    if r.ack < r.count then [ResponsePiece(id, r)] else []
  }

  predicate SendOk(r: Outgoing) { r.ack < r.count ==> PIECE_LIMIT * r.ack + OutSize(r) <= |r.data| }

  // ---- Phase one ----

  /** What memcpy takes from a datagram. */
  function Payload(p: Packet): (r: seq<byte>)
    requires p.h.size <= |p.body|
    ensures p.h.size == |p.body| ==> r == p.body
  {
    p.body[..p.h.size]
  }

  /** The piece is in the datagram and lies within the record's bitmap and buffer. */
  predicate PieceOk(count: nat, total: nat, p: Packet) {
    p.h.order < count && p.h.size <= |p.body| && p.h.standard * p.h.order + p.h.size <= total
  }

  predicate RecordOk(r: Record) { |r.bits| == r.count && |r.data| == r.total }

  function PieceReach(count: nat, total: nat, p: Packet): Reach {
    if p.h.order > count then Refused else if PieceOk(count, total, p) then Within else Beyond
  }

  /** What a data packet touches: a duplicate is not copied. */
  function DataReach(slot: Slot, p: Packet): Reach
    requires slot.rec.Some? ==> RecordOk(slot.rec.value)
  {
    if slot.rec.None? then PieceReach(p.h.count, p.h.total, p)
    else if p.h.order < slot.rec.value.count && slot.rec.value.bits[p.h.order] then Within
    else PieceReach(slot.rec.value.count, slot.rec.value.total, p)
  }

  predicate ReceiveOk(slot: Slot, p: Packet) {
    (slot.rec.Some? ==> RecordOk(slot.rec.value)) && DataReach(slot, p).Within?
  }

  function Stored(r: Record, p: Packet): Record
    requires RecordOk(r) && PieceOk(r.count, r.total, p)
  {
    r.(bits := r.bits[p.h.order := true], data := StoreAt(r.data, p.h.standard * p.h.order, Payload(p)))
  }

  /** A fresh record over uninitialised memory, with the first piece in it. */
  function NewRecord(p: Packet, memory: seq<byte>): Record
    requires |memory| == p.h.total && PieceOk(p.h.count, p.h.total, p)
  {
    Stored(Record(p.h.count, p.h.total, AllFalse(p.h.count), false, memory), p)
  }

  /** The record after a data packet, and the number that is acknowledged: for a duplicate the loop
      answers the current prefix, the other path answers zero. */
  function Received(path: Path, slot: Slot, p: Packet, memory: seq<byte>): (Record, nat)
    requires ReceiveOk(slot, p) && |memory| == p.h.total
  {
    if slot.rec.None? then
      var r := NewRecord(p, memory);
      (r, AckNumber(r.bits))
    else
      var r := slot.rec.value;
      if !r.bits[p.h.order] then (Stored(r, p), AckNumber(Stored(r, p).bits))
      else (r, if path.InLoop? then AckNumber(r.bits) else 0)
  }

  /** A data packet: store, acknowledge, and hand over when the prefix is the whole. */
  function OnData(path: Path, slot: Slot, p: Packet, memory: seq<byte>): Effect
    requires ReceiveOk(slot, p) && |memory| == p.h.total
  {
    var (r, ack) := Received(path, slot, p, memory);
    var replies := [Ack(p.h.id, ack)];
    if ack == p.h.count then
      Effect(slot.(rec := Some(r.(triggered := true)), known := true), replies, if r.triggered then None else Some(r.data))
    else Effect(slot.(rec := Some(r)), replies, None)
  }

  function OnRequestAck(slot: Slot, p: Packet): Effect {
    Effect(slot, [if slot.rec.Some? then Ack(p.h.id, AckNumber(slot.rec.value.bits)) else Reset(p.h.id)], None)
  }

  function OnHeartbeat(slot: Slot, p: Packet): Effect {
    Effect(slot, [if slot.rec.Some? then Heartbeat(p.h.id) else Reset(p.h.id)], None)
  }

  // ---- Phase two ----

  function Acknowledged(r: Outgoing, n: nat): Outgoing { if r.ack < n then r.(ack := n) else r }

  function OnResponsePhase(slot: Slot, p: Packet): Effect
    requires slot.resp.Some? ==> SendOk(slot.resp.value) && SendOk(Acknowledged(slot.resp.value, p.h.ack))
  {
    if !slot.known then Effect(slot, [Reset(p.h.id)], None)
    else if slot.resp.None? then Effect(slot, [Heartbeat(p.h.id)], None)
    else if p.h.kind.ReceiverACK? then
      var r := Acknowledged(slot.resp.value, p.h.ack);
      Effect(slot.(resp := Some(r)), if r.ack == r.count then [] else NextPiece(p.h.id, r), None)
    else if p.h.kind.TimedOutRequestHeartbeat? then Effect(slot, NextPiece(p.h.id, slot.resp.value), None)
    else Effect(slot, [], None)
  }

  /** A datagram that could be parsed, on either path. */
  function Receive(path: Path, slot: Slot, p: Packet, memory: seq<byte>): Effect
    requires ReceivesSafely(path, slot, p) && |memory| == p.h.total
  {
    match path
    case OnNewConnection =>
      if p.h.kind.RequestSend? then OnData(path, slot, p, memory)
      else if p.h.kind.RequestACK? then OnRequestAck(slot, p)
      else OnHeartbeat(slot, p)
    case InLoop =>
      if p.h.phase.Response? then OnResponsePhase(slot, p)
      else if p.h.kind.RequestSend? then OnData(path, slot, p, memory)
      else if p.h.kind.RequestACK? then OnRequestAck(slot, p)
      else if p.h.kind.TimedOutRequestHeartbeat? then OnHeartbeat(slot, p)
      else Effect(slot, [Reset(p.h.id)], None)
  }

  /** Whether the path takes the datagram for a data packet. */
  predicate IsData(path: Path, p: Packet) { p.h.kind.RequestSend? && (path.OnNewConnection? || p.h.phase.Request?) }

  /** The accesses the code makes for this datagram are within bounds. */
  predicate ReceivesSafely(path: Path, slot: Slot, p: Packet) {
    && (IsData(path, p) ==> ReceiveOk(slot, p))
    && (path.InLoop? && p.h.phase.Response? && slot.resp.Some? ==>
          SendOk(slot.resp.value) && SendOk(Acknowledged(slot.resp.value, p.h.ack)))
  }

  /** The handler's result becomes the response; only a response that replaces none is announced. */
  function Installed(id: nat, slot: Slot, data: seq<byte>): Effect {
    var r := Outgoing(PieceCount(|data|) % WORD16, |data|, 0, data);
    SendAlwaysOk(r);
    Effect(slot.(resp := Some(r)), if slot.resp.None? then NextPiece(id, r) else [], None)
  }

  /** A response as it is installed, whatever has been acknowledged since. */
  predicate OutgoingOk(r: Outgoing) { r.total == |r.data| && r.count == PieceCount(|r.data|) % WORD16 }

  lemma SendAlwaysOk(r: Outgoing)
    requires OutgoingOk(r)
    ensures SendOk(r)
  {
    if r.ack < r.count { PiecesTile(|r.data|, r.ack); }
  }

  // ---- The reactor ----

  datatype Peer = Peer(ip: nat, port: nat)

  datatype Servlet = Servlet(id: nat, peer: Peer)

  datatype Connection = Connection(messages: seq<nat>, responses: map<nat, Outgoing>)

  ghost predicate ResponsesOk(c: Connection) { forall id :: id in c.responses ==> OutgoingOk(c.responses[id]) }

  lemma BothSendOk(r: Outgoing, n: nat)
    requires OutgoingOk(r)
    ensures SendOk(r) && SendOk(Acknowledged(r, n))
  {
    SendAlwaysOk(r);
    SendAlwaysOk(Acknowledged(r, n));
  }

  class SubReactor {
    var messages: map<Servlet, Record>
    var connections: map<Peer, Connection>

    ghost predicate Valid()
      reads this
    {
      && (forall key :: key in messages ==> RecordOk(messages[key]))
      && (forall peer :: peer in connections ==> ResponsesOk(connections[peer]))
    }

    ghost function SlotOf(key: Servlet): Slot
      reads this
    {
      var c := if key.peer in connections then connections[key.peer] else Connection([], map[]);
      Slot(if key in messages then Some(messages[key]) else None, key.id in c.messages,
           if key.id in c.responses then Some(c.responses[key.id]) else None)
    }

    /** Everything but this message is as it was. */
    twostate predicate OthersKept(key: Servlet)
      reads this
    {
      forall other: Servlet :: other != key ==> SlotOf(other) == old(SlotOf(other))
    }

    constructor ()
      ensures Valid() && forall key :: SlotOf(key) == Slot(None, false, None)
    {
      messages, connections := map[], map[];
    }

    /** What a datagram touches. */
    ghost function ReachOf(path: Path, peer: Peer, p: Packet): Reach
      requires Valid()
      reads this
    {
      if IsData(path, p) then DataReach(SlotOf(Servlet(p.h.id, peer)), p) else Within
    }

    /** One datagram on the loop's path. */
    method Loop(peer: Peer, p: Packet, memory: seq<byte>)
      returns (reach: Reach, replies: seq<Packet>, handed: Option<seq<byte>>)
      requires Valid() && peer in connections && |memory| == p.h.total
      modifies this
      ensures reach == old(ReachOf(InLoop, peer, p))
      ensures reach.Within? ==>
        var key := Servlet(p.h.id, peer);
        && old(ReceivesSafely(InLoop, SlotOf(key), p))
        && Effect(SlotOf(key), replies, handed) == Receive(InLoop, old(SlotOf(key)), p, memory)
      ensures reach.Refused? ==> messages == old(messages) && connections == old(connections)
      ensures !reach.Beyond? ==> Valid() && OthersKept(Servlet(p.h.id, peer))
    {
      var key := Servlet(p.h.id, peer);
      reach, handed := Within, None;
      if p.h.phase.Response? {
        replies := ResponsePhase(key, p);
      } else if p.h.kind.RequestSend? {
        reach, replies, handed := Data(InLoop, key, p, memory);
      } else if p.h.kind.RequestACK? {
        replies := if key in messages then [Ack(p.h.id, AckNumber(messages[key].bits))] else [Reset(p.h.id)];
      } else if p.h.kind.TimedOutRequestHeartbeat? {
        replies := if key in messages then [Heartbeat(p.h.id)] else [Reset(p.h.id)];
      } else {
        replies := [Reset(p.h.id)];
      }
    }

    /** One datagram of an accepted connection; a new connection starts with empty lists. */
    method DealWithNewConnection(peer: Peer, isNew: bool, p: Packet, memory: seq<byte>)
      returns (reach: Reach, replies: seq<Packet>, handed: Option<seq<byte>>)
      requires Valid() && (isNew <==> peer !in connections) && |memory| == p.h.total
      modifies this
      ensures reach == old(ReachOf(OnNewConnection, peer, p))
      ensures reach.Within? ==>
        var key := Servlet(p.h.id, peer);
        && old(ReceivesSafely(OnNewConnection, SlotOf(key), p))
        && Effect(SlotOf(key), replies, handed) == Receive(OnNewConnection, old(SlotOf(key)), p, memory)
      ensures reach.Refused? ==> forall key :: SlotOf(key) == old(SlotOf(key))
      ensures !reach.Beyond? ==> Valid() && OthersKept(Servlet(p.h.id, peer)) && peer in connections
    {
      if isNew { connections := connections[peer := Connection([], map[])]; }
      var key := Servlet(p.h.id, peer);
      reach, handed := Within, None;
      if p.h.kind.RequestSend? {
        reach, replies, handed := Data(OnNewConnection, key, p, memory);
      } else if p.h.kind.RequestACK? {
        replies := if key in messages then [Ack(p.h.id, AckNumber(messages[key].bits))] else [Reset(p.h.id)];
      } else {
        replies := if key in messages then [Heartbeat(p.h.id)] else [Reset(p.h.id)];
      }
    }

    method Data(path: Path, key: Servlet, p: Packet, memory: seq<byte>)
      returns (reach: Reach, replies: seq<Packet>, handed: Option<seq<byte>>)
      requires Valid() && key.peer in connections && key.id == p.h.id && |memory| == p.h.total
      modifies this
      ensures reach == old(DataReach(SlotOf(key), p)) && connections.Keys == old(connections.Keys)
      ensures reach.Within? ==>
        && old(ReceiveOk(SlotOf(key), p))
        && Effect(SlotOf(key), replies, handed) == OnData(path, old(SlotOf(key)), p, memory)
      ensures reach.Refused? ==> messages == old(messages) && connections == old(connections)
      ensures !reach.Beyond? ==> Valid() && OthersKept(key)
    {
      hide Stored, NewRecord;
      var ack: nat;
      reach, ack := StorePiece(path, key, p, memory);
      replies, handed := [], None;
      if !reach.Within? { return; }
      replies := [Ack(p.h.id, ack)];
      if ack == p.h.count {
        var c := connections[key.peer];
        connections := connections[key.peer := c.(messages := c.messages + [p.h.id])];
        if !messages[key].triggered {
          handed := Some(messages[key].data);
          messages := messages[key := messages[key].(triggered := true)];
        }
      }
    }

    method StorePiece(path: Path, key: Servlet, p: Packet, memory: seq<byte>) returns (reach: Reach, ack: nat)
      requires Valid() && key.id == p.h.id && |memory| == p.h.total
      modifies this`messages
      ensures reach == old(DataReach(SlotOf(key), p))
      ensures reach.Within? ==>
        && key in messages && old(ReceiveOk(SlotOf(key), p))
        && (messages[key], ack) == Received(path, old(SlotOf(key)), p, memory)
        && messages == old(messages)[key := messages[key]]
      ensures reach.Refused? ==> messages == old(messages)
      ensures !reach.Beyond? ==> Valid()
    {
      ack := 0;
      if key in messages {
        var r := messages[key];
        if p.h.order > r.count { return Refused, 0; }
        if p.h.order == r.count { return Beyond, 0; }
        if !r.bits[p.h.order] {
          if !PieceOk(r.count, r.total, p) { return Beyond, 0; }
          messages := messages[key := Stored(r, p)];
          ack := FirstMissing(messages[key].bits);
        } else if path.InLoop? {
          ack := FirstMissing(r.bits);
        }
      } else {
        if p.h.order > p.h.count { return Refused, 0; }
        if !PieceOk(p.h.count, p.h.total, p) { return Beyond, 0; }
        messages := messages[key := NewRecord(p, memory)];
        ack := FirstMissing(messages[key].bits);
      }
      reach := Within;
    }

    method ResponsePhase(key: Servlet, p: Packet) returns (replies: seq<Packet>)
      requires Valid() && key.peer in connections && key.id == p.h.id && p.h.phase.Response?
      modifies this`connections
      ensures Valid() && old(ReceivesSafely(InLoop, SlotOf(key), p)) &&
        Effect(SlotOf(key), replies, None) == OnResponsePhase(old(SlotOf(key)), p)
      ensures OthersKept(key)
    {
      var c := connections[key.peer];
      if key.id !in c.messages {
        if key.id in c.responses { BothSendOk(c.responses[key.id], p.h.ack); }
        return [Reset(p.h.id)];
      }
      if key.id !in c.responses { return [Heartbeat(p.h.id)]; }
      var r := c.responses[key.id];
      BothSendOk(r, p.h.ack);
      replies := [];
      if p.h.kind.ReceiverACK? {
        if r.ack < p.h.ack { r := r.(ack := p.h.ack); }
        connections := connections[key.peer := c.(responses := c.responses[key.id := r])];
        if r.ack != r.count { replies := SendResponseDataToClient(key.id, r); }
      } else if p.h.kind.TimedOutRequestHeartbeat? {
        replies := SendResponseDataToClient(key.id, r);
      }
    }

    method SendResponseDataToClient(id: nat, r: Outgoing) returns (replies: seq<Packet>)
      requires OutgoingOk(r)
      ensures SendOk(r) && replies == NextPiece(id, r)
    {
      SendAlwaysOk(r);
      replies := [];
      var k := r.ack;
      while k < r.ack + 1 && k < r.count
        invariant r.ack <= k <= r.ack + 1
        invariant k > r.ack ==> r.ack < r.count
        invariant replies == if k == r.ack then [] else NextPiece(id, r)
      {
        replies := replies + [ResponsePiece(id, r)];
        k := k + 1;
      }
    }

    /** The timer task of triggerTask: insert_or_assign and announce. */
    method Install(key: Servlet, data: seq<byte>) returns (replies: seq<Packet>)
      requires Valid() && key.peer in connections
      modifies this`connections
      ensures Effect(SlotOf(key), replies, None) == Installed(key.id, old(SlotOf(key)), data)
      ensures Valid() && OthersKept(key)
    {
      var c := connections[key.peer];
      var r := Outgoing(PieceCount(|data|) % WORD16, |data|, 0, data);
      connections := connections[key.peer := c.(responses := c.responses[key.id := r])];
      replies := [];
      if key.id !in c.responses { replies := SendResponseDataToClient(key.id, r); }
    }

    /** judgeDelete: a record that has been idle too long is dropped. */
    method JudgeDelete(key: Servlet, idleTooLong: bool)
      requires Valid()
      modifies this`messages
      ensures SlotOf(key) == if idleTooLong then old(SlotOf(key)).(rec := None) else old(SlotOf(key))
      ensures Valid() && OthersKept(key)
    {
      if key in messages && idleTooLong { messages := map k | k in messages && k != key :: messages[k]; }
    }
  }
}
