/** The middleware channel: every service transforms data on its way in and on its way out. The last
    service is the router; the client's side leaves it out. */
module Middleware {

  import opened Bytes

  /** A service's two directions. */
  datatype Service = Service(inward: seq<byte> -> seq<byte>, outward: seq<byte> -> seq<byte>)

  /** First service first. */
  function InThrough(services: seq<Service>, data: seq<byte>): seq<byte> {
    if services == [] then data else InThrough(services[1..], services[0].inward(data))
  }

  /** Last service first. */
  function OutThrough(services: seq<Service>, data: seq<byte>): seq<byte> {
    if services == [] then data else services[0].outward(OutThrough(services[1..], data))
  }

  /** The services the client uses. */
  function ClientSide(services: seq<Service>): seq<Service> {
    if |services| > 1 then services[..|services| - 1] else []
  }

  ghost predicate Undoes(s: Service) { forall d :: s.inward(s.outward(d)) == d }

  ghost predicate SendsUnchanged(s: Service) { forall d :: s.outward(d) == d }

  /** Each service before the last undoes its own output, and the last one sends data out unchanged. */
  ghost predicate ChannelOk(services: seq<Service>) {
    && services != []
    && (forall i :: 0 <= i < |services| - 1 ==> Undoes(services[i]))
    && SendsUnchanged(services[|services| - 1])
  }

  /** In order one way and in reverse order the other way, the chain undoes itself. */
  lemma {:induction false} ChainUndoes(services: seq<Service>, data: seq<byte>)
    requires forall i :: 0 <= i < |services| ==> Undoes(services[i])
    ensures InThrough(services, OutThrough(services, data)) == data
  {
    if services != [] {
      assert Undoes(services[0]);
      ChainUndoes(services[1..], data);
    }
  }

  lemma {:induction false} OutAppend(a: seq<Service>, s: Service, data: seq<byte>)
    ensures OutThrough(a + [s], data) == OutThrough(a, s.outward(data))
  {
    if a == [] {
      assert a + [s] == [s];
      assert OutThrough([s][1..], data) == data;
    } else {
      assert (a + [s])[1..] == a[1..] + [s];
      OutAppend(a[1..], s, data);
    }
  }

  lemma {:induction false} InAppend(a: seq<Service>, s: Service, data: seq<byte>)
    ensures InThrough(a + [s], data) == s.inward(InThrough(a, data))
  {
    if a == [] {
      assert a + [s] == [s];
      assert InThrough([s][1..], s.inward(data)) == s.inward(data);
    } else {
      assert (a + [s])[1..] == a[1..] + [s];
      InAppend(a[1..], s, a[0].inward(data));
    }
  }

  /** What the client takes in is what went out on the server, before or after the router. */
  lemma ClientUndoesServer(services: seq<Service>, data: seq<byte>)
    requires ChannelOk(services)
    ensures InThrough(ClientSide(services), OutThrough(services, data)) == data
  {
    var n := |services| - 1;
    assert services == services[..n] + [services[n]];
    OutAppend(services[..n], services[n], data);
    if n == 0 { assert services[..n] == []; }
    ChainUndoes(ClientSide(services), data);
  }

  /** The server's first stage undoes what the client's last stage did. */
  lemma ServerUndoesClient(services: seq<Service>, data: seq<byte>)
    requires ChannelOk(services)
    ensures InThrough(ClientSide(services), OutThrough(ClientSide(services), data)) == data
  {
    ChainUndoes(ClientSide(services), data);
  }

  class MiddlewareChannel {
    var services: seq<Service>

    constructor ()
      ensures services == []
    {
      services := [];
    }

    method In(data: seq<byte>) returns (temp: seq<byte>)
      ensures temp == InThrough(services, data)
    {
      temp := data;
      var i := 0;
      while i < |services|
        invariant 0 <= i <= |services| && InThrough(services[i..], temp) == InThrough(services, data)
      {
        temp := services[i].inward(temp);
        i := i + 1;
      }
    }

    method Out(data: seq<byte>) returns (temp: seq<byte>)
      ensures temp == OutThrough(services, data)
    {
      temp := data;
      var i := |services|;
      while i > 0
        invariant 0 <= i <= |services| && temp == OutThrough(services[i..], data)
      {
        assert services[i - 1..][1..] == services[i..];
        i := i - 1;
        temp := services[i].outward(temp);
      }
    }

    method ClientIn(data: seq<byte>) returns (temp: seq<byte>)
      ensures temp == InThrough(ClientSide(services), data)
    {
      temp := data;
      if |services| > 1 {
        ghost var side := ClientSide(services);
        var i := 0;
        while i < |services| - 1
          invariant 0 <= i <= |services| - 1 && InThrough(side[i..], temp) == InThrough(side, data)
        {
          temp := services[i].inward(temp);
          i := i + 1;
        }
      }
    }

    method ClientOut(data: seq<byte>) returns (temp: seq<byte>)
      ensures temp == OutThrough(ClientSide(services), data)
    {
      temp := data;
      if |services| > 1 {
        ghost var side := ClientSide(services);
        var i := |services| - 2;
        while i >= 0
          invariant -1 <= i <= |services| - 2 && temp == OutThrough(side[i + 1..], data)
        {
          assert side[i..][1..] == side[i + 1..];
          temp := services[i].outward(temp);
          i := i - 1;
        }
      }
    }
  }
}
