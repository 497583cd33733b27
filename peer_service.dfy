/**
 * The transport adapter over the peer-to-peer library: one local peer
 * handle, the list of its data connections, and the notifications it
 * gives its client. Library events (peer open, incoming connection,
 * connection open/close) are methods the environment calls.
 */
module PeerService {
  import opened Wrappers
  import opened JsString
  import opened Messages

  /** The prefix used until `Initialize` is given another. */
  const InitialPrefix: string := "app-"

  /** Options handed unchanged to the peer library. */
  type PeerConfig = map<string, string>

  /** A data connection as the service sees it: its library id and whether it is open. */
  datatype Connection = Connection(connectionId: string, open: bool)

  /** The library peer: a host registered under `id`, or a joiner that will dial `hostId`. */
  datatype PeerHandle = HostPeer(id: string) | JoinerPeer(hostId: string)

  /** One `conn.send(data)`. */
  datatype Delivery = Delivery(connectionId: string, data: Message)

  /** `Math.floor(100000 + Math.random() * 900000)` for a draw `random` in [0, 1). */
  function RandomHostNumber(random: real): (n: int)
    requires 0.0 <= random < 1.0
    ensures 100000 <= n <= 999999
  {
    (100000.0 + random * 900000.0).Floor
  }

  /** The id a host registers: the prefix and the custom id, or the prefix and six random digits. */
  function HostId(prefix: string, customId: string, random: real): (id: string)
    requires 0.0 <= random < 1.0
    ensures customId != "" ==> id == prefix + customId
    ensures customId == "" ==>
      && |id| == |prefix| + 6
      && id[..|prefix|] == prefix
      && (forall k :: |prefix| <= k < |id| ==> IsDigit(id[k]))
      && 100000 <= DigitsValue(id[|prefix|..]) <= 999999
  {
    if customId != "" then prefix + customId
    else
      var n := RandomHostNumber(random);
      assert Pow10(5) == 100000 && Pow10(6) == 1000000;
      DecimalLength(n, 6);
      DecimalRoundTrip(n);
      assert (prefix + Decimal(n))[|prefix|..] == Decimal(n);
      prefix + Decimal(n)
  }

  /** What the host shows its user: the registered id with the prefix removed. */
  lemma HostIdShownWithoutPrefix(prefix: string, customId: string, random: real)
    requires 0.0 <= random < 1.0
    ensures customId != "" ==> ReplaceFirst(HostId(prefix, customId, random), prefix, "") == customId
    ensures customId == "" ==>
      var shown := ReplaceFirst(HostId(prefix, customId, random), prefix, "");
      |shown| == 6 && forall k :: 0 <= k < 6 ==> IsDigit(shown[k])
  {
    var id := HostId(prefix, customId, random);
    if customId != "" {
      StripLeadingPrefix(prefix, customId);
    } else {
      assert id == prefix + id[|prefix|..];
      StripLeadingPrefix(prefix, id[|prefix|..]);
    }
  }

  /** The connections whose `open` flag is set, in list order. */
  function OpenConnections(cs: seq<Connection>): (r: seq<Connection>)
    ensures |r| <= |cs|
    ensures forall c :: c in r ==> c.open
  {
    if cs == [] then []
    else (if cs[0].open then [cs[0]] else []) + OpenConnections(cs[1..])
  }

  /** Exactly the open connections of the list are kept. */
  lemma {:induction false} OpenConnectionsMembers(cs: seq<Connection>)
    ensures forall c :: c in OpenConnections(cs) <==> c in cs && c.open
  {
    if cs != [] {
      OpenConnectionsMembers(cs[1..]);
      assert cs == [cs[0]] + cs[1..];
    }
  }

  lemma {:induction false} OpenConnectionsAppend(a: seq<Connection>, b: seq<Connection>)
    ensures OpenConnections(a + b) == OpenConnections(a) + OpenConnections(b)
  {
    if a != [] {
      assert (a + b)[1..] == a[1..] + b;
      OpenConnectionsAppend(a[1..], b);
    } else {
      assert a + b == b;
    }
  }

  /** `connections.filter(c => c.connectionId !== id)`. */
  function WithoutConnection(cs: seq<Connection>, id: string): (r: seq<Connection>)
    ensures forall c :: c in r <==> c in cs && c.connectionId != id
  {
    if cs == [] then []
    else (if cs[0].connectionId != id then [cs[0]] else []) + WithoutConnection(cs[1..], id)
  }

  /** The kept connections keep their relative order: the filter distributes over concatenation. */
  lemma {:induction false} WithoutConnectionAppend(a: seq<Connection>, b: seq<Connection>, id: string)
    ensures WithoutConnection(a + b, id) == WithoutConnection(a, id) + WithoutConnection(b, id)
  {
    if a != [] {
      assert (a + b)[1..] == a[1..] + b;
      assert (a + b)[0] == a[0];
      WithoutConnectionAppend(a[1..], b, id);
      var head := if a[0].connectionId != id then [a[0]] else [];
      assert WithoutConnection(a + b, id) == head + WithoutConnection(a[1..] + b, id);
      assert WithoutConnection(a, id) == head + WithoutConnection(a[1..], id);
    } else {
      assert a + b == b;
    }
  }

  /** Closing an id that is not in the list leaves the list as it is. */
  lemma {:induction false} WithoutAbsentConnection(cs: seq<Connection>, id: string)
    requires forall c :: c in cs ==> c.connectionId != id
    ensures WithoutConnection(cs, id) == cs
  {
    if cs != [] {
      WithoutAbsentConnection(cs[1..], id);
      assert [cs[0]] + cs[1..] == cs;
    }
  }

  /** The library marks the connection with this id open before it reports the open event. */
  function MarkOpen(cs: seq<Connection>, id: string): (r: seq<Connection>)
    ensures |r| == |cs|
    ensures forall k :: 0 <= k < |cs| ==>
      r[k].connectionId == cs[k].connectionId
      && r[k].open == (cs[k].open || cs[k].connectionId == id)
  {
    if cs == [] then []
    else [if cs[0].connectionId == id then cs[0].(open := true) else cs[0]] + MarkOpen(cs[1..], id)
  }

  /** The ids of the connections, in order: every connection's id is listed, one per connection. */
  function ConnectionIds(cs: seq<Connection>): (r: seq<string>)
    ensures |r| == |cs|
    ensures forall c :: c in cs ==> c.connectionId in r
  {
    var r := seq(|cs|, k requires 0 <= k < |cs| => cs[k].connectionId);
    assert forall c :: c in cs ==> c.connectionId in r by {
      forall c | c in cs ensures c.connectionId in r {
        var k :| 0 <= k < |cs| && cs[k] == c;
        assert r[k] == c.connectionId;
      }
    }
    r
  }

  /**
   * One delivery of `data` to each connection of `cs`, in order: every
   * delivery carries `data`, and every connection of `cs` gets one.
   */
  function Deliveries(cs: seq<Connection>, data: Message): (r: seq<Delivery>)
    ensures |r| == |cs|
    ensures forall d :: d in r ==> d.data == data
    ensures forall c :: c in cs ==> Delivery(c.connectionId, data) in r
  {
    var r := seq(|cs|, k requires 0 <= k < |cs| => Delivery(cs[k].connectionId, data));
    assert forall c :: c in cs ==> Delivery(c.connectionId, data) in r by {
      forall c | c in cs ensures Delivery(c.connectionId, data) in r {
        var k :| 0 <= k < |cs| && cs[k] == c;
        assert r[k] == Delivery(c.connectionId, data);
      }
    }
    r
  }

  /** What `sendData` hands out, connection by connection, for a prefix of the list. */
  function Broadcast(cs: seq<Connection>, data: Message): seq<Delivery> {
    if cs == [] then []
    else Broadcast(cs[..|cs| - 1], data) + (if cs[|cs| - 1].open then [Delivery(cs[|cs| - 1].connectionId, data)] else [])
  }

  lemma {:induction false} BroadcastIsDeliveries(cs: seq<Connection>, data: Message)
    ensures Broadcast(cs, data) == Deliveries(OpenConnections(cs), data)
  {
    if cs != [] {
      var init, last := cs[..|cs| - 1], cs[|cs| - 1];
      var lastPart := if last.open then [Delivery(last.connectionId, data)] else [];
      calc {
        Broadcast(cs, data);
        Broadcast(init, data) + lastPart;
        { BroadcastIsDeliveries(init, data); }
        Deliveries(OpenConnections(init), data) + lastPart;
        { assert OpenConnections([last]) == (if last.open then [last] else []) + OpenConnections([]); }
        Deliveries(OpenConnections(init), data) + Deliveries(OpenConnections([last]), data);
        { DeliveriesAppend(OpenConnections(init), OpenConnections([last]), data); }
        Deliveries(OpenConnections(init) + OpenConnections([last]), data);
        { assert cs == init + [last]; OpenConnectionsAppend(init, [last]); }
        Deliveries(OpenConnections(cs), data);
      }
    }
  }

  lemma DeliveriesAppend(a: seq<Connection>, b: seq<Connection>, data: Message)
    ensures Deliveries(a + b, data) == Deliveries(a, data) + Deliveries(b, data)
  {
  }

  class Service {
    var peerPrefix: string
    var peerConfig: PeerConfig
    var peer: Option<PeerHandle>
    var connections: seq<Connection>
    var peerId: Option<string>
    /** Every `onConnectionChangeCallback(count)` made, oldest first. */
    var countLog: seq<nat>
    /** Every `conn.send(data)` made. */
    var sent: seq<Delivery>
    /** The ids of every connection `conn.close()` was called on. */
    var closed: seq<string>
    /** Every peer handle `peer.destroy()` was called on. */
    var destroyed: seq<PeerHandle>

    constructor ()
      ensures peerPrefix == InitialPrefix && peerConfig == map[]
      ensures peer == None && connections == [] && peerId == None
      ensures countLog == [] && sent == [] && closed == [] && destroyed == []
    {
      peerPrefix, peerConfig := InitialPrefix, map[];
      peer, connections, peerId := None, [], None;
      countLog, sent, closed, destroyed := [], [], [], [];
    }

    /** `initialize(prefix, config)`: a non-empty prefix replaces the old one; the config always does. */
    method Initialize(prefix: string, config: PeerConfig)
      modifies this`peerPrefix, this`peerConfig
      ensures peerPrefix == (if prefix != "" then prefix else old(peerPrefix))
      ensures peerConfig == config
    {
      if prefix != "" {
        peerPrefix := prefix;
      }
      peerConfig := config;
    }

    /**
     * `destroyPeer()`: close every connection, empty the list and report 0
     * (only if there was something to close), then destroy the peer.
     */
    method DestroyPeer()
      modifies this`connections, this`countLog, this`closed, this`peer, this`destroyed
      ensures connections == [] && peer == None
      ensures closed == old(closed) + ConnectionIds(old(connections))
      ensures countLog == old(countLog) + (if |old(connections)| > 0 then [0] else [])
      ensures destroyed == old(destroyed) + (if old(peer).Some? then [old(peer).value] else [])
    {
      if |connections| > 0 {
        var i := 0;
        while i < |connections|
          invariant 0 <= i <= |connections|
          invariant connections == old(connections)
          invariant closed == old(closed) + ConnectionIds(connections[..i])
          modifies this`closed
        {
          closed := closed + [connections[i].connectionId];
          i := i + 1;
        }
        assert connections[..i] == connections;
        connections := [];
        countLog := countLog + [0];
      }
      if peer.Some? {
        destroyed := destroyed + [peer.value];
        peer := None;
      }
    }

    /** Destroying twice reports at most one 0: the second call finds nothing to close. */
    method DestroyPeerTwice()
      modifies this`connections, this`countLog, this`closed, this`peer, this`destroyed
      ensures connections == [] && peer == None
      ensures countLog == old(countLog) + (if |old(connections)| > 0 then [0] else [])
    {
      DestroyPeer();
      ghost var afterFirst := countLog;
      DestroyPeer();
      assert countLog == afterFirst;
    }

    /** `createHost(..., customId)`: tear down the old session, then register the host id. */
    /**
     * What `destroyPeer()` leaves between two states: every connection that
     * was live is closed and gone, a count of 0 is reported iff there was
     * one, the old peer is destroyed, and the prefix, config and sends are
     * kept.
     */
    twostate predicate TornDown()
      reads this
    {
      && connections == []
      && closed == old(closed) + ConnectionIds(old(connections))
      && countLog == old(countLog) + (if |old(connections)| > 0 then [0] else [])
      && destroyed == old(destroyed) + (if old(peer).Some? then [old(peer).value] else [])
      && peerPrefix == old(peerPrefix) && peerConfig == old(peerConfig) && sent == old(sent)
    }

    method CreateHost(customId: string, random: real)
      requires 0.0 <= random < 1.0
      modifies this
      ensures peerId == Some(HostId(old(peerPrefix), customId, random))
      ensures peer == Some(HostPeer(HostId(old(peerPrefix), customId, random)))
      ensures connections == []
      ensures closed == old(closed) + ConnectionIds(old(connections))
      ensures countLog == old(countLog) + (if |old(connections)| > 0 then [0] else [])
      ensures destroyed == old(destroyed) + (if old(peer).Some? then [old(peer).value] else [])
      ensures peerPrefix == old(peerPrefix) && peerConfig == old(peerConfig) && sent == old(sent)
    {
      DestroyPeer();
      var id := HostId(peerPrefix, customId, random);
      peerId := Some(id);
      peer := Some(HostPeer(id));
    }

    /** `joinHost(hostId, ...)`: tear down the old session, then create an anonymous peer. */
    method JoinHost(hostId: string)
      modifies this
      ensures peer == Some(JoinerPeer(hostId))
      ensures connections == []
      ensures closed == old(closed) + ConnectionIds(old(connections))
      ensures countLog == old(countLog) + (if |old(connections)| > 0 then [0] else [])
      ensures destroyed == old(destroyed) + (if old(peer).Some? then [old(peer).value] else [])
      ensures peerPrefix == old(peerPrefix) && peerConfig == old(peerConfig)
      ensures peerId == old(peerId) && sent == old(sent)
    {
      DestroyPeer();
      peer := Some(JoinerPeer(hostId));
    }

    /** The host peer's `open` event: the id handed to `onOpen`, without the prefix. */
    method HostOpen() returns (shown: string)
      requires peer.Some? && peer.value.HostPeer?
      ensures shown == ReplaceFirst(peer.value.id, peerPrefix, "")
      ensures forall x :: peer.value.id == peerPrefix + x ==> shown == x
    {
      shown := ReplaceFirst(peer.value.id, peerPrefix, "");
      forall x | peer.value.id == peerPrefix + x ensures shown == x {
        StripLeadingPrefix(peerPrefix, x);
      }
    }

    /** The host peer's `connection` event: append the connection and report the new count. */
    method IncomingConnection(conn: Connection)
      requires peer.Some? && peer.value.HostPeer?
      modifies this`connections, this`countLog
      ensures connections == old(connections) + [conn]
      ensures countLog == old(countLog) + [|old(connections)| + 1]
    {
      connections := connections + [conn];
      countLog := countLog + [|connections|];
    }

    /**
     * The joiner peer's `open` event: dial the prefixed host id, append the
     * new (not yet open) connection and report the new count.
     */
    method JoinerOpen(connectionId: string) returns (dialed: string)
      requires peer.Some? && peer.value.JoinerPeer?
      modifies this`connections, this`countLog
      ensures dialed == peerPrefix + peer.value.hostId
      ensures connections == old(connections) + [Connection(connectionId, false)]
      ensures countLog == old(countLog) + [|old(connections)| + 1]
    {
      dialed := peerPrefix + peer.value.hostId;
      connections := connections + [Connection(connectionId, false)];
      countLog := countLog + [|connections|];
    }

    /** A connection's `open` event. */
    method ConnectionOpened(connectionId: string)
      modifies this`connections
      ensures connections == MarkOpen(old(connections), connectionId)
    {
      connections := MarkOpen(connections, connectionId);
    }

    /** A connection's `close` event: drop every entry with its id and report the new count. */
    method ConnectionClosed(connectionId: string)
      modifies this`connections, this`countLog
      ensures connections == WithoutConnection(old(connections), connectionId)
      ensures countLog == old(countLog) + [|connections|]
    {
      connections := WithoutConnection(connections, connectionId);
      countLog := countLog + [|connections|];
    }

    /** `sendData(data)`: send to every open connection; the source always answers false. */
    method SendData(data: Message) returns (delivered: bool)
      modifies this`sent
      ensures sent == old(sent) + Deliveries(OpenConnections(connections), data)
      ensures !delivered
    {
      if |connections| > 0 {
        var i := 0;
        while i < |connections|
          invariant 0 <= i <= |connections|
          invariant sent == old(sent) + Broadcast(connections[..i], data)
        {
          var conn := connections[i];
          if conn.open {
            sent := sent + [Delivery(conn.connectionId, data)];
          }
          assert connections[..i + 1][..i] == connections[..i];
          i := i + 1;
        }
        assert connections[..i] == connections;
      }
      BroadcastIsDeliveries(connections, data);
      delivered := false;
    }
  }
}
