/**
 * The peer connection dialog: the local identity and the directory of
 * recently seen peers (both kept in localStorage), the filtered list of
 * recent peers, the identity handshake and message dispatch, and the
 * guards that start hosting or joining through the peer service.
 */
module PeerConnectionModal {
  import opened Wrappers
  import opened JsString
  import opened JsObject
  import opened Messages
  import PeerService

  datatype Role = Host | Joiner

  /** A directory entry `peers[guid] = {name, lastSeen}`. */
  datatype PeerEntry = PeerEntry(name: string, lastSeen: int)

  /** What `getIdentity()` returns. */
  datatype Identity = Identity(guid: string, name: string)

  /** What each row of the recent-peer list offers. */
  datatype RowAction = ConnectedLabel | HostButton | JoinButton

  /** The content of the recent-peer list. */
  datatype PeerListView =
    | NoRecentPeers
    | NoMatchingPeers
    | PeerRows(rows: Entries<PeerEntry>, action: RowAction)

  /** The element a click in the recent-peer list lands on. */
  datatype ClickTarget = RemovePeerButton | HostUserButton | JoinUserButton | OtherTarget

  const DefaultAppPrefix: string := "pwa"
  const DefaultPeerPrefix: string := "pwa-"
  const AnonymousName: string := "Anonymous"
  const InitialRemoteName: string := "Peer"
  const HostIdLength: nat := 6

  /** The guid stored after `getIdentity()`: the stored one, or the fresh one when none was stored. */
  function GuidAfter(storedGuid: string, freshGuid: string): string {
    if storedGuid != "" then storedGuid else freshGuid
  }

  /** The identity `getIdentity()` returns for the stored guid and display name. */
  function IdentityFor(storedGuid: string, storedName: string, freshGuid: string): (id: Identity)
    ensures id.guid == GuidAfter(storedGuid, freshGuid)
    ensures id.name != ""
  {
    Identity(GuidAfter(storedGuid, freshGuid), if storedName != "" then storedName else AnonymousName)
  }

  /** A search matches a peer when the lowered name includes the lowered search text. */
  predicate NameMatches(entry: PeerEntry, search: string) {
    Includes(ToLower(entry.name), ToLower(search))
  }

  /** `Object.entries(peers).filter(([, p]) => p.name.toLowerCase().includes(filter))`. */
  function MatchingPeers(peers: Entries<PeerEntry>, search: string): (r: Entries<PeerEntry>)
    ensures forall p :: p in r <==> p in peers && NameMatches(p.1, search)
  {
    if peers == [] then []
    else (if NameMatches(peers[0].1, search) then [peers[0]] else []) + MatchingPeers(peers[1..], search)
  }

  /** An empty search keeps every peer, in directory order. */
  lemma {:induction false} EmptySearchKeepsAll(peers: Entries<PeerEntry>)
    ensures MatchingPeers(peers, "") == peers
  {
    if peers != [] {
      IncludesEmpty(ToLower(peers[0].1.name));
      EmptySearchKeepsAll(peers[1..]);
      assert [peers[0]] + peers[1..] == peers;
    }
  }

  /** `renderPeerList(role)`: the empty-directory message, the no-match message, or the matching rows. */
  function PeerListing(peers: Entries<PeerEntry>, search: string, connected: bool, role: Option<Role>): (v: PeerListView)
    ensures v == NoRecentPeers <==> peers == []
    ensures v == NoMatchingPeers <==> peers != [] && MatchingPeers(peers, search) == []
    ensures v.PeerRows? ==> v.rows != [] && forall p :: p in v.rows <==> p in peers && NameMatches(p.1, search)
    ensures v.PeerRows? ==> (v.action == ConnectedLabel <==> connected)
    ensures v.PeerRows? && !connected ==> (v.action == HostButton <==> role == Some(Host))
  {
    if peers == [] then NoRecentPeers
    else
      var rows := MatchingPeers(peers, search);
      if rows == [] then NoMatchingPeers
      else PeerRows(rows, if connected then ConnectedLabel else if role == Some(Host) then HostButton else JoinButton)
  }

  class Modal {
    const appPrefix: string
    const peerPrefix: string
    const service: PeerService.Service

    // localStorage: `${appPrefix}_user_guid`, `${appPrefix}_display_name` ("" when absent), `${appPrefix}_peers`
    var storedGuid: string
    var storedName: string
    var peers: Entries<PeerEntry>

    // state of the dialog
    var connectionRole: Option<Role>
    var isConnected: bool
    var currentRemoteName: string
    var searchText: string
    var peerList: PeerListView
    var hostIdShown: string

    /** Every `config.onConnectionChange(connected)`. */
    var connectionChanges: seq<bool>
    /** Every `config.onDataReceived(data, remoteName)`. */
    var forwarded: seq<(Message, string)>
    /** Every toast message shown. */
    var toasts: seq<string>

    /** The directory holds one entry per guid. */
    predicate Valid()
      reads this`peers
    {
      UniqueKeys(peers)
    }

    /** `showPeerConnectionModal(toastManager, config)`: default the prefixes, select Host, initialize the service. */
    constructor (service: PeerService.Service, appPrefixOption: string, peerPrefixOption: string,
                 storedGuid: string, storedName: string, storedPeers: Entries<PeerEntry>)
      requires UniqueKeys(storedPeers)
      modifies service
      ensures Valid()
      ensures this.service == service
      ensures appPrefix == (if appPrefixOption != "" then appPrefixOption else DefaultAppPrefix)
      ensures peerPrefix == (if peerPrefixOption != "" then peerPrefixOption else DefaultPeerPrefix)
      ensures this.storedGuid == storedGuid && this.storedName == storedName && peers == storedPeers
      ensures connectionRole == Some(Host) && !isConnected && currentRemoteName == InitialRemoteName
      ensures searchText == "" && peerList == PeerListing(storedPeers, "", false, Some(Host))
      ensures connectionChanges == [] && forwarded == [] && toasts == []
      ensures service.peerPrefix == peerPrefix && service.peerConfig == map[]
      ensures service.peer == old(service.peer) && service.connections == old(service.connections)
      ensures service.countLog == old(service.countLog) && service.sent == old(service.sent)
    {
      this.service := service;
      appPrefix := if appPrefixOption != "" then appPrefixOption else DefaultAppPrefix;
      peerPrefix := if peerPrefixOption != "" then peerPrefixOption else DefaultPeerPrefix;
      this.storedGuid, this.storedName, peers := storedGuid, storedName, storedPeers;
      connectionRole, isConnected, currentRemoteName := Some(Host), false, InitialRemoteName;
      searchText, hostIdShown := "", "";
      peerList := PeerListing(storedPeers, "", false, Some(Host));
      connectionChanges, forwarded, toasts := [], [], [];
      new;
      service.Initialize(peerPrefix, map[]);
    }

    /** `getIdentity()`: store `freshGuid` (a `crypto.randomUUID()`) only when no guid is stored. */
    method GetIdentity(freshGuid: string) returns (id: Identity)
      modifies this`storedGuid
      ensures storedGuid == GuidAfter(old(storedGuid), freshGuid)
      ensures id == IdentityFor(old(storedGuid), storedName, freshGuid)
      ensures old(storedGuid) != "" ==> id.guid == old(storedGuid)
      ensures id.guid == storedGuid
    {
      if storedGuid == "" {
        storedGuid := freshGuid;
      }
      id := Identity(storedGuid, if storedName != "" then storedName else AnonymousName);
    }

    /** Once a guid is stored, every later `getIdentity()` returns it, whatever fresh value is offered. */
    method GetIdentityTwice(fresh1: string, fresh2: string) returns (first: Identity, second: Identity)
      requires fresh1 != ""
      modifies this`storedGuid
      ensures first == second
    {
      first := GetIdentity(fresh1);
      second := GetIdentity(fresh2);
    }

    /** `savePeer(guid, name)` at time `now`: never records the local identity, otherwise upserts. */
    method SavePeer(guid: string, name: string, now: int, freshGuid: string)
      requires Valid()
      modifies this`storedGuid, this`peers
      ensures Valid()
      ensures storedGuid == GuidAfter(old(storedGuid), freshGuid)
      ensures guid == storedGuid ==> peers == old(peers)
      ensures guid != storedGuid ==> peers == Put(old(peers), guid, PeerEntry(name, now))
      ensures guid != storedGuid ==> Get(peers, guid) == Some(PeerEntry(name, now))
      ensures forall k :: k != guid ==> Get(peers, k) == Get(old(peers), k)
    {
      var self := GetIdentity(freshGuid);
      if self.guid == guid {
        return;
      }
      GetPutSame(peers, guid, PeerEntry(name, now));
      forall k | k != guid ensures Get(Put(peers, guid, PeerEntry(name, now)), k) == Get(peers, k) {
        GetPutOther(peers, guid, PeerEntry(name, now), k);
      }
      PutKeepsUnique(peers, guid, PeerEntry(name, now));
      peers := Put(peers, guid, PeerEntry(name, now));
    }

    /** `removePeer(guid)`: deletes that key only; absent keys and the identity are untouched. */
    method RemovePeer(guid: string)
      requires Valid()
      modifies this`peers
      ensures Valid()
      ensures peers == Delete(old(peers), guid)
      ensures Get(peers, guid) == None
      ensures forall k :: k != guid ==> Get(peers, k) == Get(old(peers), k)
      ensures !HasKey(old(peers), guid) ==> peers == old(peers)
    {
      DeleteRemovesKey(peers, guid);
      forall k | k != guid ensures Get(Delete(peers, guid), k) == Get(peers, k) {
        GetDeleteOther(peers, guid, k);
      }
      if !HasKey(peers, guid) {
        DeleteAbsent(peers, guid);
      }
      DeleteKeepsUnique(peers, guid);
      peers := Delete(peers, guid);
    }

    /** `renderPeerList(role)`. */
    method RenderPeerList(role: Option<Role>)
      modifies this`peerList
      ensures peerList == PeerListing(peers, searchText, isConnected, role)
    {
      peerList := PeerListing(peers, searchText, isConnected, role);
    }

    /** `selectRole(role)`. */
    method SelectRole(role: Role)
      modifies this`connectionRole, this`peerList
      ensures connectionRole == Some(role)
      ensures peerList == PeerListing(peers, searchText, isConnected, Some(role))
    {
      connectionRole := Some(role);
      RenderPeerList(connectionRole);
    }

    /** Typing in the peer search box re-renders the list. */
    method SearchInput(text: string)
      modifies this`searchText, this`peerList
      ensures searchText == text
      ensures peerList == PeerListing(peers, text, isConnected, connectionRole)
    {
      searchText := text;
      RenderPeerList(connectionRole);
    }

    /** `updateConnectionStatus(count)`: connected exactly when the count is positive. */
    /**
     * The dialog's status after a teardown that reported 0 exactly when
     * `hadConnections`: disconnected, logged and redrawn in that case,
     * untouched otherwise.
     */
    twostate predicate StatusAfterTeardown(hadConnections: bool)
      reads this
    {
      && (hadConnections ==>
            && !isConnected && connectionChanges == old(connectionChanges) + [false]
            && peerList == (if connectionRole.Some? then PeerListing(peers, searchText, false, connectionRole)
                            else old(peerList)))
      && (!hadConnections ==>
            isConnected == old(isConnected) && connectionChanges == old(connectionChanges) && peerList == old(peerList))
    }

    method UpdateConnectionStatus(count: nat)
      modifies this`isConnected, this`connectionChanges, this`peerList
      ensures isConnected == (count > 0)
      ensures connectionChanges == old(connectionChanges) + [count > 0]
      ensures peerList == if connectionRole.Some? then PeerListing(peers, searchText, count > 0, connectionRole)
                          else old(peerList)
    {
      isConnected := count > 0;
      connectionChanges := connectionChanges + [isConnected];
      if connectionRole.Some? {
        RenderPeerList(connectionRole);
      }
    }

    /**
     * `handleDataReceived(data)`: an identity message records the sender and
     * is consumed; every other message is forwarded with the current remote name.
     */
    method HandleDataReceived(data: Message, now: int, freshGuid: string)
      requires Valid()
      modifies this`currentRemoteName, this`storedGuid, this`peers, this`peerList, this`toasts, this`forwarded
      ensures Valid()
      ensures data.IdentityMessage? ==>
        && currentRemoteName == data.name
        && forwarded == old(forwarded)
        && storedGuid == GuidAfter(old(storedGuid), freshGuid)
        && peers == (if data.guid == storedGuid then old(peers) else Put(old(peers), data.guid, PeerEntry(data.name, now)))
        && peerList == PeerListing(peers, searchText, isConnected, connectionRole)
        && toasts == old(toasts) + ["Connected with " + data.name]
      ensures !data.IdentityMessage? ==>
        && forwarded == old(forwarded) + [(data, currentRemoteName)]
        && currentRemoteName == old(currentRemoteName)
        && storedGuid == old(storedGuid) && peers == old(peers)
        && peerList == old(peerList) && toasts == old(toasts)
    {
      if data.IdentityMessage? {
        currentRemoteName := data.name;
        SavePeer(data.guid, data.name, now, freshGuid);
        RenderPeerList(connectionRole);
        toasts := toasts + ["Connected with " + data.name];
      } else {
        forwarded := forwarded + [(data, currentRemoteName)];
      }
    }

    /** `handleConnectionEstablished()`: mark connected and send the local identity to the open connections. */
    method HandleConnectionEstablished(freshGuid: string)
      modifies this`toasts, this`isConnected, this`connectionChanges, this`storedGuid, service`sent
      ensures isConnected && connectionChanges == old(connectionChanges) + [true]
      ensures toasts == old(toasts) + ["Connected to peer!"]
      ensures storedGuid == GuidAfter(old(storedGuid), freshGuid)
      ensures service.sent == old(service.sent) + PeerService.Deliveries(
                PeerService.OpenConnections(service.connections),
                IdentityMessage(storedGuid, IdentityFor(old(storedGuid), storedName, freshGuid).name))
    {
      toasts := toasts + ["Connected to peer!"];
      isConnected := true;
      connectionChanges := connectionChanges + [true];
      var identity := GetIdentity(freshGuid);
      var _ := service.SendData(IdentityMessage(identity.guid, identity.name));
    }

    /**
     * `startHostingProcess(customId)`. Tearing down a session with live
     * connections reports a count of 0 through the status callback; the
     * model takes that callback to be this dialog's `updateConnectionStatus`,
     * as it is when this dialog started the session being torn down.
     */
    method StartHostingProcess(customId: string, random: real)
      requires 0.0 <= random < 1.0
      modifies this`isConnected, this`connectionChanges, this`peerList, service
      ensures service.peer == Some(PeerService.HostPeer(PeerService.HostId(service.peerPrefix, customId, random)))
      ensures service.peerId == Some(PeerService.HostId(service.peerPrefix, customId, random))
      ensures service.TornDown()
      ensures StatusAfterTeardown(|old(service.connections)| > 0)
    {
      var hadConnections := |service.connections| > 0;
      service.CreateHost(customId, random);
      if hadConnections {
        UpdateConnectionStatus(0);
      }
    }

    /**
     * `startJoiningProcess(hostId)`: nothing happens for an empty id. A
     * torn-down session's count of 0 is taken to reach this dialog, as for
     * `StartHostingProcess`.
     */
    method StartJoiningProcess(hostId: string)
      modifies this`isConnected, this`connectionChanges, this`peerList, service
      ensures hostId == "" ==> unchanged(service) && unchanged(this)
      ensures hostId != "" ==>
        && service.peer == Some(PeerService.JoinerPeer(hostId)) && service.peerId == old(service.peerId)
        && service.TornDown()
        && StatusAfterTeardown(|old(service.connections)| > 0)
    {
      if hostId == "" {
        return;
      }
      var hadConnections := |service.connections| > 0;
      service.JoinHost(hostId);
      if hadConnections {
        UpdateConnectionStatus(0);
      }
    }

    /** Typing in the host-id box joins only once exactly six characters are there. */
    method JoinerInput(value: string)
      modifies this`isConnected, this`connectionChanges, this`peerList, service
      ensures |value| != HostIdLength ==> unchanged(service) && unchanged(this)
      ensures |value| == HostIdLength ==>
        && service.peer == Some(PeerService.JoinerPeer(value)) && service.peerId == old(service.peerId)
        && service.TornDown()
        && StatusAfterTeardown(|old(service.connections)| > 0)
    {
      if |value| == HostIdLength {
        StartJoiningProcess(value);
      }
    }

    /**
     * A click in the recent-peer list on an element carrying `guid` ("" when
     * it carries none): remove (after `confirmed`), host under the local guid,
     * or join the peer's guid.
     */
    method RecentPeerClick(guid: string, target: ClickTarget, confirmed: bool, freshGuid: string, random: real)
      requires Valid()
      requires 0.0 <= random < 1.0
      modifies this`storedGuid, this`peers, this`peerList, this`isConnected, this`connectionChanges, service
      ensures Valid()
      ensures guid == "" || target == OtherTarget ==> unchanged(this) && unchanged(service)
      ensures guid != "" && target == RemovePeerButton ==>
        && peers == (if confirmed then Delete(old(peers), guid) else old(peers))
        && peerList == (if confirmed && old(peerList).PeerRows?
                        then old(peerList).(rows := Delete(old(peerList).rows, guid))
                        else old(peerList))
        && storedGuid == old(storedGuid) && unchanged(service)
        && isConnected == old(isConnected) && connectionChanges == old(connectionChanges)
      ensures guid != "" && target == HostUserButton ==>
        && storedGuid == GuidAfter(old(storedGuid), freshGuid)
        && service.peer == Some(PeerService.HostPeer(PeerService.HostId(service.peerPrefix, storedGuid, random)))
        && peers == old(peers)
      ensures guid != "" && target == JoinUserButton ==>
        service.peer == Some(PeerService.JoinerPeer(guid)) && peers == old(peers) && storedGuid == old(storedGuid)
      ensures guid != "" && (target == HostUserButton || target == JoinUserButton) ==>
        && service.TornDown()
        && StatusAfterTeardown(|old(service.connections)| > 0)
    {
      if guid == "" {
        return;
      }
      match target {
        case RemovePeerButton =>
          if confirmed {
            RemovePeer(guid);
            // the clicked row is taken out of the page without re-rendering the list
            if peerList.PeerRows? {
              peerList := peerList.(rows := Delete(peerList.rows, guid));
            }
          }
        case HostUserButton =>
          var self := GetIdentity(freshGuid);
          StartHostingProcess(self.guid, random);
        case JoinUserButton =>
          StartJoiningProcess(guid);
        case OtherTarget =>
      }
    }

    /** The host peer opened: show its id without the prefix. */
    method HostOpened() returns (shown: string)
      requires service.peer.Some? && service.peer.value.HostPeer?
      modifies this`hostIdShown, this`toasts
      ensures hostIdShown == shown == ReplaceFirst(service.peer.value.id, service.peerPrefix, "")
      ensures toasts == old(toasts) + ["Session started. Waiting for peer..."]
    {
      shown := service.HostOpen();
      hostIdShown := shown;
      toasts := toasts + ["Session started. Waiting for peer..."];
    }

    /** A joiner connected to this host; the new count reaches `updateConnectionStatus`. */
    method IncomingConnection(conn: PeerService.Connection)
      requires service.peer.Some? && service.peer.value.HostPeer?
      modifies this`isConnected, this`connectionChanges, this`peerList, service`connections, service`countLog
      ensures service.connections == old(service.connections) + [conn]
      ensures service.countLog == old(service.countLog) + [|service.connections|]
      ensures isConnected && connectionChanges == old(connectionChanges) + [true]
      ensures peerList == if connectionRole.Some? then PeerListing(peers, searchText, true, connectionRole)
                          else old(peerList)
    {
      service.IncomingConnection(conn);
      UpdateConnectionStatus(|service.connections|);
    }

    /** The joiner peer opened and dialled the host; the new count reaches `updateConnectionStatus`. */
    method JoinerOpened(connectionId: string) returns (dialed: string)
      requires service.peer.Some? && service.peer.value.JoinerPeer?
      modifies this`isConnected, this`connectionChanges, this`peerList, service`connections, service`countLog
      ensures dialed == service.peerPrefix + service.peer.value.hostId
      ensures service.connections == old(service.connections) + [PeerService.Connection(connectionId, false)]
      ensures service.countLog == old(service.countLog) + [|service.connections|]
      ensures isConnected && connectionChanges == old(connectionChanges) + [true]
      ensures peerList == if connectionRole.Some? then PeerListing(peers, searchText, true, connectionRole)
                          else old(peerList)
    {
      dialed := service.JoinerOpen(connectionId);
      UpdateConnectionStatus(|service.connections|);
    }

    /** A data connection opened: the identity handshake goes out on every open connection. */
    method ConnectionOpened(connectionId: string, freshGuid: string)
      modifies this`toasts, this`isConnected, this`connectionChanges, this`storedGuid, service`connections, service`sent
      ensures service.connections == PeerService.MarkOpen(old(service.connections), connectionId)
      ensures isConnected && connectionChanges == old(connectionChanges) + [true]
      ensures toasts == old(toasts) + ["Connected to peer!"]
      ensures storedGuid == GuidAfter(old(storedGuid), freshGuid)
      ensures service.sent == old(service.sent) + PeerService.Deliveries(
                PeerService.OpenConnections(service.connections),
                IdentityMessage(storedGuid, IdentityFor(old(storedGuid), storedName, freshGuid).name))
    {
      service.ConnectionOpened(connectionId);
      HandleConnectionEstablished(freshGuid);
    }

    /** A data connection closed; connected afterwards exactly when connections remain. */
    method ConnectionClosed(connectionId: string)
      modifies this`isConnected, this`connectionChanges, this`peerList, service`connections, service`countLog
      ensures service.connections == PeerService.WithoutConnection(old(service.connections), connectionId)
      ensures service.countLog == old(service.countLog) + [|service.connections|]
      ensures isConnected == (|service.connections| > 0)
      ensures connectionChanges == old(connectionChanges) + [isConnected]
      ensures peerList == if connectionRole.Some? then PeerListing(peers, searchText, isConnected, connectionRole)
                          else old(peerList)
    {
      service.ConnectionClosed(connectionId);
      UpdateConnectionStatus(|service.connections|);
    }

    /** A peer error of kind `kind` is shown as a toast. */
    method PeerError(kind: string)
      modifies this`toasts
      ensures toasts == old(toasts) + ["Error: " + kind]
    {
      toasts := toasts + ["Error: " + kind];
    }
  }
}
