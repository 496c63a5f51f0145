/**
 * Network.cs: the port arithmetic and the session state machine of a Godot multiplayer node.
 * The transport (ENet peer creation and its events) is abstract: the result of creating a peer is
 * an input, and the engine's multiplayer signals are the methods named after them.
 */
module Network {
  import Optional
  import App
  import Log

  /** The peer id of the server. */
  const ServerAuthority := 1

  /** 1: the listener port is the one after the game port. */
  const ListenerPortOffset := 1

  const MaxPort := 65535 - ListenerPortOffset
  const MinPort := 49152

  /** C#'s `/` on `int`: the quotient truncated toward zero. */
  function CsQuot(a: int, b: int): int
    requires b > 0
  {
    if a >= 0 then a / b else -((-a) / b)
  }

  /** C#'s `%` on `int`: the remainder of truncating division, so it has the sign of the dividend. */
  function CsRem(a: int, b: int): (r: int)
    requires b > 0
    ensures -b < r < b
    ensures a >= 0 ==> r >= 0
    ensures a <= 0 ==> r <= 0
  {
    if a >= 0 then a % b else -((-a) % b)
  }

  /** Quotient and remainder recompose the dividend, as C# guarantees for `/` and `%`. */
  lemma CsDivision(a: int, b: int)
    requires b > 0
    ensures a == CsQuot(a, b) * b + CsRem(a, b)
  {
    if a < 0 {
      assert -a == ((-a) / b) * b + (-a) % b;
    }
  }

  /** Divisibility by the width of the port range does not depend on the sign. */
  lemma DivisibleNegated(x: int)
    ensures x % (MaxPort - MinPort) == 0 <==> (-x) % (MaxPort - MinPort) == 0
  {
    var m := MaxPort - MinPort;
    assert m == 16382;
    var q := x / m;
    assert x == q * m + x % m;
    assert -x == (-q - 1) * m + (m - x % m);
    if x % m != 0 {
      assert 0 < m - x % m < m;
    }
  }

  /** `MinPort + App.HashCode % (MaxPort - MinPort)`, as written. */
  function GamePortAsWritten(hashCode: int): (port: int)
    ensures port < MaxPort
    ensures port > MinPort - (MaxPort - MinPort)
  {
    MinPort + CsRem(hashCode, MaxPort - MinPort)
  }

  /**
   * The port as written lies in the dynamic range only for a non-negative hash (or a negative
   * multiple of the range width): C#'s `%` keeps the sign of the negative hash.
   */
  lemma GamePortAsWrittenInRange(hashCode: int)
    ensures GamePortAsWritten(hashCode) >= MinPort <==> hashCode >= 0 || hashCode % (MaxPort - MinPort) == 0
  {
    DivisibleNegated(hashCode);
  }

  /** The hash of the one-letter name "a" is negative, and its game and listener ports fall below MinPort. */
  lemma GamePortAsWrittenBelowRange()
    ensures App.ToInt32(App.DeterministicHash(['a' as App.CodeUnit])) == -842352707
    ensures GamePortAsWritten(-842352707) == 42503 < MinPort
    ensures GetListenerPort(GamePortAsWritten(-842352707)) == 42504 < MinPort
  {
    var s := ['a' as App.CodeUnit];
    assert App.Evens(s) == s;
    assert App.Odds(s) == [];
    assert App.MixAll(App.Seed, s) == App.Mix(App.MixAll(App.Seed, []), s[0]);
  }

  /** The game port with the remainder taken as a non-negative residue, as the range intends. */
  function GamePortOf(hashCode: int): (port: int)
    ensures MinPort <= port < MaxPort
    ensures hashCode >= 0 ==> port == GamePortAsWritten(hashCode)
  {
    MinPort + hashCode % (MaxPort - MinPort)
  }

  /** The game port derived from the application's name through the deterministic hash. */
  function GamePort(appName: seq<App.CodeUnit>): (port: int)
    ensures MinPort <= port < MaxPort
  {
    GamePortOf(App.ToInt32(App.DeterministicHash(appName)))
  }

  function GetListenerPort(gamePort: int): (listenerPort: int)
  {
    gamePort + ListenerPortOffset
  }

  function GetGamePort(listenerPort: int): (gamePort: int)
  {
    listenerPort - ListenerPortOffset
  }

  /** The two port conversions are inverse to each other. */
  lemma PortRoundTrip(p: int)
    ensures GetGamePort(GetListenerPort(p)) == p
    ensures GetListenerPort(GetGamePort(p)) == p
  {
  }

  /**
   * `ListenerPort` as written: never above MaxPort, and above MinPort exactly when the game port as
   * written is in range.
   */
  lemma ListenerPortAsWrittenInRange(hashCode: int)
    ensures GetListenerPort(GamePortAsWritten(hashCode)) <= MaxPort
    ensures GetListenerPort(GamePortAsWritten(hashCode)) > MinPort <==> hashCode >= 0 || hashCode % (MaxPort - MinPort) == 0
  {
    GamePortAsWrittenInRange(hashCode);
  }

  /** The listener port of the corrected game port is in the valid port range too. */
  lemma ListenerPortInRange(appName: seq<App.CodeUnit>)
    ensures MinPort < GetListenerPort(GamePort(appName)) <= MaxPort < 65536
  {
  }

  datatype NetworkState = None | ClientConnecting | ClientConnected | ServerStarting | ServerStarted

  /** The kind of `Multiplayer.MultiplayerPeer`. */
  datatype PeerKind = Offline | ENetServer | ENetClient

  /** The result of `CreateServer` / `CreateClient` on a new ENet peer. */
  datatype TransportResult = Ok | CantCreate | AlreadyInUse | OtherError(humanized: string)

  datatype StatusType = Info | Success | Warn | Error

  datatype Status = Status(kind: StatusType, msg: string)

  /**
   * The three handlers one successful CreateClient subscribes. They are closures over that call's
   * address and port, so each call adds its own; `connecting` says OnConnectionFailed and
   * OnConnectedToServer are still subscribed, `disconnecting` says OnServerDisconnected is.
   */
  datatype ClientHandlers = ClientHandlers(address: Optional.Option<string>, port: int, connecting: bool, disconnecting: bool)

  /** A player node: a scene instance whose multiplayer authority is its peer. */
  datatype PlayerNode = PlayerNode(authority: int)

  /** What the player callbacks and the scene tree observe. */
  datatype PlayerEvent =
    | PlayerInitialised(peerId: int)
    | ChildAdded(peerId: int)
    | PlayerAdded(node: PlayerNode)
    | ChildFreed(peerId: int)
    | PlayerRemoved(removed: Optional.Option<PlayerNode>)
    | AllDespawned

  /** `int.ToString()`. */
  function IntToString(i: int): (s: string)
    ensures |s| > 0
    ensures s[0] == '-' <==> i < 0
  {
    if i < 0 then "-" + Log.Digits(-i) else Log.Digits(i)
  }

  /** The error suffix of a failed peer creation: nothing, a fixed note, or the humanized error. */
  function ErrorSuffix(err: TransportResult): (s: string)
    requires err != Ok
    ensures err == CantCreate <==> s == ""
  {
    match err
    case CantCreate => ""
    case AlreadyInUse => " (port already in use)"
    case OtherError(h) => " (" + h + ")"
  }

  /** The removal events for the peers in `order`, in that order. */
  function Removals(order: seq<int>, nodes: map<int, PlayerNode>): seq<PlayerEvent>
    requires forall k :: k in order ==> k in nodes
  {
    if order == [] then []
    else
      var k := order[|order| - 1];
      Removals(order[..|order| - 1], nodes) + [ChildFreed(k), PlayerRemoved(Optional.Some(nodes[k]))]
  }

  lemma RemovalsSnoc(order: seq<int>, k: int, nodes: map<int, PlayerNode>)
    requires forall j :: j in order ==> j in nodes
    requires k in nodes
    ensures Removals(order + [k], nodes) == Removals(order, nodes) + [ChildFreed(k), PlayerRemoved(Optional.Some(nodes[k]))]
  {
    assert (order + [k])[..|order|] == order;
  }

  /** Appending a new id keeps the ids pairwise distinct. */
  lemma DistinctSnoc(order: seq<int>, x: int)
    requires forall i, j :: 0 <= i < j < |order| ==> order[i] != order[j]
    requires x !in order
    ensures forall i, j :: 0 <= i < j < |order + [x]| ==> (order + [x])[i] != (order + [x])[j]
  {
  }

  /** `Keys.First()`: some key of a non-empty key set (the dictionary's order is not modelled). */
  method FirstKey(keys: set<int>) returns (k: int)
    requires keys != {}
    ensures k in keys
  {
    assert exists j :: j in keys by {
      if forall j :: j !in keys {
        assert false;
      }
    }
    k :| k in keys;
  }

  class Network {
    /** `OS.HasFeature("dedicated_server")`: a dedicated server hosts no local player. */
    const dedicated: bool
    /** The default port, used when none is given. */
    const gamePort: int

    var state: NetworkState
    var peer: PeerKind
    /** `Multiplayer.GetUniqueId()`: 1 on a server, the id the transport assigned on a client. */
    var localId: int
    var playerNodes: map<int, PlayerNode>
    var events: seq<PlayerEvent>
    var statuses: seq<Status>
    /** Every value NetworkState took, in order: the [Notify] Changed notifications. */
    var transitions: seq<NetworkState>
    /** The handlers of every successful CreateClient, in the order they were subscribed. */
    var clients: seq<ClientHandlers>

    ghost predicate Valid()
      reads this
    {
      && (forall k :: k in playerNodes ==> playerNodes[k].authority == k)
      && (peer == Offline ==> playerNodes == map[])
      && (state == ServerStarted ==> peer == ENetServer)
      && (state in {ClientConnecting, ClientConnected} ==> peer == ENetClient)
    }

    /** A new network node after Initialise: offline, in state None, with no players. */
    constructor Initialise(dedicated: bool, appName: seq<App.CodeUnit>)
      ensures Valid()
      ensures this.dedicated == dedicated && gamePort == GamePort(appName)
      ensures state == None && peer == Offline && playerNodes == map[]
      ensures events == [] && statuses == [] && transitions == []
      ensures clients == []
    {
      this.dedicated := dedicated;
      gamePort := GamePort(appName);
      state := None;
      peer := Offline;
      localId := ServerAuthority;
      playerNodes := map[];
      events := [];
      statuses := [];
      transitions := [];
      clients := [];
    }

    /** The [Notify] setter: a change of value is recorded, an equal value is not. */
    method SetState(s: NetworkState)
      modifies this`state, this`transitions
      ensures state == s
      ensures transitions == if old(state) == s then old(transitions) else old(transitions) + [s]
    {
      if state != s {
        state := s;
        transitions := transitions + [s];
      }
    }

    method SendStatus(kind: StatusType, msg: string)
      modifies this`statuses
      ensures statuses == old(statuses) + [Status(kind, msg)]
    {
      statuses := statuses + [Status(kind, msg)];
    }

    /**
     * AddPlayer: instantiates the node with the peer as authority, initialises it if it is the
     * local player, adds it to the tree, then to `playerNodes` and only then raises playerAdded.
     * A peer already in `playerNodes` makes `Dictionary.Add` throw after the node was added to
     * the tree: `added` is false and playerAdded is not raised.
     */
    method AddPlayer(peerId: int) returns (added: bool)
      requires Valid() && peer != Offline
      modifies this`playerNodes, this`events
      ensures Valid()
      ensures added <==> peerId !in old(playerNodes)
      ensures playerNodes == if added then old(playerNodes)[peerId := PlayerNode(peerId)] else old(playerNodes)
      ensures events == old(events) + (if peerId == localId then [PlayerInitialised(peerId)] else [])
        + [ChildAdded(peerId)] + (if added then [PlayerAdded(PlayerNode(peerId))] else [])
    {
      var player := PlayerNode(peerId);
      if peerId == localId {
        events := events + [PlayerInitialised(peerId)];
      }
      events := events + [ChildAdded(peerId)];
      added := peerId !in playerNodes;
      if added {
        playerNodes := playerNodes[peerId := player];
        events := events + [PlayerAdded(player)];
      }
    }

    /**
     * RemovePlayer: removes and frees the peer's node when there is one; playerRemoved is raised
     * either way, with no node for an unknown peer.
     */
    method RemovePlayer(peerId: int)
      requires Valid()
      modifies this`playerNodes, this`events
      ensures Valid()
      ensures playerNodes == old(playerNodes) - {peerId}
      ensures events == old(events) +
        if peerId in old(playerNodes) then [ChildFreed(peerId), PlayerRemoved(Optional.Some(old(playerNodes)[peerId]))]
        else [PlayerRemoved(Optional.None)]
    {
      if peerId in playerNodes {
        var player := playerNodes[peerId];
        playerNodes := playerNodes - {peerId};
        events := events + [ChildFreed(peerId), PlayerRemoved(Optional.Some(player))];
      } else {
        events := events + [PlayerRemoved(Optional.None)];
      }
    }

    /**
     * RemoveAllPlayers: removes the first remaining peer until none is left, then despawns every
     * spawned scene. Each peer is removed exactly once; `order` is the order the map yielded them.
     */
    method RemoveAllPlayers() returns (ghost order: seq<int>)
      requires Valid()
      modifies this`playerNodes, this`events
      ensures Valid()
      ensures playerNodes == map[]
      ensures forall k :: k in order <==> k in old(playerNodes)
      ensures forall i, j :: 0 <= i < j < |order| ==> order[i] != order[j]
      ensures events == old(events) + Removals(order, old(playerNodes)) + [AllDespawned]
    {
      ghost var nodes := playerNodes;
      order := [];
      while |playerNodes| != 0
        invariant Valid()
        invariant forall k :: k in playerNodes ==> k in nodes && playerNodes[k] == nodes[k]
        invariant forall k :: k in nodes <==> k in playerNodes || k in order
        invariant forall k :: k in order ==> k !in playerNodes
        invariant forall i, j :: 0 <= i < j < |order| ==> order[i] != order[j]
        invariant events == old(events) + Removals(order, nodes)
        decreases playerNodes.Keys
      {
        assert |playerNodes.Keys| == |playerNodes|;
        var k := FirstKey(playerNodes.Keys);
        ghost var before := events;
        RemovePlayer(k);
        RemovalsSnoc(order, k, nodes);
        assert events == before + [ChildFreed(k), PlayerRemoved(Optional.Some(nodes[k]))];
        assert old(events) + Removals(order + [k], nodes) == events;
        DistinctSnoc(order, k);
        order := order + [k];
      }
      events := events + [AllDespawned];
    }

    /** ClosePeer: removes every player, closes the transport, goes offline and back to None. */
    method ClosePeer() returns (ghost order: seq<int>)
      requires Valid()
      modifies this`playerNodes, this`events, this`peer, this`state, this`transitions
      ensures Valid()
      ensures playerNodes == map[] && peer == Offline && state == None
      ensures forall k :: k in order <==> k in old(playerNodes)
      ensures events == old(events) + Removals(order, old(playerNodes)) + [AllDespawned]
      ensures transitions == if old(state) == None then old(transitions) else old(transitions) + [None]
    {
      order := RemoveAllPlayers();
      peer := Offline;
      SetState(None);
    }

    /**
     * StartServer: goes through ServerStarting; a transport error returns to None with an error
     * status and false; success makes the server peer current, reaches ServerStarted, reports
     * ACTIVE and, unless this is a dedicated server, adds the local player (id 1).
     */
    method StartServer(port: Optional.Option<int>, err: TransportResult) returns (started: bool)
      requires Valid() && state == None && peer == Offline
      modifies this`state, this`transitions, this`statuses, this`peer, this`localId, this`playerNodes, this`events
      ensures Valid()
      ensures started <==> err == Ok
      ensures transitions == old(transitions) + [ServerStarting, if started then ServerStarted else None]
      ensures !started ==> state == None && peer == Offline && playerNodes == map[] && events == old(events)
      ensures !started ==> statuses == old(statuses) + [Status(Info, "Starting Server..."),
        Status(Error, "Failed to start server on port " + IntToString(port.GetOr(gamePort)) + ErrorSuffix(err))]
      ensures started ==> state == ServerStarted && peer == ENetServer && localId == ServerAuthority
      ensures started ==> statuses == old(statuses) + [Status(Info, "Starting Server..."), Status(Success, "ACTIVE")]
      ensures started && !dedicated ==> (playerNodes == map[ServerAuthority := PlayerNode(ServerAuthority)]
        && events == old(events) + [PlayerInitialised(ServerAuthority), ChildAdded(ServerAuthority),
          PlayerAdded(PlayerNode(ServerAuthority))])
      ensures started && dedicated ==> playerNodes == map[] && events == old(events)
      ensures clients == old(clients)
    {
      var p := port.GetOr(gamePort);
      SetState(ServerStarting);
      SendStatus(Info, "Starting Server...");
      if err != Ok {
        SetState(None);
        SendStatus(Error, "Failed to start server on port " + IntToString(p) + ErrorSuffix(err));
        return false;
      }
      peer := ENetServer;
      localId := ServerAuthority;
      SetState(ServerStarted);
      SendStatus(Success, "ACTIVE");
      if !dedicated {
        var added := AddPlayer(localId);
      }
      return true;
    }

    /**
     * CreateClient: goes to ClientConnecting; a transport error returns to None with an error
     * status and false; otherwise the client peer becomes current, three new connection handlers
     * for this address and port are subscribed next to any earlier ones, and the result is true.
     * `uniqueId` is the id the transport gives this client.
     */
    method CreateClient(address: Optional.Option<string>, port: Optional.Option<int>, err: TransportResult, uniqueId: int)
      returns (created: bool)
      requires Valid() && state == None && peer == Offline
      requires uniqueId > ServerAuthority
      modifies this
      ensures Valid()
      ensures created <==> err == Ok
      ensures transitions == old(transitions) + [ClientConnecting] + (if created then [] else [None])
      ensures playerNodes == map[] && events == old(events)
      ensures !created ==> state == None && peer == Offline && localId == old(localId) && clients == old(clients)
      ensures !created ==> statuses == old(statuses) + [Status(Info, "Connecting to server..."),
        Status(Error, "Failed to connect to " + address.GetOr("") + ":" + IntToString(port.GetOr(gamePort)) + ErrorSuffix(err))]
      ensures created ==> state == ClientConnecting && peer == ENetClient && localId == uniqueId
      ensures created ==> clients == old(clients) + [ClientHandlers(address, port.GetOr(gamePort), true, true)]
      ensures created ==> statuses == old(statuses) + [Status(Info, "Connecting to server...")]
    {
      var p := port.GetOr(gamePort);
      SetState(ClientConnecting);
      SendStatus(Info, "Connecting to server...");
      if err != Ok {
        SetState(None);
        SendStatus(Error, "Failed to connect to " + address.GetOr("") + ":" + IntToString(p) + ErrorSuffix(err));
        return false;
      }
      peer := ENetClient;
      localId := uniqueId;
      clients := clients + [ClientHandlers(address, p, true, true)];
      return true;
    }

    /**
     * The ConnectionFailed handler of the `g`-th CreateClient: unsubscribes its three handlers and
     * goes to None with an error status naming that call's address and port. The client peer is
     * left in place: it is not closed and not replaced.
     */
    method OnConnectionFailed(g: nat)
      requires Valid() && g < |clients| && clients[g].connecting
      modifies this
      ensures Valid()
      ensures clients == old(clients)[g := old(clients)[g].(connecting := false, disconnecting := false)]
      ensures state == None
      ensures transitions == if old(state) == None then old(transitions) else old(transitions) + [None]
      ensures peer == old(peer) && localId == old(localId) && playerNodes == old(playerNodes) && events == old(events)
      ensures statuses == old(statuses) +
        [Status(Error, "Failed to connect to " + old(clients)[g].address.GetOr("") + ":" + IntToString(old(clients)[g].port))]
    {
      var h := clients[g];
      clients := clients[g := h.(connecting := false, disconnecting := false)];
      SetState(None);
      SendStatus(Error, "Failed to connect to " + h.address.GetOr("") + ":" + IntToString(h.port));
    }

    /**
     * The ConnectedToServer handler of the `g`-th CreateClient: unsubscribes its failure and
     * connected handlers, reaches ClientConnected, reports CONNECTED and adds the local player.
     * A handler left over from an earlier client runs too, and its AddPlayer then finds the id taken.
     */
    method OnConnectedToServer(g: nat) returns (added: bool)
      requires Valid() && g < |clients| && clients[g].connecting && peer == ENetClient
      modifies this
      ensures Valid()
      ensures clients == old(clients)[g := old(clients)[g].(connecting := false)]
      ensures state == ClientConnected
      ensures transitions == if old(state) == ClientConnected then old(transitions) else old(transitions) + [ClientConnected]
      ensures peer == ENetClient && localId == old(localId)
      ensures statuses == old(statuses) + [Status(Success, "CONNECTED")]
      ensures added <==> localId !in old(playerNodes)
      ensures playerNodes == if added then old(playerNodes)[localId := PlayerNode(localId)] else old(playerNodes)
      ensures events == old(events) + [PlayerInitialised(localId), ChildAdded(localId)]
        + (if added then [PlayerAdded(PlayerNode(localId))] else [])
    {
      clients := clients[g := clients[g].(connecting := false)];
      SetState(ClientConnected);
      SendStatus(Success, "CONNECTED");
      added := AddPlayer(localId);
    }

    /**
     * The ServerDisconnected handler of the `g`-th CreateClient: unsubscribes itself, closes the
     * peer and warns of the loss.
     */
    method OnServerDisconnected(g: nat) returns (ghost order: seq<int>)
      requires Valid() && g < |clients| && clients[g].disconnecting
      modifies this
      ensures Valid()
      ensures clients == old(clients)[g := old(clients)[g].(disconnecting := false)]
      ensures state == None && peer == Offline && playerNodes == map[]
      ensures transitions == if old(state) == None then old(transitions) else old(transitions) + [None]
      ensures forall k :: k in order <==> k in old(playerNodes)
      ensures events == old(events) + Removals(order, old(playerNodes)) + [AllDespawned]
      ensures statuses == old(statuses) + [Status(Warn, "Lost Connection!")]
    {
      clients := clients[g := clients[g].(disconnecting := false)];
      order := ClosePeer();
      SendStatus(Warn, "Lost Connection!");
    }

    /** StopServer: only from ServerStarting or ServerStarted; ends offline in None with no players. */
    method StopServer() returns (ghost order: seq<int>)
      requires Valid() && state in {ServerStarting, ServerStarted}
      modifies this
      ensures Valid()
      ensures state == None && peer == Offline && playerNodes == map[]
      ensures transitions == old(transitions) + [None]
      ensures forall k :: k in order <==> k in old(playerNodes)
      ensures events == old(events) + Removals(order, old(playerNodes)) + [AllDespawned]
      ensures statuses == old(statuses)
      ensures clients == old(clients)
    {
      order := ClosePeer();
    }

    /**
     * CloseClient: only from ClientConnecting or ClientConnected; ends offline in None with no
     * players. The client's handlers are not unsubscribed here.
     */
    method CloseClient() returns (ghost order: seq<int>)
      requires Valid() && state in {ClientConnecting, ClientConnected}
      modifies this
      ensures Valid()
      ensures state == None && peer == Offline && playerNodes == map[]
      ensures transitions == old(transitions) + [None]
      ensures forall k :: k in order <==> k in old(playerNodes)
      ensures events == old(events) + Removals(order, old(playerNodes)) + [AllDespawned]
      ensures statuses == old(statuses) && clients == old(clients)
    {
      order := ClosePeer();
    }

    /** The PeerConnected signal: a remote peer joined and gets a player node. */
    method OnPeerConnected(peerId: int) returns (added: bool)
      requires Valid() && peer != Offline && peerId != localId
      modifies this`playerNodes, this`events
      ensures Valid()
      ensures added <==> peerId !in old(playerNodes)
      ensures playerNodes == if added then old(playerNodes)[peerId := PlayerNode(peerId)] else old(playerNodes)
      ensures events == old(events) + [ChildAdded(peerId)] + (if added then [PlayerAdded(PlayerNode(peerId))] else [])
    {
      added := AddPlayer(peerId);
    }

    /** The PeerDisconnected signal. */
    method OnPeerDisconnected(peerId: int)
      requires Valid()
      modifies this`playerNodes, this`events
      ensures Valid()
      ensures playerNodes == old(playerNodes) - {peerId}
      ensures events == old(events) +
        if peerId in old(playerNodes) then [ChildFreed(peerId), PlayerRemoved(Optional.Some(old(playerNodes)[peerId]))]
        else [PlayerRemoved(Optional.None)]
    {
      RemovePlayer(peerId);
    }
  }

  /** A client created, closed while still connecting, and created again with the same outcome. */
  method ReconnectAfterClose(appName: seq<App.CodeUnit>) returns (net: Network)
    ensures fresh(net) && net.Valid() && net.state == ClientConnecting && net.peer == ENetClient
    ensures net.localId == 2 && net.playerNodes == map[]
    ensures net.transitions == [ClientConnecting, None, ClientConnecting]
    ensures net.statuses == [Status(Info, "Connecting to server..."), Status(Info, "Connecting to server...")]
    ensures net.clients == [ClientHandlers(Optional.None, net.gamePort, true, true),
      ClientHandlers(Optional.None, net.gamePort, true, true)]
  {
    net := new Network.Initialise(false, appName);
    var created := net.CreateClient(Optional.None, Optional.None, Ok, 2);
    var order := net.CloseClient();
    created := net.CreateClient(Optional.None, Optional.None, Ok, 2);
  }

  /**
   * A client closed while still connecting and then created again keeps the first call's handlers.
   * When the second connection succeeds both ConnectedToServer handlers run: CONNECTED is reported
   * twice and the second AddPlayer finds the local id taken. Both ServerDisconnected handlers stay
   * subscribed (see LoseConnectionTwice).
   */
  method StaleHandlersAfterReconnect(appName: seq<App.CodeUnit>) returns (net: Network, first: bool, second: bool)
    ensures net.Valid() && net.peer == ENetClient && net.localId == 2
    ensures first && !second
    ensures net.playerNodes == map[2 := PlayerNode(2)]
    ensures net.transitions == [ClientConnecting, None, ClientConnecting, ClientConnected]
    ensures net.statuses == [Status(Info, "Connecting to server..."), Status(Info, "Connecting to server..."),
      Status(Success, "CONNECTED"), Status(Success, "CONNECTED")]
    ensures net.clients == [ClientHandlers(Optional.None, net.gamePort, false, true),
      ClientHandlers(Optional.None, net.gamePort, false, true)]
  {
    net := ReconnectAfterClose(appName);
    var h := ClientHandlers(Optional.None, net.gamePort, true, true);
    first := net.OnConnectedToServer(0);
    assert net.clients == [h.(connecting := false), h];
    assert net.transitions == [ClientConnecting, None, ClientConnecting, ClientConnected];
    second := net.OnConnectedToServer(1);
    assert net.clients == [h.(connecting := false), h.(connecting := false)];
  }

  /**
   * With two ServerDisconnected handlers subscribed, losing the server runs both: the peer is
   * closed twice and "Lost Connection!" is reported twice.
   */
  method LoseConnectionTwice(net: Network)
    requires net.Valid() && |net.clients| == 2 && net.clients[0].disconnecting && net.clients[1].disconnecting
    modifies net
    ensures net.Valid() && net.state == None && net.peer == Offline && net.playerNodes == map[]
    ensures net.clients == [old(net.clients[0]).(disconnecting := false), old(net.clients[1]).(disconnecting := false)]
    ensures net.statuses == old(net.statuses) + [Status(Warn, "Lost Connection!"), Status(Warn, "Lost Connection!")]
  {
    var order := net.OnServerDisconnected(0);
    order := net.OnServerDisconnected(1);
  }
}
