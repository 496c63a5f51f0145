/**
 * RpcVehicle.cs of the network test game: the server grants, refuses and releases vehicles and
 * keeps `Drivers` (vehicle name to peer id); clients apply what the server tells them.
 *
 * The dictionary GameServer creates and hands to RpcVehicle for writing is RpcVehicle's field
 * `drivers` here; the read-only views of the players and vehicles dictionaries, and the
 * VehicleHasGold closure, are passed to each call as their current values.
 */
module RpcVehicle {
  import opened Optional
  import Network
  import PS = PlayerStatus

  /** The remote procedure calls RpcVehicle sends, with their arguments. */
  datatype Call =
    | OnVehicleRequest(vehicleName: string)
    | OnVehicleRelease(vehicleName: string)
    | OnVehicleEnter(vehicleName: string)
    | OnVehicleExit(vehicleName: string)
    | OnVehicleDenied(vehicleName: string, driverId: int)

  /** `RpcId(peer, call)`: a call addressed to one peer. */
  datatype Sent = Sent(peer: int, call: Call)

  /** The VehicleEnter, VehicleExit and VehicleDenied events, with their arguments. */
  datatype VehicleEvent =
    | Entered(vehicle: PS.Vehicle?)
    | Exited(vehicle: PS.Vehicle?)
    | Denied(vehicle: PS.Vehicle?, driverId: int)

  /** Every player is stored under its own PlayerId. */
  ghost predicate PlayersKeyed(players: map<int, PS.PlayerStatus>)
    reads players.Values
  {
    forall id :: id in players ==> players[id].playerId == id
  }

  /** Every vehicle is stored under its own name. */
  predicate VehiclesKeyed(vehicles: map<string, PS.Vehicle>) {
    forall n :: n in vehicles ==> vehicles[n].name == n
  }

  /** GetPlayer: the player of that id, or null (with a warning). */
  function GetPlayer(players: map<int, PS.PlayerStatus>, playerId: int): PS.PlayerStatus? {
    if playerId in players then players[playerId] else null
  }

  /** GetVehicle: the vehicle of that name, or null (with a warning). */
  function GetVehicle(vehicles: map<string, PS.Vehicle>, vehicleName: string): PS.Vehicle? {
    PS.LookUp(vehicles, Some(vehicleName))
  }

  /** The driverId `Drivers.TryGetValue` leaves: the entry, or 0 when there is none. */
  function DriverId(drivers: map<string, int>, vehicleName: string): (id: int)
    ensures vehicleName !in drivers ==> id == 0
    ensures vehicleName in drivers ==> id == drivers[vehicleName]
  {
    if vehicleName in drivers then drivers[vehicleName] else 0
  }

  /** The VehicleName of every player: the seat each player believes it holds. */
  function Seats(players: map<int, PS.PlayerStatus>): (s: map<int, Option<string>>)
    reads players.Values
    ensures s.Keys == players.Keys
    ensures forall id :: id in players ==> s[id] == players[id].vehicleName
  {
    map id | id in players :: players[id].vehicleName
  }

  /** Removing a player removes its seat and nothing else. */
  lemma SeatsWithout(players: map<int, PS.PlayerStatus>, id: int)
    ensures Seats(players - {id}) == Seats(players) - {id}
  {
  }

  /**
   * `Drivers` and the players' VehicleName agree: every entry names a known player seated in that
   * vehicle, and every seated player is that vehicle's entry.
   */
  predicate Consistent(drivers: map<string, int>, seats: map<int, Option<string>>) {
    && (forall v :: v in drivers ==> drivers[v] in seats && seats[drivers[v]] == Some(v))
    && (forall id :: id in seats && seats[id].Some? ==> seats[id].value in drivers && drivers[seats[id].value] == id)
  }

  /** `drivers` without the entry of the given seat, if any. */
  function Vacate(drivers: map<string, int>, seat: Option<string>): (r: map<string, int>)
    ensures seat.None? ==> r == drivers
    ensures seat.Some? ==> r == drivers - {seat.value}
  {
    if seat.Some? then drivers - {seat.value} else drivers
  }

  /** While the two agree, no player drives two vehicles. */
  lemma ConsistentIsOneSeatEach(drivers: map<string, int>, seats: map<int, Option<string>>, v: string, w: string)
    requires Consistent(drivers, seats)
    requires v in drivers && w in drivers && drivers[v] == drivers[w]
    ensures v == w
  {
    assert seats[drivers[v]] == Some(v) && seats[drivers[w]] == Some(w);
  }

  /** A granted request (the vehicle has no entry) keeps the two in agreement. */
  lemma GrantKeepsConsistent(drivers: map<string, int>, seats: map<int, Option<string>>, p: int, vehicleName: string)
    requires Consistent(drivers, seats) && p in seats && vehicleName !in drivers
    ensures Consistent(Vacate(drivers, seats[p])[vehicleName := p], seats[p := Some(vehicleName)])
  {
    var d, s := Vacate(drivers, seats[p])[vehicleName := p], seats[p := Some(vehicleName)];
    forall v | v in d ensures d[v] in s && s[d[v]] == Some(v) {
      if v != vehicleName {
        assert v in drivers && d[v] == drivers[v];
        assert seats[drivers[v]] == Some(v);
        assert seats[p] == Some(v) ==> v !in d;
        assert drivers[v] != p;
      }
    }
    forall id | id in s && s[id].Some? ensures s[id].value in d && d[s[id].value] == id {
      if id != p {
        var u := seats[id].value;
        assert u in drivers && drivers[u] == id;
        assert u != vehicleName;
        if seats[p].Some? {
          assert drivers[seats[p].value] == p;
        }
      }
    }
  }

  /** A release by the vehicle's own driver keeps the two in agreement. */
  lemma ReleaseByDriverKeepsConsistent(drivers: map<string, int>, seats: map<int, Option<string>>, p: int, vehicleName: string)
    requires Consistent(drivers, seats) && vehicleName in drivers && drivers[vehicleName] == p
    ensures Consistent(drivers - {vehicleName}, seats[p := None])
  {
    var d, s := drivers - {vehicleName}, seats[p := None];
    forall v | v in d ensures d[v] in s && s[d[v]] == Some(v) {
      assert seats[drivers[v]] == Some(v);
      assert seats[p] == Some(vehicleName);
    }
    forall id | id in s && s[id].Some? ensures s[id].value in d && d[s[id].value] == id {
      assert drivers[seats[id].value] == id;
    }
  }

  /**
   * A release sent by a peer that does not drive the vehicle still deletes its entry, and leaves
   * the real driver seated in a vehicle that no longer lists them.
   */
  lemma ReleaseByOtherBreaksConsistent(drivers: map<string, int>, seats: map<int, Option<string>>, p: int, vehicleName: string)
    requires Consistent(drivers, seats) && p in seats && vehicleName in drivers && drivers[vehicleName] != p
    ensures !Consistent(drivers - {vehicleName}, seats[p := None])
  {
    var q := drivers[vehicleName];
    assert q in seats && seats[q] == Some(vehicleName);
    assert seats[p := None][q] == Some(vehicleName);
  }

  /** Removing a player together with its seat's entry keeps the two in agreement. */
  lemma RemoveKeepsConsistent(drivers: map<string, int>, seats: map<int, Option<string>>, p: int)
    requires Consistent(drivers, seats) && p in seats
    ensures Consistent(Vacate(drivers, seats[p]), seats - {p})
  {
    var d, s := Vacate(drivers, seats[p]), seats - {p};
    forall v | v in d ensures d[v] in s && s[d[v]] == Some(v) {
      assert seats[drivers[v]] == Some(v);
      assert seats[p] == Some(v) ==> v !in d;
      assert drivers[v] != p;
    }
    forall id | id in s && s[id].Some? ensures s[id].value in d && d[s[id].value] == id {
      assert drivers[seats[id].value] == id;
    }
  }

  class RpcVehicle {
    /** Drivers: vehicle name to the peer id driving it. */
    var drivers: map<string, int>
    /** The calls sent, in order. */
    var outbox: seq<Sent>
    /** The events raised on this peer, in order. */
    var raised: seq<VehicleEvent>
    /** The events queued by CallDeferred in single-player mode, not yet run. */
    var deferred: seq<VehicleEvent>

    constructor ()
      ensures drivers == map[] && outbox == [] && raised == [] && deferred == []
    {
      drivers := map[];
      outbox := [];
      raised := [];
      deferred := [];
    }

    /** RequestVehicle: single-player mode raises VehicleEnter deferred; otherwise asks the server. */
    method RequestVehicle(singlePlayer: bool, vehicle: PS.Vehicle)
      modifies this`outbox, this`deferred
      ensures singlePlayer ==> deferred == old(deferred) + [Entered(vehicle)] && outbox == old(outbox)
      ensures !singlePlayer ==> deferred == old(deferred)
      ensures !singlePlayer ==> outbox == old(outbox) + [Sent(Network.ServerAuthority, OnVehicleRequest(vehicle.name))]
    {
      if singlePlayer {
        deferred := deferred + [Entered(vehicle)];
      } else {
        outbox := outbox + [Sent(Network.ServerAuthority, OnVehicleRequest(vehicle.name))];
      }
    }

    /** ReleaseVehicle: single-player mode raises VehicleExit deferred; otherwise asks the server. */
    method ReleaseVehicle(singlePlayer: bool, vehicle: PS.Vehicle)
      modifies this`outbox, this`deferred
      ensures singlePlayer ==> deferred == old(deferred) + [Exited(vehicle)] && outbox == old(outbox)
      ensures !singlePlayer ==> deferred == old(deferred)
      ensures !singlePlayer ==> outbox == old(outbox) + [Sent(Network.ServerAuthority, OnVehicleRelease(vehicle.name))]
    {
      if singlePlayer {
        deferred := deferred + [Exited(vehicle)];
      } else {
        outbox := outbox + [Sent(Network.ServerAuthority, OnVehicleRelease(vehicle.name))];
      }
    }

    /**
     * AddDriver: TryAdd, and on an existing entry a warning and an overwrite; the warning is not
     * modelled, so both cases are the one assignment.
     */
    method AddDriver(vehicleName: string, playerId: int)
      modifies this`drivers
      ensures drivers == old(drivers)[vehicleName := playerId]
    {
      drivers := drivers[vehicleName := playerId];
    }

    /** RemoveDriver: the entry goes whoever it names; a missing or other driver is only a warning. */
    method RemoveDriver(vehicleName: string, playerId: int)
      modifies this`drivers
      ensures drivers == old(drivers) - {vehicleName}
    {
      drivers := drivers - {vehicleName};
    }

    /**
     * ServerOnly_EnterVehicle: records the driver, hands the vehicle's authority to the player,
     * seats the player and tells that player only. (Its null guard is at the call sites.)
     */
    method EnterVehicle(player: PS.PlayerStatus, vehicle: PS.Vehicle, vehicles: map<string, PS.Vehicle>)
      modifies this`drivers, this`outbox, vehicle`authority
      modifies player`vehicleName, player`vehicle, player`pushed
      ensures drivers == old(drivers)[vehicle.name := player.playerId]
      ensures vehicle.authority == player.playerId
      ensures player.vehicleName == Some(vehicle.name)
      ensures old(player.vehicleName) != Some(vehicle.name) ==> player.vehicle == PS.LookUp(vehicles, Some(vehicle.name))
      ensures player.pushed == old(player.pushed) + PS.Pushes(old(player.vehicleName) != Some(vehicle.name), PS.VehicleName, player.handlers)
      ensures outbox == old(outbox) + [Sent(player.playerId, OnVehicleEnter(vehicle.name))]
    {
      AddDriver(vehicle.name, player.playerId);
      vehicle.authority := player.playerId;
      player.SetVehicleName(Some(vehicle.name), vehicles);
      outbox := outbox + [Sent(player.playerId, OnVehicleEnter(vehicle.name))];
    }

    /**
     * ServerOnly_ExitVehicle: removes the vehicle's entry and returns its authority to the
     * server; with notify, also unseats the player and tells that player only. (Its null guard is
     * at the call sites.)
     */
    method ExitVehicle(player: PS.PlayerStatus, vehicle: PS.Vehicle, notify: bool, vehicles: map<string, PS.Vehicle>)
      modifies this`drivers, this`outbox, vehicle`authority
      modifies (if notify then {player} else {})`vehicleName, (if notify then {player} else {})`vehicle
      modifies (if notify then {player} else {})`pushed
      ensures drivers == old(drivers) - {vehicle.name}
      ensures vehicle.authority == Network.ServerAuthority
      ensures notify ==> player.vehicleName == None
      ensures notify && old(player.vehicleName) != None ==> player.vehicle == null
      ensures notify && old(player.vehicleName) == None ==> player.vehicle == old(player.vehicle)
      ensures notify ==> player.pushed == old(player.pushed) + PS.Pushes(old(player.vehicleName) != None, PS.VehicleName, player.handlers)
      ensures notify ==> outbox == old(outbox) + [Sent(player.playerId, OnVehicleExit(vehicle.name))]
      ensures !notify ==> outbox == old(outbox)
    {
      RemoveDriver(vehicle.name, player.playerId);
      vehicle.authority := Network.ServerAuthority;
      if !notify {
        return;
      }
      player.SetVehicleName(None, vehicles);
      outbox := outbox + [Sent(player.playerId, OnVehicleExit(vehicle.name))];
    }

    /**
     * ResetVehicle, when a player leaves: off the server nothing happens; a player without a
     * vehicle needs nothing; otherwise the vehicle's entry goes and its authority returns to the
     * server, silently and without unseating the player. A null player is dereferenced, which
     * throws.
     */
    method ResetVehicle(isServer: bool, player: PS.PlayerStatus?, vehicles: map<string, PS.Vehicle>) returns (thrown: bool)
      requires VehiclesKeyed(vehicles)
      modifies this`drivers, this`outbox, vehicles.Values`authority
      ensures outbox == old(outbox)
      ensures thrown <==> isServer && player == null
      ensures !isServer || player == null || player.vehicleName.None? ==> drivers == old(drivers) && unchanged(vehicles.Values)
      ensures isServer && player != null && player.vehicleName.Some? ==>
        && drivers == (if player.vehicleName.value in vehicles then old(drivers) - {player.vehicleName.value} else old(drivers))
        && (forall n :: n in vehicles && n != player.vehicleName.value ==> vehicles[n].authority == old(vehicles[n].authority))
        && (player.vehicleName.value in vehicles ==> vehicles[player.vehicleName.value].authority == Network.ServerAuthority)
    {
      if !isServer {
        return false;
      }
      if player == null {
        return true;
      }
      if player.vehicleName.None? {
        return false;
      }
      var vehicle := GetVehicle(vehicles, player.vehicleName.value);
      if vehicle != null {
        assert vehicle in vehicles.Values;
        ExitVehicle(player, vehicle, false, vehicles);
      }
      return false;
    }

    /**
     * RpcServer_OnVehicleRequest from `sender`: an unknown player or vehicle is ignored; a vehicle
     * with any driver (even the sender) or with the gold is refused, to the sender only, with the
     * driver's id or 0; otherwise the sender leaves its current vehicle, with notification, and
     * enters the requested one.
     */
    method ServerOnVehicleRequest(sender: int, vehicleName: string, players: map<int, PS.PlayerStatus>,
                                  vehicles: map<string, PS.Vehicle>, vehicleWithGold: PS.Vehicle?)
      requires PlayersKeyed(players) && VehiclesKeyed(vehicles)
      modifies this`drivers, this`outbox, vehicles.Values`authority
      modifies players.Values`vehicleName, players.Values`vehicle, players.Values`pushed
      ensures sender !in players || vehicleName !in vehicles ==>
        && drivers == old(drivers) && outbox == old(outbox)
        && unchanged(vehicles.Values) && unchanged(players.Values)
      ensures sender in players && vehicleName in vehicles && (vehicleName in old(drivers) || vehicles[vehicleName] == vehicleWithGold) ==>
        && drivers == old(drivers)
        && outbox == old(outbox) + [Sent(sender, OnVehicleDenied(vehicleName, DriverId(old(drivers), vehicleName)))]
        && unchanged(vehicles.Values) && unchanged(players.Values)
      ensures sender in players && vehicleName in vehicles && vehicleName !in old(drivers) && vehicles[vehicleName] != vehicleWithGold ==>
        var prev := old(players[sender].vehicleName);
        var exits := prev.Some? && prev.value in vehicles;
        && drivers == (if exits then old(drivers) - {prev.value} else old(drivers))[vehicleName := sender]
        && Seats(players) == old(Seats(players))[sender := Some(vehicleName)]
        && players[sender].vehicle == vehicles[vehicleName]
        && vehicles[vehicleName].authority == sender
        && (exits && prev.value != vehicleName ==> vehicles[prev.value].authority == Network.ServerAuthority)
        && (forall n :: n in vehicles && n != vehicleName && (!exits || n != prev.value) ==> vehicles[n].authority == old(vehicles[n].authority))
        && outbox == old(outbox) + (if exits then [Sent(sender, OnVehicleExit(prev.value))] else []) + [Sent(sender, OnVehicleEnter(vehicleName))]
        && players[sender].pushed == old(players[sender].pushed) + PS.Pushes(exits, PS.VehicleName, players[sender].handlers)
                                     + PS.Pushes(true, PS.VehicleName, players[sender].handlers)
      ensures forall id :: id in players && id != sender ==>
        players[id].vehicle == old(players[id].vehicle) && players[id].pushed == old(players[id].pushed)
      ensures old(Consistent(drivers, Seats(players))) && old(drivers.Keys <= vehicles.Keys) ==>
        Consistent(drivers, Seats(players)) && drivers.Keys <= vehicles.Keys
    {
      var player := GetPlayer(players, sender);
      var vehicle := GetVehicle(vehicles, vehicleName);
      if player == null || vehicle == null {
        return;
      }
      if vehicleName in drivers || vehicle == vehicleWithGold {
        outbox := outbox + [Sent(sender, OnVehicleDenied(vehicleName, DriverId(drivers, vehicleName)))];
        return;
      }
      SwitchVehicle(sender, vehicleName, players, vehicles);
    }

    /** The first half of a granted request: the player leaves its current vehicle, if known, with notification. */
    method LeaveCurrent(player: PS.PlayerStatus, vehicles: map<string, PS.Vehicle>)
      requires VehiclesKeyed(vehicles)
      modifies this`drivers, this`outbox, vehicles.Values`authority
      modifies player`vehicleName, player`vehicle, player`pushed
      ensures
        var prev := old(player.vehicleName);
        var exits := prev.Some? && prev.value in vehicles;
        && drivers == (if exits then old(drivers) - {prev.value} else old(drivers))
        && player.vehicleName == (if exits then None else prev)
        && player.vehicle == (if exits then null else old(player.vehicle))
        && player.pushed == old(player.pushed) + PS.Pushes(exits, PS.VehicleName, player.handlers)
        && (exits ==> vehicles[prev.value].authority == Network.ServerAuthority)
        && (forall n :: n in vehicles && (!exits || n != prev.value) ==> vehicles[n].authority == old(vehicles[n].authority))
        && outbox == old(outbox) + (if exits then [Sent(player.playerId, OnVehicleExit(prev.value))] else [])
    {
      if player.vehicleName.Some? {
        var current := GetVehicle(vehicles, player.vehicleName.value);
        if current != null {
          assert current in vehicles.Values;
          ExitVehicle(player, current, true, vehicles);
        }
      }
    }

    /** The granted path of a vehicle request: leave the current vehicle, with notification, and enter the requested one. */
    method SwitchVehicle(sender: int, vehicleName: string, players: map<int, PS.PlayerStatus>, vehicles: map<string, PS.Vehicle>)
      requires PlayersKeyed(players) && VehiclesKeyed(vehicles)
      requires sender in players && vehicleName in vehicles && vehicleName !in drivers
      modifies this`drivers, this`outbox, vehicles.Values`authority
      modifies players.Values`vehicleName, players.Values`vehicle, players.Values`pushed
      ensures
        var prev := old(players[sender].vehicleName);
        var exits := prev.Some? && prev.value in vehicles;
        && drivers == (if exits then old(drivers) - {prev.value} else old(drivers))[vehicleName := sender]
        && Seats(players) == old(Seats(players))[sender := Some(vehicleName)]
        && players[sender].vehicle == vehicles[vehicleName]
        && vehicles[vehicleName].authority == sender
        && (exits && prev.value != vehicleName ==> vehicles[prev.value].authority == Network.ServerAuthority)
        && (forall n :: n in vehicles && n != vehicleName && (!exits || n != prev.value) ==> vehicles[n].authority == old(vehicles[n].authority))
        && outbox == old(outbox) + (if exits then [Sent(sender, OnVehicleExit(prev.value))] else []) + [Sent(sender, OnVehicleEnter(vehicleName))]
        && players[sender].pushed == old(players[sender].pushed) + PS.Pushes(exits, PS.VehicleName, players[sender].handlers)
                                     + PS.Pushes(true, PS.VehicleName, players[sender].handlers)
      ensures forall id :: id in players && id != sender ==>
        players[id].vehicle == old(players[id].vehicle) && players[id].pushed == old(players[id].pushed)
      ensures old(Consistent(drivers, Seats(players))) && old(drivers.Keys <= vehicles.Keys) ==>
        Consistent(drivers, Seats(players)) && drivers.Keys <= vehicles.Keys
    {
      var player, vehicle := players[sender], vehicles[vehicleName];
      ghost var seats := Seats(players);
      ghost var prev := player.vehicleName;
      LeaveCurrent(player, vehicles);
      EnterVehicle(player, vehicle, vehicles);
      forall id | id in players && id != sender
        ensures players[id].vehicle == old(players[id].vehicle) && players[id].pushed == old(players[id].pushed)
        ensures Seats(players)[id] == seats[id]
      {
        assert players[id] != player;
      }
      assert Seats(players) == seats[sender := Some(vehicleName)];
      if Consistent(old(drivers), seats) && old(drivers.Keys) <= vehicles.Keys {
        GrantKeepsConsistent(old(drivers), seats, sender, vehicleName);
        assert prev.Some? ==> prev.value in vehicles;
      }
    }

    /**
     * RpcServer_OnVehicleRelease from `sender`: with a known player and vehicle, the vehicle's
     * entry goes (whoever it names), its authority returns to the server, and the sender is
     * unseated and told; otherwise nothing happens.
     */
    method ServerOnVehicleRelease(sender: int, vehicleName: string, players: map<int, PS.PlayerStatus>,
                                  vehicles: map<string, PS.Vehicle>)
      requires PlayersKeyed(players) && VehiclesKeyed(vehicles)
      modifies this`drivers, this`outbox, vehicles.Values`authority
      modifies players.Values`vehicleName, players.Values`vehicle, players.Values`pushed
      ensures sender !in players || vehicleName !in vehicles ==>
        && drivers == old(drivers) && outbox == old(outbox)
        && unchanged(vehicles.Values) && unchanged(players.Values)
      ensures sender in players && vehicleName in vehicles ==>
        && drivers == old(drivers) - {vehicleName}
        && Seats(players) == old(Seats(players))[sender := None]
        && vehicles[vehicleName].authority == Network.ServerAuthority
        && (forall n :: n in vehicles && n != vehicleName ==> vehicles[n].authority == old(vehicles[n].authority))
        && outbox == old(outbox) + [Sent(sender, OnVehicleExit(vehicleName))]
        && players[sender].vehicle == (if old(players[sender].vehicleName) != None then null else old(players[sender].vehicle))
        && players[sender].pushed == old(players[sender].pushed)
                                     + PS.Pushes(old(players[sender].vehicleName) != None, PS.VehicleName, players[sender].handlers)
      ensures forall id :: id in players && id != sender ==>
        players[id].vehicle == old(players[id].vehicle) && players[id].pushed == old(players[id].pushed)
      ensures old(Consistent(drivers, Seats(players))) && vehicleName in old(drivers) && old(drivers[vehicleName]) == sender ==>
        Consistent(drivers, Seats(players))
    {
      ghost var seats := Seats(players);
      var player := GetPlayer(players, sender);
      var vehicle := GetVehicle(vehicles, vehicleName);
      if player == null || vehicle == null {
        return;
      }
      ExitVehicle(player, vehicle, true, vehicles);
      if sender in players && vehicleName in vehicles {
        forall id | id in players && id != sender
          ensures players[id].vehicle == old(players[id].vehicle) && players[id].pushed == old(players[id].pushed)
          ensures Seats(players)[id] == seats[id]
        {
          assert players[id] != player;
        }
        assert Seats(players) == seats[sender := None];
        if Consistent(old(drivers), seats) && vehicleName in old(drivers) && old(drivers[vehicleName]) == sender {
          ReleaseByDriverKeepsConsistent(old(drivers), seats, sender, vehicleName);
        }
      }
    }

    /**
     * RpcClient_OnVehicleEnter on a peer: ignored unless sent by the server; hands the named
     * vehicle's authority to this peer and raises VehicleEnter. An unknown name is dereferenced,
     * which throws.
     */
    method ClientOnVehicleEnter(sender: int, localId: int, vehicleName: string, vehicles: map<string, PS.Vehicle>) returns (thrown: bool)
      requires VehiclesKeyed(vehicles)
      modifies this`raised, vehicles.Values`authority
      ensures thrown <==> sender == Network.ServerAuthority && vehicleName !in vehicles
      ensures sender != Network.ServerAuthority || thrown ==> raised == old(raised) && unchanged(vehicles.Values)
      ensures sender == Network.ServerAuthority && vehicleName in vehicles ==>
        && vehicles[vehicleName].authority == localId
        && (forall n :: n in vehicles && n != vehicleName ==> vehicles[n].authority == old(vehicles[n].authority))
        && raised == old(raised) + [Entered(vehicles[vehicleName])]
    {
      if sender != Network.ServerAuthority {
        return false;
      }
      var vehicle := GetVehicle(vehicles, vehicleName);
      if vehicle == null {
        return true;
      }
      vehicle.authority := localId;
      raised := raised + [Entered(vehicle)];
      return false;
    }

    /**
     * RpcClient_OnVehicleExit on a peer: ignored unless sent by the server; returns the named
     * vehicle's authority to the server and raises VehicleExit. An unknown name throws.
     */
    method ClientOnVehicleExit(sender: int, vehicleName: string, vehicles: map<string, PS.Vehicle>) returns (thrown: bool)
      requires VehiclesKeyed(vehicles)
      modifies this`raised, vehicles.Values`authority
      ensures thrown <==> sender == Network.ServerAuthority && vehicleName !in vehicles
      ensures sender != Network.ServerAuthority || thrown ==> raised == old(raised) && unchanged(vehicles.Values)
      ensures sender == Network.ServerAuthority && vehicleName in vehicles ==>
        && vehicles[vehicleName].authority == Network.ServerAuthority
        && (forall n :: n in vehicles && n != vehicleName ==> vehicles[n].authority == old(vehicles[n].authority))
        && raised == old(raised) + [Exited(vehicles[vehicleName])]
    {
      if sender != Network.ServerAuthority {
        return false;
      }
      var vehicle := GetVehicle(vehicles, vehicleName);
      if vehicle == null {
        return true;
      }
      vehicle.authority := Network.ServerAuthority;
      raised := raised + [Exited(vehicle)];
      return false;
    }

    /**
     * RpcClient_OnVehicleDenied on a peer: ignored unless sent by the server; raises
     * VehicleDenied with the named vehicle (null when unknown) and the driver id.
     */
    method ClientOnVehicleDenied(sender: int, vehicleName: string, driverId: int, vehicles: map<string, PS.Vehicle>)
      modifies this`raised
      ensures sender != Network.ServerAuthority ==> raised == old(raised)
      ensures sender == Network.ServerAuthority ==> raised == old(raised) + [Denied(GetVehicle(vehicles, vehicleName), driverId)]
    {
      if sender != Network.ServerAuthority {
        return;
      }
      var vehicle := GetVehicle(vehicles, vehicleName);
      raised := raised + [Denied(vehicle, driverId)];
    }
  }
}
