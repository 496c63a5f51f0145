/**
 * GameServer.cs of the network test game: the server's dictionaries of players (by peer id) and
 * vehicles (by node name), the drivers dictionary it hands to RpcVehicle for writing, and the
 * joining and leaving of players.
 *
 * RpcVehicle owns `drivers` as its field; RpcGold and RpcVehicle receive the players and vehicles
 * dictionaries as read-only views, which is how each call here passes them on.
 */
module GameServer {
  import opened Optional
  import Network
  import DataSync
  import PS = PlayerStatus
  import RV = RpcVehicle
  import RG = RpcGold

  /** The vehicle children keyed by their names, later children last. */
  function ByName(children: seq<PS.Vehicle>): (r: map<string, PS.Vehicle>)
    ensures RV.VehiclesKeyed(r)
    ensures forall k :: 0 <= k < |children| ==> children[k].name in r
  {
    if children == [] then map[]
    else
      var last := children[|children| - 1];
      ByName(children[..|children| - 1])[last.name := last]
  }

  /** No child shares its name with an earlier child or with a vehicle already listed. */
  predicate Addable(vehicles: map<string, PS.Vehicle>, children: seq<PS.Vehicle>) {
    && (forall k :: 0 <= k < |children| ==> children[k].name !in vehicles)
    && (forall j, k :: 0 <= j < k < |children| ==> children[j].name != children[k].name)
  }

  /** Adding the next child keeps the names addable when its name is new. */
  lemma AddableGrows(vehicles: map<string, PS.Vehicle>, children: seq<PS.Vehicle>, i: nat)
    requires i < |children| && Addable(vehicles, children[..i])
    requires children[i].name !in vehicles && children[i].name !in ByName(children[..i])
    ensures Addable(vehicles, children[..i + 1])
    ensures ByName(children[..i + 1]) == ByName(children[..i])[children[i].name := children[i]]
  {
    var prefix, next := children[..i], children[..i + 1];
    assert next[..i] == prefix;
    forall k | 0 <= k <= i ensures next[k].name !in vehicles {
      if k < i {
        assert next[k] == prefix[k];
      }
    }
    forall j, k | 0 <= j < k <= i ensures next[j].name != next[k].name {
      assert next[j] == prefix[j];
      if k < i {
        assert next[k] == prefix[k];
      } else {
        assert prefix[j].name in ByName(prefix);
      }
    }
  }

  /** Updating the right operand of a map union updates the union. */
  lemma MergeUpdate(a: map<string, PS.Vehicle>, b: map<string, PS.Vehicle>, k: string, v: PS.Vehicle)
    ensures a + b[k := v] == (a + b)[k := v]
  {
  }

  /** Every key of ByName is the name of some child. */
  lemma {:induction false} ByNameKeys(children: seq<PS.Vehicle>, n: string)
    requires n in ByName(children)
    ensures exists k :: 0 <= k < |children| && children[k].name == n
  {
    var last := children[|children| - 1];
    var prefix := children[..|children| - 1];
    if n != last.name {
      ByNameKeys(prefix, n);
      var k :| 0 <= k < |prefix| && prefix[k].name == n;
      assert children[k] == prefix[k];
    }
  }

  /** A child whose name is already present makes the whole sequence not addable. */
  lemma AddableStops(vehicles: map<string, PS.Vehicle>, children: seq<PS.Vehicle>, i: nat)
    requires i < |children| && children[i].name in vehicles + ByName(children[..i])
    ensures !Addable(vehicles, children)
  {
    var n := children[i].name;
    if n !in vehicles {
      ByNameKeys(children[..i], n);
      var j :| 0 <= j < i && children[..i][j].name == n;
      assert children[j].name == n;
    }
  }

  /**
   * The player scene entering the tree and Player.Initialise: a new status node with its sync
   * child; the sync node is ready at once (the server is its authority), the status node
   * registers its synced properties, then takes the player id.
   */
  method NewPlayer(playerId: int) returns (status: PS.PlayerStatus)
    ensures fresh(status) && fresh(status.sync)
    ensures status.Valid() && status.sync.ready
    ensures status.playerId == playerId && status.vehicleName.None? && !status.hasGold && status.vehicle == null
    ensures status.deliveries == 0 && status.captures == 0 && status.steals == 0
    ensures status.handlers == {PS.PlayerId, PS.VehicleName, PS.HasGold, PS.Deliveries, PS.Captures, PS.Steals}
    ensures status.pushed == PS.Pushes(playerId != 0, PS.PlayerId, status.handlers)
  {
    var sync := new DataSync.DataSync(Network.ServerAuthority, Network.ServerAuthority, map[]);
    status := new PS.PlayerStatus(sync);
    sync.OnReadyNode();
    status.OnReadyNode();
    status.SetPlayerId(playerId);
  }

  class GameServer {
    /** Whether this peer is the multiplayer server. */
    const isServer: bool
    const rpcVehicle: RV.RpcVehicle
    const rpcGold: RG.RpcGold
    /** Players: peer id to the player's status node. */
    var players: map<int, PS.PlayerStatus>
    /**
     * Vehicles: node name to vehicle. In the game this dictionary is static, shared by the class,
     * and a player status reads it through the class; with the single server a scene holds, this
     * instance field, handed to PlayerStatus.SetVehicleName as a parameter, is the same dictionary.
     */
    var vehicles: map<string, PS.Vehicle>

    /**
     * Every player sits under its own id, every vehicle under its own name, and every driven
     * vehicle is a known vehicle.
     */
    ghost predicate Valid()
      reads this, rpcVehicle, players.Values
    {
      && RV.PlayersKeyed(players)
      && RV.VehiclesKeyed(vehicles)
      && rpcVehicle.drivers.Keys <= vehicles.Keys
    }

    /** Drivers and the players' VehicleName agree (see RpcVehicle.Consistent). */
    ghost predicate Agreed()
      reads this, rpcVehicle, players.Values
    {
      RV.Consistent(rpcVehicle.drivers, RV.Seats(players))
    }

    constructor (isServer: bool, rpcVehicle: RV.RpcVehicle, rpcGold: RG.RpcGold)
      requires rpcVehicle.drivers == map[]
      ensures Valid() && Agreed()
      ensures this.isServer == isServer && this.rpcVehicle == rpcVehicle && this.rpcGold == rpcGold
      ensures players == map[] && vehicles == map[]
    {
      this.isServer := isServer;
      this.rpcVehicle := rpcVehicle;
      this.rpcGold := rpcGold;
      players := map[];
      vehicles := map[];
    }

    /**
     * Initialise: adds every vehicle child under its name; `Dictionary.Add` throws at the first
     * name already present, leaving the earlier children added.
     */
    method Initialise(children: seq<PS.Vehicle>) returns (thrown: bool)
      requires Valid()
      modifies this`vehicles
      ensures Valid()
      ensures !thrown <==> Addable(old(vehicles), children)
      ensures !thrown ==> vehicles == old(vehicles) + ByName(children)
      ensures thrown ==> exists k :: 0 <= k < |children| && vehicles == old(vehicles) + ByName(children[..k])
                                     && Addable(old(vehicles), children[..k]) && children[k].name in vehicles
    {
      var i := 0;
      while i < |children|
        invariant 0 <= i <= |children|
        invariant vehicles == old(vehicles) + ByName(children[..i])
        invariant Addable(old(vehicles), children[..i])
        invariant RV.VehiclesKeyed(vehicles) && old(vehicles).Keys <= vehicles.Keys
      {
        var child := children[i];
        if child.name in vehicles {
          AddableStops(old(vehicles), children, i);
          return true;
        }
        AddableGrows(old(vehicles), children, i);
        MergeUpdate(old(vehicles), ByName(children[..i]), child.name, child);
        vehicles := vehicles[child.name := child];
        i := i + 1;
      }
      assert children[..i] == children;
      return false;
    }

    /** The TreeExiting handler of the vehicles node: drivers, players and vehicles are cleared. */
    method OnVehiclesExiting()
      modifies rpcVehicle`drivers, this`players, this`vehicles
      ensures Valid() && Agreed()
      ensures rpcVehicle.drivers == map[] && players == map[] && vehicles == map[]
    {
      rpcVehicle.drivers := map[];
      players := map[];
      vehicles := map[];
    }

    /** Start: on the server only, RpcGold starts its round. */
    method Start()
      requires rpcGold.Valid() && rpcGold.Unstarted()
      modifies rpcGold`started, rpcGold`spawnRequests
      ensures rpcGold.Valid()
      ensures !isServer ==> rpcGold.Unstarted()
      ensures isServer ==> rpcGold.SpawningGold()
    {
      if !isServer {
        return;
      }
      rpcGold.Start(isServer);
    }

    /**
     * AddPlayer on the server: a new player whose status node registers its synced properties
     * when it enters the tree, then takes the profile's authority as PlayerId; `Dictionary.Add`
     * throws when the id is already present.
     */
    method AddPlayer(playerId: int) returns (thrown: bool)
      requires Valid()
      modifies this`players
      ensures Valid()
      ensures old(Agreed()) ==> Agreed()
      ensures thrown <==> isServer && playerId in old(players)
      ensures !isServer || thrown ==> players == old(players)
      ensures isServer && !thrown ==>
        && playerId in players && players == old(players)[playerId := players[playerId]]
        && fresh(players[playerId])
        && players[playerId].playerId == playerId && players[playerId].vehicleName.None?
        && !players[playerId].hasGold && players[playerId].Score() == 0
    {
      if !isServer {
        return false;
      }
      var status := NewPlayer(playerId);
      if playerId in players {
        return true;
      }
      players := players[playerId := status];
      assert RV.Seats(players) == old(RV.Seats(players))[playerId := None];
      return false;
    }

    /**
     * RemovePlayer on the server: the player leaves the dictionary, then RpcVehicle frees its
     * vehicle; an unknown id leaves a null player, whose reset throws.
     */
    method RemovePlayer(playerId: int) returns (thrown: bool)
      requires Valid()
      modifies this`players, rpcVehicle`drivers, rpcVehicle`outbox, vehicles.Values`authority
      ensures Valid()
      ensures old(Agreed()) ==> Agreed()
      ensures thrown <==> isServer && playerId !in old(players)
      ensures !isServer ==> players == old(players) && rpcVehicle.drivers == old(rpcVehicle.drivers)
      ensures isServer ==> players == old(players) - {playerId}
      ensures isServer && playerId in old(players) ==>
        var seat := old(players[playerId].vehicleName);
        && rpcVehicle.drivers == (if seat.Some? && seat.value in vehicles then old(rpcVehicle.drivers) - {seat.value}
                                  else old(rpcVehicle.drivers))
        && (seat.Some? && seat.value in vehicles ==> vehicles[seat.value].authority == Network.ServerAuthority)
    {
      if !isServer {
        return false;
      }
      thrown := DropPlayer(playerId);
    }

    /** The server half of RemovePlayer. */
    method DropPlayer(playerId: int) returns (thrown: bool)
      requires Valid() && isServer
      modifies this`players, rpcVehicle`drivers, rpcVehicle`outbox, vehicles.Values`authority
      ensures Valid()
      ensures old(Agreed()) ==> Agreed()
      ensures thrown <==> playerId !in old(players)
      ensures players == old(players) - {playerId}
      ensures playerId in old(players) ==>
        var seat := old(players[playerId].vehicleName);
        && rpcVehicle.drivers == (if seat.Some? && seat.value in vehicles then old(rpcVehicle.drivers) - {seat.value}
                                  else old(rpcVehicle.drivers))
        && (seat.Some? && seat.value in vehicles ==> vehicles[seat.value].authority == Network.ServerAuthority)
    {
      ghost var seats, drivers := RV.Seats(players), rpcVehicle.drivers;
      var player := RV.GetPlayer(players, playerId);
      RV.SeatsWithout(players, playerId);
      players := players - {playerId};
      ghost var rest := RV.Seats(players);
      thrown := rpcVehicle.ResetVehicle(true, player, vehicles);
      assert RV.Seats(players) == rest == seats - {playerId};
      if player != null && RV.Consistent(drivers, seats) {
        RV.RemoveKeepsConsistent(drivers, seats, playerId);
        assert rpcVehicle.drivers == RV.Vacate(drivers, seats[playerId]);
      }
    }

    /** RequestVehicle: passed on to RpcVehicle. */
    method RequestVehicle(singlePlayer: bool, vehicle: PS.Vehicle)
      modifies rpcVehicle`outbox, rpcVehicle`deferred
      ensures singlePlayer ==> rpcVehicle.deferred == old(rpcVehicle.deferred) + [RV.Entered(vehicle)]
      ensures !singlePlayer ==> rpcVehicle.outbox == old(rpcVehicle.outbox) + [RV.Sent(Network.ServerAuthority, RV.OnVehicleRequest(vehicle.name))]
    {
      rpcVehicle.RequestVehicle(singlePlayer, vehicle);
    }

    /** ReleaseVehicle: passed on to RpcVehicle. */
    method ReleaseVehicle(singlePlayer: bool, vehicle: PS.Vehicle)
      modifies rpcVehicle`outbox, rpcVehicle`deferred
      ensures singlePlayer ==> rpcVehicle.deferred == old(rpcVehicle.deferred) + [RV.Exited(vehicle)]
      ensures !singlePlayer ==> rpcVehicle.outbox == old(rpcVehicle.outbox) + [RV.Sent(Network.ServerAuthority, RV.OnVehicleRelease(vehicle.name))]
    {
      rpcVehicle.ReleaseVehicle(singlePlayer, vehicle);
    }

    /**
     * A vehicle request arriving at the server, with the VehicleHasGold closure Initialise builds
     * (the vehicle is RpcGold's holder): the dictionaries stay keyed, and drivers and seats stay in
     * agreement.
     */
    method ServerOnVehicleRequest(sender: int, vehicleName: string)
      requires Valid()
      modifies rpcVehicle`drivers, rpcVehicle`outbox, vehicles.Values`authority
      modifies players.Values`vehicleName, players.Values`vehicle, players.Values`pushed
      ensures Valid()
      ensures old(Agreed()) ==> Agreed()
    {
      rpcVehicle.ServerOnVehicleRequest(sender, vehicleName, players, vehicles, rpcGold.vehicleWithGold);
    }

    /**
     * A vehicle release arriving at the server: the dictionaries stay keyed; drivers and seats stay
     * in agreement when the sender is the vehicle's driver (a release by anyone else breaks it,
     * see RpcVehicle.ReleaseByOtherBreaksConsistent).
     */
    method ServerOnVehicleRelease(sender: int, vehicleName: string)
      requires Valid()
      modifies rpcVehicle`drivers, rpcVehicle`outbox, vehicles.Values`authority
      modifies players.Values`vehicleName, players.Values`vehicle, players.Values`pushed
      ensures Valid()
      ensures old(Agreed()) && vehicleName in old(rpcVehicle.drivers) && old(rpcVehicle.drivers[vehicleName]) == sender ==> Agreed()
    {
      rpcVehicle.ServerOnVehicleRelease(sender, vehicleName, players, vehicles);
    }
  }
}
