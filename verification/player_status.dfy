/**
 * PlayerStatus.cs of the network test game: the replicated per-player record (vehicle, gold,
 * counters), and the vehicle node as the server logic sees it (a name and a multiplayer
 * authority).
 *
 * Each `[Notify]` property raises its Changed event only when the assigned value differs from the
 * current one. The handlers DataSync.Add returns are attached to six of these events when the node
 * is ready; a call of such a handler is recorded in `pushed` (what the handler then does is
 * DataSync.OnDataChanged).
 */
module PlayerStatus {
  import opened Optional
  import LinqExtensions
  import DataSync
  import Network

  /** A vehicle node: its name (the key of GameServer.Vehicles) and its multiplayer authority. */
  class Vehicle {
    const name: string
    var authority: int

    /** A node starts under the server's authority. */
    constructor (name: string)
      ensures this.name == name && authority == Network.ServerAuthority
    {
      this.name := name;
      authority := Network.ServerAuthority;
    }
  }

  /** The `[Notify]` properties of PlayerStatus. */
  datatype Property = PlayerId | VehicleName | HasGold | Deliveries | Captures | Steals

  /** The name DataSync.Add records, the argument expression of the call. */
  function SyncName(p: Property): string {
    match p
    case PlayerId => "PlayerId"
    case VehicleName => "VehicleName"
    case HasGold => "HasGold"
    case Deliveries => "Deliveries"
    case Captures => "Captures"
    case Steals => "Steals"
  }

  /** The handler calls one assignment makes: one push iff the value changed and a handler is attached. */
  function Pushes(changed: bool, p: Property, handlers: set<Property>): (r: seq<Property>)
    ensures |r| <= 1
    ensures r == [p] <==> changed && p in handlers
  {
    if changed && p in handlers then [p] else []
  }

  /** `GameServer.Vehicles.TryGet(VehicleName)`: the vehicle of that name, or null. */
  function LookUp(vehicles: map<string, Vehicle>, name: Option<string>): (r: Vehicle?)
    ensures r != null <==> name.Some? && name.value in vehicles
    ensures r != null ==> r == vehicles[name.value]
  {
    LinqExtensions.TryGet(vehicles, name, null).1
  }

  class PlayerStatus {
    /** The DataSync child node. */
    const sync: DataSync.DataSync

    var playerId: int
    var vehicleName: Option<string>
    var hasGold: bool
    var vehicle: Vehicle?
    var deliveries: int
    var captures: int
    var steals: int

    /** The properties whose sync handler is attached. */
    var handlers: set<Property>
    /** The sync handler calls, in order. */
    var pushed: seq<Property>

    ghost predicate Valid()
      reads this, sync
    {
      sync.Valid()
    }

    /** A new node: default property values, only the VehicleName lookup handler attached. */
    constructor (sync: DataSync.DataSync)
      requires sync.Valid()
      ensures Valid() && this.sync == sync
      ensures playerId == 0 && vehicleName == None && !hasGold && vehicle == null
      ensures deliveries == 0 && captures == 0 && steals == 0
      ensures handlers == {} && pushed == []
    {
      this.sync := sync;
      playerId := 0;
      vehicleName := None;
      hasGold := false;
      vehicle := null;
      deliveries := 0;
      captures := 0;
      steals := 0;
      handlers := {};
      pushed := [];
    }

    /** CurrentScore: a capture is worth one point and a delivery two; steals do not count. */
    function Score(): int
      reads this
    {
      captures + deliveries * 2
    }

    /** OnReady: delegates to the sync node's one-shot readiness subscription. */
    method OnReady(action: nat)
      requires Valid()
      modifies sync`deferred, sync`subscribers
      ensures Valid()
      ensures old(sync.ready) ==> sync.deferred == old(sync.deferred) + [DataSync.Run(action)] && sync.subscribers == old(sync.subscribers)
      ensures !old(sync.ready) ==> sync.deferred == old(sync.deferred) && sync.subscribers == old(sync.subscribers) + [DataSync.OneShot(action)]
    {
      sync.OnReady(action);
    }

    /** OnSync: delegates to the sync node's persistent subscription. */
    method OnSync(action: nat)
      modifies sync`subscribers
      ensures sync.subscribers == old(sync.subscribers) + [DataSync.Persistent(action)]
    {
      sync.OnSync(action);
    }

    /**
     * _Ready: registers the six synced properties with the sync node and attaches the returned
     * handler to each one's Changed event.
     */
    method OnReadyNode()
      modifies sync`pingProps, this`handlers
      ensures sync.pingProps == old(sync.pingProps) + {SyncName(PlayerId), SyncName(VehicleName), SyncName(HasGold),
                                                        SyncName(Deliveries), SyncName(Captures), SyncName(Steals)}
      ensures handlers == old(handlers) + {PlayerId, VehicleName, HasGold, Deliveries, Captures, Steals}
    {
      ghost var before := sync.pingProps;
      sync.Add(SyncName(PlayerId));
      sync.Add(SyncName(VehicleName));
      sync.Add(SyncName(HasGold));
      assert sync.pingProps == before + {SyncName(PlayerId), SyncName(VehicleName), SyncName(HasGold)};
      ghost var half := sync.pingProps;
      sync.Add(SyncName(Deliveries));
      sync.Add(SyncName(Captures));
      sync.Add(SyncName(Steals));
      assert sync.pingProps == half + {SyncName(Deliveries), SyncName(Captures), SyncName(Steals)};
      handlers := handlers + {PlayerId, VehicleName, HasGold, Deliveries, Captures, Steals};
    }

    method SetPlayerId(value: int)
      modifies this`playerId, this`pushed
      ensures playerId == value
      ensures pushed == old(pushed) + Pushes(old(playerId) != value, PlayerId, handlers)
    {
      var changed := playerId != value;
      playerId := value;
      pushed := pushed + Pushes(changed, PlayerId, handlers);
    }

    /**
     * Setting VehicleName: when the name changes, the constructor's handler first points Vehicle
     * at the vehicle of that name (null for a null or unknown name), then the sync handler runs.
     */
    method SetVehicleName(value: Option<string>, vehicles: map<string, Vehicle>)
      modifies this`vehicleName, this`vehicle, this`pushed
      ensures vehicleName == value
      ensures old(vehicleName) != value ==> vehicle == LookUp(vehicles, value)
      ensures old(vehicleName) == value ==> vehicle == old(vehicle)
      ensures pushed == old(pushed) + Pushes(old(vehicleName) != value, VehicleName, handlers)
    {
      if vehicleName != value {
        vehicleName := value;
        vehicle := LookUp(vehicles, vehicleName);
        pushed := pushed + Pushes(true, VehicleName, handlers);
      }
    }

    method SetHasGold(value: bool)
      modifies this`hasGold, this`pushed
      ensures hasGold == value
      ensures pushed == old(pushed) + Pushes(old(hasGold) != value, HasGold, handlers)
    {
      var changed := hasGold != value;
      hasGold := value;
      pushed := pushed + Pushes(changed, HasGold, handlers);
    }

    /** `++Deliveries`: always a change, so always a push when registered. */
    method IncrementDeliveries()
      modifies this`deliveries, this`pushed
      ensures deliveries == old(deliveries) + 1
      ensures Score() == old(Score()) + 2
      ensures pushed == old(pushed) + Pushes(true, Deliveries, handlers)
    {
      deliveries := deliveries + 1;
      pushed := pushed + Pushes(true, Deliveries, handlers);
    }

    /** `++Captures`. */
    method IncrementCaptures()
      modifies this`captures, this`pushed
      ensures captures == old(captures) + 1
      ensures Score() == old(Score()) + 1
      ensures pushed == old(pushed) + Pushes(true, Captures, handlers)
    {
      captures := captures + 1;
      pushed := pushed + Pushes(true, Captures, handlers);
    }

    /** `++Steals`: the score does not change. */
    method IncrementSteals()
      modifies this`steals, this`pushed
      ensures steals == old(steals) + 1
      ensures Score() == old(Score())
      ensures pushed == old(pushed) + Pushes(true, Steals, handlers)
    {
      steals := steals + 1;
      pushed := pushed + Pushes(true, Steals, handlers);
    }
  }
}
