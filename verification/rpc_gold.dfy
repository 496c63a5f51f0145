/**
 * RpcGold.cs of the network test game: the server's gold round. A gold bar spawns; the first
 * vehicle to touch it captures it and a finish line spawns; after a safe window of
 * `SafeCaptureTime` the holder can be robbed by any driven vehicle that touches it; the holder's
 * driver delivers it through the finish ribbon; after the snip animation the finish goes and new
 * gold spawns.
 *
 * The engine's callbacks are events here: the spawn-point generator answering
 * (`SpawnPointReady`), a body entering the gold (`OnGoldEntered`), a safe-capture timer running out
 * (`SafeCaptureTimeout`), a body entering the holder (`OnVehicleEntered`), the gold entering the
 * ribbon (`OnRibbonEntered`) and the snip animation ending (`OnCaptureComplete`). The drivers and
 * players dictionaries are read-only views, passed to each event as their current values.
 */
module RpcGold {
  import opened Optional
  import PS = PlayerStatus
  import DataSync

  /** The seconds a capture is safe from being stolen. */
  const SafeCaptureTime: real := 0.5

  /** What the spawn-point generator was asked to place. */
  datatype SpawnRequest = SpawnGoldAt | SpawnFinishAt

  /** The gold bar node: the vehicle it rides on, and whether OnGoldEntered listens to it. */
  datatype GoldBar = GoldBar(vehicleName: Option<string>, entered: bool)

  /** The finish line node: whether OnRibbonEntered listens to it, and whether it is snipping. */
  datatype FinishLine = FinishLine(ribbonListener: bool, snipping: bool)

  /** A running safe-capture timer: the capturing vehicle and the number of that capture. */
  datatype Timer = Timer(vehicle: PS.Vehicle, capture: nat)

  /**
   * An attached OnVehicleEntered on a vehicle, and whether its partner OnGoldCaptured is attached
   * to the gold's TreeExiting.
   */
  datatype Listener = Listener(vehicle: PS.Vehicle, onGoldExit: bool)

  /**
   * VehicleHasDriver: the driving player, or null when the vehicle has no entry or the entry
   * names no known player.
   */
  function Driver(drivers: map<string, int>, players: map<int, PS.PlayerStatus>, vehicleName: string): (r: PS.PlayerStatus?)
    ensures r != null <==> vehicleName in drivers && drivers[vehicleName] in players
    ensures r != null ==> r == players[drivers[vehicleName]]
  {
    if vehicleName !in drivers then null
    else if drivers[vehicleName] !in players then null
    else players[drivers[vehicleName]]
  }

  /** The listeners the gold's TreeExiting does not detach. */
  function Detached(listeners: seq<Listener>): (r: seq<Listener>)
    ensures forall k :: 0 <= k < |r| ==> !r[k].onGoldExit && r[k] in listeners
    ensures forall k :: 0 <= k < |listeners| && !listeners[k].onGoldExit ==> listeners[k] in r
  {
    if listeners == [] then []
    else (if listeners[0].onGoldExit then [] else [listeners[0]]) + Detached(listeners[1..])
  }

  /** `listeners` without its entry at `i`. */
  function RemoveAt<T>(s: seq<T>, i: nat): (r: seq<T>)
    requires i < |s|
    ensures |r| == |s| - 1
  {
    s[..i] + s[i + 1..]
  }

  /**
   * The status updates of a successful capture by a driven vehicle: the previous holder's driver
   * (if any) loses HasGold, then the new driver gains it and counts a capture or a steal.
   */
  method Award(driver: PS.PlayerStatus, previous: PS.PlayerStatus?, firstCapture: bool)
    modifies driver`hasGold, driver`captures, driver`steals, driver`pushed
    modifies (if previous == null then {} else {previous})`hasGold, (if previous == null then {} else {previous})`pushed
    ensures driver.hasGold
    ensures firstCapture ==> driver.captures == old(driver.captures) + 1 && driver.steals == old(driver.steals)
    ensures !firstCapture ==> driver.steals == old(driver.steals) + 1 && driver.captures == old(driver.captures)
    ensures driver.Score() == old(driver.Score()) + (if firstCapture then 1 else 0)
    ensures previous != null && previous != driver ==>
      && !previous.hasGold && previous.captures == old(previous.captures) && previous.steals == old(previous.steals)
      && previous.pushed == old(previous.pushed) + PS.Pushes(old(previous.hasGold), PS.HasGold, previous.handlers)
    ensures driver.pushed == old(driver.pushed)
      + (if previous == driver
         then PS.Pushes(old(driver.hasGold), PS.HasGold, driver.handlers) + PS.Pushes(true, PS.HasGold, driver.handlers)
         else PS.Pushes(!old(driver.hasGold), PS.HasGold, driver.handlers))
      + PS.Pushes(true, if firstCapture then PS.Captures else PS.Steals, driver.handlers)
  {
    if previous != null {
      previous.SetHasGold(false);
    }
    driver.SetHasGold(true);
    if firstCapture {
      driver.IncrementCaptures();
    } else {
      driver.IncrementSteals();
    }
  }

  class RpcGold {
    var started: bool
    var gold: Option<GoldBar>
    var finish: Option<FinishLine>
    /** VehicleWithGold: the holder. */
    var vehicleWithGold: PS.Vehicle?
    /** Requests to the spawn-point generator not yet answered. */
    var spawnRequests: seq<SpawnRequest>
    /** The number of successful captures so far. */
    var captureCount: nat
    /** Running safe-capture timers, oldest first. */
    var timers: seq<Timer>
    /** Attached steal listeners, in attach order. */
    var listeners: seq<Listener>

    /** A timer of the latest capture is still running. */
    predicate LatestPending()
      reads this
    {
      timers != [] && timers[|timers| - 1].capture == captureCount
    }

    /** Before Start. */
    predicate Unstarted()
      reads this
    {
      !started && gold.None? && finish.None? && vehicleWithGold == null && spawnRequests == []
    }

    /** Waiting for a spawn point for new gold. */
    predicate SpawningGold()
      reads this
    {
      started && gold.None? && finish.None? && vehicleWithGold == null && spawnRequests == [SpawnGoldAt]
    }

    /** Gold lies free, waiting for its first capture. */
    predicate Loose()
      reads this
    {
      started && gold == Some(GoldBar(None, true)) && finish.None? && vehicleWithGold == null && spawnRequests == []
    }

    /** Gold captured, waiting for a spawn point for the finish line. */
    predicate SpawningFinish()
      reads this
    {
      started && gold.Some? && !gold.value.entered && vehicleWithGold != null && finish.None?
      && spawnRequests == [SpawnFinishAt]
    }

    /** Gold held, finish line standing (its ribbon listener gone after a refused delivery). */
    predicate Contested()
      reads this
    {
      started && gold.Some? && !gold.value.entered && vehicleWithGold != null && finish.Some?
      && !finish.value.snipping && spawnRequests == []
    }

    /** Gold delivered, the finish line snipping. */
    predicate Delivered()
      reads this
    {
      started && gold.None? && vehicleWithGold == null && finish == Some(FinishLine(false, true))
      && spawnRequests == []
    }

    /**
     * The round is in one of its phases; the gold names its holder; timers are numbered by
     * capture, oldest first; at most one steal listener is attached, on the holder, paired with
     * the gold, and only once the latest capture's safe window has run out.
     */
    ghost predicate Valid()
      reads this
    {
      && (Unstarted() || SpawningGold() || Loose() || SpawningFinish() || Contested() || Delivered())
      && (vehicleWithGold != null ==> gold.Some? && gold.value.vehicleName == Some(vehicleWithGold.name))
      && (forall k :: 0 <= k < |timers| ==> timers[k].capture <= captureCount)
      && (forall j, k :: 0 <= j < k < |timers| ==> timers[j].capture < timers[k].capture)
      && |listeners| <= 1
      && (listeners != [] ==> vehicleWithGold != null && listeners[0] == Listener(vehicleWithGold, true) && !LatestPending())
      && (vehicleWithGold == null ==> listeners == [])
      && (LatestPending() ==> listeners == [])
    }

    constructor ()
      ensures Valid() && Unstarted()
      ensures captureCount == 0 && timers == [] && listeners == []
    {
      started := false;
      gold := None;
      finish := None;
      vehicleWithGold := null;
      spawnRequests := [];
      captureCount := 0;
      timers := [];
      listeners := [];
    }

    /** Start: on the server only, asks the generator for a spawn point for the gold. */
    method Start(isServer: bool)
      requires Valid() && Unstarted()
      modifies this`started, this`spawnRequests
      ensures Valid()
      ensures !isServer ==> Unstarted()
      ensures isServer ==> SpawningGold()
    {
      if !isServer {
        return;
      }
      started := true;
      spawnRequests := spawnRequests + [SpawnGoldAt];
    }

    /**
     * SpawnGold: needs no gold, no finish and no holder; a fresh gold bar spawns with
     * OnGoldEntered listening.
     */
    method SpawnGold()
      requires gold.None? && finish.None? && vehicleWithGold == null
      modifies this`gold
      ensures gold == Some(GoldBar(None, true))
    {
      gold := Some(GoldBar(None, true));
    }

    /**
     * SpawnFinish: needs gold, no finish and a holder; the finish line spawns with its ribbon
     * listener attached.
     */
    method SpawnFinish()
      requires gold.Some? && finish.None? && vehicleWithGold != null
      modifies this`finish
      ensures finish == Some(FinishLine(true, false))
    {
      finish := Some(FinishLine(true, false));
    }

    /** The generator answers the oldest request with a position. */
    method SpawnPointReady()
      requires Valid() && spawnRequests != []
      modifies this`gold, this`finish, this`spawnRequests
      ensures Valid()
      ensures old(SpawningGold()) ==> Loose()
      ensures old(SpawningFinish()) ==> Contested() && finish == Some(FinishLine(true, false)) && gold == old(gold)
    {
      var request := spawnRequests[0];
      spawnRequests := spawnRequests[1..];
      match request {
        case SpawnGoldAt => SpawnGold();
        case SpawnFinishAt => SpawnFinish();
      }
    }

    /**
     * TryCaptureGold: a steal needs a driven vehicle, a first capture does not. With a driver, the
     * previous holder's driver loses HasGold, the new one gains it, and the new driver's Captures
     * (first capture) or Steals (steal) goes up by one. Every success makes the vehicle the holder
     * and starts that capture's safe-capture timer.
     */
    method TryCaptureGold(vehicle: PS.Vehicle, firstCapture: bool, drivers: map<string, int>, players: map<int, PS.PlayerStatus>)
      returns (captured: bool)
      requires gold.Some?
      modifies this`vehicleWithGold, this`gold, this`captureCount, this`timers
      modifies players.Values`hasGold, players.Values`captures, players.Values`steals, players.Values`pushed
      ensures var driver := Driver(drivers, players, vehicle.name);
        captured <==> firstCapture || driver != null
      ensures !captured ==>
        && vehicleWithGold == old(vehicleWithGold) && gold == old(gold)
        && captureCount == old(captureCount) && timers == old(timers)
        && unchanged(players.Values)
      ensures captured ==>
        && vehicleWithGold == vehicle
        && gold == Some(old(gold).value.(vehicleName := Some(vehicle.name)))
        && captureCount == old(captureCount) + 1
        && timers == old(timers) + [Timer(vehicle, captureCount)]
      ensures captured && Driver(drivers, players, vehicle.name) == null ==> unchanged(players.Values)
      ensures captured && Driver(drivers, players, vehicle.name) != null ==>
        var driver := Driver(drivers, players, vehicle.name);
        && driver.hasGold
        && (firstCapture ==> driver.captures == old(driver.captures) + 1 && driver.steals == old(driver.steals))
        && (!firstCapture ==> driver.steals == old(driver.steals) + 1 && driver.captures == old(driver.captures))
        && driver.Score() == old(driver.Score()) + (if firstCapture then 1 else 0)
      ensures captured && Driver(drivers, players, vehicle.name) != null ==>
        var driver := Driver(drivers, players, vehicle.name);
        var previous := if old(vehicleWithGold) == null then null else Driver(drivers, players, old(vehicleWithGold).name);
        && (previous != null && previous != driver ==>
              && !previous.hasGold && previous.captures == old(previous.captures) && previous.steals == old(previous.steals)
              && previous.pushed == old(previous.pushed) + PS.Pushes(old(previous.hasGold), PS.HasGold, previous.handlers))
        && driver.pushed == old(driver.pushed)
             + (if previous == driver
                then PS.Pushes(old(driver.hasGold), PS.HasGold, driver.handlers) + PS.Pushes(true, PS.HasGold, driver.handlers)
                else PS.Pushes(!old(driver.hasGold), PS.HasGold, driver.handlers))
             + PS.Pushes(true, if firstCapture then PS.Captures else PS.Steals, driver.handlers)
        && (forall s :: s in players.Values && s != driver && s != previous ==> unchanged(s))
    {
      var driver := Driver(drivers, players, vehicle.name);
      if driver == null && !firstCapture {
        return false;
      }
      if driver != null {
        var previous := if vehicleWithGold == null then null else Driver(drivers, players, vehicleWithGold.name);
        Award(driver, previous, firstCapture);
      }
      vehicleWithGold := vehicle;
      gold := Some(gold.value.(vehicleName := Some(vehicle.name)));
      captureCount := captureCount + 1;
      timers := timers + [Timer(vehicle, captureCount)];
      return true;
    }

    /**
     * OnGoldEntered: a vehicle touching loose gold takes it (a first capture never fails); the
     * listener detaches and the generator is asked for a finish line spot.
     */
    method OnGoldEntered(vehicle: PS.Vehicle, drivers: map<string, int>, players: map<int, PS.PlayerStatus>)
      requires Valid() && gold.Some? && gold.value.entered
      modifies this`vehicleWithGold, this`gold, this`captureCount, this`timers, this`spawnRequests
      modifies players.Values`hasGold, players.Values`captures, players.Values`steals, players.Values`pushed
      ensures Valid() && SpawningFinish()
      ensures old(finish.None? && vehicleWithGold == null)
      ensures vehicleWithGold == vehicle && gold == Some(GoldBar(Some(vehicle.name), false))
      ensures timers == old(timers) + [Timer(vehicle, captureCount)] && LatestPending()
      ensures var driver := Driver(drivers, players, vehicle.name);
        && (driver == null ==> unchanged(players.Values))
        && (driver != null ==>
              && driver.hasGold && driver.captures == old(driver.captures) + 1
              && driver.Score() == old(driver.Score()) + 1
              && (forall s :: s in players.Values && s != driver ==> unchanged(s)))
    {
      var captured := TryCaptureGold(vehicle, true, drivers, players);
      gold := Some(gold.value.(entered := false));
      spawnRequests := spawnRequests + [SpawnFinishAt];
    }

    /**
     * A safe-capture timer runs out. The timer of the latest capture, while its vehicle still
     * holds the gold, attaches the steal listener to that vehicle and its partner to the gold; a
     * timer of an earlier capture, or one whose gold has been delivered, arms nothing.
     */
    method SafeCaptureTimeout()
      requires Valid() && timers != []
      modifies this`timers, this`listeners
      ensures Valid()
      ensures timers == old(timers[1..])
      ensures var t := old(timers[0]);
        if t.capture == captureCount && vehicleWithGold == t.vehicle
        then listeners == [Listener(t.vehicle, true)]
        else listeners == old(listeners)
    {
      var t := timers[0];
      timers := timers[1..];
      if t.capture == captureCount && vehicleWithGold == t.vehicle {
        assert old(LatestPending());
        listeners := listeners + [Listener(t.vehicle, true)];
      }
    }

    /**
     * The timeout as the source writes it: it attaches the steal listener to the capturing
     * vehicle, then attaches the partner to `gold`, which throws when the gold has already been
     * delivered; the steal listener then stays, with no partner to detach it.
     */
    method SafeCaptureTimeoutAsWritten() returns (thrown: bool)
      requires timers != []
      modifies this`timers, this`listeners
      ensures timers == old(timers[1..])
      ensures thrown <==> gold.None?
      ensures listeners == old(listeners) + [Listener(old(timers[0]).vehicle, gold.Some?)]
      ensures gold.None? ==> !Valid()
    {
      var t := timers[0];
      timers := timers[1..];
      listeners := listeners + [Listener(t.vehicle, gold.Some?)];
      thrown := gold.None?;
    }

    /**
     * OnVehicleEntered: a body touches the vehicle a listener sits on; on a successful steal the
     * listener and its partner detach.
     */
    method OnVehicleEntered(i: nat, other: PS.Vehicle, drivers: map<string, int>, players: map<int, PS.PlayerStatus>)
      returns (stolen: bool)
      requires Valid() && i < |listeners|
      modifies this`vehicleWithGold, this`gold, this`captureCount, this`timers, this`listeners
      modifies players.Values`hasGold, players.Values`captures, players.Values`steals, players.Values`pushed
      ensures Valid()
      ensures old(vehicleWithGold) != null
      ensures stolen <==> Driver(drivers, players, other.name) != null
      ensures !stolen ==> vehicleWithGold == old(vehicleWithGold) && listeners == old(listeners) && unchanged(players.Values)
      ensures stolen ==> vehicleWithGold == other && listeners == [] && LatestPending()
      ensures stolen ==>
        var driver := Driver(drivers, players, other.name);
        var previous := Driver(drivers, players, old(vehicleWithGold).name);
        && driver.hasGold && driver.steals == old(driver.steals) + 1 && driver.Score() == old(driver.Score())
        && (previous != null && previous != driver ==> !previous.hasGold)
    {
      stolen := TryCaptureGold(other, false, drivers, players);
      if stolen {
        listeners := RemoveAt(listeners, i);
      }
    }

    /**
     * DeliverGold: needs gold, a finish line and a holder; a driverless holder delivers nothing.
     * Otherwise the driver's Deliveries goes up by one and HasGold goes, the holder is cleared,
     * the gold is freed (its TreeExiting detaches the paired steal listeners) and the finish line
     * starts its snip animation.
     */
    method DeliverGold(drivers: map<string, int>, players: map<int, PS.PlayerStatus>) returns (delivered: bool)
      requires gold.Some? && finish.Some? && vehicleWithGold != null
      modifies this`vehicleWithGold, this`gold, this`finish, this`listeners
      modifies players.Values`hasGold, players.Values`deliveries, players.Values`pushed
      ensures delivered <==> Driver(drivers, players, old(vehicleWithGold).name) != null
      ensures !delivered ==>
        && vehicleWithGold == old(vehicleWithGold) && gold == old(gold) && finish == old(finish)
        && listeners == old(listeners) && unchanged(players.Values)
      ensures delivered ==>
        var driver := Driver(drivers, players, old(vehicleWithGold).name);
        && vehicleWithGold == null && gold.None? && listeners == Detached(old(listeners))
        && finish == Some(old(finish).value.(snipping := true))
        && driver.deliveries == old(driver.deliveries) + 1 && !driver.hasGold
        && driver.Score() == old(driver.Score()) + 2
        && driver.pushed == old(driver.pushed) + PS.Pushes(true, PS.Deliveries, driver.handlers)
                                               + PS.Pushes(old(driver.hasGold), PS.HasGold, driver.handlers)
        && (forall s :: s in players.Values && s != driver ==> unchanged(s))
    {
      var driver := Driver(drivers, players, vehicleWithGold.name);
      if driver == null {
        return false;
      }
      driver.IncrementDeliveries();
      vehicleWithGold := null;
      driver.SetHasGold(false);
      gold := None;
      listeners := Detached(listeners);
      finish := Some(finish.value.(snipping := true));
      return true;
    }

    /**
     * OnRibbonEntered: the gold reaches the ribbon; the ribbon listener detaches first, then
     * DeliverGold runs, so a refused delivery leaves no listener to deliver later.
     */
    method OnRibbonEntered(drivers: map<string, int>, players: map<int, PS.PlayerStatus>) returns (delivered: bool)
      requires Valid() && finish.Some? && finish.value.ribbonListener
      modifies this`vehicleWithGold, this`gold, this`finish, this`listeners
      modifies players.Values`hasGold, players.Values`deliveries, players.Values`pushed
      ensures Valid()
      ensures finish.Some? ==> !finish.value.ribbonListener
      ensures delivered <==> Driver(drivers, players, old(vehicleWithGold).name) != null
      ensures delivered ==> Delivered()
      ensures !delivered ==> Contested() && vehicleWithGold == old(vehicleWithGold) && unchanged(players.Values)
      ensures delivered ==>
        var driver := Driver(drivers, players, old(vehicleWithGold).name);
        && driver.deliveries == old(driver.deliveries) + 1 && !driver.hasGold
        && driver.Score() == old(driver.Score()) + 2
        && (forall s :: s in players.Values && s != driver ==> unchanged(s))
    {
      finish := Some(finish.value.(ribbonListener := false));
      delivered := DeliverGold(drivers, players);
    }

    /** OnCaptureComplete: the snip animation ends; the finish line goes and new gold is requested. */
    method OnCaptureComplete()
      requires Valid() && finish.Some? && finish.value.snipping
      modifies this`finish, this`spawnRequests
      ensures Valid() && SpawningGold()
    {
      finish := None;
      spawnRequests := spawnRequests + [SpawnGoldAt];
    }
  }

  /**
   * A delivery inside the safe window: vehicle "a", driven by player 2, takes the loose gold and
   * crosses the ribbon before its safe-capture timer runs out. The timeout as written then throws
   * and leaves a steal listener on "a" that a delivery does not detach: it stays until a steal
   * through it runs OnGoldCaptured. In the next round any driven vehicle touching "a" steals the
   * gold from whoever holds it.
   */
  method DeliveryInsideSafeWindow() returns (thrown: bool, stale: Listener)
    ensures thrown && stale.vehicle.name == "a" && !stale.onGoldExit
  {
    var round := new RpcGold();
    round.Start(true);
    round.SpawnPointReady();
    var a := new PS.Vehicle("a");
    var sync := new DataSync.DataSync(2, 1, map[]);
    var status := new PS.PlayerStatus(sync);
    var drivers := map["a" := 2];
    var players := map[2 := status];
    round.OnGoldEntered(a, drivers, players);
    round.SpawnPointReady();
    var delivered := round.OnRibbonEntered(drivers, players);
    assert delivered && round.timers != [];
    thrown := round.SafeCaptureTimeoutAsWritten();
    stale := round.listeners[|round.listeners| - 1];
    // The stale listener survives a later delivery, which detaches only paired listeners.
    assert stale in Detached(round.listeners);
  }
}
