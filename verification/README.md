# GodotSharp.BuildingBlocks — a verified model of its core

GodotSharp.BuildingBlocks is a set of building blocks for Godot 4 games written in C#. This project models
the parts whose behaviour can be stated without the engine:

- **Utilities.** `App` has a deterministic string hash and a cancellable deferred call. `LinqExtensions`
  has indexed iteration, dictionary look-ups, single-item `Except`, array concatenation and pre-order
  tree flattening. `Log` builds a message prefix, renders elapsed time and renders a variable list.
- **Network.** `Network` derives the game and listener ports from the application name. It runs a state
  machine for server and client start and stop, and keeps the table of connected players. `DataSync`
  queues property changes and ships them at the next process step. It answers pings, and runs one-shot
  and persistent "synchronised" callbacks.
- **The network test game.** `GameServer` registers players and vehicles. `RpcVehicle` owns who drives
  which vehicle. `RpcGold` spawns, captures, steals and delivers the gold bar. `PlayerStatus` holds a
  player's notifying properties.
- **UI.** The `UI` helpers parse a Range hint such as `"0,100,1,or_greater"`, choose the edit control
  for a property, and fill a popup menu from resource paths.
- **Vehicles.** `VehicleFeatures` derives the drive type from the traction wheels and reassigns traction
  when the drive type changes.
- **Procedural terrain.** `Terrain` decides when to redraw and keeps the square of chunks around the
  actor. `NoiseData` does the integer bookkeeping of mesh construction: vertex grids, triangle index
  lists, the seamless border lookup, flat shading and the level-of-detail steps.

Engine objects are Dafny classes whose fields the methods update: nodes, peers, players, vehicles,
chunks and menus. Engine callbacks are methods that the model's caller invokes in any order the engine
could: `_Ready`, `_Process`, signals, timers and RPC arrivals. A C# `[Notify]` property fires its
change event only when the value changes, and the events fired are recorded in a `pushed` sequence.
Pure helpers are functions. Loops over arrays are methods with loop invariants, and each is proved
against a specification function.

## Model

| member | source | states |
|---|---|---|
| App.Evens | addons/GodotSharp.BuildingBlocks/Utilities/App.cs:104-106 | exactly the (n+1)/2 code units at even positions, in order: the ones that feed the first hash lane |
| App.Odds | addons/GodotSharp.BuildingBlocks/Utilities/App.cs:107-109 | exactly the n/2 code units at odd positions, in order: the ones that feed the second hash lane |
| App.ToInt32 | addons/GodotSharp.BuildingBlocks/Utilities/App.cs:112 | an unchecked 32-bit reinterpretation lies in the int range and is negative exactly when the top bit is set |
| App.StepEven | addons/GodotSharp.BuildingBlocks/Utilities/App.cs:104-106 | a unit at an even index advances the first lane and leaves the second lane alone |
| App.StepOdd | addons/GodotSharp.BuildingBlocks/Utilities/App.cs:107-110 | a unit at an odd index advances only the second lane |
| App.GetDeterministicHashCode | addons/GodotSharp.BuildingBlocks/Utilities/App.cs:97-114 | the two-lane loop returns the reference hash, which mixes the even units into lane 1 and the odd units into lane 2 and combines them as lane1 + lane2·1566083941 wrapped to 32 bits |
| App.EmptyStringHash | addons/GodotSharp.BuildingBlocks/Utilities/App.cs:101-112 | the empty string hashes to the seed plus the seed times the multiplier, which is 757602046 |
| App.OddUnitsDoNotFeedHash1 | addons/GodotSharp.BuildingBlocks/Utilities/App.cs:104-106 | two strings that agree at every even position have the same first lane |
| App.CallDeferred | addons/GodotSharp.BuildingBlocks/Utilities/App.cs:32-40 | the action runs exactly when its target is still valid and the token is not cancelled; a completion is reported exactly when one was given, and it says whether the action ran |
| LinqExtensions.ForEachIndexed | addons/GodotSharp.BuildingBlocks/Utilities/Extensions/LinqExtensions.cs:12-17 | the action is called once per element, in order, with the element and its index |
| LinqExtensions.IsNullOrEmpty | addons/GodotSharp.BuildingBlocks/Utilities/Extensions/LinqExtensions.cs:19-20 | true exactly for a null or an empty sequence |
| LinqExtensions.TryGet | addons/GodotSharp.BuildingBlocks/Utilities/Extensions/LinqExtensions.cs:22-29 | found exactly when the key is non-null and present; the value is the stored one when found and the default otherwise |
| LinqExtensions.Except | addons/GodotSharp.BuildingBlocks/Utilities/Extensions/LinqExtensions.cs:31-38 | an element is kept exactly when it differs from the excluded item, and the length drops by the item's occurrences |
| LinqExtensions.ExceptDistributes | addons/GodotSharp.BuildingBlocks/Utilities/Extensions/LinqExtensions.cs:31-38 | filtering a concatenation is the concatenation of the filtered parts, so the streaming loop is correct piecewise |
| LinqExtensions.ExceptNoOccurrence | addons/GodotSharp.BuildingBlocks/Utilities/Extensions/LinqExtensions.cs:31-38 | a sequence without the item is returned unchanged |
| LinqExtensions.ConcatLength | addons/GodotSharp.BuildingBlocks/Utilities/Extensions/LinqExtensions.cs:42 | the concatenation of the arrays is as long as the sum of their lengths |
| LinqExtensions.PrefixSumMonotone | addons/GodotSharp.BuildingBlocks/Utilities/Extensions/LinqExtensions.cs:43-48 | each copy offset is at most the total length, so every block copy stays inside the result |
| LinqExtensions.Combine | addons/GodotSharp.BuildingBlocks/Utilities/Extensions/LinqExtensions.cs:40-52 | returns a fresh array of the summed length whose bytes are the inputs concatenated in order |
| LinqExtensions.BlockCopy | addons/GodotSharp.BuildingBlocks/Utilities/Extensions/LinqExtensions.cs:47 | the source is copied at the offset and every other byte of the destination is unchanged |
| LinqExtensions.SelectRecursive | addons/GodotSharp.BuildingBlocks/Utilities/Extensions/LinqExtensions.cs:54-63 | defined by the source's own recursion over the children; the root followed by the yielded elements equals the independently defined pre-order traversal of the tree |
| LinqExtensions.SelectRecursiveAll | addons/GodotSharp.BuildingBlocks/Utilities/Extensions/LinqExtensions.cs:56-62 | the loop over the children (each child, then its own SelectRecursive) yields exactly the pre-orders of those children, one after the other |
| LinqExtensions.SelectRecursiveExcludesRoot | addons/GodotSharp.BuildingBlocks/Utilities/Extensions/LinqExtensions.cs:54-63 | yields one element per node except the root |
| LinqExtensions.FirstChildFirst | addons/GodotSharp.BuildingBlocks/Utilities/Extensions/LinqExtensions.cs:56-58 | with children present, the first element yielded is the first child |
| Log.TrimStart | addons/GodotSharp.BuildingBlocks/Utilities/Log.cs:35 | the trimmed text does not start with '0', ':' or '.' |
| Log.TrimStartConcat | addons/GodotSharp.BuildingBlocks/Utilities/Log.cs:35 | trimming a joined text trims only the first part when that part has a significant character, and otherwise drops the first part and trims the second |
| Log.TrimStartEmpty | addons/GodotSharp.BuildingBlocks/Utilities/Log.cs:35-36 | a text trims to empty exactly when it holds only zeros, colons and dots |
| Log.WholeSecondsKept | addons/GodotSharp.BuildingBlocks/Utilities/Log.cs:35 | the days-to-seconds part of the clock rendering contains a kept digit exactly when the span is at least one second |
| Log.TrimmedRendering | addons/GodotSharp.BuildingBlocks/Utilities/Log.cs:35-38 | from one second up, trimming leaves the clock from its first significant digit with the milliseconds intact |
| Log.FormatSpan | addons/GodotSharp.BuildingBlocks/Utilities/Log.cs:33-39 | the text is the "no time" string or starts with a significant character |
| Log.FormatZero | addons/GodotSharp.BuildingBlocks/Utilities/Log.cs:36 | a zero span renders as "0ms" |
| Log.FormatBelowSecond | addons/GodotSharp.BuildingBlocks/Utilities/Log.cs:37 | a span of 1 to 999 ms renders as its digits followed by "ms" |
| Log.FormatFromSecond | addons/GodotSharp.BuildingBlocks/Utilities/Log.cs:38 | a span of a second or more renders as the non-empty trimmed days-to-seconds text, a '.' and the three-digit milliseconds |
| Log.FormatZeroOnly | addons/GodotSharp.BuildingBlocks/Utilities/Log.cs:36 | the "0ms" text appears exactly for a zero span |
| Log.Var | addons/GodotSharp.BuildingBlocks/Utilities/Log.cs:43-59 | one variable renders as its `key: value` entry, and the first entry always opens the rendering |
| Log.VarSplit | addons/GodotSharp.BuildingBlocks/Utilities/Log.cs:43-59 | rendering a concatenated list is the two renderings joined by ", " |
| Log.Prefix | addons/GodotSharp.BuildingBlocks/Utilities/Log.cs:24-31 | with every setting off the prefix is empty; with the timestamp on it starts with the timestamp |
| Log.Format | addons/GodotSharp.BuildingBlocks/Utilities/Log.cs:24-25 | the message always ends the line; with every setting off the line is the message alone; the timestamp comes first when on |
| Network.CsRem | addons/GodotSharp.BuildingBlocks/Components/Network/Network.cs:24 | C# `%` truncates: the remainder has the dividend's sign and a magnitude below the divisor |
| Network.CsDivision | addons/GodotSharp.BuildingBlocks/Components/Network/Network.cs:24 | the truncated quotient times the divisor plus the remainder gives back the dividend |
| Network.DivisibleNegated | addons/GodotSharp.BuildingBlocks/Components/Network/Network.cs:24 | a negative multiple of the port span has remainder zero |
| Network.GamePortAsWritten | addons/GodotSharp.BuildingBlocks/Components/Network/Network.cs:24 | the port as written lies strictly between MinPort minus the span and MaxPort |
| Network.GamePortAsWrittenInRange | addons/GodotSharp.BuildingBlocks/Components/Network/Network.cs:24 | the port as written reaches MinPort exactly when the hash is non-negative or a multiple of the span |
| Network.GamePortAsWrittenBelowRange | addons/GodotSharp.BuildingBlocks/Components/Network/Network.cs:24 | the app name "a" hashes to -842352707, which gives port 42503, below MinPort |
| Network.ListenerPortAsWrittenInRange | addons/GodotSharp.BuildingBlocks/Components/Network/Network.cs:24-25 | the listener port as written is never above MaxPort, and above MinPort exactly when the hash is non-negative or a multiple of the span |
| Network.GamePortOf | addons/GodotSharp.BuildingBlocks/Components/Network/Network.cs:21-24 | the corrected port lies in [MinPort, MaxPort) and agrees with the code as written for every non-negative hash |
| Network.GamePort | addons/GodotSharp.BuildingBlocks/Components/Network/Network.cs:21-24 | corrected: the game port of an application name, taken through GamePortOf, lies in [MinPort, MaxPort) |
| Network.PortRoundTrip | addons/GodotSharp.BuildingBlocks/Components/Network/Network.cs:27-28 | the listener-port and game-port conversions invert each other |
| Network.ListenerPortInRange | addons/GodotSharp.BuildingBlocks/Components/Network/Network.cs:25-27 | corrected: the listener port of the corrected game port is a valid port above MinPort |
| Network.ErrorSuffix | addons/GodotSharp.BuildingBlocks/Components/Network/Network.cs:139-144 | the error text gains a suffix exactly when the error is not CantCreate |
| Network.Network.Initialise | addons/GodotSharp.BuildingBlocks/Components/Network/Network.cs:65-75 | a new network is in state None with the offline peer, no players and no client handlers; its game port is the corrected one of the application name |
| Network.Network.SetState | addons/GodotSharp.BuildingBlocks/Components/Network/Network.cs:56-61 | the state becomes the new value, and a transition is recorded only when the value changed |
| Network.Network.SendStatus | addons/GodotSharp.BuildingBlocks/Components/Network/Network.cs:147-148 | the status message is appended to the status log and nothing else changes |
| Network.Network.AddPlayer | addons/GodotSharp.BuildingBlocks/Components/Network/Network.cs:77-91 | the local player is initialised first; the child node is added in every case; the player joins the table and PlayerAdded fires exactly when the id is new |
| Network.Network.RemovePlayer | addons/GodotSharp.BuildingBlocks/Components/Network/Network.cs:93-101 | the id leaves the table; a present player is freed and reported removed, an absent one is reported as null |
| Network.Network.RemoveAllPlayers | addons/GodotSharp.BuildingBlocks/Components/Network/Network.cs:103-108 | every former player is removed exactly once, the table ends empty, and then all spawned nodes are despawned |
| Network.Network.ClosePeer | addons/GodotSharp.BuildingBlocks/Components/Network/Network.cs:237-245 | all players are removed, the peer becomes the offline peer and the state returns to None |
| Network.Network.StartServer | addons/GodotSharp.BuildingBlocks/Components/Network/Network.cs:111-149 | the state passes through ServerStarting; it starts exactly when the transport succeeds, giving an ENet server peer with id 1, the ACTIVE status and, unless dedicated, the host's own player; a failure reports the port and error and returns to None |
| Network.Network.CreateClient | addons/GodotSharp.BuildingBlocks/Components/Network/Network.cs:151-183 | it connects exactly when the transport succeeds: state ClientConnecting, an ENet client peer with the transport's id, and a new set of three handlers for this call's address and port (the given port or the game port) appended after any earlier ones; a failure reports the address, port and error, returns to None and keeps the id and the handlers |
| Network.Network.OnConnectionFailed | addons/GodotSharp.BuildingBlocks/Components/Network/Network.cs:185-193 | that call's three handlers are detached, the failure is reported with that call's address and port, and the state becomes None, while the failed client peer stays in place |
| Network.Network.OnConnectedToServer | addons/GodotSharp.BuildingBlocks/Components/Network/Network.cs:195-205 | that call's failure and connected handlers are detached, the state becomes ClientConnected, CONNECTED is reported, and the local player is added, or the add throws when the id is already taken |
| Network.Network.OnServerDisconnected | addons/GodotSharp.BuildingBlocks/Components/Network/Network.cs:207-213 | that call's disconnect handler is detached, all players are removed, the peer goes offline, the state returns to None and "Lost Connection!" is reported |
| Network.Network.StopServer | addons/GodotSharp.BuildingBlocks/Components/Network/Network.cs:219-226 | all players are removed, the peer goes offline and the state returns to None, with no status message and the client handlers untouched |
| Network.Network.CloseClient | addons/GodotSharp.BuildingBlocks/Components/Network/Network.cs:228-245 | all players are removed, the peer goes offline and the state returns to None; no handler is detached |
| Network.Network.OnPeerConnected | addons/GodotSharp.BuildingBlocks/Components/Network/Network.cs:74-91 | a peer connecting adds a player for its id |
| Network.Network.OnPeerDisconnected | addons/GodotSharp.BuildingBlocks/Components/Network/Network.cs:75-101 | a peer disconnecting removes its player |
| Network.ReconnectAfterClose | addons/GodotSharp.BuildingBlocks/Components/Network/Network.cs:151-245 | a client closed while connecting and created again is connecting with two complete sets of handlers subscribed |
| Network.StaleHandlersAfterReconnect | addons/GodotSharp.BuildingBlocks/Components/Network/Network.cs:151-245 | a client closed while connecting and created again keeps both sets of handlers: connecting reports CONNECTED twice and the second AddPlayer finds the id taken |
| Network.LoseConnectionTwice | addons/GodotSharp.BuildingBlocks/Components/Network/Network.cs:207-213 | with two disconnect handlers subscribed, losing the server closes the peer twice and reports "Lost Connection!" twice |
| DataSync.Drain | addons/GodotSharp.BuildingBlocks/Components/Network/Sync/DataSync.cs:82-87 | draining the deferred queue flushes exactly when a flush was queued; without a flush the subscribers stay as they were and one action runs per queued call |
| DataSync.DrainRunsInOrder | addons/GodotSharp.BuildingBlocks/Components/Network/Sync/DataSync.cs:82-87 | without a flush the deferred actions run exactly in queue order |
| DataSync.DrainSplit | addons/GodotSharp.BuildingBlocks/Components/Network/Sync/DataSync.cs:82-87 | draining a queue runs the calls of its first part before those of its second |
| DataSync.DrainAtFirstFlush | addons/GodotSharp.BuildingBlocks/Components/Network/Sync/DataSync.cs:18-87 | at the first flush, the actions deferred before it run first, then every subscriber of that moment in subscription order, then the rest of the queue |
| DataSync.ActionsCountOnce | addons/GodotSharp.BuildingBlocks/Components/Network/Sync/DataSync.cs:86 | a callback subscribed once is invoked once per synchronised event |
| DataSync.DrainWithout | addons/GodotSharp.BuildingBlocks/Components/Network/Sync/DataSync.cs:18-33 | a callback neither subscribed nor queued is never invoked |
| DataSync.OneShotRunsOnce | addons/GodotSharp.BuildingBlocks/Components/Network/Sync/DataSync.cs:18-30 | a one-shot callback registered before the first synchronisation runs exactly once, however many flushes follow |
| DataSync.PersistentRunsPerFlush | addons/GodotSharp.BuildingBlocks/Components/Network/Sync/DataSync.cs:32-33 | a persistent callback runs once for every flush |
| DataSync.PingReplies | addons/GodotSharp.BuildingBlocks/Components/Network/Sync/DataSync.cs:71-72 | one reply per property in the given order, each to the pinging peer with that property's current value or Nil |
| DataSync.DataSync.constructor | addons/GodotSharp.BuildingBlocks/Components/Network/Sync/DataSync.cs:75-76 | a new sync node has no ping properties, no subscribers, nothing queued, and is neither ready nor holding received data |
| DataSync.DataSync.OnReadyNode | addons/GodotSharp.BuildingBlocks/Components/Network/Sync/DataSync.cs:90-101 | the authority becomes ready at once; any other peer pings the authority instead |
| DataSync.DataSync.OnReady | addons/GodotSharp.BuildingBlocks/Components/Network/Sync/DataSync.cs:18-30 | before the first synchronisation the callback is kept as a one-shot subscriber; afterwards it is queued to run |
| DataSync.DataSync.OnSync | addons/GodotSharp.BuildingBlocks/Components/Network/Sync/DataSync.cs:32-33 | the callback is added to the persistent subscribers |
| DataSync.DataSync.Add | addons/GodotSharp.BuildingBlocks/Components/Network/Sync/DataSync.cs:35-39 | the property joins the set answered on a ping |
| DataSync.DataSync.OnDataChanged | addons/GodotSharp.BuildingBlocks/Components/Network/Sync/DataSync.cs:41-50 | only the authority acts: it broadcasts the property's value and queues one flush per batch of changes |
| DataSync.DataSync.RpcReceive | addons/GodotSharp.BuildingBlocks/Components/Network/Sync/DataSync.cs:53-62 | the value sent by the authority is stored and one flush is queued per batch |
| DataSync.DataSync.RpcPing | addons/GodotSharp.BuildingBlocks/Components/Network/Sync/DataSync.cs:64-73 | the authority answers the sender with one message per ping property, each property exactly once |
| DataSync.DataSync.OnDataReceived | addons/GodotSharp.BuildingBlocks/Components/Network/Sync/DataSync.cs:77-88 | received data is marked and a flush is queued only for the first receipt of a batch |
| DataSync.DataSync.RunDeferred | addons/GodotSharp.BuildingBlocks/Components/Network/Sync/DataSync.cs:82-87 | running one deferred item and then draining the rest invokes the same callbacks as draining the whole queue; a flush makes the node ready |
| DataSync.DataSync.Tick | addons/GodotSharp.BuildingBlocks/Components/Network/Sync/DataSync.cs:82-87 | the queue is emptied; the node becomes ready exactly when it was ready or a flush was queued; the invocations are those of Drain |
| PlayerStatus.Pushes | Tests/NetworkTest/Server/PlayerStatus.cs:9-16 | a notifying property fires one event exactly when its value changed and a handler is attached |
| PlayerStatus.LookUp | Tests/NetworkTest/Server/PlayerStatus.cs:29-30 | a vehicle name resolves to its vehicle when registered, and to null otherwise |
| PlayerStatus.PlayerStatus.constructor | Tests/NetworkTest/Server/PlayerStatus.cs:25-31 | a new status has zero counters, no gold and no vehicle, and nothing synchronised yet |
| PlayerStatus.PlayerStatus.OnReady | Tests/NetworkTest/Server/PlayerStatus.cs:19-20 | the one-shot callback is forwarded to the status's DataSync |
| PlayerStatus.PlayerStatus.OnSync | Tests/NetworkTest/Server/PlayerStatus.cs:22-23 | the persistent callback is forwarded to the status's DataSync |
| PlayerStatus.PlayerStatus.OnReadyNode | Tests/NetworkTest/Server/PlayerStatus.cs:33-43 | the six properties are added to the DataSync's ping set under their own names, and their changes now fire events |
| PlayerStatus.PlayerStatus.SetPlayerId | Tests/NetworkTest/Server/PlayerStatus.cs:9 | the id is set and its event fires only on a change |
| PlayerStatus.PlayerStatus.SetVehicleName | Tests/NetworkTest/Server/PlayerStatus.cs:10-30 | the name is set; on a change the vehicle reference is looked up anew |
| PlayerStatus.PlayerStatus.SetHasGold | Tests/NetworkTest/Server/PlayerStatus.cs:11 | the flag is set and its event fires only on a change |
| PlayerStatus.PlayerStatus.IncrementDeliveries | Tests/NetworkTest/Server/PlayerStatus.cs:14-17 | one more delivery raises the score by two |
| PlayerStatus.PlayerStatus.IncrementCaptures | Tests/NetworkTest/Server/PlayerStatus.cs:15-17 | one more capture raises the score by one |
| PlayerStatus.PlayerStatus.IncrementSteals | Tests/NetworkTest/Server/PlayerStatus.cs:16-17 | one more steal leaves the score unchanged |
| RpcVehicle.DriverId | Tests/NetworkTest/Server/RpcVehicle.cs:194-195 | the driver's id when the vehicle has one and 0 otherwise |
| RpcVehicle.ConsistentIsOneSeatEach | Tests/NetworkTest/Server/RpcVehicle.cs:143-167 | under the driver invariant no player drives two vehicles |
| RpcVehicle.GrantKeepsConsistent | Tests/NetworkTest/Server/RpcVehicle.cs:105-129 | a granted request keeps every driver entry in agreement with the players' vehicle names |
| RpcVehicle.ReleaseByDriverKeepsConsistent | Tests/NetworkTest/Server/RpcVehicle.cs:131-141 | a release by the current driver keeps the invariant |
| RpcVehicle.ReleaseByOtherBreaksConsistent | Tests/NetworkTest/Server/RpcVehicle.cs:197-203 | a release by someone else removes the entry while the driver still sits in the vehicle |
| RpcVehicle.RemoveKeepsConsistent | Tests/NetworkTest/Server/RpcVehicle.cs:50-60 | dropping a player's entry keeps the invariant among the remaining players |
| RpcVehicle.RpcVehicle.constructor | Tests/NetworkTest/Server/RpcVehicle.cs:22-32 | a new component has no driver entries and has sent, raised and deferred nothing |
| RpcVehicle.RpcVehicle.RequestVehicle | Tests/NetworkTest/Server/RpcVehicle.cs:34-40 | in single-player the enter is raised locally on the next frame; otherwise a request RPC goes to the server |
| RpcVehicle.RpcVehicle.ReleaseVehicle | Tests/NetworkTest/Server/RpcVehicle.cs:42-48 | in single-player the exit is raised locally on the next frame; otherwise a release RPC goes to the server |
| RpcVehicle.RpcVehicle.AddDriver | Tests/NetworkTest/Server/RpcVehicle.cs:205-213 | the vehicle maps to the player, overwriting any earlier entry (the overwrite warning is not modelled) |
| RpcVehicle.RpcVehicle.RemoveDriver | Tests/NetworkTest/Server/RpcVehicle.cs:197-203 | the vehicle's driver entry is deleted whoever asked |
| RpcVehicle.RpcVehicle.EnterVehicle | Tests/NetworkTest/Server/RpcVehicle.cs:143-153 | the vehicle's driver entry becomes the player, the vehicle's authority the player and the player's vehicle name the vehicle; the enter RPC goes to the player |
| RpcVehicle.RpcVehicle.ExitVehicle | Tests/NetworkTest/Server/RpcVehicle.cs:155-167 | the driver entry is removed and authority returns to the server; when notifying, the player's vehicle name is cleared, its vehicle reference becomes null if it was seated and is kept otherwise, one VehicleName push follows a change, and the exit RPC goes to the player |
| RpcVehicle.RpcVehicle.ResetVehicle | Tests/NetworkTest/Server/RpcVehicle.cs:50-60 | on the server a null player throws; a seated player's vehicle loses its driver entry and returns to server authority; nothing is sent |
| RpcVehicle.RpcVehicle.ServerOnVehicleRequest | Tests/NetworkTest/Server/RpcVehicle.cs:105-129 | an unknown player or vehicle is ignored; a driven vehicle or the gold vehicle is denied with the driver's id (0 for gold); otherwise the player leaves any current vehicle, drives the new one, and pushes VehicleName once for the exit and once for the enter; no other player's vehicle or pushes change, and the invariant is kept |
| RpcVehicle.RpcVehicle.LeaveCurrent | Tests/NetworkTest/Server/RpcVehicle.cs:122-126 | the player's current vehicle, if known, loses its driver and returns to the server, the player's name and vehicle reference are cleared with one VehicleName push, and the exit is sent to the player; otherwise nothing changes |
| RpcVehicle.RpcVehicle.SwitchVehicle | Tests/NetworkTest/Server/RpcVehicle.cs:122-128 | the player ends up the sole driver of the requested vehicle, with a VehicleName push for the exit (when seated) and one for the enter; every other player keeps its seat, vehicle and pushes, and the enter is sent to the player |
| RpcVehicle.RpcVehicle.ServerOnVehicleRelease | Tests/NetworkTest/Server/RpcVehicle.cs:131-141 | the vehicle's driver entry is deleted for any sender and the sender is unseated: a seated sender's vehicle reference becomes null with one VehicleName push; other players are untouched; the invariant is kept when the sender was the driver |
| RpcVehicle.RpcVehicle.ClientOnVehicleEnter | Tests/NetworkTest/Server/RpcVehicle.cs:64-75 | only a call from the server has an effect: an unknown vehicle throws, a known one gets the local peer as authority and Entered is raised |
| RpcVehicle.RpcVehicle.ClientOnVehicleExit | Tests/NetworkTest/Server/RpcVehicle.cs:77-88 | only a call from the server has an effect: an unknown vehicle throws, a known one returns to server authority and Exited is raised |
| RpcVehicle.RpcVehicle.ClientOnVehicleDenied | Tests/NetworkTest/Server/RpcVehicle.cs:90-99 | only a call from the server has an effect: Denied is raised with the vehicle and the driver's id |
| RpcGold.Driver | Tests/NetworkTest/Server/RpcGold.cs:192-207 | a vehicle has a driver exactly when it has a driver entry whose player is known, and that player is returned |
| RpcGold.Detached | Tests/NetworkTest/Server/RpcGold.cs:148-152 | removing the gold drops exactly the listeners tied to it and keeps the others |
| RpcGold.Award | Tests/NetworkTest/Server/RpcGold.cs:113-135 | the new holder gets the gold and one capture (first capture) or one steal; the score rises by one only for a first capture; the previous holder loses the gold |
| RpcGold.RpcGold.constructor | Tests/NetworkTest/Server/RpcGold.cs:17-36 | a new component has no gold, no finish line, no holder, no timers and no listeners |
| RpcGold.RpcGold.Start | Tests/NetworkTest/Server/RpcGold.cs:38-46 | only the server asks for a gold spawn point |
| RpcGold.RpcGold.SpawnGold | Tests/NetworkTest/Server/RpcGold.cs:48-60 | a gold bar appears with its enter listener |
| RpcGold.RpcGold.SpawnFinish | Tests/NetworkTest/Server/RpcGold.cs:72-84 | a finish line appears with its ribbon listener |
| RpcGold.RpcGold.SpawnPointReady | Tests/NetworkTest/Server/RpcGold.cs:38-84 | a delivered spawn point places the gold or the finish line, whichever was requested |
| RpcGold.RpcGold.TryCaptureGold | Tests/NetworkTest/Server/RpcGold.cs:96-154 | captures exactly on a first capture or when the vehicle has a driver; a capture moves the gold to the vehicle, arms a safe-capture timer and awards the driver; no capture changes nothing |
| RpcGold.RpcGold.OnGoldEntered | Tests/NetworkTest/Server/RpcGold.cs:62-69 | the first vehicle to touch the gold captures it and a finish spawn point is requested |
| RpcGold.RpcGold.SafeCaptureTimeout | Tests/NetworkTest/Server/RpcGold.cs:137-153 | corrected: the steal listener is armed only when the timer belongs to the latest capture and that vehicle still holds the gold |
| RpcGold.RpcGold.SafeCaptureTimeoutAsWritten | Tests/NetworkTest/Server/RpcGold.cs:137-153 | as written: a listener is always attached and the handler throws exactly when the gold is gone |
| RpcGold.RpcGold.OnVehicleEntered | Tests/NetworkTest/Server/RpcGold.cs:142-152 | a driven vehicle touching the holder steals the gold and earns a steal; an undriven one changes nothing |
| RpcGold.RpcGold.DeliverGold | Tests/NetworkTest/Server/RpcGold.cs:156-187 | delivery happens exactly when the holder has a driver; the driver earns a delivery (two points) and loses the gold, the gold is removed and the finish line starts its animation |
| RpcGold.RpcGold.OnRibbonEntered | Tests/NetworkTest/Server/RpcGold.cs:86-93 | the ribbon listener is removed and the gold is delivered when the holder has a driver |
| RpcGold.RpcGold.OnCaptureComplete | Tests/NetworkTest/Server/RpcGold.cs:180-186 | after the finish animation the finish line is removed and a new gold spawn point is requested |
| RpcGold.DeliveryInsideSafeWindow | Tests/NetworkTest/Server/RpcGold.cs:137-153 | a delivery before the safe-capture timer fires makes the timer throw and leaves a steal listener on vehicle "a" |
| GameServer.ByName | Tests/NetworkTest/Server/GameServer.cs:24-25 | every vehicle is present under its own name |
| GameServer.AddableGrows | Tests/NetworkTest/Server/GameServer.cs:24-25 | adding a vehicle with a new name keeps the registration free of duplicates and adds exactly that entry |
| GameServer.AddableStops | Tests/NetworkTest/Server/GameServer.cs:24-25 | a name already present makes the registration throw |
| GameServer.NewPlayer | Tests/NetworkTest/Server/GameServer.cs:65-69 | a fresh, synchronised status carrying the peer id, with zero counters, no gold and no vehicle, and all six properties hooked |
| GameServer.GameServer.constructor | Tests/NetworkTest/Server/GameServer.cs:10-17 | a new server has no players, no vehicles and no driver entries, and the tables agree |
| GameServer.GameServer.Initialise | Tests/NetworkTest/Server/GameServer.cs:19-39 | the vehicles are registered by name, and a duplicate name throws after filling the vehicles before it |
| GameServer.GameServer.OnVehiclesExiting | Tests/NetworkTest/Server/GameServer.cs:27-32 | the vehicles leaving the tree clear all three tables |
| GameServer.GameServer.Start | Tests/NetworkTest/Server/GameServer.cs:41-58 | only the server starts the gold component, which then waits for a gold spawn point |
| GameServer.GameServer.AddPlayer | Tests/NetworkTest/Server/GameServer.cs:60-71 | only the server acts: a duplicate id throws, a new id gets a fresh status with a zero score |
| GameServer.GameServer.RemovePlayer | Tests/NetworkTest/Server/GameServer.cs:73-82 | only the server acts: an absent id throws, a present one leaves the table and its vehicle loses its driver and returns to server authority |
| GameServer.GameServer.DropPlayer | Tests/NetworkTest/Server/GameServer.cs:78-81 | the player leaves the table, and its vehicle loses its driver entry and returns to server authority |
| GameServer.GameServer.RequestVehicle | Tests/NetworkTest/Server/GameServer.cs:84-85 | forwards the request to the vehicle component |
| GameServer.GameServer.ReleaseVehicle | Tests/NetworkTest/Server/GameServer.cs:87-88 | forwards the release to the vehicle component |
| GameServer.GameServer.ServerOnVehicleRequest | Tests/NetworkTest/Server/GameServer.cs:34-38 | a request judged with the gold holder keeps the players' seats in agreement with the driver entries |
| GameServer.GameServer.ServerOnVehicleRelease | Tests/NetworkTest/Server/GameServer.cs:34-38 | a release by the vehicle's driver keeps the seats in agreement with the driver entries |
| UI.Split | addons/GodotSharp.BuildingBlocks/Components/UI/UI.cs:162 | splitting yields at least one part and no part contains the separator |
| UI.JoinSplit | addons/GodotSharp.BuildingBlocks/Components/UI/UI.cs:162 | joining the parts with the separator gives back the hint |
| UI.SplitTrailing | addons/GodotSharp.BuildingBlocks/Components/UI/UI.cs:162 | a hint ending in the separator has an empty last part |
| UI.SplitFirst | addons/GodotSharp.BuildingBlocks/Components/UI/UI.cs:251-252 | the first part is a prefix of the text: all of it when the separator is absent, otherwise up to the first separator |
| UI.SetValue | addons/GodotSharp.BuildingBlocks/Components/UI/UI.cs:170-179 | each number advances the count by one; the fourth throws |
| UI.UnrecognisedThrows | addons/GodotSharp.BuildingBlocks/Components/UI/UI.cs:162-168 | any token that is neither a flag nor a number makes the hint throw |
| UI.TrailingCommaThrows | addons/GodotSharp.BuildingBlocks/Components/UI/UI.cs:162-168 | a hint ending in a comma throws |
| UI.NumbersInOrder | addons/GodotSharp.BuildingBlocks/Components/UI/UI.cs:166-176 | up to three numbers set MinValue, MaxValue and Step in that order and leave the flags alone |
| UI.FlagTokens | addons/GodotSharp.BuildingBlocks/Components/UI/UI.cs:164-165 | "or_greater" sets AllowGreater and "or_less" sets AllowLesser, each exactly when present, and no number changes |
| UI.FourthNumberThrows | addons/GodotSharp.BuildingBlocks/Components/UI/UI.cs:172-177 | a fourth number throws |
| UI.Range.SetRangeFromHint | addons/GodotSharp.BuildingBlocks/Components/UI/UI.cs:157-180 | a blank hint leaves the range unchanged; otherwise the range is the parse of the split hint |
| UI.Range.SetValueOf | addons/GodotSharp.BuildingBlocks/Components/UI/UI.cs:170-179 | one number updates the field its position selects |
| UI.ControlFor | addons/GodotSharp.BuildingBlocks/Components/UI/UI.cs:198-209 | an enum hint gives an option button and a range hint a slider (rounded for ints); otherwise ints, bools, floats and strings get their control and other types none |
| UI.EditControls | addons/GodotSharp.BuildingBlocks/Components/UI/UI.cs:182-220 | at most one control per property |
| UI.EditControlsExactly | addons/GodotSharp.BuildingBlocks/Components/UI/UI.cs:186-209 | a (name, control) pair is produced exactly when a script-variable property of that name maps to that control |
| UI.GetTitle | addons/GodotSharp.BuildingBlocks/Components/UI/UI.cs:251-252 | a title ending in "..." is kept whole; otherwise the title is the text before its first '.', or the whole text without one |
| UI.PopupMenu.RemoveItem | addons/GodotSharp.BuildingBlocks/Components/UI/UI.cs:241-242 | removes the item at the index and shifts the rest |
| UI.PopupMenu.AddItem | addons/GodotSharp.BuildingBlocks/Components/UI/UI.cs:247 | appends an item with the text and no metadata |
| UI.PopupMenu.SetItemMetadata | addons/GodotSharp.BuildingBlocks/Components/UI/UI.cs:248 | sets the metadata of the item; an index out of range changes nothing |
| UI.PopupMenu.SetMenuItems | addons/GodotSharp.BuildingBlocks/Components/UI/UI.cs:239-253 | the menu holds exactly one item per path, in order, titled by the humanised title and carrying the path |
| VehicleFeatures.Lower | addons/GodotSharp.BuildingBlocks/Components/Vehicles/Config/VehicleFeatures.cs:27-28 | lower-cases each ASCII letter and keeps every other character |
| VehicleFeatures.Views | addons/GodotSharp.BuildingBlocks/Components/Vehicles/Config/VehicleFeatures.cs:27-28 | each wheel is seen as rear, front and traction from its name and flag |
| VehicleFeatures.GetDriveType | addons/GodotSharp.BuildingBlocks/Components/Vehicles/Config/VehicleFeatures.cs:35-45 | all-wheel drive exactly when every wheel drives; otherwise rear-wheel drive exactly when every rear wheel drives, then front-wheel drive likewise, else undefined; an empty group counts as driving |
| VehicleFeatures.Assigned | addons/GodotSharp.BuildingBlocks/Components/Vehicles/Config/VehicleFeatures.cs:47-63 | each wheel's traction becomes what the drive type asks of its group |
| VehicleFeatures.NoRearWheelsIsRearWheelDrive | addons/GodotSharp.BuildingBlocks/Components/Vehicles/Config/VehicleFeatures.cs:35-45 | with no rear-named wheels the type is all- or rear-wheel drive |
| VehicleFeatures.SetAllWheelDrive | addons/GodotSharp.BuildingBlocks/Components/Vehicles/Config/VehicleFeatures.cs:47-63 | setting all-wheel drive reads back as all-wheel drive |
| VehicleFeatures.SetRearWheelDrive | addons/GodotSharp.BuildingBlocks/Components/Vehicles/Config/VehicleFeatures.cs:47-63 | setting rear-wheel drive reads back as rear-wheel drive, or all-wheel drive when every wheel is a rear wheel |
| VehicleFeatures.SetFrontWheelDrive | addons/GodotSharp.BuildingBlocks/Components/Vehicles/Config/VehicleFeatures.cs:47-63 | setting front-wheel drive reads back as front-, rear- or all-wheel drive depending on how the groups overlap |
| VehicleFeatures.Group | addons/GodotSharp.BuildingBlocks/Components/Vehicles/Config/VehicleFeatures.cs:27-28 | the group holds only wheels whose name puts them in it |
| VehicleFeatures.InGroup | addons/GodotSharp.BuildingBlocks/Components/Vehicles/Config/VehicleFeatures.cs:27-28 | a wheel is in the group exactly when its name says so |
| VehicleFeatures.ViewsAssigned | addons/GodotSharp.BuildingBlocks/Components/Vehicles/Config/VehicleFeatures.cs:47-63 | wheels whose flags follow the target read back as the assigned views |
| VehicleFeatures.Drive | addons/GodotSharp.BuildingBlocks/Components/Vehicles/Config/VehicleFeatures.cs:47-63 | every wheel's traction flag becomes whether it is in the driving group |
| VehicleFeatures.VehicleFeatures.Initialise | addons/GodotSharp.BuildingBlocks/Components/Vehicles/Config/VehicleFeatures.cs:25-45 | the drive type is read from the wheels and the wheels keep their flags |
| VehicleFeatures.VehicleFeatures.SetDriveTypeProperty | addons/GodotSharp.BuildingBlocks/Components/Vehicles/Config/VehicleFeatures.cs:15-31 | the traction flags are rewritten only when attached and the value changed |
| VehicleFeatures.VehicleFeatures.SetDriveType | addons/GodotSharp.BuildingBlocks/Components/Vehicles/Config/VehicleFeatures.cs:47-63 | the wheels' traction becomes the assignment of the current drive type |
| Terrain.DistanceSquared | addons/GodotSharp.BuildingBlocks/Components/ProceduralTerrain/Terrain.cs:108-109 | the squared distance is non-negative and zero for equal points |
| Terrain.RoundToInt | addons/GodotSharp.BuildingBlocks/Components/ProceduralTerrain/Terrain.cs:115-118 | the nearest integer, with halves going to the even neighbour |
| Terrain.ChunkSize | addons/GodotSharp.BuildingBlocks/Components/ProceduralTerrain/Config/TerrainData.cs:18 | the chunk size is one less than the noise chunk size, and positive |
| Terrain.HalfChunk | addons/GodotSharp.BuildingBlocks/Components/ProceduralTerrain/Config/TerrainData.cs:19 | half a chunk rounded up |
| Terrain.RowScanMembers | addons/GodotSharp.BuildingBlocks/Components/ProceduralTerrain/Terrain.cs:122-133 | one row of the scan visits exactly the chunks of that row within the bounds |
| Terrain.SquareScanMembers | addons/GodotSharp.BuildingBlocks/Components/ProceduralTerrain/Terrain.cs:120-135 | the rows of the scan visit exactly the chunks of those rows within the bounds |
| Terrain.ScanCoversSquare | addons/GodotSharp.BuildingBlocks/Components/ProceduralTerrain/Terrain.cs:120-135 | the full scan visits exactly the chunks of the visible square |
| Terrain.Terrain.OnReady | addons/GodotSharp.BuildingBlocks/Components/ProceduralTerrain/Terrain.cs:34-39 | the data-changed handler is subscribed |
| Terrain.Terrain.SetData | addons/GodotSharp.BuildingBlocks/Components/ProceduralTerrain/Terrain.cs:27-31 | a given instance becomes the data; null becomes a new default instance; a redraw is flagged exactly when subscribed and the instance differs, so a null always counts as a change |
| Terrain.Terrain.RedrawRequired | addons/GodotSharp.BuildingBlocks/Components/ProceduralTerrain/Terrain.cs:91-110 | a redraw is needed after a data change or when the actor moved more than half a chunk; the centre moves only then |
| Terrain.Terrain.UpdateTerrainChunks | addons/GodotSharp.BuildingBlocks/Components/ProceduralTerrain/Terrain.cs:112-159 | afterwards the chunks are exactly the visible square; kept chunks are the same objects, new ones are fresh; every square chunk gets a detail request in scan order; the chunks outside are freed |
| Terrain.Terrain.UpdateSquare | addons/GodotSharp.BuildingBlocks/Components/ProceduralTerrain/Terrain.cs:118-135 | the square is added and the old chunks outside it are returned for removal |
| Terrain.Terrain.UpdateLine | addons/GodotSharp.BuildingBlocks/Components/ProceduralTerrain/Terrain.cs:122-134 | one row is added and its chunks are spared from removal |
| Terrain.Terrain.UpdateChunk | addons/GodotSharp.BuildingBlocks/Components/ProceduralTerrain/Terrain.cs:124-132 | a missing chunk is created, a present one is spared, and a detail request is recorded |
| Terrain.Terrain.RemoveTerrainChunks | addons/GodotSharp.BuildingBlocks/Components/ProceduralTerrain/Terrain.cs:154-158 | the given chunks leave the table and are freed |
| Terrain.Terrain.OnProcess | addons/GodotSharp.BuildingBlocks/Components/ProceduralTerrain/Terrain.cs:41-54 | the data-changed flag is cleared; after a data change the square around the last centre is regenerated; without one, an actor that moved more than half a chunk becomes the centre and its square is requested without regenerating, and otherwise the chunks stay; the terrain becomes ready once no update is pending |
| Terrain.Terrain.OnAsyncUpdateCountChanged | addons/GodotSharp.BuildingBlocks/Components/ProceduralTerrain/Terrain.cs:147-151 | the chunk's count moves into the terrain's total, which keeps the sum, and the chunk's count becomes zero |
| NoiseData.ChunkSize | addons/GodotSharp.BuildingBlocks/Components/ProceduralTerrain/Config/NoiseData.cs:15-16 | a seamless chunk is two points narrower than the noise map |
| NoiseData.ClampOctaves | addons/GodotSharp.BuildingBlocks/Components/ProceduralTerrain/Config/NoiseData.cs:47-52 | the octave count is at least one, and a valid count is kept |
| NoiseData.ClampOctavesIdempotent | addons/GodotSharp.BuildingBlocks/Components/ProceduralTerrain/Config/NoiseData.cs:47-52 | clamping twice is clamping once |
| NoiseData.LodIncrement | addons/GodotSharp.BuildingBlocks/Components/ProceduralTerrain/Config/NoiseData.cs:327 | the step is 1 at full detail and twice the level otherwise, and it divides the map width minus one |
| NoiseData.PointsPerLine | addons/GodotSharp.BuildingBlocks/Components/ProceduralTerrain/Config/NoiseData.cs:328 | the points per line span the map exactly at the level's step |
| NoiseData.Steps | addons/GodotSharp.BuildingBlocks/Components/ProceduralTerrain/Config/NoiseData.cs:337-340 | the loop's step positions stay on the map exactly for the first PointsPerLine indices |
| NoiseData.IndexBefore | addons/GodotSharp.BuildingBlocks/Components/ProceduralTerrain/Config/NoiseData.cs:337-354 | the running vertex index grows in scan order |
| NoiseData.IndexBound | addons/GodotSharp.BuildingBlocks/Components/ProceduralTerrain/Config/NoiseData.cs:330-331 | every grid index fits in the vertex array |
| NoiseData.AddTriangle | addons/GodotSharp.BuildingBlocks/Components/ProceduralTerrain/Config/NoiseData.cs:375-380 | the three indices are written after the cursor, which advances by three, and nothing else changes |
| NoiseData.AddQuad | addons/GodotSharp.BuildingBlocks/Components/ProceduralTerrain/Config/NoiseData.cs:343-351 | the quad's two triangles hold its four corners in the code's winding, and nothing else changes |
| NoiseData.ScanGrid | addons/GodotSharp.BuildingBlocks/Components/ProceduralTerrain/Config/NoiseData.cs:337-354 | every vertex holds its grid point, every quad its two triangles, and every index is a valid vertex |
| NoiseData.CreateTriangleArrays | addons/GodotSharp.BuildingBlocks/Components/ProceduralTerrain/Config/NoiseData.cs:318-380 | the plain mesh is the full grid at the level's step, with in-range triangle indices |
| NoiseData.GetBorderIndex | addons/GodotSharp.BuildingBlocks/Components/ProceduralTerrain/Config/NoiseData.cs:474-475 | maps a negative lookup value back to its non-negative border slot |
| NoiseData.LookupNumbering | addons/GodotSharp.BuildingBlocks/Components/ProceduralTerrain/Config/NoiseData.cs:483-501 | interior points number the inner grid from 0; ring points are numbered -1, -2, … and land in the border arrays |
| NoiseData.BorderRanksDistinct | addons/GodotSharp.BuildingBlocks/Components/ProceduralTerrain/Config/NoiseData.cs:483-501 | two ring points never share a lookup value |
| NoiseData.CreateBorderMeshLookup | addons/GodotSharp.BuildingBlocks/Components/ProceduralTerrain/Config/NoiseData.cs:483-501 | the lookup table holds that numbering at every point |
| NoiseData.InteriorQuadCorners | addons/GodotSharp.BuildingBlocks/Components/ProceduralTerrain/Config/NoiseData.cs:522-536 | an interior quad's corners are mesh vertices |
| NoiseData.BorderQuadCorners | addons/GodotSharp.BuildingBlocks/Components/ProceduralTerrain/Config/NoiseData.cs:471-472 | both triangles of a quad touching the ring are border triangles |
| NoiseData.AddBorderMeshTriangle | addons/GodotSharp.BuildingBlocks/Components/ProceduralTerrain/Config/NoiseData.cs:522-536 | a triangle goes to the border list exactly when one of its indices is negative, and the other list is untouched |
| NoiseData.AddSeamlessQuad | addons/GodotSharp.BuildingBlocks/Components/ProceduralTerrain/Config/NoiseData.cs:446-455 | an interior quad adds two mesh triangles; any other adds two border triangles |
| NoiseData.AddBorderMeshVertex | addons/GodotSharp.BuildingBlocks/Components/ProceduralTerrain/Config/NoiseData.cs:503-520 | a ring point goes to its border slot and an interior point to its mesh slot, and nothing else changes |
| NoiseData.SeamlessScan | addons/GodotSharp.BuildingBlocks/Components/ProceduralTerrain/Config/NoiseData.cs:440-457 | after the scan every point sits in its slot and every quad's triangles sit in their list |
| NoiseData.SeamlessFinish | addons/GodotSharp.BuildingBlocks/Components/ProceduralTerrain/Config/NoiseData.cs:440-457 | the finished scan fills (n-3)²·6 mesh slots and 6·(4n-8) border slots |
| NoiseData.CreateSeamlessArrays | addons/GodotSharp.BuildingBlocks/Components/ProceduralTerrain/Config/NoiseData.cs:429-457 | the arrays are sized from the given points per line and the scan fills them |
| NoiseData.SeamlessPointsPerLineAsWritten | addons/GodotSharp.BuildingBlocks/Components/ProceduralTerrain/Config/NoiseData.cs:427 | as written: two fewer than the plain grid at full detail, but only one fewer at lower detail |
| NoiseData.SeamlessPointsPerLine | addons/GodotSharp.BuildingBlocks/Components/ProceduralTerrain/Config/NoiseData.cs:427 | corrected: always two fewer than the plain grid, the interior the scan writes |
| NoiseData.CreateSeamlessTriangleArraysAsWritten | addons/GodotSharp.BuildingBlocks/Components/ProceduralTerrain/Config/NoiseData.cs:415-457 | as written, at lower detail the mesh arrays are oversized: a trailing (0,0,0) triangle and unplaced vertices remain |
| NoiseData.SizeGap | addons/GodotSharp.BuildingBlocks/Components/ProceduralTerrain/Config/NoiseData.cs:429-434 | the oversized arrays leave at least one unwritten triangle and vertex |
| NoiseData.CreateSeamlessTriangleArrays | addons/GodotSharp.BuildingBlocks/Components/ProceduralTerrain/Config/NoiseData.cs:415-457 | corrected: the mesh is the inner grid with in-range indices, the border holds 4n-4 vertices and 6·(4n-8) indices |
| NoiseData.Drawn | addons/GodotSharp.BuildingBlocks/Components/ProceduralTerrain/Config/NoiseData.cs:584-598 | the points the triangle list draws, one per index |
| NoiseData.GridDrawsCorners | addons/GodotSharp.BuildingBlocks/Components/ProceduralTerrain/Config/NoiseData.cs:344-350 | a grid mesh draws each quad's corner points |
| NoiseData.ApplyFlatShading | addons/GodotSharp.BuildingBlocks/Components/ProceduralTerrain/Config/NoiseData.cs:584-598 | every triangle gets its own vertices, the indices become 0, 1, 2, … and the drawn points are unchanged |
| NoiseData.MeshWidth | addons/GodotSharp.BuildingBlocks/Components/ProceduralTerrain/Config/NoiseData.cs:313-316 | a seamless mesh is two points narrower than a plain one |
| NoiseData.CreateMesh | addons/GodotSharp.BuildingBlocks/Components/ProceduralTerrain/Config/NoiseData.cs:307-316 | corrected: a collision shape is built exactly at full detail; the mesh, seamless ones taken through the corrected CreateSeamlessTriangleArrays, draws every grid corner, flat-shaded or not, and its indices are in range |

## Left out

- Engine services are not modelled: the scene tree, signals, RPC transport, `Multiplayer`, timers and tweens. Each engine callback is a method that callers invoke; an RPC's arrival is a call with the sender id as a parameter.
- I/O is left out. Log printing and file and console output are not modelled. The clock, the thread id and the caller's file and member names are parameters of `Log.Prefix`. Godot's `GD.Print` is not modelled.
- Floating point is replaced by exact reals or left out: the noise map, heights, normals, UVs, `GetHeight`, images, textures and materials, and the collision shape's contents. A mesh vertex is its grid `Point`. The float property clamps other than octaves, and `Default` and `Copy`, are left out.
- GameServer.GameServer: the static `vehicles` dictionary is an instance field that is passed to `PlayerStatus.SetVehicleName`; two servers sharing one dictionary are not modelled.
- `App`: the members other than the hash and `CallDeferred` are left out. These include `RunParallel`, `LoadScene`, `Instantiate` and the engine and OS helpers.
- `Network`: `GetFreePort`, `GetLocalAddress`, `AddSpawnableScene`, `SpawnScene` and the headless `OnReady` are left out, because they are network and engine calls. The outcome of creating a server or client peer is an input.
- Network.Network.OnConnectionFailed: the code leaves the failed client peer in place instead of closing it, and the model keeps that.
- Network.Network.CreateClient: the engine's emission of a signal to each subscribed handler is left to the caller, which calls the handler of each CreateClient by its position. All handlers report into one status log, where the code calls each call's own status callback.
- Network.GamePort: composes the corrected GamePortOf. The code as written (GamePortAsWritten) gives a port below MinPort for a negative hash, for example 42503 for the name "a".
- Network.ListenerPortInRange: holds for the corrected game port only. ListenerPortAsWrittenInRange states when the code's listener port is in range; for "a" it is 42504.
- Network.Network.Initialise: the default game port is the corrected GamePort, not the value line 24 computes.
- DataSync.PingReplies: the replies follow the enumeration order of the HashSet of ping properties, which the model leaves open (`RpcPing` returns it as `order`). Each property is answered exactly once.
- Network.Network.AddPlayer: a duplicate peer id throws after the node was added, as in the code.
- RpcVehicle.RpcVehicle.ServerOnVehicleRequest: the current driver asking for its own vehicle is refused with its own id, as in the code.
- RpcVehicle.RpcVehicle.ServerOnVehicleRelease: a release by a player who is not the driver still deletes the driver entry, as in the code; the invariant is proved only for releases by the driver.
- GameServer.GameServer.Start: the random spawn point is not modelled; it arrives later as `SpawnPointReady`.
- `UI`: the widget factories are left out (Label, LineEdit, CheckButton, OptionButton, SpinBox, Slider, UI.cs:16-151), as are `GetSubResources` and `OnItemSelected`. They only create engine controls.
- UI.Range.SetRangeFromHint: Godot's own clamping of Range values is not modelled. Float parsing is a parameter. `IsWhiteSpace` covers the Latin-1 white space characters only.
- UI.PopupMenu.SetMenuItems: the Humanizer text transform is a parameter.
- VehicleFeatures.Lower: lower-cases ASCII letters only, which is enough for the "rear" and "front" wheel names.
- VehicleFeatures.VehicleFeatures.Initialise: models one initialisation of a component, so it requires the handler not to be attached yet.
- `Terrain`: positions are exact reals. Each chunk's asynchronous job is modelled by `OnAsyncUpdateCountChanged` events. `SetLevelOfDetail` is recorded in `lodRequests` rather than run. `UpdateStatus`, `STATUS` and `GetHeightAt` are left out because they are editor output and float sampling.
- Terrain.RoundToInt: the overflow of the int cast for huge values is not modelled.
- NoiseData.CreateMesh: composes the corrected CreateSeamlessTriangleArrays. At seamless levels of detail from 1 the code as written (CreateSeamlessTriangleArraysAsWritten) allocates one more point per line, for example 120² vertices and 119²·6 indices at level 1 where the model has 119² and 118²·6, and its extra indices are zero triangles.
- `NoiseData`: `GenerateNoiseMap`, the island overlay, the image, texture, material and plane builders, and the normal calculation are left out because they are float work. The seamless border lookup is indexed by grid step (`lookup[i, j]`), which is the lookup the code builds.
- Loops whose body is long are split into helper methods (per line, per point) that carry the loop invariants. The order of writes is the same as in the code.

## Findings

| source | as written | input that shows it | evidently intended | confidence | as-written member | corrected member |
|---|---|---|---|---|---|---|
| addons/GodotSharp.BuildingBlocks/Components/Network/Network.cs:24 | `MinPort + App.HashCode % (MaxPort - MinPort)` keeps the sign of a negative hash | app name "a": hash -842352707 gives port 42503, below MinPort 49152 | a non-negative residue, so the port lies in [MinPort, MaxPort) | not executed | Network.GamePortAsWrittenBelowRange | Network.GamePortOf |
| Tests/NetworkTest/Server/RpcGold.cs:137-153 | the safe-capture timer fires even if the gold was delivered meanwhile; it attaches a steal listener to the vehicle, then dereferences the removed gold | vehicle "a" with a driver captures the gold and delivers it before the 0.5 s timer fires | arm the steal listener only while that capture still holds the gold | not executed | RpcGold.DeliveryInsideSafeWindow | RpcGold.RpcGold.SafeCaptureTimeout |
| addons/GodotSharp.BuildingBlocks/Components/ProceduralTerrain/Config/NoiseData.cs:427 | seamless points per line `(meshSize - 1) / inc + 1` is 120 at level 1, but the scan writes 119 interior points per line | level of detail 1 | size the mesh arrays to the interior the scan fills | not executed | NoiseData.CreateSeamlessTriangleArraysAsWritten | NoiseData.CreateSeamlessTriangleArrays |
