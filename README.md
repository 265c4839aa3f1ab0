# Battleship grid engine and Bluetooth device rules of tourjs

This project models three pieces of the tourjs cycling app:

- the **Battleship game engine** (`app/server-client-common/battleship-game.ts`):
  ships on a square board, the MOVE, RADAR and SHOOT turns, and saving and
  restoring a map;
- the **Bluetooth device factory** (`TourJsRn2/pojs/DeviceFactory.ts`): which
  driver a newly connected trainer or heart-rate strap gets, how a Heart Rate
  Measurement value is decoded, and the fixed answers of the heart-rate and
  test devices;
- the **Bluetooth write path** (`TourJsRn2/pojs/DeviceUtils.ts`): service
  lookup by UUID, and the serialized writes with their cache of
  fitness-machine characteristics.

It proves properties of the model: shot and move behaviour, the shotgun area,
history keys, driver precedence, the HRM decode round trip and the cache rules.

Files:

- `wrappers.dfy`: `Option` and `Result`.
- `cell_keys.dfy`: the `"col|row"` history keys. Each key is the decimal
  column, a `|`, then the decimal row. The file proves keys parse back and
  never collide.
- `battleship_geometry.dfy`: the engine as values.
  - Ship placement and occupancy.
  - The clamped move.
  - A shot on one ship.
  - The 3x3 shotgun clipped to the board.
  - The order in which a blast visits (cell, ship) pairs.
  - The MOVE and RADAR turns on a fleet.
- `battleship_game.dfy`: the engine's objects. `Ship` keeps its damage flags
  in an array it updates in place. `GameMap` owns the ships and two history
  sets and resolves one turn at a time. Each state-changing method is proved
  against the value functions of `battleship_geometry.dfy`.
- `device_utils.dfy`: the UUID constants and the first-match lookups. The
  write channel is a class (`WriteChannel`) holding the cache, whether the
  write queue was left resolved or rejected, and the events so far. It is
  proved against the pure `WriteStep` and `RunThen`.
- `device_factory.dfy`: driver choice, HRM decoding, `BluetoothHrmDevice`
  and `TestPowermeter`.

Behaviour of the source worth knowing, which the model follows:

- A PASS turn has no case in the turn switch, so it throws "Unrecognized move
  type".
- A shot at (1,0) on an 11x11 board fires on six cells: the 3x3
  neighbourhood is clipped to the board.
- `TestPowermeter.updateResistance` and `getDeviceId` throw "Method not
  implemented.".
- The characteristic cache holds only characteristics of the
  `'fitness_machine'` service, keyed by characteristic name.
- A moved ship stays on the board only when the board is at least as long as
  the ship. When it is shorter, `nGrid - width` is negative and the clamp
  puts the ship off the board.

## Model

| member | source | states |
|---|---|---|
| `CellKeys.CellKeyRoundTrip` | app/server-client-common/battleship-game.ts:364 | the key built from (col, row) parses back to exactly (col, row), negative coordinates included |
| `CellKeys.CellKeyInjective` | app/server-client-common/battleship-game.ts:401-402 | two cells have the same history key iff they are the same cell |
| `BattleshipGeometry.ShipLength` | app/server-client-common/battleship-game.ts:141-156 | every ship type covers between one and five cells |
| `BattleshipGeometry.Placement.OffsetOfSpot` | app/server-client-common/battleship-game.ts:204-215 | -1 exactly off the ship; on it, an offset in [0, length) whose cell along the axis is the asked cell |
| `BattleshipGeometry.FootprintIsBox` | app/server-client-common/battleship-game.ts:157-179 | width times height is the length, one of them is 1, and the ship covers exactly its width x height box from the top-left |
| `BattleshipGeometry.PresentIffOnAxis` | app/server-client-common/battleship-game.ts:172-179 | a ship occupies a cell iff it is one of its length cells along its axis from the top-left |
| `BattleshipGeometry.InsideGridIffTopLeftBounds` | app/server-client-common/battleship-game.ts:96-112 | every cell lies on the board iff the top-left is non-negative and top-left plus width (height) is at most nGrid |
| `BattleshipGeometry.IntersectsSymmetric` | app/server-client-common/battleship-game.ts:114-130 | a intersects b iff b intersects a |
| `BattleshipGeometry.MovedStaysInGrid` | app/server-client-common/battleship-game.ts:183-202 | on a board at least as long as the ship, any move leaves every cell on the board and keeps type and orientation |
| `BattleshipGeometry.UnclampedMoveIsExact` | app/server-client-common/battleship-game.ts:187-193 | a move whose target placement is already on the board is carried out exactly |
| `BattleshipGeometry.RepeatedMoveConvergesToEdge` | app/server-client-common/battleship-game.ts:187-196 | repeating a rightward move k times puts the ship at min(right edge, start + k steps): it reaches the edge and stays |
| `BattleshipGeometry.ShotOn` | app/server-client-common/battleship-game.ts:217-232 | a miss changes nothing and reports all false; a hit sets exactly the shot cell's flag, reports sunk as the new sunk state and newlysunk iff it was not sunk before |
| `BattleshipGeometry.ShotsOnDamage` | app/server-client-common/battleship-game.ts:217-229 | after any run of shots a cell is damaged iff it was damaged before or was shot at |
| `BattleshipGeometry.SunkIffEveryCellShot` | app/server-client-common/battleship-game.ts:180-182 | a new ship is sunk after a run of shots iff every one of its cells was shot at least once |
| `BattleshipGeometry.NewlySunkAtMostOnce` | app/server-client-common/battleship-game.ts:226-229 | over any run of shots at most one result is newlysunk, and one is exactly when the run takes the ship from afloat to sunk |
| `BattleshipGeometry.ShotgunCellsSpec` | app/server-client-common/battleship-game.ts:411-425 | a blast covers at most nine distinct cells, exactly the on-board cells at most one column and one row from the target |
| `BattleshipGeometry.ShotgunClippedAtTopEdge` | app/server-client-common/battleship-game.ts:412-425 | a shot at (1,0) on an 11x11 board covers (0,0),(0,1),(1,0),(1,1),(2,0),(2,1) in that order |
| `BattleshipGeometry.FirstShipAt` | app/server-client-common/battleship-game.ts:351-360 | the index of the first ship in list order covering the cell; None iff no ship covers it |
| `BattleshipGeometry.FirstShipOfType` | app/server-client-common/battleship-game.ts:377 | the index of the first ship in list order of the type; None iff there is none |
| `BattleshipGeometry.ShootShips` | app/server-client-common/battleship-game.ts:431-437 | shooting one cell at every ship keeps the fleet's size, placements and board sizes |
| `BattleshipGeometry.ShootCellsReportsHit` | app/server-client-common/battleship-game.ts:427-443 | a blast reports a result iff some ship covers some blasted cell; otherwise the turn answers a miss |
| `BattleshipGeometry.ShootCellsDamage` | app/server-client-common/battleship-game.ts:428-438 | after a blast a ship's cell is damaged iff it was before or is a blasted cell; other ships are untouched |
| `BattleshipGeometry.LastShipAt` | app/server-client-common/battleship-game.ts:431-437 | the last of the first n ships that covers a cell, None iff none of them does |
| `BattleshipGeometry.ShootShipsUntouched` | app/server-client-common/battleship-game.ts:431-437 | ships not yet reached by the forEach keep their state |
| `BattleshipGeometry.ShootShipsEachShip` | app/server-client-common/battleship-game.ts:431-437 | every ship reached by the forEach is in the state ShotOn gives it for the cell, independently of the others |
| `BattleshipGeometry.ShootShipsLastShip` | app/server-client-common/battleship-game.ts:431-437 | one cell's result is the report of the last ship covering it, or the earlier result when no ship covers it |
| `BattleshipGeometry.LastHitCell` | app/server-client-common/battleship-game.ts:428-440 | the last blasted cell that some ship covers, None iff no blasted cell is covered |
| `BattleshipGeometry.ShootShipsAtEmptyCell` | app/server-client-common/battleship-game.ts:431-437 | a cell no ship covers leaves the fleet and the last result as they were |
| `BattleshipGeometry.ShootCellsLastHit` | app/server-client-common/battleship-game.ts:428-440 | the blast's result is the applyShot report of the last (cell, ship) pair hit, and that ship ends in the state this shot left it in |
| `BattleshipGeometry.ShootCellsLastIsCurrent` | app/server-client-common/battleship-game.ts:428-443 | no covered cell gives no result; otherwise the result is a hit, sunk is the present state of the last ship hit, and newlysunk holds iff that ship is sunk now and was not before the cell that hit it last |
| `BattleshipGeometry.ShipTakesShot` | app/server-client-common/battleship-game.ts:432-436 | one ship taking a shot keeps the fleet's size, placements and board sizes, and its damage flags stay one per cell |
| `BattleshipGeometry.PatrolBoatTwoHits` | app/server-client-common/battleship-game.ts:217-232 | the first hit on a fresh patrol boat reports hit only; the second reports hit, sunk and newly sunk |
| `BattleshipGeometry.PatrolBoatSunkByOneBlast` | app/server-client-common/battleship-game.ts:427-443 | a patrol boat at (0,0)-(1,0) shot at (1,0) reports hit, sunk and newlysunk |
| `BattleshipGeometry.MoveFleetSpec` | app/server-client-common/battleship-game.ts:374-383 | MOVE changes only the first ship of the type and only its top-left (type, orientation, damage and board size are kept); the displacement is new minus old top-left; a missing type moves nothing and reports (0, 0) |
| `BattleshipGeometry.RadarScanSpec` | app/server-client-common/battleship-game.ts:393-403 | the radar report has one entry per square in order, with its coordinates, true exactly where some ship is |
| `BattleshipGame.KeyInKeysOf` | app/server-client-common/battleship-game.ts:362-370 | a cell's key is among the keys of a list of cells iff the cell is in the list, so getRadarAt/getShotAt answer for exactly the recorded cells |
| `BattleshipGame.Ship.constructor` | app/server-client-common/battleship-game.ts:68-94 | a new ship lies where it is put, carries its type's name, and has one damage flag per cell, all false |
| `BattleshipGame.Ship.IsValidPlacement` | app/server-client-common/battleship-game.ts:96-112 | true iff every cell of the ship lies on its board |
| `BattleshipGame.Ship.Intersects` | app/server-client-common/battleship-game.ts:114-130 | true iff some cell of this ship is occupied by the other |
| `BattleshipGame.Ship.IsDamagedAt` | app/server-client-common/battleship-game.ts:132-139 | true iff the cell is one of the ship's cells and its flag is set |
| `BattleshipGame.Ship.ApplyMove` | app/server-client-common/battleship-game.ts:183-202 | the new position is the clamped move, the result is the actual displacement, and the ship stays on a board at least as long as it |
| `BattleshipGame.Ship.ApplyShot` | app/server-client-common/battleship-game.ts:217-232 | the damage array and the result are those of ShotOn |
| `BattleshipGame.InflateRecordForgetsDamage` | app/server-client-common/battleship-game.ts:450-457 | a saved and re-inflated ship keeps its placement and board, loses its damage, and is unchanged iff it had none |
| `BattleshipGame.CollectKeys` | app/server-client-common/battleship-game.ts:314-325 | the history set holds exactly the keys of the given list (empty when there is none) |
| `BattleshipGame.SetToList` | app/server-client-common/battleship-game.ts:334-341 | the list holds every key of the set exactly once |
| `BattleshipGame.GameMap.constructor` | app/server-client-common/battleship-game.ts:302-327 | the map keeps its id, board size and ships, and its histories are the sets of the given lists |
| `BattleshipGame.GameMap.IsShipPresent` | app/server-client-common/battleship-game.ts:351-355 | true iff some ship of the map covers the cell |
| `BattleshipGame.GameMap.GetShipAt` | app/server-client-common/battleship-game.ts:356-360 | the first ship in list order covering the cell; None iff none does |
| `BattleshipGame.GameMap.ApplyShipMove` | app/server-client-common/battleship-game.ts:374-383 | the fleet and displacement after MOVE are those of MoveFleet |
| `BattleshipGame.GameMap.Scan` | app/server-client-common/battleship-game.ts:393-403 | the report is RadarScan of the current fleet and the keys are those of the squares |
| `BattleshipGame.GameMap.ApplyRadar` | app/server-client-common/battleship-game.ts:385-405 | RADAR answers RadarScan and adds exactly the squares' keys to the radar history |
| `BattleshipGame.GameMap.ShotgunShots` | app/server-client-common/battleship-game.ts:411-425 | the nested loop yields exactly ShotgunCells of the target |
| `BattleshipGame.GameMap.FleetWellFormedWhenValid` | app/server-client-common/battleship-game.ts:90-93 | on a valid map every ship has one damage flag per cell it covers |
| `BattleshipGame.GameMap.ShootShip` | app/server-client-common/battleship-game.ts:432-436 | a ship covering the shot cell takes the shot as ShotOn does and its report becomes the last result; no other ship changes |
| `BattleshipGame.GameMap.ShootShipsAt` | app/server-client-common/battleship-game.ts:431-437 | one cell fired at every ship in list order leaves the fleet and last result of ShootShips |
| `BattleshipGame.GameMap.ShootCellsAt` | app/server-client-common/battleship-game.ts:428-438 | the cells fired at in order leave the fleet and last result of ShootCells, and the keys are those of the cells |
| `BattleshipGame.GameMap.ApplyShoot` | app/server-client-common/battleship-game.ts:406-443 | SHOOT damages as ShootCells over the shotgun cells, answers the last hit or a miss, and adds the cells' keys to the shot history |
| `BattleshipGame.GameMap.ApplyMove` | app/server-client-common/battleship-game.ts:372-447 | each turn kind changes only its own part of the map; PASS and unknown kinds fail with "Unrecognized move type" and change nothing |
| `BattleshipGame.GameMap.ToMapCreate` | app/server-client-common/battleship-game.ts:333-349 | the snapshot has the board size, id, one record per ship and each history listed once per key |
| `BattleshipGame.InflateMap` | app/server-client-common/battleship-game.ts:450-457 | fresh ships rebuilt from type, position and orientation with no damage, histories as sets of the lists |
| `BattleshipGame.ReloadMap` | app/server-client-common/battleship-game.ts:333-457 | saving and re-inflating a map keeps placements, boards and both histories and clears all damage |
| `DeviceUtils.FindService` | TourJsRn2/pojs/DeviceUtils.ts:10-21 | the first service with the UUID; None iff no service has it |
| `DeviceUtils.UuidsDistinct` | TourJsRn2/pojs/DeviceUtils.ts:1-7 | the five UUID constants are pairwise different |
| `DeviceUtils.LookupsDisjoint` | TourJsRn2/pojs/DeviceUtils.ts:10-21 | each lookup answers a service of its own UUID, and no service answers two lookups |
| `DeviceUtils.WriteStepCache` | TourJsRn2/pojs/DeviceUtils.ts:59-76 | a write adds at most the written name to the cache, only for the fitness machine and with the server's characteristic; other entries stay |
| `DeviceUtils.OtherServicesAlwaysLookUp` | TourJsRn2/pojs/DeviceUtils.ts:59-72 | a write to any other service starts with a service lookup and leaves the cache alone |
| `DeviceUtils.CacheHitSkipsLookup` | TourJsRn2/pojs/DeviceUtils.ts:59-64 | a cached fitness-machine characteristic is written directly with no lookup |
| `DeviceUtils.SecondFitnessWriteHitsCache` | TourJsRn2/pojs/DeviceUtils.ts:59-80 | after a fitness-machine characteristic was found, the next write to it goes straight to it |
| `DeviceUtils.Settle` | TourJsRn2/pojs/DeviceUtils.ts:54-82 | the queue is left resolved iff the write succeeded; every kind of failure rejects it |
| `DeviceUtils.Caught` | TourJsRn2/pojs/DeviceUtils.ts:55-58 | the catch handler logs something iff the queue was rejected |
| `DeviceUtils.RunThen` | TourJsRn2/pojs/DeviceUtils.ts:54-83 | one more write keeps the earlier events and outcomes as a prefix, adds one outcome and at least one event, and settles the queue by that outcome |
| `DeviceUtils.RunThenPrefix` | TourJsRn2/pojs/DeviceUtils.ts:54-83 | what one more write does depends only on the cache and the queue, not on the earlier events and outcomes |
| `DeviceUtils.RunWritesAppend` | TourJsRn2/pojs/DeviceUtils.ts:54-83 | writes run in call order: a + b runs a, then b from the cache and queue a left |
| `DeviceUtils.RunWritesQueue` | TourJsRn2/pojs/DeviceUtils.ts:54-82 | after a series of writes the queue is rejected iff the last write failed, and is unchanged after none |
| `DeviceUtils.RejectedQueueStillWrites` | TourJsRn2/pojs/DeviceUtils.ts:55-81 | on a rejected queue the failure is logged and the write then runs in full, with the same cache, outcome, events and settled queue as on a resolved queue |
| `DeviceUtils.FailureDoesNotBlock` | TourJsRn2/pojs/DeviceUtils.ts:55-81 | after a failed write the next write logs the failure and then runs in full from the cache the failure left |
| `DeviceUtils.WriteChannel.constructor` | TourJsRn2/pojs/DeviceUtils.ts:46-47 | the channel starts with an empty cache and a resolved queue |
| `DeviceUtils.WriteChannel.NotifyConnect` | TourJsRn2/pojs/DeviceUtils.ts:49-52 | a new connection empties the cache and resolves the queue |
| `DeviceUtils.WriteChannel.Write` | TourJsRn2/pojs/DeviceUtils.ts:54-83 | the new cache, queue, log and outcome are those of RunThen (catch, then WriteStep), and the cache keeps holding only fitness-machine characteristics under their own names |
| `DeviceUtils.WriteChannel.WriteOnce` | TourJsRn2/pojs/DeviceUtils.ts:58-81 | the write itself: the new cache, the events and the outcome are those of WriteStep |
| `DeviceFactory.ClassifyPowermeter` | TourJsRn2/pojs/DeviceFactory.ts:124-136 | FTMS iff the FTMS service is offered; else Kickr iff the Kickr service is; else CPS iff CPS is; else "We don't recognize what kind of device this is" |
| `DeviceFactory.ClassifyHrm` | TourJsRn2/pojs/DeviceFactory.ts:155-161 | an HRM driver iff the Heart Rate service is offered, otherwise the same error |
| `DeviceFactory.FtmsTakesPrecedence` | TourJsRn2/pojs/DeviceFactory.ts:128-129 | whatever else is offered, a device offering FTMS gets the FTMS driver |
| `DeviceFactory.FindPowermeter` | TourJsRn2/pojs/DeviceFactory.ts:115-138 | no GATT server fails with "No device gatt?" and leaves the cache and queue; otherwise the cache is emptied, the queue resolved and the device classified |
| `DeviceFactory.FindHrm` | TourJsRn2/pojs/DeviceFactory.ts:146-163 | the same for the heart-rate driver |
| `DeviceFactory.Bit0SetIffOdd` | TourJsRn2/pojs/DeviceFactory.ts:73 | bit 0 of the flags byte is set iff the byte is odd |
| `DeviceFactory.DecodeHrm` | TourJsRn2/pojs/DeviceFactory.ts:69-79 | decoding succeeds iff the value is long enough for its format; the 8-bit format gives less than 256, both less than 65536 |
| `DeviceFactory.EncodeHrm` | TourJsRn2/pojs/DeviceFactory.ts:71-79 | an encoding has the length of its format and bit 0 of its flags names the format |
| `DeviceFactory.DecodeEncodeHrm` | TourJsRn2/pojs/DeviceFactory.ts:71-79 | every rate that fits its format, 8-bit or 16-bit (a zero high byte included), decodes back to itself whatever bytes follow |
| `DeviceFactory.DecodeHrmIsEncoding` | TourJsRn2/pojs/DeviceFactory.ts:71-79 | every value that decodes holds the encoding of the decoded rate in the format its flags byte names: byte 1, or bytes 1-2 little-endian |
| `DeviceFactory.DecodeHrmIgnoresRest` | TourJsRn2/pojs/DeviceFactory.ts:71-79 | other flag bits and every byte after the rate, in either format, do not change the decoded rate |
| `DeviceFactory.BluetoothHrmDevice.constructor` | TourJsRn2/pojs/DeviceFactory.ts:59-67 | a new heart-rate device has passed on no readings |
| `DeviceFactory.BluetoothHrmDevice.DecodeHrmData` | TourJsRn2/pojs/DeviceFactory.ts:69-83 | a value that decodes adds exactly one notification carrying the rate; one that does not adds none |
| `DeviceFactory.BluetoothHrmDevice.HasPower` | TourJsRn2/pojs/DeviceFactory.ts:86 | the HRM reports no power |
| `DeviceFactory.BluetoothHrmDevice.HasCadence` | TourJsRn2/pojs/DeviceFactory.ts:87 | the HRM reports no cadence |
| `DeviceFactory.BluetoothHrmDevice.HasHrm` | TourJsRn2/pojs/DeviceFactory.ts:88 | the HRM reports heart rate |
| `DeviceFactory.BluetoothHrmDevice.UpdateErg` | TourJsRn2/pojs/DeviceFactory.ts:94-96 | ERG commands resolve false |
| `DeviceFactory.BluetoothHrmDevice.UpdateSlope` | TourJsRn2/pojs/DeviceFactory.ts:97-99 | slope commands resolve false |
| `DeviceFactory.BluetoothHrmDevice.UpdateResistance` | TourJsRn2/pojs/DeviceFactory.ts:100-102 | resistance commands resolve false |
| `DeviceFactory.TestPowermeter.constructor` | TourJsRn2/pojs/DeviceFactory.ts:12-18 | a new test meter holds its timer |
| `DeviceFactory.TestPowermeter.Disconnect` | TourJsRn2/pojs/DeviceFactory.ts:23-27 | disconnecting clears the timer |
| `DeviceFactory.TestPowermeter.GetState` | TourJsRn2/pojs/DeviceFactory.ts:28-30 | the state is always Ok |
| `DeviceFactory.TestPowermeter.HasPower` | TourJsRn2/pojs/DeviceFactory.ts:34-36 | the test meter reports power |
| `DeviceFactory.TestPowermeter.HasCadence` | TourJsRn2/pojs/DeviceFactory.ts:37-39 | it reports no cadence |
| `DeviceFactory.TestPowermeter.HasHrm` | TourJsRn2/pojs/DeviceFactory.ts:40-42 | it reports no heart rate |
| `DeviceFactory.TestPowermeter.UpdateSlope` | TourJsRn2/pojs/DeviceFactory.ts:43-45 | slope commands resolve false |
| `DeviceFactory.TestPowermeter.UpdateErg` | TourJsRn2/pojs/DeviceFactory.ts:46-48 | ERG commands resolve false |
| `DeviceFactory.TestPowermeter.GetDeviceId` | TourJsRn2/pojs/DeviceFactory.ts:49-51 | always fails with "Method not implemented." |
| `DeviceFactory.TestPowermeter.UpdateResistance` | TourJsRn2/pojs/DeviceFactory.ts:52-54 | always fails with "Method not implemented." |

## Left out

- The MOVE turn for a ship type the map lacks calls `assert2` from
  `app/server-client-common/Utils.ts`, which is not part of this model. The
  model takes the code's next line, a zero displacement, and does not model
  whatever `assert2` reports.
- `BattleshipGameSquare` and the map's `grid` array are built by the
  constructor but never read by any turn, so they are not modelled.
- The `push` and `stealth` flags are carried in the turn parameters but
  ignored, as the code ignores them.
- A turn is a datatype whose kind carries its own parameters. The source's
  untyped pairing of a turn type with parameters of another kind cannot
  arise.
- Ships of a map are distinct objects with distinct damage arrays, which
  `GameMap.Valid` requires. The source does not forbid two list entries
  being one object. That aliasing is not modelled.
- `GameMap.ToMapCreate` lists each history in an unspecified order. The
  source lists it in set insertion order.
- `toMapCreate` returns the live ship objects. The model returns value records
  of them, so later changes to the map do not show through the snapshot.
- Coordinates, moves and grid sizes are unbounded integers. JavaScript
  numbers that are fractional, NaN or beyond 2^53 are not modelled.
- `getMapId` and the drivers' description and name strings are constant getters and are not
  modelled.
- `BattleshipGame.Ship.IsSunk`, `GameMap.GetRadarAt` and `GameMap.GetShotAt`
  are single expressions. They are stated through `AllDamaged` and
  `KeyInKeysOf` rather than by contracts of their own.
- `app/server-client-common/User.ts` physics is floating-point and is not part
  of this model.
- Web Bluetooth plumbing is not modelled: device requests, `gatt.connect`,
  `getPrimaryServices`, notification subscription and `monitorCharacteristic`.
  A connected server is a parameter: its service list and a map from service
  name to characteristic name to characteristic. Resolving service names to
  UUIDs is part of that parameter.
- The two 100 ms pauses of a write appear as `Delay(100)` events. Time itself
  is not modelled.
- Writes are modelled as running one at a time to completion, in call order.
  Promise scheduling is not modelled. In particular, a write still pending
  when `deviceUtilsNotifyConnect` replaces the queue can still run and fill
  the new, empty cache.
- The queue's catch handler appears as a `PreviousFailureLogged` event. Its
  console text and the failure value it prints are not modelled.
- `DeviceFactory.DecodeHrm`: the `console.log` of each decoded rate is not
  modelled.
- `DeviceFactory.DecodeHrm`: a value too short for its format makes
  `DataView` throw a `RangeError`. The model returns a `Failure` instead,
  with a message of its own that is not the `RangeError` text.
- A characteristic's `writeValue` succeeds or fails by a flag the server
  holds. The real reasons for failure are not modelled.
- `TestPowermeter`'s interval timer and random power readings are not
  modelled: clock and randomness. The timer is a parameter of its
  constructor.
- `BluetoothHrmDevice`'s start-up subscription to `heart_rate` /
  `heart_rate_measurement` is not modelled. It is Bluetooth plumbing.
- `DeviceFactory.BluetoothHrmDevice.DecodeHrmData` takes the time of a
  reading as a parameter. It does not read the clock.
- `getDeviceFactory` returns the single factory object and is not modelled.
