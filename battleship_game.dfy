/**
 * The Battleship objects: a ship whose damage flags are an array updated in
 * place, and a map that owns the ships and the radar and shot histories and
 * resolves one turn at a time. Every state-changing method is proved against
 * the value-level functions of module BattleshipGeometry.
 */
module BattleshipGame {
  import opened Wrappers
  import opened BattleshipGeometry
  import CellKeys

  datatype MoveParams = MoveParams(ship: ShipType, ixCols: int, ixRows: int, push: bool)

  datatype RadarParams = RadarParams(squares: seq<Coords>, stealth: bool)

  /** A turn, its kind paired with that kind's parameters; `OtherTurn` is any turn-type code outside the four. */
  datatype Turn =
    | MoveTurn(move: MoveParams)
    | RadarTurn(radar: RadarParams)
    | ShootTurn(shoot: Coords)
    | PassTurn
    | OtherTurn(code: int)

  datatype TurnResult =
    | MoveDone(moved: MoveResult)
    | RadarDone(scanned: RadarResult)
    | ShootDone(shot: ShotResult)

  const UnrecognizedMoveType := "Unrecognized move type"

  /** The history keys of a list of cells. */
  function KeysOf(cells: seq<Coords>): set<string> {
    set k | 0 <= k < |cells| :: CellKeys.CellKey(cells[k].ixCol, cells[k].ixRow)
  }

  lemma KeysOfSnoc(cells: seq<Coords>, c: Coords)
    ensures KeysOf(cells + [c]) == KeysOf(cells) + {CellKeys.CellKey(c.ixCol, c.ixRow)}
  {
    var all := cells + [c];
    assert CellKeys.CellKey(all[|cells|].ixCol, all[|cells|].ixRow) in KeysOf(all);
    forall key | key in KeysOf(all) ensures key in KeysOf(cells) + {CellKeys.CellKey(c.ixCol, c.ixRow)} {
      var k :| 0 <= k < |all| && key == CellKeys.CellKey(all[k].ixCol, all[k].ixRow);
      if k < |cells| {
        assert all[k] == cells[k];
      }
    }
    forall key | key in KeysOf(cells) ensures key in KeysOf(all) {
      var k :| 0 <= k < |cells| && key == CellKeys.CellKey(cells[k].ixCol, cells[k].ixRow);
      assert all[k] == cells[k];
    }
  }

  /** A cell's key is among the keys of a list of cells exactly when the cell is in the list. */
  lemma KeyInKeysOf(cells: seq<Coords>, ixCol: int, ixRow: int)
    ensures CellKeys.CellKey(ixCol, ixRow) in KeysOf(cells) <==> Coords(ixCol, ixRow) in cells
  {
    if CellKeys.CellKey(ixCol, ixRow) in KeysOf(cells) {
      var k :| 0 <= k < |cells| && CellKeys.CellKey(cells[k].ixCol, cells[k].ixRow) == CellKeys.CellKey(ixCol, ixRow);
      CellKeys.CellKeyInjective(cells[k].ixCol, cells[k].ixRow, ixCol, ixRow);
    }
    if Coords(ixCol, ixRow) in cells {
      var k :| 0 <= k < |cells| && cells[k] == Coords(ixCol, ixRow);
      assert CellKeys.CellKey(cells[k].ixCol, cells[k].ixRow) in KeysOf(cells);
    }
  }

  class Ship {
    const shipType: ShipType
    var ixTopLeftCol: int
    var ixTopLeftRow: int
    const isVertical: bool
    const damaged: array<bool>
    const nGrid: int
    const name: string

    ghost predicate Valid() {
      damaged.Length == ShipLength(shipType)
    }

    function Position(): Placement
      reads this
    {
      Placement(shipType, ixTopLeftCol, ixTopLeftRow, isVertical)
    }

    function State(): ShipState
      reads this, damaged
    {
      ShipState(Position(), nGrid, damaged[..])
    }

    /** A new ship lies where it is put and has one damage flag per cell, none set. */
    constructor (shipType: ShipType, ixTopLeftCol: int, ixTopLeftRow: int, isVertical: bool, nGrid: int)
      ensures Valid() && fresh(damaged)
      ensures State() == ShipState(Placement(shipType, ixTopLeftCol, ixTopLeftRow, isVertical), nGrid,
                                   seq(ShipLength(shipType), _ => false))
      ensures name == ShipName(shipType)
    {
      var len := ShipLength(shipType);
      var flags := new bool[len];
      var x := 0;
      while x < len
        invariant 0 <= x <= len
        invariant forall k :: 0 <= k < x ==> !flags[k]
      {
        flags[x] := false;
        x := x + 1;
      }
      this.shipType := shipType;
      this.ixTopLeftCol := ixTopLeftCol;
      this.ixTopLeftRow := ixTopLeftRow;
      this.isVertical := isVertical;
      this.nGrid := nGrid;
      this.name := ShipName(shipType);
      this.damaged := flags;
    }

    /** Whether every cell of the ship lies on its board, checked cell by cell. */
    method IsValidPlacement() returns (ok: bool)
      ensures ok <==> Position().InsideGrid(nGrid)
    {
      var len := ShipLength(shipType);
      var x := 0;
      while x < len
        invariant 0 <= x <= len
        invariant forall k :: 0 <= k < x ==> InGrid(Position().CellAt(k), nGrid)
      {
        var ixCol, ixRow;
        if isVertical {
          ixCol, ixRow := ixTopLeftCol, ixTopLeftRow + x;
        } else {
          ixCol, ixRow := ixTopLeftCol + x, ixTopLeftRow;
        }
        if ixCol < 0 || ixCol >= nGrid || ixRow < 0 || ixRow >= nGrid {
          assert !InGrid(Position().CellAt(x), nGrid);
          return false;
        }
        x := x + 1;
      }
      return true;
    }

    /** Whether some cell of this ship is occupied by ship `b`. */
    method Intersects(b: Ship) returns (r: bool)
      ensures r <==> Position().Intersects(b.Position())
    {
      var len := ShipLength(shipType);
      var x := 0;
      while x < len
        invariant 0 <= x <= len
        invariant forall k :: 0 <= k < x ==>
                    !b.Position().IsShipPresent(Position().CellAt(k).ixCol, Position().CellAt(k).ixRow)
      {
        var ixCol, ixRow;
        if isVertical {
          ixCol, ixRow := ixTopLeftCol, ixTopLeftRow + x;
        } else {
          ixCol, ixRow := ixTopLeftCol + x, ixTopLeftRow;
        }
        if b.Position().IsShipPresent(ixCol, ixRow) {
          assert Position().CellAt(x) == Coords(ixCol, ixRow);
          return true;
        }
        x := x + 1;
      }
      return false;
    }

    /** Whether the cell (ixCol, ixRow) is one of this ship's damaged cells. */
    function IsDamagedAt(ixCol: int, ixRow: int): (d: bool)
      requires Valid()
      reads this, damaged
      ensures d <==> exists k :: 0 <= k < damaged.Length && Position().CellAt(k) == Coords(ixCol, ixRow) && damaged[k]
    {
      if !Position().IsShipPresent(ixCol, ixRow) then
        PresentIffOnAxis(Position(), ixCol, ixRow);
        false
      else
        var offset := Position().OffsetOfSpot(ixCol, ixRow);
        damaged[offset]
    }

    function IsSunk(): bool
      reads damaged
    {
      AllDamaged(damaged[..])
    }

    /** Moves the ship by the requested amount, clamped so that it stays on its board. */
    method ApplyMove(move: MoveParams) returns (res: MoveResult)
      modifies this
      ensures Position() == Moved(old(Position()), nGrid, move.ixCols, move.ixRows)
      ensures res == MoveResult(ixTopLeftRow - old(ixTopLeftRow), ixTopLeftCol - old(ixTopLeftCol))
      ensures nGrid >= ShipLength(shipType) ==> Position().InsideGrid(nGrid)
    {
      var ixColStart := ixTopLeftCol;
      var ixRowStart := ixTopLeftRow;
      var ixColNew := Max(0, move.ixCols + ixTopLeftCol);
      var ixRowNew := Max(0, move.ixRows + ixTopLeftRow);
      var w := Position().Width();
      var h := Position().Height();
      ixColNew := Min(nGrid - w, ixColNew);
      ixRowNew := Min(nGrid - h, ixRowNew);
      ixTopLeftCol := ixColNew;
      ixTopLeftRow := ixRowNew;
      if nGrid >= ShipLength(shipType) {
        MovedStaysInGrid(old(Position()), nGrid, move.ixCols, move.ixRows);
      }
      res := MoveResult(ixTopLeftRow - ixRowStart, ixTopLeftCol - ixColStart);
    }

    /** A shot at one cell: marks that cell damaged if the ship is there. */
    method ApplyShot(shot: Coords) returns (res: ShotResult)
      requires Valid()
      modifies damaged
      ensures ShotOutcome(State(), res) == ShotOn(old(State()), shot)
    {
      if !Position().IsShipPresent(shot.ixCol, shot.ixRow) {
        return Miss;
      }
      var offset := Position().OffsetOfSpot(shot.ixCol, shot.ixRow);
      var sunkBefore := IsSunk();
      damaged[offset] := true;
      assert damaged[..] == old(damaged[..])[offset := true];
      res := ShotResult(true, IsSunk(), IsSunk() && !sunkBefore);
    }
  }

  /** The snapshot form of a ship, as a map snapshot carries it. */
  datatype ShipRecord = ShipRecord(shipType: ShipType, ixTopLeftCol: int, ixTopLeftRow: int,
                                   isVertical: bool, nGrid: int, damaged: seq<bool>)

  /** A map snapshot: board size, ships, id and the two histories as lists of keys. */
  datatype MapCreate = MapCreate(nGrid: int, ships: seq<ShipRecord>, mapId: string,
                                 shotHistory: Option<seq<string>>, radarHistory: Option<seq<string>>)

  function RecordOf(s: ShipState): ShipRecord {
    ShipRecord(s.placement.shipType, s.placement.ixTopLeftCol, s.placement.ixTopLeftRow,
               s.placement.isVertical, s.nGrid, s.damage)
  }

  /** The ship that inflating a snapshot record builds: type, position and orientation only, no damage. */
  function Inflated(r: ShipRecord): ShipState {
    ShipState(Placement(r.shipType, r.ixTopLeftCol, r.ixTopLeftRow, r.isVertical), r.nGrid,
              seq(ShipLength(r.shipType), _ => false))
  }

  /**
   * Saving a ship and inflating it again keeps where it lies and wipes its
   * damage; the round trip gives back the same ship exactly when it had none.
   */
  lemma InflateRecordForgetsDamage(s: ShipState)
    requires s.WellFormed()
    ensures Inflated(RecordOf(s)).placement == s.placement && Inflated(RecordOf(s)).nGrid == s.nGrid
    ensures AllDamagedNone(Inflated(RecordOf(s)).damage)
    ensures Inflated(RecordOf(s)) == s <==> AllDamagedNone(s.damage)
  {
    if AllDamagedNone(s.damage) {
      assert Inflated(RecordOf(s)).damage == s.damage;
    }
  }

  predicate AllDamagedNone(damage: seq<bool>) {
    forall k :: 0 <= k < |damage| ==> !damage[k]
  }

  function ListToSet(list: Option<seq<string>>): set<string> {
    match list
    case None => {}
    case Some(l) => set x | x in l
  }

  /** Adds every key of a list to a set, one at a time. */
  method CollectKeys(list: Option<seq<string>>) returns (keys: set<string>)
    ensures keys == ListToSet(list)
  {
    keys := {};
    if list.Some? {
      var l := list.value;
      var x := 0;
      while x < |l|
        invariant 0 <= x <= |l|
        invariant keys == set y | y in l[..x]
      {
        assert l[..x + 1] == l[..x] + [l[x]];
        keys := keys + {l[x]};
        x := x + 1;
      }
      assert l[..x] == l;
    }
  }

  /** Lists the elements of a set, each exactly once. */
  method SetToList(keys: set<string>) returns (list: seq<string>)
    ensures (set x | x in list) == keys
    ensures |list| == |keys|
  {
    list := [];
    var rest := keys;
    while rest != {}
      invariant rest <= keys
      invariant (set x | x in list) == keys - rest
      invariant |list| == |keys - rest|
      decreases |rest|
    {
      var key :| key in rest;
      assert key !in (set x | x in list);
      assert keys - (rest - {key}) == (keys - rest) + {key};
      list := list + [key];
      rest := rest - {key};
    }
  }

  /** Distinct ship objects, each with its own damage array. */
  ghost predicate ShipsValid(ships: seq<Ship>) {
    && (forall i :: 0 <= i < |ships| ==> ships[i].Valid())
    && (forall i, j :: 0 <= i < j < |ships| ==> ships[i] != ships[j] && ships[i].damaged != ships[j].damaged)
  }

  function DamageArrays(ships: seq<Ship>): set<array<bool>> {
    set i | 0 <= i < |ships| :: ships[i].damaged
  }

  function FleetOf(ships: seq<Ship>): (fleet: seq<ShipState>)
    reads ships, DamageArrays(ships)
    ensures |fleet| == |ships|
    ensures forall i :: 0 <= i < |ships| ==> fleet[i] == ships[i].State()
  {
    seq(|ships|, i requires 0 <= i < |ships| reads ships, DamageArrays(ships) => ships[i].State())
  }

  class GameMap {
    const mapId: string
    const nGrid: int
    const ships: seq<Ship>
    var radarHistory: set<string>
    var shotHistory: set<string>

    ghost predicate Valid() {
      ShipsValid(ships)
    }

    function Fleet(): (fleet: seq<ShipState>)
      reads ships, DamageArrays(ships)
      ensures |fleet| == |ships|
      ensures forall i :: 0 <= i < |ships| ==> fleet[i] == ships[i].State()
    {
      FleetOf(ships)
    }

    constructor (mapId: string, nGrid: int, ships: seq<Ship>,
                 shotHistory: Option<seq<string>>, radarHistory: Option<seq<string>>)
      requires ShipsValid(ships)
      ensures Valid()
      ensures this.mapId == mapId && this.nGrid == nGrid && this.ships == ships
      ensures this.shotHistory == ListToSet(shotHistory) && this.radarHistory == ListToSet(radarHistory)
    {
      this.mapId := mapId;
      this.nGrid := nGrid;
      this.ships := ships;
      var shots := CollectKeys(shotHistory);
      var radars := CollectKeys(radarHistory);
      this.shotHistory := shots;
      this.radarHistory := radars;
    }

    /** Whether any ship of the map occupies (ixCol, ixRow). */
    function IsShipPresent(ixCol: int, ixRow: int): (present: bool)
      reads ships, DamageArrays(ships)
      ensures present <==> exists i :: 0 <= i < |ships| && ships[i].Position().IsShipPresent(ixCol, ixRow)
    {
      FirstShipAt(Fleet(), Coords(ixCol, ixRow)).Some?
    }

    /** The first ship in list order that occupies (ixCol, ixRow), if any. */
    function GetShipAt(ixCol: int, ixRow: int): (r: Option<Ship>)
      reads ships, DamageArrays(ships)
      ensures r.None? <==> !IsShipPresent(ixCol, ixRow)
      ensures r.Some? ==> exists i :: 0 <= i < |ships| && ships[i] == r.value &&
                            ships[i].Position().IsShipPresent(ixCol, ixRow) &&
                            forall j :: 0 <= j < i ==> !ships[j].Position().IsShipPresent(ixCol, ixRow)
    {
      match FirstShipAt(Fleet(), Coords(ixCol, ixRow))
      case None => None
      case Some(i) => Some(ships[i])
    }

    /** Whether radar has been run over (ixCol, ixRow). */
    function GetRadarAt(ixCol: int, ixRow: int): bool
      reads this
    {
      CellKeys.CellKey(ixCol, ixRow) in radarHistory
    }

    /** Whether (ixCol, ixRow) has been shot at. */
    function GetShotAt(ixCol: int, ixRow: int): bool
      reads this
    {
      CellKeys.CellKey(ixCol, ixRow) in shotHistory
    }

    function Ships(): set<Ship> {
      set i | 0 <= i < |ships| :: ships[i]
    }

    /** MOVE: the first ship of the named type is moved; with no such ship nothing moves. */
    method ApplyShipMove(move: MoveParams) returns (res: MoveResult)
      requires Valid()
      modifies Ships()
      ensures FleetMove(Fleet(), res) == MoveFleet(old(Fleet()), move.ship, move.ixCols, move.ixRows)
    {
      var found := FirstShipOfType(Fleet(), move.ship);
      if found.None? {
        return MoveResult(0, 0);
      }
      var i := found.value;
      ghost var before := Fleet();
      res := ships[i].ApplyMove(move);
      assert Fleet() == before[i := before[i].(placement := ships[i].Position())];
    }

    /** Scans `squares` in order without changing the map: what RADAR reports, and the keys it records. */
    method Scan(squares: seq<Coords>) returns (res: RadarResult, keys: set<string>)
      requires Valid()
      ensures res == RadarScan(Fleet(), squares)
      ensures keys == KeysOf(squares)
    {
      res := RadarResult([], [], []);
      keys := {};
      ghost var fleet := Fleet();
      var x := 0;
      while x < |squares|
        invariant 0 <= x <= |squares|
        invariant res == RadarScan(fleet, squares[..x])
        invariant keys == KeysOf(squares[..x])
      {
        var ixCol := squares[x].ixCol;
        var ixRow := squares[x].ixRow;
        var here := IsShipPresent(ixCol, ixRow);
        assert here == FirstShipAt(fleet, squares[x]).Some?;
        assert squares[..x + 1] == squares[..x] + [squares[x]];
        RadarScanSnoc(fleet, squares[..x], squares[x]);
        KeysOfSnoc(squares[..x], squares[x]);
        res := RadarResult(res.ixColScanned + [ixCol], res.ixRowScanned + [ixRow], res.shipPresent + [here]);
        keys := keys + {CellKeys.CellKey(ixCol, ixRow)};
        x := x + 1;
      }
      assert squares[..x] == squares;
    }

    /** RADAR: reports each square in order and records its key in the radar history. */
    method ApplyRadar(radar: RadarParams) returns (res: RadarResult)
      requires Valid()
      modifies this`radarHistory
      ensures res == RadarScan(Fleet(), radar.squares)
      ensures radarHistory == old(radarHistory) + KeysOf(radar.squares)
    {
      var keys;
      res, keys := Scan(radar.squares);
      radarHistory := radarHistory + keys;
    }

    /** The cells of a shotgun blast at `target`, built column by column. */
    method ShotgunShots(target: Coords) returns (shots: seq<Coords>)
      ensures shots == ShotgunCells(target, nGrid)
    {
      shots := [];
      var x := 0;
      while x < 3
        invariant 0 <= x <= 3
        invariant shots == KeepInGrid(Neighbourhood(target)[..3 * x], nGrid)
      {
        shots := ShotgunColumn(target, x, shots);
        x := x + 1;
      }
      assert Neighbourhood(target)[..9] == Neighbourhood(target);
    }

    /** Appends the on-board cells of column `x` of the 3x3 block around `target`, top to bottom. */
    method ShotgunColumn(target: Coords, x: nat, shots: seq<Coords>) returns (shots': seq<Coords>)
      requires x < 3 && shots == KeepInGrid(Neighbourhood(target)[..3 * x], nGrid)
      ensures shots' == KeepInGrid(Neighbourhood(target)[..3 * x + 3], nGrid)
    {
      ghost var nb := Neighbourhood(target);
      shots' := shots;
      var y := 0;
      while y < 3
        invariant 0 <= y <= 3
        invariant shots' == KeepInGrid(nb[..3 * x + y], nGrid)
      {
        var ixCol := target.ixCol - 1 + x;
        var ixRow := target.ixRow - 1 + y;
        NeighbourhoodAt(target, x, y);
        KeepInGridSnoc(nb[..3 * x + y], Coords(ixCol, ixRow), nGrid);
        assert nb[..3 * x + y + 1] == nb[..3 * x + y] + [Coords(ixCol, ixRow)];
        if ixCol >= 0 && ixCol < nGrid && ixRow >= 0 && ixRow < nGrid {
          shots' := shots' + [Coords(ixCol, ixRow)];
        }
        y := y + 1;
      }
    }

    /** Every ship's damage flags match its length while the map is valid. */
    lemma FleetWellFormedWhenValid()
      requires Valid()
      ensures FleetWellFormed(Fleet())
    {
      forall k | 0 <= k < |ships| ensures Fleet()[k].WellFormed() {
        assert ships[k].Valid();
      }
    }

    /** Ship `i` takes the shot if it covers the cell; every other ship keeps its state. */
    method ShootShip(i: nat, shot: Coords, last: Option<ShotResult>) returns (ret: Option<ShotResult>)
      requires Valid() && i < |ships|
      modifies ships[i].damaged
      ensures FleetWellFormed(old(Fleet()))
      ensures Blast(Fleet(), ret) == ShipTakesShot(Blast(old(Fleet()), last), shot, i)
    {
      FleetWellFormedWhenValid();
      ret := last;
      if ships[i].Position().IsShipPresent(shot.ixCol, shot.ixRow) {
        ghost var before := Fleet();
        var r := ships[i].ApplyShot(shot);
        forall k | 0 <= k < |ships| ensures Fleet()[k] == before[i := ships[i].State()][k] {
          if k != i {
            assert ships[k].damaged != ships[i].damaged;
          }
        }
        ret := Some(r);
      }
    }

    /** Fires one shot at every ship that covers it; `ret` ends as the last hit ship's report. */
    method ShootShipsAt(shot: Coords, last: Option<ShotResult>) returns (ret: Option<ShotResult>)
      requires Valid()
      modifies DamageArrays(ships)
      ensures Blast(Fleet(), ret) == ShootShips(old(Fleet()), shot, |ships|, last)
    {
      ghost var fleetAtCell := Fleet();
      FleetWellFormedWhenValid();
      ret := last;
      var i := 0;
      while i < |ships|
        invariant 0 <= i <= |ships|
        invariant Blast(Fleet(), ret) == ShootShips(fleetAtCell, shot, i, last)
      {
        ret := ShootShip(i, shot, ret);
        i := i + 1;
      }
    }

    /** Fires at each cell of `shots` in order; also returns the keys of the cells fired at. */
    method ShootCellsAt(shots: seq<Coords>) returns (ret: Option<ShotResult>, keys: set<string>)
      requires Valid()
      modifies DamageArrays(ships)
      ensures Blast(Fleet(), ret) == ShootCells(old(Fleet()), shots)
      ensures keys == KeysOf(shots)
    {
      ghost var fleet0 := Fleet();
      ret := None;
      keys := {};
      var j := 0;
      while j < |shots|
        invariant 0 <= j <= |shots|
        invariant Blast(Fleet(), ret) == ShootCells(fleet0, shots[..j])
        invariant keys == KeysOf(shots[..j])
      {
        var shot := shots[j];
        assert shots[..j + 1] == shots[..j] + [shot];
        KeysOfSnoc(shots[..j], shot);
        keys := keys + {CellKeys.CellKey(shot.ixCol, shot.ixRow)};
        ret := ShootShipsAt(shot, ret);
        assert shots[..j + 1][..j] == shots[..j];
        j := j + 1;
      }
      assert shots[..j] == shots;
    }

    /**
     * SHOOT: a shotgun blast over the in-grid 3x3 block around `target`. Every
     * cell is recorded in the shot history and fired at every ship covering it;
     * the result is the report of the last ship hit, or a miss.
     */
    method ApplyShoot(target: Coords) returns (res: ShotResult)
      requires Valid()
      modifies this`shotHistory, DamageArrays(ships)
      ensures var b := ShootCells(old(Fleet()), ShotgunCells(target, nGrid));
              Fleet() == b.fleet && res == (if b.last.Some? then b.last.value else Miss)
      ensures shotHistory == old(shotHistory) + KeysOf(ShotgunCells(target, nGrid))
    {
      ghost var fleet0 := Fleet();
      var shots := ShotgunShots(target);
      assert Fleet() == fleet0;
      var ret, keys := ShootCellsAt(shots);
      ghost var b := ShootCells(fleet0, shots);
      assert Blast(Fleet(), ret) == b;
      shotHistory := shotHistory + keys;
      res := if ret.Some? then ret.value else Miss;
    }

    /** Resolves one turn; PASS and any other turn type are rejected. */
    method ApplyMove(turn: Turn) returns (res: Result<TurnResult>)
      requires Valid()
      modifies this`radarHistory, this`shotHistory, Ships(), DamageArrays(ships)
      ensures match turn
        case MoveTurn(move) =>
          && res.Success? && res.value.MoveDone?
          && FleetMove(Fleet(), res.value.moved) == MoveFleet(old(Fleet()), move.ship, move.ixCols, move.ixRows)
          && radarHistory == old(radarHistory) && shotHistory == old(shotHistory)
        case RadarTurn(radar) =>
          && res == Success(RadarDone(RadarScan(old(Fleet()), radar.squares)))
          && Fleet() == old(Fleet())
          && radarHistory == old(radarHistory) + KeysOf(radar.squares) && shotHistory == old(shotHistory)
        case ShootTurn(target) =>
          var b := ShootCells(old(Fleet()), ShotgunCells(target, nGrid));
          && res == Success(ShootDone(if b.last.Some? then b.last.value else Miss))
          && Fleet() == b.fleet
          && radarHistory == old(radarHistory) && shotHistory == old(shotHistory) + KeysOf(ShotgunCells(target, nGrid))
        case _ =>
          && res == Failure(UnrecognizedMoveType)
          && Fleet() == old(Fleet()) && radarHistory == old(radarHistory) && shotHistory == old(shotHistory)
    {
      match turn {
        case MoveTurn(move) =>
          var moved := ApplyShipMove(move);
          res := Success(MoveDone(moved));
        case RadarTurn(radar) =>
          var scanned := ApplyRadar(radar);
          res := Success(RadarDone(scanned));
        case ShootTurn(target) =>
          var shot := ApplyShoot(target);
          res := Success(ShootDone(shot));
        case _ =>
          res := Failure(UnrecognizedMoveType);
      }
    }

    /** A snapshot of the map: every ship as a record and each history listed once per key. */
    method ToMapCreate() returns (c: MapCreate)
      ensures c.nGrid == nGrid && c.mapId == mapId
      ensures |c.ships| == |ships| && forall i :: 0 <= i < |ships| ==> c.ships[i] == RecordOf(Fleet()[i])
      ensures c.shotHistory.Some? && ListToSet(c.shotHistory) == shotHistory && |c.shotHistory.value| == |shotHistory|
      ensures c.radarHistory.Some? && ListToSet(c.radarHistory) == radarHistory && |c.radarHistory.value| == |radarHistory|
    {
      var shots := SetToList(shotHistory);
      var radars := SetToList(radarHistory);
      var fleet := Fleet();
      var records := seq(|fleet|, i requires 0 <= i < |fleet| => RecordOf(fleet[i]));
      c := MapCreate(nGrid, records, mapId, Some(shots), Some(radars));
    }
  }

  /** Rebuilds a map from a snapshot: fresh ships from type, position and orientation, histories as sets. */
  method InflateMap(create: MapCreate) returns (m: GameMap)
    ensures fresh(m) && m.Valid()
    ensures m.nGrid == create.nGrid && m.mapId == create.mapId
    ensures |m.ships| == |create.ships| && forall i :: 0 <= i < |create.ships| ==> m.Fleet()[i] == Inflated(create.ships[i])
    ensures m.shotHistory == ListToSet(create.shotHistory) && m.radarHistory == ListToSet(create.radarHistory)
  {
    var fullShips: seq<Ship> := [];
    var x := 0;
    while x < |create.ships|
      invariant 0 <= x <= |create.ships|
      invariant |fullShips| == x
      invariant ShipsValid(fullShips)
      invariant forall i :: 0 <= i < x ==> fresh(fullShips[i]) && fresh(fullShips[i].damaged)
      invariant forall i :: 0 <= i < x ==> fullShips[i].State() == Inflated(create.ships[i])
    {
      var raw := create.ships[x];
      var ship := new Ship(raw.shipType, raw.ixTopLeftCol, raw.ixTopLeftRow, raw.isVertical, raw.nGrid);
      fullShips := fullShips + [ship];
      x := x + 1;
    }
    m := new GameMap(create.mapId, create.nGrid, fullShips, create.shotHistory, create.radarHistory);
  }

  /**
   * Saving a map and inflating the snapshot gives a map with the same ships in
   * the same places and the same histories, but with every damage flag cleared.
   */
  method ReloadMap(m: GameMap) returns (m2: GameMap)
    requires m.Valid()
    ensures m2.Valid() && m2.nGrid == m.nGrid && m2.mapId == m.mapId
    ensures |m2.ships| == |m.ships|
    ensures forall i :: 0 <= i < |m.ships| ==>
              && m2.Fleet()[i].placement == m.Fleet()[i].placement
              && m2.Fleet()[i].nGrid == m.Fleet()[i].nGrid
              && AllDamagedNone(m2.Fleet()[i].damage)
    ensures m2.shotHistory == m.shotHistory && m2.radarHistory == m.radarHistory
  {
    var c := m.ToMapCreate();
    m2 := InflateMap(c);
    forall i | 0 <= i < |m.ships|
      ensures m2.Fleet()[i].placement == m.Fleet()[i].placement && m2.Fleet()[i].nGrid == m.Fleet()[i].nGrid
      ensures AllDamagedNone(m2.Fleet()[i].damage)
    {
      InflateRecordForgetsDamage(m.Fleet()[i]);
    }
  }
}
