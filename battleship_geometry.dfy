/**
 * Value-level model of the Battleship grid engine: ship geometry, the clamped
 * move, the shot that marks damage, the 3x3 "shotgun" around a target and the
 * order in which one blast visits (cell, ship) pairs. The classes in module
 * BattleshipGame are proved against these functions.
 */
module BattleshipGeometry {
  import opened Wrappers

  datatype ShipType = Patrol | Sub | Cruiser | Battleship | Carrier | Unknown

  const DefaultGridSize: nat := 11

  /** Number of cells covered by a ship of type `t`. */
  function ShipLength(t: ShipType): (n: nat)
    ensures 1 <= n <= 5
  {
    match t
    case Battleship => 5
    case Carrier => 5
    case Cruiser => 4
    case Sub => 3
    case Patrol => 2
    case Unknown => 1
  }

  /** Display name given to a ship when it is constructed. */
  function ShipName(t: ShipType): string {
    match t
    case Patrol => "Patrol Boat (2)"
    case Sub => "Sub (3)"
    case Cruiser => "Cruiser (4)"
    case Battleship => "Battleship (5)"
    case Carrier => "Carrier (5)"
    case Unknown => "Unknown"
  }

  datatype Coords = Coords(ixCol: int, ixRow: int)

  predicate InGrid(c: Coords, nGrid: int) {
    0 <= c.ixCol < nGrid && 0 <= c.ixRow < nGrid
  }

  function Min(a: int, b: int): int { if a <= b then a else b }
  function Max(a: int, b: int): int { if a >= b then a else b }

  /** Where a ship lies: its type, its top-left cell and its orientation. */
  datatype Placement = Placement(shipType: ShipType, ixTopLeftCol: int, ixTopLeftRow: int, isVertical: bool)
  {
    function Length(): nat { ShipLength(shipType) }
    function Width(): nat { if isVertical then 1 else Length() }
    function Height(): nat { if isVertical then Length() else 1 }

    /** The cell `offset` steps along the ship's axis from its top-left cell. */
    function CellAt(offset: int): Coords {
      if isVertical then Coords(ixTopLeftCol, ixTopLeftRow + offset)
      else Coords(ixTopLeftCol + offset, ixTopLeftRow)
    }

    predicate IsShipPresent(ixCol: int, ixRow: int) {
      if isVertical then
        ixCol == ixTopLeftCol && ixRow >= ixTopLeftRow && ixRow < ixTopLeftRow + Length()
      else
        ixRow == ixTopLeftRow && ixCol >= ixTopLeftCol && ixCol < ixTopLeftCol + Length()
    }

    /** Index into the damage flags of the cell (ixCol, ixRow), or -1 off the ship. */
    function OffsetOfSpot(ixCol: int, ixRow: int): (offset: int)
      ensures offset == -1 <==> !IsShipPresent(ixCol, ixRow)
      ensures offset != -1 ==> 0 <= offset < Length() && CellAt(offset) == Coords(ixCol, ixRow)
    {
      if !IsShipPresent(ixCol, ixRow) then -1
      else if isVertical then ixRow - ixTopLeftRow
      else ixCol - ixTopLeftCol
    }

    /** Every cell of the ship lies inside the nGrid x nGrid board. */
    predicate InsideGrid(nGrid: int) {
      forall offset :: 0 <= offset < Length() ==> InGrid(CellAt(offset), nGrid)
    }

    /** Some cell of this ship is occupied by `other`. */
    predicate Intersects(other: Placement) {
      exists offset :: 0 <= offset < Length() && other.IsShipPresent(CellAt(offset).ixCol, CellAt(offset).ixRow)
    }
  }

  /** A ship occupies exactly the cells CellAt(0) .. CellAt(Length() - 1). */
  lemma PresentIffOnAxis(p: Placement, ixCol: int, ixRow: int)
    ensures p.IsShipPresent(ixCol, ixRow) <==>
            exists offset :: 0 <= offset < p.Length() && p.CellAt(offset) == Coords(ixCol, ixRow)
  {
    if p.IsShipPresent(ixCol, ixRow) {
      var offset := p.OffsetOfSpot(ixCol, ixRow);
      assert p.CellAt(offset) == Coords(ixCol, ixRow);
    }
  }

  /**
   * A ship's footprint is a Width() x Height() box one cell thick along the
   * other axis, and the ship covers exactly the cells of that box.
   */
  lemma FootprintIsBox(p: Placement)
    ensures p.Width() * p.Height() == p.Length()
    ensures p.Width() == 1 || p.Height() == 1
    ensures forall ixCol, ixRow :: p.IsShipPresent(ixCol, ixRow) <==>
              p.ixTopLeftCol <= ixCol < p.ixTopLeftCol + p.Width() && p.ixTopLeftRow <= ixRow < p.ixTopLeftRow + p.Height()
  {
  }

  /** Distinct offsets name distinct cells. */
  lemma CellAtInjective(p: Placement, i: int, j: int)
    ensures p.CellAt(i) == p.CellAt(j) <==> i == j
  {
  }

  /** A placement is valid exactly when its top-left cell leaves room for its width and height. */
  lemma InsideGridIffTopLeftBounds(p: Placement, nGrid: int)
    ensures p.InsideGrid(nGrid) <==>
            0 <= p.ixTopLeftCol && p.ixTopLeftCol + p.Width() <= nGrid &&
            0 <= p.ixTopLeftRow && p.ixTopLeftRow + p.Height() <= nGrid
  {
    if p.InsideGrid(nGrid) {
      assert InGrid(p.CellAt(0), nGrid);
      assert InGrid(p.CellAt(p.Length() - 1), nGrid);
    }
  }

  /** Overlap does not depend on which ship is asked. */
  lemma IntersectsSymmetric(a: Placement, b: Placement)
    ensures a.Intersects(b) <==> b.Intersects(a)
  {
    if a.Intersects(b) {
      OverlapWitness(a, b);
    }
    if b.Intersects(a) {
      OverlapWitness(b, a);
    }
  }

  lemma OverlapWitness(a: Placement, b: Placement)
    requires a.Intersects(b)
    ensures b.Intersects(a)
  {
    var k :| 0 <= k < a.Length() && b.IsShipPresent(a.CellAt(k).ixCol, a.CellAt(k).ixRow);
    var c := a.CellAt(k);
    var j := b.OffsetOfSpot(c.ixCol, c.ixRow);
    assert b.CellAt(j) == c;
    assert a.IsShipPresent(c.ixCol, c.ixRow);
  }

  // ---------------------------------------------------------------------------
  // Moves

  /**
   * Placement after asking to move by (ixCols, ixRows): the new top-left is
   * first raised to 0 and then lowered to nGrid - width (resp. height).
   */
  function Moved(p: Placement, nGrid: int, ixCols: int, ixRows: int): Placement {
    p.(ixTopLeftCol := Min(nGrid - p.Width(), Max(0, ixCols + p.ixTopLeftCol)),
       ixTopLeftRow := Min(nGrid - p.Height(), Max(0, ixRows + p.ixTopLeftRow)))
  }

  /** On a board at least as long as the ship, any move leaves the ship fully on the board. */
  lemma MovedStaysInGrid(p: Placement, nGrid: int, ixCols: int, ixRows: int)
    requires nGrid >= p.Length()
    ensures Moved(p, nGrid, ixCols, ixRows).InsideGrid(nGrid)
    ensures Moved(p, nGrid, ixCols, ixRows).shipType == p.shipType
    ensures Moved(p, nGrid, ixCols, ixRows).isVertical == p.isVertical
  {
    InsideGridIffTopLeftBounds(Moved(p, nGrid, ixCols, ixRows), nGrid);
  }

  /** A move whose target is already a valid placement is carried out exactly, without clamping. */
  lemma UnclampedMoveIsExact(p: Placement, nGrid: int, ixCols: int, ixRows: int)
    requires p.(ixTopLeftCol := p.ixTopLeftCol + ixCols, ixTopLeftRow := p.ixTopLeftRow + ixRows).InsideGrid(nGrid)
    ensures Moved(p, nGrid, ixCols, ixRows).ixTopLeftCol == p.ixTopLeftCol + ixCols
    ensures Moved(p, nGrid, ixCols, ixRows).ixTopLeftRow == p.ixTopLeftRow + ixRows
  {
    InsideGridIffTopLeftBounds(p.(ixTopLeftCol := p.ixTopLeftCol + ixCols, ixTopLeftRow := p.ixTopLeftRow + ixRows), nGrid);
  }

  /** The same move applied k times. */
  function MovedTimes(p: Placement, nGrid: int, ixCols: int, ixRows: int, k: nat): Placement
    decreases k
  {
    if k == 0 then p else Moved(MovedTimes(p, nGrid, ixCols, ixRows, k - 1), nGrid, ixCols, ixRows)
  }

  /**
   * Repeating a rightward move from a valid placement advances the ship until it
   * reaches the right edge and then keeps it there: it never wraps or leaves the board.
   */
  lemma {:induction false} RepeatedMoveConvergesToEdge(p: Placement, nGrid: int, ixCols: int, k: nat)
    requires p.InsideGrid(nGrid) && ixCols >= 0
    ensures MovedTimes(p, nGrid, ixCols, 0, k).ixTopLeftCol == Min(nGrid - p.Width(), p.ixTopLeftCol + k * ixCols)
    ensures MovedTimes(p, nGrid, ixCols, 0, k).ixTopLeftRow == p.ixTopLeftRow
    ensures MovedTimes(p, nGrid, ixCols, 0, k).Width() == p.Width()
    decreases k
  {
    InsideGridIffTopLeftBounds(p, nGrid);
    if k > 0 {
      RepeatedMoveConvergesToEdge(p, nGrid, ixCols, k - 1);
      assert (k - 1) * ixCols + ixCols == k * ixCols;
    }
  }

  // ---------------------------------------------------------------------------
  // Shots on one ship

  datatype ShotResult = ShotResult(hit: bool, sunk: bool, newlysunk: bool)

  const Miss := ShotResult(false, false, false)

  predicate AllDamaged(damage: seq<bool>) {
    forall k :: 0 <= k < |damage| ==> damage[k]
  }

  /** A ship as a value: where it lies, the board size it clamps to and which of its cells are damaged. */
  datatype ShipState = ShipState(placement: Placement, nGrid: int, damage: seq<bool>)
  {
    predicate WellFormed() { |damage| == placement.Length() }
    predicate IsSunk() { AllDamaged(damage) }
  }

  datatype ShotOutcome = ShotOutcome(ship: ShipState, result: ShotResult)

  /** A shot at `shot` on one ship: a miss changes nothing, a hit marks that cell damaged. */
  function ShotOn(s: ShipState, shot: Coords): (o: ShotOutcome)
    requires s.WellFormed()
    ensures o.ship.WellFormed() && o.ship.placement == s.placement && o.ship.nGrid == s.nGrid
    ensures o.result.hit <==> s.placement.IsShipPresent(shot.ixCol, shot.ixRow)
    ensures !o.result.hit ==> o.ship == s && o.result == Miss
    ensures o.result.hit ==> o.result.sunk == o.ship.IsSunk()
    ensures o.result.newlysunk <==> o.result.hit && o.ship.IsSunk() && !s.IsSunk()
    ensures forall k :: 0 <= k < |s.damage| ==>
              o.ship.damage[k] == (s.damage[k] || s.placement.CellAt(k) == shot)
  {
    if !s.placement.IsShipPresent(shot.ixCol, shot.ixRow) then
      PresentIffOnAxis(s.placement, shot.ixCol, shot.ixRow);
      ShotOutcome(s, Miss)
    else
      var offset := s.placement.OffsetOfSpot(shot.ixCol, shot.ixRow);
      var after := s.(damage := s.damage[offset := true]);
      ShotOutcome(after, ShotResult(true, after.IsSunk(), after.IsSunk() && !s.IsSunk()))
  }

  /** A ship takes the shots in order; the results are reported one per shot. */
  function ShotsOn(s: ShipState, shots: seq<Coords>): (r: (ShipState, seq<ShotResult>))
    requires s.WellFormed()
    ensures r.0.WellFormed() && r.0.placement == s.placement && |r.1| == |shots|
    decreases |shots|
  {
    if shots == [] then (s, [])
    else
      var o := ShotOn(s, shots[0]);
      var rest := ShotsOn(o.ship, shots[1..]);
      (rest.0, [o.result] + rest.1)
  }

  function CountNewlySunk(results: seq<ShotResult>): nat {
    if results == [] then 0
    else (if results[0].newlysunk then 1 else 0) + CountNewlySunk(results[1..])
  }

  /** Damage is never repaired: a cell damaged before a run of shots is damaged after it. */
  lemma {:induction false} ShotsOnDamage(s: ShipState, shots: seq<Coords>)
    requires s.WellFormed()
    ensures forall k :: 0 <= k < |s.damage| ==>
              ShotsOn(s, shots).0.damage[k] == (s.damage[k] || s.placement.CellAt(k) in shots)
    decreases |shots|
  {
    if shots != [] {
      var o := ShotOn(s, shots[0]);
      ShotsOnDamage(o.ship, shots[1..]);
      forall k | 0 <= k < |s.damage|
        ensures ShotsOn(s, shots).0.damage[k] == (s.damage[k] || s.placement.CellAt(k) in shots)
      {
        assert shots == [shots[0]] + shots[1..];
      }
    }
  }

  /** An undamaged ship is sunk exactly when every one of its cells has been shot at least once. */
  lemma SunkIffEveryCellShot(p: Placement, nGrid: int, shots: seq<Coords>)
    ensures var s := ShipState(p, nGrid, seq(p.Length(), _ => false));
            ShotsOn(s, shots).0.IsSunk() <==>
            forall k :: 0 <= k < p.Length() ==> p.CellAt(k) in shots
  {
    var s := ShipState(p, nGrid, seq(p.Length(), _ => false));
    ShotsOnDamage(s, shots);
  }

  /**
   * Across any run of shots at most one result is `newlysunk`, and there is
   * one exactly when the run takes the ship from afloat to sunk.
   */
  lemma {:induction false} NewlySunkAtMostOnce(s: ShipState, shots: seq<Coords>)
    requires s.WellFormed()
    ensures CountNewlySunk(ShotsOn(s, shots).1) <= 1
    ensures CountNewlySunk(ShotsOn(s, shots).1) == 1 <==> !s.IsSunk() && ShotsOn(s, shots).0.IsSunk()
    decreases |shots|
  {
    if shots != [] {
      var o := ShotOn(s, shots[0]);
      NewlySunkAtMostOnce(o.ship, shots[1..]);
      var rest := ShotsOn(o.ship, shots[1..]);
      assert ShotsOn(s, shots).1 == [o.result] + rest.1;
      assert ([o.result] + rest.1)[1..] == rest.1;
      if s.IsSunk() {
        assert o.ship.IsSunk();
      }
      if o.ship.IsSunk() {
        ShotsOnDamage(o.ship, shots[1..]);
        assert rest.0.IsSunk();
      }
    }
  }

  // ---------------------------------------------------------------------------
  // The shotgun

  /** The 3x3 block centred on `target`, column by column and, within a column, row by row. */
  function Neighbourhood(t: Coords): seq<Coords> {
    [Coords(t.ixCol - 1, t.ixRow - 1), Coords(t.ixCol - 1, t.ixRow), Coords(t.ixCol - 1, t.ixRow + 1),
     Coords(t.ixCol, t.ixRow - 1),     Coords(t.ixCol, t.ixRow),     Coords(t.ixCol, t.ixRow + 1),
     Coords(t.ixCol + 1, t.ixRow - 1), Coords(t.ixCol + 1, t.ixRow), Coords(t.ixCol + 1, t.ixRow + 1)]
  }

  lemma NeighbourhoodAt(t: Coords, x: int, y: int)
    requires 0 <= x < 3 && 0 <= y < 3
    ensures Neighbourhood(t)[3 * x + y] == Coords(t.ixCol - 1 + x, t.ixRow - 1 + y)
  {
  }

  /** The cells of `cells` that lie on the board, in their original order. */
  function KeepInGrid(cells: seq<Coords>, nGrid: int): (kept: seq<Coords>)
    ensures |kept| <= |cells|
    decreases |cells|
  {
    if cells == [] then []
    else
      var last := cells[|cells| - 1];
      KeepInGrid(cells[..|cells| - 1], nGrid) + (if InGrid(last, nGrid) then [last] else [])
  }

  lemma {:induction false} KeepInGridMembers(cells: seq<Coords>, nGrid: int)
    ensures forall c :: c in KeepInGrid(cells, nGrid) <==> c in cells && InGrid(c, nGrid)
    decreases |cells|
  {
    if cells != [] {
      var last := cells[|cells| - 1];
      assert cells == cells[..|cells| - 1] + [last];
      KeepInGridMembers(cells[..|cells| - 1], nGrid);
    }
  }

  predicate Distinct(cells: seq<Coords>) {
    forall i, j :: 0 <= i < j < |cells| ==> cells[i] != cells[j]
  }

  lemma {:induction false} KeepInGridDistinct(cells: seq<Coords>, nGrid: int)
    requires Distinct(cells)
    ensures Distinct(KeepInGrid(cells, nGrid))
    decreases |cells|
  {
    if cells != [] {
      var init := cells[..|cells| - 1];
      KeepInGridDistinct(init, nGrid);
      KeepInGridMembers(init, nGrid);
      assert cells[|cells| - 1] !in init;
    }
  }

  /** The cells a SHOOT at `target` fires on: its 3x3 neighbourhood clipped to the board. */
  function ShotgunCells(target: Coords, nGrid: int): seq<Coords> {
    KeepInGrid(Neighbourhood(target), nGrid)
  }

  /**
   * A shotgun hits at most nine cells, none twice, and exactly the on-board
   * cells at most one column and one row away from the target.
   */
  lemma ShotgunCellsSpec(target: Coords, nGrid: int)
    ensures |ShotgunCells(target, nGrid)| <= 9
    ensures Distinct(ShotgunCells(target, nGrid))
    ensures forall c :: c in ShotgunCells(target, nGrid) <==>
              InGrid(c, nGrid) && -1 <= c.ixCol - target.ixCol <= 1 && -1 <= c.ixRow - target.ixRow <= 1
  {
    var n := Neighbourhood(target);
    KeepInGridDistinct(n, nGrid);
    KeepInGridMembers(n, nGrid);
    forall c | InGrid(c, nGrid) && -1 <= c.ixCol - target.ixCol <= 1 && -1 <= c.ixRow - target.ixRow <= 1
      ensures c in ShotgunCells(target, nGrid)
    {
      NeighbourhoodAt(target, c.ixCol - target.ixCol + 1, c.ixRow - target.ixRow + 1);
    }
  }

  // ---------------------------------------------------------------------------
  // A whole fleet

  predicate FleetWellFormed(fleet: seq<ShipState>) {
    forall i :: 0 <= i < |fleet| ==> fleet[i].WellFormed()
  }

  /** Index of the first ship in list order that occupies `c`. */
  function FirstShipAt(fleet: seq<ShipState>, c: Coords): (r: Option<nat>)
    ensures r.Some? ==> r.value < |fleet| && fleet[r.value].placement.IsShipPresent(c.ixCol, c.ixRow)
    ensures r.Some? ==> forall j :: 0 <= j < r.value ==> !fleet[j].placement.IsShipPresent(c.ixCol, c.ixRow)
    ensures r.None? <==> forall j :: 0 <= j < |fleet| ==> !fleet[j].placement.IsShipPresent(c.ixCol, c.ixRow)
  {
    if fleet == [] then None
    else if fleet[0].placement.IsShipPresent(c.ixCol, c.ixRow) then Some(0)
    else match FirstShipAt(fleet[1..], c)
      case None => None
      case Some(i) => Some(i + 1)
  }

  /** Index of the first ship in list order whose type is `t`. */
  function FirstShipOfType(fleet: seq<ShipState>, t: ShipType): (r: Option<nat>)
    ensures r.Some? ==> r.value < |fleet| && fleet[r.value].placement.shipType == t
    ensures r.Some? ==> forall j :: 0 <= j < r.value ==> fleet[j].placement.shipType != t
    ensures r.None? <==> forall j :: 0 <= j < |fleet| ==> fleet[j].placement.shipType != t
  {
    if fleet == [] then None
    else if fleet[0].placement.shipType == t then Some(0)
    else match FirstShipOfType(fleet[1..], t)
      case None => None
      case Some(i) => Some(i + 1)
  }

  /** The fleet and the most recent result while one blast is being resolved. */
  datatype Blast = Blast(fleet: seq<ShipState>, last: Option<ShotResult>)

  /** Ships 0 .. n-1, in list order, take the shot at `cell`; each hit replaces the last result. */
  function ShootShips(fleet: seq<ShipState>, cell: Coords, n: nat, last: Option<ShotResult>): (b: Blast)
    requires FleetWellFormed(fleet) && n <= |fleet|
    ensures |b.fleet| == |fleet| && FleetWellFormed(b.fleet)
    ensures forall i :: 0 <= i < |fleet| ==> b.fleet[i].placement == fleet[i].placement && b.fleet[i].nGrid == fleet[i].nGrid
    decreases n
  {
    if n == 0 then Blast(fleet, last)
    else ShipTakesShot(ShootShips(fleet, cell, n - 1, last), cell, n - 1)
  }

  /** Ship `i` takes the shot at `cell` if it covers it; a hit replaces the last result. */
  function ShipTakesShot(b: Blast, cell: Coords, i: nat): (b': Blast)
    requires FleetWellFormed(b.fleet) && i < |b.fleet|
    ensures |b'.fleet| == |b.fleet| && FleetWellFormed(b'.fleet)
    ensures forall j :: 0 <= j < |b.fleet| ==> b'.fleet[j].placement == b.fleet[j].placement && b'.fleet[j].nGrid == b.fleet[j].nGrid
  {
    if b.fleet[i].placement.IsShipPresent(cell.ixCol, cell.ixRow) then
      var o := ShotOn(b.fleet[i], cell);
      Blast(b.fleet[i := o.ship], Some(o.result))
    else b
  }

  /** The cells are visited in order and, for each, every ship in list order. */
  function ShootCells(fleet: seq<ShipState>, cells: seq<Coords>): (b: Blast)
    requires FleetWellFormed(fleet)
    ensures |b.fleet| == |fleet| && FleetWellFormed(b.fleet)
    ensures forall i :: 0 <= i < |fleet| ==> b.fleet[i].placement == fleet[i].placement && b.fleet[i].nGrid == fleet[i].nGrid
    decreases |cells|
  {
    if cells == [] then Blast(fleet, None)
    else
      var b := ShootCells(fleet, cells[..|cells| - 1]);
      ShootShips(b.fleet, cells[|cells| - 1], |b.fleet|, b.last)
  }

  /** Index of the last of ships 0 .. n-1 that occupies `c`. */
  function LastShipAt(fleet: seq<ShipState>, c: Coords, n: nat): (r: Option<nat>)
    requires n <= |fleet|
    ensures r.None? <==> forall k :: 0 <= k < n ==> !fleet[k].placement.IsShipPresent(c.ixCol, c.ixRow)
    ensures r.Some? ==> r.value < n && fleet[r.value].placement.IsShipPresent(c.ixCol, c.ixRow)
    ensures r.Some? ==> forall k :: r.value < k < n ==> !fleet[k].placement.IsShipPresent(c.ixCol, c.ixRow)
    decreases n
  {
    if n == 0 then None
    else if fleet[n - 1].placement.IsShipPresent(c.ixCol, c.ixRow) then Some(n - 1)
    else LastShipAt(fleet, c, n - 1)
  }

  /** Which ship is last at a cell depends on the placements only. */
  lemma {:induction false} LastShipAtSamePlacements(f: seq<ShipState>, g: seq<ShipState>, c: Coords, n: nat)
    requires n <= |f| == |g| && forall i :: 0 <= i < |f| ==> f[i].placement == g[i].placement
    ensures LastShipAt(f, c, n) == LastShipAt(g, c, n)
    decreases n
  {
    if n > 0 {
      assert f[n - 1].placement == g[n - 1].placement;
      LastShipAtSamePlacements(f, g, c, n - 1);
    }
  }

  /** Ships from `n` on have not yet taken the shot. */
  lemma {:induction false} ShootShipsUntouched(fleet: seq<ShipState>, cell: Coords, n: nat, last: Option<ShotResult>, k: nat)
    requires FleetWellFormed(fleet) && n <= k < |fleet|
    ensures ShootShips(fleet, cell, n, last).fleet[k] == fleet[k]
    decreases n
  {
    if n > 0 {
      ShootShipsUntouched(fleet, cell, n - 1, last, k);
    }
  }

  /** Each of ships 0 .. n-1 has taken the shot on its own, as ShotOn says. */
  lemma {:induction false} ShootShipsEachShip(fleet: seq<ShipState>, cell: Coords, n: nat, last: Option<ShotResult>, k: nat)
    requires FleetWellFormed(fleet) && k < n <= |fleet|
    ensures ShootShips(fleet, cell, n, last).fleet[k] == ShotOn(fleet[k], cell).ship
    decreases n
  {
    if k == n - 1 {
      ShootShipsUntouched(fleet, cell, n - 1, last, k);
    } else {
      ShootShipsEachShip(fleet, cell, n - 1, last, k);
    }
  }

  /** The result of one cell is that of the last ship occupying it, or the earlier result when none does. */
  lemma {:induction false} ShootShipsLastShip(fleet: seq<ShipState>, cell: Coords, n: nat, last: Option<ShotResult>)
    requires FleetWellFormed(fleet) && n <= |fleet|
    ensures LastShipAt(fleet, cell, n).None? ==> ShootShips(fleet, cell, n, last).last == last
    ensures LastShipAt(fleet, cell, n).Some? ==>
              ShootShips(fleet, cell, n, last).last == Some(ShotOn(fleet[LastShipAt(fleet, cell, n).value], cell).result)
    decreases n
  {
    if n > 0 {
      var b := ShootShips(fleet, cell, n - 1, last);
      assert b.fleet[n - 1].placement == fleet[n - 1].placement;
      if fleet[n - 1].placement.IsShipPresent(cell.ixCol, cell.ixRow) {
        ShootShipsUntouched(fleet, cell, n - 1, last, n - 1);
        assert LastShipAt(fleet, cell, n) == Some(n - 1);
      } else {
        ShootShipsLastShip(fleet, cell, n - 1, last);
        assert ShootShips(fleet, cell, n, last) == b;
      }
    }
  }

  lemma {:induction false} ShootShipsReportsHit(fleet: seq<ShipState>, cell: Coords, n: nat, last: Option<ShotResult>)
    requires FleetWellFormed(fleet) && n <= |fleet|
    ensures ShootShips(fleet, cell, n, last).last.Some? <==>
            last.Some? || exists i :: 0 <= i < n && fleet[i].placement.IsShipPresent(cell.ixCol, cell.ixRow)
    decreases n
  {
    if n > 0 {
      ShootShipsReportsHit(fleet, cell, n - 1, last);
    }
  }

  lemma {:induction false} ShootShipsDamage(fleet: seq<ShipState>, cell: Coords, n: nat, last: Option<ShotResult>)
    requires FleetWellFormed(fleet) && n <= |fleet|
    ensures forall i, k :: 0 <= i < |fleet| && 0 <= k < |fleet[i].damage| ==>
              ShootShips(fleet, cell, n, last).fleet[i].damage[k] ==
              (fleet[i].damage[k] || (i < n && fleet[i].placement.CellAt(k) == cell))
    decreases n
  {
    if n > 0 {
      ShootShipsDamage(fleet, cell, n - 1, last);
    }
  }

  /** Some ship of the fleet occupies cell `c`. */
  predicate AnyShipAt(fleet: seq<ShipState>, c: Coords) {
    exists i :: 0 <= i < |fleet| && fleet[i].placement.IsShipPresent(c.ixCol, c.ixRow)
  }

  /** Occupancy depends on the placements only. */
  lemma AnyShipAtSamePlacements(f: seq<ShipState>, g: seq<ShipState>, c: Coords)
    requires |f| == |g| && forall i :: 0 <= i < |f| ==> f[i].placement == g[i].placement
    ensures AnyShipAt(f, c) <==> AnyShipAt(g, c)
  {
    if AnyShipAt(f, c) {
      var i :| 0 <= i < |f| && f[i].placement.IsShipPresent(c.ixCol, c.ixRow);
      assert g[i].placement.IsShipPresent(c.ixCol, c.ixRow);
    }
    if AnyShipAt(g, c) {
      var i :| 0 <= i < |g| && g[i].placement.IsShipPresent(c.ixCol, c.ixRow);
      assert f[i].placement.IsShipPresent(c.ixCol, c.ixRow);
    }
  }

  /** Some cell of a list is occupied iff some cell of all but its last is, or its last is. */
  lemma SomeCellOccupiedSnoc(fleet: seq<ShipState>, cells: seq<Coords>)
    requires cells != []
    ensures var init := cells[..|cells| - 1];
            (exists j :: 0 <= j < |cells| && AnyShipAt(fleet, cells[j])) <==>
            (exists j :: 0 <= j < |init| && AnyShipAt(fleet, init[j])) || AnyShipAt(fleet, cells[|cells| - 1])
  {
    var init := cells[..|cells| - 1];
    var cell := cells[|cells| - 1];
    if exists j :: 0 <= j < |cells| && AnyShipAt(fleet, cells[j]) {
      var j :| 0 <= j < |cells| && AnyShipAt(fleet, cells[j]);
      if j < |init| { assert init[j] == cells[j]; }
    }
    if exists j :: 0 <= j < |init| && AnyShipAt(fleet, init[j]) {
      var j :| 0 <= j < |init| && AnyShipAt(fleet, init[j]);
      assert init[j] == cells[j];
      assert 0 <= j < |cells| && AnyShipAt(fleet, cells[j]);
    }
    if AnyShipAt(fleet, cell) {
      assert cells[|init|] == cell;
      assert 0 <= |init| < |cells| && AnyShipAt(fleet, cells[|init|]);
    }
  }

  /** A blast reports a result exactly when some ship occupies some blasted cell. */
  lemma {:induction false} ShootCellsReportsHit(fleet: seq<ShipState>, cells: seq<Coords>)
    requires FleetWellFormed(fleet)
    ensures ShootCells(fleet, cells).last.Some? <==>
            exists j :: 0 <= j < |cells| && AnyShipAt(fleet, cells[j])
    decreases |cells|
  {
    if cells != [] {
      var init := cells[..|cells| - 1];
      var cell := cells[|cells| - 1];
      ShootCellsReportsHit(fleet, init);
      var b := ShootCells(fleet, init);
      ShootShipsReportsHit(b.fleet, cell, |b.fleet|, b.last);
      AnyShipAtSamePlacements(fleet, b.fleet, cell);
      SomeCellOccupiedSnoc(fleet, cells);
    }
  }

  /**
   * A blast damages exactly the blasted cells: a ship's cell ends up damaged when
   * it was damaged before or is one of the blasted cells, and only then. In
   * particular a ship that occupies none of those cells is left as it was.
   */
  lemma {:induction false} ShootCellsDamage(fleet: seq<ShipState>, cells: seq<Coords>)
    requires FleetWellFormed(fleet)
    ensures forall i, k :: 0 <= i < |fleet| && 0 <= k < |fleet[i].damage| ==>
              ShootCells(fleet, cells).fleet[i].damage[k] == (fleet[i].damage[k] || fleet[i].placement.CellAt(k) in cells)
    decreases |cells|
  {
    if cells != [] {
      var init := cells[..|cells| - 1];
      var cell := cells[|cells| - 1];
      assert cells == init + [cell];
      ShootCellsDamage(fleet, init);
      var b := ShootCells(fleet, init);
      ShootShipsDamage(b.fleet, cell, |b.fleet|, b.last);
    }
  }

  /** Index of the last of `cells` that some ship occupies. */
  function LastHitCell(fleet: seq<ShipState>, cells: seq<Coords>): (r: Option<nat>)
    ensures r.None? <==> forall j :: 0 <= j < |cells| ==> !AnyShipAt(fleet, cells[j])
    ensures r.Some? ==> r.value < |cells| && AnyShipAt(fleet, cells[r.value])
    ensures r.Some? ==> forall j :: r.value < j < |cells| ==> !AnyShipAt(fleet, cells[j])
    decreases |cells|
  {
    if cells == [] then None
    else if AnyShipAt(fleet, cells[|cells| - 1]) then Some(|cells| - 1)
    else
      var r := LastHitCell(fleet, cells[..|cells| - 1]);
      assert forall j :: 0 <= j < |cells| - 1 ==> cells[..|cells| - 1][j] == cells[j];
      r
  }

  /** A prefix of a prefix of the cells is a prefix of the cells, with the same elements. */
  lemma PrefixOfPrefix(cells: seq<Coords>, m: nat, j: nat)
    requires j < m <= |cells|
    ensures cells[..m][..j] == cells[..j] && cells[..m][j] == cells[j]
  {
  }

  /** A cell that no ship occupies leaves a blast as it was. */
  lemma ShootShipsAtEmptyCell(b: Blast, cell: Coords)
    requires FleetWellFormed(b.fleet) && !AnyShipAt(b.fleet, cell)
    ensures ShootShips(b.fleet, cell, |b.fleet|, b.last) == b
  {
    var b' := ShootShips(b.fleet, cell, |b.fleet|, b.last);
    forall k | 0 <= k < |b.fleet| ensures b'.fleet[k] == b.fleet[k] {
      ShootShipsEachShip(b.fleet, cell, |b.fleet|, b.last, k);
    }
    ShootShipsLastShip(b.fleet, cell, |b.fleet|, b.last);
  }

  /**
   * The blast's result is the report of the last (cell, ship) pair hit: `j` is
   * the last blasted cell that some ship occupies and `i` the last ship in
   * list order there. Ship `i` ends in the state that shot left it in.
   */
  lemma {:induction false} ShootCellsLastHit(fleet: seq<ShipState>, cells: seq<Coords>, j: nat, i: nat)
    requires FleetWellFormed(fleet)
    requires LastHitCell(fleet, cells) == Some(j) && LastShipAt(fleet, cells[j], |fleet|) == Some(i)
    ensures var o := ShotOn(ShootCells(fleet, cells[..j]).fleet[i], cells[j]);
            ShootCells(fleet, cells).fleet[i] == o.ship && ShootCells(fleet, cells).last == Some(o.result)
    decreases |cells|
  {
    var init := cells[..|cells| - 1];
    var cell := cells[|cells| - 1];
    var b := ShootCells(fleet, init);
    AnyShipAtSamePlacements(fleet, b.fleet, cell);
    if j == |cells| - 1 {
      LastShipAtSamePlacements(fleet, b.fleet, cell, |fleet|);
      ShootShipsEachShip(b.fleet, cell, |b.fleet|, b.last, i);
      ShootShipsLastShip(b.fleet, cell, |b.fleet|, b.last);
    } else {
      assert LastHitCell(fleet, init) == Some(j);
      PrefixOfPrefix(cells, |cells| - 1, j);
      ShootCellsLastHit(fleet, init, j, i);
      ShootShipsAtEmptyCell(b, cell);
    }
  }

  /**
   * What SHOOT reports: when there is a result, it is a hit whose `sunk` is
   * the present state of the last ship hit, and `newlysunk` holds exactly
   * when that ship is sunk now and was not sunk before the cell that hit it
   * last. There is no result when no ship occupies any blasted cell.
   */
  lemma ShootCellsLastIsCurrent(fleet: seq<ShipState>, cells: seq<Coords>)
    requires FleetWellFormed(fleet)
    ensures LastHitCell(fleet, cells).None? ==> ShootCells(fleet, cells).last.None?
    ensures var b := ShootCells(fleet, cells);
            b.last.Some? ==>
              && LastHitCell(fleet, cells).Some?
              && var j := LastHitCell(fleet, cells).value;
                 var i := LastShipAt(fleet, cells[j], |fleet|).value;
                 var before := ShootCells(fleet, cells[..j]).fleet[i];
                 && b.last.value.hit
                 && b.last.value.sunk == b.fleet[i].IsSunk()
                 && (b.last.value.newlysunk <==> b.fleet[i].IsSunk() && !before.IsSunk())
  {
    ShootCellsReportsHit(fleet, cells);
    match LastHitCell(fleet, cells)
    case None =>
    case Some(j) =>
      var i := LastShipAt(fleet, cells[j], |fleet|).value;
      ShootCellsLastHit(fleet, cells, j, i);
  }

  lemma KeepInGridSnoc(cells: seq<Coords>, c: Coords, nGrid: int)
    ensures KeepInGrid(cells + [c], nGrid) == KeepInGrid(cells, nGrid) + (if InGrid(c, nGrid) then [c] else [])
  {
    assert (cells + [c])[..|cells|] == cells;
  }

  /**
   * A shot at (1,0) on the default board: the blast covers the six on-board
   * cells around the target, column by column.
   */
  lemma ShotgunClippedAtTopEdge()
    ensures ShotgunCells(Coords(1, 0), DefaultGridSize) ==
            [Coords(0, 0), Coords(0, 1), Coords(1, 0), Coords(1, 1), Coords(2, 0), Coords(2, 1)]
  {
    var visited: seq<Coords> := [];
    var kept: seq<Coords> := [];
    KeepInGridSnoc(visited, Coords(0, -1), DefaultGridSize);
    visited, kept := visited + [Coords(0, -1)], kept + [];
    assert KeepInGrid(visited, DefaultGridSize) == kept;
    KeepInGridSnoc(visited, Coords(0, 0), DefaultGridSize);
    visited, kept := visited + [Coords(0, 0)], kept + [Coords(0, 0)];
    KeepInGridSnoc(visited, Coords(0, 1), DefaultGridSize);
    visited, kept := visited + [Coords(0, 1)], kept + [Coords(0, 1)];
    KeepInGridSnoc(visited, Coords(1, -1), DefaultGridSize);
    visited, kept := visited + [Coords(1, -1)], kept + [];
    KeepInGridSnoc(visited, Coords(1, 0), DefaultGridSize);
    visited, kept := visited + [Coords(1, 0)], kept + [Coords(1, 0)];
    KeepInGridSnoc(visited, Coords(1, 1), DefaultGridSize);
    visited, kept := visited + [Coords(1, 1)], kept + [Coords(1, 1)];
    KeepInGridSnoc(visited, Coords(2, -1), DefaultGridSize);
    visited, kept := visited + [Coords(2, -1)], kept + [];
    KeepInGridSnoc(visited, Coords(2, 0), DefaultGridSize);
    visited, kept := visited + [Coords(2, 0)], kept + [Coords(2, 0)];
    KeepInGridSnoc(visited, Coords(2, 1), DefaultGridSize);
    visited, kept := visited + [Coords(2, 1)], kept + [Coords(2, 1)];
    assert visited == Neighbourhood(Coords(1, 0));
  }

  /** A fresh horizontal patrol boat at the corner: its first cell hit leaves it afloat, its second sinks it. */
  lemma PatrolBoatTwoHits()
    ensures var p := Placement(Patrol, 0, 0, false);
            && ShotOn(ShipState(p, DefaultGridSize, [false, false]), Coords(0, 0))
                 == ShotOutcome(ShipState(p, DefaultGridSize, [true, false]), ShotResult(true, false, false))
            && ShotOn(ShipState(p, DefaultGridSize, [true, false]), Coords(1, 0))
                 == ShotOutcome(ShipState(p, DefaultGridSize, [true, true]), ShotResult(true, true, true))
  {
    var p := Placement(Patrol, 0, 0, false);
    assert !AllDamaged([true, false]) by { assert ![true, false][1]; }
    assert [false, false][0 := true] == [true, false];
    assert [true, false][1 := true] == [true, true];
    assert p.OffsetOfSpot(0, 0) == 0 && p.OffsetOfSpot(1, 0) == 1;
  }

  /**
   * A patrol boat at (0,0)-(1,0), shot at (1,0): both of its cells are in the
   * blast, so the result reports a hit that sinks it.
   */
  lemma PatrolBoatSunkByOneBlast()
    ensures ShootCells([ShipState(Placement(Patrol, 0, 0, false), DefaultGridSize, [false, false])],
                       ShotgunCells(Coords(1, 0), DefaultGridSize)).last
            == Some(ShotResult(true, true, true))
  {
    ShotgunClippedAtTopEdge();
    var cells := [Coords(0, 0), Coords(0, 1), Coords(1, 0), Coords(1, 1), Coords(2, 0), Coords(2, 1)];
    var p := Placement(Patrol, 0, 0, false);
    var f0 := [ShipState(p, DefaultGridSize, [false, false])];
    var f1 := [ShipState(p, DefaultGridSize, [true, false])];
    var f2 := [ShipState(p, DefaultGridSize, [true, true])];
    var hit1 := Some(ShotResult(true, false, false));
    var hit2 := Some(ShotResult(true, true, true));
    PatrolBoatTwoHits();
    assert ShootCells(f0, cells[..0]) == Blast(f0, None);
    assert cells[..1][..0] == cells[..0];
    assert ShootCells(f0, cells[..1]) == Blast(f1, hit1);
    assert cells[..2][..1] == cells[..1];
    assert ShootCells(f0, cells[..2]) == Blast(f1, hit1);
    assert cells[..3][..2] == cells[..2];
    assert ShootCells(f0, cells[..3]) == Blast(f2, hit2);
    assert cells[..4][..3] == cells[..3];
    assert ShootCells(f0, cells[..4]) == Blast(f2, hit2);
    assert cells[..5][..4] == cells[..4];
    assert ShootCells(f0, cells[..5]) == Blast(f2, hit2);
    assert cells[..6][..5] == cells[..5];
    assert cells[..6] == cells;
  }

  // ---------------------------------------------------------------------------
  // MOVE and RADAR turns on a fleet

  datatype MoveResult = MoveResult(ixRowsMoved: int, ixColsMoved: int)

  datatype FleetMove = FleetMove(fleet: seq<ShipState>, result: MoveResult)

  /**
   * A MOVE turn: the first ship of type `t` is moved (with clamping to its own
   * board); when there is none, nothing moves and the displacement is zero.
   */
  function MoveFleet(fleet: seq<ShipState>, t: ShipType, ixCols: int, ixRows: int): FleetMove {
    match FirstShipOfType(fleet, t)
    case None => FleetMove(fleet, MoveResult(0, 0))
    case Some(i) =>
      var p := fleet[i].placement;
      var q := Moved(p, fleet[i].nGrid, ixCols, ixRows);
      FleetMove(fleet[i := fleet[i].(placement := q)],
                MoveResult(q.ixTopLeftRow - p.ixTopLeftRow, q.ixTopLeftCol - p.ixTopLeftCol))
  }

  /**
   * A MOVE turn changes at most one ship, the first of the named type, and
   * only its top-left cell; the reported displacement is the change of that
   * cell; on a board at least as long as the ship it stays on the board; a
   * type absent from the fleet moves nothing and reports zero.
   */
  lemma MoveFleetSpec(fleet: seq<ShipState>, t: ShipType, ixCols: int, ixRows: int)
    ensures var m := MoveFleet(fleet, t, ixCols, ixRows);
            && |m.fleet| == |fleet|
            && (FirstShipOfType(fleet, t).None? ==> m == FleetMove(fleet, MoveResult(0, 0)))
            && (forall i :: 0 <= i < |fleet| && Some(i) != FirstShipOfType(fleet, t) ==> m.fleet[i] == fleet[i])
            && (FirstShipOfType(fleet, t).Some? ==>
                  var i := FirstShipOfType(fleet, t).value;
                  && fleet[i].placement.shipType == t
                  && m.fleet[i].damage == fleet[i].damage
                  && m.fleet[i].nGrid == fleet[i].nGrid
                  && m.fleet[i].placement.shipType == t
                  && m.fleet[i].placement.isVertical == fleet[i].placement.isVertical
                  && m.result.ixColsMoved == m.fleet[i].placement.ixTopLeftCol - fleet[i].placement.ixTopLeftCol
                  && m.result.ixRowsMoved == m.fleet[i].placement.ixTopLeftRow - fleet[i].placement.ixTopLeftRow
                  && (fleet[i].nGrid >= fleet[i].placement.Length() ==> m.fleet[i].placement.InsideGrid(fleet[i].nGrid)))
  {
    match FirstShipOfType(fleet, t)
    case None =>
    case Some(i) =>
      if fleet[i].nGrid >= fleet[i].placement.Length() {
        MovedStaysInGrid(fleet[i].placement, fleet[i].nGrid, ixCols, ixRows);
      }
  }

  datatype RadarResult = RadarResult(ixColScanned: seq<int>, ixRowScanned: seq<int>, shipPresent: seq<bool>)

  /** What a RADAR turn over `squares` reports: each square in order and whether a ship occupies it. */
  function RadarScan(fleet: seq<ShipState>, squares: seq<Coords>): RadarResult {
    RadarResult(seq(|squares|, k requires 0 <= k < |squares| => squares[k].ixCol),
                seq(|squares|, k requires 0 <= k < |squares| => squares[k].ixRow),
                seq(|squares|, k requires 0 <= k < |squares| => FirstShipAt(fleet, squares[k]).Some?))
  }

  /** Scanning one more square extends each column of the report by that square's entry. */
  lemma RadarScanSnoc(fleet: seq<ShipState>, squares: seq<Coords>, c: Coords)
    ensures var r := RadarScan(fleet, squares);
            RadarScan(fleet, squares + [c])
              == RadarResult(r.ixColScanned + [c.ixCol], r.ixRowScanned + [c.ixRow],
                             r.shipPresent + [FirstShipAt(fleet, c).Some?])
  {
    var r := RadarScan(fleet, squares);
    var r2 := RadarScan(fleet, squares + [c]);
    assert r2.ixColScanned == r.ixColScanned + [c.ixCol];
    assert r2.ixRowScanned == r.ixRowScanned + [c.ixRow];
    assert r2.shipPresent == r.shipPresent + [FirstShipAt(fleet, c).Some?];
  }

  /** The radar report has one entry per square, in the order asked, and is true exactly over occupied squares. */
  lemma RadarScanSpec(fleet: seq<ShipState>, squares: seq<Coords>)
    ensures var r := RadarScan(fleet, squares);
            && |r.ixColScanned| == |r.ixRowScanned| == |r.shipPresent| == |squares|
            && forall k :: 0 <= k < |squares| ==>
                 && Coords(r.ixColScanned[k], r.ixRowScanned[k]) == squares[k]
                 && (r.shipPresent[k] <==> AnyShipAt(fleet, squares[k]))
  {
    var r := RadarScan(fleet, squares);
    forall k | 0 <= k < |squares|
      ensures r.shipPresent[k] <==> AnyShipAt(fleet, squares[k])
    {
      var c := squares[k];
      if AnyShipAt(fleet, c) {
        var i :| 0 <= i < |fleet| && fleet[i].placement.IsShipPresent(c.ixCol, c.ixRow);
      }
    }
  }
}
