/** Placing a building on the grid and clearing a cell: guard chains that
    either fail and leave the city untouched, or write one cell and apply the
    building's effects to the metrics. */
module Buildings {

  import opened Wrappers
  import opened BuildingTypes
  import opened GameState

  /** The boolean an operation returns, with the city state it leaves. */
  datatype Outcome = Outcome(ok: bool, after: CityState)

  /** The deltas applied when a building is placed: its cost leaves the
      budget and each of its five effects is added. */
  function PlacementChanges(d: BuildingData): Changes
  {
    Changes(-d.cost, d.populationEffect, d.pollutionEffect, d.energyEffect, d.incomeEffect, d.happinessEffect)
  }

  /** The deltas applied when a building is removed: the refund is credited
      and each stored effect is taken back. */
  function RemovalChanges(d: BuildingData): Changes
  {
    Changes(Refund(d), -d.populationEffect, -d.pollutionEffect, -d.energyEffect, -d.incomeEffect, -d.happinessEffect)
  }

  /** Every occupied cell holds the table row of the kind placed there. */
  predicate Stocked(b: Board)
    requires IsBoard(b)
  {
    forall z, x :: 0 <= z < GridSize && 0 <= x < GridSize && b[z][x].Some? ==>
      b[z][x].value.data == DataOf(b[z][x].value.kind)
  }

  /** `placeBuilding(x, z, key)` on a city value. The guards run in order (a
      known key, both coordinates in range, an empty cell, enough budget); a
      budget equal to the cost is enough. On failure nothing changes. On
      success cell `[z][x]` holds the kind and a copy of its table row, no
      other cell changes, and the budget drops by exactly the cost. */
  function Place(s: CityState, x: int, z: int, key: string): (r: Outcome)
    requires IsBoard(s.board)
    ensures IsBoard(r.after.board)
    ensures r.ok <==>
      && Lookup(key).Some?
      && 0 <= x < GridSize && 0 <= z < GridSize
      && s.board[z][x].None?
      && s.metrics.budget >= DataOf(Lookup(key).value).cost
    ensures !r.ok ==> r.after == s
    ensures r.ok ==> r.after.board[z][x] == Some(Placed(Lookup(key).value, DataOf(Lookup(key).value)))
    ensures r.ok ==> forall j, i :: 0 <= j < GridSize && 0 <= i < GridSize && (j != z || i != x) ==>
      r.after.board[j][i] == s.board[j][i]
    ensures r.ok ==> r.after.metrics == Updated(s.metrics, PlacementChanges(DataOf(Lookup(key).value)))
    ensures r.ok ==> r.after.metrics.budget == s.metrics.budget - DataOf(Lookup(key).value).cost < s.metrics.budget
    ensures Stocked(s.board) ==> Stocked(r.after.board)
  {
    match Lookup(key)
    case None => Outcome(false, s)
    case Some(kind) =>
      if x < 0 || x >= GridSize || z < 0 || z >= GridSize then Outcome(false, s)
      else if s.board[z][x].Some? then Outcome(false, s)
      else
        var data := DataOf(kind);
        if s.metrics.budget < data.cost then Outcome(false, s)
        else
          var board := s.board[z := s.board[z][x := Some(Placed(kind, data))]];
          Outcome(true, CityState(Updated(s.metrics, PlacementChanges(data)), board))
  }

  /** `clearCell(x, z)` on a city value, for a row `z` on the grid (the game
      faults on any other row). An empty cell, or a column off the grid, gives
      false and changes nothing. Otherwise the cell is emptied, no other cell
      changes, half the stored cost is credited and each stored effect is
      taken back. */
  function Clear(s: CityState, x: int, z: int): (r: Outcome)
    requires IsBoard(s.board) && 0 <= z < GridSize
    ensures IsBoard(r.after.board)
    ensures r.ok <==> 0 <= x < GridSize && s.board[z][x].Some?
    ensures !r.ok ==> r.after == s
    ensures r.ok ==> r.after.board[z][x] == None
    ensures r.ok ==> forall j, i :: 0 <= j < GridSize && 0 <= i < GridSize && (j != z || i != x) ==>
      r.after.board[j][i] == s.board[j][i]
    ensures r.ok ==> r.after.metrics == Updated(s.metrics, RemovalChanges(s.board[z][x].value.data))
    ensures Stocked(s.board) ==> Stocked(r.after.board)
    ensures r.ok && Stocked(s.board) && s.metrics.budget >= 0 ==>
      r.after.metrics.budget == s.metrics.budget + s.board[z][x].value.data.cost / 2
  {
    if x < 0 || x >= GridSize || s.board[z][x].None? then Outcome(false, s)
    else
      var building := s.board[z][x].value;
      var metrics := Updated(s.metrics, RemovalChanges(building.data));
      Outcome(true, CityState(metrics, s.board[z := s.board[z][x := None]]))
  }

  /** The placement step fires no clamp: happiness stays at most 100 and
      pollution and population stay non-negative. */
  predicate NoClampOnPlacement(m: Metrics, d: BuildingData)
  {
    m.happiness + d.happinessEffect <= 100 &&
    m.pollution + d.pollutionEffect >= 0 &&
    m.population + d.populationEffect >= 0
  }

  /** Placing a building and clearing the same cell restores the grid and
      leaves the budget at `b - cost + cost / 2`. The other metrics come back
      to their values before the placement exactly when no clamp fired while
      placing. */
  lemma PlaceThenClear(s: CityState, x: int, z: int, key: string)
    requires IsBoard(s.board) && Clamped(s.metrics)
    requires Place(s, x, z, key).ok
    ensures
      var d := DataOf(Lookup(key).value);
      var cleared := Clear(Place(s, x, z, key).after, x, z);
      && cleared.ok
      && cleared.after.board == s.board
      && cleared.after.metrics.budget == s.metrics.budget - d.cost + d.cost / 2
      && cleared.after.metrics.turnCount == s.metrics.turnCount
      && (SameFigures(cleared.after.metrics.(budget := s.metrics.budget), s.metrics)
          <==> NoClampOnPlacement(s.metrics, d))
  {
    var d := DataOf(Lookup(key).value);
    var placed := Place(s, x, z, key).after;
    var cleared := Clear(placed, x, z);
    assert placed.board[z][x].value.data == d;
    SameCellsSameBoard(cleared.after.board, s.board);
  }

  /** A clamp that fires while placing is not undone by clearing: a house
      (+10 happiness) placed in a city at 100 happiness and then removed
      leaves happiness at 90. */
  lemma HouseRoundTripAtFullHappiness(s: CityState, x: int, z: int)
    requires IsBoard(s.board) && Clamped(s.metrics)
    requires s.metrics.happiness == 100 && s.metrics.budget >= 1000
    requires 0 <= x < GridSize && 0 <= z < GridSize && s.board[z][x].None?
    ensures Place(s, x, z, "maison").ok
    ensures Clear(Place(s, x, z, "maison").after, x, z).after.metrics.happiness == 90
  {
    var placed := Place(s, x, z, "maison").after;
    assert placed.board[z][x].value.data == DataOf(House);
  }

  /** `placeBuilding(x, z, buildingType)` on the city, in place. */
  method PlaceBuilding(city: City, x: int, z: int, buildingType: string) returns (ok: bool)
    requires city.Valid()
    modifies city, city.grid
    ensures Outcome(ok, city.State()) == Place(old(city.State()), x, z, buildingType)
  {
    var found := Lookup(buildingType);
    if found.None? {
      return false;
    }
    if x < 0 || x >= GridSize || z < 0 || z >= GridSize {
      return false;
    }
    if city.grid[z, x].Some? {
      return false;
    }
    var buildingData := DataOf(found.value);
    if city.budget < buildingData.cost {
      return false;
    }

    ghost var before := city.State();
    city.grid[z, x] := Some(Placed(found.value, buildingData));
    city.UpdateGameState(PlacementChanges(buildingData));
    SameCellsSameBoard(city.Cells(), Place(before, x, z, buildingType).after.board);
    return true;
  }

  /** `clearCell(x, z)` on the city, in place. */
  method ClearCell(city: City, x: int, z: int) returns (ok: bool)
    requires city.Valid() && 0 <= z < GridSize
    modifies city, city.grid
    ensures Outcome(ok, city.State()) == Clear(old(city.State()), x, z)
  {
    if x < 0 || x >= GridSize || city.grid[z, x].None? {
      return false;
    }

    ghost var before := city.State();
    var building := city.grid[z, x].value;
    var refundAmount := Refund(building.data);
    city.UpdateGameState(Changes(
      refundAmount,
      -building.data.populationEffect,
      -building.data.pollutionEffect,
      -building.data.energyEffect,
      -building.data.incomeEffect,
      -building.data.happinessEffect));
    city.grid[z, x] := None;
    SameCellsSameBoard(city.Cells(), Clear(before, x, z).after.board);
    return true;
  }

}
