/** The city's state: its metrics (budget, pollution, population, happiness,
    energy, income, turn count and the two end-of-game flags), the fixed end
    thresholds and the 5×5 grid of placed buildings.

    The pure functions below say what each operation does to the metrics; the
    class `City` holds the same state in mutable fields and an array, and each
    of its methods is proved to agree with the corresponding function. */
module GameState {

  import opened Wrappers
  import opened BuildingTypes

  /** Side length of the square grid. */
  const GridSize := 5

  /** End thresholds: pollution at or above this loses the game. */
  const PollutionMax := 100
  /** Win thresholds on population and happiness. */
  const MinPopulation := 500
  const MinHappiness := 70

  /** The city metrics. Numbers in the game are JavaScript numbers; every value
      they take here is a whole number, so they are modelled as `int`. */
  datatype Metrics = Metrics(
    budget: int,
    pollution: int,
    population: int,
    happiness: int,
    energy: int,
    income: int,
    turnCount: int,
    gameOver: bool,
    gameWon: bool)

  /** The metrics of a new (or restarted) game. */
  const Initial := Metrics(100000, 0, 0, 100, 0, 0, 0, false, false)

  /** A set of signed deltas; a field the caller leaves out is 0. */
  datatype Changes = Changes(
    budget: int,
    population: int,
    pollution: int,
    energy: int,
    income: int,
    happiness: int)

  const NoChanges := Changes(0, 0, 0, 0, 0, 0)

  /** An occupied cell: the kind placed there and a copy of its table row,
      taken at placement time. */
  datatype Placed = Placed(kind: BuildingKind, data: BuildingData)

  /** The grid as a value, indexed `[z][x]`; `None` is an empty cell. */
  type Board = seq<seq<Option<Placed>>>

  predicate IsBoard(b: Board)
  {
    |b| == GridSize && forall z :: 0 <= z < GridSize ==> |b[z]| == GridSize
  }

  const EmptyBoard: Board := seq(GridSize, _ => seq(GridSize, _ => None))

  /** The whole state of the city as a value: metrics and grid. */
  datatype CityState = CityState(metrics: Metrics, board: Board)

  function Max(a: int, b: int): int { if a < b then b else a }

  function Min(a: int, b: int): int { if a < b then a else b }

  /** The clamping invariant: happiness at most 100, and budget, pollution and
      population never negative. Energy and income are not clamped. */
  predicate Clamped(m: Metrics)
  {
    m.happiness <= 100 && m.budget >= 0 && m.pollution >= 0 && m.population >= 0
  }

  /** The six numeric metrics (all but the turn count and the flags) agree. */
  predicate SameFigures(a: Metrics, b: Metrics)
  {
    a.budget == b.budget && a.pollution == b.pollution && a.population == b.population &&
    a.happiness == b.happiness && a.energy == b.energy && a.income == b.income
  }

  /** The three win thresholds are met. */
  predicate Thriving(m: Metrics)
  {
    m.population >= MinPopulation && m.energy >= 0 && m.happiness >= MinHappiness
  }

  /** One of the two loss conditions holds. */
  predicate Losing(m: Metrics)
  {
    m.pollution >= PollutionMax || (m.budget <= 0 && m.income <= 0)
  }

  /** `if (changes.f) metric += changes.f`: a zero delta is skipped. */
  function AddIfSet(v: int, d: int): int
  {
    if d != 0 then v + d else v
  }

  /** The adding step of an update: each non-zero delta is added. */
  function Added(m: Metrics, ch: Changes): Metrics
  {
    m.(budget := AddIfSet(m.budget, ch.budget),
       population := AddIfSet(m.population, ch.population),
       pollution := AddIfSet(m.pollution, ch.pollution),
       energy := AddIfSet(m.energy, ch.energy),
       income := AddIfSet(m.income, ch.income),
       happiness := AddIfSet(m.happiness, ch.happiness))
  }

  /** The clamping step of an update: happiness capped at 100, budget,
      pollution and population floored at zero. */
  function Clamp(m: Metrics): Metrics
  {
    m.(happiness := Min(100, m.happiness), budget := Max(0, m.budget),
       pollution := Max(0, m.pollution), population := Max(0, m.population))
  }

  /** The end-condition check, in its fixed priority: pollution at or above
      the maximum loses; otherwise an empty budget with no income loses;
      otherwise meeting all three win thresholds wins. The metrics themselves
      are untouched and a game that is over stays over. */
  function CheckedEnd(m: Metrics): (r: Metrics)
    ensures SameFigures(r, m) && r.turnCount == m.turnCount
    ensures m.pollution >= PollutionMax ==> r.gameOver && !r.gameWon
    ensures m.pollution < PollutionMax && m.budget <= 0 && m.income <= 0 ==> r.gameOver && !r.gameWon
    ensures !Losing(m) && Thriving(m) ==> r.gameOver && r.gameWon
    ensures r.gameOver <==> m.gameOver || Losing(m) || Thriving(m)
    ensures r.gameWon <==> !Losing(m) && (Thriving(m) || m.gameWon)
  {
    if m.pollution >= PollutionMax then m.(gameOver := true, gameWon := false)
    else if m.budget <= 0 && m.income <= 0 then m.(gameOver := true, gameWon := false)
    else if m.population >= MinPopulation && m.energy >= 0 && m.happiness >= MinHappiness then
      m.(gameOver := true, gameWon := true)
    else m
  }

  /** `updateGameState(changes)`: afterwards the clamping invariant holds
      whatever the deltas; a metric moves by exactly its delta unless that
      takes it across its clamp, where it stops; energy and income are never
      clamped; the turn count is untouched; the end check then decides on
      the new figures, and a game that is over stays over. */
  function Updated(m: Metrics, ch: Changes): (r: Metrics)
    ensures Clamped(r)
    ensures r.budget == Max(0, m.budget + ch.budget)
    ensures r.pollution == Max(0, m.pollution + ch.pollution)
    ensures r.population == Max(0, m.population + ch.population)
    ensures r.happiness == Min(100, m.happiness + ch.happiness)
    ensures r.energy == m.energy + ch.energy && r.income == m.income + ch.income
    ensures m.budget + ch.budget >= 0 ==> r.budget == m.budget + ch.budget
    ensures m.pollution + ch.pollution >= 0 ==> r.pollution == m.pollution + ch.pollution
    ensures m.population + ch.population >= 0 ==> r.population == m.population + ch.population
    ensures m.happiness + ch.happiness <= 100 ==> r.happiness == m.happiness + ch.happiness
    ensures ch.budget == 0 ==> r.budget == Max(0, m.budget)
    ensures ch.pollution == 0 ==> r.pollution == Max(0, m.pollution)
    ensures ch.population == 0 ==> r.population == Max(0, m.population)
    ensures ch.happiness == 0 ==> r.happiness == Min(100, m.happiness)
    ensures r.turnCount == m.turnCount
    ensures m.gameOver ==> r.gameOver
    ensures r.gameOver <==> m.gameOver || Losing(r) || Thriving(r)
    ensures r.gameWon <==> !Losing(r) && (Thriving(r) || m.gameWon)
  {
    CheckedEnd(Clamp(Added(m, ch)))
  }

  /** `endTurn()`: the income is added to the budget (which cannot drop below
      zero), the turn count goes up by one, nothing else moves in a clamped
      state, and the end check decides on the new figures. */
  function NextTurn(m: Metrics): (r: Metrics)
    ensures r.budget == Max(0, m.budget + m.income)
    ensures r.turnCount == m.turnCount + 1
    ensures r.energy == m.energy && r.income == m.income
    ensures Clamped(m) ==> r.pollution == m.pollution && r.population == m.population && r.happiness == m.happiness
    ensures Clamped(r)
    ensures m.gameOver ==> r.gameOver
    ensures r.gameOver <==> m.gameOver || Losing(r) || Thriving(r)
    ensures r.gameWon <==> !Losing(r) && (Thriving(r) || m.gameWon)
  {
    var updated := Updated(m, NoChanges.(budget := m.income));
    CheckedEnd(updated.(turnCount := updated.turnCount + 1))
  }

  /** What can happen to the metrics between two looks at them. */
  datatype Event = Update(changes: Changes) | EndOfTurn

  function Run(m: Metrics, events: seq<Event>): Metrics
    decreases |events|
  {
    if events == [] then m
    else
      var next := match events[0]
        case Update(ch) => Updated(m, ch)
        case EndOfTurn => NextTurn(m);
      Run(next, events[1..])
  }

  function TurnsIn(events: seq<Event>): nat
  {
    if events == [] then 0 else (if events[0].EndOfTurn? then 1 else 0) + TurnsIn(events[1..])
  }

  /** Over any run of updates and turns the clamping invariant is kept, the
      turn count grows by the number of turns, and the end check never sets
      `gameOver` back to false: only a reset clears it. */
  lemma {:induction false} RunKeepsInvariants(m: Metrics, events: seq<Event>)
    requires Clamped(m)
    ensures Clamped(Run(m, events))
    ensures Run(m, events).turnCount == m.turnCount + TurnsIn(events)
    ensures m.gameOver ==> Run(m, events).gameOver
    decreases |events|
  {
    if events != [] {
      var next := match events[0]
        case Update(ch) => Updated(m, ch)
        case EndOfTurn => NextTurn(m);
      RunKeepsInvariants(next, events[1..]);
    }
  }

  /** Running the end check again changes nothing: it reads only the
      figures, which it leaves alone, so the second check `endTurn` makes
      after counting the turn decides as the first one did. */
  lemma {:induction false} EndCheckIsIdempotent(m: Metrics)
    ensures CheckedEnd(CheckedEnd(m)) == CheckedEnd(m)
  {
    assert SameFigures(CheckedEnd(m), m);
  }

  /** A new game starts inside the clamping invariant and is not over. */
  lemma InitialIsClamped()
    ensures Clamped(Initial) && !Losing(Initial) && !Thriving(Initial)
  {
  }

  /** The win thresholds are inclusive: population 500, energy 0 and
      happiness 70 with no pollution and a positive budget win the game. */
  lemma WinAtThresholds(m: Metrics)
    requires m.population == 500 && m.energy == 0 && m.happiness == 70
    requires m.pollution == 0 && m.budget > 0
    ensures CheckedEnd(m).gameOver && CheckedEnd(m).gameWon
  {
  }

  /** The game is decided before the win thresholds when pollution reaches 100,
      whatever the other metrics are. */
  lemma PollutionAtMaxLoses(m: Metrics)
    requires m.pollution == 100
    ensures CheckedEnd(m).gameOver && !CheckedEnd(m).gameWon
  {
  }

  /** The city as the game holds it: metric fields that the operations update
      in place and the grid array, whose cells they overwrite. */
  class City {
    var budget: int
    var pollution: int
    var population: int
    var happiness: int
    var energy: int
    var income: int
    var turnCount: int
    var gameOver: bool
    var gameWon: bool
    const grid: array2<Option<Placed>>

    predicate Valid()
    {
      grid.Length0 == GridSize && grid.Length1 == GridSize
    }

    function Stats(): Metrics
      reads this
    {
      Metrics(budget, pollution, population, happiness, energy, income, turnCount, gameOver, gameWon)
    }

    /** The grid array as a value, cell `[z][x]` being `grid[z, x]`. */
    function Cells(): (b: Board)
      reads grid
      requires Valid()
      ensures IsBoard(b)
      ensures forall z, x :: 0 <= z < GridSize && 0 <= x < GridSize ==> b[z][x] == grid[z, x]
    {
      seq(GridSize, z requires 0 <= z < GridSize reads grid =>
        seq(GridSize, x requires 0 <= x < GridSize reads grid => grid[z, x]))
    }

    function State(): CityState
      reads this, grid
      requires Valid()
    {
      CityState(Stats(), Cells())
    }

    /** A new game: initial metrics and an empty grid. */
    constructor ()
      ensures Valid() && fresh(grid)
      ensures State() == CityState(Initial, EmptyBoard)
    {
      budget, pollution, population, happiness := 100000, 0, 0, 100;
      energy, income, turnCount := 0, 0, 0;
      gameOver, gameWon := false, false;
      grid := new Option<Placed>[GridSize, GridSize]((_, _) => None);
      new;
      SameCellsSameBoard(Cells(), EmptyBoard);
    }

    /** `resetGameState()`: the initial metrics, both flags down and every
        cell emptied. */
    method ResetGameState()
      requires Valid()
      modifies this, grid
      ensures State() == CityState(Initial, EmptyBoard)
    {
      budget := 100000;
      pollution := 0;
      population := 0;
      happiness := 100;
      energy := 0;
      income := 0;
      turnCount := 0;
      gameOver := false;
      gameWon := false;

      var z := 0;
      while z < GridSize
        modifies grid
        invariant 0 <= z <= GridSize
        invariant forall i, j :: 0 <= i < z && 0 <= j < GridSize ==> grid[i, j].None?
      {
        var x := 0;
        while x < GridSize
          modifies grid
          invariant 0 <= x <= GridSize
          invariant forall i, j :: 0 <= i < z && 0 <= j < GridSize ==> grid[i, j].None?
          invariant forall j :: 0 <= j < x ==> grid[z, j].None?
        {
          if grid[z, x].Some? {
            grid[z, x] := None;
          }
          x := x + 1;
        }
        z := z + 1;
      }
      SameCellsSameBoard(Cells(), EmptyBoard);
    }

    /** `updateGameState(changes)`, in place; the grid is not touched. */
    method UpdateGameState(changes: Changes)
      modifies this
      ensures Stats() == Updated(old(Stats()), changes)
    {
      AddChanges(changes);
      ClampMetrics();
      CheckGameEndConditions();
    }

    /** The adding part of `updateGameState`: a metric whose delta is zero is
        not touched. */
    method AddChanges(changes: Changes)
      modifies this
      ensures Stats() == Added(old(Stats()), changes)
    {
      if changes.budget != 0 { budget := budget + changes.budget; }
      if changes.population != 0 { population := population + changes.population; }
      if changes.pollution != 0 { pollution := pollution + changes.pollution; }
      if changes.energy != 0 { energy := energy + changes.energy; }
      if changes.income != 0 { income := income + changes.income; }
      if changes.happiness != 0 { happiness := happiness + changes.happiness; }
    }

    /** The clamping part of `updateGameState`. */
    method ClampMetrics()
      modifies this
      ensures Stats() == Clamp(old(Stats()))
    {
      happiness := Min(100, happiness);

      budget := Max(0, budget);
      pollution := Max(0, pollution);
      population := Max(0, population);
    }

    /** `endTurn()`, in place. */
    method EndTurn()
      modifies this
      ensures Stats() == NextTurn(old(Stats()))
    {
      UpdateGameState(NoChanges.(budget := income));
      turnCount := turnCount + 1;
      CheckGameEndConditions();
    }

    /** `checkGameEndConditions()`: sets only the two flags. */
    method CheckGameEndConditions()
      modifies this`gameOver, this`gameWon
      ensures Stats() == CheckedEnd(old(Stats()))
    {
      if pollution >= PollutionMax {
        gameOver := true;
        gameWon := false;
        return;
      }
      if budget <= 0 && income <= 0 {
        gameOver := true;
        gameWon := false;
        return;
      }
      if population >= MinPopulation && energy >= 0 && happiness >= MinHappiness {
        gameOver := true;
        gameWon := true;
      }
    }
  }

  /** Two boards with the same cells are the same board. */
  lemma SameCellsSameBoard(a: Board, b: Board)
    requires IsBoard(a) && IsBoard(b)
    requires forall z, x :: 0 <= z < GridSize && 0 <= x < GridSize ==> a[z][x] == b[z][x]
    ensures a == b
  {
    forall z | 0 <= z < GridSize
      ensures a[z] == b[z]
    {
    }
  }

}
