/** The constant table of building types of the city-building game: for each
    kind its display name, its placement cost and the five effects a building
    of that kind has on the city's metrics when it is placed. */
module BuildingTypes {

  import opened Wrappers

  /** The six entries of the table, in declared order. */
  datatype BuildingKind = Residential | House | WindTurbine | Tree | GasPlant | Factory

  /** One row of the table; a placed building keeps its own copy of it. */
  datatype BuildingData = BuildingData(
    name: string,
    cost: int,
    populationEffect: int,
    pollutionEffect: int,
    energyEffect: int,
    incomeEffect: int,
    happinessEffect: int)

  /** The key under which the kind is stored in the table. */
  function Key(k: BuildingKind): string
  {
    match k
    case Residential => "residentiel"
    case House => "maison"
    case WindTurbine => "eolienne"
    case Tree => "arbre"
    case GasPlant => "gaz"
    case Factory => "usine"
  }

  /** The table lookup `buildingTypes[key]`: a kind exactly for the six keys,
      and the kind found is the one stored under that key. */
  function Lookup(key: string): (r: Option<BuildingKind>)
    ensures r.Some? ==> Key(r.value) == key
    ensures forall k :: Key(k) == key ==> r == Some(k)
  {
    if key == "residentiel" then Some(Residential)
    else if key == "maison" then Some(House)
    else if key == "eolienne" then Some(WindTurbine)
    else if key == "arbre" then Some(Tree)
    else if key == "gaz" then Some(GasPlant)
    else if key == "usine" then Some(Factory)
    else None
  }

  /** The row of the table for a kind. Every cost in the table is positive
      and even, so the 50% refund on removal is exact. */
  function DataOf(k: BuildingKind): (d: BuildingData)
    ensures d.cost > 0
    ensures 2 * Refund(d) == d.cost
  {
    match k
    case Residential => BuildingData("Complexe Résidentiel", 10000, 100, 10, -10, 0, 0)
    case House => BuildingData("Maison", 1000, 5, 2, -2, 100, 10)
    case WindTurbine => BuildingData("Éolienne", 20000, 0, 0, 5, 5000, -5)
    case Tree => BuildingData("Arbre", 5000, 0, -10, 0, 500, 15)
    case GasPlant => BuildingData("Usine à Gaz naturel", 15000, 0, 20, 5, 1000, 5)
    case Factory => BuildingData("Usine", 10000, 0, 30, 0, 2000, -10)
  }

  /** The refund credited when a building is removed, `Math.floor(cost * 0.5)`:
      the largest whole number whose double does not exceed the cost. */
  function Refund(d: BuildingData): (r: int)
    ensures 2 * r <= d.cost < 2 * r + 2
    ensures d.cost >= 0 ==> 0 <= r <= d.cost
  {
    (d.cost as real * 0.5).Floor
  }

}
