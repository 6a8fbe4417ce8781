/**
 * Vocabulary shared by the computer player's components: difficulty
 * levels, node directions, and the commands the player sends to the game.
 */
module AITypes {
  import opened Wrappers

  /** The difficulty level; OutOfRange stands for any other value the level
      enumeration can be given. */
  datatype Level = Easy | Medium | Hard | OutOfRange(raw: int)

  /** The two tick intervals a level fixes: how often attacks are tried and
      how often new buildings are planned. */
  datatype Cadence = Cadence(attackInterval: nat, buildInterval: nat)

  /** The level switch of the player's constructor. */
  function LevelCadence(level: Level): (r: Result<Cadence, string>)
    ensures r.Failure? <==> level.OutOfRange?
    ensures level == Easy ==> r == Success(Cadence(2500, 1000))
    ensures level == Medium ==> r == Success(Cadence(750, 400))
    ensures level == Hard ==> r == Success(Cadence(100, 200))
    ensures r.Failure? ==> r.error == "Invalid AI level!"
  {
    match level
    case Easy => Success(Cadence(2500, 1000))
    case Medium => Success(Cadence(750, 400))
    case Hard => Success(Cadence(100, 200))
    case OutOfRange(_) => Failure("Invalid AI level!")
  }

  /** Every valid level has positive intervals (so the tick modulo tests are
      defined), and a harder level attacks and builds more often. */
  lemma HarderLevelsActMoreOften()
    ensures forall l: Level :: LevelCadence(l).Success? ==>
              LevelCadence(l).value.attackInterval > 0 && LevelCadence(l).value.buildInterval > 0
    ensures LevelCadence(Easy).value.attackInterval > LevelCadence(Medium).value.attackInterval
              > LevelCadence(Hard).value.attackInterval
    ensures LevelCadence(Easy).value.buildInterval > LevelCadence(Medium).value.buildInterval
              > LevelCadence(Hard).value.buildInterval
  {
  }

  /** Map points are identified by their index in the map. */
  type Pos = nat

  /** The six directions around a node: West, NorthWest, NorthEast, East,
      SouthEast, SouthWest. */
  type Direction = d: nat | d < 6

  const WEST: Direction := 0
  const NORTH_WEST: Direction := 1
  const NORTH_EAST: Direction := 2
  const EAST: Direction := 3
  const SOUTH_EAST: Direction := 4
  const SOUTH_WEST: Direction := 5

  /** `dir + 3`: the direction pointing back. */
  function Reverse(d: Direction): (r: Direction)
    ensures r != d && (r + 3) % 6 == d
  {
    (d + 3) % 6
  }

  /** The commands the player issues; the game executes them later, so they
      change nothing the player reads within the same tick. */
  datatype Command =
    | Attack(dest: Pos, soldiers: nat, strongSoldiers: bool)
    | SetGoodStop(warehouse: Pos, stop: bool)
    | SetProductionEnabled(building: Pos, enabled: bool)
    | DestroyFlag(flag: nat)
    | DestroyRoad(flag: nat, dir: Direction)
    | DestroyBuilding(building: Pos)
}
