/**
 * The timed entities on the board and the occupancy test every placement
 * goes through.
 */
module Entities {
  import opened Wrappers
  import opened Grid

  /** The five barrier shapes a spawn picks from. */
  datatype Pattern = Single | Line | LShape | Square | Cross

  /** A barrier's shape and the tiles it covers; the same record serves while warning and while active. */
  datatype Barrier = Barrier(pattern: Pattern, cells: seq<Cell>)

  /** The two bonus types: a one-tile bonus worth 3 and a 2x2 bonus worth 5. */
  datatype BonusKind = Bonus3 | Bonus5

  datatype Bonus = Bonus(kind: BonusKind, cells: seq<Cell>)

  /** An entity with its countdown in milliseconds. */
  datatype Timed<E> = Timed(item: E, timeLeft: int)

  /** How long a barrier warns before it becomes collidable. */
  const WarningTime := 2500

  /** How long an active barrier stays. */
  const ActiveTime := 5000

  /** The bonus types table: points, lifetime and side of the square. */
  function Value(kind: BonusKind): int
  {
    match kind
    case Bonus3 => 3
    case Bonus5 => 5
  }

  function Lifetime(kind: BonusKind): int
  {
    match kind
    case Bonus3 => 8000
    case Bonus5 => 6000
  }

  function Side(kind: BonusKind): int
  {
    match kind
    case Bonus3 => 1
    case Bonus5 => 2
  }

  predicate InBarriers(bs: seq<Timed<Barrier>>, c: Cell)
  {
    exists i :: 0 <= i < |bs| && c in bs[i].item.cells
  }

  predicate InBonuses(bs: seq<Timed<Bonus>>, c: Cell)
  {
    exists i :: 0 <= i < |bs| && c in bs[i].item.cells
  }

  /**
   * Everything `isPositionFree` looks at: the snake, the food (absent only
   * while the game object is being built), the active and the warning
   * barriers, and the bonuses.
   */
  datatype Board = Board(
    snake: seq<Cell>,
    food: Option<Cell>,
    barriers: seq<Timed<Barrier>>,
    warnings: seq<Timed<Barrier>>,
    bonuses: seq<Timed<Bonus>>)

  /** The set of tiles some entity of the board covers. */
  ghost function Occupied(b: Board): set<Cell>
  {
    (set c | c in b.snake)
    + (if b.food.Some? then {b.food.value} else {})
    + (set i, c | 0 <= i < |b.barriers| && c in b.barriers[i].item.cells :: c)
    + (set i, c | 0 <= i < |b.warnings| && c in b.warnings[i].item.cells :: c)
    + (set i, c | 0 <= i < |b.bonuses| && c in b.bonuses[i].item.cells :: c)
  }

  /** `isPositionFree`: no entity of the board covers `c`. */
  function IsPositionFree(b: Board, c: Cell): (free: bool)
    ensures free <==> c !in Occupied(b)
  {
    && c !in b.snake
    && b.food != Some(c)
    && !InBarriers(b.barriers, c)
    && !InBarriers(b.warnings, c)
    && !InBonuses(b.bonuses, c)
  }
}
