/**
 * Retry-based placement: barrier patterns and bonuses try up to 50 random
 * anchors, food up to 100 random tiles, each accepted only where the board
 * is free.
 */
module Placement {
  import opened Grid
  import opened Entities

  /**
   * The Math.random() values one attempt may consume: two for the anchor
   * and, for a line, a coin for its orientation. `Math.floor(Math.random()
   * * m)` is modelled as `r % m`; every value in [0, m) arises this way.
   */
  datatype Draw = Draw(rx: nat, ry: nat, coin: bool)

  /** The random stream: the draw of every attempt, by attempt number. */
  type Draws = nat -> Draw

  const MaxPatternAttempts := 50
  const MaxFoodAttempts := 100

  /** What is being placed. */
  datatype Shape = BarrierShape(pattern: Pattern) | BonusShape(kind: BonusKind)

  /** The tiles of a barrier pattern anchored at `base`. */
  function PatternCells(p: Pattern, base: Cell, horizontal: bool): seq<Cell>
  {
    var x, y := base.x, base.y;
    match p
    case Single => [Cell(x, y)]
    case Line =>
      if horizontal then [Cell(x, y), Cell(x + 1, y), Cell(x + 2, y)]
      else [Cell(x, y), Cell(x, y + 1), Cell(x, y + 2)]
    case LShape => [Cell(x, y), Cell(x + 1, y), Cell(x, y + 1)]
    case Square => [Cell(x, y), Cell(x + 1, y), Cell(x, y + 1), Cell(x + 1, y + 1)]
    case Cross => [Cell(x, y), Cell(x - 1, y), Cell(x + 1, y), Cell(x, y - 1), Cell(x, y + 1)]
  }

  /** The tiles of a bonus anchored at `base`: one tile, or a 2x2 square. */
  function BonusCells(kind: BonusKind, base: Cell): seq<Cell>
  {
    var x, y := base.x, base.y;
    match kind
    case Bonus3 => [Cell(x, y)]
    case Bonus5 => [Cell(x, y), Cell(x + 1, y), Cell(x, y + 1), Cell(x + 1, y + 1)]
  }

  /** `Math.floor(Math.random() * (n - m)) + 1` for both coordinates. */
  function Anchor(n: int, m: int, d: Draw): (base: Cell)
    requires m < n
    ensures 1 <= base.x <= n - m && 1 <= base.y <= n - m
  {
    Cell(d.rx % (n - m) + 1, d.ry % (n - m) + 1)
  }

  /** The anchor range is 1 + [0, n - Margin): 3 for barriers, the side for bonuses. */
  function Margin(shape: Shape): int
  {
    match shape
    case BarrierShape(_) => 3
    case BonusShape(kind) => Side(kind)
  }

  function CellCount(shape: Shape): int
  {
    match shape
    case BarrierShape(p) =>
      (match p case Single => 1 case Line => 3 case LShape => 3 case Square => 4 case Cross => 5)
    case BonusShape(kind) => Side(kind) * Side(kind)
  }

  /**
   * The tiles one attempt proposes. Every anchor keeps the whole shape on
   * the board, so the bounds test of the generators never rejects.
   */
  function AttemptCells(n: int, shape: Shape, d: Draw): (cells: seq<Cell>)
    requires n >= 4
    ensures |cells| == CellCount(shape)
    ensures forall i :: 0 <= i < |cells| ==> InBounds(n, cells[i])
  {
    var base := Anchor(n, Margin(shape), d);
    match shape
    case BarrierShape(p) => PatternCells(p, base, d.coin)
    case BonusShape(kind) => BonusCells(kind, base)
  }

  /** The test both generators apply with `every`: on the board and free. */
  predicate Fits(n: int, board: Board, cells: seq<Cell>)
  {
    forall i :: 0 <= i < |cells| ==> InBounds(n, cells[i]) && IsPositionFree(board, cells[i])
  }

  /** Attempts `k`, `k + 1`, ... of a generator: the first that fits, or [] after the last. */
  function PlacementFrom(n: int, board: Board, shape: Shape, draws: Draws, k: nat): seq<Cell>
    requires n >= 4
    decreases MaxPatternAttempts - k, 1
  {
    if k >= MaxPatternAttempts then [] else Attempt(n, board, shape, draws, k)
  }

  /** Attempt `k` of a generator: its tiles if they fit, else the attempts after it. */
  function Attempt(n: int, board: Board, shape: Shape, draws: Draws, k: nat): seq<Cell>
    requires n >= 4 && k < MaxPatternAttempts
    decreases MaxPatternAttempts - k, 0
  {
    var cells := AttemptCells(n, shape, draws(k));
    if Fits(n, board, cells) then cells else PlacementFrom(n, board, shape, draws, k + 1)
  }

  function Placement(n: int, board: Board, shape: Shape, draws: Draws): seq<Cell>
    requires n >= 4
  {
    PlacementFrom(n, board, shape, draws, 0)
  }

  /** Attempt `k` is the first of the 50 that fits. */
  ghost predicate FirstFit(n: int, board: Board, shape: Shape, draws: Draws, k: int)
    requires n >= 4
  {
    && 0 <= k < MaxPatternAttempts
    && Fits(n, board, AttemptCells(n, shape, draws(k)))
    && forall j :: 0 <= j < k ==> !Fits(n, board, AttemptCells(n, shape, draws(j)))
  }

  lemma {:induction false} PlacementFromIsFirstFit(n: int, board: Board, shape: Shape, draws: Draws, k: nat)
    requires n >= 4 && k <= MaxPatternAttempts
    requires forall j :: 0 <= j < k ==> !Fits(n, board, AttemptCells(n, shape, draws(j)))
    ensures forall j :: FirstFit(n, board, shape, draws, j) ==>
      PlacementFrom(n, board, shape, draws, k) == AttemptCells(n, shape, draws(j))
    ensures (forall j :: 0 <= j < MaxPatternAttempts ==> !Fits(n, board, AttemptCells(n, shape, draws(j)))) ==>
      PlacementFrom(n, board, shape, draws, k) == []
    decreases MaxPatternAttempts - k
  {
    if k < MaxPatternAttempts {
      assert PlacementFrom(n, board, shape, draws, k) == Attempt(n, board, shape, draws, k);
      if !Fits(n, board, AttemptCells(n, shape, draws(k))) {
        PlacementFromIsFirstFit(n, board, shape, draws, k + 1);
      }
    }
  }

  /**
   * The result of a generator is the shape at the first of the 50 anchors
   * where it fits, and [] when none fits.
   */
  lemma PlacementIsFirstFit(n: int, board: Board, shape: Shape, draws: Draws)
    requires n >= 4
    ensures forall k :: FirstFit(n, board, shape, draws, k) ==>
      Placement(n, board, shape, draws) == AttemptCells(n, shape, draws(k))
    ensures Placement(n, board, shape, draws) == [] <==>
      forall k :: 0 <= k < MaxPatternAttempts ==> !Fits(n, board, AttemptCells(n, shape, draws(k)))
  {
    PlacementFromIsFirstFit(n, board, shape, draws, 0);
    if exists k :: 0 <= k < MaxPatternAttempts && Fits(n, board, AttemptCells(n, shape, draws(k))) {
      var k :| 0 <= k < MaxPatternAttempts && Fits(n, board, AttemptCells(n, shape, draws(k)));
      FirstFitExists(n, board, shape, draws, k);
    }
  }

  /** Attempts from `k` on yield nothing or tiles that fit. */
  lemma {:induction false} PlacementFromFits(n: int, board: Board, shape: Shape, draws: Draws, k: nat)
    requires n >= 4
    ensures PlacementFrom(n, board, shape, draws, k) == [] || Fits(n, board, PlacementFrom(n, board, shape, draws, k))
    decreases MaxPatternAttempts - k
  {
    if k < MaxPatternAttempts {
      assert PlacementFrom(n, board, shape, draws, k) == Attempt(n, board, shape, draws, k);
      if !Fits(n, board, AttemptCells(n, shape, draws(k))) {
        PlacementFromFits(n, board, shape, draws, k + 1);
      }
    }
  }

  /** A placed shape lies on the board and covers no occupied tile. */
  lemma PlacementFits(n: int, board: Board, shape: Shape, draws: Draws)
    requires n >= 4
    ensures forall i :: 0 <= i < |Placement(n, board, shape, draws)| ==>
      var c := Placement(n, board, shape, draws)[i];
      InBounds(n, c) && c !in Occupied(board)
  {
    PlacementFromFits(n, board, shape, draws, 0);
  }

  /** If some attempt up to `k` fits, one of them is the first. */
  lemma {:induction false} FirstFitExists(n: int, board: Board, shape: Shape, draws: Draws, k: int)
    requires n >= 4 && 0 <= k < MaxPatternAttempts
    requires Fits(n, board, AttemptCells(n, shape, draws(k)))
    ensures exists j :: 0 <= j <= k && FirstFit(n, board, shape, draws, j)
    decreases k
  {
    if exists j :: 0 <= j < k && Fits(n, board, AttemptCells(n, shape, draws(j))) {
      var j :| 0 <= j < k && Fits(n, board, AttemptCells(n, shape, draws(j)));
      FirstFitExists(n, board, shape, draws, j);
    } else {
      assert FirstFit(n, board, shape, draws, k);
    }
  }

  /** `generateBarrierPattern`. */
  method GenerateBarrierPattern(n: int, board: Board, p: Pattern, draws: Draws) returns (cells: seq<Cell>)
    requires n >= 4
    ensures cells == Placement(n, board, BarrierShape(p), draws)
  {
    var attempts := 0;
    while attempts < MaxPatternAttempts
      invariant 0 <= attempts <= MaxPatternAttempts
      invariant PlacementFrom(n, board, BarrierShape(p), draws, attempts) == Placement(n, board, BarrierShape(p), draws)
    {
      var d := draws(attempts);
      var base := Anchor(n, 3, d);
      var patternCells := PatternCells(p, base, d.coin);
      assert patternCells == AttemptCells(n, BarrierShape(p), d);
      assert PlacementFrom(n, board, BarrierShape(p), draws, attempts) == Attempt(n, board, BarrierShape(p), draws, attempts);
      if Fits(n, board, patternCells) {
        return patternCells;
      }
      attempts := attempts + 1;
    }
    return [];
  }

  /** `generateBonusPattern`, for the side of the chosen bonus type. */
  method GenerateBonusPattern(n: int, board: Board, kind: BonusKind, draws: Draws) returns (cells: seq<Cell>)
    requires n >= 4
    ensures cells == Placement(n, board, BonusShape(kind), draws)
  {
    var size := Side(kind);
    var attempts := 0;
    while attempts < MaxPatternAttempts
      invariant 0 <= attempts <= MaxPatternAttempts
      invariant PlacementFrom(n, board, BonusShape(kind), draws, attempts) == Placement(n, board, BonusShape(kind), draws)
    {
      var d := draws(attempts);
      var base := Anchor(n, size, d);
      var patternCells := BonusCells(kind, base);
      assert patternCells == AttemptCells(n, BonusShape(kind), d);
      assert PlacementFrom(n, board, BonusShape(kind), draws, attempts) == Attempt(n, board, BonusShape(kind), draws, attempts);
      if Fits(n, board, patternCells) {
        return patternCells;
      }
      attempts := attempts + 1;
    }
    return [];
  }

  /** The tile one food attempt proposes: anywhere on the board. */
  function FoodSample(n: int, d: Draw): (c: Cell)
    requires n > 0
    ensures InBounds(n, c)
  {
    Cell(d.rx % n, d.ry % n)
  }

  /**
   * The do-while of `generateFood` from attempt `k`: stop at a free tile or
   * after the hundredth sample, returning the tile last sampled.
   */
  function FoodFrom(n: int, board: Board, draws: Draws, k: nat): (food: Cell)
    requires n > 0 && k < MaxFoodAttempts
    ensures InBounds(n, food)
    decreases MaxFoodAttempts - k, 1
  {
    if k + 1 < MaxFoodAttempts then FoodRetry(n, board, draws, k) else FoodSample(n, draws(k))
  }

  /** Sample `k`, which is not the last: kept if free, else the samples after it. */
  function FoodRetry(n: int, board: Board, draws: Draws, k: nat): (food: Cell)
    requires n > 0 && k + 1 < MaxFoodAttempts
    ensures InBounds(n, food)
    decreases MaxFoodAttempts - k, 0
  {
    var food := FoodSample(n, draws(k));
    if IsPositionFree(board, food) then food else FoodFrom(n, board, draws, k + 1)
  }

  /** Sample `k` is the first free one of the hundred. */
  ghost predicate FirstFree(n: int, board: Board, draws: Draws, k: int)
    requires n > 0
  {
    && 0 <= k < MaxFoodAttempts
    && IsPositionFree(board, FoodSample(n, draws(k)))
    && forall j :: 0 <= j < k ==> !IsPositionFree(board, FoodSample(n, draws(j)))
  }

  lemma {:induction false} FoodFromIsFirstFree(n: int, board: Board, draws: Draws, k: nat)
    requires n > 0 && k < MaxFoodAttempts
    requires forall j :: 0 <= j < k ==> !IsPositionFree(board, FoodSample(n, draws(j)))
    ensures forall j :: FirstFree(n, board, draws, j) ==> FoodFrom(n, board, draws, k) == FoodSample(n, draws(j))
    ensures (forall j :: k <= j < MaxFoodAttempts ==> !IsPositionFree(board, FoodSample(n, draws(j)))) ==>
      FoodFrom(n, board, draws, k) == FoodSample(n, draws(MaxFoodAttempts - 1))
    decreases MaxFoodAttempts - k
  {
    if k + 1 < MaxFoodAttempts {
      assert FoodFrom(n, board, draws, k) == FoodRetry(n, board, draws, k);
      if !IsPositionFree(board, FoodSample(n, draws(k))) {
        FoodFromIsFirstFree(n, board, draws, k + 1);
      }
    }
  }

  /**
   * The food is the first free tile among the hundred samples; only when
   * all hundred are occupied is it the last sample, which may then lie on
   * the snake or on another entity.
   */
  lemma FoodIsFirstFree(n: int, board: Board, draws: Draws)
    requires n > 0
    ensures InBounds(n, FoodFrom(n, board, draws, 0))
    ensures forall k :: FirstFree(n, board, draws, k) ==> FoodFrom(n, board, draws, 0) == FoodSample(n, draws(k))
    ensures (forall k :: 0 <= k < MaxFoodAttempts ==> !IsPositionFree(board, FoodSample(n, draws(k)))) ==>
      FoodFrom(n, board, draws, 0) == FoodSample(n, draws(MaxFoodAttempts - 1))
  {
    FoodFromIsFirstFree(n, board, draws, 0);
  }

  /** `generateFood`. */
  method GenerateFood(n: int, board: Board, draws: Draws) returns (food: Cell)
    requires n > 0
    ensures food == FoodFrom(n, board, draws, 0)
  {
    var attempts := 0;
    food := FoodSample(n, draws(attempts));
    attempts := attempts + 1;
    while attempts < MaxFoodAttempts && !IsPositionFree(board, food)
      invariant 1 <= attempts <= MaxFoodAttempts
      invariant food == FoodSample(n, draws(attempts - 1))
      invariant FoodFrom(n, board, draws, attempts - 1) == FoodFrom(n, board, draws, 0)
    {
      assert FoodFrom(n, board, draws, attempts - 1) == FoodRetry(n, board, draws, attempts - 1);
      food := FoodSample(n, draws(attempts));
      attempts := attempts + 1;
    }
    if attempts < MaxFoodAttempts {
      assert FoodFrom(n, board, draws, attempts - 1) == FoodRetry(n, board, draws, attempts - 1);
    }
  }
}
