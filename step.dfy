/**
 * The pieces of the simulation step `update`: the collision checks in
 * their priority order, and the consumption of bonuses under the new head.
 */
module Step {
  import opened Wrappers
  import opened Grid
  import opened Difficulty
  import opened Entities
  import opened Placement

  /** What ended the game: the wall, the snake's own body, or an active barrier. */
  datatype Hazard = Wall | OwnBody | ActiveBarrier

  /** What one step did; particle effects and explosions hang on these. */
  datatype Outcome = Moved | AteFood(leveledUp: bool) | AteBonus(value: int) | Crashed(hazard: Hazard)

  /**
   * The collision checks of `update`, in their order: the wall, then every
   * current segment (the tail included, although it is about to move),
   * then every cell of every active barrier. Warning barriers are not
   * looked at.
   */
  method DetectCollision(n: int, snake: seq<Cell>, barriers: seq<Timed<Barrier>>, head: Cell)
    returns (hit: Option<Hazard>)
    ensures hit == Some(Wall) <==> !InBounds(n, head)
    ensures hit == Some(OwnBody) <==> InBounds(n, head) && head in snake
    ensures hit == Some(ActiveBarrier) <==> InBounds(n, head) && head !in snake && InBarriers(barriers, head)
    ensures hit == None <==> InBounds(n, head) && head !in snake && !InBarriers(barriers, head)
    ensures hit == CollisionAt(n, snake, barriers, head)
  {
    if head.x < 0 || head.x >= n || head.y < 0 || head.y >= n {
      return Some(Wall);
    }
    for i := 0 to |snake|
      invariant forall j :: 0 <= j < i ==> snake[j] != head
    {
      if head == snake[i] {
        return Some(OwnBody);
      }
    }
    for b := 0 to |barriers|
      invariant forall j :: 0 <= j < b ==> head !in barriers[j].item.cells
    {
      var cells := barriers[b].item.cells;
      for c := 0 to |cells|
        invariant forall j :: 0 <= j < c ==> cells[j] != head
      {
        if head == cells[c] {
          return Some(ActiveBarrier);
        }
      }
    }
    return None;
  }

  /** The bonuses the head does not touch, in order: what the `filter` keeps. */
  function Uneaten(bs: seq<Timed<Bonus>>, head: Cell): (r: seq<Timed<Bonus>>)
    ensures |r| <= |bs|
    ensures forall i :: 0 <= i < |r| ==> head !in r[i].item.cells
    decreases |bs|
  {
    if bs == [] then []
    else
      var b := bs[|bs| - 1];
      Uneaten(bs[..|bs| - 1], head) + (if head in b.item.cells then [] else [b])
  }

  /** The points of all bonuses the head touches. */
  function EatenValue(bs: seq<Timed<Bonus>>, head: Cell): (v: int)
    ensures v >= 0
    ensures v > 0 <==> InBonuses(bs, head)
    decreases |bs|
  {
    if bs == [] then 0
    else
      var b := bs[|bs| - 1];
      var rest := EatenValue(bs[..|bs| - 1], head);
      assert InBonuses(bs, head) <==> InBonuses(bs[..|bs| - 1], head) || head in b.item.cells;
      rest + (if head in b.item.cells then Value(b.item.kind) else 0)
  }

  /**
   * A bonus survives the filter exactly when the head does not touch it;
   * so the bonuses are left as they were exactly when none is touched.
   */
  lemma {:induction false} UneatenMembers(bs: seq<Timed<Bonus>>, head: Cell)
    ensures forall x :: x in Uneaten(bs, head) <==> x in bs && head !in x.item.cells
    ensures Uneaten(bs, head) == bs <==> !InBonuses(bs, head)
    decreases |bs|
  {
    if bs != [] {
      var init := bs[..|bs| - 1];
      UneatenMembers(init, head);
      assert bs == init + [bs[|bs| - 1]];
      if !InBonuses(bs, head) {
        assert !InBonuses(init, head);
      }
      if Uneaten(bs, head) == bs {
        forall i | 0 <= i < |bs|
          ensures head !in bs[i].item.cells
        {
          assert bs[i] in Uneaten(bs, head);
        }
      }
    }
  }

  /** The bonus check of `update`: the bonuses left, the points gained, and whether any was eaten. */
  method EatBonuses(bs: seq<Timed<Bonus>>, head: Cell) returns (kept: seq<Timed<Bonus>>, gained: int, eaten: bool)
    ensures kept == Uneaten(bs, head)
    ensures gained == EatenValue(bs, head)
    ensures eaten <==> InBonuses(bs, head)
  {
    kept, gained, eaten := [], 0, false;
    var i := 0;
    while i < |bs|
      invariant 0 <= i <= |bs|
      invariant kept == Uneaten(bs[..i], head)
      invariant gained == EatenValue(bs[..i], head)
      invariant eaten <==> InBonuses(bs[..i], head)
    {
      var bonus := bs[i];
      var touched := false;
      for c := 0 to |bonus.item.cells|
        invariant touched <==> head in bonus.item.cells[..c]
      {
        if head == bonus.item.cells[c] {
          touched := true;
        }
      }
      assert bonus.item.cells[..|bonus.item.cells|] == bonus.item.cells;
      if touched {
        gained := gained + Value(bonus.item.kind);
        eaten := true;
      } else {
        kept := kept + [bonus];
      }
      assert bs[..i + 1][..i] == bs[..i];
      i := i + 1;
    }
    assert bs[..i] == bs;
  }

  /**
   * The outcome `update` reaches when the head moves onto `head` of board
   * `b`: the wall, then the snake's own tiles, then active barriers end the
   * game; otherwise food, else a bonus, is eaten; else it is a plain move.
   */
  ghost predicate OutcomeMatches(n: int, b: Board, head: Cell, outcome: Outcome)
  {
    && (outcome == Crashed(Wall) <==> !InBounds(n, head))
    && (outcome == Crashed(OwnBody) <==> InBounds(n, head) && head in b.snake)
    && (outcome == Crashed(ActiveBarrier) <==> InBounds(n, head) && head !in b.snake && InBarriers(b.barriers, head))
    && (outcome.AteFood? <==> !outcome.Crashed? && b.food == Some(head))
    && (outcome.AteBonus? <==> !outcome.Crashed? && b.food != Some(head) && InBonuses(b.bonuses, head))
  }

  /** The bonuses `update` leaves: the filter runs only when no food is eaten, and removes what the head touches. */
  function BonusesAfterStep(bonuses: seq<Timed<Bonus>>, head: Cell, outcome: Outcome): seq<Timed<Bonus>>
  {
    if outcome.AteBonus? then Uneaten(bonuses, head) else bonuses
  }

  /** The counters and flags of the game object apart from the board, the velocity and the queue. */
  datatype Progress = Progress(
    score: int, foodEaten: int, level: int, gameSpeed: int, speedIncrease: int,
    running: bool, started: bool, highScore: int)

  /**
   * What `update` does when the head moves onto `head`, from board `b` and
   * progress `p` to board `b'` and progress `p'`: the outcome is the one
   * the collision order picks; a crash stops the game, keeps the best
   * score and changes nothing on the board; otherwise the head is put in
   * front, food or a bonus keeps the tail, and a plain move drops it.
   */
  ghost predicate StepEffect(n: int, b: Board, p: Progress, head: Cell, outcome: Outcome, foodDraws: Draws,
                             b': Board, p': Progress)
  {
    && n >= 4
    && OutcomeMatches(n, b, head, outcome)
    && b'.barriers == b.barriers && b'.warnings == b.warnings
    && b'.bonuses == BonusesAfterStep(b.bonuses, head, outcome)
    && p'.speedIncrease == p.speedIncrease
    && (outcome.Crashed? ==> !p'.running && !p'.started)
    && (!outcome.Crashed? ==> p'.running == p.running && p'.started == p.started)
    && p'.highScore == (if outcome.Crashed? && p.score > p.highScore then p.score else p.highScore)
    && match outcome
      case Crashed(_) =>
        && b'.snake == b.snake && b'.food == b.food && p'.score == p.score
        && p'.foodEaten == p.foodEaten && p'.level == p.level && p'.gameSpeed == p.gameSpeed
      case AteFood(leveledUp) =>
        && b'.snake == [head] + b.snake
        && p'.score == p.score + 1 && p'.foodEaten == p.foodEaten + 1
        && (leveledUp <==> p'.score % PointsPerLevel == 0)
        && p'.level == p.level + (if leveledUp then 1 else 0)
        && p'.gameSpeed == (if leveledUp then NextSpeed(p.gameSpeed, p.speedIncrease) else p.gameSpeed)
        && b'.food == Some(FoodFrom(n, b.(snake := b'.snake), foodDraws, 0))
      case AteBonus(value) =>
        && b'.snake == [head] + b.snake
        && value == EatenValue(b.bonuses, head) && value > 0
        && p'.score == p.score + value
        && b'.food == b.food && p'.foodEaten == p.foodEaten && p'.level == p.level && p'.gameSpeed == p.gameSpeed
      case Moved =>
        && |b.snake| > 0 && b'.snake == [head] + b.snake[..|b.snake| - 1]
        && p'.score == p.score
        && b'.food == b.food && p'.foodEaten == p.foodEaten && p'.level == p.level && p'.gameSpeed == p.gameSpeed
  }

  /** An outcome of `update` with the board and the progress it leaves. */
  datatype Stepped = Stepped(outcome: Outcome, board: Board, progress: Progress)

  /** The first of the collision checks of `update` that the head fails, if any. */
  function CollisionAt(n: int, snake: seq<Cell>, barriers: seq<Timed<Barrier>>, head: Cell): Option<Hazard>
  {
    if !InBounds(n, head) then Some(Wall)
    else if head in snake then Some(OwnBody)
    else if InBarriers(barriers, head) then Some(ActiveBarrier)
    else None
  }

  /** The progress `gameOver` leaves: stopped, with the best score kept. */
  function Stopped(p: Progress): Progress
  {
    p.(running := false, started := false, highScore := if p.score > p.highScore then p.score else p.highScore)
  }

  /**
   * The part of `update` after the collision checks: the head goes in
   * front, and food, else the bonuses under it, are eaten, else the tail
   * is dropped.
   */
  function AdvanceOf(n: int, b: Board, p: Progress, head: Cell, foodDraws: Draws): Stepped
    requires n >= 4 && |b.snake| > 0
  {
    if b.food == Some(head) then
      var grown := b.(snake := [head] + b.snake);
      var score := p.score + 1;
      var leveledUp := score % PointsPerLevel == 0;
      Stepped(AteFood(leveledUp), grown.(food := Some(FoodFrom(n, grown, foodDraws, 0))),
        p.(score := score, foodEaten := p.foodEaten + 1,
           level := p.level + (if leveledUp then 1 else 0),
           gameSpeed := if leveledUp then NextSpeed(p.gameSpeed, p.speedIncrease) else p.gameSpeed))
    else if InBonuses(b.bonuses, head) then
      var value := EatenValue(b.bonuses, head);
      Stepped(AteBonus(value), b.(snake := [head] + b.snake, bonuses := Uneaten(b.bonuses, head)),
        p.(score := p.score + value))
    else Stepped(Moved, b.(snake := [head] + b.snake[..|b.snake| - 1]), p)
  }

  /**
   * The effect of `update` on a free tile, case by case, from board `b`
   * and progress `p` to `b'` and `p'`, is what `AdvanceOf` computes.
   */
  lemma AdvanceOfByCases(n: int, b: Board, p: Progress, head: Cell, foodDraws: Draws, outcome: Outcome,
                         b': Board, p': Progress)
    requires n >= 4 && |b.snake| > 0
    requires b'.barriers == b.barriers && b'.warnings == b.warnings
    requires p'.speedIncrease == p.speedIncrease && p'.running == p.running && p'.started == p.started
    requires p'.highScore == p.highScore
    requires outcome.AteFood? <==> b.food == Some(head)
    requires outcome.AteFood? ==>
      && b'.snake == [head] + b.snake
      && p'.score == p.score + 1 && p'.foodEaten == p.foodEaten + 1
      && (outcome.leveledUp <==> p'.score % PointsPerLevel == 0)
      && p'.level == p.level + (if outcome.leveledUp then 1 else 0)
      && p'.gameSpeed == (if outcome.leveledUp then NextSpeed(p.gameSpeed, p.speedIncrease) else p.gameSpeed)
      && b'.bonuses == b.bonuses
      && b'.food == Some(FoodFrom(n, b.(snake := b'.snake), foodDraws, 0))
    requires outcome.AteBonus? <==> b.food != Some(head) && InBonuses(b.bonuses, head)
    requires outcome.AteBonus? ==>
      && b'.snake == [head] + b.snake
      && outcome.value == EatenValue(b.bonuses, head)
      && p'.score == p.score + outcome.value
      && b'.bonuses == Uneaten(b.bonuses, head)
      && b'.food == b.food && p'.foodEaten == p.foodEaten && p'.level == p.level && p'.gameSpeed == p.gameSpeed
    requires !outcome.Crashed?
    requires outcome == Moved ==>
      && b'.snake == [head] + b.snake[..|b.snake| - 1]
      && p'.score == p.score && b'.bonuses == b.bonuses
      && b'.food == b.food && p'.foodEaten == p.foodEaten && p'.level == p.level && p'.gameSpeed == p.gameSpeed
    ensures Stepped(outcome, b', p') == AdvanceOf(n, b, p, head, foodDraws)
  {
  }

  /**
   * `update` as a function of the board and progress it starts from and
   * the cell the head moves onto: a collision calls `gameOver` and leaves
   * the board alone; otherwise the snake advances.
   */
  function StepOf(n: int, b: Board, p: Progress, head: Cell, foodDraws: Draws): Stepped
    requires n >= 4 && |b.snake| > 0
  {
    match CollisionAt(n, b.snake, b.barriers, head)
    case Some(hazard) => Stepped(Crashed(hazard), b, Stopped(p))
    case None => AdvanceOf(n, b, p, head, foodDraws)
  }

  /** What `StepOf` computes is the effect `update` promises. */
  lemma StepOfMeetsEffect(n: int, b: Board, p: Progress, head: Cell, foodDraws: Draws)
    requires n >= 4 && |b.snake| > 0
    ensures var r := StepOf(n, b, p, head, foodDraws);
      StepEffect(n, b, p, head, r.outcome, foodDraws, r.board, r.progress)
  {
  }

  /** What one step can do to the snake's length, the counters and the running flag. */
  lemma StepOfBounds(n: int, b: Board, p: Progress, head: Cell, foodDraws: Draws)
    requires n >= 4 && |b.snake| > 0
    requires MinSpeed <= p.gameSpeed && 0 < p.speedIncrease
    ensures var r := StepOf(n, b, p, head, foodDraws);
      && |r.board.snake| == |b.snake| + (if r.outcome.AteFood? || r.outcome.AteBonus? then 1 else 0)
      && p.score <= r.progress.score && p.foodEaten <= r.progress.foodEaten
      && p.level <= r.progress.level <= p.level + 1
      && r.progress.gameSpeed <= p.gameSpeed
      && (r.outcome.Crashed? ==> !r.progress.running)
      && (!r.outcome.Crashed? ==> r.progress.running == p.running)
  {
  }
}
