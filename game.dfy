/**
 * The game object: the state the simulation updates in place, the tick and
 * its three phases, and the lifecycle commands.
 */
module Game {
  import opened Wrappers
  import opened Grid
  import opened Difficulty
  import opened Movement
  import opened Entities
  import opened Placement
  import opened Timers
  import opened Step

  /** Where a new snake starts. */
  const StartCell := Cell(10, 10)

  /** The random choices of one `updateDynamicElements`: barrier pattern, bonus type and the anchor streams. */
  datatype SpawnDice = SpawnDice(pattern: Pattern, barrierDraws: Draws, kind: BonusKind, bonusDraws: Draws)

  /** `spawnWarningBarrier` on a board: a warning of the pattern where the draws first fit, if they fit at all. */
  function WithWarning(n: int, board: Board, pattern: Pattern, draws: Draws): Board
    requires n >= 4
  {
    var cells := Placement.Placement(n, board, BarrierShape(pattern), draws);
    if cells == [] then board
    else board.(warnings := board.warnings + [Timed(Barrier(pattern, cells), WarningTime)])
  }

  /** `spawnBonusItem` on a board: a bonus of the kind where the draws first fit, if they fit at all. */
  function WithBonus(n: int, board: Board, kind: BonusKind, draws: Draws): Board
    requires n >= 4
  {
    var cells := Placement.Placement(n, board, BonusShape(kind), draws);
    if cells == [] then board
    else board.(bonuses := board.bonuses + [Timed(Bonus(kind, cells), Lifetime(kind))])
  }

  /**
   * The board after the spawn phase: a warning if the barrier timer is due,
   * then a bonus, placed around that new warning too, if the bonus timer is due.
   */
  function Spawned(n: int, board: Board, barrierDue: bool, bonusDue: bool, dice: SpawnDice): Board
    requires n >= 4
  {
    var afterWarning := if barrierDue then WithWarning(n, board, dice.pattern, dice.barrierDraws) else board;
    if bonusDue then WithBonus(n, afterWarning, dice.kind, dice.bonusDraws) else afterWarning
  }

  /**
   * The board after `updateDynamicElements`: the due spawns, then one
   * countdown of period `dt`, in which warnings that run out become active
   * barriers and are counted down in the same pass.
   */
  function AfterTimers(n: int, board: Board, barrierDue: bool, bonusDue: bool, dice: SpawnDice, dt: int): Board
    requires n >= 4
  {
    var s := Spawned(n, board, barrierDue, bonusDue, dice);
    Board(s.snake, s.food, Countdown(s.barriers + Promoted(s.warnings, dt), dt), Countdown(s.warnings, dt),
      Countdown(s.bonuses, dt))
  }

  /**
   * A warning that runs out in the countdown is an active barrier on the
   * board afterwards, with its full lifetime minus one period left, as the
   * period is shorter than that lifetime.
   */
  lemma AfterTimersKeepsPromoted(n: int, board: Board, barrierDue: bool, bonusDue: bool, dice: SpawnDice, dt: int)
    requires n >= 4 && dt < ActiveTime
    ensures var s := Spawned(n, board, barrierDue, bonusDue, dice);
      forall i :: 0 <= i < |s.warnings| && s.warnings[i].timeLeft <= dt ==>
        Timed(s.warnings[i].item, ActiveTime - dt) in AfterTimers(n, board, barrierDue, bonusDue, dice, dt).barriers
  {
    var s := Spawned(n, board, barrierDue, bonusDue, dice);
    PromotedSurviveTheirTick(s.barriers, s.warnings, dt);
  }

  /**
   * The spawn phase only appends: the snake, the food and the active
   * barriers stay, nothing spawns when neither timer is due, and a new
   * warning or bonus lies on the board on tiles that were free, the bonus
   * clear of a warning spawned in the same call too.
   */
  lemma SpawnedOnFreeTiles(n: int, board: Board, barrierDue: bool, bonusDue: bool, dice: SpawnDice)
    requires n >= 4
    ensures var s := Spawned(n, board, barrierDue, bonusDue, dice);
      && s.snake == board.snake && s.food == board.food && s.barriers == board.barriers
      && (!barrierDue && !bonusDue ==> s == board)
      && (s.warnings == board.warnings || (barrierDue && s.warnings[..|s.warnings| - 1] == board.warnings))
      && (s.bonuses == board.bonuses || (bonusDue && s.bonuses[..|s.bonuses| - 1] == board.bonuses))
    ensures var s := Spawned(n, board, barrierDue, bonusDue, dice);
      s.warnings != board.warnings ==>
        forall c :: c in s.warnings[|s.warnings| - 1].item.cells ==> InBounds(n, c) && c !in Occupied(board)
    ensures var afterWarning := Spawned(n, board, barrierDue, false, dice);
      var s := Spawned(n, board, barrierDue, bonusDue, dice);
      s.bonuses != board.bonuses ==>
        forall c :: c in s.bonuses[|s.bonuses| - 1].item.cells ==> InBounds(n, c) && c !in Occupied(afterWarning)
  {
    PlacementFits(n, board, BarrierShape(dice.pattern), dice.barrierDraws);
    var afterWarning := Spawned(n, board, barrierDue, false, dice);
    PlacementFits(n, afterWarning, BonusShape(dice.kind), dice.bonusDraws);
  }

  /**
   * The snake has a head and never overlaps itself; it stands still only
   * before the first start, and every queued direction is an arrow.
   */
  ghost predicate SnakeShape(snake: seq<Cell>, heading: Direction, started: bool, queue: seq<Direction>)
  {
    && |snake| >= 1 && Distinct(snake)
    && (IsUnit(heading) || heading == Stationary)
    && (started ==> IsUnit(heading))
    && |queue| <= MaxQueueSize
    && (forall i :: 0 <= i < |queue| ==> IsUnit(queue[i]))
  }

  /** Queueing one more arrow, while there is room, keeps the snake's shape. */
  lemma ShapeWithQueued(snake: seq<Cell>, heading: Direction, started: bool, queue: seq<Direction>, d: Direction)
    requires SnakeShape(snake, heading, started, queue) && |queue| < MaxQueueSize && IsUnit(d)
    ensures SnakeShape(snake, heading, started, queue + [d])
  {
    var q := queue + [d];
    assert forall i :: 0 <= i < |q| ==> q[i] == if i < |queue| then queue[i] else d;
  }

  /** Taking the front of the queue keeps the snake's shape. */
  lemma ShapeWhenDequeued(snake: seq<Cell>, heading: Direction, started: bool, queue: seq<Direction>)
    requires SnakeShape(snake, heading, started, queue)
    ensures var r := Dequeued(heading, queue); SnakeShape(snake, r.heading, started, r.queue)
  {
    var r := Dequeued(heading, queue);
    if queue != [] {
      var rest := queue[1..];
      assert r.queue == rest;
      assert r.heading == heading || r.heading == queue[0];
      assert IsUnit(queue[0]);
      forall i | 0 <= i < |rest|
        ensures IsUnit(rest[i])
      {
        assert rest[i] == queue[i + 1];
      }
    }
  }

  /** A tick period in milliseconds: never below the floor, never above the slowest setting. */
  type Speed = s: int | MinSpeed <= s <= MaxSpeed witness MinSpeed

  /** Levels and speed-up steps start at 1 and at a positive amount. */
  type Positive = x: int | 0 < x witness 1

  /** Whether a spawn timer last reset at `last` is due at `now`: from level 2 on, once more than `freq` ms passed. */
  function TimerDue(level: int, last: int, freq: int, now: int): (due: bool)
    ensures due ==> level >= 2
    ensures level >= 2 ==> (due <==> now - last > freq)
  {
    level >= 2 && now - last > freq
  }

  /** Running means started and not paused; paused means not running. */
  ghost predicate Phase(running: bool, paused: bool, started: bool)
  {
    (running ==> started && !paused) && (paused ==> !running)
  }

  class SnakeGame {
    /** Tiles per side: the canvas width over the 20-pixel grid. */
    const tileCount: int

    var snake: seq<Cell>
    var food: Option<Cell>
    var dx: int
    var dy: int
    var score: nat
    var level: Positive
    var foodEaten: nat
    var gameRunning: bool
    var gamePaused: bool
    var gameStarted: bool
    var gameSpeed: Speed
    var speedIncrease: Positive
    var moveQueue: seq<Direction>
    var barriers: seq<Timed<Barrier>>
    var bonusItems: seq<Timed<Bonus>>
    var warningBarriers: seq<Timed<Barrier>>
    var lastBarrierTime: int
    var lastBonusTime: int
    var highScore: int
    /** The value of the difficulty selector. */
    var difficulty: Setting

    /** What placement must avoid. */
    function CurrentBoard(): Board
      reads this`snake, this`food, this`barriers, this`warningBarriers, this`bonusItems
    {
      Board(snake, food, barriers, warningBarriers, bonusItems)
    }

    /** The counters and flags as a value. */
    function CurrentProgress(): Progress
      reads this`score, this`foodEaten, this`level, this`gameSpeed, this`speedIncrease,
        this`gameRunning, this`gameStarted, this`highScore
    {
      Progress(score, foodEaten, level, gameSpeed, speedIncrease, gameRunning, gameStarted, highScore)
    }

    /** The tile the head moves to on the next step. */
    function NextHead(): Cell
      reads this`snake, this`dx, this`dy
      requires |snake| > 0
    {
      Neighbour(snake[0], Direction(dx, dy))
    }

    ghost predicate Valid()
      reads this
    {
      && tileCount >= 4
      && SnakeShape(snake, Direction(dx, dy), gameStarted, moveQueue)
      && Phase(gameRunning, gamePaused, gameStarted)
    }

    /**
     * The queue as the game's entry points leave it: empty while not
     * started, and while started at most one entry, at a right angle to the
     * unit velocity. Three methods called on their own can break this:
     * `QueueDirection` on a game not yet started (it queues a key there),
     * and `GameOver`, or `Update` through it, when it ends a started game
     * with an entry still queued. `Tick` and `HandleKeyPress` never do: the
     * key handler queues only while running, and the tick empties a steady
     * queue before `update` can end the game.
     */
    ghost predicate QueueSteady()
      reads this`dx, this`dy, this`moveQueue, this`gameStarted
    {
      && (gameStarted ==> Steady(Direction(dx, dy), moveQueue))
      && (!gameStarted ==> moveQueue == [])
    }

    /**
     * `initializeGame` followed by its `resetGameState`: the food is placed
     * before any food exists, on an empty board apart from the new snake.
     */
    constructor (tileCount: int, setting: Setting, storedHighScore: nat, foodDraws: Draws)
      requires tileCount >= 4
      ensures Valid() && QueueSteady()
      ensures this.tileCount == tileCount && difficulty == setting && highScore == storedHighScore
      ensures snake == [StartCell] && Direction(dx, dy) == Stationary && moveQueue == []
      ensures food == Some(FoodFrom(tileCount, Board([StartCell], None, [], [], []), foodDraws, 0))
      ensures score == 0 && level == 1 && foodEaten == 0
      ensures !gameRunning && !gamePaused && !gameStarted
      ensures gameSpeed == ProfileOf(setting).speed && speedIncrease == ProfileOf(setting).speedIncrease
      ensures barriers == [] && warningBarriers == [] && bonusItems == []
      ensures lastBarrierTime == 0 && lastBonusTime == 0
    {
      this.tileCount := tileCount;
      difficulty := setting;
      highScore := storedHighScore;
      snake, food := [], None;
      barriers, bonusItems, warningBarriers := [], [], [];
      new;
      ResetGameState(foodDraws);
    }

    /**
     * `resetGameState`. The new food is generated after the snake is reset
     * but before the other entities are cleared, so it avoids the old food
     * and the old barriers and bonuses too. The high score is kept: the
     * stored copy it is reloaded from holds the same value.
     */
    method ResetGameState(foodDraws: Draws)
      requires tileCount >= 4
      modifies this
      ensures Valid() && QueueSteady()
      ensures snake == [StartCell] && Direction(dx, dy) == Stationary && moveQueue == []
      ensures food == Some(FoodFrom(tileCount, old(CurrentBoard()).(snake := [StartCell]), foodDraws, 0))
      ensures score == 0 && level == 1 && foodEaten == 0
      ensures !gameRunning && !gamePaused && !gameStarted
      ensures gameSpeed == ProfileOf(difficulty).speed && speedIncrease == ProfileOf(difficulty).speedIncrease
      ensures barriers == [] && warningBarriers == [] && bonusItems == []
      ensures lastBarrierTime == 0 && lastBonusTime == 0
      ensures highScore == old(highScore) && difficulty == old(difficulty)
    {
      RespawnSnake(foodDraws);
      ResetRound();
    }

    /** Everything `resetGameState` resets apart from the snake and the food. */
    method ResetRound()
      modifies this`dx, this`dy, this`moveQueue, this`gameRunning, this`gamePaused, this`gameStarted,
        this`score, this`level, this`foodEaten, this`gameSpeed, this`speedIncrease,
        this`barriers, this`bonusItems, this`warningBarriers, this`lastBarrierTime, this`lastBonusTime
      ensures Direction(dx, dy) == Stationary && moveQueue == []
      ensures !gameRunning && !gamePaused && !gameStarted
      ensures score == 0 && level == 1 && foodEaten == 0
      ensures gameSpeed == ProfileOf(difficulty).speed && speedIncrease == ProfileOf(difficulty).speedIncrease
      ensures barriers == [] && warningBarriers == [] && bonusItems == []
      ensures lastBarrierTime == 0 && lastBonusTime == 0
    {
      Halt();
      ResetProgress();
      ClearHazards();
    }

    /** A new snake on the start tile, and new food placed around it. */
    method RespawnSnake(foodDraws: Draws)
      requires tileCount >= 4
      modifies this`snake, this`food
      ensures snake == [StartCell]
      ensures food == Some(FoodFrom(tileCount, old(CurrentBoard()).(snake := [StartCell]), foodDraws, 0))
    {
      snake := [StartCell];
      PlaceFood(foodDraws);
    }

    /** `generateFood` with its result stored: a new food tile given what is on the board now. */
    method PlaceFood(foodDraws: Draws)
      requires tileCount >= 4
      modifies this`food
      ensures food == Some(FoodFrom(tileCount, old(CurrentBoard()), foodDraws, 0))
    {
      var f := GenerateFood(tileCount, CurrentBoard(), foodDraws);
      food := Some(f);
    }

    /** Stand still with nothing queued, neither started, running nor paused. */
    method Halt()
      modifies this`dx, this`dy, this`moveQueue, this`gameRunning, this`gamePaused, this`gameStarted
      ensures Direction(dx, dy) == Stationary && moveQueue == []
      ensures !gameRunning && !gamePaused && !gameStarted
    {
      dx, dy := 0, 0;
      moveQueue := [];
      gameRunning, gamePaused, gameStarted := false, false, false;
    }

    /** Counters back to the start of a round, pacing back to the selected difficulty. */
    method ResetProgress()
      modifies this`score, this`level, this`foodEaten, this`gameSpeed, this`speedIncrease
      ensures score == 0 && level == 1 && foodEaten == 0
      ensures gameSpeed == ProfileOf(difficulty).speed && speedIncrease == ProfileOf(difficulty).speedIncrease
    {
      score, level, foodEaten := 0, 1, 0;
      gameSpeed := ProfileOf(difficulty).speed;
      speedIncrease := ProfileOf(difficulty).speedIncrease;
    }

    /** No barriers, warnings or bonuses, and both spawn timers at zero. */
    method ClearHazards()
      modifies this`barriers, this`bonusItems, this`warningBarriers, this`lastBarrierTime, this`lastBonusTime
      ensures barriers == [] && warningBarriers == [] && bonusItems == []
      ensures lastBarrierTime == 0 && lastBonusTime == 0
    {
      barriers, bonusItems, warningBarriers := [], [], [];
      lastBarrierTime, lastBonusTime := 0, 0;
    }

    /**
     * `startGame`: the first start sets the snake moving right and starts
     * both spawn timers now; a start after a game over takes this branch
     * too and carries on with the snake and score as they are.
     */
    method StartGame(currentTime: int)
      requires Valid()
      modifies this`gameStarted, this`dx, this`dy, this`lastBarrierTime, this`lastBonusTime,
        this`gameRunning, this`gamePaused
      ensures Valid()
      ensures old(QueueSteady()) ==> QueueSteady()
      ensures gameStarted && gameRunning && !gamePaused
      ensures !old(gameStarted) ==>
        Direction(dx, dy) == Right && lastBarrierTime == currentTime && lastBonusTime == currentTime
      ensures old(gameStarted) ==>
        Direction(dx, dy) == Direction(old(dx), old(dy)) && lastBarrierTime == old(lastBarrierTime) && lastBonusTime == old(lastBonusTime)
    {
      if !gameStarted {
        gameStarted := true;
        dx, dy := 1, 0;
        lastBarrierTime := currentTime;
        lastBonusTime := currentTime;
      }
      gameRunning := true;
      gamePaused := false;
    }

    /** `togglePause`: only a started game pauses or resumes; running is the opposite of paused. */
    method TogglePause()
      requires Valid()
      modifies this`gamePaused, this`gameRunning
      ensures Valid()
      ensures old(QueueSteady()) ==> QueueSteady()
      ensures !gameStarted ==> gamePaused == old(gamePaused) && gameRunning == old(gameRunning)
      ensures gameStarted ==> gamePaused == !old(gamePaused) && gameRunning == !gamePaused
    {
      if !gameStarted {
        return;
      }
      gamePaused := !gamePaused;
      gameRunning := !gamePaused;
    }

    /** `gameOver`: stop, and keep the best score seen. */
    method GameOver()
      requires Valid()
      modifies this`gameRunning, this`gameStarted, this`highScore
      ensures Valid()
      ensures !gameRunning && !gameStarted
      ensures highScore == if old(score) > old(highScore) then old(score) else old(highScore)
      ensures highScore >= score && highScore >= old(highScore)
    {
      gameRunning := false;
      gameStarted := false;
      if score > highScore {
        highScore := score;
      }
    }

    /** The difficulty selector's change handler: the pacing follows it only while not running. */
    method ChangeDifficulty(setting: Setting)
      requires Valid()
      modifies this`difficulty, this`gameSpeed, this`speedIncrease
      ensures Valid()
      ensures difficulty == setting
      ensures !gameRunning ==>
        gameSpeed == ProfileOf(setting).speed && speedIncrease == ProfileOf(setting).speedIncrease
      ensures gameRunning ==> gameSpeed == old(gameSpeed) && speedIncrease == old(speedIncrease)
    {
      difficulty := setting;
      if !gameRunning {
        gameSpeed := ProfileOf(setting).speed;
        speedIncrease := ProfileOf(setting).speedIncrease;
      }
    }

    /** `queueDirection`. */
    method QueueDirection(key: string)
      requires Valid()
      modifies this`moveQueue
      ensures Valid()
      ensures moveQueue == Queued(Direction(dx, dy), old(moveQueue), DirectionFromKey(key))
      ensures |moveQueue| <= |old(moveQueue)| + 1
    {
      if |moveQueue| < MaxQueueSize {
        var direction := DirectionFromKey(key);
        if direction.Some? && IsValidDirectionChange(Direction(dx, dy), moveQueue, direction.value) {
          ShapeWithQueued(snake, Direction(dx, dy), gameStarted, moveQueue, direction.value);
          moveQueue := moveQueue + [direction.value];
          assert dx == old(dx) && dy == old(dy) && gameStarted == old(gameStarted);
        }
      }
    }

    /** `processMovementQueue`. */
    method ProcessMovementQueue()
      requires Valid()
      modifies this`moveQueue, this`dx, this`dy
      ensures Valid()
      ensures Direction(dx, dy) == Dequeued(Direction(old(dx), old(dy)), old(moveQueue)).heading
      ensures moveQueue == Dequeued(Direction(old(dx), old(dy)), old(moveQueue)).queue
    {
      ShapeWhenDequeued(snake, Direction(dx, dy), gameStarted, moveQueue);
      if |moveQueue| > 0 {
        var nextMove := moveQueue[0];
        moveQueue := moveQueue[1..];
        if IsValidDirectionChange(Direction(dx, dy), moveQueue, nextMove) {
          dx, dy := nextMove.dx, nextMove.dy;
          assert Direction(dx, dy) == nextMove;
        }
      }
      assert snake == old(snake) && gameStarted == old(gameStarted);
    }

    /** `increaseSpeed`. */
    method IncreaseSpeed()
      requires Valid()
      modifies this`gameSpeed
      ensures Valid()
      ensures gameSpeed == NextSpeed(old(gameSpeed), speedIncrease)
      ensures gameSpeed <= old(gameSpeed)
    {
      gameSpeed := NextSpeed(gameSpeed, speedIncrease);
    }

    /**
     * `update`: one step of the snake. A collision ends the game and
     * leaves snake, food and score as they were. Otherwise the new head is
     * put in front; food or a bonus under it keeps the tail, so the snake
     * grows by one; else the tail goes and the length stays.
     */
    method Update(foodDraws: Draws) returns (outcome: Outcome)
      requires Valid()
      modifies this`snake, this`food, this`score, this`foodEaten, this`level, this`gameSpeed,
        this`bonusItems, this`gameRunning, this`gameStarted, this`highScore
      ensures Valid()
      ensures var step := StepOf(tileCount, old(CurrentBoard()), old(CurrentProgress()), old(NextHead()), foodDraws);
        outcome == step.outcome && CurrentBoard() == step.board && CurrentProgress() == step.progress
    {
      var head := Cell(snake[0].x + dx, snake[0].y + dy);
      ghost var board, progress := CurrentBoard(), CurrentProgress();
      assert head == NextHead();
      var hit := DetectCollision(tileCount, snake, barriers, head);
      if hit.Some? {
        assert StepOf(tileCount, board, progress, head, foodDraws) == Stepped(Crashed(hit.value), board, Stopped(progress));
        GameOver();
        return Crashed(hit.value);
      }
      outcome := Advance(head, foodDraws);
      AdvanceOfByCases(tileCount, board, progress, head, foodDraws, outcome, CurrentBoard(), CurrentProgress());
    }

    /** The part of `update` after the collision checks: move the head onto a free tile. */
    method Advance(head: Cell, foodDraws: Draws) returns (outcome: Outcome)
      requires Valid() && head !in snake
      modifies this`snake, this`food, this`score, this`foodEaten, this`level, this`gameSpeed, this`bonusItems
      ensures Valid()
      ensures outcome.AteFood? <==> old(food) == Some(head)
      ensures outcome.AteFood? ==>
        && snake == [head] + old(snake)
        && score == old(score) + 1 && foodEaten == old(foodEaten) + 1
        && (outcome.leveledUp <==> score % PointsPerLevel == 0)
        && level == old(level) + (if outcome.leveledUp then 1 else 0)
        && gameSpeed == (if outcome.leveledUp then NextSpeed(old(gameSpeed), speedIncrease) else old(gameSpeed))
        && bonusItems == old(bonusItems)
        && food == Some(FoodFrom(tileCount, old(CurrentBoard()).(snake := snake), foodDraws, 0))
      ensures outcome.AteBonus? <==> old(food) != Some(head) && InBonuses(old(bonusItems), head)
      ensures outcome.AteBonus? ==>
        && snake == [head] + old(snake)
        && outcome.value == EatenValue(old(bonusItems), head) && outcome.value > 0
        && score == old(score) + outcome.value
        && bonusItems == Uneaten(old(bonusItems), head)
        && food == old(food) && foodEaten == old(foodEaten) && level == old(level) && gameSpeed == old(gameSpeed)
      ensures !outcome.Crashed?
      ensures outcome == Moved ==>
        && snake == [head] + old(snake)[..|old(snake)| - 1]
        && score == old(score) && bonusItems == old(bonusItems)
        && food == old(food) && foodEaten == old(foodEaten) && level == old(level) && gameSpeed == old(gameSpeed)
    {
      snake := [head] + snake;
      if food == Some(head) {
        var leveledUp := EatFood(foodDraws);
        outcome := AteFood(leveledUp);
      } else {
        outcome := EatBonusOrShift(head);
      }
    }

    /** Food under the new head: score it, place new food, and level up on every fifth point. */
    method EatFood(foodDraws: Draws) returns (leveledUp: bool)
      requires Valid()
      modifies this`score, this`foodEaten, this`food, this`level, this`gameSpeed
      ensures Valid()
      ensures score == old(score) + 1 && foodEaten == old(foodEaten) + 1
      ensures leveledUp <==> score % PointsPerLevel == 0
      ensures level == old(level) + (if leveledUp then 1 else 0)
      ensures gameSpeed == if leveledUp then NextSpeed(old(gameSpeed), speedIncrease) else old(gameSpeed)
      ensures food == Some(FoodFrom(tileCount, old(CurrentBoard()), foodDraws, 0))
    {
      score := score + 1;
      foodEaten := foodEaten + 1;
      PlaceFood(foodDraws);
      leveledUp := score % PointsPerLevel == 0;
      if leveledUp {
        LevelUp();
      }
    }

    /** The next level, and a shorter tick period. */
    method LevelUp()
      requires Valid()
      modifies this`level, this`gameSpeed
      ensures Valid()
      ensures level == old(level) + 1
      ensures gameSpeed == NextSpeed(old(gameSpeed), speedIncrease)
    {
      level := level + 1;
      IncreaseSpeed();
    }

    /** No food under the new head: collect any bonus there, or else drop the tail. */
    method EatBonusOrShift(head: Cell) returns (outcome: Outcome)
      requires Valid() && |snake| >= 2
      modifies this`bonusItems, this`score, this`snake
      ensures Valid()
      ensures outcome.AteBonus? <==> InBonuses(old(bonusItems), head)
      ensures outcome.AteBonus? || outcome == Moved
      ensures outcome.AteBonus? ==>
        && snake == old(snake)
        && outcome.value == EatenValue(old(bonusItems), head) && outcome.value > 0
        && score == old(score) + outcome.value
        && bonusItems == Uneaten(old(bonusItems), head)
      ensures outcome == Moved ==>
        snake == old(snake)[..|old(snake)| - 1] && score == old(score) && bonusItems == old(bonusItems)
    {
      var kept, gained, eaten := EatBonuses(bonusItems, head);
      UneatenMembers(bonusItems, head);
      bonusItems := kept;
      score := score + gained;
      if eaten {
        outcome := AteBonus(gained);
      } else {
        DistinctPrefix(snake, |snake| - 1);
        snake := snake[..|snake| - 1];
        outcome := Moved;
      }
    }

    /** `spawnWarningBarrier`: a warning of the chosen pattern, if a place for it is found. */
    method SpawnWarningBarrier(pattern: Pattern, draws: Draws)
      requires tileCount >= 4
      modifies this`warningBarriers
      ensures CurrentBoard() == WithWarning(tileCount, old(CurrentBoard()), pattern, draws)
    {
      var cells := GenerateBarrierPattern(tileCount, CurrentBoard(), pattern, draws);
      if |cells| > 0 {
        warningBarriers := warningBarriers + [Timed(Barrier(pattern, cells), WarningTime)];
      }
    }

    /** `spawnBonusItem`: a bonus of the chosen type, if a place for it is found. */
    method SpawnBonusItem(kind: BonusKind, draws: Draws)
      requires tileCount >= 4
      modifies this`bonusItems
      ensures CurrentBoard() == WithBonus(tileCount, old(CurrentBoard()), kind, draws)
    {
      var cells := GenerateBonusPattern(tileCount, CurrentBoard(), kind, draws);
      if |cells| > 0 {
        bonusItems := bonusItems + [Timed(Bonus(kind, cells), Lifetime(kind))];
      }
    }

    /** The barrier spawn timer has run past the selected frequency, from level 2 on. */
    function BarrierDue(currentTime: int): bool
      reads this`level, this`lastBarrierTime, this`difficulty
    {
      TimerDue(level, lastBarrierTime, ProfileOf(difficulty).barrierFreq, currentTime)
    }

    function BonusDue(currentTime: int): bool
      reads this`level, this`lastBonusTime, this`difficulty
    {
      TimerDue(level, lastBonusTime, ProfileOf(difficulty).bonusFreq, currentTime)
    }

    /**
     * `updateDynamicElements`. From level 2 on, each spawn timer that has
     * run past its frequency tries a spawn and restarts at `currentTime`,
     * whether or not a place was found. Then every countdown drops by the
     * tick period: warnings that run out become active barriers with a
     * fresh lifetime (counted down again in this same call, which they
     * survive: `AfterTimersKeepsPromoted`), and active barriers and bonuses
     * that run out are removed.
     */
    method UpdateDynamicElements(currentTime: int, dice: SpawnDice)
      requires Valid()
      modifies this`warningBarriers, this`barriers, this`bonusItems, this`lastBarrierTime, this`lastBonusTime
      ensures Valid()
      ensures lastBarrierTime == if old(BarrierDue(currentTime)) then currentTime else old(lastBarrierTime)
      ensures lastBonusTime == if old(BonusDue(currentTime)) then currentTime else old(lastBonusTime)
      ensures CurrentBoard() ==
        AfterTimers(tileCount, old(CurrentBoard()), old(BarrierDue(currentTime)), old(BonusDue(currentTime)), dice, gameSpeed)
    {
      SpawnDue(currentTime, dice);
      CountDownAll();
    }

    /** The spawn phase of `updateDynamicElements`. */
    method SpawnDue(currentTime: int, dice: SpawnDice)
      requires tileCount >= 4
      modifies this`warningBarriers, this`bonusItems, this`lastBarrierTime, this`lastBonusTime
      ensures lastBarrierTime == if old(BarrierDue(currentTime)) then currentTime else old(lastBarrierTime)
      ensures lastBonusTime == if old(BonusDue(currentTime)) then currentTime else old(lastBonusTime)
      ensures CurrentBoard() ==
        Spawned(tileCount, old(CurrentBoard()), old(BarrierDue(currentTime)), old(BonusDue(currentTime)), dice)
    {
      if level >= 2 {
        if currentTime - lastBarrierTime > ProfileOf(difficulty).barrierFreq {
          SpawnWarningBarrier(dice.pattern, dice.barrierDraws);
          lastBarrierTime := currentTime;
        }
        if currentTime - lastBonusTime > ProfileOf(difficulty).bonusFreq {
          SpawnBonusItem(dice.kind, dice.bonusDraws);
          lastBonusTime := currentTime;
        }
      }
    }

    /** The countdown phase of `updateDynamicElements`. */
    method CountDownAll()
      requires Valid()
      modifies this`warningBarriers, this`barriers, this`bonusItems
      ensures warningBarriers == Countdown(old(warningBarriers), gameSpeed)
      ensures barriers == Countdown(old(barriers) + Promoted(old(warningBarriers), gameSpeed), gameSpeed)
      ensures bonusItems == Countdown(old(bonusItems), gameSpeed)
      ensures forall i :: 0 <= i < |old(warningBarriers)| && old(warningBarriers)[i].timeLeft <= gameSpeed ==>
        Timed(old(warningBarriers)[i].item, ActiveTime - gameSpeed) in barriers
    {
      PromotedSurviveTheirTick(barriers, warningBarriers, gameSpeed);
      var still, promoted := TickWarnings(warningBarriers, gameSpeed);
      warningBarriers := still;
      barriers := barriers + promoted;
      barriers := TickDown(barriers, gameSpeed);
      bonusItems := TickDown(bonusItems, gameSpeed);
      assert gameSpeed == old(gameSpeed);
    }

    /**
     * One tick of the game loop while running and not paused: take one
     * queued direction, step the snake, then run the timers on the board
     * the step left, with the level and tick period the step left (so a
     * level-up can make the spawner due in the same tick). The timers run
     * on the tick that ended the game too.
     */
    method Tick(currentTime: int, dice: SpawnDice, foodDraws: Draws) returns (outcome: Option<Outcome>)
      requires Valid()
      modifies this
      ensures Valid()
      ensures old(QueueSteady()) ==> QueueSteady()
      ensures !(old(gameRunning) && !old(gamePaused)) ==> outcome == None && unchanged(this)
      ensures old(gameRunning) && !old(gamePaused) ==> outcome.Some?
      ensures outcome.Some? ==>
        && Direction(dx, dy) == Dequeued(Direction(old(dx), old(dy)), old(moveQueue)).heading
        && moveQueue == Dequeued(Direction(old(dx), old(dy)), old(moveQueue)).queue
        && (Direction(dx, dy) == Direction(old(dx), old(dy)) || Direction(dx, dy) != Reverse(Direction(old(dx), old(dy))))
        && |snake| == |old(snake)| + (if outcome.value.AteFood? || outcome.value.AteBonus? then 1 else 0)
        && old(score) <= score && old(foodEaten) <= foodEaten
        && old(level) <= level <= old(level) + 1
        && gameSpeed <= old(gameSpeed)
        && (outcome.value.Crashed? <==> !gameRunning)
      ensures outcome.Some? ==>
        var step := StepOf(tileCount, old(CurrentBoard()), old(CurrentProgress()),
          Neighbour(old(snake)[0], Direction(dx, dy)), foodDraws);
        && outcome.value == step.outcome && CurrentProgress() == step.progress
        && difficulty == old(difficulty) && gamePaused == old(gamePaused)
        && var barrierDue := TimerDue(level, old(lastBarrierTime), ProfileOf(difficulty).barrierFreq, currentTime);
        var bonusDue := TimerDue(level, old(lastBonusTime), ProfileOf(difficulty).bonusFreq, currentTime);
        && lastBarrierTime == (if barrierDue then currentTime else old(lastBarrierTime))
        && lastBonusTime == (if bonusDue then currentTime else old(lastBonusTime))
        && CurrentBoard() == AfterTimers(tileCount, step.board, barrierDue, bonusDue, dice, gameSpeed)
    {
      if !(gameRunning && !gamePaused) {
        return None;
      }
      var o := Move(foodDraws);
      ghost var barrierDue, bonusDue := BarrierDue(currentTime), BonusDue(currentTime);
      assert barrierDue == TimerDue(level, old(lastBarrierTime), ProfileOf(difficulty).barrierFreq, currentTime);
      assert bonusDue == TimerDue(level, old(lastBonusTime), ProfileOf(difficulty).bonusFreq, currentTime);
      UpdateDynamicElements(currentTime, dice);
      return Some(o);
    }

    /**
     * The first two phases of a tick: take one queued direction, then step
     * the snake one tile along the direction that leaves.
     */
    method Move(foodDraws: Draws) returns (outcome: Outcome)
      requires Valid() && gameRunning
      modifies this`moveQueue, this`dx, this`dy, this`snake, this`food, this`score, this`foodEaten, this`level,
        this`gameSpeed, this`bonusItems, this`gameRunning, this`gameStarted, this`highScore
      ensures Valid()
      ensures old(QueueSteady()) ==> QueueSteady()
      ensures Direction(dx, dy) == Dequeued(Direction(old(dx), old(dy)), old(moveQueue)).heading
      ensures moveQueue == Dequeued(Direction(old(dx), old(dy)), old(moveQueue)).queue
      ensures var step := StepOf(tileCount, old(CurrentBoard()), old(CurrentProgress()),
          Neighbour(old(snake)[0], Direction(dx, dy)), foodDraws);
        outcome == step.outcome && CurrentBoard() == step.board && CurrentProgress() == step.progress
      ensures |snake| == |old(snake)| + (if outcome.AteFood? || outcome.AteBonus? then 1 else 0)
      ensures old(score) <= score && old(foodEaten) <= foodEaten
      ensures old(level) <= level <= old(level) + 1
      ensures gameSpeed <= old(gameSpeed)
      ensures outcome.Crashed? <==> !gameRunning
    {
      if QueueSteady() {
        SteadyFrontApplies(Direction(dx, dy), moveQueue);
      }
      ProcessMovementQueue();
      assert CurrentBoard() == old(CurrentBoard()) && CurrentProgress() == old(CurrentProgress());
      ghost var head := NextHead();
      outcome := Update(foodDraws);
      assert head == Neighbour(old(snake)[0], Direction(dx, dy));
      StepOfBounds(tileCount, old(CurrentBoard()), old(CurrentProgress()), head, foodDraws);
    }

    /**
     * `handleKeyPress` after translation to a key name: an arrow key starts
     * a game that has not started; space pauses or resumes a started game;
     * r restarts; any other key is queued as a direction while running and
     * not paused.
     */
    method HandleKeyPress(key: string, currentTime: int, foodDraws: Draws)
      requires Valid()
      modifies this
      ensures Valid()
      ensures (key == " " || key == "Spacebar") ==>
        && gameStarted == old(gameStarted) && moveQueue == old(moveQueue) && Direction(dx, dy) == Direction(old(dx), old(dy))
        && (old(gameStarted) ==> gamePaused == !old(gamePaused) && gameRunning == !gamePaused)
        && (!old(gameStarted) ==> gamePaused == old(gamePaused) && gameRunning == old(gameRunning))
      ensures old(QueueSteady()) ==> QueueSteady()
      ensures (key == "r" || key == "R") ==>
        && snake == [StartCell] && Direction(dx, dy) == Stationary && moveQueue == []
        && food == Some(FoodFrom(tileCount, old(CurrentBoard()).(snake := [StartCell]), foodDraws, 0))
        && score == 0 && level == 1 && foodEaten == 0
        && !gameRunning && !gamePaused && !gameStarted
        && gameSpeed == ProfileOf(difficulty).speed && speedIncrease == ProfileOf(difficulty).speedIncrease
        && barriers == [] && warningBarriers == [] && bonusItems == []
        && lastBarrierTime == 0 && lastBonusTime == 0
        && highScore == old(highScore) && difficulty == old(difficulty)
      ensures IsArrowKey(key) && !old(gameStarted) ==>
        && gameRunning && Direction(dx, dy) == Right
        && moveQueue == Queued(Right, old(moveQueue), DirectionFromKey(key))
      ensures IsArrowKey(key) && old(gameStarted) && !old(gameRunning) ==>
        && moveQueue == old(moveQueue) && Direction(dx, dy) == Direction(old(dx), old(dy))
        && gameRunning == old(gameRunning) && gamePaused == old(gamePaused)
      ensures IsArrowKey(key) && old(gameRunning) ==>
        && Direction(dx, dy) == Direction(old(dx), old(dy))
        && moveQueue == Queued(Direction(old(dx), old(dy)), old(moveQueue), DirectionFromKey(key))
      ensures !IsArrowKey(key) && key !in {" ", "Spacebar", "r", "R"} ==>
        && moveQueue == old(moveQueue) && Direction(dx, dy) == Direction(old(dx), old(dy))
        && gameRunning == old(gameRunning) && gamePaused == old(gamePaused)
      ensures IsArrowKey(key) && !old(gameStarted) ==> lastBarrierTime == currentTime && lastBonusTime == currentTime
      ensures !(key == "r" || key == "R") ==>
        && snake == old(snake) && food == old(food) && score == old(score)
        && barriers == old(barriers) && warningBarriers == old(warningBarriers) && bonusItems == old(bonusItems)
        && level == old(level) && foodEaten == old(foodEaten)
        && gameSpeed == old(gameSpeed) && speedIncrease == old(speedIncrease)
        && highScore == old(highScore) && difficulty == old(difficulty)
        && (!(IsArrowKey(key) && !old(gameStarted)) ==>
          lastBarrierTime == old(lastBarrierTime) && lastBonusTime == old(lastBonusTime))
      ensures !(key == "r" || key == "R") && !(key == " " || key == "Spacebar") && !(IsArrowKey(key) && !old(gameStarted)) ==>
        gameRunning == old(gameRunning) && gamePaused == old(gamePaused) && gameStarted == old(gameStarted)
    {
      if key == "r" || key == "R" {
        ResetGameState(foodDraws);
      } else {
        PressNonRestart(key, currentTime);
      }
    }

    /** `handleKeyPress` for every key but r: space pauses or resumes a started game, any other key goes on. */
    method PressNonRestart(key: string, currentTime: int)
      requires Valid() && !(key == "r" || key == "R")
      modifies this`gameStarted, this`dx, this`dy, this`lastBarrierTime, this`lastBonusTime,
        this`gameRunning, this`gamePaused, this`moveQueue
      ensures Valid()
      ensures old(QueueSteady()) ==> QueueSteady()
      ensures (key == " " || key == "Spacebar") ==>
        && gameStarted == old(gameStarted) && moveQueue == old(moveQueue) && Direction(dx, dy) == Direction(old(dx), old(dy))
        && (old(gameStarted) ==> gamePaused == !old(gamePaused) && gameRunning == !gamePaused)
        && (!old(gameStarted) ==> gamePaused == old(gamePaused) && gameRunning == old(gameRunning))
        && lastBarrierTime == old(lastBarrierTime) && lastBonusTime == old(lastBonusTime)
      ensures !(key == " " || key == "Spacebar") && IsArrowKey(key) && !old(gameStarted) ==>
        && gameStarted && gameRunning && !gamePaused && Direction(dx, dy) == Right
        && moveQueue == Queued(Right, old(moveQueue), DirectionFromKey(key))
        && lastBarrierTime == currentTime && lastBonusTime == currentTime
      ensures !(key == " " || key == "Spacebar") && !(IsArrowKey(key) && !old(gameStarted)) ==>
        && gameStarted == old(gameStarted) && gameRunning == old(gameRunning) && gamePaused == old(gamePaused)
        && Direction(dx, dy) == Direction(old(dx), old(dy))
        && lastBarrierTime == old(lastBarrierTime) && lastBonusTime == old(lastBonusTime)
        && moveQueue == if old(gameRunning) && !old(gamePaused)
          then Queued(Direction(old(dx), old(dy)), old(moveQueue), DirectionFromKey(key))
          else old(moveQueue)
    {
      if key == " " || key == "Spacebar" {
        if gameStarted {
          TogglePause();
        }
      } else {
        PressOther(key, currentTime);
      }
    }

    /**
     * The rest of `handleKeyPress`, for a key that is neither space nor r:
     * an arrow key starts a game that has not started (the start can come
     * first here because an arrow key is neither space nor r), then the key
     * is steered.
     */
    method PressOther(key: string, currentTime: int)
      requires Valid()
      modifies this`gameStarted, this`dx, this`dy, this`lastBarrierTime, this`lastBonusTime,
        this`gameRunning, this`gamePaused, this`moveQueue
      ensures Valid()
      ensures old(QueueSteady()) ==> QueueSteady()
      ensures IsArrowKey(key) && !old(gameStarted) ==>
        && gameStarted && gameRunning && !gamePaused && Direction(dx, dy) == Right
        && moveQueue == Queued(Right, old(moveQueue), DirectionFromKey(key))
        && lastBarrierTime == currentTime && lastBonusTime == currentTime
      ensures !(IsArrowKey(key) && !old(gameStarted)) ==>
        && gameStarted == old(gameStarted) && gameRunning == old(gameRunning) && gamePaused == old(gamePaused)
        && Direction(dx, dy) == Direction(old(dx), old(dy))
        && lastBarrierTime == old(lastBarrierTime) && lastBonusTime == old(lastBonusTime)
        && moveQueue == if old(gameRunning) && !old(gamePaused)
          then Queued(Direction(old(dx), old(dy)), old(moveQueue), DirectionFromKey(key))
          else old(moveQueue)
    {
      if !gameStarted && IsArrowKey(key) {
        StartGame(currentTime);
      }
      Steer(key);
    }

    /** The last branch of `handleKeyPress`: any other key is queued, but only while running and not paused. */
    method Steer(key: string)
      requires Valid()
      modifies this`moveQueue
      ensures Valid()
      ensures old(QueueSteady()) ==> QueueSteady()
      ensures gameRunning && !gamePaused ==> moveQueue == Queued(Direction(dx, dy), old(moveQueue), DirectionFromKey(key))
      ensures !(gameRunning && !gamePaused) ==> moveQueue == old(moveQueue)
    {
      if !gameRunning || gamePaused {
        return;
      }
      if QueueSteady() {
        QueuedKeepsSteady(Direction(dx, dy), moveQueue, DirectionFromKey(key));
      }
      QueueDirection(key);
    }
  }
}
