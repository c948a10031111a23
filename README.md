# Snake game simulation engine

A Dafny model of the game engine inside `UltimateSnakeGame` (`index.js`): a
snake on a square board of `tileCount` x `tileCount` tiles, a direction queue
fed by the arrow keys, collision checks against the wall, the snake's own body
and active barriers, food and bonus pick-ups with score, level and speed, and
timed warning barriers, active barriers and bonuses that spawn from level 2 on.

Modules, leaves first:

- `Wrappers` — `Option`, for the source's `null` / `undefined`.
- `Grid` — tiles, velocities, bounds, the quarter-turn rule.
- `Difficulty` — the `difficulties` table and the tick-period rules of `increaseSpeed`.
- `Entities` — barriers, bonuses, countdowns, and `isPositionFree` over a board snapshot.
- `Movement` — `getDirectionFromKey`, `isValidDirectionChange`, and the queue as functions.
- `Placement` — `generateBarrierPattern`, `generateBonusPattern`, `generateFood`: retry loops as methods, each proved equal to a recursive specification function whose first-fit meaning is proved as lemmas.
- `Timers` — the countdown filters of `updateDynamicElements` as loops proved against specification functions.
- `Step` — the collision checks of `update` and the bonus filter.
- `Game` — the class `SnakeGame`, whose fields are the fields the source updates in place, with `update`, `updateDynamicElements`, the queue methods, the lifecycle methods and one tick of the game loop.

`Math.random()` is an input: each placement takes a stream `Draws` of
`Draw(rx, ry, coin)` values, one per attempt, and `Math.floor(Math.random() * m)`
is modelled as `rx % m`, which takes every value in `[0, m)`. The pattern and bonus
type of a spawn are inputs too (`SpawnDice`). `Date.now()` is the parameter
`currentTime`. `tileCount` is a constant of the object, at least 4.

The class invariant `Valid()` holds after every operation: the snake has at
least one tile and never overlaps itself, the velocity is a unit velocity once
started, the queue holds at most 2 arrow velocities, and a running game is
started and not paused. The field types carry the rest: the tick period stays
between 60 ms and the slowest preset's 200 ms (`Speed`), the level and the
speed increase are positive (`Positive`), and score and food count are
natural numbers.

A second predicate, `QueueSteady()`, holds from construction through every
entry point the page uses (the key handler, start, pause, restart and the
tick): before a start the queue is empty, and after it the queue holds at most
one entry, at a right angle to the velocity. So the second slot of the queue is
never filled in play (`Movement.SecondIntentRejected`). Three methods called
on their own, outside those entry points, can break it:

- `queueDirection` on a game not yet started: it queues the key, so the queue is no longer empty before the start.
- `gameOver`, when it ends a started game with an entry still queued: the game is then not started and the queue is not empty.
- `update`, which calls `gameOver` on a collision.

The tick and the key handler never break it. The key handler queues only
while the game is running. The tick applies the pending entry and empties
the queue before `update` can end the game.

## Model

| member | source | states |
|---|---|---|
| Grid.DistinctPairwise | index.js:697-704 | the snake's no-overlap invariant says exactly that no two of its positions hold the same tile |
| Grid.QuarterTurn | index.js:263-290 | between unit velocities, neither equal nor reversed is exactly at a right angle |
| Difficulty.ProfileOf | index.js:47-52 | the four presets; every preset's speed is above the 60 ms floor and at most 200 ms, its speed increase is positive, and its bonus interval is shorter than its barrier interval |
| Difficulty.NextSpeed | index.js:841-854 | a level-up never takes the tick period below 60 ms; it is exactly one speed increase less whenever that stays above 60, and otherwise the floor; never slower than before |
| Difficulty.SpeedAfterClamped | index.js:727-731 | after k level-ups the period is the base speed minus k speed increases, clamped at 60 |
| Entities.IsPositionFree | index.js:644-680 | a tile is free exactly when it is not in the set of tiles covered by the snake, the food, an active barrier, a warning barrier or a bonus |
| Movement.DirectionFromKey | index.js:253-261 | a key gives a velocity exactly when it is one of the four arrow keys, and that velocity is a unit velocity |
| Movement.ArrowKeysCoverUnits | index.js:253-261 | every unit velocity is named by an arrow key, and different arrow keys give different velocities |
| Movement.IsValidDirectionChange | index.js:263-290 | a valid change neither repeats nor reverses the current velocity, nor the last queued one when the queue is not empty |
| Movement.ValidChangeExactly | index.js:263-290 | those four rejections are the only ones: a change that avoids all of them is valid |
| Movement.ValidChangeIsQuarterTurn | index.js:263-290 | for unit velocities a change is valid exactly when it is at a right angle to the current velocity and to the last queued one (neither equal nor reversed) |
| Movement.ValidChangeWhenStationary | index.js:263-290 | while the snake is stationary a key is valid exactly when it neither repeats nor reverses the last queued velocity |
| Movement.Queued | index.js:243-251 | the queue never grows past 2; it grows by exactly the key's velocity when there is room and the change is valid, and is otherwise unchanged |
| Movement.Dequeued | index.js:292-300 | a non-empty queue loses exactly its front entry; the velocity changes exactly when that entry re-validates against the current velocity and the rest of the queue, and then never to its own reverse |
| Movement.SecondIntentRejected | index.js:243-290 | with a unit velocity and one entry at a right angle pending, every further arrow key is rejected |
| Movement.QueuedKeepsSteady | index.js:243-251 | a key press keeps the queue at most one entry long, at a right angle to the velocity |
| Movement.SteadyFrontApplies | index.js:292-300 | from such a queue the tick always applies the pending entry and empties the queue |
| Placement.AttemptCells | index.js:509-559 | an attempt proposes the right number of tiles for its shape, all on the board |
| Placement.PlacementIsFirstFit | index.js:504-575 | a generator returns the shape at the first of its 50 anchors where every tile fits, and returns [] exactly when none of the 50 fits |
| Placement.PlacementFits | index.js:561-571 | every tile of a placed shape lies on the board and is not occupied |
| Placement.GenerateBarrierPattern | index.js:504-575 | the retry loop returns the placement specification's result for the chosen pattern |
| Placement.GenerateBonusPattern | index.js:604-641 | the retry loop returns the placement specification's result for the bonus side |
| Placement.FoodSample | index.js:864-867 | a food sample lies on the board |
| Placement.FoodIsFirstFree | index.js:856-874 | the food is the first free tile among 100 samples, and when all 100 are occupied it is the last sample, which may be occupied |
| Placement.GenerateFood | index.js:856-874 | the do-while loop returns the food specification's result |
| Timers.Countdown | index.js:460-471 | the filter keeps no more entities than it was given, and each one it keeps has a positive countdown |
| Timers.CountdownMembers | index.js:460-471 | an entity is kept exactly when it is the decremented form of an input entity whose countdown outlasts the tick |
| Timers.CountdownKeepsAll | index.js:460-471 | when every countdown outlasts the tick, every entity is kept, decremented, in order |
| Timers.Promoted | index.js:446-458 | the barriers made from warnings that run out are no more than the warnings, and each starts with a fresh 5000 ms countdown |
| Timers.WarningsAccountedFor | index.js:446-458 | every warning either stays a warning, decremented, or becomes an active barrier with the same tiles; none is lost |
| Timers.PromotedSurviveTheirTick | index.js:445-464 | a barrier promoted during a tick is decremented again in that tick and survives it with 5000 minus the tick period |
| Timers.TickWarnings | index.js:446-458 | the warning loop yields the warnings that stay and the barriers promoted, as the specification functions say |
| Timers.TickDown | index.js:460-471 | the barrier and bonus loops yield the countdown specification's result |
| Step.DetectCollision | index.js:684-715 | the wall is checked first, then every current tile of the snake (the tail included), then active barriers; the result names the first that holds, and no collision exactly when none holds |
| Step.Uneaten | index.js:737-748 | no bonus left after the filter lies under the head |
| Step.EatenValue | index.js:737-748 | the points gained are positive exactly when a bonus lies under the head |
| Step.UneatenMembers | index.js:737-748 | a bonus survives exactly when the head misses it, so the bonuses are unchanged exactly when none is hit |
| Step.EatBonuses | index.js:736-748 | the bonus loop yields the bonuses kept, the points gained and whether any was eaten, as the specification functions say |
| Step.StepOfMeetsEffect | index.js:682-758 | the step specification keeps `update`'s promises: a collision happens exactly on a wall, own-body or barrier hit, in that order, and then stops and unstarts the game with the high score the maximum of itself and the score and nothing else changed; food is eaten exactly when it lies under the head, a bonus exactly when no food does and a bonus does; barriers and warnings are untouched |
| Step.StepOfBounds | index.js:682-758 | one step grows the snake by one exactly on food or a bonus, never lowers score or food count, raises the level by at most one, never slows the tick period, and stops the game exactly on a collision |
| Step.AdvanceOfByCases | index.js:717-753 | a step onto a free tile that meets the per-case effects (food, else bonus, else move) is exactly the step specification's advance |
| Game.TimerDue | index.js:431-442 | a spawn timer is never due below level 2, and from level 2 it is due exactly when more than its frequency has passed since it was last reset |
| Game.AfterTimersKeepsPromoted | index.js:445-464 | on the board after the timers, every warning that ran out is an active barrier with 5000 minus the tick period left |
| Game.SpawnedOnFreeTiles | index.js:431-443 | the spawn phase only appends; with neither timer due nothing changes; a new warning or bonus lies on tiles that were free, the bonus clear of a warning spawned in the same call |
| Game.SnakeGame.constructor | index.js:103-132 | a new game: one-tile snake at (10, 10), stationary, empty queue, food placed by the food specification, counters at their initial values, pacing from the selected preset |
| Game.SnakeGame.ResetGameState | index.js:103-132 | the reset state; the new food avoids the new snake and the old food, barriers and bonuses, which are cleared only after it is placed |
| Game.SnakeGame.StartGame | index.js:302-328 | a first start moves right and starts both spawn timers now; every start runs and unpauses, and keeps the queue steady |
| Game.SnakeGame.TogglePause | index.js:330-356 | only a started game pauses or resumes, and then running is the opposite of paused; the queue stays steady |
| Game.SnakeGame.GameOver | index.js:1323-1347 | the game stops and the high score becomes the maximum of itself and the score |
| Game.SnakeGame.ChangeDifficulty | index.js:193-199 | the pacing follows the selector only while the game is not running |
| Game.SnakeGame.QueueDirection | index.js:243-251 | the queue becomes what the queue specification says, at most one entry longer |
| Game.SnakeGame.ProcessMovementQueue | index.js:292-300 | the velocity and queue become what the dequeue specification says |
| Game.SnakeGame.IncreaseSpeed | index.js:841-854 | the tick period takes one level-up step and never grows |
| Game.SnakeGame.Update | index.js:682-758 | the outcome, the board and the counters are exactly what `Step.StepOf` gives for the head one tile along the velocity, so everything `Step.StepOfMeetsEffect` proves about that step holds of the call |
| Game.SnakeGame.EatFood | index.js:721-731 | score and food count rise by one, new food is placed, and level and speed step exactly when the score becomes a multiple of 5 |
| Game.SnakeGame.Advance | index.js:717-753 | the head goes in front; food under it is eaten (score and count up by one, new food from the food specification, a level-up exactly at a multiple of 5), else a bonus under it is eaten with its value and removed, else the tail goes; the game never crashes here |
| Game.SnakeGame.LevelUp | index.js:727-731 | the level rises by one and the tick period takes one step of the speed formula |
| Game.SnakeGame.PlaceFood | index.js:723 | the food becomes what the food specification gives for the current board |
| Game.SnakeGame.EatBonusOrShift | index.js:734-753 | a bonus under the head is removed and scores its value and the tail is kept; otherwise the tail is dropped |
| Game.SnakeGame.SpawnWarningBarrier | index.js:478-503 | a warning of the chosen pattern with a 2500 ms countdown is appended exactly when a place is found |
| Game.SnakeGame.SpawnBonusItem | index.js:578-602 | a bonus of the chosen type with its lifetime is appended exactly when a place is found |
| Game.SnakeGame.UpdateDynamicElements | index.js:425-476 | from level 2 each due timer spawns and restarts at the current time whether or not a place was found; the board becomes `AfterTimers` of the old board: every countdown drops by the tick period, expired warnings become active barriers that are counted down again and survive the tick with 5000 minus the period (`Game.AfterTimersKeepsPromoted`), and expired barriers and bonuses go |
| Game.SnakeGame.SpawnDue | index.js:431-443 | each timer that is due restarts at the current time and the board gains what the spawn specification places; a timer not due keeps its time |
| Game.SnakeGame.CountDownAll | index.js:445-471 | warnings, barriers and bonuses become their countdowns, expired warnings join the barriers before the barriers are counted down, and each such warning is then an active barrier with 5000 minus the tick period left |
| Game.SnakeGame.Tick | index.js:392-400 | nothing changes unless running and not paused. Otherwise: one queued direction is applied, never a reversal; the outcome and counters are what `Step.StepOf` gives for the head one tile along the new velocity; the board is `AfterTimers` of the stepped board, with timers due as `TimerDue` says for the level the step left, and restarted at the current time exactly when due; the difficulty and the pause flag are kept; the length grows exactly on food or a bonus, the counters only grow, the game stops exactly on a collision, and the queue stays steady |
| Game.SnakeGame.Move | index.js:394-395 | the queue step, then the snake step: the velocity and queue are what the dequeue specification gives; the outcome, board and counters are what `Step.StepOf` gives for the head one tile along that new velocity; the length grows exactly on food or a bonus, the counters only grow, the tick period never grows, the game stops exactly on a collision, and the queue stays steady |
| Game.SnakeGame.HandleKeyPress | index.js:214-241 | an arrow key starts a game that has not started, which restarts both spawn timers, and is then queued; an arrow key on a started game that is paused changes nothing; space toggles pause only when started; r gives the full reset state with new food and keeps the high score and the difficulty; other keys queue nothing; every key but r leaves the snake, food, hazards, counters, pacing, high score and difficulty as they were, and the timers too unless it starts the game; a key that neither restarts, toggles pause nor starts the game leaves the running, paused and started flags as they were; the queue stays steady |
| Game.SnakeGame.PressNonRestart | index.js:217-240 | every key but r: space toggles pause only on a started game and touches neither the queue, the velocity nor the timers; any other key behaves as `PressOther` says |
| Game.SnakeGame.PressOther | index.js:217-240 | an arrow key on a game not started starts it moving right with both timers restarted now and is then queued; any other such key keeps every flag, the velocity and the timers, and is queued exactly when the game is running and not paused |
| Game.SnakeGame.Steer | index.js:237-240 | a key is queued, as the queue specification says, only while running and not paused, and otherwise the queue is untouched; the queue stays steady |

## Left out

- Rendering (`draw*`, `forceInitialDraw`), particles, `animationTime` and bonus rotation: output and floating point; explosions and particle bursts are reported only as the `Outcome` of `update`.
- DOM wiring, overlays, buttons and `updateUI` / `updateTimeDisplay`: user interface; the button handlers call the modelled methods directly.
- localStorage: the statistics counters are not modelled; the high score is a field, and `resetGameState`'s reload of it is modelled as keeping its value, since the stored copy is written whenever the field changes.
- `setInterval` / `clearInterval` / `setTimeout`: a tick is a call of `Tick`, the tick period is the `gameSpeed` field; the re-arming in `increaseSpeed` and the delayed start of `playAgain` are not modelled.
- try/catch and `console.error`: error logging only.
- `tileCount` is an integer of at least 4; the canvas width it is computed from is not part of this model.
- `generateFood` starts from a `{ x: 5, y: 5 }` default (index.js:857), but the do-while always overwrites it with the first sample; after 100 occupied samples the last sample is kept, so food can land on an occupied tile (`Placement.FoodIsFirstFree`), and "food never on the snake" is not an invariant of the model. The default survives only through an exception, which is not modelled.
