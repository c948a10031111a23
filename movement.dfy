/**
 * The direction input queue: arrow keys become velocities, which are
 * validated and buffered (at most two) until the next tick takes one.
 */
module Movement {
  import opened Wrappers
  import opened Grid

  const MaxQueueSize := 2

  predicate IsArrowKey(key: string)
  {
    key == "ArrowLeft" || key == "ArrowUp" || key == "ArrowRight" || key == "ArrowDown"
  }

  /** `getDirectionFromKey`: each arrow key names one of the four unit velocities. */
  function DirectionFromKey(key: string): (d: Option<Direction>)
    ensures d.Some? <==> IsArrowKey(key)
    ensures d.Some? ==> IsUnit(d.value)
  {
    match key
    case "ArrowLeft" => Some(Left)
    case "ArrowUp" => Some(Up)
    case "ArrowRight" => Some(Right)
    case "ArrowDown" => Some(Down)
    case _ => None
  }

  /**
   * The four arrow keys name four different velocities, and every unit
   * velocity is named by one of them.
   */
  lemma ArrowKeysCoverUnits(d: Direction)
    requires IsUnit(d)
    ensures exists key :: IsArrowKey(key) && DirectionFromKey(key) == Some(d)
    ensures forall k1, k2 :: IsArrowKey(k1) && IsArrowKey(k2) && k1 != k2 ==>
      DirectionFromKey(k1) != DirectionFromKey(k2)
  {
    var key := if d == Left then "ArrowLeft" else if d == Up then "ArrowUp"
      else if d == Right then "ArrowRight" else "ArrowDown";
    assert IsArrowKey(key) && DirectionFromKey(key) == Some(d);
  }

  /**
   * `isValidDirectionChange`: `d` may be queued (or applied) while moving
   * along `current` with `queue` pending.
   */
  function IsValidDirectionChange(current: Direction, queue: seq<Direction>, d: Direction): (valid: bool)
    ensures valid ==> d != current && d != Reverse(current)
    ensures valid ==> queue != [] ==> d != queue[|queue| - 1] && d != Reverse(queue[|queue| - 1])
  {
    if current == Reverse(d) then false
    else if current == d then false
    else if |queue| > 0 && (queue[|queue| - 1] == d || queue[|queue| - 1] == Reverse(d)) then false
    else true
  }

  /**
   * The four rejections are the only ones: a change is valid exactly when
   * it neither repeats nor reverses the current velocity, nor the last
   * queued one if there is one.
   */
  lemma ValidChangeExactly(current: Direction, queue: seq<Direction>, d: Direction)
    ensures IsValidDirectionChange(current, queue, d) <==>
      && d != current && d != Reverse(current)
      && (queue != [] ==> d != queue[|queue| - 1] && d != Reverse(queue[|queue| - 1]))
  {
  }

  /**
   * For unit velocities a change is valid exactly when it turns through a
   * right angle from the current velocity and from the last queued one.
   */
  lemma ValidChangeIsQuarterTurn(current: Direction, queue: seq<Direction>, d: Direction)
    requires IsUnit(current) && IsUnit(d)
    requires queue != [] ==> IsUnit(queue[|queue| - 1])
    ensures IsValidDirectionChange(current, queue, d) <==>
      Perpendicular(current, d) && (queue != [] ==> Perpendicular(queue[|queue| - 1], d))
  {
    QuarterTurn(current, d);
    if queue != [] {
      QuarterTurn(queue[|queue| - 1], d);
    }
  }

  /**
   * Before the first start the snake is stationary; a key is then valid
   * exactly when it neither repeats nor reverses the last queued velocity.
   */
  lemma ValidChangeWhenStationary(queue: seq<Direction>, d: Direction)
    requires IsUnit(d)
    requires queue != [] ==> IsUnit(queue[|queue| - 1])
    ensures IsValidDirectionChange(Stationary, queue, d) <==>
      (queue != [] ==> Perpendicular(queue[|queue| - 1], d))
  {
    if queue != [] {
      QuarterTurn(queue[|queue| - 1], d);
    }
  }

  /**
   * `queueDirection`: the queue after a key press, given what
   * `getDirectionFromKey` made of the key.
   */
  function Queued(current: Direction, queue: seq<Direction>, key: Option<Direction>): (q: seq<Direction>)
    ensures |queue| <= MaxQueueSize ==> |q| <= MaxQueueSize
    ensures q == queue || (
      && |queue| < MaxQueueSize
      && key.Some?
      && IsValidDirectionChange(current, queue, key.value)
      && q == queue + [key.value])
    ensures |queue| < MaxQueueSize && key.Some? && IsValidDirectionChange(current, queue, key.value) ==>
      q == queue + [key.value]
  {
    if |queue| < MaxQueueSize then
      match key
      case Some(d) => if IsValidDirectionChange(current, queue, d) then queue + [d] else queue
      case None => queue
    else
      queue
  }

  /** The velocity and the queue after a tick consumed one entry. */
  datatype Steered = Steered(heading: Direction, queue: seq<Direction>)

  /**
   * `processMovementQueue`: the front entry is removed; it becomes the new
   * velocity only if it still passes validation against the current
   * velocity and what is left of the queue.
   */
  function Dequeued(current: Direction, queue: seq<Direction>): (r: Steered)
    ensures queue == [] ==> r == Steered(current, [])
    ensures queue != [] ==> r.queue == queue[1..]
    ensures r.heading == current || (queue != [] && r.heading == queue[0])
    ensures r.heading == current || (r.heading != Reverse(current) && r.heading != current)
    ensures queue != [] ==> (r.heading != current <==> IsValidDirectionChange(current, queue[1..], queue[0]))
  {
    if |queue| > 0 then
      var next := queue[0];
      if IsValidDirectionChange(current, queue[1..], next) then Steered(next, queue[1..])
      else Steered(current, queue[1..])
    else
      Steered(current, queue)
  }

  /**
   * The state of the queue while the game runs: a unit velocity and at
   * most one pending entry, at a right angle to it.
   */
  ghost predicate Steady(current: Direction, queue: seq<Direction>)
  {
    && IsUnit(current)
    && |queue| <= 1
    && forall i :: 0 <= i < |queue| ==> IsUnit(queue[i]) && Perpendicular(current, queue[i])
  }

  /**
   * With one entry pending, every further key is rejected: no unit
   * velocity is at a right angle both to the current one and to a velocity
   * already at a right angle to it. So the second slot of the queue is
   * never filled while the snake moves.
   */
  lemma SecondIntentRejected(current: Direction, queue: seq<Direction>, key: Option<Direction>)
    requires Steady(current, queue) && |queue| == 1
    requires key.Some? ==> IsUnit(key.value)
    ensures Queued(current, queue, key) == queue
  {
    if key.Some? && IsValidDirectionChange(current, queue, key.value) {
      ValidChangeIsQuarterTurn(current, queue, key.value);
      NoThirdAxis(current, queue[0], key.value);
      assert false;
    }
  }

  /** Two velocities at a right angle to a third are parallel to each other. */
  lemma NoThirdAxis(a: Direction, b: Direction, c: Direction)
    requires IsUnit(a) && IsUnit(b) && IsUnit(c)
    requires Perpendicular(a, b) && Perpendicular(a, c)
    ensures !Perpendicular(b, c)
  {
  }

  /** A key press keeps the queue steady. */
  lemma QueuedKeepsSteady(current: Direction, queue: seq<Direction>, key: Option<Direction>)
    requires Steady(current, queue)
    requires key.Some? ==> IsUnit(key.value)
    ensures Steady(current, Queued(current, queue, key))
  {
    if |queue| == 1 {
      SecondIntentRejected(current, queue, key);
    } else if key.Some? && IsValidDirectionChange(current, queue, key.value) {
      ValidChangeIsQuarterTurn(current, queue, key.value);
      assert Queued(current, queue, key) == [key.value];
      assert Steady(current, [key.value]);
    } else {
      assert Queued(current, queue, key) == queue;
    }
  }

  /**
   * From a steady queue the tick always applies the pending entry (its
   * re-validation cannot fail) and leaves the queue empty.
   */
  lemma SteadyFrontApplies(current: Direction, queue: seq<Direction>)
    requires Steady(current, queue)
    ensures Dequeued(current, queue) == Steered(if queue == [] then current else queue[0], [])
    ensures Steady(Dequeued(current, queue).heading, [])
  {
    if queue != [] {
      QuarterTurn(current, queue[0]);
    }
  }
}
