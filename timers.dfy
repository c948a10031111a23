/**
 * The countdowns of `updateDynamicElements`: every timed entity loses one
 * tick period; a warning that runs out becomes an active barrier, an
 * active barrier or a bonus that runs out disappears.
 */
module Timers {
  import opened Entities

  /** `e` after one tick of `dt` milliseconds. */
  function Decremented<E>(e: Timed<E>, dt: int): Timed<E>
  {
    Timed(e.item, e.timeLeft - dt)
  }

  /**
   * The `filter` that decrements every countdown and keeps the entities
   * whose countdown is still positive, in order.
   */
  function Countdown<E>(xs: seq<Timed<E>>, dt: int): (r: seq<Timed<E>>)
    ensures |r| <= |xs|
    ensures forall i :: 0 <= i < |r| ==> r[i].timeLeft > 0
    decreases |xs|
  {
    if xs == [] then []
    else
      var e := Decremented(xs[|xs| - 1], dt);
      Countdown(xs[..|xs| - 1], dt) + (if e.timeLeft > 0 then [e] else [])
  }

  /**
   * An entity is in the result exactly when it is the decremented form of
   * an entity of the input whose countdown outlasts the tick.
   */
  lemma {:induction false} CountdownMembers<E>(xs: seq<Timed<E>>, dt: int, x: Timed<E>)
    ensures x in Countdown(xs, dt) <==>
      exists i :: 0 <= i < |xs| && xs[i].timeLeft > dt && x == Decremented(xs[i], dt)
    decreases |xs|
  {
    if xs != [] {
      var init := xs[..|xs| - 1];
      CountdownMembers(init, dt, x);
      if exists i :: 0 <= i < |init| && init[i].timeLeft > dt && x == Decremented(init[i], dt) {
        var i :| 0 <= i < |init| && init[i].timeLeft > dt && x == Decremented(init[i], dt);
        assert xs[i] == init[i];
      }
    }
  }

  /** When every countdown outlasts the tick nothing is removed. */
  lemma {:induction false} CountdownKeepsAll<E>(xs: seq<Timed<E>>, dt: int)
    requires forall i :: 0 <= i < |xs| ==> xs[i].timeLeft > dt
    ensures |Countdown(xs, dt)| == |xs|
    ensures forall i :: 0 <= i < |xs| ==> Countdown(xs, dt)[i] == Decremented(xs[i], dt)
    decreases |xs|
  {
    if xs != [] {
      CountdownKeepsAll(xs[..|xs| - 1], dt);
    }
  }

  /** The active barriers that the warnings running out this tick become, in order. */
  function Promoted(ws: seq<Timed<Barrier>>, dt: int): (r: seq<Timed<Barrier>>)
    ensures |r| <= |ws|
    ensures forall i :: 0 <= i < |r| ==> r[i].timeLeft == ActiveTime
    decreases |ws|
  {
    if ws == [] then []
    else
      var w := ws[|ws| - 1];
      Promoted(ws[..|ws| - 1], dt) + (if w.timeLeft - dt <= 0 then [Timed(w.item, ActiveTime)] else [])
  }

  /**
   * Each warning either stays a warning, with its countdown decremented,
   * or turns into an active barrier with the same shape and tiles and a
   * fresh countdown: no warning disappears without becoming a barrier.
   */
  lemma {:induction false} WarningsAccountedFor(ws: seq<Timed<Barrier>>, dt: int)
    ensures |Countdown(ws, dt)| + |Promoted(ws, dt)| == |ws|
    ensures forall i :: 0 <= i < |ws| && ws[i].timeLeft > dt ==> Decremented(ws[i], dt) in Countdown(ws, dt)
    ensures forall i :: 0 <= i < |ws| && ws[i].timeLeft <= dt ==> Timed(ws[i].item, ActiveTime) in Promoted(ws, dt)
    decreases |ws|
  {
    if ws != [] {
      var init := ws[..|ws| - 1];
      WarningsAccountedFor(init, dt);
      forall i | 0 <= i < |ws| - 1
        ensures ws[i] == init[i]
      {
      }
    }
  }

  /**
   * A barrier promoted during a tick is decremented again in the same tick
   * and, as the tick period is shorter than its lifetime, survives it.
   */
  lemma PromotedSurviveTheirTick(bs: seq<Timed<Barrier>>, ws: seq<Timed<Barrier>>, dt: int)
    requires dt < ActiveTime
    ensures forall i :: 0 <= i < |ws| && ws[i].timeLeft <= dt ==>
      Timed(ws[i].item, ActiveTime - dt) in Countdown(bs + Promoted(ws, dt), dt)
  {
    WarningsAccountedFor(ws, dt);
    var all := bs + Promoted(ws, dt);
    forall i | 0 <= i < |ws| && ws[i].timeLeft <= dt
      ensures Timed(ws[i].item, ActiveTime - dt) in Countdown(all, dt)
    {
      var p := Timed(ws[i].item, ActiveTime);
      assert p in all;
      var j :| 0 <= j < |all| && all[j] == p;
      CountdownMembers(all, dt, Decremented(p, dt));
    }
  }

  /** The warning countdown of `updateDynamicElements`: still warning, and promoted. */
  method TickWarnings(ws: seq<Timed<Barrier>>, dt: int) returns (still: seq<Timed<Barrier>>, promoted: seq<Timed<Barrier>>)
    ensures still == Countdown(ws, dt)
    ensures promoted == Promoted(ws, dt)
  {
    still, promoted := [], [];
    var i := 0;
    while i < |ws|
      invariant 0 <= i <= |ws|
      invariant still == Countdown(ws[..i], dt)
      invariant promoted == Promoted(ws[..i], dt)
    {
      var warning := Decremented(ws[i], dt);
      if warning.timeLeft <= 0 {
        promoted := promoted + [Timed(warning.item, ActiveTime)];
      } else {
        still := still + [warning];
      }
      assert ws[..i + 1][..i] == ws[..i];
      i := i + 1;
    }
    assert ws[..i] == ws;
  }

  /** The barrier and bonus countdowns of `updateDynamicElements`. */
  method TickDown<E>(xs: seq<Timed<E>>, dt: int) returns (live: seq<Timed<E>>)
    ensures live == Countdown(xs, dt)
  {
    live := [];
    var i := 0;
    while i < |xs|
      invariant 0 <= i <= |xs|
      invariant live == Countdown(xs[..i], dt)
    {
      var e := Decremented(xs[i], dt);
      if e.timeLeft > 0 {
        live := live + [e];
      }
      assert xs[..i + 1][..i] == xs[..i];
      i := i + 1;
    }
    assert xs[..i] == xs;
  }
}
