/**
 * Board geometry shared by the whole engine: tiles, velocities and the
 * bounds of the square board of `tileCount` x `tileCount` tiles.
 */
module Grid {
  /** A tile of the board; (0, 0) is the top-left tile. */
  datatype Cell = Cell(x: int, y: int)

  /** A velocity (dx, dy) in tiles per tick, the pair the game keeps in `dx` and `dy`. */
  datatype Direction = Direction(dx: int, dy: int)

  /** The velocity before the first start: the snake does not move. */
  const Stationary := Direction(0, 0)
  const Left := Direction(-1, 0)
  const Up := Direction(0, -1)
  const Right := Direction(1, 0)
  const Down := Direction(0, 1)

  /** The four velocities an arrow key can select. */
  predicate IsUnit(d: Direction)
  {
    d == Left || d == Up || d == Right || d == Down
  }

  function Reverse(d: Direction): Direction
  {
    Direction(-d.dx, -d.dy)
  }

  /** `d` turned a quarter turn counter-clockwise on the screen (y grows downwards). */
  function TurnLeft(d: Direction): Direction
  {
    Direction(d.dy, -d.dx)
  }

  /** `d` turned a quarter turn clockwise on the screen. */
  function TurnRight(d: Direction): Direction
  {
    Direction(-d.dy, d.dx)
  }

  /** `b` is `a` turned through a right angle, either way. */
  predicate Perpendicular(a: Direction, b: Direction)
  {
    b == TurnLeft(a) || b == TurnRight(a)
  }

  predicate InBounds(n: int, c: Cell)
  {
    0 <= c.x < n && 0 <= c.y < n
  }

  /** The tile one step from `c` along `d`. */
  function Neighbour(c: Cell, d: Direction): Cell
  {
    Cell(c.x + d.dx, c.y + d.dy)
  }

  /** No tile occurs twice: the first tile does not occur again, nor does any later one. */
  predicate Distinct(cells: seq<Cell>)
  {
    |cells| == 0 || (cells[0] !in cells[1..] && Distinct(cells[1..]))
  }

  /** `Distinct` says exactly that no two positions of the list hold the same tile. */
  lemma {:induction false} DistinctPairwise(cells: seq<Cell>)
    ensures Distinct(cells) <==> forall i, j :: 0 <= i < j < |cells| ==> cells[i] != cells[j]
  {
    if |cells| > 0 {
      var rest := cells[1..];
      DistinctPairwise(rest);
      if Distinct(cells) {
        forall i, j | 0 <= i < j < |cells| ensures cells[i] != cells[j] {
          if i > 0 {
            assert cells[i] == rest[i - 1] && cells[j] == rest[j - 1];
          } else {
            assert cells[j] == rest[j - 1];
          }
        }
      }
      if forall i, j :: 0 <= i < j < |cells| ==> cells[i] != cells[j] {
        forall i, j | 0 <= i < j < |rest| ensures rest[i] != rest[j] {
          assert rest[i] == cells[i + 1] && rest[j] == cells[j + 1];
        }
      }
    }
  }

  /** A tile that is not in a distinct list can go in front of it. */
  lemma DistinctPrepend(c: Cell, cells: seq<Cell>)
    requires Distinct(cells) && c !in cells
    ensures Distinct([c] + cells)
  {
    assert ([c] + cells)[1..] == cells;
  }

  /** Every prefix of a distinct list is distinct. */
  lemma {:induction false} DistinctPrefix(cells: seq<Cell>, k: nat)
    requires Distinct(cells) && k <= |cells|
    ensures Distinct(cells[..k])
  {
    if k > 0 {
      DistinctPrefix(cells[1..], k - 1);
      assert cells[..k][1..] == cells[1..][..k - 1];
    }
  }

  /**
   * Between two unit velocities, "neither the same nor the reverse" is
   * exactly "at a right angle": the rule the movement queue uses is a
   * quarter-turn rule.
   */
  lemma QuarterTurn(a: Direction, b: Direction)
    requires IsUnit(a) && IsUnit(b)
    ensures (a != b && a != Reverse(b)) <==> Perpendicular(a, b)
  {
  }
}
