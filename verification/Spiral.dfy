/**
 Filling a matrix with 1, 2, 3, ... along an inward clockwise spiral.

 `Value` says in closed form which number belongs in which cell. It mentions no loop and
 no counter: it is the definition both fillers are measured against.
 */
module Spiral {
  import opened Sums

  /** The ring a cell lies on: its distance from the nearest border. */
  function Ring(rows: int, columns: int, r: int, c: int): int {
    var fromTopLeft := if r < c then r else c;
    var fromBottomRight := if rows - 1 - r < columns - 1 - c then rows - 1 - r else columns - 1 - c;
    if fromTopLeft < fromBottomRight then fromTopLeft else fromBottomRight
  }

  /** How many cells lie outside ring `d`: the sizes of the full rings around it. */
  function Before(rows: int, columns: int, d: int): int
    decreases d
  {
    if d <= 0 then 0
    else Before(rows, columns, d - 1) + 2 * (columns - 2 * (d - 1)) + 2 * (rows - 2 * (d - 1)) - 4
  }

  /** The number of a cell: those outside its ring, then along the ring from its top left
      corner to the right, down, to the left and up. */
  function Value(rows: int, columns: int, r: int, c: int): int {
    var d := Ring(rows, columns, r, c);
    var w, h := columns - 2 * d, rows - 2 * d;
    Before(rows, columns, d) +
    if r == d then c - d + 1
    else if c == columns - 1 - d then w + (r - d)
    else if r == rows - 1 - d then w + h - 1 + (columns - 1 - d - c)
    else 2 * w + h - 2 + (rows - 1 - d - r)
  }

  predicate InMatrix(rows: int, columns: int, r: int, c: int) {
    0 <= r < rows && 0 <= c < columns
  }

  // ---------------------------------------------------------------- Value is a bijection

  /** What lies outside ring `d` is the matrix without the rectangle that is left. */
  lemma {:induction false} BeforeClosedForm(rows: int, columns: int, d: nat, h: int, w: int)
    requires h == rows - 2 * d && w == columns - 2 * d
    ensures Before(rows, columns, d) == rows * columns - h * w
  {
    if d > 0 {
      BeforeClosedForm(rows, columns, d - 1, h + 2, w + 2);
      assert (h + 2) * (w + 2) == h * w + 2 * h + 2 * w + 4;
    }
  }

  /** A ring with room inside it ends where the next begins; the last ring ends the matrix. */
  lemma RingBounds(rows: int, columns: int, r: int, c: int)
    requires InMatrix(rows, columns, r, c)
    ensures var d := Ring(rows, columns, r, c);
      && 0 <= 2 * d < rows && 2 * d < columns
      && Before(rows, columns, d) < Value(rows, columns, r, c) <= rows * columns
      && (2 * d + 2 < rows && 2 * d + 2 < columns ==> Value(rows, columns, r, c) <= Before(rows, columns, d + 1))
  {
    var d := Ring(rows, columns, r, c);
    var w, h := columns - 2 * d, rows - 2 * d;
    if h <= 2 || w <= 2 {
      LastRing(rows, columns, d);
    } else {
      RoomInside(rows, columns, d + 1, h - 2, w - 2);
    }
  }

  lemma RoomInside(rows: int, columns: int, d: nat, h: nat, w: nat)
    requires h == rows - 2 * d && w == columns - 2 * d
    ensures Before(rows, columns, d) <= rows * columns
  {
    BeforeClosedForm(rows, columns, d, h, w);
  }

  lemma {:induction false} BeforeGrows(rows: int, columns: int, d: int, e: int)
    requires 0 <= d <= e && 2 * e < rows && 2 * e < columns
    ensures Before(rows, columns, d) <= Before(rows, columns, e)
    decreases e - d
  {
    if d < e {
      BeforeGrows(rows, columns, d + 1, e);
    }
  }

  /** An outer ring is numbered before an inner one. */
  lemma OuterFirst(rows: int, columns: int, r: int, c: int, r': int, c': int)
    requires InMatrix(rows, columns, r, c) && InMatrix(rows, columns, r', c')
    requires Ring(rows, columns, r, c) < Ring(rows, columns, r', c')
    ensures Value(rows, columns, r, c) < Value(rows, columns, r', c')
  {
    RingBounds(rows, columns, r, c);
    RingBounds(rows, columns, r', c');
    BeforeGrows(rows, columns, Ring(rows, columns, r, c) + 1, Ring(rows, columns, r', c'));
  }

  lemma ValueInjective(rows: int, columns: int, r: int, c: int, r': int, c': int)
    requires InMatrix(rows, columns, r, c) && InMatrix(rows, columns, r', c')
    requires Value(rows, columns, r, c) == Value(rows, columns, r', c')
    ensures r == r' && c == c'
  {
    var d, d' := Ring(rows, columns, r, c), Ring(rows, columns, r', c');
    if d < d' {
      OuterFirst(rows, columns, r, c, r', c');
    } else if d' < d {
      OuterFirst(rows, columns, r', c', r, c);
    }
  }

  lemma {:induction false} BeforeInside(rows: int, columns: int, d: int)
    requires d >= 1
    ensures Before(rows, columns, d) == 2 * rows + 2 * columns - 4 + Before(rows - 2, columns - 2, d - 1)
    decreases d
  {
    if d > 1 {
      BeforeInside(rows, columns, d - 1);
    } else {
      assert Before(rows, columns, 0) == 0;
    }
  }

  /** The numbers side by side: along the top, down the right, back along the bottom, up the
      left, and then on in the same way in the matrix without its border. */
  lemma SpiralPeels(rows: int, columns: int, r: int, c: int)
    requires InMatrix(rows, columns, r, c)
    ensures var v := Value(rows, columns, r, c);
      if r == 0 then v == c + 1
      else if c == columns - 1 then v == columns + r
      else if r == rows - 1 then v == columns + (rows - 1) + (columns - 1 - c)
      else if c == 0 then v == columns + (rows - 1) + (columns - 1) + (rows - 1 - r)
      else v == 2 * rows + 2 * columns - 4 + Value(rows - 2, columns - 2, r - 1, c - 1)
  {
    var d := Ring(rows, columns, r, c);
    if d >= 1 {
      BeforeInside(rows, columns, d);
      assert Ring(rows - 2, columns - 2, r - 1, c - 1) == d - 1;
    }
  }

  /** The cell after (r, c) on the spiral. */
  function Step(rows: int, columns: int, r: int, c: int): (int, int) {
    var d := Ring(rows, columns, r, c);
    if r == d && c < columns - 1 - d then (r, c + 1)
    else if c == columns - 1 - d && r < rows - 1 - d then (r + 1, c)
    else if r == rows - 1 - d && c > d then (r, c - 1)
    else if r > d + 1 then (r - 1, c)
    else (d + 1, d + 1)
  }

  predicate Neighbours(r: int, c: int, r': int, c': int) {
    || (r == r' && (c' == c + 1 || c' == c - 1))
    || (c == c' && (r' == r + 1 || r' == r - 1))
  }

  /** Every cell but the last has a neighbour with the next number, across corners and rings. */
  lemma NextIsNeighbour(rows: int, columns: int, r: int, c: int)
    requires InMatrix(rows, columns, r, c)
    requires Value(rows, columns, r, c) < rows * columns
    ensures var (r', c') := Step(rows, columns, r, c);
      && InMatrix(rows, columns, r', c')
      && Value(rows, columns, r', c') == Value(rows, columns, r, c) + 1
      && Neighbours(r, c, r', c')
  {
    var d := Ring(rows, columns, r, c);
    var w, h := columns - 2 * d, rows - 2 * d;
    var (r', c') := Step(rows, columns, r, c);
    RingBounds(rows, columns, r, c);
    if h <= 2 || w <= 2 {
      LastRing(rows, columns, d);
    }
  }

  /** The numbers of a ring with nothing inside it run up to the size of the matrix. */
  lemma LastRing(rows: int, columns: int, d: int)
    requires 0 <= d
    requires 1 <= rows - 2 * d && 1 <= columns - 2 * d
    requires rows - 2 * d <= 2 || columns - 2 * d <= 2
    ensures var w, h := columns - 2 * d, rows - 2 * d;
      rows * columns - Before(rows, columns, d) ==
        if h == 1 then w else if w == 1 then h else 2 * w + 2 * h - 4
  {
    BeforeClosedForm(rows, columns, d, rows - 2 * d, columns - 2 * d);
  }

  /** The cell numbered `v`, found by walking the spiral. */
  function Cell(rows: int, columns: int, v: int): (cell: (int, int))
    requires 1 <= rows && 1 <= columns && 1 <= v <= rows * columns
    ensures InMatrix(rows, columns, cell.0, cell.1) && Value(rows, columns, cell.0, cell.1) == v
    decreases v
  {
    if v == 1 then (0, 0)
    else
      var (r, c) := Cell(rows, columns, v - 1);
      NextIsNeighbour(rows, columns, r, c);
      Step(rows, columns, r, c)
  }

  /** Each number from 1 to the size of the matrix is in exactly one cell, and each cell
      holds such a number. */
  lemma EachNumberOnce(rows: int, columns: int, v: int)
    requires 1 <= rows && 1 <= columns
    ensures 1 <= v <= rows * columns <==>
              exists r, c :: InMatrix(rows, columns, r, c) && Value(rows, columns, r, c) == v
    ensures forall r, c, r', c' ::
              && InMatrix(rows, columns, r, c) && Value(rows, columns, r, c) == v
              && InMatrix(rows, columns, r', c') && Value(rows, columns, r', c') == v
              ==> r == r' && c == c'
  {
    if 1 <= v <= rows * columns {
      var (r, c) := Cell(rows, columns, v);
      assert Value(rows, columns, r, c) == v;
    }
    forall r, c | InMatrix(rows, columns, r, c) && Value(rows, columns, r, c) == v
      ensures 1 <= v <= rows * columns
    {
      RingBounds(rows, columns, r, c);
      BeforeGrows(rows, columns, 0, Ring(rows, columns, r, c));
    }
    forall r, c, r', c' |
      && InMatrix(rows, columns, r, c) && Value(rows, columns, r, c) == v
      && InMatrix(rows, columns, r', c') && Value(rows, columns, r', c') == v
      ensures r == r' && c == c'
    {
      ValueInjective(rows, columns, r, c, r', c');
    }
  }

  /** The cells in the order of their numbers. */
  function Path(rows: int, columns: int): (path: seq<(int, int)>)
    requires 1 <= rows && 1 <= columns
    ensures |path| == rows * columns
  {
    ProductIsNatural(rows, columns);
    seq(rows * columns, k requires 0 <= k < rows * columns => Cell(rows, columns, k + 1))
  }

  lemma PathStep(rows: int, columns: int, k: int)
    requires 1 <= rows && 1 <= columns && 0 <= k && k + 1 < rows * columns
    ensures var (a, b) := (Path(rows, columns)[k], Path(rows, columns)[k + 1]);
      Neighbours(a.0, a.1, b.0, b.1)
  {
    var (r, c) := Cell(rows, columns, k + 1);
    NextIsNeighbour(rows, columns, r, c);
  }

  lemma OnPath(rows: int, columns: int, r: int, c: int)
    requires 1 <= rows && 1 <= columns && InMatrix(rows, columns, r, c)
    ensures 1 <= Value(rows, columns, r, c) <= rows * columns
    ensures Path(rows, columns)[Value(rows, columns, r, c) - 1] == (r, c)
  {
    var v := Value(rows, columns, r, c);
    RingBounds(rows, columns, r, c);
    BeforeGrows(rows, columns, 0, Ring(rows, columns, r, c));
    var cell := Cell(rows, columns, v);
    ValueInjective(rows, columns, r, c, cell.0, cell.1);
  }

  /** Walking the numbers upwards is a Hamiltonian path: it starts in the top left corner,
      steps to neighbouring cells, visits every cell and none twice. */
  lemma SpiralIsAPath(rows: int, columns: int)
    requires 1 <= rows && 1 <= columns
    ensures var path := Path(rows, columns);
      && path != [] && path[0] == (0, 0)
      && (forall k :: 0 <= k < |path| - 1 ==> Neighbours(path[k].0, path[k].1, path[k + 1].0, path[k + 1].1))
      && (forall r, c :: InMatrix(rows, columns, r, c) ==> (r, c) in path)
      && (forall j, k :: 0 <= j < k < |path| ==> path[j] != path[k])
  {
    var path := Path(rows, columns);
    OnPath(rows, columns, 0, 0);
    forall k | 0 <= k < |path| - 1
      ensures Neighbours(path[k].0, path[k].1, path[k + 1].0, path[k + 1].1)
    {
      PathStep(rows, columns, k);
    }
    forall r, c | InMatrix(rows, columns, r, c)
      ensures (r, c) in path
    {
      OnPath(rows, columns, r, c);
    }
    forall j, k | 0 <= j < k < |path|
      ensures path[j] != path[k]
    {
      assert Value(rows, columns, path[j].0, path[j].1) == j + 1;
      assert Value(rows, columns, path[k].0, path[k].1) == k + 1;
    }
  }
}
