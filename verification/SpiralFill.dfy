/**
 The program that fills a two-dimensional array. Its counter and indices are 32-bit
 unsigned numbers, which wrap: `rows - depth` does, in the last rounds of a matrix more
 than twice as wide as it is high. The methods show that no wrapped value is ever used to write.
 */
module SpiralFill {
  import opened Spiral

  const WORD := 0x1_0000_0000

  /** The value an unsigned 32-bit computation leaves behind. */
  function U32(x: int): nat {
    if 0 <= x < WORD then x else x % WORD
  }

  /** Numbers from 0 to 4294967295 stay, and others come back in steps of 4294967296. */
  lemma U32Is(x: int)
    ensures 0 <= U32(x) <= 4294967295
    ensures exists k: int :: x == U32(x) + k * 4294967296
  {
    if 0 <= x < WORD {
      assert x == U32(x) + 0 * 4294967296;
    } else {
      assert x == U32(x) + (x / WORD) * 4294967296;
    }
  }

  predicate ValidShape(rows: nat, columns: nat) {
    2 <= rows < WORD && 2 <= columns < WORD && rows * columns < WORD
  }

  predicate HasRing(rows: int, columns: int, d: int) {
    0 <= d && 2 * d < rows && 2 * d < columns
  }

  /** The counter after `d` full rings, and after each side of ring `d`. */
  function AtRing(rows: int, columns: int, d: int): int {
    if HasRing(rows, columns, d) then Before(rows, columns, d) else rows * columns
  }

  function AfterTop(rows: int, columns: int, d: int): int {
    if HasRing(rows, columns, d) then Before(rows, columns, d) + (columns - 2 * d) else rows * columns
  }

  function AfterRight(rows: int, columns: int, d: int): int {
    if HasRing(rows, columns, d) && 2 * d + 1 < rows
    then Before(rows, columns, d) + (columns - 2 * d) + (rows - 2 * d) - 1
    else rows * columns
  }

  function AfterBottom(rows: int, columns: int, d: int): int {
    if HasRing(rows, columns, d) && 2 * d + 1 < rows && 2 * d + 1 < columns
    then Before(rows, columns, d) + 2 * (columns - 2 * d) + (rows - 2 * d) - 3
    else rows * columns
  }

  lemma RingIsRoom(rows: int, columns: int, d: int)
    requires HasRing(rows, columns, d)
    ensures Before(rows, columns, d) < AfterTop(rows, columns, d) <= rows * columns
    ensures AfterTop(rows, columns, d) <= AfterRight(rows, columns, d) <= AfterBottom(rows, columns, d)
         <= AtRing(rows, columns, d + 1) <= rows * columns
    ensures 2 * d + 1 == rows ==> AfterTop(rows, columns, d) == rows * columns
    ensures 2 * d + 1 < rows ==> AfterTop(rows, columns, d) < rows * columns
    ensures 2 * d + 1 == columns ==> AfterRight(rows, columns, d) == rows * columns
    ensures 2 * d + 1 < rows && 2 * d + 1 < columns ==>
              AfterBottom(rows, columns, d) + (rows - 2 * d) - 1 == AtRing(rows, columns, d + 1)
  {
    if rows - 2 * d <= 2 || columns - 2 * d <= 2 {
      LastRing(rows, columns, d);
    } else {
      RoomInside(rows, columns, d + 1, rows - 2 * d - 2, columns - 2 * d - 2);
    }
  }

  /** No other cell has the number of (row, column). */
  lemma OnlyCell(rows: int, columns: int, row: int, column: int)
    requires InMatrix(rows, columns, row, column)
    ensures forall r, c :: InMatrix(rows, columns, r, c) && Value(rows, columns, r, c) == Value(rows, columns, row, column)
              ==> r == row && c == column
  {
    forall r, c | InMatrix(rows, columns, r, c) && Value(rows, columns, r, c) == Value(rows, columns, row, column)
      ensures r == row && c == column
    {
      ValueInjective(rows, columns, r, c, row, column);
    }
  }

  // ---------------------------------------------------------------- two-dimensional array

  /** The cells numbered up to `k` hold their numbers. */
  ghost predicate Filled(rows: nat, columns: nat, mtrx: array2<nat>, k: int)
    reads mtrx
  {
    && mtrx.Length0 == rows && mtrx.Length1 == columns
    && forall r, c :: InMatrix(rows, columns, r, c) && Value(rows, columns, r, c) <= k
         ==> mtrx[r, c] == Value(rows, columns, r, c)
  }

  /** mtrx[row][column] = ++counter */
  method Put(rows: nat, columns: nat, mtrx: array2<nat>, row: nat, column: nat, counter: nat) returns (next: nat)
    requires Filled(rows, columns, mtrx, counter) && counter + 1 < WORD
    requires InMatrix(rows, columns, row, column) && Value(rows, columns, row, column) == counter + 1
    modifies mtrx
    ensures next == counter + 1 && Filled(rows, columns, mtrx, next)
  {
    OnlyCell(rows, columns, row, column);
    next := U32(counter + 1);
    mtrx[row, column] := next;
  }

  method TopRow(rows: nat, columns: nat, mtrx: array2<nat>, depth: nat, start: nat) returns (counter: nat)
    requires ValidShape(rows, columns) && 2 * depth < columns
    requires start == AtRing(rows, columns, depth) && Filled(rows, columns, mtrx, start)
    modifies mtrx
    ensures counter == AfterTop(rows, columns, depth) && Filled(rows, columns, mtrx, counter)
  {
    counter := start;
    if HasRing(rows, columns, depth) {
      RingIsRoom(rows, columns, depth);
    }
    var row, column := depth, depth;
    while counter < U32(rows * columns) && column < U32(columns - depth)
      invariant Filled(rows, columns, mtrx, counter)
      invariant if HasRing(rows, columns, depth)
                then depth <= column <= columns - depth && counter == Before(rows, columns, depth) + column - depth
                else counter == rows * columns
      decreases rows * columns - counter
    {
      counter := Put(rows, columns, mtrx, row, column, counter);
      column := U32(column + 1);
    }
  }

  method RightColumn(rows: nat, columns: nat, mtrx: array2<nat>, depth: nat, start: nat) returns (counter: nat)
    requires ValidShape(rows, columns) && 2 * depth < columns
    requires start == AfterTop(rows, columns, depth) && Filled(rows, columns, mtrx, start)
    modifies mtrx
    ensures counter == AfterRight(rows, columns, depth) && Filled(rows, columns, mtrx, counter)
  {
    counter := start;
    if HasRing(rows, columns, depth) {
      RingIsRoom(rows, columns, depth);
    }
    var row, column := U32(depth + 1), U32(columns - depth - 1);
    while counter < U32(rows * columns) && row < U32(rows - depth)
      invariant Filled(rows, columns, mtrx, counter)
      invariant if HasRing(rows, columns, depth) && 2 * depth + 1 < rows
                then depth < row <= rows - depth && counter == AfterTop(rows, columns, depth) + row - depth - 1
                else counter == rows * columns
      decreases rows * columns - counter
    {
      counter := Put(rows, columns, mtrx, row, column, counter);
      row := U32(row + 1);
    }
  }

  method BottomRow(rows: nat, columns: nat, mtrx: array2<nat>, depth: nat, start: nat) returns (counter: nat)
    requires ValidShape(rows, columns) && 2 * depth < columns
    requires start == AfterRight(rows, columns, depth) && Filled(rows, columns, mtrx, start)
    modifies mtrx
    ensures counter == AfterBottom(rows, columns, depth) && Filled(rows, columns, mtrx, counter)
  {
    counter := start;
    if HasRing(rows, columns, depth) {
      RingIsRoom(rows, columns, depth);
    }
    var row, column := U32(rows - depth - 1), U32(columns - depth - 2);
    while counter < U32(rows * columns) && column > depth
      invariant Filled(rows, columns, mtrx, counter)
      invariant if HasRing(rows, columns, depth) && 2 * depth + 1 < rows && 2 * depth + 1 < columns
                then depth <= column <= columns - depth - 2
                     && counter == AfterRight(rows, columns, depth) + (columns - depth - 2) - column
                else counter == rows * columns
      decreases rows * columns - counter
    {
      counter := Put(rows, columns, mtrx, row, column, counter);
      column := U32(column - 1);
    }
  }

  method LeftColumn(rows: nat, columns: nat, mtrx: array2<nat>, depth: nat, start: nat) returns (counter: nat)
    requires ValidShape(rows, columns) && 2 * depth < columns
    requires start == AfterBottom(rows, columns, depth) && Filled(rows, columns, mtrx, start)
    modifies mtrx
    ensures counter == AtRing(rows, columns, depth + 1) && Filled(rows, columns, mtrx, counter)
  {
    counter := start;
    if HasRing(rows, columns, depth) {
      RingIsRoom(rows, columns, depth);
    }
    var row, column := U32(rows - depth - 1), depth;
    while counter < U32(rows * columns) && row > depth
      invariant Filled(rows, columns, mtrx, counter)
      invariant if HasRing(rows, columns, depth) && 2 * depth + 1 < rows && 2 * depth + 1 < columns
                then depth <= row <= rows - depth - 1
                     && counter == AfterBottom(rows, columns, depth) + (rows - depth - 1) - row
                else counter == rows * columns
      decreases rows * columns - counter
    {
      counter := Put(rows, columns, mtrx, row, column, counter);
      row := U32(row - 1);
    }
  }

  /** `snake_matrix` over a two-dimensional array: every cell ends with its number. */
  method SnakeMatrix(rows: nat, columns: nat, mtrx: array2<nat>)
    requires ValidShape(rows, columns)
    requires mtrx.Length0 == rows && mtrx.Length1 == columns
    modifies mtrx
    ensures forall r, c :: InMatrix(rows, columns, r, c) ==> mtrx[r, c] == Value(rows, columns, r, c)
  {
    var counter: nat, depth: nat := 0, 0;
    var rounds := columns / 2 + columns % 2;
    forall r, c | InMatrix(rows, columns, r, c)
      ensures 0 < Value(rows, columns, r, c) <= rows * columns
    {
      EachNumberOnce(rows, columns, Value(rows, columns, r, c));
    }
    for i := 0 to rounds
      invariant depth == i
      invariant counter == AtRing(rows, columns, depth) && Filled(rows, columns, mtrx, counter)
    {
      counter := TopRow(rows, columns, mtrx, depth, counter);
      counter := RightColumn(rows, columns, mtrx, depth, counter);
      counter := BottomRow(rows, columns, mtrx, depth, counter);
      counter := LeftColumn(rows, columns, mtrx, depth, counter);
      depth := depth + 1;
    }
  }
}
