/**
 The filler over a flat array. `row` is not a row number but the offset of a row,
 `columns` times its number, and each loop steps it by `columns`.
 */
module SpiralFlat {
  import opened Spiral
  import opened SpiralFill

  /** The offset of row `r`, as the loops build it up. */
  function Offset(columns: nat, r: int): nat
    decreases r
  {
    if r <= 0 then 0 else Offset(columns, r - 1) + columns
  }

  lemma {:induction false} OffsetIsProduct(columns: nat, r: nat)
    ensures Offset(columns, r) == columns * r
  {
    if r > 0 {
      OffsetIsProduct(columns, r - 1);
      assert columns * r == columns * (r - 1) + columns;
    }
  }

  lemma {:induction false} OffsetGrows(columns: nat, r: nat, s: nat)
    requires r < s
    ensures Offset(columns, r) + columns <= Offset(columns, s)
    decreases s
  {
    if r < s - 1 {
      OffsetGrows(columns, r, s - 1);
    }
  }

  lemma {:induction false} OffsetDifference(columns: nat, r: nat, s: nat)
    requires r <= s
    ensures Offset(columns, s - r) == Offset(columns, s) - Offset(columns, r)
    decreases r
  {
    if r > 0 {
      OffsetDifference(columns, r - 1, s);
    }
  }

  /** Comparing offsets compares rows. */
  lemma OffsetOrder(columns: nat, r: nat, s: nat)
    requires columns > 0
    ensures r < s <==> Offset(columns, r) < Offset(columns, s)
  {
    if r < s {
      OffsetGrows(columns, r, s);
    } else if s < r {
      OffsetGrows(columns, s, r);
    }
  }

  /** The numbered cells hold their numbers, and nothing beyond the matrix was written. */
  ghost predicate FlatFilled(rows: nat, columns: nat, mtrx: array<nat>, beyond: seq<nat>, k: int)
    reads mtrx
  {
    && Offset(columns, rows) <= mtrx.Length
    && mtrx[Offset(columns, rows)..] == beyond
    && forall r, c :: InMatrix(rows, columns, r, c) && Value(rows, columns, r, c) <= k
         ==> At(rows, columns, mtrx, r, c) == Value(rows, columns, r, c)
  }

  ghost function At(rows: nat, columns: nat, mtrx: array<nat>, r: nat, c: nat): nat
    requires InMatrix(rows, columns, r, c) && Offset(columns, rows) <= mtrx.Length
    reads mtrx
  {
    OffsetGrows(columns, r, rows);
    OffsetIsProduct(columns, r);
    mtrx[Offset(columns, r) + c]
  }

  /** mtrx[row + column] = ++counter, where `row` is the offset of row `r`. */
  method Put(rows: nat, columns: nat, mtrx: array<nat>, row: nat, column: nat, counter: nat,
             ghost r: nat, ghost beyond: seq<nat>)
    returns (next: nat)
    requires FlatFilled(rows, columns, mtrx, beyond, counter) && counter + 1 < WORD
    requires row == Offset(columns, r) && InMatrix(rows, columns, r, column)
    requires Offset(columns, rows) < WORD
    requires Value(rows, columns, r, column) == counter + 1
    modifies mtrx
    ensures next == counter + 1 && FlatFilled(rows, columns, mtrx, beyond, next)
  {
    OnlyCell(rows, columns, r, column);
    OffsetGrows(columns, r, rows);
    next := U32(counter + 1);
    mtrx[U32(row + column)] := next;
    forall r', c' | InMatrix(rows, columns, r', c') && Value(rows, columns, r', c') <= next
      ensures At(rows, columns, mtrx, r', c') == Value(rows, columns, r', c')
    {
      OffsetGrows(columns, r', rows);
      if r' < r {
        OffsetGrows(columns, r', r);
      } else if r < r' {
        OffsetGrows(columns, r, r');
      }
    }
  }

  /** The unsigned products and differences the loop headers use: none of them changes
      while the loops run. On a ring they are the offsets of rows. */
  method Offsets(rows: nat, columns: nat, depth: nat)
    returns (total: nat, top: nat, second: nat, end: nat, bottom: nat)
    requires ValidShape(rows, columns)
    ensures total == rows * columns == Offset(columns, rows) < WORD
    ensures HasRing(rows, columns, depth) ==>
              && top == Offset(columns, depth) && second == Offset(columns, depth + 1)
              && end == Offset(columns, rows - depth) && bottom == Offset(columns, rows - depth - 1)
  {
    OffsetIsProduct(columns, rows);
    total := U32(rows * columns);
    top, second := U32(columns * depth), U32(columns * (depth + 1));
    end, bottom := U32(rows * columns - columns * depth), U32(rows * columns - columns * (depth + 1));
    if HasRing(rows, columns, depth) {
      OffsetIsProduct(columns, depth);
      OffsetIsProduct(columns, depth + 1);
      OffsetDifference(columns, depth, rows);
      OffsetDifference(columns, depth + 1, rows);
    }
  }

  method TopRow(rows: nat, columns: nat, mtrx: array<nat>, depth: nat, start: nat, ghost beyond: seq<nat>)
    returns (counter: nat)
    requires ValidShape(rows, columns) && 2 * depth < columns
    requires start == AtRing(rows, columns, depth) && FlatFilled(rows, columns, mtrx, beyond, start)
    modifies mtrx
    ensures counter == AfterTop(rows, columns, depth) && FlatFilled(rows, columns, mtrx, beyond, counter)
  {
    counter := start;
    if HasRing(rows, columns, depth) {
      RingIsRoom(rows, columns, depth);
    }
    var total, top, second, end, bottom := Offsets(rows, columns, depth);
    var row, column := top, depth;
    while counter < total && column < U32(columns - depth)
      invariant FlatFilled(rows, columns, mtrx, beyond, counter)
      invariant if HasRing(rows, columns, depth)
                then depth <= column <= columns - depth && counter == Before(rows, columns, depth) + column - depth
                else counter == total
      decreases total - counter
    {
      counter := Put(rows, columns, mtrx, row, column, counter, depth, beyond);
      column := U32(column + 1);
    }
  }

  /** Below the end of the column, `row` is the offset of a row of the ring, and the next
      row's offset does not wrap. */
  lemma RightStep(rows: nat, columns: nat, depth: nat, r: nat)
    requires ValidShape(rows, columns) && HasRing(rows, columns, depth) && Offset(columns, rows) < WORD
    requires depth < r <= rows - depth && Offset(columns, r) < Offset(columns, rows - depth)
    ensures r < rows - depth
    ensures Value(rows, columns, r, columns - depth - 1) == AfterTop(rows, columns, depth) + r - depth
    ensures U32(Offset(columns, r) + columns) == Offset(columns, r + 1)
  {
    OffsetOrder(columns, r, rows - depth);
    OffsetGrows(columns, r, rows);
  }

  /** The ring has a right side below its top row. */
  predicate HasRight(rows: nat, columns: nat, depth: nat) {
    HasRing(rows, columns, depth) && 2 * depth + 1 < rows
  }

  /** Where the right side starts and ends; without one the matrix is finished. */
  lemma RightBounds(rows: nat, columns: nat, depth: nat)
    requires ValidShape(rows, columns) && 2 * depth < columns
    ensures var start, end := AfterTop(rows, columns, depth), AfterRight(rows, columns, depth);
      if HasRight(rows, columns, depth) then end == start + rows - 2 * depth - 1 <= rows * columns
      else start == end == rows * columns
  {
    if HasRing(rows, columns, depth) {
      RingIsRoom(rows, columns, depth);
    }
  }

  /** The loop stops at the end of the side. */
  lemma RightEnds(rows: nat, columns: nat, depth: nat, r: nat)
    requires ValidShape(rows, columns) && HasRight(rows, columns, depth) && depth < r <= rows - depth
    requires AfterTop(rows, columns, depth) + r - depth - 1 >= rows * columns
          || Offset(columns, r) >= Offset(columns, rows - depth)
    ensures r == rows - depth
  {
    RightBounds(rows, columns, depth);
    OffsetOrder(columns, r, rows - depth);
  }

  method RightColumn(rows: nat, columns: nat, mtrx: array<nat>, depth: nat, start: nat, ghost beyond: seq<nat>)
    returns (counter: nat)
    requires ValidShape(rows, columns) && 2 * depth < columns
    requires start == AfterTop(rows, columns, depth) && FlatFilled(rows, columns, mtrx, beyond, start)
    modifies mtrx
    ensures counter == AfterRight(rows, columns, depth) && FlatFilled(rows, columns, mtrx, beyond, counter)
  {
    counter := start;
    RightBounds(rows, columns, depth);
    var total, top, second, end, bottom := Offsets(rows, columns, depth);
    var row, column := second, U32(columns - depth - 1);
    ghost var r: nat, right: bool := depth + 1, HasRight(rows, columns, depth);
    while counter < total && row < end
      invariant FlatFilled(rows, columns, mtrx, beyond, counter)
      invariant right ==> depth < r <= rows - depth && row == Offset(columns, r)
      invariant counter == if right then start + r - depth - 1 else total
      decreases total - counter
    {
      RightStep(rows, columns, depth, r);
      counter := Put(rows, columns, mtrx, row, column, counter, r, beyond);
      row := U32(row + columns);
      r := r + 1;
    }
    if right {
      RightEnds(rows, columns, depth, r);
    }
  }

  method BottomRow(rows: nat, columns: nat, mtrx: array<nat>, depth: nat, start: nat, ghost beyond: seq<nat>)
    returns (counter: nat)
    requires ValidShape(rows, columns) && 2 * depth < columns
    requires start == AfterRight(rows, columns, depth) && FlatFilled(rows, columns, mtrx, beyond, start)
    modifies mtrx
    ensures counter == AfterBottom(rows, columns, depth) && FlatFilled(rows, columns, mtrx, beyond, counter)
  {
    counter := start;
    if HasRing(rows, columns, depth) {
      RingIsRoom(rows, columns, depth);
    }
    var total, top, second, end, bottom := Offsets(rows, columns, depth);
    var row, column := bottom, U32(columns - 2 - depth);
    while counter < total && column > depth
      invariant FlatFilled(rows, columns, mtrx, beyond, counter)
      invariant if HasRing(rows, columns, depth) && 2 * depth + 1 < rows && 2 * depth + 1 < columns
                then && depth <= column <= columns - depth - 2
                     && counter == AfterRight(rows, columns, depth) + (columns - depth - 2) - column
                else counter == total
      decreases total - counter
    {
      counter := Put(rows, columns, mtrx, row, column, counter, rows - depth - 1, beyond);
      column := U32(column - 1);
    }
  }

  lemma LeftStep(rows: nat, columns: nat, depth: nat, r: nat)
    requires ValidShape(rows, columns) && HasRing(rows, columns, depth) && Offset(columns, rows) < WORD
    requires depth <= r < rows - depth && 2 * depth + 1 < columns && Offset(columns, r) > Offset(columns, depth)
    ensures r > depth
    ensures Value(rows, columns, r, depth) == AfterBottom(rows, columns, depth) + rows - depth - r
    ensures U32(Offset(columns, r) - columns) == Offset(columns, r - 1)
  {
    OffsetOrder(columns, depth, r);
    OffsetGrows(columns, r, rows);
  }

  method LeftColumn(rows: nat, columns: nat, mtrx: array<nat>, depth: nat, start: nat, ghost beyond: seq<nat>)
    returns (counter: nat)
    requires ValidShape(rows, columns) && 2 * depth < columns
    requires start == AfterBottom(rows, columns, depth) && FlatFilled(rows, columns, mtrx, beyond, start)
    modifies mtrx
    ensures counter == AtRing(rows, columns, depth + 1) && FlatFilled(rows, columns, mtrx, beyond, counter)
  {
    counter := start;
    if HasRing(rows, columns, depth) {
      RingIsRoom(rows, columns, depth);
    }
    var total, top, second, end, bottom := Offsets(rows, columns, depth);
    var row, column := bottom, depth;
    ghost var r := rows - depth - 1;
    while counter < total && row > top
      invariant FlatFilled(rows, columns, mtrx, beyond, counter)
      invariant if HasRing(rows, columns, depth) && 2 * depth + 1 < rows && 2 * depth + 1 < columns
                then && depth <= r < rows - depth && row == Offset(columns, r)
                     && counter == AfterBottom(rows, columns, depth) + (rows - depth - 1) - r
                else counter == total
      decreases total - counter
    {
      LeftStep(rows, columns, depth, r);
      counter := Put(rows, columns, mtrx, row, column, counter, r, beyond);
      row := U32(row - columns);
      r := r - 1;
    }
    if HasRing(rows, columns, depth) && 2 * depth + 1 < rows && 2 * depth + 1 < columns {
      OffsetOrder(columns, depth, r);
    }
  }

  /** `snake_matrix` over a flat array: element r * columns + c is what the two-dimensional
      program puts at [r][c], and nothing beyond the matrix changes. */
  method SnakeMatrix(rows: nat, columns: nat, mtrx: array<nat>)
    requires ValidShape(rows, columns) && rows * columns <= mtrx.Length
    modifies mtrx
    ensures forall r, c :: InMatrix(rows, columns, r, c) ==>
              && 0 <= r * columns + c < rows * columns
              && mtrx[r * columns + c] == Value(rows, columns, r, c)
    ensures mtrx[rows * columns..] == old(mtrx[rows * columns..])
  {
    var counter: nat, depth: nat := 0, 0;
    var rounds := columns / 2 + columns % 2;
    ghost var beyond := mtrx[rows * columns..];
    OffsetIsProduct(columns, rows);
    forall r, c | InMatrix(rows, columns, r, c)
      ensures 0 < Value(rows, columns, r, c) <= rows * columns
    {
      EachNumberOnce(rows, columns, Value(rows, columns, r, c));
    }
    for i := 0 to rounds
      invariant depth == i
      invariant counter == AtRing(rows, columns, depth) && FlatFilled(rows, columns, mtrx, beyond, counter)
    {
      counter := TopRow(rows, columns, mtrx, depth, counter, beyond);
      counter := RightColumn(rows, columns, mtrx, depth, counter, beyond);
      counter := BottomRow(rows, columns, mtrx, depth, counter, beyond);
      counter := LeftColumn(rows, columns, mtrx, depth, counter, beyond);
      depth := depth + 1;
    }
    forall r, c | InMatrix(rows, columns, r, c)
      ensures 0 <= r * columns + c < rows * columns && mtrx[r * columns + c] == Value(rows, columns, r, c)
    {
      OffsetIsProduct(columns, r);
      OffsetGrows(columns, r, rows);
      assert At(rows, columns, mtrx, r, c) == Value(rows, columns, r, c);
    }
  }
}
