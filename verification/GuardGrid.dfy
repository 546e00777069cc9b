/**
 * The program itself: a grid of characters rewritten in place, the direction kept as the glyph under the
 * guard, and a list of positions without duplicates. Rows and columns are the last valid indices, as in the
 * source, and negative indices count from the end, as in Python.
 */
module GuardGrid {
  import opened Options
  import opened GuardWalk

  function Glyph(d: Dir): char {
    match d
    case North => '^'
    case East => '>'
    case South => 'v'
    case West => '<'
  }

  predicate InGrid(grid: array2<char>, i: int, j: int) {
    0 <= i < grid.Length0 && 0 <= j < grid.Length1
  }

  function Coordinates(rows: nat, cols: nat): (cs: set<Cell>)
    ensures forall c :: c in cs <==> 0 <= c.0 < rows && 0 <= c.1 < cols
  {
    set i, j | 0 <= i < rows && 0 <= j < cols :: (i, j)
  }

  function Cells(grid: array2<char>): map<Cell, char>
    reads grid
  {
    map c | c in Coordinates(grid.Length0, grid.Length1) :: grid[c.0, c.1]
  }

  function WallsOf(grid: array2<char>): set<Cell>
    reads grid
  {
    set c | c in Coordinates(grid.Length0, grid.Length1) && grid[c.0, c.1] == '#'
  }

  function BoardOf(grid: array2<char>): Board
    reads grid
  {
    Board(grid.Length0, grid.Length1, WallsOf(grid))
  }

  /** The guard at (i, j) faces `d`: the glyph under it says so. */
  predicate Faces(grid: array2<char>, i: int, j: int, d: Dir)
    requires InGrid(grid, i, j)
    reads grid
  {
    grid[i, j] == Glyph(d)
  }

  function Row(grid: array2<char>, i: int): int { if i < 0 then i + grid.Length0 else i }
  function Col(grid: array2<char>, j: int): int { if j < 0 then j + grid.Length1 else j }

  predicate Indexable(grid: array2<char>, i: int, j: int) {
    -grid.Length0 <= i < grid.Length0 && -grid.Length1 <= j < grid.Length1
  }

  /** `map[i][j]`, with Python's negative indices. */
  function Read(grid: array2<char>, i: int, j: int): char
    requires Indexable(grid, i, j)
    reads grid
  {
    grid[Row(grid, i), Col(grid, j)]
  }

  method IsOutOfBounds(i: int, j: int, rows: int, columns: int) returns (out: bool)
    ensures out <==> !(0 <= i < rows + 1 && 0 <= j < columns + 1)
  {
    if !(0 <= i <= rows) {
      return true;
    } else if !(0 <= j <= columns) {
      return true;
    } else {
      return false;
    }
  }

  /** The first '^' in reading order, or (-1, -1). */
  method GetStart(grid: array2<char>) returns (i: int, j: int)
    ensures (i, j) != (-1, -1) ==>
              && InGrid(grid, i, j) && grid[i, j] == '^'
              && (forall r, c | InGrid(grid, r, c) && (r < i || (r == i && c < j)) :: grid[r, c] != '^')
    ensures (i, j) == (-1, -1) <==> forall r, c | InGrid(grid, r, c) :: grid[r, c] != '^'
  {
    i := 0;
    while i < grid.Length0
      invariant 0 <= i <= grid.Length0
      invariant forall r, c | InGrid(grid, r, c) && r < i :: grid[r, c] != '^'
    {
      j := 0;
      while j < grid.Length1
        invariant 0 <= j <= grid.Length1
        invariant forall c | 0 <= c < j :: grid[i, c] != '^'
      {
        if grid[i, j] == '^' {
          return;
        }
        j := j + 1;
      }
      i := i + 1;
    }
    return -1, -1;
  }

  /** The position read from outside the grid, (-1, -1), has nothing in front of it whatever the glyph. */
  method FindObstacles(grid: array2<char>, i: int, j: int, rows: int, columns: int) returns (found: bool)
    requires rows == grid.Length0 - 1 && columns == grid.Length1 - 1
    requires Indexable(grid, i, j) && (InGrid(grid, i, j) || (i == -1 && j == -1))
    ensures !InGrid(grid, i, j) ==> !found
    ensures forall d | InGrid(grid, i, j) && Faces(grid, i, j, d) ::
              found <==> Ahead(Pose(i, j, d)) in WallsOf(grid)
  {
    var out := IsOutOfBounds(i - 1, j, rows, columns);
    if Read(grid, i, j) == '^' && !out && grid[i - 1, j] == '#' {
      return true;
    }
    out := IsOutOfBounds(i, j + 1, rows, columns);
    if Read(grid, i, j) == '>' && !out && grid[i, j + 1] == '#' {
      return true;
    }
    out := IsOutOfBounds(i + 1, j, rows, columns);
    if Read(grid, i, j) == 'v' && !out && grid[i + 1, j] == '#' {
      return true;
    }
    out := IsOutOfBounds(i, j - 1, rows, columns);
    if Read(grid, i, j) == '<' && !out && grid[i, j - 1] == '#' {
      return true;
    }
    return false;
  }

  predicate Distinct(list: seq<Cell>) {
    forall i, j | 0 <= i < j < |list| :: list[i] != list[j]
  }

  /** As a set the list gains the position and nothing else; its order and its distinctness stay. */
  method UpdateDistinctElementsList(i: int, j: int, list: seq<Cell>) returns (updated: seq<Cell>)
    ensures forall c :: c in updated <==> c in list || c == (i, j)
    ensures list <= updated && (|updated| == |list| <==> (i, j) in list)
    ensures Distinct(list) ==> Distinct(updated)
  {
    updated := list;
    if (i, j) !in list {
      updated := list + [(i, j)];
    }
  }

  /** The list of `UpdateDistinctElementsList`, told without a case. */
  ghost predicate Gains(list: seq<Cell>, c: Cell, updated: seq<Cell>) {
    && (forall x :: x in updated <==> x in list || x == c)
    && list <= updated
    && (Distinct(list) ==> Distinct(updated))
  }

  /** A step ahead: the cell left becomes 'X', the glyph goes with the guard. Without one, nothing moves. */
  method MoveForward(grid: array2<char>, i: int, j: int, rows: int, columns: int, list: seq<Cell>)
    returns (ni: int, nj: int, updated: seq<Cell>)
    requires rows == grid.Length0 - 1 && columns == grid.Length1 - 1
    requires Indexable(grid, i, j) && (InGrid(grid, i, j) || (i == -1 && j == -1))
    modifies grid
    ensures !InGrid(grid, i, j) ==> (ni, nj) == (i, j) && updated == list && forall r, c | InGrid(grid, r, c) :: grid[r, c] == old(grid[r, c])
    ensures forall d | InGrid(grid, i, j) && old(Faces(grid, i, j, d)) ::
              var to := Ahead(Pose(i, j, d));
              if BoardOf(grid).Inside(to) && to !in old(WallsOf(grid)) then
                && (ni, nj) == to
                && Gains(list, (i, j), updated)
                && forall r, c | InGrid(grid, r, c) ::
                     grid[r, c] == if (r, c) == to then Glyph(d) else if (r, c) == (i, j) then 'X' else old(grid[r, c])
              else
                (ni, nj) == (i, j) && updated == list && forall r, c | InGrid(grid, r, c) :: grid[r, c] == old(grid[r, c])
  {
    updated := list;
    ni, nj := i, j;
    var glyph := Read(grid, i, j);
    var out := IsOutOfBounds(i - 1, j, rows, columns);
    if glyph == '^' && !out && grid[i - 1, j] != '#' {
      updated := UpdateDistinctElementsList(i, j, list);
      grid[i, j] := 'X';
      grid[i - 1, j] := '^';
      return i - 1, j, updated;
    }
    out := IsOutOfBounds(i, j + 1, rows, columns);
    if glyph == '>' && !out && grid[i, j + 1] != '#' {
      updated := UpdateDistinctElementsList(i, j, list);
      grid[i, j] := 'X';
      grid[i, j + 1] := '>';
      return i, j + 1, updated;
    }
    out := IsOutOfBounds(i + 1, j, rows, columns);
    if glyph == 'v' && !out && grid[i + 1, j] != '#' {
      updated := UpdateDistinctElementsList(i, j, list);
      grid[i, j] := 'X';
      grid[i + 1, j] := 'v';
      return i + 1, j, updated;
    }
    out := IsOutOfBounds(i, j - 1, rows, columns);
    if glyph == '<' && !out && grid[i, j - 1] != '#' {
      updated := UpdateDistinctElementsList(i, j, list);
      grid[i, j] := 'X';
      grid[i, j - 1] := '<';
      return i, j - 1, updated;
    }
  }

  method Rotate(grid: array2<char>, i: int, j: int)
    requires InGrid(grid, i, j)
    modifies grid
    ensures forall d | old(Faces(grid, i, j, d)) :: Faces(grid, i, j, TurnRight(d))
    ensures forall r, c | InGrid(grid, r, c) && (r, c) != (i, j) :: grid[r, c] == old(grid[r, c])
  {
    if grid[i, j] == '^' {
      grid[i, j] := '>';
    } else if grid[i, j] == '>' {
      grid[i, j] := 'v';
    } else if grid[i, j] == 'v' {
      grid[i, j] := '<';
    } else if grid[i, j] == '<' {
      grid[i, j] := '^';
    }
  }

  // ---------------------------------------------------------------------
  // The grid as a picture of the walk
  // ---------------------------------------------------------------------

  /** What the cell shows when the guard, at `p`, has left the cells `left` of a grid that showed `before`. */
  function Shows(p: Pose, left: set<Cell>, c: Cell, before: char): char {
    if c == p.At() then Glyph(p.dir) else if c in left then 'X' else before
  }

  /** Walls where they were, one guard, and 'X' where it has been and is not. */
  ghost predicate Pictures(grid: array2<char>, before: map<Cell, char>, p: Pose, left: set<Cell>)
    reads grid
  {
    forall r, c | InGrid(grid, r, c) :: (r, c) in before && grid[r, c] == Shows(p, left, (r, c), before[(r, c)])
  }

  predicate Lists(list: seq<Cell>, left: set<Cell>) {
    && (forall c | c in list :: c in left) && (forall c | c in left :: c in list)
    && Distinct(list)
  }

  lemma {:induction false} ListIsAsLongAsItsSet(list: seq<Cell>, left: set<Cell>)
    requires Lists(list, left)
    ensures |list| == |left|
  {
    if list == [] {
      assert left == {};
    } else {
      var last := list[|list| - 1];
      var rest := list[..|list| - 1];
      assert forall c | c in list :: c in rest || c == last;
      ListIsAsLongAsItsSet(rest, left - {last});
    }
  }

  ghost function LeftAfter(left: set<Cell>, p: Pose, q: Pose): set<Cell> {
    left + (if p.At() != q.At() then {p.At()} else {})
  }

  lemma WallsStay(grid: array2<char>, board: Board, before: map<Cell, char>, p: Pose, left: set<Cell>)
    requires Begins(grid, board, before) && Pictures(grid, before, p, left) && Free(board, p.At())
    requires forall c | c in left :: c !in board.walls
    ensures WallsOf(grid) == board.walls
  {
    forall r, c | InGrid(grid, r, c) ensures grid[r, c] == '#' <==> (r, c) in board.walls {
      assert (r, c) in before;
    }
  }

  datatype Printed = Count(n: nat) | Error | Silent    // Silent: the loop never breaks

  /** The head of iteration `step`: the grid is a picture of the walk so far, the list its set of cells left. */
  ghost predicate AtHead(grid: array2<char>, board: Board, start: Pose, before: map<Cell, char>, step: nat, p: Pose, list: seq<Cell>)
    reads grid
  {
    && Walk(board, start, step) == Some(p) && Free(board, p.At())
    && Pictures(grid, before, p, CellsLeft(board, start, step)) && Lists(list, CellsLeft(board, start, step))
    && forall c | c in CellsLeft(board, start, step) :: c !in board.walls
  }

  ghost predicate Begins(grid: array2<char>, board: Board, before: map<Cell, char>) {
    && board.rows == grid.Length0 && board.cols == grid.Length1
    && (forall r, c | InGrid(grid, r, c) :: (r, c) in before && (before[(r, c)] == '#' <==> (r, c) in board.walls))
    && (forall c | c in board.walls :: board.Inside(c))
  }

  lemma GridBegins(grid: array2<char>, i: int, j: int)
    requires InGrid(grid, i, j) && grid[i, j] == '^'
    ensures Begins(grid, BoardOf(grid), Cells(grid))
    ensures AtHead(grid, BoardOf(grid), Pose(i, j, North), Cells(grid), 0, Pose(i, j, North), [])
  {
  }

  /** One iteration on. */
  lemma HeadToHead(board: Board, start: Pose, step: nat, p: Pose, q: Pose)
    requires Walk(board, start, step) == Some(p) && Next(board, p) == Some(q) && Free(board, p.At())
    requires forall c | c in CellsLeft(board, start, step) :: c !in board.walls
    ensures Walk(board, start, step + 1) == Some(q) && Free(board, q.At())
    ensures CellsLeft(board, start, step + 1) == LeftAfter(CellsLeft(board, start, step), p, q)
    ensures forall c | c in CellsLeft(board, start, step + 1) :: c !in board.walls
  {
  }

  /** The body of the loop: one iteration of the walk, drawn on the grid. */
  method Iterate(grid: array2<char>, i: int, j: int, rows: int, columns: int, list: seq<Cell>,
                 ghost board: Board, ghost p: Pose, ghost left: set<Cell>, ghost before: map<Cell, char>)
    returns (broke: bool, ni: int, nj: int, updated: seq<Cell>, ghost q: Pose)
    requires rows == grid.Length0 - 1 && columns == grid.Length1 - 1
    requires board == BoardOf(grid) && Free(board, p.At()) && p.At() == (i, j)
    requires Pictures(grid, before, p, left) && Lists(list, left)
    modifies grid
    ensures broke <==> FacesOut(board, p)
    ensures broke <==> Next(board, p).None?
    ensures broke ==> Pictures(grid, before, p, left) && updated == list
    ensures !broke ==>
              && Next(board, p) == Some(q) && q.At() == (ni, nj)
              && Pictures(grid, before, q, LeftAfter(left, p, q)) && Lists(updated, LeftAfter(left, p, q))
  {
    q := p;
    EndsHere(board, p);
    assert Faces(grid, i, j, p.dir);
    var found := FindObstacles(grid, i, j, rows, columns);
    if found {
      Rotate(grid, i, j);
      q := p.(dir := TurnRight(p.dir));
      return false, i, j, list, q;
    }
    ni, nj, updated := MoveForward(grid, i, j, rows, columns, list);
    broke := (ni, nj) == (i, j);
    if !broke {
      q := Pose(ni, nj, p.dir);
    }
  }

  /** The glyph of the guard stands at the edge of the grid, and points out of it. */
  predicate LooksOut(grid: array2<char>, p: Pose)
    reads grid
  {
    && InGrid(grid, p.row, p.col)
    && match grid[p.row, p.col]
       case '^' => p.row == 0
       case 'v' => p.row == grid.Length0 - 1
       case '<' => p.col == 0
       case '>' => p.col == grid.Length1 - 1
       case _ => false
  }

  /**
   * The walk ended after n iterations, no more than there are poses; the number printed is the cells left, plus
   * one; the grid shows the last pose, which looks out of it, an 'X' on every other cell left, and is otherwise as it was.
   */
  ghost predicate Drawn(grid: array2<char>, board: Board, start: Pose, before: map<Cell, char>, printed: nat, n: nat)
    reads grid
  {
    && EndsAfter(board, start, n) && n <= Poses(board.rows, board.cols)
    && printed == |CellsLeft(board, start, n)| + 1
    && Pictures(grid, before, Walk(board, start, n - 1).value, CellsLeft(board, start, n))
    && LooksOut(grid, Walk(board, start, n - 1).value)
  }

  lemma Finished(grid: array2<char>, board: Board, start: Pose, before: map<Cell, char>, step: nat, p: Pose, list: seq<Cell>)
    requires Begins(grid, board, before)
    requires AtHead(grid, board, start, before, step, p, list) && Next(board, p).None? && step < Poses(board.rows, board.cols)
    ensures Drawn(grid, board, start, before, |list| + 1, step + 1)
  {
    ListIsAsLongAsItsSet(list, CellsLeft(board, start, step));
    assert LooksOut(grid, p) by {
      EndsHere(board, p);
      assert InGrid(grid, p.row, p.col) && Faces(grid, p.row, p.col, p.dir);
    }
  }

  /** The same, from the head of one iteration to the head of the next. */
  method IterateOn(grid: array2<char>, i: int, j: int, rows: int, columns: int, list: seq<Cell>,
                   ghost board: Board, ghost start: Pose, ghost p: Pose, ghost before: map<Cell, char>, ghost step: nat)
    returns (broke: bool, ni: int, nj: int, updated: seq<Cell>, ghost q: Pose)
    requires rows == grid.Length0 - 1 && columns == grid.Length1 - 1
    requires Begins(grid, board, before) && p.At() == (i, j)
    requires AtHead(grid, board, start, before, step, p, list) && step < Poses(board.rows, board.cols)
    modifies grid
    ensures if broke then
              && Drawn(grid, board, start, before, |updated| + 1, step + 1)
              && Walk(board, start, Poses(board.rows, board.cols)).None?
            else
              q.At() == (ni, nj) && AtHead(grid, board, start, before, step + 1, q, updated)
  {
    ghost var left := CellsLeft(board, start, step);
    WallsStay(grid, board, before, p, left);
    broke, ni, nj, updated, q := Iterate(grid, i, j, rows, columns, list, board, p, left, before);
    if !broke {
      HeadToHead(board, start, step, p, q);
    } else {
      Finished(grid, board, start, before, step, p, list);
      OnceGoneAlwaysGone(board, start, step + 1, Poses(board.rows, board.cols));
    }
  }

  /**
   * The loop of `main`, from the guard's first pose. The source loops until it breaks; here the loop gives up
   * after as many iterations as there are poses, 4 * rows * cols, which is the same as never breaking.
   */
  method Patrol(grid: array2<char>, i0: int, j0: int, rows: int, columns: int, ghost board: Board, ghost before: map<Cell, char>)
    returns (printed: Option<nat>, ghost n: nat)
    requires Begins(grid, board, before) && AtHead(grid, board, Pose(i0, j0, North), before, 0, Pose(i0, j0, North), [])
    requires rows == grid.Length0 - 1 && columns == grid.Length1 - 1
    modifies grid
    ensures var start := Pose(i0, j0, North);
            && (printed.Some? <==> Walk(board, start, Poses(board.rows, board.cols)).None?)
            && (printed.Some? ==> Drawn(grid, board, start, before, printed.value, n))
  {
    ghost var start := Pose(i0, j0, North);
    ghost var p := start;
    var i, j, distinct := i0, j0, [];
    var step, poses := 0, Poses(rows + 1, columns + 1);
    n := 0;
    while step < poses
      invariant 0 <= step <= poses
      invariant p.At() == (i, j) && AtHead(grid, board, start, before, step, p, distinct)
    {
      var broke;
      broke, i, j, distinct, p := IterateOn(grid, i, j, rows, columns, distinct, board, start, p, before, step);
      step := step + 1;
      if broke {
        return Some(|distinct| + 1), step;
      }
    }
    printed := None;
  }

  /** '^' stands at (i, j) and nowhere before it in reading order. */
  ghost predicate StartsAt(cells: map<Cell, char>, i: int, j: int) {
    && (i, j) in cells && cells[(i, j)] == '^'
    && forall r, c | (r, c) in cells && (r < i || (r == i && c < j)) :: cells[(r, c)] != '^'
  }

  /** `main`, part 1, on a rectangular grid of any characters. */
  method Solve(grid: array2<char>) returns (printed: Printed, ghost n: nat, ghost start: Pose)
    modifies grid
    ensures printed.Error? <==> grid.Length0 == 0 || grid.Length1 == 0
    ensures !printed.Error? && '^' !in old(Cells(grid)).Values ==> printed == Count(1) && Cells(grid) == old(Cells(grid))
    ensures !printed.Error? && '^' in old(Cells(grid)).Values ==>
              var board := old(BoardOf(grid));
              && StartsAt(old(Cells(grid)), start.row, start.col) && start.dir == North
              && (printed.Silent? <==> !Halts(board, start))
              && (printed.Count? ==> Drawn(grid, board, start, old(Cells(grid)), printed.n, n))
  {
    start, n := Pose(0, 0, North), 0;
    if grid.Length0 == 0 || grid.Length1 == 0 {
      return Error, n, start;
    }
    var rows, columns := grid.Length0 - 1, grid.Length1 - 1;
    var i, j := GetStart(grid);
    if i == -1 {
      var found := FindObstacles(grid, i, j, rows, columns);
      var ni, nj, distinct := MoveForward(grid, i, j, rows, columns, []);
      assert '^' !in old(Cells(grid)).Values;
      return Count(|distinct| + 1), n, start;
    }
    start := Pose(i, j, North);
    assert Cells(grid)[(i, j)] == '^';
    HaltsWithin(BoardOf(grid), start);
    GridBegins(grid, i, j);
    var count;
    count, n := Patrol(grid, i, j, rows, columns, BoardOf(grid), Cells(grid));
    printed := if count.Some? then Count(count.value) else Silent;
  }
}
