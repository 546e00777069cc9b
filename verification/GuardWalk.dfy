/**
 * The guard of the puzzle as a walk over (row, column, direction), away from any grid: what one iteration
 * of the loop does to the pose, when the walk ends, and what it leaves behind.
 */
module GuardWalk {
  import opened Options

  datatype Dir = North | East | South | West

  type Cell = (int, int)

  datatype Pose = Pose(row: int, col: int, dir: Dir) {
    function At(): Cell { (row, col) }
  }

  datatype Board = Board(rows: nat, cols: nat, walls: set<Cell>) {
    predicate Inside(c: Cell) {
      0 <= c.0 < rows && 0 <= c.1 < cols
    }
  }

  function TurnRight(d: Dir): Dir {
    match d
    case North => East
    case East => South
    case South => West
    case West => North
  }

  function Ahead(p: Pose): Cell {
    match p.dir
    case North => (p.row - 1, p.col)
    case East => (p.row, p.col + 1)
    case South => (p.row + 1, p.col)
    case West => (p.row, p.col - 1)
  }

  /** One iteration: turn at a wall, else move, else the loop breaks. */
  function Next(b: Board, p: Pose): Option<Pose> {
    var c := Ahead(p);
    if !b.Inside(c) then None
    else if c in b.walls then Some(p.(dir := TurnRight(p.dir)))
    else Some(Pose(c.0, c.1, p.dir))
  }

  /** The pose at the head of iteration n, if the loop gets there. */
  function Walk(b: Board, start: Pose, n: nat): Option<Pose> {
    if n == 0 then Some(start)
    else
      match Walk(b, start, n - 1)
      case None => None
      case Some(p) => Next(b, p)
  }

  ghost predicate Halts(b: Board, start: Pose) {
    exists n: nat :: Walk(b, start, n).None?
  }

  ghost predicate Repeats(b: Board, start: Pose) {
    exists i: nat, j: nat :: i < j && Walk(b, start, i).Some? && Walk(b, start, i) == Walk(b, start, j)
  }

  /** The last pose of a walk that ends after n iterations. */
  ghost predicate EndsAfter(b: Board, start: Pose, n: nat) {
    0 < n && Walk(b, start, n - 1).Some? && Walk(b, start, n).None?
  }

  /** The cells left during the first n iterations. */
  function CellsLeft(b: Board, start: Pose, n: nat): set<Cell> {
    if n == 0 then {}
    else
      match (Walk(b, start, n - 1), Walk(b, start, n))
      case (Some(p), Some(q)) => CellsLeft(b, start, n - 1) + (if p.At() != q.At() then {p.At()} else {})
      case _ => CellsLeft(b, start, n - 1)
  }

  /** The cells the guard stands on at the head of the first n iterations. */
  function CellsVisited(b: Board, start: Pose, n: nat): set<Cell> {
    if n == 0 then {}
    else
      match Walk(b, start, n - 1)
      case Some(p) => CellsVisited(b, start, n - 1) + {p.At()}
      case None => CellsVisited(b, start, n - 1)
  }

  // ---------------------------------------------------------------------
  // The walk stays on free cells of the board
  // ---------------------------------------------------------------------

  predicate Free(b: Board, c: Cell) {
    b.Inside(c) && c !in b.walls
  }

  lemma {:induction false} WalkStaysFree(b: Board, start: Pose, n: nat)
    requires Free(b, start.At())
    ensures Walk(b, start, n).Some? ==> Free(b, Walk(b, start, n).value.At())
  {
    if n > 0 {
      WalkStaysFree(b, start, n - 1);
    }
  }

  lemma {:induction false} OnceGoneAlwaysGone(b: Board, start: Pose, m: nat, n: nat)
    requires m <= n && Walk(b, start, m).None?
    ensures Walk(b, start, n).None?
    decreases n
  {
    if m < n {
      OnceGoneAlwaysGone(b, start, m, n - 1);
    }
  }

  lemma {:induction false} SamePoseSameFuture(b: Board, start: Pose, i: nat, j: nat, k: nat)
    requires Walk(b, start, i) == Walk(b, start, j)
    ensures Walk(b, start, i + k) == Walk(b, start, j + k)
  {
    if k > 0 {
      SamePoseSameFuture(b, start, i, j, k - 1);
    }
  }

  /** A repeated pose is a loop the guard never leaves. */
  lemma {:induction false} RepeatedPoseNeverEnds(b: Board, start: Pose, i: nat, j: nat, n: nat)
    requires i < j && Walk(b, start, i).Some? && Walk(b, start, i) == Walk(b, start, j)
    ensures Walk(b, start, n).Some?
    decreases n
  {
    if n < j {
      if Walk(b, start, n).None? {
        OnceGoneAlwaysGone(b, start, n, j);
      }
    } else {
      SamePoseSameFuture(b, start, i, j, n - j);
      RepeatedPoseNeverEnds(b, start, i, j, i + (n - j));
    }
  }

  // ---------------------------------------------------------------------
  // There are only 4 * rows * cols poses
  // ---------------------------------------------------------------------

  function DirCode(d: Dir): nat {
    match d
    case North => 0
    case East => 1
    case South => 2
    case West => 3
  }

  function Code(b: Board, p: Pose): int {
    4 * (p.row * b.cols + p.col) + DirCode(p.dir)
  }

  lemma RowMajor(cols: nat, r: int, c: int, r': int)
    requires 0 <= c < cols && r < r'
    ensures r * cols + c < r' * cols
    decreases r' - r
  {
    if r + 1 < r' {
      RowMajor(cols, r, c, r' - 1);
    }
    assert r' * cols == (r' - 1) * cols + cols;
  }

  lemma CodeInRange(b: Board, p: Pose)
    requires b.Inside(p.At())
    ensures 0 <= Code(b, p) < 4 * (b.rows * b.cols)
  {
    RowMajor(b.cols, p.row, p.col, b.rows);
    assert 0 <= p.row * b.cols;
  }

  lemma CodeInjective(b: Board, p: Pose, q: Pose)
    requires b.Inside(p.At()) && b.Inside(q.At()) && Code(b, p) == Code(b, q)
    ensures p == q
  {
    assert p.row * b.cols + p.col == q.row * b.cols + q.col;
    if p.row < q.row {
      RowMajor(b.cols, p.row, p.col, q.row);
      assert false;
    } else if q.row < p.row {
      RowMajor(b.cols, q.row, q.col, p.row);
      assert false;
    }
  }

  ghost function Below(n: nat): (s: set<int>)
    ensures |s| == n && forall x :: x in s <==> 0 <= x < n
  {
    if n == 0 then {} else Below(n - 1) + {n - 1}
  }

  /** The codes of the first n poses. */
  ghost function Codes(b: Board, start: Pose, n: nat): set<int>
    requires forall k: nat | k < n :: Walk(b, start, k).Some?
  {
    set k | 0 <= k < n :: Code(b, Walk(b, start, k).value)
  }

  /** The code of the n-th pose, if it differs from those before it. */
  lemma NewCode(b: Board, start: Pose, n: nat)
    requires Free(b, start.At())
    requires forall k: nat | k <= n :: Walk(b, start, k).Some?
    requires forall i: nat | i < n :: Walk(b, start, i) != Walk(b, start, n)
    ensures var code := Code(b, Walk(b, start, n).value); 0 <= code < 4 * (b.rows * b.cols) && code !in Codes(b, start, n)
  {
    var last := Walk(b, start, n).value;
    WalkStaysFree(b, start, n);
    CodeInRange(b, last);
    forall k: nat | k < n ensures Code(b, Walk(b, start, k).value) != Code(b, last) {
      WalkStaysFree(b, start, k);
      if Code(b, Walk(b, start, k).value) == Code(b, last) {
        CodeInjective(b, Walk(b, start, k).value, last);
      }
    }
  }

  lemma {:induction false} DistinctPosesAreFew(b: Board, start: Pose, n: nat)
    requires Free(b, start.At())
    requires forall k: nat | k < n :: Walk(b, start, k).Some?
    requires forall i: nat, j: nat | i < j < n :: Walk(b, start, i) != Walk(b, start, j)
    ensures |Codes(b, start, n)| == n && forall x | x in Codes(b, start, n) :: 0 <= x < 4 * (b.rows * b.cols)
  {
    if n == 0 {
      assert Codes(b, start, n) == {};
    } else {
      DistinctPosesAreFew(b, start, n - 1);
      NewCode(b, start, n - 1);
      OneMoreCode(b, start, n);
    }
  }

  lemma OneMoreCode(b: Board, start: Pose, n: nat)
    requires 0 < n && forall k: nat | k < n :: Walk(b, start, k).Some?
    requires Code(b, Walk(b, start, n - 1).value) !in Codes(b, start, n - 1)
    ensures |Codes(b, start, n)| == |Codes(b, start, n - 1)| + 1
    ensures Codes(b, start, n) == Codes(b, start, n - 1) + {Code(b, Walk(b, start, n - 1).value)}
  {
    assert Codes(b, start, n) == Codes(b, start, n - 1) + {Code(b, Walk(b, start, n - 1).value)};
  }

  lemma SubsetIsSmaller(a: set<int>, b: set<int>)
    requires a <= b
    ensures |a| <= |b|
  {
    assert a + (b - a) == b;
  }

  /** A walk that has not ended after 4 * rows * cols iterations has repeated a pose. */
  lemma LongWalkRepeats(b: Board, start: Pose)
    requires Free(b, start.At()) && Walk(b, start, 4 * (b.rows * b.cols)).Some?
    ensures Repeats(b, start)
  {
    var n := 4 * (b.rows * b.cols) + 1;
    forall k: nat | k < n ensures Walk(b, start, k).Some? {
      if Walk(b, start, k).None? {
        OnceGoneAlwaysGone(b, start, k, n - 1);
      }
    }
    if forall i: nat, j: nat | i < j < n :: Walk(b, start, i) != Walk(b, start, j) {
      DistinctPosesAreFew(b, start, n);
      assert Codes(b, start, n) <= Below(n - 1);
      SubsetIsSmaller(Codes(b, start, n), Below(n - 1));
      assert false;
    }
  }

  /** The loop halts if and only if no pose ever comes back. */
  lemma HaltsIffNeverRepeats(b: Board, start: Pose)
    requires Free(b, start.At())
    ensures Halts(b, start) <==> !Repeats(b, start)
  {
    if Repeats(b, start) {
      var i: nat, j: nat :| i < j && Walk(b, start, i).Some? && Walk(b, start, i) == Walk(b, start, j);
      forall n: nat ensures Walk(b, start, n).Some? {
        RepeatedPoseNeverEnds(b, start, i, j, n);
      }
    } else if Walk(b, start, 4 * (b.rows * b.cols)).Some? {
      LongWalkRepeats(b, start);
    }
  }

  /** And when it halts, it does so within 4 * rows * cols iterations. */
  lemma HaltsWithinPoses(b: Board, start: Pose)
    requires Free(b, start.At())
    ensures Halts(b, start) <==> Walk(b, start, 4 * (b.rows * b.cols)).None?
  {
    if Halts(b, start) && Walk(b, start, 4 * (b.rows * b.cols)).Some? {
      LongWalkRepeats(b, start);
      HaltsIffNeverRepeats(b, start);
    }
  }

  function Poses(rows: nat, cols: nat): nat {
    if rows == 0 then 0 else Poses(rows - 1, cols) + 4 * cols
  }

  lemma {:induction false} FourPerCell(rows: nat, cols: nat)
    ensures Poses(rows, cols) == 4 * (rows * cols)
  {
    if rows > 0 {
      FourPerCell(rows - 1, cols);
      assert rows * cols == (rows - 1) * cols + cols;
    }
  }

  lemma HaltsWithin(b: Board, start: Pose)
    requires Free(b, start.At())
    ensures Halts(b, start) <==> Walk(b, start, Poses(b.rows, b.cols)).None?
  {
    FourPerCell(b.rows, b.cols);
    HaltsWithinPoses(b, start);
  }

  /** What was ahead is now on the left: rows grow downwards. */
  predicate TurnedRight(p: Pose, q: Pose) {
    && Ahead(q).0 - q.row == Ahead(p).1 - p.col
    && Ahead(q).1 - q.col == p.row - Ahead(p).0
  }

  /** Every iteration but the last is a turn on the spot or a move of one cell straight ahead, never onto a wall. */
  lemma EveryIterationTurnsOrMoves(b: Board, start: Pose, n: nat)
    requires Free(b, start.At()) && Walk(b, start, n).Some? && Walk(b, start, n + 1).Some?
    ensures var p := Walk(b, start, n).value; var q := Walk(b, start, n + 1).value;
            || (q.At() == p.At() && TurnedRight(p, q) && Ahead(p) in b.walls)
            || (q.At() == Ahead(p) && q.dir == p.dir && Free(b, q.At()))
  {
  }

  /** At the edge of the board, facing out of it. */
  predicate FacesOut(b: Board, p: Pose) {
    || (p.dir == North && p.row == 0)
    || (p.dir == South && p.row == b.rows - 1)
    || (p.dir == West && p.col == 0)
    || (p.dir == East && p.col == b.cols - 1)
  }

  lemma EndsHere(b: Board, p: Pose)
    requires Free(b, p.At())
    ensures Next(b, p).None? <==> FacesOut(b, p)
  {
  }

  /** The walk ends where it faces out of the board, and nowhere else; a wall never ends it. */
  lemma EndsExactlyFacingOut(b: Board, start: Pose, n: nat)
    requires Free(b, start.At()) && Walk(b, start, n).Some?
    ensures Walk(b, start, n + 1).None? <==> FacesOut(b, Walk(b, start, n).value)
  {
    WalkStaysFree(b, start, n);
    EndsHere(b, Walk(b, start, n).value);
  }

  // ---------------------------------------------------------------------
  // What is printed against what was visited
  // ---------------------------------------------------------------------

  lemma {:induction false} VisitedIsLeftPlusHere(b: Board, start: Pose, n: nat)
    requires Walk(b, start, n).Some?
    ensures CellsVisited(b, start, n + 1) == CellsLeft(b, start, n) + {Walk(b, start, n).value.At()}
  {
    if n > 0 {
      VisitedIsLeftPlusHere(b, start, n - 1);
    }
  }

  /**
   * The number printed is right exactly when the cell the guard walks out from had not been left before;
   * otherwise it is one too many.
   */
  lemma PrintedAgainstVisited(b: Board, start: Pose, n: nat)
    requires EndsAfter(b, start, n)
    ensures var exit := Walk(b, start, n - 1).value.At(); var printed := |CellsLeft(b, start, n)| + 1;
            && (printed == |CellsVisited(b, start, n)| <==> exit !in CellsLeft(b, start, n))
            && (exit in CellsLeft(b, start, n) ==> printed == |CellsVisited(b, start, n)| + 1)
  {
    VisitedIsLeftPlusHere(b, start, n - 1);
    assert CellsLeft(b, start, n) == CellsLeft(b, start, n - 1);
    var exit := Walk(b, start, n - 1).value.At();
    if exit in CellsLeft(b, start, n) {
      assert CellsVisited(b, start, n) == CellsLeft(b, start, n);
    }
  }

  /** Four by four: the guard comes back to (2, 0), where it started, and walks out from it. */
  predicate Looped(b: Board, start: Pose) {
    b == Board(4, 4, {(0, 0), (1, 3), (3, 2)}) && start == Pose(2, 0, North)
  }

  lemma LoopedFirstHalf(b: Board, s: Pose)
    requires Looped(b, s)
    ensures Walk(b, s, 5) == Some(Pose(1, 2, South)) && CellsLeft(b, s, 5) == {(2, 0), (1, 0), (1, 1)}
  {
    assert Walk(b, s, 1) == Some(Pose(1, 0, North)) && CellsLeft(b, s, 1) == {(2, 0)};
    assert Walk(b, s, 2) == Some(Pose(1, 0, East)) && CellsLeft(b, s, 2) == {(2, 0)};
    assert Walk(b, s, 3) == Some(Pose(1, 1, East)) && CellsLeft(b, s, 3) == {(2, 0), (1, 0)};
    assert Walk(b, s, 4) == Some(Pose(1, 2, East)) && CellsLeft(b, s, 4) == {(2, 0), (1, 0), (1, 1)};
  }

  /** One iteration of the walk, on what it leaves. */
  lemma OneIteration(b: Board, start: Pose, n: nat, p: Pose, q: Pose, left: set<Cell>)
    requires 0 < n && Walk(b, start, n - 1) == Some(p) && CellsLeft(b, start, n - 1) == left && Next(b, p) == Some(q)
    ensures Walk(b, start, n) == Some(q)
    ensures CellsLeft(b, start, n) == left + if p.At() != q.At() then {p.At()} else {}
  {
  }

  lemma LoopedSecondHalf(b: Board, s: Pose, n: nat)
    requires Looped(b, s) && n == 9
    ensures Walk(b, s, n) == Some(Pose(2, 0, West))
    ensures CellsLeft(b, s, n) == {(2, 0), (1, 0), (1, 1), (1, 2), (2, 2), (2, 1)}
  {
    var first: set<Cell> := {(2, 0), (1, 0), (1, 1)};
    LoopedFirstHalf(b, s);
    OneIteration(b, s, 6, Pose(1, 2, South), Pose(2, 2, South), first);
    OneIteration(b, s, 7, Pose(2, 2, South), Pose(2, 2, West), first + {(1, 2)});
    OneIteration(b, s, 8, Pose(2, 2, West), Pose(2, 1, West), first + {(1, 2)} + {});
    OneIteration(b, s, 9, Pose(2, 1, West), Pose(2, 0, West), first + {(1, 2)} + {} + {(2, 2)});
  }

  lemma LoopedEnd(b: Board, start: Pose, n: nat, left: set<Cell>)
    requires 0 < n && Walk(b, start, n - 1) == Some(Pose(2, 0, West))
    requires CellsLeft(b, start, n - 1) == left && (2, 0) in left
    ensures EndsAfter(b, start, n)
    ensures |CellsVisited(b, start, n)| == |left| && CellsLeft(b, start, n) == left
  {
    PrintedAgainstVisited(b, start, n);
  }

  lemma SixCells(six: set<Cell>)
    requires six == {(2, 0), (1, 0), (1, 1), (1, 2), (2, 2), (2, 1)}
    ensures |six| == 6
  {
    var three: set<Cell> := {(2, 0), (1, 0), (1, 1)};
    var others: set<Cell> := {(1, 2), (2, 2), (2, 1)};
    assert |three| == 3 && |others| == 3 && three !! others;
    assert six == three + others;
  }

  /** Six cells are visited and seven are printed. */
  lemma PrintsOneTooMany(b: Board, start: Pose, n: nat)
    requires Looped(b, start) && n == 10
    ensures EndsAfter(b, start, n)
    ensures |CellsVisited(b, start, n)| == 6 && |CellsLeft(b, start, n)| + 1 == 7
  {
    LoopedSecondHalf(b, start, n - 1);
    SixCells(CellsLeft(b, start, n - 1));
    LoopedEnd(b, start, n, CellsLeft(b, start, n - 1));
  }
}
