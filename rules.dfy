/** Win and draw detection. Wins and IsFull are the reference definitions;
    CheckWin and CheckDraw are the scans over the board array, proved
    against them. */
module Rules {
  import opened Board

  /** The eight lines of the board. */
  datatype Line = Row(r: int) | Column(c: int) | Diagonal | AntiDiagonal

  predicate IsLine(l: Line)
  {
    match l
    case Row(r) => 0 <= r < Size
    case Column(c) => 0 <= c < Size
    case _ => true
  }

  /** Cell (r, c) lies on line `l`. */
  predicate OnLine(l: Line, r: int, c: int)
  {
    match l
    case Row(i) => r == i
    case Column(j) => c == j
    case Diagonal => r == c
    case AntiDiagonal => r + c == Size - 1
  }

  /** Every cell on line `l` holds `p`. */
  ghost predicate Filled(g: Grid, l: Line, p: char)
  {
    forall r, c :: InRange(r, c) && OnLine(l, r, c) ==> Cell(g, r, c) == p
  }

  /** `p` has three in a row: some line is entirely `p`. */
  ghost predicate Wins(g: Grid, p: char)
  {
    exists l :: IsLine(l) && Filled(g, l, p)
  }

  /** Every cell holds 'X' or 'O'. */
  ghost predicate IsFull(g: Grid)
  {
    forall r, c :: InRange(r, c) ==> Occupied(Cell(g, r, c))
  }

  /** The three cells of each line, as move numbers. */
  function LineMoves(l: Line): (m: (int, int, int))
    requires IsLine(l)
  {
    match l
    case Row(r) => (Size * r + 1, Size * r + 2, Size * r + 3)
    case Column(c) => (c + 1, c + Size + 1, c + 2 * Size + 1)
    case Diagonal => (1, 5, 9)
    case AntiDiagonal => (3, 5, 7)
  }

  predicate ThreeOf(g: Grid, p: char, a: int, b: int, c: int)
    requires 1 <= a <= 9 && 1 <= b <= 9 && 1 <= c <= 9
  {
    At(g, a) == p && At(g, b) == p && At(g, c) == p
  }

  /** A line is filled with `p` exactly when its three cells are `p`. */
  lemma FilledIff(g: Grid, l: Line, p: char)
    requires IsLine(l)
    ensures var (a, b, c) := LineMoves(l);
      1 <= a <= 9 && 1 <= b <= 9 && 1 <= c <= 9 &&
      (Filled(g, l, p) <==> ThreeOf(g, p, a, b, c))
  {
    var (a, b, c) := LineMoves(l);
    MoveToCell(a);
    MoveToCell(b);
    MoveToCell(c);
    if ThreeOf(g, p, a, b, c) {
      forall r, c' | InRange(r, c') && OnLine(l, r, c')
        ensures Cell(g, r, c') == p
      {
        var m := MoveOf(r, c');
        CellToMove(r, c');
        assert m == a || m == b || m == c;
      }
    }
    if Filled(g, l, p) {
      assert OnLine(l, RowOf(a), ColOf(a));
      assert OnLine(l, RowOf(b), ColOf(b));
      assert OnLine(l, RowOf(c), ColOf(c));
    }
  }

  /** Row i and column i in terms of their cells. */
  lemma RowColumnFilled(g: Grid, i: int, p: char)
    requires 0 <= i < Size
    ensures Filled(g, Row(i), p) <==> Cell(g, i, 0) == p && Cell(g, i, 1) == p && Cell(g, i, 2) == p
    ensures Filled(g, Column(i), p) <==> Cell(g, 0, i) == p && Cell(g, 1, i) == p && Cell(g, 2, i) == p
  {
    FilledIff(g, Row(i), p);
    FilledIff(g, Column(i), p);
    MoveToCell(3 * i + 1);
    MoveToCell(3 * i + 2);
    MoveToCell(3 * i + 3);
    MoveToCell(i + 1);
    MoveToCell(i + 4);
    MoveToCell(i + 7);
  }

  /** The two diagonals in terms of their cells. */
  lemma DiagonalsFilled(g: Grid, p: char)
    ensures Filled(g, Diagonal, p) <==> Cell(g, 0, 0) == p && Cell(g, 1, 1) == p && Cell(g, 2, 2) == p
    ensures Filled(g, AntiDiagonal, p) <==> Cell(g, 0, 2) == p && Cell(g, 1, 1) == p && Cell(g, 2, 0) == p
  {
    FilledIff(g, Diagonal, p);
    FilledIff(g, AntiDiagonal, p);
  }

  /** The winning condition is the classic table of eight lines: rows
      1-2-3, 4-5-6, 7-8-9, columns 1-4-7, 2-5-8, 3-6-9 and the diagonals
      1-5-9 and 3-5-7. */
  lemma WinsIffEightLines(g: Grid, p: char)
    ensures Wins(g, p) <==>
      ThreeOf(g, p, 1, 2, 3) || ThreeOf(g, p, 4, 5, 6) || ThreeOf(g, p, 7, 8, 9) ||
      ThreeOf(g, p, 1, 4, 7) || ThreeOf(g, p, 2, 5, 8) || ThreeOf(g, p, 3, 6, 9) ||
      ThreeOf(g, p, 1, 5, 9) || ThreeOf(g, p, 3, 5, 7)
  {
    FilledIff(g, Row(0), p);
    FilledIff(g, Row(1), p);
    FilledIff(g, Row(2), p);
    FilledIff(g, Column(0), p);
    FilledIff(g, Column(1), p);
    FilledIff(g, Column(2), p);
    FilledIff(g, Diagonal, p);
    FilledIff(g, AntiDiagonal, p);
    if Wins(g, p) {
      var l :| IsLine(l) && Filled(g, l, p);
      FilledIff(g, l, p);
    }
  }

  /** The freshly labelled board has no line for any symbol whatever, and
      is not full. */
  lemma InitialUndecided(p: char)
    ensures !Wins(Initial(), p)
    ensures !IsFull(Initial())
  {
    var g := Initial();
    forall l | IsLine(l)
      ensures !Filled(g, l, p)
    {
      FilledIff(g, l, p);
      var (a, b, c) := LineMoves(l);
      InitialLabels(a);
      InitialLabels(b);
    }
    assert !Occupied(Cell(g, 0, 0));
  }

  /** The number of occupied cells. */
  function Count(s: seq<char>): (n: nat)
    ensures n <= |s|
  {
    if s == [] then 0 else (if Occupied(s[0]) then 1 else 0) + Count(s[1..])
  }

  lemma {:induction false} CountAll(s: seq<char>)
    ensures Count(s) == |s| <==> forall k :: 0 <= k < |s| ==> Occupied(s[k])
  {
    if s != [] {
      CountAll(s[1..]);
      assert forall k :: 1 <= k < |s| ==> s[k] == s[1..][k - 1];
    }
  }

  /** Writing `x` at index k changes the count only by what was and what is
      now at k. */
  lemma {:induction false} CountUpdate(s: seq<char>, k: int, x: char)
    requires 0 <= k < |s|
    ensures Count(s[k := x]) ==
      Count(s) - (if Occupied(s[k]) then 1 else 0) + (if Occupied(x) then 1 else 0)
  {
    if k > 0 {
      CountUpdate(s[1..], k - 1, x);
      assert s[k := x][1..] == s[1..][k - 1 := x];
    }
  }

  /** The board is full exactly when nine cells are occupied. */
  lemma FullIffNine(g: Grid)
    ensures IsFull(g) <==> Count(g) == 9
  {
    CountAll(g);
    if IsFull(g) {
      forall k | 0 <= k < 9
        ensures Occupied(g[k])
      {
        assert Occupied(Cell(g, k / 3, k % 3));
      }
    }
  }

  lemma InitialCount()
    ensures Count(Initial()) == 0
  {
    InitialIs();
  }

  /** The scan of checkWin: rows and columns by index, then both diagonals,
      returning as soon as a complete line is found. */
  method CheckWin(board: array2<char>, player: char) returns (won: bool)
    requires Is3x3(board)
    ensures won == Wins(Snapshot(board), player)
  {
    ghost var g := Snapshot(board);
    for i := 0 to Size
      invariant forall k :: 0 <= k < i ==> !Filled(g, Row(k), player) && !Filled(g, Column(k), player)
    {
      RowColumnFilled(g, i, player);
      if (board[i, 0] == player && board[i, 1] == player && board[i, 2] == player) ||
         (board[0, i] == player && board[1, i] == player && board[2, i] == player)
      {
        return true;
      }
    }
    DiagonalsFilled(g, player);
    if (board[0, 0] == player && board[1, 1] == player && board[2, 2] == player) ||
       (board[0, 2] == player && board[1, 1] == player && board[2, 0] == player)
    {
      return true;
    }
    forall l | IsLine(l)
      ensures !Filled(g, l, player)
    {
    }
    return false;
  }

  /** The scan of checkDraw: every cell in row-major order, returning false
      at the first cell that is neither 'X' nor 'O'. */
  method CheckDraw(board: array2<char>) returns (draw: bool)
    requires Is3x3(board)
    ensures draw == IsFull(Snapshot(board))
  {
    for i := 0 to Size
      invariant forall r, c :: 0 <= r < i && 0 <= c < Size ==> Occupied(board[r, c])
    {
      for j := 0 to Size
        invariant forall c :: 0 <= c < j ==> Occupied(board[i, c])
      {
        if board[i, j] != 'X' && board[i, j] != 'O' {
          assert !Occupied(Cell(Snapshot(board), i, j));
          return false;
        }
      }
    }
    return true;
  }
}
