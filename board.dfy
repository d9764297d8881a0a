/** The 3x3 board: players, cells, the labels shown in empty cells, the
    numbering of moves, and the initialisation of the board array. */
module Board {

  /** Number of rows and of columns of the board. */
  const Size := 3

  /** A player's symbol. */
  type Player = c: char | c == 'X' || c == 'O' witness 'X'

  /** The player whose turn follows `p`'s. */
  function Other(p: Player): (q: Player)
    ensures q != p
  {
    if p == 'X' then 'O' else 'X'
  }

  lemma OtherOther(p: Player)
    ensures Other(Other(p)) == p
  {
  }

  /** A cell is occupied when it holds one of the two players' symbols. */
  predicate Occupied(c: char)
  {
    c == 'X' || c == 'O'
  }

  /** A value snapshot of the board: the nine cells in row-major order. */
  type Grid = g: seq<char> | |g| == 9 witness "123456789"

  predicate InRange(r: int, c: int)
  {
    0 <= r < Size && 0 <= c < Size
  }

  /** The cell at row `r`, column `c`. */
  function Cell(g: Grid, r: int, c: int): char
    requires InRange(r, c)
  {
    g[Size * r + c]
  }

  /** The label an empty cell (r, c) shows when the board is created. */
  function Label(r: int, c: int): char
    requires InRange(r, c)
  {
    ('1' as int + Size * r + c) as char
  }

  /** A move is a number 1..9; these give the cell it designates. */
  function RowOf(move: int): int
  {
    (move - 1) / Size
  }

  function ColOf(move: int): int
  {
    (move - 1) % Size
  }

  /** The move number that designates cell (r, c). */
  function MoveOf(r: int, c: int): int
  {
    Size * r + c + 1
  }

  /** The digit character of a move number. */
  function Digit(move: int): char
    requires 1 <= move <= 9
  {
    ('0' as int + move) as char
  }

  /** The cell designated by `move`. */
  function At(g: Grid, move: int): char
    requires 1 <= move <= 9
  {
    Cell(g, RowOf(move), ColOf(move))
  }

  /** Every move in 1..9 names a cell on the board, the cell's move number
      is that move again, and the cell's initial label is the move's digit. */
  lemma MoveToCell(move: int)
    requires 1 <= move <= 9
    ensures InRange(RowOf(move), ColOf(move))
    ensures MoveOf(RowOf(move), ColOf(move)) == move
    ensures Label(RowOf(move), ColOf(move)) == Digit(move)
  {
  }

  /** Every cell is named by exactly one move: the mapping from moves to
      cells is onto, and together with MoveToCell a bijection. */
  lemma CellToMove(r: int, c: int)
    requires InRange(r, c)
    ensures 1 <= MoveOf(r, c) <= 9
    ensures RowOf(MoveOf(r, c)) == r && ColOf(MoveOf(r, c)) == c
  {
  }

  /** Distinct moves designate distinct cells. */
  lemma MovesDistinctCells(m: int, n: int)
    requires 1 <= m <= 9 && 1 <= n <= 9 && m != n
    ensures (RowOf(m), ColOf(m)) != (RowOf(n), ColOf(n))
  {
    MoveToCell(m);
    MoveToCell(n);
  }

  /** The cell of move `m` is the (m-1)-th of the row-major snapshot. */
  lemma AtIndex(g: Grid, move: int)
    requires 1 <= move <= 9
    ensures At(g, move) == g[move - 1]
  {
    MoveToCell(move);
  }

  /** The freshly labelled board. */
  function Initial(): (g: Grid)
    ensures forall r, c :: InRange(r, c) ==> Cell(g, r, c) == Label(r, c)
  {
    seq(9, k requires 0 <= k < 9 => ('1' as int + k) as char)
  }

  lemma InitialIs()
    ensures Initial() == "123456789"
  {
  }

  /** On the freshly labelled board, the cell of every move shows that
      move's digit, and no cell is occupied. */
  lemma InitialLabels(move: int)
    requires 1 <= move <= 9
    ensures At(Initial(), move) == Digit(move)
    ensures !Occupied(At(Initial(), move))
  {
    MoveToCell(move);
  }

  predicate Is3x3(board: array2<char>)
  {
    board.Length0 == Size && board.Length1 == Size
  }

  /** The current contents of the board array as a value. */
  function Snapshot(board: array2<char>): (g: Grid)
    requires Is3x3(board)
    reads board
    ensures forall r, c :: InRange(r, c) ==> Cell(g, r, c) == board[r, c]
  {
    seq(9, k requires 0 <= k < 9 reads board => board[k / Size, k % Size])
  }

  /** Two 3x3 boards agree cell by cell exactly when their snapshots agree. */
  lemma SnapshotExt(g: Grid, h: Grid)
    requires forall r, c :: InRange(r, c) ==> Cell(g, r, c) == Cell(h, r, c)
    ensures g == h
  {
    forall k | 0 <= k < 9
      ensures g[k] == h[k]
    {
      assert Cell(g, k / 3, k % 3) == Cell(h, k / 3, k % 3);
    }
  }

  /** Allocates the board and writes every cell's label, row by row. */
  method InitBoard() returns (board: array2<char>)
    ensures fresh(board) && Is3x3(board)
    ensures forall r, c :: InRange(r, c) ==> board[r, c] == Label(r, c)
    ensures Snapshot(board) == Initial()
  {
    board := new char[Size, Size];
    for i := 0 to Size
      invariant forall r, c :: 0 <= r < i && 0 <= c < Size ==> board[r, c] == Label(r, c)
    {
      for j := 0 to Size
        invariant forall r, c :: 0 <= r < i && 0 <= c < Size ==> board[r, c] == Label(r, c)
        invariant forall c :: 0 <= c < j ==> board[i, c] == Label(i, c)
      {
        board[i, j] := ('1' as int + i * Size + j) as char;
      }
    }
    SnapshotExt(Snapshot(board), Initial());
  }
}
