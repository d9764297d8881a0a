/** The game loop of main: X moves first; after each accepted move a win by
    the mover is checked before a draw; otherwise the turn passes to the
    other player. The input stream is a given sequence of integers; when it
    runs out, the game is left awaiting the current player's move. */
module GameLoop {
  import opened Board
  import opened Rules
  import opened MoveInput

  /** How a game stands when it ends or its input runs out. */
  datatype Status = Won(winner: Player) | Draw | AwaitingMove(next: Player)

  /** An accepted move: who played and which cell (1..9). */
  datatype Mark = Mark(player: Player, move: int)

  /** The final state, the final board and the accepted moves in order. */
  datatype GameEnd = GameEnd(status: Status, grid: Grid, log: seq<Mark>)

  function After(log: seq<Mark>, e: GameEnd): GameEnd
  {
    GameEnd(e.status, e.grid, log + e.log)
  }

  lemma AfterAfter(a: seq<Mark>, b: seq<Mark>, e: GameEnd)
    ensures After(a, After(b, e)) == After(a + b, e)
  {
    assert a + (b + e.log) == (a + b) + e.log;
  }

  /** The game played from board `g` with `p` to move: one turn, then a win
      by `p` ends the game, else a full board ends it as a draw, else the
      other player moves. */
  ghost function Run(g: Grid, p: Player, inputs: seq<int>): (e: GameEnd)
    ensures |e.log| <= |inputs|
    decreases |inputs|
  {
    match Turn(g, p, inputs)
    case Starved => GameEnd(AwaitingMove(p), g, [])
    case Moved(move, h, rest) =>
      if Wins(h, p) then GameEnd(Won(p), h, [Mark(p, move)])
      else if IsFull(h) then GameEnd(Draw, h, [Mark(p, move)])
      else After([Mark(p, move)], Run(h, Other(p), rest))
  }

  /** A whole game from the freshly labelled board, X first. */
  ghost function Game(inputs: seq<int>): GameEnd
  {
    Run(Initial(), 'X', inputs)
  }

  /** Neither player has a line and the board is not full. */
  ghost predicate Undecided(g: Grid)
  {
    !Wins(g, 'X') && !Wins(g, 'O') && !IsFull(g)
  }

  /** The moves of `log` are made by `p`, the other player, `p`, ... in
      turn. */
  ghost predicate Alternating(log: seq<Mark>, p: Player)
  {
    forall i :: 0 <= i < |log| ==> log[i].player == if i % 2 == 0 then p else Other(p)
  }

  lemma AlternatingCons(m: Mark, log: seq<Mark>, p: Player)
    requires m.player == p && Alternating(log, Other(p))
    ensures Alternating([m] + log, p)
  {
    var log' := [m] + log;
    OtherOther(p);
    forall i | 0 <= i < |log'|
      ensures log'[i].player == if i % 2 == 0 then p else Other(p)
    {
      if i > 0 {
        assert log'[i] == log[i - 1];
        assert (i - 1) % 2 == 0 <==> i % 2 != 0;
      }
    }
  }

  /** Players alternate strictly, starting with `p`. */
  lemma {:induction false} RunAlternates(g: Grid, p: Player, inputs: seq<int>)
    ensures Alternating(Run(g, p, inputs).log, p)
    decreases |inputs|
  {
    var t := Turn(g, p, inputs);
    if t.Moved? {
      if !Wins(t.grid, p) && !IsFull(t.grid) {
        RunAlternates(t.grid, Other(p), t.rest);
        AlternatingCons(Mark(p, t.move), Run(t.grid, Other(p), t.rest).log, p);
      }
    }
  }

  /** A game awaiting a move awaits the player whose turn it is by the
      alternation: `p` after an even number of moves, the other player
      after an odd number. */
  lemma {:induction false} RunNext(g: Grid, p: Player, inputs: seq<int>)
    ensures var e := Run(g, p, inputs);
      e.status.AwaitingMove? ==> e.status.next == if |e.log| % 2 == 0 then p else Other(p)
    decreases |inputs|
  {
    var t := Turn(g, p, inputs);
    if t.Moved? {
      if !Wins(t.grid, p) && !IsFull(t.grid) {
        RunNext(t.grid, Other(p), t.rest);
        OtherOther(p);
        var n := |Run(t.grid, Other(p), t.rest).log|;
        assert (1 + n) % 2 == 0 <==> n % 2 != 0;
      }
    }
  }

  /** A game that ends has at least one move, and a win belongs to the
      player who moved last. */
  lemma {:induction false} RunLastMover(g: Grid, p: Player, inputs: seq<int>)
    ensures var e := Run(g, p, inputs);
      (e.status.Won? ==> |e.log| > 0 && e.status.winner == e.log[|e.log| - 1].player) &&
      (e.status.Draw? ==> |e.log| > 0)
    decreases |inputs|
  {
    var t := Turn(g, p, inputs);
    if t.Moved? {
      if !Wins(t.grid, p) && !IsFull(t.grid) {
        RunLastMover(t.grid, Other(p), t.rest);
      }
    }
  }

  /** A line of `q` after `p` marks a cell was already a line of `q`
      before, when q is not p. */
  lemma FilledBefore(g: Grid, move: int, p: Player, l: Line, q: char)
    requires 1 <= move <= 9 && q != p && Filled(Place(g, move, p), l, q)
    ensures Filled(g, l, q)
  {
    var h := Place(g, move, p);
    forall r, c | InRange(r, c) && OnLine(l, r, c)
      ensures Cell(g, r, c) == q
    {
      assert Cell(h, r, c) == q;
    }
  }

  /** Marking a cell with `p` never gives the other player a line. */
  lemma PlaceKeepsOtherLosing(g: Grid, move: int, p: Player)
    requires 1 <= move <= 9
    ensures Wins(Place(g, move, p), Other(p)) ==> Wins(g, Other(p))
  {
    var h := Place(g, move, p);
    if Wins(h, Other(p)) {
      var l :| IsLine(l) && Filled(h, l, Other(p));
      FilledBefore(g, move, p, l, Other(p));
    }
  }

  /** The outcome is decided as the source decides it: from an undecided
      board, a win leaves the winner with a line and the loser without one;
      a draw leaves a full board on which NEITHER player has a line (the
      win check comes first, so a move that completes a line on the last
      free cell is a win); a game awaiting a move is still undecided. */
  lemma {:induction false} RunOutcome(g: Grid, p: Player, inputs: seq<int>)
    requires Undecided(g)
    ensures var e := Run(g, p, inputs);
      (e.status.Won? ==> Wins(e.grid, e.status.winner) && !Wins(e.grid, Other(e.status.winner))) &&
      (e.status.Draw? ==> IsFull(e.grid) && !Wins(e.grid, 'X') && !Wins(e.grid, 'O')) &&
      (e.status.AwaitingMove? ==> Undecided(e.grid))
    decreases |inputs|
  {
    var t := Turn(g, p, inputs);
    if t.Moved? {
      TurnMoved(g, p, inputs);
      PlaceKeepsOtherLosing(g, t.move, p);
      if !Wins(t.grid, p) && !IsFull(t.grid) {
        RunOutcome(t.grid, Other(p), t.rest);
      }
    }
  }

  /** Win precedence: whenever a turn completes a line for the mover, the
      game ends as a win for the mover, whether or not the board is full. */
  lemma WinPrecedence(g: Grid, p: Player, inputs: seq<int>)
    requires Turn(g, p, inputs).Moved? && Wins(Turn(g, p, inputs).grid, p)
    ensures Run(g, p, inputs).status == Won(p)
  {
  }

  /** Every move of `log` names a cell in 1..9 that is free on `g`. */
  ghost predicate FreeOn(log: seq<Mark>, g: Grid)
  {
    forall i :: 0 <= i < |log| ==> 1 <= log[i].move <= 9 && !Occupied(At(g, log[i].move))
  }

  /** No move of `log` names cell m. */
  ghost predicate Unmarked(log: seq<Mark>, m: int)
  {
    forall i :: 0 <= i < |log| ==> log[i].move != m
  }

  /** No two moves of `log` name the same cell. */
  ghost predicate Distinct(log: seq<Mark>)
  {
    forall i, j :: 0 <= i < j < |log| ==> log[i].move != log[j].move
  }

  /** Every move of `log` shows its player's symbol on `g`. */
  ghost predicate Shown(log: seq<Mark>, g: Grid)
  {
    forall i :: 0 <= i < |log| ==> 1 <= log[i].move <= 9 && At(g, log[i].move) == log[i].player
  }

  /** Moves that are free after `p` has marked `move` never name `move`
      and were free before it. */
  lemma FreeAfterPlace(log: seq<Mark>, g: Grid, move: int, p: Player)
    requires 1 <= move <= 9 && FreeOn(log, Place(g, move, p))
    ensures Unmarked(log, move) && FreeOn(log, g)
  {
    forall i | 0 <= i < |log|
      ensures log[i].move != move && !Occupied(At(g, log[i].move))
    {
      PlaceAt(g, move, p, log[i].move);
    }
  }

  lemma DistinctCons(m: Mark, log: seq<Mark>)
    requires Distinct(log) && Unmarked(log, m.move)
    ensures Distinct([m] + log)
  {
    var log' := [m] + log;
    forall i, j | 0 <= i < j < |log'|
      ensures log'[i].move != log'[j].move
    {
      assert log'[j] == log[j - 1];
    }
  }

  lemma ShownCons(m: Mark, log: seq<Mark>, g: Grid)
    requires Shown(log, g) && 1 <= m.move <= 9 && At(g, m.move) == m.player
    ensures Shown([m] + log, g)
  {
    var log' := [m] + log;
    forall i | 1 <= i < |log'|
      ensures 1 <= log'[i].move <= 9 && At(g, log'[i].move) == log'[i].player
    {
      assert log'[i] == log[i - 1];
    }
  }

  /** Every accepted move names a cell that was free on the board the game
      started from. */
  lemma {:induction false} RunFree(g: Grid, p: Player, inputs: seq<int>)
    ensures FreeOn(Run(g, p, inputs).log, g)
    decreases |inputs|
  {
    var t := Turn(g, p, inputs);
    if t.Moved? {
      TurnMoved(g, p, inputs);
      if !Wins(t.grid, p) && !IsFull(t.grid) {
        RunFree(t.grid, Other(p), t.rest);
        FreeAfterPlace(Run(t.grid, Other(p), t.rest).log, g, t.move, p);
      }
    }
  }

  /** No cell is accepted twice. */
  lemma {:induction false} RunDistinct(g: Grid, p: Player, inputs: seq<int>)
    ensures Distinct(Run(g, p, inputs).log)
    decreases |inputs|
  {
    var t := Turn(g, p, inputs);
    if t.Moved? {
      TurnMoved(g, p, inputs);
      if !Wins(t.grid, p) && !IsFull(t.grid) {
        var tail := Run(t.grid, Other(p), t.rest).log;
        RunDistinct(t.grid, Other(p), t.rest);
        RunFree(t.grid, Other(p), t.rest);
        FreeAfterPlace(tail, g, t.move, p);
        DistinctCons(Mark(p, t.move), tail);
      }
    }
  }

  /** Every cell that no accepted move names is as it was on `g`. */
  lemma {:induction false} RunKeepsUnmarked(g: Grid, p: Player, inputs: seq<int>, m: int)
    requires 1 <= m <= 9 && Unmarked(Run(g, p, inputs).log, m)
    ensures At(Run(g, p, inputs).grid, m) == At(g, m)
    decreases |inputs|
  {
    var t := Turn(g, p, inputs);
    if t.Moved? {
      TurnMoved(g, p, inputs);
      var log := Run(g, p, inputs).log;
      assert log[0].move == t.move;
      PlaceAt(g, t.move, p, m);
      if !Wins(t.grid, p) && !IsFull(t.grid) {
        var tail := Run(t.grid, Other(p), t.rest).log;
        assert Unmarked(tail, m) by {
          forall i | 0 <= i < |tail|
            ensures tail[i].move != m
          {
            assert tail[i] == log[i + 1];
          }
        }
        RunKeepsUnmarked(t.grid, Other(p), t.rest, m);
      }
    }
  }

  /** At the end, every accepted move's cell shows the symbol of the player
      who made it. */
  lemma {:induction false} RunShown(g: Grid, p: Player, inputs: seq<int>)
    ensures Shown(Run(g, p, inputs).log, Run(g, p, inputs).grid)
    decreases |inputs|
  {
    var t := Turn(g, p, inputs);
    if t.Moved? {
      TurnMoved(g, p, inputs);
      PlaceAt(g, t.move, p, t.move);
      if !Wins(t.grid, p) && !IsFull(t.grid) {
        var e' := Run(t.grid, Other(p), t.rest);
        RunShown(t.grid, Other(p), t.rest);
        RunFree(t.grid, Other(p), t.rest);
        FreeAfterPlace(e'.log, g, t.move, p);
        RunKeepsUnmarked(t.grid, Other(p), t.rest, t.move);
        ShownCons(Mark(p, t.move), e'.log, e'.grid);
      }
    }
  }

  /** The occupied count grows by exactly one per accepted move. */
  lemma {:induction false} RunCount(g: Grid, p: Player, inputs: seq<int>)
    ensures Count(Run(g, p, inputs).grid) == Count(g) + |Run(g, p, inputs).log|
    decreases |inputs|
  {
    var t := Turn(g, p, inputs);
    if t.Moved? {
      TurnMoved(g, p, inputs);
      PlaceCount(g, t.move, p);
      if !Wins(t.grid, p) && !IsFull(t.grid) {
        RunCount(t.grid, Other(p), t.rest);
      }
    }
  }

  /** A game accepts at most 9 - Count(g) moves, so it stops after at most
      nine; one still awaiting a move has had fewer than nine. */
  lemma RunLength(g: Grid, p: Player, inputs: seq<int>)
    requires Undecided(g)
    ensures |Run(g, p, inputs).log| <= 9 - Count(g)
    ensures Run(g, p, inputs).status.AwaitingMove? ==> Count(g) + |Run(g, p, inputs).log| < 9
  {
    RunCount(g, p, inputs);
    RunOutcome(g, p, inputs);
    FullIffNine(Run(g, p, inputs).grid);
  }

  /** The turns of a whole game from the labelled board: X, O, X, ... in
      turn; at most nine moves; a game awaiting a move awaits X after an
      even number of moves and O after an odd number; a win goes to the
      player who moved last. */
  lemma GameTurns(inputs: seq<int>)
    ensures var e := Game(inputs);
      Alternating(e.log, 'X') &&
      |e.log| <= 9 &&
      (e.status.AwaitingMove? ==> |e.log| < 9 && e.status.next == if |e.log| % 2 == 0 then 'X' else 'O') &&
      (e.status.Won? ==> |e.log| > 0 && e.status.winner == e.log[|e.log| - 1].player)
  {
    var g := Initial();
    InitialUndecided('X');
    InitialUndecided('O');
    InitialCount();
    RunAlternates(g, 'X', inputs);
    RunNext(g, 'X', inputs);
    RunLastMover(g, 'X', inputs);
    RunLength(g, 'X', inputs);
  }

  /** The board at the end of a whole game: every logged cell shows its
      player, no cell is logged twice, and every other cell still shows its
      digit. */
  lemma GameCells(inputs: seq<int>)
    ensures var e := Game(inputs);
      (forall i :: 0 <= i < |e.log| ==> 1 <= e.log[i].move <= 9 && At(e.grid, e.log[i].move) == e.log[i].player) &&
      (forall i, j :: 0 <= i < j < |e.log| ==> e.log[i].move != e.log[j].move) &&
      (forall m :: 1 <= m <= 9 && Unmarked(e.log, m) ==> At(e.grid, m) == Digit(m))
  {
    var g := Initial();
    RunDistinct(g, 'X', inputs);
    RunShown(g, 'X', inputs);
    var e := Game(inputs);
    forall m | 1 <= m <= 9 && Unmarked(e.log, m)
      ensures At(e.grid, m) == Digit(m)
    {
      InitialLabels(m);
      RunKeepsUnmarked(g, 'X', inputs, m);
    }
  }

  /** The outcome of a whole game: a win leaves the winner with a line and
      the loser without one; a draw leaves a full board with no line for
      either player; a game awaiting a move is undecided. */
  lemma GameOutcome(inputs: seq<int>)
    ensures var e := Game(inputs);
      (e.status.Won? ==> Wins(e.grid, e.status.winner) && !Wins(e.grid, Other(e.status.winner))) &&
      (e.status.Draw? ==> IsFull(e.grid) && !Wins(e.grid, 'X') && !Wins(e.grid, 'O')) &&
      (e.status.AwaitingMove? ==> Undecided(e.grid))
  {
    InitialUndecided('X');
    InitialUndecided('O');
    RunOutcome(Initial(), 'X', inputs);
  }

  /** main: initialise the board, then turns until a win or a draw. The
      result also states what a game awaiting a move looks like when the
      inputs run out. */
  method PlayGame(inputs: seq<int>) returns (result: GameEnd)
    ensures result == Game(inputs)
  {
    var board := InitBoard();
    var currentPlayer: Player := 'X';
    var gameWon, gameDraw := false, false;
    var pos: nat := 0;
    var log: seq<Mark> := [];
    while !gameWon && !gameDraw
      invariant Is3x3(board) && pos <= |inputs|
      invariant !gameWon && !gameDraw ==>
        Game(inputs) == After(log, Run(Snapshot(board), currentPlayer, inputs[pos..]))
      invariant gameWon ==> Game(inputs) == GameEnd(Won(currentPlayer), Snapshot(board), log)
      invariant gameDraw ==> Game(inputs) == GameEnd(Draw, Snapshot(board), log)
      decreases |inputs| - pos
    {
      ghost var before := Snapshot(board);
      ghost var rest := inputs[pos..];
      var moved, move;
      pos, moved, move := GetPlayerMove(board, currentPlayer, inputs, pos);
      if !moved {
        assert log + [] == log;
        return GameEnd(AwaitingMove(currentPlayer), Snapshot(board), log);
      }
      AfterAfter(log, [Mark(currentPlayer, move)], Run(Snapshot(board), Other(currentPlayer), inputs[pos..]));
      log := log + [Mark(currentPlayer, move)];
      gameWon := CheckWin(board, currentPlayer);
      if !gameWon {
        gameDraw := CheckDraw(board);
        if !gameDraw {
          currentPlayer := Other(currentPlayer);
        }
      }
    }
    return GameEnd(if gameWon then Won(currentPlayer) else Draw, Snapshot(board), log);
  }
}
