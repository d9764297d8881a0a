/** Reading a move for the current player: one attempt (range check,
    occupancy check, placement) and the retry loop around it, over a given
    sequence of input integers. */
module MoveInput {
  import opened Board
  import Rules

  /** What one attempt does with an input integer. */
  datatype Outcome = Invalid | Taken | Placed

  /** The verdict on `move` for the board `g`: outside 1..9 it is invalid,
      on a cell holding 'X' or 'O' it is taken, otherwise it is placed. */
  function Classify(g: Grid, move: int): Outcome
  {
    if move < 1 || move > 9 then Invalid
    else if Occupied(At(g, move)) then Taken
    else Placed
  }

  /** The board after `p` marks the cell of `move`: that cell holds `p`,
      every other cell is as before. */
  function Place(g: Grid, move: int, p: Player): (h: Grid)
    requires 1 <= move <= 9
    ensures forall r, c :: InRange(r, c) ==>
      Cell(h, r, c) == if (r, c) == (RowOf(move), ColOf(move)) then p else Cell(g, r, c)
  {
    MoveToCell(move);
    g[move - 1 := p]
  }

  /** The verdicts are exhaustive and exclusive as the source's branches
      are: Invalid exactly outside 1..9, Taken exactly on an occupied cell,
      Placed exactly on a free cell in range. */
  lemma ClassifyCases(g: Grid, move: int)
    ensures Classify(g, move) == Invalid <==> !(1 <= move <= 9)
    ensures Classify(g, move) == Taken <==> 1 <= move <= 9 && Occupied(At(g, move))
    ensures Classify(g, move) == Placed <==> 1 <= move <= 9 && !Occupied(At(g, move))
  {
  }

  /** After a placement, the cell of move m holds the player if it is the
      placed move and is as before otherwise. */
  lemma PlaceAt(g: Grid, move: int, p: Player, m: int)
    requires 1 <= move <= 9 && 1 <= m <= 9
    ensures At(Place(g, move, p), m) == if m == move then p else At(g, m)
  {
    MoveToCell(move);
    MoveToCell(m);
  }

  /** A placement by a player changes only the designated cell, which was
      free and now holds the player, so the occupied count grows by one. */
  lemma PlaceCount(g: Grid, move: int, p: Player)
    requires Classify(g, move) == Placed
    ensures At(Place(g, move, p), move) == p
    ensures forall m :: 1 <= m <= 9 && m != move ==> At(Place(g, move, p), m) == At(g, m)
    ensures Rules.Count(Place(g, move, p)) == Rules.Count(g) + 1
  {
    PlaceAt(g, move, p, move);
    forall m | 1 <= m <= 9 && m != move
      ensures At(Place(g, move, p), m) == At(g, m)
    {
      PlaceAt(g, move, p, m);
    }
    AtIndex(g, move);
    Rules.CountUpdate(g, move - 1, p);
  }

  /** One attempt of getPlayerMove on the board array: reject an input
      outside 1..9, reject an occupied cell, otherwise write the player's
      symbol into the cell. */
  method TryMove(board: array2<char>, player: Player, move: int) returns (outcome: Outcome)
    requires Is3x3(board)
    modifies board
    ensures outcome == Classify(old(Snapshot(board)), move)
    ensures outcome != Placed ==> unchanged(board)
    ensures outcome == Placed ==> Snapshot(board) == Place(old(Snapshot(board)), move, player)
  {
    if move < 1 || move > 9 {
      outcome := Invalid;
    } else {
      var row := (move - 1) / Size;
      var col := (move - 1) % Size;
      if board[row, col] != 'X' && board[row, col] != 'O' {
        ghost var before := Snapshot(board);
        board[row, col] := player;
        outcome := Placed;
        SnapshotExt(Snapshot(board), Place(before, move, player));
      } else {
        outcome := Taken;
      }
    }
  }

  /** The result of a turn: the first acceptable input, the board after it
      and the inputs left; or the inputs ran out first. */
  datatype TurnResult = Moved(move: int, grid: Grid, rest: seq<int>) | Starved

  /** The retry loop of getPlayerMove on a value board: inputs are tried in
      order, rejected ones are skipped, and the first acceptable one is
      placed. A turn that moves consumes at least one input. */
  function Turn(g: Grid, p: Player, inputs: seq<int>): (t: TurnResult)
    ensures t.Moved? ==> |t.rest| < |inputs|
    decreases |inputs|
  {
    if inputs == [] then Starved
    else if Classify(g, inputs[0]) == Placed then Moved(inputs[0], Place(g, inputs[0], p), inputs[1..])
    else Turn(g, p, inputs[1..])
  }

  /** A turn runs out exactly when no input is acceptable. */
  lemma {:induction false} TurnStarves(g: Grid, p: Player, inputs: seq<int>)
    ensures Turn(g, p, inputs).Starved? <==> forall i :: 0 <= i < |inputs| ==> Classify(g, inputs[i]) != Placed
    decreases |inputs|
  {
    if inputs != [] && Classify(g, inputs[0]) != Placed {
      TurnStarves(g, p, inputs[1..]);
      assert forall i :: 1 <= i < |inputs| ==> inputs[i] == inputs[1..][i - 1];
    }
  }

  /** A turn that moves accepts the first acceptable input n: it places
      that input, every input before n is rejected, and the inputs after n
      are left. */
  lemma {:induction false} TurnAccepts(g: Grid, p: Player, inputs: seq<int>)
    ensures var t := Turn(g, p, inputs);
      t.Moved? ==>
        var n := |inputs| - |t.rest| - 1;
        0 <= n < |inputs| && t.move == inputs[n] && t.rest == inputs[n + 1..] &&
        Classify(g, t.move) == Placed && t.grid == Place(g, t.move, p) &&
        forall i :: 0 <= i < n ==> Classify(g, inputs[i]) != Placed
    decreases |inputs|
  {
    if inputs != [] && Classify(g, inputs[0]) != Placed {
      var rest := inputs[1..];
      TurnAccepts(g, p, rest);
      var t := Turn(g, p, rest);
      if t.Moved? {
        assert forall i :: 1 <= i < |inputs| ==> inputs[i] == rest[i - 1];
        assert rest[|rest| - |t.rest|..] == inputs[|inputs| - |t.rest|..];
      }
    }
  }

  /** A turn that moves accepted an acceptable input and placed it. */
  lemma TurnMoved(g: Grid, p: Player, inputs: seq<int>)
    requires Turn(g, p, inputs).Moved?
    ensures var t := Turn(g, p, inputs);
      Classify(g, t.move) == Placed && t.grid == Place(g, t.move, p)
  {
    TurnAccepts(g, p, inputs);
  }

  /** One step of the retry loop: the turn from input i onward either
      accepts input i or continues from input i + 1. */
  lemma TurnStep(g: Grid, p: Player, inputs: seq<int>, i: int)
    requires 0 <= i < |inputs|
    ensures Turn(g, p, inputs[i..]) ==
      if Classify(g, inputs[i]) == Placed then Moved(inputs[i], Place(g, inputs[i], p), inputs[i + 1..])
      else Turn(g, p, inputs[i + 1..])
  {
    assert inputs[i..][1..] == inputs[i + 1..];
  }

  /** getPlayerMove: keeps reading inputs from position `start` until one is
      accepted; `next` is the position after the last input read. If the
      inputs run out first, nothing is placed and the board is unchanged. */
  method GetPlayerMove(board: array2<char>, player: Player, inputs: seq<int>, start: nat)
    returns (next: nat, validMove: bool, move: int)
    requires Is3x3(board) && start <= |inputs|
    modifies board
    ensures start <= next <= |inputs|
    ensures validMove ==>
      Turn(old(Snapshot(board)), player, inputs[start..]) == Moved(move, Snapshot(board), inputs[next..])
    ensures !validMove ==>
      Turn(old(Snapshot(board)), player, inputs[start..]) == Starved && next == |inputs| && unchanged(board)
  {
    ghost var g := Snapshot(board);
    next, validMove, move := start, false, 0;
    while !validMove
      invariant start <= next <= |inputs|
      invariant !validMove ==> unchanged(board) && Turn(g, player, inputs[start..]) == Turn(g, player, inputs[next..])
      invariant validMove ==> Turn(g, player, inputs[start..]) == Moved(move, Snapshot(board), inputs[next..])
      decreases |inputs| - next
    {
      if next == |inputs| {
        assert inputs[next..] == [];
        return;
      }
      var m := inputs[next];
      TurnStep(g, player, inputs, next);
      var outcome := TryMove(board, player, m);
      next := next + 1;
      if outcome == Placed {
        validMove, move := true, m;
      }
    }
  }
}
