/** Games played from the labelled board, three to their end and one until
    its inputs run out. Each game has its inputs (`...Moves`) and its
    expected list of accepted moves (`...Log`); stage lemma k states the
    rest of the game from input k onward, and the stages are chained from
    the last move back to the first. */
module Scenarios {
  import opened Board
  import opened Rules
  import opened MoveInput
  import opened GameLoop

  /** `s` is the sequence `t`, stated element by element. */
  predicate Spells(s: seq<int>, t: seq<int>)
  {
    |s| == |t| && forall i :: 0 <= i < |t| ==> s[i] == t[i]
  }

  /** An accepted input k that leaves the game undecided hands the turn to
      the other player at input k + 1; its move is entry j of the log and
      the rest of the game yields the entries after j. */
  lemma Continues(g: Grid, p: Player, inputs: seq<int>, k: nat, h: Grid, log: seq<Mark>, j: nat,
                  status: Status, final: Grid)
    requires k < |inputs| && j < |log| && log[j] == Mark(p, inputs[k])
    requires Classify(g, inputs[k]) == Placed && h == Place(g, inputs[k], p) && !Wins(h, p) && !IsFull(h)
    requires Run(h, Other(p), inputs[k + 1..]) == GameEnd(status, final, log[j + 1..])
    ensures Run(g, p, inputs[k..]) == GameEnd(status, final, log[j..])
  {
    assert inputs[k..][1..] == inputs[k + 1..];
    assert log[j..] == [log[j]] + log[j + 1..];
  }

  /** An accepted input k that completes a line for the mover ends the
      game as a win with the last move of the log. */
  lemma Finishes(g: Grid, p: Player, inputs: seq<int>, k: nat, h: Grid, log: seq<Mark>)
    requires k < |inputs| && |log| > 0 && log[|log| - 1] == Mark(p, inputs[k])
    requires Classify(g, inputs[k]) == Placed && h == Place(g, inputs[k], p) && Wins(h, p)
    ensures Run(g, p, inputs[k..]) == GameEnd(Won(p), h, log[|log| - 1..])
  {
    assert log[|log| - 1..] == [log[|log| - 1]];
  }

  /** An accepted input k that completes no line and fills the board ends
      the game as a draw with the last move of the log. */
  lemma Fills(g: Grid, p: Player, inputs: seq<int>, k: nat, h: Grid, log: seq<Mark>)
    requires k < |inputs| && |log| > 0 && log[|log| - 1] == Mark(p, inputs[k])
    requires Classify(g, inputs[k]) == Placed && h == Place(g, inputs[k], p) && !Wins(h, p) && IsFull(h)
    ensures Run(g, p, inputs[k..]) == GameEnd(Draw, h, log[|log| - 1..])
  {
    assert log[|log| - 1..] == [log[|log| - 1]];
  }

  /** A rejected input k is skipped: the same player tries input k + 1. */
  lemma Skips(g: Grid, p: Player, inputs: seq<int>, k: nat)
    requires k < |inputs| && Classify(g, inputs[k]) != Placed
    ensures Run(g, p, inputs[k..]) == Run(g, p, inputs[k + 1..])
  {
    assert inputs[k..][1..] == inputs[k + 1..];
  }

  /** A board with a free cell is not full. */
  lemma NotFull(g: Grid, m: int)
    requires 1 <= m <= 9 && !Occupied(At(g, m))
    ensures !IsFull(g)
  {
    MoveToCell(m);
  }

  // X takes 1, 4 and 7 (the first column) while O takes 2 and 5.

  const ColumnWinMoves := [1, 2, 4, 5, 7]
  const ColumnWinLog := [Mark('X', 1), Mark('O', 2), Mark('X', 4), Mark('O', 5), Mark('X', 7)]

  lemma ColumnWin4(g: Grid, inputs: seq<int>)
    requires g == "XO3XO6789" && Spells(inputs, ColumnWinMoves)
    ensures Run(g, 'X', inputs[4..]) == GameEnd(Won('X'), "XO3XO6X89", ColumnWinLog[4..])
  {
    assert Classify(g, inputs[4]) == Placed && Place(g, inputs[4], 'X') == "XO3XO6X89";
    assert Wins("XO3XO6X89", 'X') by { WinsIffEightLines("XO3XO6X89", 'X'); }
    Finishes(g, 'X', inputs, 4, "XO3XO6X89", ColumnWinLog);
  }

  lemma ColumnWin3(g: Grid, inputs: seq<int>)
    requires g == "XO3X56789" && Spells(inputs, ColumnWinMoves)
    ensures Run(g, 'O', inputs[3..]) == GameEnd(Won('X'), "XO3XO6X89", ColumnWinLog[3..])
  {
    assert Classify(g, inputs[3]) == Placed && Place(g, inputs[3], 'O') == "XO3XO6789";
    assert !Wins("XO3XO6789", 'O') by { WinsIffEightLines("XO3XO6789", 'O'); }
    NotFull("XO3XO6789", 9);
    ColumnWin4("XO3XO6789", inputs);
    Continues(g, 'O', inputs, 3, "XO3XO6789", ColumnWinLog, 3, Won('X'), "XO3XO6X89");
  }

  lemma ColumnWin2(g: Grid, inputs: seq<int>)
    requires g == "XO3456789" && Spells(inputs, ColumnWinMoves)
    ensures Run(g, 'X', inputs[2..]) == GameEnd(Won('X'), "XO3XO6X89", ColumnWinLog[2..])
  {
    assert Classify(g, inputs[2]) == Placed && Place(g, inputs[2], 'X') == "XO3X56789";
    assert !Wins("XO3X56789", 'X') by { WinsIffEightLines("XO3X56789", 'X'); }
    NotFull("XO3X56789", 9);
    ColumnWin3("XO3X56789", inputs);
    Continues(g, 'X', inputs, 2, "XO3X56789", ColumnWinLog, 2, Won('X'), "XO3XO6X89");
  }

  lemma ColumnWin1(g: Grid, inputs: seq<int>)
    requires g == "X23456789" && Spells(inputs, ColumnWinMoves)
    ensures Run(g, 'O', inputs[1..]) == GameEnd(Won('X'), "XO3XO6X89", ColumnWinLog[1..])
  {
    assert Classify(g, inputs[1]) == Placed && Place(g, inputs[1], 'O') == "XO3456789";
    assert !Wins("XO3456789", 'O') by { WinsIffEightLines("XO3456789", 'O'); }
    NotFull("XO3456789", 9);
    ColumnWin2("XO3456789", inputs);
    Continues(g, 'O', inputs, 1, "XO3456789", ColumnWinLog, 1, Won('X'), "XO3XO6X89");
  }

  lemma ColumnWin0(g: Grid, inputs: seq<int>)
    requires g == "123456789" && Spells(inputs, ColumnWinMoves)
    ensures Run(g, 'X', inputs[0..]) == GameEnd(Won('X'), "XO3XO6X89", ColumnWinLog[0..])
  {
    assert Classify(g, inputs[0]) == Placed && Place(g, inputs[0], 'X') == "X23456789";
    assert !Wins("X23456789", 'X') by { WinsIffEightLines("X23456789", 'X'); }
    NotFull("X23456789", 9);
    ColumnWin1("X23456789", inputs);
    Continues(g, 'X', inputs, 0, "X23456789", ColumnWinLog, 0, Won('X'), "XO3XO6X89");
  }

  /** Moves 1, 2, 4, 5, 7: X wins with the first column on the fifth move. */
  lemma ColumnWin(inputs: seq<int>)
    requires inputs == [1, 2, 4, 5, 7]
    ensures Game(inputs) ==
      GameEnd(Won('X'), "XO3XO6X89",
        [Mark('X', 1), Mark('O', 2), Mark('X', 4), Mark('O', 5), Mark('X', 7)])
  {
    InitialIs();
    ColumnWin0(Initial(), inputs);
    assert inputs[0..] == inputs && ColumnWinLog[0..] == ColumnWinLog;
  }

  // X takes 1, 3, 4, 8, 9 and O takes 2, 5, 7, 6: nobody completes a line.

  const DrawnMoves := [1, 2, 3, 5, 4, 7, 8, 6, 9]
  const DrawnLog := [Mark('X', 1), Mark('O', 2), Mark('X', 3), Mark('O', 5), Mark('X', 4), Mark('O', 7),
     Mark('X', 8), Mark('O', 6), Mark('X', 9)]

  lemma Drawn8(g: Grid, inputs: seq<int>)
    requires g == "XOXXOOOX9" && Spells(inputs, DrawnMoves)
    ensures Run(g, 'X', inputs[8..]) == GameEnd(Draw, "XOXXOOOXX", DrawnLog[8..])
  {
    assert Classify(g, inputs[8]) == Placed && Place(g, inputs[8], 'X') == "XOXXOOOXX";
    assert !Wins("XOXXOOOXX", 'X') by { WinsIffEightLines("XOXXOOOXX", 'X'); }
    assert IsFull("XOXXOOOXX") by { FullIffNine("XOXXOOOXX"); }
    Fills(g, 'X', inputs, 8, "XOXXOOOXX", DrawnLog);
  }

  lemma Drawn7(g: Grid, inputs: seq<int>)
    requires g == "XOXXO6OX9" && Spells(inputs, DrawnMoves)
    ensures Run(g, 'O', inputs[7..]) == GameEnd(Draw, "XOXXOOOXX", DrawnLog[7..])
  {
    assert Classify(g, inputs[7]) == Placed && Place(g, inputs[7], 'O') == "XOXXOOOX9";
    assert !Wins("XOXXOOOX9", 'O') by { WinsIffEightLines("XOXXOOOX9", 'O'); }
    NotFull("XOXXOOOX9", 9);
    Drawn8("XOXXOOOX9", inputs);
    Continues(g, 'O', inputs, 7, "XOXXOOOX9", DrawnLog, 7, Draw, "XOXXOOOXX");
  }

  lemma Drawn6(g: Grid, inputs: seq<int>)
    requires g == "XOXXO6O89" && Spells(inputs, DrawnMoves)
    ensures Run(g, 'X', inputs[6..]) == GameEnd(Draw, "XOXXOOOXX", DrawnLog[6..])
  {
    assert Classify(g, inputs[6]) == Placed && Place(g, inputs[6], 'X') == "XOXXO6OX9";
    assert !Wins("XOXXO6OX9", 'X') by { WinsIffEightLines("XOXXO6OX9", 'X'); }
    NotFull("XOXXO6OX9", 9);
    Drawn7("XOXXO6OX9", inputs);
    Continues(g, 'X', inputs, 6, "XOXXO6OX9", DrawnLog, 6, Draw, "XOXXOOOXX");
  }

  lemma Drawn5(g: Grid, inputs: seq<int>)
    requires g == "XOXXO6789" && Spells(inputs, DrawnMoves)
    ensures Run(g, 'O', inputs[5..]) == GameEnd(Draw, "XOXXOOOXX", DrawnLog[5..])
  {
    assert Classify(g, inputs[5]) == Placed && Place(g, inputs[5], 'O') == "XOXXO6O89";
    assert !Wins("XOXXO6O89", 'O') by { WinsIffEightLines("XOXXO6O89", 'O'); }
    NotFull("XOXXO6O89", 9);
    Drawn6("XOXXO6O89", inputs);
    Continues(g, 'O', inputs, 5, "XOXXO6O89", DrawnLog, 5, Draw, "XOXXOOOXX");
  }

  lemma Drawn4(g: Grid, inputs: seq<int>)
    requires g == "XOX4O6789" && Spells(inputs, DrawnMoves)
    ensures Run(g, 'X', inputs[4..]) == GameEnd(Draw, "XOXXOOOXX", DrawnLog[4..])
  {
    assert Classify(g, inputs[4]) == Placed && Place(g, inputs[4], 'X') == "XOXXO6789";
    assert !Wins("XOXXO6789", 'X') by { WinsIffEightLines("XOXXO6789", 'X'); }
    NotFull("XOXXO6789", 9);
    Drawn5("XOXXO6789", inputs);
    Continues(g, 'X', inputs, 4, "XOXXO6789", DrawnLog, 4, Draw, "XOXXOOOXX");
  }

  lemma Drawn3(g: Grid, inputs: seq<int>)
    requires g == "XOX456789" && Spells(inputs, DrawnMoves)
    ensures Run(g, 'O', inputs[3..]) == GameEnd(Draw, "XOXXOOOXX", DrawnLog[3..])
  {
    assert Classify(g, inputs[3]) == Placed && Place(g, inputs[3], 'O') == "XOX4O6789";
    assert !Wins("XOX4O6789", 'O') by { WinsIffEightLines("XOX4O6789", 'O'); }
    NotFull("XOX4O6789", 9);
    Drawn4("XOX4O6789", inputs);
    Continues(g, 'O', inputs, 3, "XOX4O6789", DrawnLog, 3, Draw, "XOXXOOOXX");
  }

  lemma Drawn2(g: Grid, inputs: seq<int>)
    requires g == "XO3456789" && Spells(inputs, DrawnMoves)
    ensures Run(g, 'X', inputs[2..]) == GameEnd(Draw, "XOXXOOOXX", DrawnLog[2..])
  {
    assert Classify(g, inputs[2]) == Placed && Place(g, inputs[2], 'X') == "XOX456789";
    assert !Wins("XOX456789", 'X') by { WinsIffEightLines("XOX456789", 'X'); }
    NotFull("XOX456789", 9);
    Drawn3("XOX456789", inputs);
    Continues(g, 'X', inputs, 2, "XOX456789", DrawnLog, 2, Draw, "XOXXOOOXX");
  }

  lemma Drawn1(g: Grid, inputs: seq<int>)
    requires g == "X23456789" && Spells(inputs, DrawnMoves)
    ensures Run(g, 'O', inputs[1..]) == GameEnd(Draw, "XOXXOOOXX", DrawnLog[1..])
  {
    assert Classify(g, inputs[1]) == Placed && Place(g, inputs[1], 'O') == "XO3456789";
    assert !Wins("XO3456789", 'O') by { WinsIffEightLines("XO3456789", 'O'); }
    NotFull("XO3456789", 9);
    Drawn2("XO3456789", inputs);
    Continues(g, 'O', inputs, 1, "XO3456789", DrawnLog, 1, Draw, "XOXXOOOXX");
  }

  lemma Drawn0(g: Grid, inputs: seq<int>)
    requires g == "123456789" && Spells(inputs, DrawnMoves)
    ensures Run(g, 'X', inputs[0..]) == GameEnd(Draw, "XOXXOOOXX", DrawnLog[0..])
  {
    assert Classify(g, inputs[0]) == Placed && Place(g, inputs[0], 'X') == "X23456789";
    assert !Wins("X23456789", 'X') by { WinsIffEightLines("X23456789", 'X'); }
    NotFull("X23456789", 9);
    Drawn1("X23456789", inputs);
    Continues(g, 'X', inputs, 0, "X23456789", DrawnLog, 0, Draw, "XOXXOOOXX");
  }

  /** Moves 1, 2, 3, 5, 4, 7, 8, 6, 9 fill the board with no line for
      either player: a draw after the ninth move. */
  lemma Drawn(inputs: seq<int>)
    requires inputs == [1, 2, 3, 5, 4, 7, 8, 6, 9]
    ensures Game(inputs) ==
      GameEnd(Draw, "XOXXOOOXX",
        [Mark('X', 1), Mark('O', 2), Mark('X', 3), Mark('O', 5), Mark('X', 4), Mark('O', 7),
         Mark('X', 8), Mark('O', 6), Mark('X', 9)])
  {
    InitialIs();
    Drawn0(Initial(), inputs);
    assert inputs[0..] == inputs && DrawnLog[0..] == DrawnLog;
  }

  // X takes 1, 3, 5, 8 and finally 9; O takes 2, 4, 6, 7.

  const LastCellWinMoves := [1, 2, 3, 4, 5, 6, 8, 7, 9]
  const LastCellWinLog := [Mark('X', 1), Mark('O', 2), Mark('X', 3), Mark('O', 4), Mark('X', 5), Mark('O', 6),
     Mark('X', 8), Mark('O', 7), Mark('X', 9)]

  lemma LastCellWin8(g: Grid, inputs: seq<int>)
    requires g == "XOXOXOOX9" && Spells(inputs, LastCellWinMoves)
    ensures Run(g, 'X', inputs[8..]) == GameEnd(Won('X'), "XOXOXOOXX", LastCellWinLog[8..])
  {
    assert Classify(g, inputs[8]) == Placed && Place(g, inputs[8], 'X') == "XOXOXOOXX";
    assert Wins("XOXOXOOXX", 'X') by { WinsIffEightLines("XOXOXOOXX", 'X'); }
    Finishes(g, 'X', inputs, 8, "XOXOXOOXX", LastCellWinLog);
  }

  lemma LastCellWin7(g: Grid, inputs: seq<int>)
    requires g == "XOXOXO7X9" && Spells(inputs, LastCellWinMoves)
    ensures Run(g, 'O', inputs[7..]) == GameEnd(Won('X'), "XOXOXOOXX", LastCellWinLog[7..])
  {
    assert Classify(g, inputs[7]) == Placed && Place(g, inputs[7], 'O') == "XOXOXOOX9";
    assert !Wins("XOXOXOOX9", 'O') by { WinsIffEightLines("XOXOXOOX9", 'O'); }
    NotFull("XOXOXOOX9", 9);
    LastCellWin8("XOXOXOOX9", inputs);
    Continues(g, 'O', inputs, 7, "XOXOXOOX9", LastCellWinLog, 7, Won('X'), "XOXOXOOXX");
  }

  lemma LastCellWin6(g: Grid, inputs: seq<int>)
    requires g == "XOXOXO789" && Spells(inputs, LastCellWinMoves)
    ensures Run(g, 'X', inputs[6..]) == GameEnd(Won('X'), "XOXOXOOXX", LastCellWinLog[6..])
  {
    assert Classify(g, inputs[6]) == Placed && Place(g, inputs[6], 'X') == "XOXOXO7X9";
    assert !Wins("XOXOXO7X9", 'X') by { WinsIffEightLines("XOXOXO7X9", 'X'); }
    NotFull("XOXOXO7X9", 9);
    LastCellWin7("XOXOXO7X9", inputs);
    Continues(g, 'X', inputs, 6, "XOXOXO7X9", LastCellWinLog, 6, Won('X'), "XOXOXOOXX");
  }

  lemma LastCellWin5(g: Grid, inputs: seq<int>)
    requires g == "XOXOX6789" && Spells(inputs, LastCellWinMoves)
    ensures Run(g, 'O', inputs[5..]) == GameEnd(Won('X'), "XOXOXOOXX", LastCellWinLog[5..])
  {
    assert Classify(g, inputs[5]) == Placed && Place(g, inputs[5], 'O') == "XOXOXO789";
    assert !Wins("XOXOXO789", 'O') by { WinsIffEightLines("XOXOXO789", 'O'); }
    NotFull("XOXOXO789", 9);
    LastCellWin6("XOXOXO789", inputs);
    Continues(g, 'O', inputs, 5, "XOXOXO789", LastCellWinLog, 5, Won('X'), "XOXOXOOXX");
  }

  lemma LastCellWin4(g: Grid, inputs: seq<int>)
    requires g == "XOXO56789" && Spells(inputs, LastCellWinMoves)
    ensures Run(g, 'X', inputs[4..]) == GameEnd(Won('X'), "XOXOXOOXX", LastCellWinLog[4..])
  {
    assert Classify(g, inputs[4]) == Placed && Place(g, inputs[4], 'X') == "XOXOX6789";
    assert !Wins("XOXOX6789", 'X') by { WinsIffEightLines("XOXOX6789", 'X'); }
    NotFull("XOXOX6789", 9);
    LastCellWin5("XOXOX6789", inputs);
    Continues(g, 'X', inputs, 4, "XOXOX6789", LastCellWinLog, 4, Won('X'), "XOXOXOOXX");
  }

  lemma LastCellWin3(g: Grid, inputs: seq<int>)
    requires g == "XOX456789" && Spells(inputs, LastCellWinMoves)
    ensures Run(g, 'O', inputs[3..]) == GameEnd(Won('X'), "XOXOXOOXX", LastCellWinLog[3..])
  {
    assert Classify(g, inputs[3]) == Placed && Place(g, inputs[3], 'O') == "XOXO56789";
    assert !Wins("XOXO56789", 'O') by { WinsIffEightLines("XOXO56789", 'O'); }
    NotFull("XOXO56789", 9);
    LastCellWin4("XOXO56789", inputs);
    Continues(g, 'O', inputs, 3, "XOXO56789", LastCellWinLog, 3, Won('X'), "XOXOXOOXX");
  }

  lemma LastCellWin2(g: Grid, inputs: seq<int>)
    requires g == "XO3456789" && Spells(inputs, LastCellWinMoves)
    ensures Run(g, 'X', inputs[2..]) == GameEnd(Won('X'), "XOXOXOOXX", LastCellWinLog[2..])
  {
    assert Classify(g, inputs[2]) == Placed && Place(g, inputs[2], 'X') == "XOX456789";
    assert !Wins("XOX456789", 'X') by { WinsIffEightLines("XOX456789", 'X'); }
    NotFull("XOX456789", 9);
    LastCellWin3("XOX456789", inputs);
    Continues(g, 'X', inputs, 2, "XOX456789", LastCellWinLog, 2, Won('X'), "XOXOXOOXX");
  }

  lemma LastCellWin1(g: Grid, inputs: seq<int>)
    requires g == "X23456789" && Spells(inputs, LastCellWinMoves)
    ensures Run(g, 'O', inputs[1..]) == GameEnd(Won('X'), "XOXOXOOXX", LastCellWinLog[1..])
  {
    assert Classify(g, inputs[1]) == Placed && Place(g, inputs[1], 'O') == "XO3456789";
    assert !Wins("XO3456789", 'O') by { WinsIffEightLines("XO3456789", 'O'); }
    NotFull("XO3456789", 9);
    LastCellWin2("XO3456789", inputs);
    Continues(g, 'O', inputs, 1, "XO3456789", LastCellWinLog, 1, Won('X'), "XOXOXOOXX");
  }

  lemma LastCellWin0(g: Grid, inputs: seq<int>)
    requires g == "123456789" && Spells(inputs, LastCellWinMoves)
    ensures Run(g, 'X', inputs[0..]) == GameEnd(Won('X'), "XOXOXOOXX", LastCellWinLog[0..])
  {
    assert Classify(g, inputs[0]) == Placed && Place(g, inputs[0], 'X') == "X23456789";
    assert !Wins("X23456789", 'X') by { WinsIffEightLines("X23456789", 'X'); }
    NotFull("X23456789", 9);
    LastCellWin1("X23456789", inputs);
    Continues(g, 'X', inputs, 0, "X23456789", LastCellWinLog, 0, Won('X'), "XOXOXOOXX");
  }

  /** Moves 1, 2, 3, 4, 5, 6, 8, 7, 9: X's ninth move fills the last free
      cell and completes the diagonal 1-5-9, and the game is a win for X, not
      a draw. */
  lemma LastCellWin(inputs: seq<int>)
    requires inputs == [1, 2, 3, 4, 5, 6, 8, 7, 9]
    ensures IsFull("XOXOXOOXX")
    ensures Game(inputs) ==
      GameEnd(Won('X'), "XOXOXOOXX",
        [Mark('X', 1), Mark('O', 2), Mark('X', 3), Mark('O', 4), Mark('X', 5), Mark('O', 6),
         Mark('X', 8), Mark('O', 7), Mark('X', 9)])
  {
    FullIffNine("XOXOXOOXX");
    InitialIs();
    LastCellWin0(Initial(), inputs);
    assert inputs[0..] == inputs && LastCellWinLog[0..] == LastCellWinLog;
  }

  // X takes 5; O's inputs 10 and 5 are rejected before O takes 1.

  const RetriesMoves := [5, 10, 5, 1]
  const RetriesLog := [Mark('X', 5), Mark('O', 1)]

  lemma Retries1(g: Grid, inputs: seq<int>)
    requires g == "1234X6789" && Spells(inputs, RetriesMoves)
    ensures Run(g, 'O', inputs[1..]) == GameEnd(AwaitingMove('X'), "O234X6789", RetriesLog[1..])
  {
    assert Classify(g, inputs[1]) == Invalid && Classify(g, inputs[2]) == Taken;
    assert Classify(g, inputs[3]) == Placed && Place(g, inputs[3], 'O') == "O234X6789";
    assert !Wins("O234X6789", 'O') by { WinsIffEightLines("O234X6789", 'O'); }
    NotFull("O234X6789", 9);
    assert inputs[4..] == [] && RetriesLog[2..] == [];
    Continues(g, 'O', inputs, 3, "O234X6789", RetriesLog, 1, AwaitingMove('X'), "O234X6789");
    Skips(g, 'O', inputs, 2);
    Skips(g, 'O', inputs, 1);
  }

  lemma Retries0(g: Grid, inputs: seq<int>)
    requires g == "123456789" && Spells(inputs, RetriesMoves)
    ensures Run(g, 'X', inputs[0..]) == GameEnd(AwaitingMove('X'), "O234X6789", RetriesLog[0..])
  {
    assert Classify(g, inputs[0]) == Placed && Place(g, inputs[0], 'X') == "1234X6789";
    assert !Wins("1234X6789", 'X') by { WinsIffEightLines("1234X6789", 'X'); }
    NotFull("1234X6789", 9);
    Retries1("1234X6789", inputs);
    Continues(g, 'X', inputs, 0, "1234X6789", RetriesLog, 0, AwaitingMove('X'), "O234X6789");
  }

  /** X takes 5; O then types 10 (out of range) and 5 (taken), both
      rejected without a change to the board, and takes 1; the input ends
      with X to move. */
  lemma Retries(inputs: seq<int>)
    requires inputs == [5, 10, 5, 1]
    ensures Classify("1234X6789", 10) == Invalid
    ensures Classify("1234X6789", 5) == Taken
    ensures Game(inputs) == GameEnd(AwaitingMove('X'), "O234X6789", [Mark('X', 5), Mark('O', 1)])
  {
    InitialIs();
    Retries0(Initial(), inputs);
    assert inputs[0..] == inputs && RetriesLog[0..] == RetriesLog;
  }
}
