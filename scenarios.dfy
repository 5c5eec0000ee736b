/** Whole games played through the click handler's model, from a blank page
    with an empty store. */
module Scenarios {
  import opened Board
  import opened GameSpec

  /** A board on which none of the eight lines belongs to `p`. Stated line by
      line so that a concrete board can be checked one line at a time. */
  lemma NoLine(b: seq<Cell>, p: Player)
    requires !Owns(b, Wins[0], p) && !Owns(b, Wins[1], p) && !Owns(b, Wins[2], p)
    requires !Owns(b, Wins[3], p) && !Owns(b, Wins[4], p) && !Owns(b, Wins[5], p)
    requires !Owns(b, Wins[6], p) && !Owns(b, Wins[7], p)
    ensures !HasWin(b, p)
  {
    forall k | 0 <= k < |Wins|
      ensures !Owns(b, Wins[k], p)
    {
      assert k == 0 || k == 1 || k == 2 || k == 3 || k == 4 || k == 5 || k == 6 || k == 7;
    }
  }

  /** An accepted move that neither wins nor fills the board: the mark is
      placed and the turn passes. */
  lemma Continues(s: GameState, i: CellIndex, b: seq<Cell>)
    requires |s.board| == 9 && s.board[i] == Blank && !s.over && s.filled + 1 < 9
    requires b == s.board[i := Marked(s.player)] && !HasWin(b, s.player)
    ensures Step(s, CellAt(i)) ==
      GameState(b, Opponent(s.player), s.filled + 1, false, s.scores, s.saved)
  {
  }

  /** An accepted move that completes a line: the game is over and won by
      the mover, whatever the count. */
  lemma Completes(s: GameState, i: CellIndex, b: seq<Cell>)
    requires |s.board| == 9 && s.board[i] == Blank && !s.over
    requires b == s.board[i := Marked(s.player)] && HasWin(b, s.player)
    ensures var sc := Tally(s.scores, Win(s.player));
      Step(s, CellAt(i)) == GameState(b, s.player, s.filled + 1, true, sc, Some(sc))
  {
  }

  /** An accepted ninth move without a line: the game is over as a draw. */
  lemma Draws(s: GameState, i: CellIndex, b: seq<Cell>)
    requires |s.board| == 9 && s.board[i] == Blank && !s.over && s.filled + 1 >= 9
    requires b == s.board[i := Marked(s.player)] && !HasWin(b, s.player)
    ensures var sc := Tally(s.scores, Draw);
      Step(s, CellAt(i)) == GameState(b, s.player, s.filled + 1, true, sc, Some(sc))
  {
  }

  /** O plays 0, 1, 2 while X plays 3, 4: O completes the top row on the
      fifth move; O's win counter goes from 0 to 1 and is saved. */
  lemma TopRowScenario()
    ensures var s1 := Step(Initial(None), CellAt(0));
      var s2 := Step(s1, CellAt(3));
      var s3 := Step(s2, CellAt(1));
      var s4 := Step(s3, CellAt(4));
      var s := Step(s4, CellAt(2));
      && s.over && s.player == O && s.filled == 5
      && FirstWin(s.board, O) == Some(0)
      && s.scores == Scores(1, 0, 0) && s.saved == Some(Scores(1, 0, 0))
  {
    var s0 := Initial(None);
    var b1 := s0.board[0 := Marked(O)];
    NoLine(b1, O);
    Continues(s0, 0, b1);
    var s1 := GameState(b1, X, 1, false, ZeroScores, None);
    var b2 := s1.board[3 := Marked(X)];
    NoLine(b2, X);
    Continues(s1, 3, b2);
    var s2 := GameState(b2, O, 2, false, ZeroScores, None);
    var b3 := s2.board[1 := Marked(O)];
    NoLine(b3, O);
    Continues(s2, 1, b3);
    var s3 := GameState(b3, X, 3, false, ZeroScores, None);
    var b4 := s3.board[4 := Marked(X)];
    NoLine(b4, X);
    Continues(s3, 4, b4);
    var s4 := GameState(b4, O, 4, false, ZeroScores, None);
    var b5 := s4.board[2 := Marked(O)];
    assert Owns(b5, Wins[0], O);
    Completes(s4, 2, b5);
  }

  /** A full board without a line: after the ninth move the game is a draw,
      only the draw counter is bumped, and O, who moved last, is still named. */
  lemma DrawScenario()
    ensures var s1 := Step(Initial(None), CellAt(0));
      var s2 := Step(s1, CellAt(1));
      var s3 := Step(s2, CellAt(2));
      var s4 := Step(s3, CellAt(4));
      var s5 := Step(s4, CellAt(3));
      var s6 := Step(s5, CellAt(5));
      var s7 := Step(s6, CellAt(7));
      var s8 := Step(s7, CellAt(6));
      var s := Step(s8, CellAt(8));
      && s.over && s.player == O && s.filled == 9
      && !HasWin(s.board, O) && !HasWin(s.board, X)
      && s.scores == Scores(0, 0, 1) && s.saved == Some(Scores(0, 0, 1))
  {
    var s0 := Initial(None);
    var b1 := s0.board[0 := Marked(O)];
    NoLine(b1, O);
    Continues(s0, 0, b1);
    var s1 := GameState(b1, X, 1, false, ZeroScores, None);
    var b2 := s1.board[1 := Marked(X)];
    NoLine(b2, X);
    Continues(s1, 1, b2);
    var s2 := GameState(b2, O, 2, false, ZeroScores, None);
    var b3 := s2.board[2 := Marked(O)];
    NoLine(b3, O);
    Continues(s2, 2, b3);
    var s3 := GameState(b3, X, 3, false, ZeroScores, None);
    var b4 := s3.board[4 := Marked(X)];
    NoLine(b4, X);
    Continues(s3, 4, b4);
    var s4 := GameState(b4, O, 4, false, ZeroScores, None);
    var b5 := s4.board[3 := Marked(O)];
    NoLine(b5, O);
    Continues(s4, 3, b5);
    var s5 := GameState(b5, X, 5, false, ZeroScores, None);
    var b6 := s5.board[5 := Marked(X)];
    NoLine(b6, X);
    Continues(s5, 5, b6);
    var s6 := GameState(b6, O, 6, false, ZeroScores, None);
    var b7 := s6.board[7 := Marked(O)];
    NoLine(b7, O);
    Continues(s6, 7, b7);
    var s7 := GameState(b7, X, 7, false, ZeroScores, None);
    var b8 := s7.board[6 := Marked(X)];
    NoLine(b8, X);
    Continues(s7, 6, b8);
    var s8 := GameState(b8, O, 8, false, ZeroScores, None);
    var b9 := s8.board[8 := Marked(O)];
    NoLine(b9, O);
    NoLine(b9, X);
    Draws(s8, 8, b9);
  }

  /** The ninth move fills the board and completes the right column at once:
      the win check comes first, so it is a win for O and no draw is counted. */
  lemma NinthMoveWinScenario()
    ensures var s1 := Step(Initial(None), CellAt(0));
      var s2 := Step(s1, CellAt(1));
      var s3 := Step(s2, CellAt(2));
      var s4 := Step(s3, CellAt(3));
      var s5 := Step(s4, CellAt(5));
      var s6 := Step(s5, CellAt(4));
      var s7 := Step(s6, CellAt(7));
      var s8 := Step(s7, CellAt(6));
      var s := Step(s8, CellAt(8));
      && s.over && s.player == O && s.filled == 9
      && FirstWin(s.board, O) == Some(5)
      && s.scores == Scores(1, 0, 0) && s.saved == Some(Scores(1, 0, 0))
  {
    var s0 := Initial(None);
    var b1 := s0.board[0 := Marked(O)];
    NoLine(b1, O);
    Continues(s0, 0, b1);
    var s1 := GameState(b1, X, 1, false, ZeroScores, None);
    var b2 := s1.board[1 := Marked(X)];
    NoLine(b2, X);
    Continues(s1, 1, b2);
    var s2 := GameState(b2, O, 2, false, ZeroScores, None);
    var b3 := s2.board[2 := Marked(O)];
    NoLine(b3, O);
    Continues(s2, 2, b3);
    var s3 := GameState(b3, X, 3, false, ZeroScores, None);
    var b4 := s3.board[3 := Marked(X)];
    NoLine(b4, X);
    Continues(s3, 3, b4);
    var s4 := GameState(b4, O, 4, false, ZeroScores, None);
    var b5 := s4.board[5 := Marked(O)];
    NoLine(b5, O);
    Continues(s4, 5, b5);
    var s5 := GameState(b5, X, 5, false, ZeroScores, None);
    var b6 := s5.board[4 := Marked(X)];
    NoLine(b6, X);
    Continues(s5, 4, b6);
    var s6 := GameState(b6, O, 6, false, ZeroScores, None);
    var b7 := s6.board[7 := Marked(O)];
    NoLine(b7, O);
    Continues(s6, 7, b7);
    var s7 := GameState(b7, X, 7, false, ZeroScores, None);
    var b8 := s7.board[6 := Marked(X)];
    NoLine(b8, X);
    Continues(s7, 6, b8);
    var s8 := GameState(b8, O, 8, false, ZeroScores, None);
    var b9 := s8.board[8 := Marked(O)];
    assert !Owns(b9, Wins[0], O) && !Owns(b9, Wins[1], O) && !Owns(b9, Wins[2], O);
    assert !Owns(b9, Wins[3], O) && !Owns(b9, Wins[4], O) && Owns(b9, Wins[5], O);
    Completes(s8, 8, b9);
  }
}
