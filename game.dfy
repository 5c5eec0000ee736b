/** The page's game state as it is kept by script.js: module-level variables
    that the handlers update in place, with the nine DOM cells as an array.
    Every method is proved to move the state exactly as the matching function
    of module GameSpec says, and the handlers a user can trigger keep the
    invariant `Valid()`. */
module TicTacToe {
  import opened Board
  import opened GameSpec

  class Game {
    /** The nine `.elements` cells (`eles`). */
    const board: array<Cell>
    var currentPlayer: Player
    var filledElements: nat
    var gameOver: bool
    var scores: Scores
    /** The local store's entry under the score key. */
    var saved: Option<Scores>

    /** The state as a value: the fields, with the cells read off the page. */
    ghost function State(): GameState
      reads this, board
    {
      GameState(board[..], currentPlayer, filledElements, gameOver, scores, saved)
    }

    ghost predicate Valid()
      reads this, board
    {
      board.Length == 9 && Consistent(State())
    }

    /** The script's start: the variable initialisations, a blank page, and
        whatever the store holds from an earlier session. */
    constructor (stored: Option<Scores>)
      ensures Valid() && fresh(board)
      ensures State() == Initial(stored)
    {
      board := new Cell[9](_ => Blank);
      currentPlayer := O;
      filledElements := 0;
      gameOver := false;
      scores := ZeroScores;
      saved := stored;
      new;
      assert board[..] == EmptyBoard;
      RestartedConsistent(Initial(stored));
    }

    /** `loadScores`: take over the stored record if there is one. */
    method LoadScores()
      requires Valid()
      modifies this`scores
      ensures Valid()
      ensures State() == Loaded(old(State()))
    {
      if saved.Some? {
        scores := saved.value;
      }
    }

    /** `saveScores`: store the current record. */
    method SaveScores()
      modifies this`saved
      ensures State() == Saved(old(State()))
    {
      saved := Some(scores);
    }

    /** The click handler on the board's container. */
    method Click(target: Target)
      requires Valid()
      modifies this, board
      ensures Valid()
      ensures State() == Step(old(State()), target)
    {
      if !target.CellAt? {
        return;
      }
      if board[target.index] != Blank {
        return;
      }
      if gameOver {
        return;
      }
      MakeMove(target.index);
    }

    /** `makeMove`: mark the cell, count it, then check for a win, then for a
        draw, and switch the player only when the game goes on. */
    method MakeMove(i: nat)
      requires Valid() && i < 9 && board[i] == Blank && !gameOver
      modifies this, board
      ensures Valid()
      ensures State() == AfterMove(old(State()), i)
    {
      ghost var s := State();
      AfterMoveConsistent(s, i);
      board[i] := Marked(currentPlayer);
      filledElements := filledElements + 1;
      assert State() == Place(s, i);
      var won, line := CheckWin();
      if won {
        return;
      }
      var drawn := CheckDraw();
      if drawn {
        return;
      }
      currentPlayer := Opponent(currentPlayer);
    }

    /** `checkWin`: scan `wins` in order; at the first line whose three cells
        all hold the current player's mark, end the game, bump that player's
        counter, save, and hand the line's cells to the highlighting. */
    method CheckWin() returns (won: bool, highlighted: seq<nat>)
      requires board.Length == 9
      modifies this`gameOver, this`scores, this`saved
      ensures won == HasWin(board[..], currentPlayer)
      ensures won ==> highlighted == Cells(Wins[FirstWin(board[..], currentPlayer).value])
      ensures !won ==> highlighted == []
      ensures State() == WinChecked(old(State()))
    {
      WinsInRange();
      var k := 0;
      while k < |Wins|
        invariant 0 <= k <= |Wins|
        invariant forall j :: 0 <= j < k ==> !Owns(board[..], Wins[j], currentPlayer)
        invariant State() == old(State())
      {
        var line := Wins[k];
        if board[line.a] == Marked(currentPlayer) &&
           board[line.b] == Marked(currentPlayer) &&
           board[line.c] == Marked(currentPlayer)
        {
          assert Owns(board[..], Wins[k], currentPlayer);
          highlighted := Cells(line);
          gameOver := true;
          scores := Tally(scores, Win(currentPlayer));
          SaveScores();
          return true, highlighted;
        }
        k := k + 1;
      }
      return false, [];
    }

    /** `checkDraw`: with nine cells counted the game ends in a draw, which
        is counted and saved. */
    method CheckDraw() returns (drawn: bool)
      modifies this`gameOver, this`scores, this`saved
      ensures drawn == (old(filledElements) >= 9)
      ensures State() == DrawChecked(old(State()))
    {
      if filledElements >= 9 {
        gameOver := true;
        scores := Tally(scores, Draw);
        SaveScores();
        return true;
      }
      return false;
    }

    /** `restart`: O to move, nothing counted, not over, every cell cleared. */
    method Restart()
      requires board.Length == 9
      modifies this, board
      ensures Valid()
      ensures State() == Restarted(old(State()))
    {
      currentPlayer := O;
      filledElements := 0;
      gameOver := false;
      for j := 0 to board.Length
        modifies board
        invariant forall k :: 0 <= k < j ==> board[k] == Blank
      {
        board[j] := Blank;
      }
      assert board[..] == EmptyBoard;
      RestartedConsistent(old(State()));
    }

    /** `resetScores`, with the answer to its confirmation dialog as input:
        on yes, all three counters become zero and are saved. */
    method ResetScores(confirmed: bool)
      requires Valid()
      modifies this`scores, this`saved
      ensures Valid()
      ensures State() == ScoresReset(old(State()), confirmed)
    {
      if confirmed {
        scores := ZeroScores;
        SaveScores();
      }
    }
  }
}
