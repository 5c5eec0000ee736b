/** The game of script.js as a pure state machine: the module-level state
    (`currentPlayer`, `filledElements`, `gameOver`, `scores`, the nine cells
    and the stored score record) as one value, and each handler of the page
    as a function from the state before to the state after. The class in
    module Game is proved to follow these functions exactly. */
module GameSpec {
  import opened Board

  /** The `scores` record: wins of O, wins of X, draws. */
  datatype Scores = Scores(o: nat, x: nat, draw: nat)

  const ZeroScores: Scores := Scores(0, 0, 0)

  /** How a finished game ended. */
  datatype Outcome = Win(winner: Player) | Draw

  /** What a click landed on: one of the nine cells, or some other element
      of the board's container. */
  datatype Target = CellAt(index: CellIndex) | Elsewhere

  /** The whole state: `board` the nine cells, `player` is `currentPlayer`,
      `filled` is `filledElements`, `over` is `gameOver`, and `saved` is what
      the local store holds under the score key (None when nothing). */
  datatype GameState = GameState(
    board: seq<Cell>,
    player: Player,
    filled: nat,
    over: bool,
    scores: Scores,
    saved: Option<Scores>)

  /** The state the script starts in, before the stored scores are loaded. */
  function Initial(stored: Option<Scores>): GameState {
    GameState(EmptyBoard, O, 0, false, ZeroScores, stored)
  }

  /** `scores[currentPlayer]++` for a win, `scores.draw++` for a draw. */
  function Tally(sc: Scores, o: Outcome): Scores {
    match o
    case Win(O) => sc.(o := sc.o + 1)
    case Win(X) => sc.(x := sc.x + 1)
    case Draw => sc.(draw := sc.draw + 1)
  }

  function Total(sc: Scores): nat {
    sc.o + sc.x + sc.draw
  }

  /** `saveScores`: the store now holds the current record. */
  function Saved(s: GameState): GameState {
    s.(saved := Some(s.scores))
  }

  /** `loadScores`: a stored record, when there is one, replaces `scores`. */
  function Loaded(s: GameState): GameState {
    if s.saved.Some? then s.(scores := s.saved.value) else s
  }

  /** The game ends with `o`: `gameOver` is set, the counter is bumped and the
      record is saved. */
  function Finish(s: GameState, o: Outcome): GameState {
    Saved(s.(over := true, scores := Tally(s.scores, o)))
  }

  /** `checkWin`'s effect: ends the game when the current player owns a line. */
  function WinChecked(s: GameState): GameState {
    if HasWin(s.board, s.player) then Finish(s, Win(s.player)) else s
  }

  /** `checkDraw`'s effect: ends the game once nine cells are counted. */
  function DrawChecked(s: GameState): GameState {
    if s.filled >= 9 then Finish(s, Draw) else s
  }

  /** The first three statements of `makeMove`: mark the cell, count it. */
  function Place(s: GameState, i: nat): GameState
    requires i < |s.board|
  {
    s.(board := s.board[i := Marked(s.player)], filled := s.filled + 1)
  }

  /** `makeMove`: place, then the win check, then the draw check, and only
      when neither ended the game, the switch of player. */
  function AfterMove(s: GameState, i: nat): GameState
    requires i < |s.board|
  {
    var t := Place(s, i);
    if HasWin(t.board, t.player) then WinChecked(t)
    else if t.filled >= 9 then DrawChecked(t)
    else t.(player := Opponent(t.player))
  }

  /** The click guard: the target is a cell, that cell is blank, and the game
      is not over. */
  predicate Accepts(s: GameState, target: Target)
    requires |s.board| == 9
  {
    target.CellAt? && s.board[target.index] == Blank && !s.over
  }

  /** The click handler: a move when the guard lets it through, otherwise
      nothing. */
  function Step(s: GameState, target: Target): (r: GameState)
    requires |s.board| == 9
    ensures |r.board| == 9
  {
    if Accepts(s, target) then AfterMove(s, target.index) else s
  }

  /** `restart`: O to move, no cell counted, not over, every cell blank; the
      scores and the store are not touched. */
  function Restarted(s: GameState): GameState {
    s.(board := EmptyBoard, player := O, filled := 0, over := false)
  }

  /** `resetScores`, given the answer to its confirmation dialog. */
  function ScoresReset(s: GameState, confirmed: bool): GameState {
    if confirmed then Saved(s.(scores := ZeroScores)) else s
  }

  /** The events a session is made of. */
  datatype Event = Click(target: Target) | Restart | ResetScores(confirmed: bool)

  function Apply(s: GameState, e: Event): GameState
    requires |s.board| == 9
  {
    match e
    case Click(t) => Step(s, t)
    case Restart => Restarted(s)
    case ResetScores(c) => ScoresReset(s, c)
  }

  /** A session: the events applied one after the other. */
  function Run(s: GameState, es: seq<Event>): (r: GameState)
    requires |s.board| == 9
    ensures |r.board| == 9
    decreases |es|
  {
    if es == [] then s
    else
      var t := Apply(s, es[0]);
      assert |t.board| == 9;
      Run(t, es[1..])
  }

  /** The invariant of every reachable state. `filled` is the number of
      marked cells; O has moved once more than X exactly when X is to move in
      a running game or O made the last move of a finished one; a finished
      game was won by the player who moved last (and not by the other one)
      or has all nine cells filled; a running game has no completed line and
      a free cell. */
  predicate Consistent(s: GameState) {
    && |s.board| == 9
    && s.filled == Filled(s.board)
    && Count(s.board, Marked(O)) ==
       Count(s.board, Marked(X)) + (if (s.player == X) != s.over then 1 else 0)
    && (s.over ==>
          (HasWin(s.board, s.player) || s.filled == 9) && !HasWin(s.board, Opponent(s.player)))
    && (!s.over ==> !HasWin(s.board, O) && !HasWin(s.board, X) && s.filled < 9)
  }

  /** `filledElements` agrees with the cells and never exceeds nine. */
  lemma ConsistentFilled(s: GameState)
    requires Consistent(s)
    ensures s.filled <= 9
    ensures s.filled == 9 - Count(s.board, Blank)
  {
    CountPartition(s.board);
  }

  /** The initial state and every restarted state satisfy the invariant. */
  lemma RestartedConsistent(s: GameState)
    ensures Consistent(Initial(s.saved))
    ensures Consistent(Restarted(s))
    ensures Restarted(s).scores == s.scores && Restarted(s).saved == s.saved
    ensures Restarted(s).board == EmptyBoard && Restarted(s).player == O
    ensures Restarted(s).filled == 0 && !Restarted(s).over
  {
    EmptyBoardFacts();
  }

  /** The guard: a move is made exactly when the target is a blank cell and
      the game is not over; a rejected click leaves every part of the state
      as it was, and an accepted one always changes the board. */
  lemma StepGuard(s: GameState, target: Target)
    requires |s.board| == 9
    ensures !Accepts(s, target) ==> Step(s, target) == s
    ensures Accepts(s, target) ==> Step(s, target).board != s.board
  {
    if Accepts(s, target) {
      var i := target.index;
      assert Step(s, target).board[i] == Marked(s.player) != s.board[i];
    }
  }

  /** An accepted move writes the current player's mark into exactly that
      cell, leaves every other cell alone, and counts one more filled cell,
      which is also one more marked cell on the board. */
  lemma StepWrites(s: GameState, i: CellIndex)
    requires |s.board| == 9 && Accepts(s, CellAt(i))
    ensures |Step(s, CellAt(i)).board| == |s.board|
    ensures Step(s, CellAt(i)).board[i] == Marked(s.player)
    ensures forall j :: 0 <= j < |s.board| && j != i ==> Step(s, CellAt(i)).board[j] == s.board[j]
    ensures Step(s, CellAt(i)).filled == s.filled + 1
    ensures Filled(Step(s, CellAt(i)).board) == Filled(s.board) + 1
  {
    FilledAfterMark(s.board, i, s.player);
    assert Count(s.board[i := Marked(s.player)], Marked(Opponent(s.player))) ==
           Count(s.board, Marked(Opponent(s.player)));
    match s.player
    case O =>
    case X =>
  }

  /** The three ways an accepted move ends. The win check comes first, so a
      move that completes a line is a win for the mover even when it fills
      the ninth cell; a draw is only declared without a line; otherwise the
      turn passes to the other player and nothing else changes. */
  lemma StepOutcome(s: GameState, i: CellIndex)
    requires |s.board| == 9 && Accepts(s, CellAt(i))
    ensures var t := Step(s, CellAt(i));
      HasWin(t.board, s.player) ==>
        && t.over && t.player == s.player
        && t.scores == Tally(s.scores, Win(s.player)) && t.saved == Some(t.scores)
    ensures var t := Step(s, CellAt(i));
      !HasWin(t.board, s.player) && s.filled + 1 >= 9 ==>
        && t.over && t.player == s.player
        && t.scores == Tally(s.scores, Draw) && t.saved == Some(t.scores)
    ensures var t := Step(s, CellAt(i));
      !HasWin(t.board, s.player) && s.filled + 1 < 9 ==>
        && !t.over && t.player == Opponent(s.player)
        && t.scores == s.scores && t.saved == s.saved
  {
  }

  /** Each call ends at most one game, and a game that ends bumps exactly one
      counter by one: the mover's on a win, the draw counter on a draw. */
  lemma StepScores(s: GameState, target: Target)
    requires |s.board| == 9
    ensures var t := Step(s, target);
      Total(t.scores) == Total(s.scores) + (if t.over && !s.over then 1 else 0)
    ensures var t := Step(s, target);
      t.over && !s.over ==>
        || (t.scores == s.scores.(o := s.scores.o + 1) && s.player == O && HasWin(t.board, O))
        || (t.scores == s.scores.(x := s.scores.x + 1) && s.player == X && HasWin(t.board, X))
        || (t.scores == s.scores.(draw := s.scores.draw + 1) && !HasWin(t.board, s.player))
    ensures var t := Step(s, target); !t.over ==> t.scores == s.scores
    ensures var t := Step(s, target); s.over ==> t == s
  {
  }

  /** The move preserves the invariant. */
  lemma {:induction false} AfterMoveConsistent(s: GameState, i: nat)
    requires Consistent(s) && i < 9 && s.board[i] == Blank && !s.over
    ensures Consistent(AfterMove(s, i))
  {
    var p := s.player;
    var t := Place(s, i);
    FilledAfterMark(s.board, i, p);
    CountPartition(t.board);
    MarkKeepsNoWin(s.board, i, p);
    assert Count(t.board, Marked(O)) == Count(s.board, Marked(O)) + (if p == O then 1 else 0);
    assert Count(t.board, Marked(X)) == Count(s.board, Marked(X)) + (if p == X then 1 else 0);
  }

  /** Every click keeps the invariant. */
  lemma StepConsistent(s: GameState, target: Target)
    requires Consistent(s)
    ensures Consistent(Step(s, target))
  {
    if Accepts(s, target) {
      AfterMoveConsistent(s, target.index);
    }
  }

  /** The confirmed score reset zeroes all three counters and saves them; the
      game itself is not touched. */
  lemma ScoresResetZero(s: GameState, confirmed: bool)
    ensures ScoresReset(s, confirmed).board == s.board
    ensures ScoresReset(s, confirmed).player == s.player
    ensures ScoresReset(s, confirmed).filled == s.filled
    ensures ScoresReset(s, confirmed).over == s.over
    ensures confirmed ==> ScoresReset(s, confirmed).scores == Scores(0, 0, 0)
    ensures confirmed ==> ScoresReset(s, confirmed).saved == Some(Scores(0, 0, 0))
    ensures !confirmed ==> ScoresReset(s, confirmed) == s
  {
  }

  /** What is saved is what is loaded back. */
  lemma SaveLoad(s: GameState)
    ensures Loaded(Saved(s)) == Saved(s)
    ensures Loaded(Saved(s)).scores == s.scores
  {
  }

  /** Every state a session can reach from the start satisfies the invariant. */
  lemma {:induction false} RunConsistent(s: GameState, es: seq<Event>)
    requires Consistent(s)
    ensures Consistent(Run(s, es))
    decreases |es|
  {
    if es != [] {
      var t := Apply(s, es[0]);
      match es[0] {
        case Click(target) => StepConsistent(s, target);
        case Restart => RestartedConsistent(s);
        case ResetScores(c) =>
      }
      RunConsistent(t, es[1..]);
    }
  }

  /** A whole session from the page's start, scores loaded from the store. */
  lemma SessionConsistent(stored: Option<Scores>, es: seq<Event>)
    ensures Consistent(Run(Loaded(Initial(stored)), es))
  {
    RestartedConsistent(Initial(stored));
    RunConsistent(Loaded(Initial(stored)), es);
  }
}
