/** The 3x3 board of script.js: nine cells, each blank or holding a player's
    mark, and the fixed table of eight winning lines. */
module Board {

  datatype Option<T> = None | Some(value: T)

  /** The two values `currentPlayer` takes. */
  datatype Player = O | X

  /** One board cell. In the source a cell's text and its `dataset.status`
      are always written together ("" with "blank", a mark with "filled"),
      so one value stands for both. */
  datatype Cell = Blank | Marked(player: Player)

  /** The index of one of the nine cells, row by row. */
  type CellIndex = i: nat | i < 9

  /** A winning combination: three cell indices. */
  datatype Line = Line(a: nat, b: nat, c: nat)

  /** The other player: the `currentPlayer === "O" ? "X" : "O"` switch. */
  function Opponent(p: Player): (q: Player)
    ensures q != p
  {
    match p
    case O => X
    case X => O
  }

  /** `wins`: rows, then columns, then diagonals, in declaration order. */
  const Wins: seq<Line> := [
    Line(0, 1, 2), Line(3, 4, 5), Line(6, 7, 8),
    Line(0, 3, 6), Line(1, 4, 7), Line(2, 5, 8),
    Line(0, 4, 8), Line(2, 4, 6)
  ]

  /** The nine cells as the page has them before any move and after a restart. */
  const EmptyBoard: seq<Cell> := [Blank, Blank, Blank, Blank, Blank, Blank, Blank, Blank, Blank]

  /** The cell indices of a line, in the order the source passes them on. */
  function Cells(l: Line): seq<nat> {
    [l.a, l.b, l.c]
  }

  /** All three cells of line `l` hold `p`'s mark. */
  predicate Owns(b: seq<Cell>, l: Line, p: Player) {
    l.a < |b| && l.b < |b| && l.c < |b| &&
    b[l.a] == Marked(p) && b[l.b] == Marked(p) && b[l.c] == Marked(p)
  }

  /** Some line of `wins` is completed by `p`. */
  predicate HasWin(b: seq<Cell>, p: Player) {
    exists k :: 0 <= k < |Wins| && Owns(b, Wins[k], p)
  }

  /** The scan of `wins` from position `k` on: the first line `p` owns. */
  function FirstWinFrom(b: seq<Cell>, p: Player, k: nat): (r: Option<nat>)
    requires k <= |Wins|
    decreases |Wins| - k
    ensures r.Some? ==> k <= r.value < |Wins| && Owns(b, Wins[r.value], p)
    ensures r.Some? ==> forall j :: k <= j < r.value ==> !Owns(b, Wins[j], p)
    ensures r.None? ==> forall j :: k <= j < |Wins| ==> !Owns(b, Wins[j], p)
  {
    if k == |Wins| then None
    else if Owns(b, Wins[k], p) then Some(k)
    else FirstWinFrom(b, p, k + 1)
  }

  /** The line the win check of script.js reports: the first owned one in
      declaration order, or None when `p` has no line. */
  function FirstWin(b: seq<Cell>, p: Player): (r: Option<nat>)
    ensures r.Some? <==> HasWin(b, p)
    ensures r.Some? ==> r.value < |Wins| && Owns(b, Wins[r.value], p)
    ensures r.Some? ==> forall j :: 0 <= j < r.value ==> !Owns(b, Wins[j], p)
  {
    FirstWinFrom(b, p, 0)
  }

  /** Number of cells of `b` equal to `c`. */
  function Count(b: seq<Cell>, c: Cell): nat {
    if |b| == 0 then 0 else (if b[0] == c then 1 else 0) + Count(b[1..], c)
  }

  /** Number of non-blank cells: what `filledElements` is meant to track. */
  function Filled(b: seq<Cell>): nat {
    Count(b, Marked(O)) + Count(b, Marked(X))
  }

  /** Writing `c'` into cell `i` changes the count of `c` by exactly the cell
      that left and the cell that came in. */
  lemma {:induction false} CountUpdate(b: seq<Cell>, i: nat, c': Cell, c: Cell)
    requires i < |b|
    ensures Count(b[i := c'], c) ==
            Count(b, c) - (if b[i] == c then 1 else 0) + (if c' == c then 1 else 0)
  {
    if i == 0 {
      assert b[i := c'][1..] == b[1..];
    } else {
      assert b[i := c'][1..] == b[1..][i - 1 := c'];
      CountUpdate(b[1..], i - 1, c', c);
    }
  }

  /** Every cell is blank, O or X, so the three counts add up to the size. */
  lemma {:induction false} CountPartition(b: seq<Cell>)
    ensures Count(b, Blank) + Filled(b) == |b|
  {
    if |b| > 0 {
      CountPartition(b[1..]);
      match b[0]
      case Blank =>
      case Marked(p) => assert p == O || p == X;
    }
  }

  /** Filling a blank cell raises the number of filled cells by exactly one. */
  lemma FilledAfterMark(b: seq<Cell>, i: nat, p: Player)
    requires i < |b| && b[i] == Blank
    ensures Count(b[i := Marked(p)], Marked(p)) == Count(b, Marked(p)) + 1
    ensures Count(b[i := Marked(p)], Marked(Opponent(p))) == Count(b, Marked(Opponent(p)))
    ensures Filled(b[i := Marked(p)]) == Filled(b) + 1
  {
    CountUpdate(b, i, Marked(p), Marked(p));
    CountUpdate(b, i, Marked(p), Marked(Opponent(p)));
  }

  /** A board with no mark at all has no filled cell and no completed line. */
  lemma EmptyBoardFacts()
    ensures Count(EmptyBoard, Marked(O)) == 0 && Count(EmptyBoard, Marked(X)) == 0
    ensures !HasWin(EmptyBoard, O) && !HasWin(EmptyBoard, X)
  {
    NoMarks(EmptyBoard, O);
    NoMarks(EmptyBoard, X);
  }

  /** A board without any `p` mark counts no `p` mark. */
  lemma {:induction false} NoMarks(b: seq<Cell>, p: Player)
    requires forall j :: 0 <= j < |b| ==> b[j] != Marked(p)
    ensures Count(b, Marked(p)) == 0
  {
    if |b| > 0 {
      NoMarks(b[1..], p);
    }
  }

  /** Marking a cell for `p` cannot complete a line for the other player. */
  lemma MarkKeepsNoWin(b: seq<Cell>, i: nat, p: Player)
    requires i < |b| && !HasWin(b, Opponent(p))
    ensures !HasWin(b[i := Marked(p)], Opponent(p))
  {
    var b' := b[i := Marked(p)];
    forall k | 0 <= k < |Wins|
      ensures !Owns(b', Wins[k], Opponent(p))
    {
      assert !Owns(b, Wins[k], Opponent(p));
    }
  }

  /** Every line of `wins` names cells of the 3x3 board. */
  lemma WinsInRange()
    ensures |Wins| == 8
    ensures forall k :: 0 <= k < |Wins| ==> Wins[k].a < 9 && Wins[k].b < 9 && Wins[k].c < 9
  {
  }
}
