/**
  The 3x3 tic-tac-toe ("Tris") board of TrisGameScreen and its `checkWinner`
  function, in both builds of the screen: the `bluetoothtris` build inspects
  rows, columns and both diagonals, the older `bluetoothchat` build inspects
  rows and columns only.
 */
module Board {
  /** A mark; the screen stores the two marks as the strings "X" and "O". */
  datatype Symbol = X | O

  /** The complementary mark: how the screen derives the opponent's symbol
      and flips the starting player. */
  function Other(s: Symbol): (r: Symbol)
    ensures r != s
  {
    if s == X then O else X
  }

  /** A cell holds the empty string "" or one mark. */
  datatype Cell = Empty | Mark(sym: Symbol)

  /** Result of `checkWinner`: `null`, a winning mark, or the string "Tie". */
  datatype Verdict = Pending | Won(winner: Symbol) | Tie

  /** The two builds of the game screen. */
  datatype Variant = Tris | Chat

  predicate InRange(i: int) { 0 <= i < 3 }

  predicate IsGrid(b: seq<seq<Cell>>) {
    |b| == 3 && forall i :: 0 <= i < 3 ==> |b[i]| == 3
  }

  /** `List(3) { MutableList(3) { ... } }`: always three rows of three cells. */
  type Grid = b: seq<seq<Cell>> | IsGrid(b)
    witness [[Empty, Empty, Empty], [Empty, Empty, Empty], [Empty, Empty, Empty]]

  /** No cell is marked. */
  predicate Blank(b: Grid) {
    forall i, j :: 0 <= i < 3 && 0 <= j < 3 ==> b[i][j] == Empty
  }

  /** The board every game starts from. */
  function EmptyGrid(): (g: Grid)
    ensures Blank(g)
  {
    [[Empty, Empty, Empty], [Empty, Empty, Empty], [Empty, Empty, Empty]]
  }

  /** `board[row][col] = cell`: exactly one cell changes. */
  function Place(b: Grid, row: int, col: int, cell: Cell): (r: Grid)
    requires InRange(row) && InRange(col)
    ensures r[row][col] == cell
    ensures forall i, j :: InRange(i) && InRange(j) && (i != row || j != col) ==> r[i][j] == b[i][j]
  {
    b[row := b[row][col := cell]]
  }

  /** No cell holds the empty string (`flatten().all { it.isNotEmpty() }`,
      written `flatten().none { it.isEmpty() }` in the older build). */
  predicate Full(b: Grid) {
    forall i, j :: 0 <= i < 3 && 0 <= j < 3 ==> b[i][j] != Empty
  }

  // ---------------------------------------------------------------------
  // Reference definition of a won board, written independently of the
  // scan that `checkWinner` performs.

  predicate Three(x: Cell, y: Cell, z: Cell, s: Symbol) {
    x == Mark(s) && y == Mark(s) && z == Mark(s)
  }

  /** Mark `s` fills a whole row or a whole column. */
  predicate HasRowOrColumn(b: Grid, s: Symbol) {
    || Three(b[0][0], b[0][1], b[0][2], s)
    || Three(b[1][0], b[1][1], b[1][2], s)
    || Three(b[2][0], b[2][1], b[2][2], s)
    || Three(b[0][0], b[1][0], b[2][0], s)
    || Three(b[0][1], b[1][1], b[2][1], s)
    || Three(b[0][2], b[1][2], b[2][2], s)
  }

  /** Mark `s` fills one of the two diagonals. */
  predicate HasDiagonal(b: Grid, s: Symbol) {
    || Three(b[0][0], b[1][1], b[2][2], s)
    || Three(b[0][2], b[1][1], b[2][0], s)
  }

  /** Mark `s` fills a line that the given build counts as a win. */
  predicate HasLine(v: Variant, b: Grid, s: Symbol) {
    HasRowOrColumn(b, s) || (v == Tris && HasDiagonal(b, s))
  }

  /** Some mark fills a counted line. */
  predicate Decided(v: Variant, b: Grid) {
    HasLine(v, b, X) || HasLine(v, b, O)
  }

  // ---------------------------------------------------------------------
  // `checkWinner` as written

  /** The test `checkWinner` applies to three cells: all equal and the first
      one not empty. */
  predicate Complete(c0: Cell, c1: Cell, c2: Cell) {
    c0 == c1 && c1 == c2 && c0 != Empty
  }

  /**
    `checkWinner`. Its loop over `i` tests row `i` and then column `i`, and
    returns the mark of the first complete one; the loop is unrolled here,
    in the same order. The newer build then tests the main diagonal and the
    anti-diagonal, whose mark is read from the top-right cell. Without a
    complete line the result is "Tie" when no cell is empty, else `null`.
   */
  function CheckWinner(v: Variant, b: Grid): (r: Verdict)
    ensures r.Won? ==> HasLine(v, b, r.winner)
  {
    if Complete(b[0][0], b[0][1], b[0][2]) then Won(b[0][0].sym)
    else if Complete(b[0][0], b[1][0], b[2][0]) then Won(b[0][0].sym)
    else if Complete(b[1][0], b[1][1], b[1][2]) then Won(b[1][0].sym)
    else if Complete(b[0][1], b[1][1], b[2][1]) then Won(b[0][1].sym)
    else if Complete(b[2][0], b[2][1], b[2][2]) then Won(b[2][0].sym)
    else if Complete(b[0][2], b[1][2], b[2][2]) then Won(b[0][2].sym)
    else if v == Tris && Complete(b[0][0], b[1][1], b[2][2]) then Won(b[0][0].sym)
    else if v == Tris && Complete(b[0][2], b[1][1], b[2][0]) then Won(b[0][2].sym)
    else if Full(b) then Tie
    else Pending
  }

  /** Any filled line the build counts makes the result a mark. */
  lemma LineDecides(v: Variant, b: Grid)
    requires Decided(v, b)
    ensures CheckWinner(v, b).Won?
  {
  }

  /**
    `checkWinner` agrees with the reference definition: the result is a mark
    exactly when some mark fills a counted line (so a full board whose last
    mark completes a line is a win, not a tie); "Tie" means no filled line
    and no empty cell; `null` means no filled line and some empty cell.
   */
  lemma CheckWinnerCorrect(v: Variant, b: Grid)
    ensures CheckWinner(v, b).Won? <==> Decided(v, b)
    ensures CheckWinner(v, b) == Tie <==> !Decided(v, b) && Full(b)
    ensures CheckWinner(v, b) == Pending <==> !Decided(v, b) && !Full(b)
  {
    var r := CheckWinner(v, b);
    if r.Won? {
      if r.winner == X { assert HasLine(v, b, X); } else { assert HasLine(v, b, O); }
    }
    if Decided(v, b) {
      LineDecides(v, b);
    }
  }

  /** When only one mark fills a counted line, that mark is returned, whatever
      line the scan reaches first. */
  lemma SoleLineWins(v: Variant, b: Grid, s: Symbol)
    requires HasLine(v, b, s) && !HasLine(v, b, Other(s))
    ensures CheckWinner(v, b) == Won(s)
  {
    LineDecides(v, b);
    assert HasLine(v, b, CheckWinner(v, b).winner);
  }

  /** A mark placed on an empty cell cannot break a filled line, so a decided
      board stays decided. */
  lemma PlaceKeepsDecided(v: Variant, b: Grid, row: int, col: int, c: Cell)
    requires InRange(row) && InRange(col) && b[row][col] == Empty
    requires CheckWinner(v, b) != Pending
    ensures CheckWinner(v, Place(b, row, col, c)) != Pending
  {
    CheckWinnerCorrect(v, b);
    var r := Place(b, row, col, c);
    assert !Full(b);
    assert HasLine(v, b, X) ==> HasLine(v, r, X);
    assert HasLine(v, b, O) ==> HasLine(v, r, O);
    CheckWinnerCorrect(v, r);
  }

  /** A cleared board is undecided in both builds. */
  lemma BlankUndecided(v: Variant, b: Grid)
    requires Blank(b)
    ensures CheckWinner(v, b) == Pending
  {
    assert b[0][0] == Empty && b[1][1] == Empty && b[2][2] == Empty;
    assert !Full(b);
  }

  /** A board whose only filled line is a diagonal is a win in the newer
      build and undecided or tied in the older one, which tests no
      diagonal. */
  lemma DiagonalOnlyInNewerBuild(b: Grid, s: Symbol)
    requires HasDiagonal(b, s) && !HasRowOrColumn(b, X) && !HasRowOrColumn(b, O)
    ensures CheckWinner(Tris, b) == Won(s)
    ensures !CheckWinner(Chat, b).Won?
  {
    assert b[1][1] == Mark(s);
    assert !HasDiagonal(b, Other(s));
    SoleLineWins(Tris, b, s);
  }
}
