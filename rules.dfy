// The board, the eight winning lines and the result of a move:
// the pure part of the game logic.

module Rules {

  datatype Option<T> = None | Some(value: T)

  /** The content of one cell; the source writes these as "", "X" and "O". */
  datatype Mark = Empty | X | O

  /** The side that moves: never the empty mark. */
  type Player = m: Mark | m != Empty witness X

  /** A board index, 0 to 8 in row-major order. */
  type Cell = i: nat | i < 9

  /** The nine cells of the board. */
  type Board = b: seq<Mark> | |b| == 9
    witness [Empty, Empty, Empty, Empty, Empty, Empty, Empty, Empty, Empty]

  /** Three board indices that win when they hold the same mark. */
  type Line = (Cell, Cell, Cell)

  const EmptyBoard: Board := [Empty, Empty, Empty, Empty, Empty, Empty, Empty, Empty, Empty]

  /** The winning combinations, in the order the game scans them:
      three rows, three columns, two diagonals. */
  const Lines: seq<Line> := [
    (0, 1, 2), (3, 4, 5), (6, 7, 8),
    (0, 3, 6), (1, 4, 7), (2, 5, 8),
    (0, 4, 8), (2, 4, 6)
  ]

  /** What the status line shows: whose turn it is, who is announced
      as the winner together with the highlighted line, or a draw. */
  datatype Status = Turn(player: Player) | Won(winner: Player, line: Line) | Draw

  /** The player who moves after `p`. */
  function Other(p: Player): (q: Player)
    ensures q != p
  {
    if p == X then O else X
  }

  /** Line `k` is complete: its first cell is non-empty and the other two
      hold the same mark. */
  predicate LineComplete(b: Board, k: nat)
    requires k < |Lines|
  {
    var (i, j, l) := Lines[k];
    b[i] != Empty && b[i] == b[j] && b[i] == b[l]
  }

  predicate HasWin(b: Board) {
    exists k :: 0 <= k < |Lines| && LineComplete(b, k)
  }

  /** No cell is empty. */
  predicate IsFull(b: Board) {
    Empty !in b
  }

  /** The first complete line at position `k` or later in `Lines`. */
  function FirstWinFrom(b: Board, k: nat): (r: Option<nat>)
    requires k <= |Lines|
    ensures r.Some? ==> k <= r.value < |Lines| && LineComplete(b, r.value)
    ensures r.Some? ==> forall j :: k <= j < r.value ==> !LineComplete(b, j)
    ensures r.None? ==> forall j :: k <= j < |Lines| ==> !LineComplete(b, j)
    decreases |Lines| - k
  {
    if k == |Lines| then None
    else if LineComplete(b, k) then Some(k)
    else FirstWinFrom(b, k + 1)
  }

  /** A new game can be played: no line is complete and a cell is free. */
  lemma EmptyBoardIsOpen()
    ensures !HasWin(EmptyBoard) && !IsFull(EmptyBoard)
  {
    assert EmptyBoard[0] == Empty;
  }

  /** The position in `Lines` of the first complete line, if any. */
  function FirstWin(b: Board): (r: Option<nat>)
    ensures r.Some? ==> r.value < |Lines| && LineComplete(b, r.value)
    ensures r.Some? ==> forall j :: 0 <= j < r.value ==> !LineComplete(b, j)
    ensures r.None? <==> !HasWin(b)
  {
    FirstWinFrom(b, 0)
  }

  /** The status after `mover` has put a mark on the board `b`: a win is
      checked before a draw, and a win is announced for `mover`, whatever
      mark fills the line. */
  function Outcome(b: Board, mover: Player): (s: Status)
    ensures s.Won? <==> HasWin(b)
    ensures s.Won? ==> s.winner == mover
    ensures s.Won? ==> exists k :: 0 <= k < |Lines| && Lines[k] == s.line && LineComplete(b, k)
                                 && forall j :: 0 <= j < k ==> !LineComplete(b, j)
    ensures s == Draw <==> !HasWin(b) && IsFull(b)
    ensures s.Turn? <==> !HasWin(b) && !IsFull(b)
    ensures s.Turn? ==> s.player == Other(mover)
  {
    match FirstWin(b)
    case Some(k) => Won(mover, Lines[k])
    case None => if IsFull(b) then Draw else Turn(Other(mover))
  }
}
