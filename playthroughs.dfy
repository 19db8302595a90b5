// Concrete boards and click-and-timer sequences: the opponent's tiers on
// small boards, a game won on the top row, and the traces in which the
// opponent's scheduling misbehaves.

module Playthroughs {
  import opened Rules
  import opened Heuristic
  import opened TicTacToe

  lemma LineIndex(k: nat)
    requires k < |Lines|
    ensures k == 0 || k == 1 || k == 2 || k == 3 || k == 4 || k == 5 || k == 6 || k == 7
  {
  }

  /** A board on which each of the eight lines is seen to be incomplete. */
  lemma NoWinOn(b: Board)
    requires !LineComplete(b, 0) && !LineComplete(b, 1) && !LineComplete(b, 2) && !LineComplete(b, 3)
    requires !LineComplete(b, 4) && !LineComplete(b, 5) && !LineComplete(b, 6) && !LineComplete(b, 7)
    ensures !HasWin(b)
  {
    forall k | 0 <= k < |Lines| ensures !LineComplete(b, k) {
      LineIndex(k);
    }
  }

  /** A board on which no line holds `m` twice with a free third cell. */
  lemma NoThreatOn(b: Board, m: Mark)
    requires m != Empty && !HasWin(b)
    requires !Threat(b, 0, m) && !Threat(b, 1, m) && !Threat(b, 2, m) && !Threat(b, 3, m)
    requires !Threat(b, 4, m) && !Threat(b, 5, m) && !Threat(b, 6, m) && !Threat(b, 7, m)
    ensures !CanComplete(b, m)
  {
    forall k | 0 <= k < |Lines| ensures !Threat(b, k, m) {
      LineIndex(k);
    }
    CanCompleteIffThreat(b, m);
  }

  /** If `c` and `d` both are the smallest completing cell, they are equal. */
  lemma FirstCompletingCellUnique(b: Board, c: Cell, d: Cell, m: Mark)
    requires FirstCompletingCell(b, c, m) && FirstCompletingCell(b, d, m)
    ensures c == d
  {
  }

  const TwoO: Board := [O, O, Empty, Empty, Empty, Empty, Empty, Empty, Empty]
  const TwoXOneO: Board := [X, X, Empty, O, Empty, Empty, Empty, Empty, Empty]

  lemma TwoOFacts()
    ensures FirstCompletingCell(TwoO, 2, O)
  {
    assert AllOf(TwoO[2 := O], 0, O);
  }

  /** With O twice on the top row, the opponent wins at 2 (tier 1). */
  lemma OpponentTakesWin(r: nat)
    requires r < |EmptyCells(TwoO)|
    ensures AiChoice(TwoO, r) == 2
  {
    TwoOFacts();
    AiChoiceTiers(TwoO, r);
    FirstCompletingCellUnique(TwoO, AiChoice(TwoO, r), 2, O);
  }

  lemma TwoXOneOFacts()
    ensures !CanComplete(TwoXOneO, O) && FirstCompletingCell(TwoXOneO, 2, X)
  {
    NoWinOn(TwoXOneO);
    NoThreatOn(TwoXOneO, O);
    assert AllOf(TwoXOneO[2 := X], 0, X);
  }

  /** With X twice on the top row, the opponent blocks at 2 (tier 2). */
  lemma OpponentBlocks(r: nat)
    requires r < |EmptyCells(TwoXOneO)|
    ensures AiChoice(TwoXOneO, r) == 2
  {
    TwoXOneOFacts();
    AiChoiceTiers(TwoXOneO, r);
    FirstCompletingCellUnique(TwoXOneO, AiChoice(TwoXOneO, r), 2, X);
  }

  lemma EmptyBoardFacts()
    ensures !CanComplete(EmptyBoard, O) && !CanComplete(EmptyBoard, X)
  {
    EmptyBoardIsOpen();
    NoThreatOn(EmptyBoard, O);
    NoThreatOn(EmptyBoard, X);
  }

  /** On an empty board the opponent takes the centre (tier 3). */
  lemma OpponentTakesCentre(r: nat)
    requires r < |EmptyCells(EmptyBoard)|
    ensures AiChoice(EmptyBoard, r) == 4
  {
    EmptyBoardFacts();
    AiChoiceTiers(EmptyBoard, r);
  }

  /** The first available move is the smallest empty cell. */
  lemma FirstAvailable(b: Board, c: Cell)
    requires b[c] == Empty
    requires forall j: Cell :: j < c ==> b[j] != Empty
    ensures |EmptyCells(b)| > 0 && EmptyCells(b)[0] == c
  {
    var avail := EmptyCells(b);
    assert c in avail;
    assert avail[0] in avail;
  }

  /** While no line is complete and line `k0` is the only one that holds
      `m` twice with a free cell, a trial `m` completes a line exactly on
      the cells of line `k0`. */
  lemma SingleThreat(b: Board, m: Mark, k0: nat)
    requires m != Empty && !HasWin(b) && k0 < |Lines|
    requires forall k :: 0 <= k < |Lines| && k != k0 ==> !Threat(b, k, m)
    ensures forall i: Cell :: b[i] == Empty ==> (Completes(b, i, m) <==> Threat(b, k0, m) && OnLine(i, k0))
  {
    forall i: Cell | b[i] == Empty
      ensures Completes(b, i, m) <==> Threat(b, k0, m) && OnLine(i, k0)
    {
      CompletesIffThreat(b, i, m);
    }
  }

  // The boards of the traces below.
  const OneX: Board := [X, Empty, Empty, Empty, Empty, Empty, Empty, Empty, Empty]
  const XThenCentre: Board := [X, Empty, Empty, Empty, O, Empty, Empty, Empty, Empty]
  const CentreO: Board := [Empty, Empty, Empty, Empty, O, Empty, Empty, Empty, Empty]
  const CornerCentreO: Board := [O, Empty, Empty, Empty, O, Empty, Empty, Empty, Empty]

  lemma OneXFacts()
    ensures !HasWin(OneX) && !IsFull(OneX)
    ensures !CanComplete(OneX, O) && !CanComplete(OneX, X)
  {
    NoWinOn(OneX);
    NoThreatOn(OneX, O);
    NoThreatOn(OneX, X);
  }

  lemma XThenCentreFacts()
    ensures !HasWin(XThenCentre) && !IsFull(XThenCentre)
    ensures !CanComplete(XThenCentre, O) && !CanComplete(XThenCentre, X)
  {
    NoWinOn(XThenCentre);
    NoThreatOn(XThenCentre, O);
    NoThreatOn(XThenCentre, X);
  }

  lemma CentreOFacts()
    ensures !HasWin(CentreO) && !IsFull(CentreO)
    ensures !CanComplete(CentreO, O) && !CanComplete(CentreO, X)
  {
    NoWinOn(CentreO);
    NoThreatOn(CentreO, O);
    NoThreatOn(CentreO, X);
  }

  lemma CornerCentreOFacts()
    ensures !HasWin(CornerCentreO) && !IsFull(CornerCentreO)
    ensures FirstCompletingCell(CornerCentreO, 8, O)
  {
    NoWinOn(CornerCentreO);
    forall k | 0 <= k < |Lines| && k != 6 ensures !Threat(CornerCentreO, k, O) {
      LineIndex(k);
    }
    SingleThreat(CornerCentreO, O, 6);
  }

  /** After X's first move in a corner, the opponent takes the centre. */
  lemma AnswerToCorner(r: nat)
    requires r < |EmptyCells(OneX)|
    ensures AiChoice(OneX, r) == 4
  {
    OneXFacts();
    AiChoiceTiers(OneX, r);
  }

  /** With the centre taken and nothing to win or block, the random tier
      at position 0 takes the smallest empty cell. */
  lemma RandomAfterCentre()
    ensures |EmptyCells(XThenCentre)| > 0 && AiChoice(XThenCentre, 0) == 1
  {
    XThenCentreFacts();
    FirstAvailable(XThenCentre, 1);
    AiChoiceTiers(XThenCentre, 0);
  }

  lemma RandomBesideCentre()
    ensures |EmptyCells(CentreO)| > 0 && AiChoice(CentreO, 0) == 0
  {
    CentreOFacts();
    FirstAvailable(CentreO, 0);
    AiChoiceTiers(CentreO, 0);
  }

  lemma DiagonalWin(r: nat)
    requires r < |EmptyCells(CornerCentreO)|
    ensures AiChoice(CornerCentreO, r) == 8
  {
    CornerCentreOFacts();
    AiChoiceTiers(CornerCentreO, r);
    FirstCompletingCellUnique(CornerCentreO, AiChoice(CornerCentreO, r), 8, O);
  }

  // The boards of a two-player game won on the top row.
  const Row2: Board := [X, X, Empty, Empty, O, Empty, Empty, Empty, Empty]
  const Row3: Board := [X, X, Empty, Empty, O, Empty, Empty, Empty, O]
  const RowDone: Board := [X, X, X, Empty, O, Empty, Empty, Empty, O]

  lemma Row2Open() ensures !HasWin(Row2) && !IsFull(Row2) { NoWinOn(Row2); }
  lemma Row3Open() ensures !HasWin(Row3) && !IsFull(Row3) { NoWinOn(Row3); }

  lemma RowDoneWon()
    ensures HasWin(RowDone) && Outcome(RowDone, X) == Won(X, (0, 1, 2))
  {
    assert LineComplete(RowDone, 0);
  }

  /** An accepted click that neither wins nor fills the board: the mark
      goes on the cell and the turn passes. */
  method PlayOn(g: Game, idx: Cell, next: Board)
    requires g.Valid() && g.gameActive && g.Cells()[idx] == Empty
    requires next == g.Cells()[idx := g.currentPlayer] && !HasWin(next) && !IsFull(next)
    modifies g, g.board
    ensures g.Valid() && g.board == old(g.board) && g.aiMode == old(g.aiMode)
    ensures g.Cells() == next && g.gameActive && g.currentPlayer == Other(old(g.currentPlayer))
    ensures g.pendingAi == old(g.pendingAi) + (if g.aiMode && g.currentPlayer == O then 2 else 0)
  {
    g.CellClicked(idx);
  }

  /** An accepted click that completes a line: the game stops, and the
      win is announced for the player who clicked. */
  method PlayWin(g: Game, idx: Cell, next: Board)
    requires g.Valid() && g.gameActive && g.Cells()[idx] == Empty
    requires next == g.Cells()[idx := g.currentPlayer] && HasWin(next)
    modifies g, g.board
    ensures g.Valid() && g.board == old(g.board) && g.aiMode == old(g.aiMode)
    ensures g.Cells() == next && !g.gameActive && g.currentPlayer == old(g.currentPlayer)
    ensures g.status == Outcome(next, g.currentPlayer) && g.pendingAi == old(g.pendingAi)
  {
    g.CellClicked(idx);
  }

  /** The first four moves of the top-row game, on a new two-player game. */
  method OpenTopRow(g: Game)
    requires g.Valid() && g.gameActive && g.currentPlayer == X && g.Cells() == EmptyBoard
    modifies g, g.board
    ensures g.Valid() && g.board == old(g.board) && g.aiMode == old(g.aiMode)
    ensures g.gameActive && g.currentPlayer == X && g.Cells() == Row3
  {
    OneXFacts();
    PlayOn(g, 0, OneX);
    XThenCentreFacts();
    PlayOn(g, 4, XThenCentre);
    Row2Open();
    PlayOn(g, 1, Row2);
    Row3Open();
    PlayOn(g, 8, Row3);
  }

  /** Two players: X takes 0, 1 and 2 while O takes 4 and 8; the game
      stops with X announced as the winner of the top row, and no click
      after that is accepted. */
  method TopRowGame() returns (s: Status, active: bool, cells: Board)
    ensures s == Won(X, (0, 1, 2)) && !active && cells == RowDone
  {
    var g := new Game(false);
    OpenTopRow(g);
    RowDoneWon();
    PlayWin(g, 2, RowDone);
    g.CellClicked(3);
    s, active, cells := g.status, g.gameActive, g.Cells();
  }

  /** A fired opponent call on a running game that places O on `c` and
      neither wins nor fills the board: the turn passes from whoever had
      it, and a new call is scheduled when O is now to move. */
  method OpponentPlaysOn(g: Game, r: nat, c: Cell)
    requires g.Valid() && g.gameActive && g.pendingAi > 0
    requires r < |EmptyCells(g.Cells())| && AiChoice(g.Cells(), r) == c
    requires !HasWin(g.Cells()[c := O]) && !IsFull(g.Cells()[c := O])
    modifies g, g.board
    ensures g.Valid() && g.board == old(g.board) && g.aiMode == old(g.aiMode)
    ensures g.Cells() == old(g.Cells())[c := O]
    ensures g.gameActive && g.currentPlayer == Other(old(g.currentPlayer))
    ensures g.pendingAi == old(g.pendingAi) - 1 + (if g.aiMode && g.currentPlayer == O then 1 else 0)
  {
    g.FireAiTimer(r);
  }

  /** A fired opponent call that places O on `c` and completes a line: the
      game stops and the win is announced for whoever had the turn. */
  method OpponentWinsOn(g: Game, r: nat, c: Cell)
    requires g.Valid() && g.gameActive && g.pendingAi > 0
    requires r < |EmptyCells(g.Cells())| && AiChoice(g.Cells(), r) == c
    requires HasWin(g.Cells()[c := O])
    modifies g, g.board
    ensures g.Valid() && g.board == old(g.board) && g.aiMode == old(g.aiMode)
    ensures g.Cells() == old(g.Cells())[c := O]
    ensures !g.gameActive && g.currentPlayer == old(g.currentPlayer)
    ensures g.status == Outcome(g.Cells(), old(g.currentPlayer)) && g.pendingAi == old(g.pendingAi) - 1
  {
    g.FireAiTimer(r);
  }

  const TwoOAfterX: Board := [X, O, Empty, Empty, O, Empty, Empty, Empty, Empty]
  const DiagonalO: Board := [O, Empty, Empty, Empty, O, Empty, Empty, Empty, O]

  // One lemma per opponent call in the traces below, with the random
  // tier drawing position 0: the cell chosen and the board it leaves.
  // Each board reached is shown open by a lemma of its own.

  lemma XThenCentreReached()
    ensures OneX[4 := O] == XThenCentre && !HasWin(XThenCentre) && !IsFull(XThenCentre)
  {
    NoWinOn(XThenCentre);
  }

  lemma CornerAnsweredStep(b: Board)
    requires b == OneX && |EmptyCells(b)| > 0
    ensures AiChoice(b, 0) == 4
    ensures b[4 := O] == XThenCentre && !HasWin(b[4 := O]) && !IsFull(b[4 := O])
  {
    AnswerToCorner(0);
    XThenCentreReached();
  }

  lemma TwoOAfterXReached()
    ensures XThenCentre[1 := O] == TwoOAfterX && !HasWin(TwoOAfterX) && !IsFull(TwoOAfterX)
  {
    NoWinOn(TwoOAfterX);
  }

  lemma OutOfTurnStep(b: Board)
    requires b == XThenCentre && |EmptyCells(b)| > 0
    ensures AiChoice(b, 0) == 1
    ensures b[1 := O] == TwoOAfterX && !HasWin(b[1 := O]) && !IsFull(b[1 := O])
  {
    RandomAfterCentre();
    TwoOAfterXReached();
  }

  lemma CentreOReached()
    ensures EmptyBoard[4 := O] == CentreO && !HasWin(CentreO) && !IsFull(CentreO)
  {
    NoWinOn(CentreO);
  }

  lemma CentreStep(b: Board)
    requires b == EmptyBoard && |EmptyCells(b)| > 0
    ensures AiChoice(b, 0) == 4
    ensures b[4 := O] == CentreO && !HasWin(b[4 := O]) && !IsFull(b[4 := O])
  {
    OpponentTakesCentre(0);
    CentreOReached();
  }

  lemma CornerCentreOReached()
    ensures CentreO[0 := O] == CornerCentreO && !HasWin(CornerCentreO) && !IsFull(CornerCentreO)
  {
    NoWinOn(CornerCentreO);
  }

  lemma BesideCentreStep(b: Board)
    requires b == CentreO && |EmptyCells(b)| > 0
    ensures AiChoice(b, 0) == 0
    ensures b[0 := O] == CornerCentreO && !HasWin(b[0 := O]) && !IsFull(b[0 := O])
  {
    RandomBesideCentre();
    CornerCentreOReached();
  }

  lemma DiagonalOReached()
    ensures CornerCentreO[8 := O] == DiagonalO && HasWin(DiagonalO)
    ensures Outcome(DiagonalO, X) == Won(X, (0, 4, 8))
  {
    assert LineComplete(DiagonalO, 6);
    assert forall j :: 0 <= j < 6 ==> !LineComplete(DiagonalO, j);
  }

  lemma DiagonalStep(b: Board)
    requires b == CornerCentreO && |EmptyCells(b)| > 0
    ensures AiChoice(b, 0) == 8
    ensures b[8 := O] == DiagonalO && HasWin(b[8 := O])
    ensures Outcome(b[8 := O], X) == Won(X, (0, 4, 8))
  {
    DiagonalWin(0);
    DiagonalOReached();
  }

  /** The state of a new game against the opponent. */
  ghost predicate Fresh(g: Game)
    reads g, g.board
  {
    g.Valid() && g.aiMode && g.gameActive && g.currentPlayer == X &&
    g.Cells() == EmptyBoard && g.pendingAi == 0
  }

  lemma OneXOpen()
    ensures !HasWin(OneX) && !IsFull(OneX)
  {
    NoWinOn(OneX);
  }

  /** X's first click, in a corner, against the opponent: the turn passes
      to O and two opponent calls are scheduled, one by the result check
      and one by the click handler. */
  method CornerClick(g: Game)
    requires Fresh(g)
    modifies g, g.board
    ensures g.Valid() && g.aiMode && g.gameActive && g.currentPlayer == O
    ensures g.board == old(g.board) && g.Cells() == OneX && g.pendingAi == 2
  {
    OneXOpen();
    PlayOn(g, 0, OneX);
  }

  /** The first of the two calls after X's corner click takes the centre
      and hands the turn back to X. */
  method CornerThenCentre(g: Game)
    requires Fresh(g)
    modifies g, g.board
    ensures g.Valid() && g.aiMode && g.gameActive && g.currentPlayer == X
    ensures g.board == old(g.board) && g.Cells() == XThenCentre && g.pendingAi == 1
  {
    CornerClick(g);
    CornerAnsweredStep(g.Cells());
    OpponentPlaysOn(g, 0, 4);
  }

  /** With the opponent on, X's first click schedules two opponent calls.
      The first takes the centre and passes the turn to X; the second
      places another O although it is X's turn, and hands the turn to O,
      so the next click marks O for the human and one call is still
      scheduled. */
  method DoubleScheduling() returns (cells: Board, s: Status, pending: nat)
    ensures cells == TwoOAfterX && s == Turn(O) && pending == 1
  {
    var g := new Game(true);
    CornerThenCentre(g);
    OutOfTurnStep(g.Cells());
    OpponentPlaysOn(g, 0, 1);
    s, cells, pending := g.status, g.Cells(), g.pendingAi;
  }

  /** X's first click against the opponent, then a reset: the board is
      new, and the two calls the click scheduled are still pending. */
  method ClickThenReset(g: Game)
    requires Fresh(g)
    modifies g, g.board
    ensures g.Valid() && g.aiMode && g.gameActive && g.currentPlayer == X
    ensures fresh(g.board) && g.Cells() == EmptyBoard && g.pendingAi == 2
  {
    CornerClick(g);
    g.ResetGame();
  }

  /** The first pending call runs on the new board: O takes the centre,
      and as O is then to move, it schedules a call of its own. */
  method ResetThenCentre(g: Game)
    requires Fresh(g)
    modifies g, g.board
    ensures g.Valid() && g.aiMode && g.gameActive && g.currentPlayer == O
    ensures fresh(g.board) && g.Cells() == CentreO && g.pendingAi == 2
  {
    ClickThenReset(g);
    CentreStep(g.Cells());
    OpponentPlaysOn(g, 0, 4);
  }

  /** The second pending call puts O in the corner, which gives the turn
      to X and schedules nothing. */
  method ResetThenCorner(g: Game)
    requires Fresh(g)
    modifies g, g.board
    ensures g.Valid() && g.aiMode && g.gameActive && g.currentPlayer == X
    ensures fresh(g.board) && g.Cells() == CornerCentreO && g.pendingAi == 1
  {
    ResetThenCentre(g);
    BesideCentreStep(g.Cells());
    OpponentPlaysOn(g, 0, 0);
  }

  /** Reset does not cancel scheduled calls: without a single click on the
      new board, the third call completes the O diagonal, and the win is
      announced for X, who has the turn. */
  method ResetRace() returns (cells: Board, s: Status, active: bool, pending: nat)
    ensures cells == DiagonalO && s == Won(X, (0, 4, 8)) && !active && pending == 0
  {
    var g := new Game(true);
    ResetThenCorner(g);
    DiagonalStep(g.Cells());
    OpponentWinsOn(g, 0, 8);
    s, cells, active, pending := g.status, g.Cells(), g.gameActive, g.pendingAi;
  }
}
