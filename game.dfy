// The game's mutable state and the handlers that change it: a click on a
// cell, the result check, the opponent's move, reset and mode change.

module TicTacToe {
  import opened Rules
  import opened Heuristic

  /** `c` is the position in `cands` of a completing cell that no earlier
      candidate precedes: then it is what `FirstCompleting` finds. */
  lemma FirstCompletingAt(b: Board, cands: seq<Cell>, m: Mark, i: nat)
    requires Ascending(cands) && i < |cands|
    requires Completes(b, cands[i], m)
    requires forall j :: 0 <= j < i ==> !Completes(b, cands[j], m)
    ensures FirstCompleting(b, cands, m) == Some(cands[i])
  {
    assert cands[i] in cands;
  }

  /** While the game runs, no line is complete, a cell is free and the
      status shows whose turn it is; once it stops, the status is the
      result the last move produced, announced for the current player. */
  predicate Consistent(b: Board, active: bool, player: Player, status: Status) {
    if active then
      status == Turn(player) && !HasWin(b) && !IsFull(b)
    else
      status == Outcome(b, player) && !status.Turn?
  }

  /** A second write to a cell replaces the first. */
  lemma Overwrite(b: Board, c: Cell, m1: Mark, m2: Mark)
    ensures b[c := m1][c := m2] == b[c := m2]
  {
  }

  class Game {
    var board: array<Mark>
    var gameActive: bool
    var currentPlayer: Player
    var aiMode: bool
    /** The status text, and on a win the highlighted line. */
    var status: Status
    /** How many `makeAiMove` calls are scheduled and have not yet run. */
    var pendingAi: nat

    function Cells(): Board
      reads this`board, board
      requires board.Length == 9
    {
      board[..]
    }

    /** The object invariant: a 3x3 board whose state is `Consistent`. */
    ghost predicate Valid()
      reads this, board
    {
      board.Length == 9 && Consistent(Cells(), gameActive, currentPlayer, status)
    }

    /** A click on `idx` is accepted. */
    predicate Playable(idx: int)
      reads this, board
    {
      0 <= idx < board.Length && board[idx] == Empty && gameActive
    }

    /** The state that checking the result leaves after `mover` played on
        the current board, from activity `active0` and `pending0` scheduled
        opponent calls; `calls` is the number of calls scheduled when the
        game goes on with O to move. */
    ghost predicate Settled(mover: Player, active0: bool, pending0: nat, calls: nat)
      reads this, board
      requires board.Length == 9
    {
      status == Outcome(Cells(), mover) &&
      currentPlayer == (if status.Turn? then Other(mover) else mover) &&
      gameActive == (active0 && status.Turn?) &&
      pendingAi == pending0 + (if aiMode && gameActive && currentPlayer == O then calls else 0)
    }

    /** The state part of `initGame`; `aiSelected` is the checked mode. */
    constructor (aiSelected: bool)
      ensures Valid() && fresh(board)
      ensures gameActive && currentPlayer == X && status == Turn(X) && Cells() == EmptyBoard
      ensures aiMode == aiSelected && pendingAi == 0
    {
      aiMode := aiSelected;
      gameActive := true;
      currentPlayer := X;
      board := new Mark[9](_ => Empty);
      status := Turn(X);
      pendingAi := 0;
      new;
      assert Cells() == EmptyBoard;
      EmptyBoardIsOpen();
    }

    /** A click on the cell whose parsed index is `idx`; an index outside
        0..8 also stands for NaN, which the source rejects the same way. */
    method CellClicked(idx: int)
      requires Valid()
      modifies this, board
      ensures Valid() && board == old(board) && aiMode == old(aiMode)
      ensures !old(Playable(idx)) ==> unchanged(this) && unchanged(board)
      ensures old(Playable(idx)) ==>
                Cells() == old(Cells())[idx := old(currentPlayer)] &&
                Settled(old(currentPlayer), true, old(pendingAi), 2)
    {
      if !(0 <= idx < board.Length) || board[idx] != Empty || !gameActive {
        return;
      }
      board[idx] := currentPlayer;
      CheckResult();
      if aiMode && gameActive && currentPlayer == O {
        pendingAi := pendingAi + 1;
      }
    }

    /** Scans the lines in order and stops at the first complete one: a
        win for `currentPlayer`; else a full board is a draw; else the turn
        passes, and with the opponent on, an O turn schedules its move. */
    method CheckResult()
      requires board.Length == 9
      modifies this
      ensures board == old(board) && aiMode == old(aiMode)
      ensures Settled(old(currentPlayer), old(gameActive), old(pendingAi), 1)
      ensures old(gameActive) ==> Valid()
    {
      var winningCombo := FindWin();
      if winningCombo.Some? {
        status := Won(currentPlayer, Lines[winningCombo.value]);
        gameActive := false;
        return;
      }
      if Empty !in board[..] {
        status := Draw;
        gameActive := false;
        return;
      }
      currentPlayer := if currentPlayer == X then O else X;
      status := Turn(currentPlayer);
      if aiMode && currentPlayer == O && gameActive {
        pendingAi := pendingAi + 1;
      }
    }

    /** The win scan of `checkResult`: the lines in order, stopping at the
        first complete one. */
    method FindWin() returns (winningCombo: Option<nat>)
      requires board.Length == 9
      ensures winningCombo == FirstWin(Cells())
    {
      winningCombo := None;
      for i := 0 to |Lines|
        invariant winningCombo.None? ==> forall j :: 0 <= j < i ==> !LineComplete(Cells(), j)
        invariant winningCombo.Some? ==> winningCombo == FirstWin(Cells())
      {
        var (a, b, c) := Lines[i];
        if board[a] != Empty && board[a] == board[b] && board[a] == board[c] {
          winningCombo := Some(i);
          break;
        }
      }
    }

    /** The opponent's inner test after a trial mark: does some line hold
        `m` in all three cells? */
    method HasLineOf(m: Mark) returns (found: bool)
      requires board.Length == 9
      ensures found == SomeLineAllOf(Cells(), m)
    {
      for j := 0 to |Lines|
        invariant forall k :: 0 <= k < j ==> !AllOf(Cells(), k, m)
      {
        var (a, b, c) := Lines[j];
        if board[a] == m && board[b] == m && board[c] == m {
          assert AllOf(Cells(), j, m);
          return true;
        }
      }
      return false;
    }

    /** Puts the opponent's O on cell `c` and checks the result. */
    method PlaceO(c: Cell)
      requires board.Length == 9
      modifies this, board
      ensures board == old(board) && aiMode == old(aiMode)
      ensures Cells() == old(Cells())[c := O]
      ensures Settled(old(currentPlayer), old(gameActive), old(pendingAi), 1)
      ensures old(gameActive) ==> Valid()
    {
      board[c] := O;
      CheckResult();
    }

    /** One trial scan of the opponent: puts `m` on each cell of `avail` in
        turn, tests the lines and undoes the trial, until a trial completes
        a line of `m`; that trial mark is left on the board. */
    method TrialScan(avail: seq<Cell>, m: Mark) returns (found: Option<Cell>)
      requires board.Length == 9 && Ascending(avail)
      requires forall c :: c in avail ==> board[c] == Empty
      modifies board
      ensures found == FirstCompleting(old(Cells()), avail, m)
      ensures found.Some? ==> Cells() == old(Cells())[found.value := m]
      ensures found.None? ==> unchanged(board)
    {
      ghost var before := Cells();
      for i := 0 to |avail|
        invariant unchanged(board) && Cells() == before
        invariant forall j :: 0 <= j < i ==> !Completes(before, avail[j], m)
      {
        var index := avail[i];
        board[index] := m;
        assert Cells() == before[index := m];
        var complete := HasLineOf(m);
        if complete {
          FirstCompletingAt(before, avail, m, i);
          return Some(index);
        }
        board[index] := Empty;
      }
      return None;
    }

    /** The opponent's move: it always places O, whoever's turn it is,
        and does nothing once the game has stopped. `r` is the position in
        the available moves that the random tier draws. */
    method MakeAiMove(r: nat)
      requires Valid()
      requires gameActive ==> r < |EmptyCells(Cells())|
      modifies this, board
      ensures Valid() && board == old(board) && aiMode == old(aiMode)
      ensures !old(gameActive) ==> unchanged(this) && unchanged(board)
      ensures old(gameActive) ==>
                Cells() == old(Cells())[AiChoice(old(Cells()), r) := O] &&
                Settled(old(currentPlayer), true, old(pendingAi), 1)
    {
      if !gameActive {
        return;
      }
      ghost var before := Cells();

      var availableMoves: seq<Cell> := [];
      for i := 0 to 9
        invariant availableMoves == EmptyCellsBelow(before, i)
      {
        if board[i] == Empty {
          availableMoves := availableMoves + [i];
        }
      }

      // Win now: the trial O that completes a line stays on the board.
      var win := TrialScan(availableMoves, O);
      if win.Some? {
        assert AiChoice(before, r) == win.value;
        CheckResult();
        return;
      }

      // Block: O goes where the trial X completed a line.
      var block := TrialScan(availableMoves, X);
      if block.Some? {
        assert AiChoice(before, r) == block.value;
        Overwrite(before, block.value, X, O);
        PlaceO(block.value);
        return;
      }

      // Centre.
      if board[4] == Empty {
        assert AiChoice(before, r) == 4;
        PlaceO(4);
        return;
      }

      // Random.
      if |availableMoves| > 0 {
        var cellIndex := availableMoves[r];
        assert AiChoice(before, r) == cellIndex;
        PlaceO(cellIndex);
      }
    }

    /** One scheduled `makeAiMove` call runs: its timer has fired. */
    method FireAiTimer(r: nat)
      requires Valid() && pendingAi > 0
      requires gameActive ==> r < |EmptyCells(Cells())|
      modifies this, board
      ensures Valid() && board == old(board) && aiMode == old(aiMode)
      ensures !old(gameActive) ==>
                unchanged(board) && gameActive == old(gameActive) && status == old(status) &&
                currentPlayer == old(currentPlayer) && pendingAi == old(pendingAi) - 1
      ensures old(gameActive) ==>
                Cells() == old(Cells())[AiChoice(old(Cells()), r) := O] &&
                Settled(old(currentPlayer), true, old(pendingAi) - 1, 1)
    {
      pendingAi := pendingAi - 1;
      MakeAiMove(r);
    }

    /** Starts a new game on a fresh board; scheduled opponent calls are
        not cancelled. */
    method ResetGame()
      modifies this
      ensures Valid() && fresh(board)
      ensures gameActive && currentPlayer == X && status == Turn(X) && Cells() == EmptyBoard
      ensures aiMode == old(aiMode) && pendingAi == old(pendingAi)
    {
      gameActive := true;
      currentPlayer := X;
      board := new Mark[9](_ => Empty);
      status := Turn(currentPlayer);
      assert Cells() == EmptyBoard;
      EmptyBoardIsOpen();
    }

    /** Selects a mode (`ai` when the opponent plays O) and resets. */
    method ChangeGameMode(ai: bool)
      modifies this
      ensures Valid() && fresh(board)
      ensures gameActive && currentPlayer == X && status == Turn(X) && Cells() == EmptyBoard
      ensures aiMode == ai && pendingAi == old(pendingAi)
    {
      aiMode := ai;
      ResetGame();
    }
  }
}
