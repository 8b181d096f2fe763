/**
 * make_move as the source writes it, where the column is never range-checked.
 *
 * The handler indexes the row list with the requested column, so a column
 * from -7 to -1 reaches column col + 7 the way Python list indexing does,
 * and any other column off the board raises IndexError out of the handler
 * (no response, nothing stored). The placed cell is then handed to
 * check_win with the raw, negative column, whose walks all start off the
 * board: such a move can never be reported as a win. Rooms.Move is the
 * corrected operation, which rejects every column outside 0..6.
 */
module UncheckedColumn {
  import opened Wrappers
  import opened Board
  import opened WinDetector
  import opened Rooms

  /** The cell a Python index `i` reaches in a row of seven; None when the index raises IndexError. */
  function PythonIndex(i: int): (cell: Option<int>)
    ensures cell.Some? <==> -Cols <= i < Cols
    ensures cell.Some? ==> 0 <= cell.value < Cols && (cell.value == i || cell.value == i + Cols)
  {
    if 0 <= i < Cols then Some(i)
    else if -Cols <= i < 0 then Some(i + Cols)
    else None
  }

  /** make_move on a found room as written; None stands for the uncaught IndexError. */
  function MoveAsWritten(room: Room, player: PlayerId, col: int): (r: Option<Result<Room, Error>>)
    requires WellFormed(room)
    ensures r.None? <==>
              room.winner == None && player in room.players && IndexOf(room.players, player) == room.turn
              && !(-Cols <= col < Cols)
    ensures r.Some? && r.value.Ok? ==>
              && -Cols <= col < Cols && player in room.players && IndexOf(room.players, player) == room.turn
              && var cell := if col < 0 then col + Cols else col;
              var row := LowestEmptyRow(room.board, cell);
              && row >= 0 && r.value.value.board == Place(room.board, row, cell, room.turn + 1)
  {
    if room.winner.Some? then Some(Err(GameOver))
    else if player !in room.players then Some(Err(NotInRoom))
    else
      var idx := IndexOf(room.players, player);
      if room.turn != idx then Some(Err(NotYourTurn))
      else
        match PythonIndex(col)
        case None => None
        case Some(cell) =>
          var row := LowestEmptyRow(room.board, cell);
          if row < 0 then Some(Err(ColumnFull))
          else
            var board := Place(room.board, row, cell, idx + 1);
            if FourInARow(board, row, col, idx + 1) then Some(Ok(room.(board := board, winner := Some(player))))
            else Some(Ok(room.(board := board, turn := 1 - room.turn)))
  }

  /** On the board's own columns the source and the corrected move agree. */
  lemma AsWrittenAgreesOnBoard(room: Room, player: PlayerId, col: int)
    requires WellFormed(room) && 0 <= col < Cols
    ensures MoveAsWritten(room, player, col) == Some(Move(room, player, col))
  {
  }

  /** The detector started from a cell off the board reports no line. */
  lemma OffBoardNeverWins(b: Grid, row: int, col: int, p: int)
    requires IsGrid(b) && !InBounds(col, row)
    ensures !FourInARow(b, row, col, p)
  {
  }

  /** As written, a move with a negative column is never a winning move, whatever it completes. */
  lemma NegativeColumnNeverWins(room: Room, player: PlayerId, col: int)
    requires WellFormed(room) && -Cols <= col < 0
    requires MoveAsWritten(room, player, col).Some? && MoveAsWritten(room, player, col).value.Ok?
    ensures MoveAsWritten(room, player, col).value.value.winner == None
  {
  }

  /** The room of the counterexample: alice has three marks stacked in column 6, bob three in column 5, alice to move. */
  function StackedRoom(): Room {
    var line := [0, 0, 0, 0, 0, 2, 1];
    var top := [0, 0, 0, 0, 0, 0, 0];
    Room(["alice", "bob"], map["alice" := false, "bob" := false], [top, top, top, line, line, line], 0, None)
  }

  /**
   * Counterexample: alice drops her fourth mark onto her stack in column 6
   * by asking for column -1. The source stores the four in a row but
   * declares no winner and hands the turn to bob; the corrected move
   * rejects column -1, and for column 6 declares alice the winner.
   */
  lemma NegativeColumnHidesWin()
    ensures WellFormed(StackedRoom())
    ensures var outcome := MoveAsWritten(StackedRoom(), "alice", -1);
            && outcome.Some? && outcome.value.Ok?
            && FourInARow(outcome.value.value.board, 2, 6, 1)
            && outcome.value.value.winner == None && outcome.value.value.turn == 1
    ensures Move(StackedRoom(), "alice", -1) == Err(BadColumn)
    ensures Move(StackedRoom(), "alice", 6).Ok? && Move(StackedRoom(), "alice", 6).value.winner == Some("alice")
  {
    var room := StackedRoom();
    assert WellFormed(room);
    assert room.board[2][6] == Empty && room.board[3][6] == room.board[4][6] == room.board[5][6] == 1;
    assert LowestEmptyRow(room.board, 6) == 2;
    var board := Place(room.board, 2, 6, 1);
    assert Window(board, 6, 2, 0, 1, 1);
    assert LineOnAxis(board, 2, 6, 0, 1, 1);
    NegativeColumnNeverWins(room, "alice", -1);
  }
}
