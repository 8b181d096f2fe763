/**
 * Strict alternation and the life of a game across many make_move requests.
 *
 * Seat 0 always moves on turn 0 and seat 1 on turn 1, so while a game is
 * undecided the number of marks each seat has on the board fixes whose
 * turn it is (Balanced). Play replays a series of make_move requests on one
 * room the way the server applies them one after another: a rejected
 * request leaves the room as it was.
 */
module Turns {
  import opened Wrappers
  import opened Board
  import opened Rooms

  /** How many cells of the board hold `m`. */
  function Marks(b: Grid, m: int): nat
    decreases |b|
  {
    if b == [] then 0 else Marks(b[..|b| - 1], m) + multiset(b[|b| - 1])[m]
  }

  /** Replacing one row changes the count by what that row held and now holds. */
  lemma {:induction false} MarksAfterRowUpdate(b: Grid, r: int, row: seq<int>, m: int)
    requires 0 <= r < |b|
    ensures Marks(b[r := row], m) == Marks(b, m) - multiset(b[r])[m] + multiset(row)[m]
    decreases |b|
  {
    var last := |b| - 1;
    if r == last {
      assert b[r := row][..last] == b[..last];
    } else {
      assert b[r := row][..last] == b[..last][r := row];
      MarksAfterRowUpdate(b[..last], r, row, m);
    }
  }

  /** Filling an empty cell with `mark` adds one `mark` and leaves every other mark's count alone. */
  lemma MarksAfterPlace(b: Grid, row: int, col: int, mark: int, m: int)
    requires IsGrid(b) && InBounds(col, row) && b[row][col] == Empty && mark != Empty
    ensures Marks(Place(b, row, col, mark), m) == Marks(b, m) + (if m == mark then 1 else 0) - (if m == Empty then 1 else 0)
  {
    var line := b[row][col := mark];
    MarksAfterRowUpdate(b, row, line, m);
    assert b[row] == b[row][..col] + [Empty] + b[row][col + 1..];
    assert line == b[row][..col] + [mark] + b[row][col + 1..];
  }

  /**
   * Seat 0 has placed as many marks as seat 1, or one more, and the turn
   * says which: while undecided it is seat 0's turn exactly when the counts
   * are equal; the winning move leaves the turn with the winner.
   */
  predicate Balanced(room: Room) {
    Marks(room.board, 1) - Marks(room.board, 2) == (if room.winner == None then room.turn else 1 - room.turn)
  }

  lemma NewRoomIsBalanced(player: PlayerId)
    ensures Balanced(NewRoom(player))
  {
    var b := NewRoom(player).board;
    forall m | m != Empty ensures Marks(b, m) == 0 {
      EmptyRowsHoldNoMarks(b, m);
    }
  }

  lemma {:induction false} EmptyRowsHoldNoMarks(b: Grid, m: int)
    requires m != Empty
    requires forall r, c :: 0 <= r < |b| && 0 <= c < |b[r]| ==> b[r][c] == Empty
    ensures Marks(b, m) == 0
    decreases |b|
  {
    if b != [] {
      var last := b[|b| - 1];
      EmptyRowsHoldNoMarks(b[..|b| - 1], m);
      assert forall c :: 0 <= c < |last| ==> last[c] != m;
      assert m !in multiset(last);
    }
  }

  /** A legal move keeps the balance: the mover's mark is added and the turn passes, unless the move wins. */
  lemma MoveKeepsBalance(room: Room, player: PlayerId, col: int)
    requires WellFormed(room) && Balanced(room) && Move(room, player, col).Ok?
    ensures Balanced(Move(room, player, col).value)
  {
    var after := Move(room, player, col).value;
    var row := LowestEmptyRow(room.board, col);
    var mark := room.turn + 1;
    assert after.board == Place(room.board, row, col, mark);
    MarksAfterPlace(room.board, row, col, mark, 1);
    MarksAfterPlace(room.board, row, col, mark, 2);
  }

  /** Two legal moves in a row that do not end the game come from different seats. */
  lemma MovesAlternate(room: Room, p: PlayerId, c: int, q: PlayerId, d: int)
    requires WellFormed(room) && Move(room, p, c).Ok?
    requires Move(room, p, c).value.winner == None
    requires Move(Move(room, p, c).value, q, d).Ok?
    ensures IndexOf(room.players, q) != IndexOf(room.players, p)
  {
  }

  /** Apply a series of make_move requests to one room; a rejected request changes nothing. */
  function Play(room: Room, moves: seq<(PlayerId, int)>): (r: Room)
    requires WellFormed(room)
    ensures WellFormed(r)
    ensures r.players == room.players && r.ready == room.ready
    decreases |moves|
  {
    if moves == [] then room
    else
      var next := match Move(room, moves[0].0, moves[0].1)
        case Ok(moved) => moved
        case Err(_) => room;
      Play(next, moves[1..])
  }

  /** Once a winner is set, no later request changes the room: not the board, not the turn, not the winner. */
  lemma {:induction false} DecidedRoomIsFrozen(room: Room, moves: seq<(PlayerId, int)>)
    requires WellFormed(room) && room.winner.Some?
    ensures Play(room, moves) == room
    decreases |moves|
  {
    if moves != [] {
      DecidedRoomIsFrozen(room, moves[1..]);
    }
  }

  /** Every series of requests keeps the balance between the two seats' marks and the turn. */
  lemma {:induction false} PlayKeepsBalance(room: Room, moves: seq<(PlayerId, int)>)
    requires WellFormed(room) && Balanced(room)
    ensures Balanced(Play(room, moves))
    decreases |moves|
  {
    if moves != [] {
      var m := Move(room, moves[0].0, moves[0].1);
      if m.Ok? {
        MoveKeepsBalance(room, moves[0].0, moves[0].1);
        PlayKeepsBalance(m.value, moves[1..]);
      } else {
        PlayKeepsBalance(room, moves[1..]);
      }
    }
  }

  /** An occupied cell keeps its mark through every series of requests. */
  lemma {:induction false} PlayNeverOverwrites(room: Room, moves: seq<(PlayerId, int)>, r: int, c: int)
    requires WellFormed(room) && InBounds(c, r) && room.board[r][c] != Empty
    ensures Play(room, moves).board[r][c] == room.board[r][c]
    decreases |moves|
  {
    if moves != [] {
      var m := Move(room, moves[0].0, moves[0].1);
      if m.Ok? {
        PlayNeverOverwrites(m.value, moves[1..], r, c);
      } else {
        PlayNeverOverwrites(room, moves[1..], r, c);
      }
    }
  }
}
