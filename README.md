# Connect-four room server, modelled in Dafny

This project models the room logic of a small HTTP game server for a
two-player, Connect-Four-style game (`game_server.py`). The server keeps
every room as one document in a key-value store. A room holds:

- the seated players, at most two, in seating order (which is also turn order);
- a ready flag per seated name;
- a 6 x 7 board (row 5 is the bottom; 0 is empty, 1 and 2 are the two seats' marks);
- whose turn it is (0 or 1);
- the winner once there is one.

Requests create a room, join one, quick-join the first room waiting for a
second player (or create one), mark a player ready, make a move, and read
the lobby or the game state. A move drops the mover's mark into the lowest
empty cell of a column, asks the win detector (`check_win`) whether that
mark completes four in a row, and then either records the winner or passes
the turn.

## Structure

- `wrappers.dfy` — `Option` and `Result`.
- `board.dfy` (module `Board`) — the grid, the invariant that no mark floats
  (`Settled`), the gravity scan of a move (`LowestEmptyRow`, implemented by
  the loop `DropRow`), and placing a mark (`Place`).
- `win_detector.dfy` (module `WinDetector`) — `check_win` and its inner
  `count` as loops (`CheckWin`, `Count`). They are proved against
  `FourInARow`, a direct statement that one of the four windows of four
  cells covering the placed cell, on one of the four axes, holds the mark.
- `rooms.dfy` (module `Rooms`) — the room record, its invariant `WellFormed`,
  the error responses, and the transitions the handlers apply to a loaded
  room (`NewRoom`, `Seat`, `Join`, `MarkReady`, `AllReady`, `Move`).
- `turns.dfy` (module `Turns`) — strict alternation. The marks each seat
  has on the board fix the turn (`Balanced`). `Play` replays a series of
  moves on one room, and lemmas show what holds across such a series.
- `unchecked_column.dfy` (module `UncheckedColumn`) — `make_move` as written,
  with the unchecked column (see Findings).
- `server.dfy` (module `GameServer`) — class `Server`, whose field `rooms`
  is the store (room id to room). It has one method per request handler and
  a router per HTTP verb. Each handler loads the room, checks it, changes
  its own copy step by step and writes the whole document back. A refused
  request writes nothing.

Modelling choices:

- Rooms are values in the store map. The source decodes a fresh copy of the
  room from JSON on every request and writes the whole document back, so no
  two requests share a room object.
- The fresh room id, which the source draws from `uuid4`, is a parameter
  that must not already be in the store.
- The order in which `quick_join` scans the store is a parameter. It must
  list every stored id; nothing else is assumed about it.
- A request field that is absent is modelled as the empty string. So
  `create_room` refuses both an absent and an empty name. The other handlers
  pass it on unchecked, as the source does.

The model follows the code, also where it departs from the rules the game is meant to keep:

- join_room refuses a room with two or more players. It does not require
  exactly one.
- quick_join looks at every stored room and takes the first one with exactly
  one player.
- quick_join does not refuse a name that is already seated. The model
  proves that this can seat the same player twice (`QuickJoinCanSeatTwice`)
  and that such a room then stalls after one move (`DoubleSeatStalls`).
- The code has no compare-and-swap protocol. The model is sequential.
- The code never range-checks the column (see Findings). The corrected model
  rejects a column outside 0..6 with status 400 and the message
  "Invalid column". The source has no such message; the model adds it.

## Model

| member | source | states |
|---|---|---|
| Board.EmptyBoard | game_server.py:58 | a new board is well formed, settled and has every one of its 6 x 7 cells empty |
| Board.EmptyRowAtOrAbove | game_server.py:156-157 | the scan from row `top` upward returns an empty row of the column with every row below it (up to `top`) occupied, or -1 when all are occupied |
| Board.LowestEmptyRow | game_server.py:156-157 | a dropped mark lands in the empty cell with the largest row index; -1 exactly when every cell of the column is occupied |
| Board.DropRow | game_server.py:156-157 | the reversed-row loop of make_move stops exactly at LowestEmptyRow |
| Board.Place | game_server.py:158 | the placed cell holds the mark and no other cell changes |
| Board.DropKeepsBoard | game_server.py:156-158 | the cell gravity picks was empty (no occupied cell is overwritten), and the board stays well formed and settled |
| WinDetector.RunPrefixes | game_server.py:230-233 | count's walk reaches k cells (k up to 4) exactly when the first k cells of the walk are on the board and hold the mark |
| WinDetector.AxisTotalMeansLine | game_server.py:237-238 | the test `1 + count(d) + count(-d) >= 4` holds exactly when a window of four cells on that axis, covering the placed cell, all hold the mark |
| WinDetector.Count | game_server.py:227-234 | count returns the number of contiguous cells holding the mark from the start cell on, minus one, reading only cells on the board |
| WinDetector.CheckWin | game_server.py:226-240 | check_win is true exactly when the mark lies in four in a row horizontally, vertically or on either diagonal through (row, col), for any row and col |
| Rooms.MessageIdentifiesError | game_server.py:52-168 | no two refusals share an `error` message, so the message alone tells which refusal it was |
| Rooms.Status | game_server.py:137-154 | an unknown room is answered 404; every other refusal is 400 |
| Rooms.NewRoom | game_server.py:55-61 | a new room seats exactly the creator, not ready, on an empty board, turn 0, no winner, and is well formed with distinct seats |
| Rooms.Seat | game_server.py:82-83 | seating appends the player at the end with ready false and leaves board, turn and winner alone; the room stays well formed (at most two seats) |
| Rooms.Join | game_server.py:74-84 | join refuses a room with two seats (full) before a name already seated (duplicate); it succeeds exactly when the room has fewer than two seats and the name is not seated, and then seats the player and keeps the seats distinct |
| Rooms.MarkReady | game_server.py:127 | set_ready changes only the player's flag, to true, and keeps the room well formed |
| Rooms.AllReady | game_server.py:128 | in a well-formed room, all_ready holds exactly when two players are seated and the name in each seat is ready |
| Rooms.AllReadyMeansBothReady | game_server.py:128 | with distinct seats, all_ready holds exactly when two players are seated and both are ready |
| Rooms.IndexOf | game_server.py:147 | players.index gives the first seat holding the name |
| Rooms.Move | game_server.py:142-162 | refusals in order: game over, not in room, not your turn, bad column, column full (each iff its condition); a move is accepted exactly when none of them applies (undecided, seated, on turn, column 0..6 with an empty cell); an accepted move by the seat whose turn it is drops mark turn + 1 into the lowest empty cell, changes no other cell, sets the winner exactly when the mark completes four in a row, otherwise passes the turn, and keeps the room well formed |
| Rooms.QuickJoinCanSeatTwice | game_server.py:95-97 | seating a waiting player in their own room gives seats [p, p] with one ready flag, and one set_ready makes the room all ready |
| Rooms.DoubleSeatStalls | game_server.py:147-162 | in such a room the first move cannot win, and every move after it is refused as not your turn |
| Turns.MarksAfterPlace | game_server.py:158 | filling an empty cell adds one of that mark and changes no other mark's count |
| Turns.NewRoomIsBalanced | game_server.py:55-61 | a new room has no marks, in balance with turn 0 |
| Turns.MoveKeepsBalance | game_server.py:156-162 | after a legal move the mark counts still fix the turn: seat 0 has as many marks as seat 1 on turn 0 and one more on turn 1 while undecided |
| Turns.MovesAlternate | game_server.py:152-162 | two legal moves in a row, the first not winning, come from different seats |
| Turns.Play | game_server.py:133-168 | any series of make_move requests keeps the room well formed and changes neither seats nor ready flags |
| Turns.DecidedRoomIsFrozen | game_server.py:142-145 | once a winner is set, no series of requests changes the room: board, turn and winner stay |
| Turns.PlayKeepsBalance | game_server.py:152-162 | every series of requests keeps the marks in balance with the turn |
| Turns.PlayNeverOverwrites | game_server.py:156-158 | an occupied cell keeps its mark through every series of requests |
| UncheckedColumn.PythonIndex | game_server.py:157 | a row index from -7 to 6 reaches a cell (negative ones count from the end); any other raises IndexError |
| UncheckedColumn.MoveAsWritten | game_server.py:142-162 | the unchecked move raises IndexError (no answer) exactly when an accepted player's column is outside -7..6; an accepted move drops the mark into column col, or col + 7 for a negative column, at that column's lowest empty cell |
| UncheckedColumn.AsWrittenAgreesOnBoard | game_server.py:136-162 | for columns 0..6 the source's make_move and the corrected Move agree |
| UncheckedColumn.OffBoardNeverWins | game_server.py:229-230 | check_win started from a cell off the board reports no line |
| UncheckedColumn.NegativeColumnNeverWins | game_server.py:157-159 | as written, a move with a negative column is never recorded as a win |
| UncheckedColumn.NegativeColumnHidesWin | game_server.py:156-162 | as written, a column -1 move that completes four in a row is stored with no winner and the turn passed; the corrected Move rejects column -1 and declares the win for column 6 |
| GameServer.Refusal | game_server.py:71-72 | a refusal carries the error's status code (never 200) and its message |
| GameServer.Server.GetRoom | game_server.py:208-217 | nothing for an empty id or an id not in the store, otherwise the stored room |
| GameServer.Server.SaveRoom | game_server.py:219-224 | the room overwrites whatever was stored under its id and nothing else changes |
| GameServer.Server.CreateRoom | game_server.py:48-64 | an empty name is refused with nothing stored; otherwise exactly one new room, NewRoom(player), is stored under the fresh id |
| GameServer.Server.JoinRoom | game_server.py:66-86 | an unknown or empty id is 404 with nothing stored; otherwise Join decides, and only a seated player is written back |
| GameServer.Server.FindWaiting | game_server.py:92-95 | the scan returns the first id in scan order whose room has exactly one player, or -1 when no id in the order has one |
| GameServer.Server.QuickJoin | game_server.py:88-117 | never refuses; seats the player in the first waiting room of the scan, without a duplicate check, or, when no stored room has exactly one player, stores NewRoom(player) under the fresh id |
| GameServer.Server.SetReady | game_server.py:119-131 | unknown room and unseated name get the same refusal and nothing is stored; otherwise only the player's flag becomes true and all_ready is answered |
| GameServer.Server.MakeMove | game_server.py:133-168 | an unknown room is 404; otherwise Move decides; a refused move stores nothing, a legal one stores the moved room and answers its winner; the store stays valid (well formed and balanced rooms) |
| GameServer.Server.LobbyStatus | game_server.py:185-193 | the stored seats and ready flags, or 404 for an unknown room |
| GameServer.Server.GameState | game_server.py:195-203 | the stored board, turn and winner, or 404 for an unknown room |
| GameServer.Server.HandlePost | game_server.py:48-171 | status 200 exactly for success bodies; each known path answers and stores what its handler's rule decides (NewRoom for create_room, Join for join_room, quick_join seating the player in the first waiting room of the scan or, when no stored room waits, storing a new room under the fresh id, MarkReady with AllReady for set_ready, Move for make_move), refusals as their status and message with the store unchanged; an unknown path is 404 "Not found" |
| GameServer.Server.HandleGet | game_server.py:179-206 | success only for a known room on lobby_status or game_state, with the stored fields; an unknown room there is 404 "Room not found"; an unknown path is 404 "Not found" |

## Findings

| source | as written | input that shows it | evidently intended | confidence | as-written member | corrected member |
|---|---|---|---|---|---|---|
| game_server.py:136-159 | `col` is never range-checked. A column from -7 to -1 indexes the row from its end, so the mark lands in column col + 7, but `check_win` receives the raw negative column. All its walks then start off the board, so it never reports a win. Any other column off the board raises IndexError, and the client gets no response. | alice holds rows 3-5 of column 6, bob rows 3-5 of column 5, and it is alice's turn. alice asks for column -1. Her mark lands at row 2 of column 6, which makes four in a row, but the winner stays None and the turn passes to bob. | reject every column outside 0..6 with a 400 error, as every other move the handler cannot apply (game over, not seated, not on turn, column full) is refused with 400 | high (not executed) | UncheckedColumn.MoveAsWritten, shown by UncheckedColumn.NegativeColumnHidesWin | Rooms.Move (proved: a win is recorded exactly when the placed mark completes four in a row) |

## Left out

- The "Redis not available" 500 answer and the store client's checks for a missing connection (game_server.py:11-19, 34-37, 174-177, 209, 220). The model's store is always reachable.
- The time-to-live of one hour set on every write (game_server.py:62, 115, 222). The model's store never forgets a room.
- Exceptions the store client raises are not modelled. The source swallows them in get_room, save_room and the quick_join scan (game_server.py:103-104, 215-216, 223-224), so a failed write there is lost silently.
- JSON decoding and encoding, the Content-Length read, and the rule that a body which is not JSON counts as empty (game_server.py:39-44). Handlers receive already-decoded fields.
- An absent `player` or `room_id` field is modelled as the empty string. The source passes None on: join_room and quick_join would seat None, a name distinct from "".
- The column is an integer. A missing or non-integer `col` makes the source raise TypeError and answer nothing; that is not modelled.
- Headers, CORS and do_OPTIONS (game_server.py:22-31), and the request logging (game_server.py:46, 183).
- uuid4 id generation (game_server.py:54, 107). The fresh id is a parameter that is not in the store; a colliding id, which the source would overwrite, is excluded.
- GameServer.Server.QuickJoin: the scan order must list every stored id. The model claims nothing about which waiting room Redis SCAN reaches first, or about keys it reports twice.
- Concurrency. ThreadingTCPServer (game_server.py:244) runs requests in parallel with unguarded read-modify-write cycles. The model applies requests one at a time, so lost updates between racing requests are not captured.
- server_thread_pool_http.py is not part of this model: it is socket and thread-pool plumbing.
