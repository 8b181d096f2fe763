/**
 * The room document and the rules that change it.
 *
 * A room is the record the server keeps for one match: the seated players
 * (at most two, in seating order, which is also turn order), their ready
 * flags, the board, whose turn it is (0 or 1) and the winner once there is
 * one. The functions here are the transitions the request handlers apply
 * to a loaded room; the handlers themselves, and the store, are in
 * module GameServer.
 */
module Rooms {
  import opened Wrappers
  import opened Board
  import opened WinDetector

  /** A player name; the empty string also stands for a request that left the field out. */
  type PlayerId = string

  datatype Room = Room(
    players: seq<PlayerId>,
    ready: map<PlayerId, bool>,
    board: Grid,
    turn: int,
    winner: Option<PlayerId>)

  /** The rejections the handlers answer with, each with its own status code and message. */
  datatype Error =
    | MissingPlayer
    | RoomNotFound
    | RoomFull
    | AlreadyInRoom
    | InvalidRoomOrPlayer
    | GameOver
    | NotInRoom
    | NotYourTurn
    | BadColumn
    | ColumnFull

  /** The HTTP status of a rejection: 404 for an unknown room, 400 for everything else. */
  function Status(e: Error): (code: int)
    ensures code == 404 <==> e == RoomNotFound
    ensures code == 404 || code == 400
  {
    if e == RoomNotFound then 404 else 400
  }

  /** The `error` string of the response body. */
  function Message(e: Error): string {
    match e
    case MissingPlayer => "Missing player in request"
    case RoomNotFound => "Room not found"
    case RoomFull => "Room already full"
    case AlreadyInRoom => "Player already in room"
    case InvalidRoomOrPlayer => "Invalid room or player"
    case GameOver => "Game over"
    case NotInRoom => "Player not in room"
    case NotYourTurn => "Not your turn"
    case BadColumn => "Invalid column"
    case ColumnFull => "Column full"
  }

  /** Each refusal has its own message, so a client can tell them apart by the `error` string alone. */
  lemma MessageIdentifiesError(e: Error, e': Error)
    requires Message(e) == Message(e')
    ensures e == e'
  {
  }

  /**
   * What every stored room satisfies: one or two seats, a ready flag for
   * exactly the seated names, a settled board, a turn index of 0 or 1 and,
   * once decided, a winner who is seated.
   */
  predicate WellFormed(room: Room) {
    && 1 <= |room.players| <= 2
    && room.ready.Keys == (set q | q in room.players)
    && WellFormedBoard(room.board)
    && Settled(room.board)
    && (room.turn == 0 || room.turn == 1)
    && (room.winner.Some? ==> room.winner.value in room.players)
  }

  /** No name is seated twice. */
  predicate Distinct(s: seq<PlayerId>) {
    forall i, j :: 0 <= i < j < |s| ==> s[i] != s[j]
  }

  /** The room create_room stores (and quick_join when it finds no waiting room). */
  function NewRoom(player: PlayerId): (room: Room)
    ensures WellFormed(room) && Distinct(room.players)
    ensures room.players == [player] && room.ready == map[player := false]
    ensures forall r, c :: 0 <= r < Rows && 0 <= c < Cols ==> room.board[r][c] == Empty
    ensures room.turn == 0 && room.winner == None
  {
    Room([player], map[player := false], EmptyBoard(), 0, None)
  }

  /** Seating a player: appended to the seats, not yet ready; shared by join_room and quick_join. */
  function Seat(room: Room, player: PlayerId): (r: Room)
    requires WellFormed(room) && |room.players| < 2
    ensures WellFormed(r)
    ensures r.players == room.players + [player] && r.ready == room.ready[player := false]
    ensures r.board == room.board && r.turn == room.turn && r.winner == room.winner
  {
    room.(players := room.players + [player], ready := room.ready[player := false])
  }

  /**
   * The checks join_room makes on a room it found, in the source's order:
   * a room with two seats is full, a seated name may not join again.
   */
  function Join(room: Room, player: PlayerId): (r: Result<Room, Error>)
    requires WellFormed(room)
    ensures r == Err(RoomFull) <==> |room.players| >= 2
    ensures r == Err(AlreadyInRoom) <==> |room.players| < 2 && player in room.players
    ensures r.Ok? <==> |room.players| < 2 && player !in room.players
    ensures r.Ok? ==> player !in room.players && r.value == Seat(room, player)
    ensures r.Ok? && Distinct(room.players) ==> Distinct(r.value.players)
  {
    if |room.players| >= 2 then Err(RoomFull)
    else if player in room.players then Err(AlreadyInRoom)
    else Ok(Seat(room, player))
  }

  /** set_ready on a seated player: only that player's flag changes, to true. */
  function MarkReady(room: Room, player: PlayerId): (r: Room)
    requires WellFormed(room) && player in room.players
    ensures WellFormed(r)
    ensures r.ready == room.ready[player := true]
    ensures r.players == room.players && r.board == room.board && r.turn == room.turn && r.winner == room.winner
  {
    room.(ready := room.ready[player := true])
  }

  /**
   * The all_ready answer of set_ready: every ready flag is true and two
   * players are seated. In a well-formed room that is: two seats, and the
   * name in each seat is ready.
   */
  function AllReady(room: Room): (all: bool)
    ensures WellFormed(room) ==>
              (all <==> |room.players| == 2 && forall i :: 0 <= i < |room.players| ==> room.ready[room.players[i]])
  {
    (forall q | q in room.ready :: room.ready[q]) && |room.players| == 2
  }

  /** With distinct seats, all_ready means both seated players are ready, and nothing less. */
  lemma AllReadyMeansBothReady(room: Room)
    requires WellFormed(room) && Distinct(room.players)
    ensures AllReady(room) <==>
              |room.players| == 2 && room.ready[room.players[0]] && room.ready[room.players[1]]
  {
  }

  /** players.index(player): the first seat holding the name. */
  function IndexOf(s: seq<PlayerId>, x: PlayerId): (i: nat)
    requires x in s
    ensures i < |s| && s[i] == x
    ensures forall j :: 0 <= j < i ==> s[j] != x
  {
    if s[0] == x then 0 else 1 + IndexOf(s[1..], x)
  }

  /**
   * The cells of `after` are those of `before` except (row, col), which was
   * the lowest empty cell of column col and now holds `mark`.
   */
  ghost predicate DroppedInto(before: Grid, after: Grid, row: int, col: int, mark: int) {
    && IsGrid(before) && IsGrid(after) && InBounds(col, row)
    && before[row][col] == Empty
    && (forall r :: row < r < Rows ==> before[r][col] != Empty)
    && after[row][col] == mark
    && (forall r, c :: 0 <= r < Rows && 0 <= c < Cols && (r != row || c != col) ==> after[r][c] == before[r][c])
  }

  /**
   * make_move on a room it found, with the column range-checked (see the
   * findings in README.md). Rejections come in the source's order: a decided
   * game, a name not seated, a seat whose turn it is not, a column off the
   * board, a full column. A legal move drops the mover's mark (seat index + 1)
   * into the lowest empty cell of the column; the mover wins exactly when
   * that mark completes four in a row, and otherwise the turn passes.
   */
  function Move(room: Room, player: PlayerId, col: int): (r: Result<Room, Error>)
    requires WellFormed(room)
    ensures r == Err(GameOver) <==> room.winner.Some?
    ensures r == Err(NotInRoom) <==> room.winner == None && player !in room.players
    ensures r == Err(NotYourTurn) <==>
              room.winner == None && player in room.players && IndexOf(room.players, player) != room.turn
    ensures r == Err(BadColumn) <==>
              room.winner == None && player in room.players && IndexOf(room.players, player) == room.turn
              && !(0 <= col < Cols)
    ensures r == Err(ColumnFull) <==>
              room.winner == None && player in room.players && IndexOf(room.players, player) == room.turn
              && 0 <= col < Cols && forall row :: 0 <= row < Rows ==> room.board[row][col] != Empty
    ensures r.Ok? <==>
              room.winner == None && player in room.players && IndexOf(room.players, player) == room.turn
              && 0 <= col < Cols && LowestEmptyRow(room.board, col) >= 0
    ensures r.Ok? ==>
              && WellFormed(r.value)
              && r.value.players == room.players && r.value.ready == room.ready
              && room.winner == None && player in room.players && 0 <= col < Cols
              && var mark := room.turn + 1;
              var row := LowestEmptyRow(room.board, col);
              && IndexOf(room.players, player) == room.turn
              && DroppedInto(room.board, r.value.board, row, col, mark)
              && (r.value.winner == Some(player) <==> FourInARow(r.value.board, row, col, mark))
              && (r.value.winner == None <==> !FourInARow(r.value.board, row, col, mark))
              && r.value.turn == (if r.value.winner == None then 1 - room.turn else room.turn)
  {
    if room.winner.Some? then Err(GameOver)
    else if player !in room.players then Err(NotInRoom)
    else
      var idx := IndexOf(room.players, player);
      if room.turn != idx then Err(NotYourTurn)
      else if !(0 <= col < Cols) then Err(BadColumn)
      else
        var row := LowestEmptyRow(room.board, col);
        if row < 0 then Err(ColumnFull)
        else
          DropKeepsBoard(room.board, col, idx + 1);
          var board := Place(room.board, row, col, idx + 1);
          if FourInARow(board, row, col, idx + 1) then Ok(room.(board := board, winner := Some(player)))
          else Ok(room.(board := board, turn := 1 - room.turn))
  }
  /**
   * quick_join seats a player in a waiting room without join_room's
   * duplicate check: a player waiting alone who quick-joins takes both seats,
   * has one ready flag for the two seats, and one set_ready makes the room
   * all ready.
   */
  lemma QuickJoinCanSeatTwice(p: PlayerId)
    ensures var room := Seat(NewRoom(p), p);
            && room.players == [p, p] && !Distinct(room.players)
            && room.ready == map[p := false]
            && AllReady(MarkReady(room, p))
  {
    var room := Seat(NewRoom(p), p);
    assert room.players[0] == room.players[1];
  }

  /**
   * In a room whose two seats hold the same name, the name's seat index is
   * always 0: after its first move the turn is 1 and every later move is
   * refused as not that player's turn, so the game cannot go on.
   */
  lemma DoubleSeatStalls(p: PlayerId, c: int, d: int)
    requires Move(Seat(NewRoom(p), p), p, c).Ok?
    ensures Move(Seat(NewRoom(p), p), p, c).value.winner == None
    ensures Move(Move(Seat(NewRoom(p), p), p, c).value, p, d) == Err(NotYourTurn)
  {
  }
}
