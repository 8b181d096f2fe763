/**
 * The request handlers of the game server over its key-value store.
 *
 * The store maps a room id (the key room:<id>) to the room document. Each
 * handler loads the room it names, checks the request against it, changes
 * its own copy step by step and writes the whole document back; a rejected
 * request writes nothing. Requests are handled one at a time.
 */
module GameServer {
  import opened Wrappers
  import opened Board
  import opened WinDetector
  import opened Rooms
  import opened Turns

  /** The answer of lobby_status. */
  datatype Lobby = Lobby(players: seq<PlayerId>, ready: map<PlayerId, bool>)

  /** The answer of game_state. */
  datatype GameView = GameView(board: Grid, turn: int, winner: Option<PlayerId>)

  /** The JSON body of a response. */
  datatype Body =
    | RoomIdBody(roomId: string)
    | JoinedBody(roomId: string)
    | ReadyBody(allReady: bool)
    | MovedBody(winner: Option<PlayerId>)
    | LobbyBody(lobby: Lobby)
    | StateBody(view: GameView)
    | ErrorBody(error: string)

  /** A status code and a body. */
  datatype Response = Response(status: int, body: Body)

  /** The response to a refused request: the error's status code and message. */
  function Refusal(e: Error): (resp: Response)
    ensures resp.status == Status(e) && resp.body == ErrorBody(Message(e))
    ensures resp.status != 200
  {
    Response(Status(e), ErrorBody(Message(e)))
  }

  /** The answer to a path the server does not serve. */
  const UnknownPath: Response := Response(404, ErrorBody("Not found"))

  /** The room stored under `id` exists and has exactly one seated player: quick_join may seat someone there. */
  predicate Waiting(rooms: map<string, Room>, id: string) {
    id != "" && id in rooms && |rooms[id].players| == 1
  }

  class Server {
    /** The store: room id to the room stored under room:<id>. */
    var rooms: map<string, Room>

    /** Every stored room has a non-empty id, is well formed, and its marks agree with its turn. */
    ghost predicate Valid()
      reads this
    {
      forall id :: id in rooms ==> id != "" && WellFormed(rooms[id]) && Balanced(rooms[id])
    }

    constructor ()
      ensures Valid() && rooms == map[]
    {
      rooms := map[];
    }

    /** get_room: nothing for an empty id or an id the store does not hold, otherwise the stored room. */
    function GetRoom(id: string): (found: Option<Room>)
      reads this
      ensures found.Some? <==> id != "" && id in rooms
      ensures found.Some? ==> found.value == rooms[id]
    {
      if id == "" || id !in rooms then None else Some(rooms[id])
    }

    /** save_room: overwrite whatever is stored under `id`. */
    method SaveRoom(id: string, room: Room)
      modifies this
      ensures rooms == old(rooms)[id := room]
    {
      rooms := rooms[id := room];
    }

    /**
     * create_room: a missing or empty name is refused and nothing is stored;
     * otherwise a new room holding only `player` is stored under the fresh id.
     */
    method CreateRoom(player: PlayerId, freshId: string) returns (res: Result<string, Error>)
      requires Valid() && freshId != "" && freshId !in rooms
      modifies this
      ensures Valid()
      ensures player == "" ==> res == Err(MissingPlayer) && rooms == old(rooms)
      ensures player != "" ==> res == Ok(freshId) && rooms == old(rooms)[freshId := NewRoom(player)]
    {
      if player == "" {
        return Err(MissingPlayer);
      }
      NewRoomIsBalanced(player);
      SaveRoom(freshId, NewRoom(player));
      res := Ok(freshId);
    }

    /**
     * join_room: an unknown room is 404; a full room and a name already
     * seated are refused; otherwise the player takes the next seat, not ready.
     */
    method JoinRoom(player: PlayerId, id: string) returns (res: Result<string, Error>)
      requires Valid()
      modifies this
      ensures Valid()
      ensures old(GetRoom(id)).None? ==> res == Err(RoomNotFound) && rooms == old(rooms)
      ensures old(GetRoom(id)).Some? ==>
                match Join(old(rooms)[id], player)
                case Err(e) => res == Err(e) && rooms == old(rooms)
                case Ok(room) => res == Ok(id) && rooms == old(rooms)[id := room]
    {
      var loaded := GetRoom(id);
      if loaded.None? {
        return Err(RoomNotFound);
      }
      var room := loaded.value;
      if |room.players| >= 2 {
        return Err(RoomFull);
      }
      if player in room.players {
        return Err(AlreadyInRoom);
      }
      SaveRoom(id, Seat(room, player));
      res := Ok(id);
    }

    /**
     * The scan of quick_join: the first id in scan order whose room waits
     * for a second player, or -1 when there is none.
     */
    method FindWaiting(order: seq<string>) returns (i: int)
      ensures -1 <= i < |order|
      ensures i >= 0 ==> Waiting(rooms, order[i])
      ensures forall j :: 0 <= j < |order| && (i == -1 || j < i) ==> !Waiting(rooms, order[j])
    {
      i := 0;
      while i < |order|
        invariant 0 <= i <= |order|
        invariant forall j :: 0 <= j < i ==> !Waiting(rooms, order[j])
      {
        var room := GetRoom(order[i]);
        if room.Some? && |room.value.players| == 1 {
          return;
        }
        i := i + 1;
      }
      i := -1;
    }

    /**
     * quick_join: seat the player in the first waiting room of the scan, as
     * join_room would but without refusing a name already seated there; when
     * no room waits, store a new room under the fresh id, as create_room
     * would (without refusing an empty name). It never refuses.
     */
    method QuickJoin(player: PlayerId, order: seq<string>, freshId: string) returns (id: string)
      requires Valid() && freshId != "" && freshId !in rooms
      requires forall k :: k in rooms ==> k in order
      modifies this
      ensures Valid()
      ensures id == freshId ==>
                && rooms == old(rooms)[freshId := NewRoom(player)]
                && forall k :: k in old(rooms) ==> |old(rooms)[k].players| != 1
      ensures id != freshId ==>
                && Waiting(old(rooms), id)
                && rooms == old(rooms)[id := Seat(old(rooms)[id], player)]
                && exists i :: 0 <= i < |order| && order[i] == id && forall j :: 0 <= j < i ==> !Waiting(old(rooms), order[j])
    {
      var i := FindWaiting(order);
      if i >= 0 {
        id := order[i];
        SaveRoom(id, Seat(rooms[id], player));
      } else {
        forall k | k in rooms ensures |rooms[k].players| != 1 {
          var j :| 0 <= j < |order| && order[j] == k;
          assert !Waiting(rooms, order[j]);
        }
        id := freshId;
        NewRoomIsBalanced(player);
        SaveRoom(id, NewRoom(player));
      }
    }

    /**
     * set_ready: an unknown room and a name not seated get the same refusal;
     * otherwise the player's flag becomes true and the answer says whether
     * the room is all ready.
     */
    method SetReady(player: PlayerId, id: string) returns (res: Result<bool, Error>)
      requires Valid()
      modifies this
      ensures Valid()
      ensures old(GetRoom(id)).None? || player !in old(rooms)[id].players ==>
                res == Err(InvalidRoomOrPlayer) && rooms == old(rooms)
      ensures old(GetRoom(id)).Some? && player in old(rooms)[id].players ==>
                var room := MarkReady(old(rooms)[id], player);
                res == Ok(AllReady(room)) && rooms == old(rooms)[id := room]
    {
      var loaded := GetRoom(id);
      if loaded.None? || player !in loaded.value.players {
        return Err(InvalidRoomOrPlayer);
      }
      var room := MarkReady(loaded.value, player);
      SaveRoom(id, room);
      res := Ok(AllReady(room));
    }

    /**
     * make_move: an unknown room is 404; otherwise the room's move rules
     * decide (Rooms.Move). The answer of a legal move is the winner, if any;
     * a refused move stores nothing.
     */
    method MakeMove(player: PlayerId, id: string, col: int) returns (res: Result<Option<PlayerId>, Error>)
      requires Valid()
      modifies this
      ensures Valid()
      ensures old(GetRoom(id)).None? ==> res == Err(RoomNotFound) && rooms == old(rooms)
      ensures old(GetRoom(id)).Some? ==>
                match Move(old(rooms)[id], player, col)
                case Err(e) => res == Err(e) && rooms == old(rooms)
                case Ok(room) => res == Ok(room.winner) && rooms == old(rooms)[id := room]
    {
      var loaded := GetRoom(id);
      if loaded.None? {
        return Err(RoomNotFound);
      }
      var room := loaded.value;
      ghost var outcome := Move(room, player, col);
      if room.winner.Some? {
        assert outcome == Err(GameOver);
        return Err(GameOver);
      }
      if player !in room.players {
        assert outcome == Err(NotInRoom);
        return Err(NotInRoom);
      }
      var idx := IndexOf(room.players, player);
      if room.turn != idx {
        assert outcome == Err(NotYourTurn);
        return Err(NotYourTurn);
      }
      if !(0 <= col < Cols) {
        assert outcome == Err(BadColumn);
        return Err(BadColumn);
      }
      var row := DropRow(room.board, col);
      if row < 0 {
        assert outcome == Err(ColumnFull);
        return Err(ColumnFull);
      }
      room := room.(board := Place(room.board, row, col, idx + 1));
      var won := CheckWin(room.board, row, col, idx + 1);
      if won {
        room := room.(winner := Some(player));
      } else {
        room := room.(turn := 1 - room.turn);
      }
      assert outcome == Ok(room);
      MoveKeepsBalance(loaded.value, player, col);
      SaveRoom(id, room);
      res := Ok(room.winner);
    }

    /** lobby_status: the seats and ready flags of the room, or 404. */
    method LobbyStatus(id: string) returns (res: Result<Lobby, Error>)
      ensures GetRoom(id).None? ==> res == Err(RoomNotFound)
      ensures GetRoom(id).Some? ==> res == Ok(Lobby(rooms[id].players, rooms[id].ready))
    {
      var loaded := GetRoom(id);
      if loaded.None? {
        return Err(RoomNotFound);
      }
      res := Ok(Lobby(loaded.value.players, loaded.value.ready));
    }

    /** game_state: the board, turn and winner of the room, or 404. */
    method GameState(id: string) returns (res: Result<GameView, Error>)
      ensures GetRoom(id).None? ==> res == Err(RoomNotFound)
      ensures GetRoom(id).Some? ==> res == Ok(GameView(rooms[id].board, rooms[id].turn, rooms[id].winner))
    {
      var loaded := GetRoom(id);
      if loaded.None? {
        return Err(RoomNotFound);
      }
      res := Ok(GameView(loaded.value.board, loaded.value.turn, loaded.value.winner));
    }

    /**
     * do_POST: pick the handler by path and turn its outcome into a
     * response; the fields are those of the decoded request body, a
     * missing name or room id being the empty string.
     */
    method HandlePost(path: string, player: PlayerId, roomId: string, col: int, order: seq<string>, freshId: string)
      returns (resp: Response)
      requires Valid() && freshId != "" && freshId !in rooms
      requires forall k :: k in rooms ==> k in order
      modifies this
      ensures Valid()
      ensures resp.status == 200 <==> !resp.body.ErrorBody?
      ensures path !in {"/create_room", "/join_room", "/quick_join", "/set_ready", "/make_move"} ==>
                resp == UnknownPath && rooms == old(rooms)
      ensures resp.body.ErrorBody? ==> rooms == old(rooms)
      ensures path == "/create_room" && player == "" ==> resp == Refusal(MissingPlayer) && rooms == old(rooms)
      ensures path == "/create_room" && player != "" ==>
                resp == Response(200, RoomIdBody(freshId)) && rooms == old(rooms)[freshId := NewRoom(player)]
      ensures path in {"/join_room", "/make_move"} && old(GetRoom(roomId)).None? ==>
                resp == Refusal(RoomNotFound) && rooms == old(rooms)
      ensures path == "/join_room" && old(GetRoom(roomId)).Some? ==>
                match Join(old(rooms)[roomId], player)
                case Err(e) => resp == Refusal(e) && rooms == old(rooms)
                case Ok(room) => resp == Response(200, JoinedBody(roomId)) && rooms == old(rooms)[roomId := room]
      ensures path == "/quick_join" ==>
                && resp.status == 200 && resp.body.RoomIdBody?
                && (resp.body.roomId == freshId ==>
                      && rooms == old(rooms)[freshId := NewRoom(player)]
                      && forall k :: k in old(rooms) ==> |old(rooms)[k].players| != 1)
                && (resp.body.roomId != freshId ==>
                      && Waiting(old(rooms), resp.body.roomId)
                      && rooms == old(rooms)[resp.body.roomId := Seat(old(rooms)[resp.body.roomId], player)]
                      && exists i :: 0 <= i < |order| && order[i] == resp.body.roomId
                           && forall j :: 0 <= j < i ==> !Waiting(old(rooms), order[j]))
      ensures path == "/set_ready" && (old(GetRoom(roomId)).None? || player !in old(rooms)[roomId].players) ==>
                resp == Refusal(InvalidRoomOrPlayer) && rooms == old(rooms)
      ensures path == "/set_ready" && old(GetRoom(roomId)).Some? && player in old(rooms)[roomId].players ==>
                var room := MarkReady(old(rooms)[roomId], player);
                resp == Response(200, ReadyBody(AllReady(room))) && rooms == old(rooms)[roomId := room]
      ensures path == "/make_move" && old(GetRoom(roomId)).Some? ==>
                match Move(old(rooms)[roomId], player, col)
                case Err(e) => resp == Refusal(e) && rooms == old(rooms)
                case Ok(room) => resp == Response(200, MovedBody(room.winner)) && rooms == old(rooms)[roomId := room]
    {
      if path == "/create_room" {
        var res := CreateRoom(player, freshId);
        resp := if res.Ok? then Response(200, RoomIdBody(res.value)) else Refusal(res.error);
      } else if path == "/join_room" {
        var res := JoinRoom(player, roomId);
        resp := if res.Ok? then Response(200, JoinedBody(res.value)) else Refusal(res.error);
      } else if path == "/quick_join" {
        var id := QuickJoin(player, order, freshId);
        resp := Response(200, RoomIdBody(id));
      } else if path == "/set_ready" {
        var res := SetReady(player, roomId);
        resp := if res.Ok? then Response(200, ReadyBody(res.value)) else Refusal(res.error);
      } else if path == "/make_move" {
        var res := MakeMove(player, roomId, col);
        resp := if res.Ok? then Response(200, MovedBody(res.value)) else Refusal(res.error);
      } else {
        resp := UnknownPath;
      }
    }

    /** do_GET: lobby_status and game_state by path; any other path is 404. Nothing is stored. */
    method HandleGet(path: string, roomId: string) returns (resp: Response)
      ensures resp.status == 200 <==> !resp.body.ErrorBody?
      ensures resp.status == 200 ==> GetRoom(roomId).Some? && path in {"/lobby_status", "/game_state"}
      ensures path == "/lobby_status" && GetRoom(roomId).Some? ==>
                resp == Response(200, LobbyBody(Lobby(rooms[roomId].players, rooms[roomId].ready)))
      ensures path == "/game_state" && GetRoom(roomId).Some? ==>
                resp == Response(200, StateBody(GameView(rooms[roomId].board, rooms[roomId].turn, rooms[roomId].winner)))
      ensures path in {"/lobby_status", "/game_state"} && GetRoom(roomId).None? ==> resp == Refusal(RoomNotFound)
      ensures path !in {"/lobby_status", "/game_state"} ==> resp == UnknownPath
    {
      if path == "/lobby_status" {
        var res := LobbyStatus(roomId);
        resp := if res.Ok? then Response(200, LobbyBody(res.value)) else Refusal(res.error);
      } else if path == "/game_state" {
        var res := GameState(roomId);
        resp := if res.Ok? then Response(200, StateBody(res.value)) else Refusal(res.error);
      } else {
        resp := UnknownPath;
      }
    }
  }
}
