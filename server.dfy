/** The relay server's room manager (server.js): a dictionary of rooms, each
    with its players, board, turn and active flag, and the socket handlers that
    change it. Every handler returns the events it emits, in emission order;
    socket.io delivery, `socket.join` and the random room code are outside
    the model (the code is a parameter). */
module RoomServer {
  import opened Grid

  type SocketId = string
  type RoomCode = string

  /** A board cell: `null` or the mark written into it. */
  datatype Cell = Empty | Marked(side: Side)

  datatype Room = Room(players: seq<SocketId>, board: seq<Cell>, turn: Side, gameActive: bool)

  /** The `winner` field of `game_over`: a side, or `'draw'`. */
  datatype Winner = Winner(side: Side) | Draw

  datatype Event =
    | RoomCreated(socket: SocketId, code: RoomCode)
    | GameStart(code: RoomCode, players: seq<SocketId>)
    | ErrorMessage(socket: SocketId, text: string)
    | UpdateBoard(code: RoomCode, index: int, symbol: Side, nextTurn: Side)
    | GameOver(code: RoomCode, winner: Winner)
    | GameReset(code: RoomCode)
    | PlayerDisconnected(code: RoomCode)

  /** The one message for both join failures. */
  const NotFoundOrFull: string := "Room not found or full."

  /* ---------- room codes ---------- */

  function UpperChar(c: char): (r: char)
    ensures 'a' <= c <= 'z' ==> 'A' <= r <= 'Z' && r as int - c as int == 'A' as int - 'a' as int
    ensures !('a' <= c <= 'z') ==> r == c
  {
    if 'a' <= c <= 'z' then (c as int - 'a' as int + 'A' as int) as char else c
  }

  /** `toUpperCase`, on the ASCII letters. */
  function Upper(s: string): (r: string)
    ensures |r| == |s|
    ensures forall i | 0 <= i < |s| :: r[i] == UpperChar(s[i])
  {
    if s == [] then [] else [UpperChar(s[0])] + Upper(s[1..])
  }

  predicate NoLowerCase(s: string) {
    forall i | 0 <= i < |s| :: !('a' <= s[i] <= 'z')
  }

  /** An upper-cased code has no lower-case letter, and upper-casing it again changes nothing. */
  lemma UpperIsIdempotent(s: string)
    ensures NoLowerCase(Upper(s))
    ensures Upper(Upper(s)) == Upper(s)
  {
  }

  /** Codes without lower-case letters are exactly the fixed points of `toUpperCase`. */
  lemma UpperFixesOnlyUpperCase(s: string)
    ensures Upper(s) == s <==> NoLowerCase(s)
  {
  }

  /* ---------- the board ---------- */

  function EmptyBoard(): (b: seq<Cell>)
    ensures |b| == 9 && forall i | 0 <= i < 9 :: b[i] == Empty
  {
    seq(9, _ => Empty)
  }

  /** Which cells hold `s`: `board[index] === symbol` for every index. */
  function Owned(b: seq<Cell>, s: Side): (owned: seq<bool>)
    requires |b| == 9
    ensures |owned| == 9
    ensures forall i | 0 <= i < 9 :: owned[i] == (b[i] == Marked(s))
  {
    seq(9, i requires 0 <= i < 9 => b[i] == Marked(s))
  }

  /** The `won` test of `checkWin`. */
  predicate Wins(b: seq<Cell>, s: Side)
    requires |b| == 9
  {
    HasLine(Owned(b, s))
  }

  /** `board.every(cell => cell !== null)`. */
  predicate Full(b: seq<Cell>) {
    forall i | 0 <= i < |b| :: b[i] != Empty
  }

  /** Writing `s` into an empty cell takes that one cell for `s` and leaves the other side's cells alone. */
  lemma OwnedAfterMark(b: seq<Cell>, i: int, s: Side)
    requires |b| == 9 && 0 <= i < 9 && b[i] == Empty
    ensures Owned(b[i := Marked(s)], s) == Owned(b, s)[i := true]
    ensures Owned(b[i := Marked(s)], Other(s)) == Owned(b, Other(s))
    ensures !Owned(b, s)[i]
  {
  }

  /** On a full board every cell belongs to exactly one side. */
  lemma FullSplits(b: seq<Cell>)
    requires |b| == 9 && Full(b)
    ensures Count(Owned(b, X)) + Count(Owned(b, O)) == 9
  {
    forall i | 0 <= i < 9 ensures Owned(b, X)[i] != Owned(b, O)[i] {
      assert b[i] != Empty;
      if b[i].side == X {
        assert b[i] == Marked(X);
      } else {
        assert b[i] == Marked(O);
      }
    }
    CountSplit(Owned(b, X), Owned(b, O));
  }

  /* ---------- rooms ---------- */

  /** The room `create_room` stores: the creator alone, an empty board, 'x' to move, active. */
  function NewRoom(creator: SocketId): (r: Room)
    ensures r.players == [creator] && r.turn == X && r.gameActive
    ensures |r.board| == 9 && forall i | 0 <= i < 9 :: r.board[i] == Empty
  {
    Room([creator], EmptyBoard(), X, true)
  }

  /** The room after `restart_game`: same players, empty board, 'x' to move, active. */
  function Restarted(r: Room): (r': Room)
    ensures r'.players == r.players && r'.turn == X && r'.gameActive
    ensures |r'.board| == 9 && forall i | 0 <= i < 9 :: r'.board[i] == Empty
  {
    r.(board := EmptyBoard(), turn := X, gameActive := true)
  }

  /** `players.indexOf(socket)`: the first position holding the socket, or -1. */
  function IndexOf(players: seq<SocketId>, socket: SocketId): (k: int)
    ensures -1 <= k < |players|
    ensures k == -1 <==> socket !in players
    ensures k >= 0 ==> players[k] == socket && socket !in players[..k]
  {
    if players == [] then -1
    else if players[0] == socket then 0
    else
      var k := IndexOf(players[1..], socket);
      if k == -1 then -1
      else
        assert players[..k + 1] == [players[0]] + players[1..][..k];
        k + 1
  }

  /** The mover's mark: 'x' for the first player, 'o' for anyone else, including
      a socket that is not in the room at all. */
  function SymbolOf(players: seq<SocketId>, socket: SocketId): (s: Side)
    ensures s == X <==> |players| > 0 && players[0] == socket
  {
    if IndexOf(players, socket) == 0 then X else O
  }

  /** The room after an accepted move of `symbol` into cell `index`: that cell
      written, the turn flipped, and the game over when `symbol` holds a line or
      the board is full. */
  function AfterMove(r: Room, index: int, symbol: Side): (r': Room)
    requires |r.board| == 9 && 0 <= index < 9
    ensures r'.players == r.players && r'.turn == Other(r.turn)
    ensures |r'.board| == 9 && r'.board[index] == Marked(symbol)
    ensures forall j | 0 <= j < 9 && j != index :: r'.board[j] == r.board[j]
    ensures !r'.gameActive <==> Wins(r'.board, symbol) || Full(r'.board)
  {
    var board := r.board[index := Marked(symbol)];
    Room(r.players, board, Other(r.turn), !(Wins(board, symbol) || Full(board)))
  }

  /** What `checkWin` emits after an accepted move. */
  function Verdict(code: RoomCode, b: seq<Cell>, symbol: Side): (events: seq<Event>)
    requires |b| == 9
    ensures |events| <= 1
  {
    if Wins(b, symbol) then [GameOver(code, Winner(symbol))]
    else if Full(b) then [GameOver(code, Draw)]
    else []
  }

  /** The invariant every stored room keeps: one or two players, nine cells,
      'x' has made as many moves as 'o' or one more and the turn says which,
      at most one side holds a line, and a game still active has neither a line
      nor a full board. */
  ghost predicate RoomOk(r: Room) {
    && 1 <= |r.players| <= 2
    && |r.board| == 9
    && Count(Owned(r.board, X)) == Count(Owned(r.board, O)) + (if r.turn == X then 0 else 1)
    && !(Wins(r.board, X) && Wins(r.board, O))
    && (r.gameActive ==> !Wins(r.board, X) && !Wins(r.board, O) && !Full(r.board))
  }

  lemma EmptyBoardNoLine(s: Side)
    ensures !Wins(EmptyBoard(), s) && !Full(EmptyBoard())
  {
    assert !Full(EmptyBoard()) by {
      assert EmptyBoard()[0] == Empty;
    }
    assert forall k | 0 <= k < |Combos| :: !AllOwned(Owned(EmptyBoard(), s), Combos[k]);
  }

  lemma NewRoomOk(creator: SocketId)
    ensures RoomOk(NewRoom(creator))
  {
    CountNone(Owned(EmptyBoard(), X));
    CountNone(Owned(EmptyBoard(), O));
    EmptyBoardNoLine(X);
    EmptyBoardNoLine(O);
  }

  lemma RestartedOk(r: Room)
    requires 1 <= |r.players| <= 2
    ensures RoomOk(Restarted(r))
  {
    CountNone(Owned(EmptyBoard(), X));
    CountNone(Owned(EmptyBoard(), O));
    EmptyBoardNoLine(X);
    EmptyBoardNoLine(O);
  }

  /** An accepted move keeps the room invariant: the mark counts stay
      balanced with the turn, and a game that goes on has no line and a free cell. */
  lemma AfterMoveOk(r: Room, index: int)
    requires RoomOk(r) && r.gameActive
    requires 0 <= index < 9 && r.board[index] == Empty
    ensures RoomOk(AfterMove(r, index, r.turn))
  {
    var s := r.turn;
    var board := r.board[index := Marked(s)];
    OwnedAfterMark(r.board, index, s);
    CountTakeOne(Owned(r.board, s), index);
    if Full(board) && !Wins(board, s) {
      FullSplits(board);
    }
  }

  /** `events` tells each room in `codes` of the disconnect, once. */
  ghost predicate Announces(events: seq<Event>, codes: set<RoomCode>) {
    && |events| == |codes|
    && (forall e | e in events :: e.PlayerDisconnected? && e.code in codes)
    && (forall code | code in codes :: PlayerDisconnected(code) in events)
  }

  lemma AnnounceOne(events: seq<Event>, codes: set<RoomCode>, code: RoomCode)
    requires Announces(events, codes) && code !in codes
    ensures Announces(events + [PlayerDisconnected(code)], codes + {code})
  {
  }

  /** The codes of the rooms whose player list holds `socket`. */
  ghost function Holding(m: map<RoomCode, Room>, socket: SocketId): set<RoomCode> {
    set code | code in m && socket in m[code].players
  }

  /** What is left of `m` once the rooms outside `pending` that hold `socket` are deleted. */
  ghost function Kept(m: map<RoomCode, Room>, socket: SocketId, pending: set<RoomCode>): map<RoomCode, Room> {
    map code | code in m && (code in pending || socket !in m[code].players) :: m[code]
  }

  /** One iteration of the deletion loop, on the room `code`. */
  lemma DisconnectStep(m: map<RoomCode, Room>, socket: SocketId, pending: set<RoomCode>, code: RoomCode)
    requires code in pending && pending <= m.Keys
    ensures code in Kept(m, socket, pending) && Kept(m, socket, pending)[code] == m[code]
    ensures socket in m[code].players ==>
      && Kept(m, socket, pending - {code}) == Kept(m, socket, pending) - {code}
      && Holding(m, socket) - (pending - {code}) == (Holding(m, socket) - pending) + {code}
      && code !in Holding(m, socket) - pending
    ensures socket !in m[code].players ==>
      && Kept(m, socket, pending - {code}) == Kept(m, socket, pending)
      && Holding(m, socket) - (pending - {code}) == Holding(m, socket) - pending
  {
  }

  lemma DisconnectDone(m: map<RoomCode, Room>, socket: SocketId)
    requires forall code | code in m :: RoomOk(m[code])
    ensures Kept(m, socket, {}) == map code | code in m && socket !in m[code].players :: m[code]
    ensures forall code | code in Kept(m, socket, {}) :: RoomOk(Kept(m, socket, {})[code])
  {
  }

  /** Every room of the dictionary keeps the room invariant. */
  ghost predicate AllOk(m: map<RoomCode, Room>) {
    forall code | code in m :: RoomOk(m[code])
  }

  /** Storing a room that keeps the invariant keeps it for the whole dictionary. */
  lemma StoreKeepsValid(m: map<RoomCode, Room>, code: RoomCode, r: Room)
    requires AllOk(m) && RoomOk(r)
    ensures AllOk(m[code := r])
  {
  }

  /** Rooms keyed by their code. */
  class Rooms {
    var rooms: map<RoomCode, Room>

    ghost predicate Valid()
      reads this
    {
      AllOk(rooms)
    }

    constructor ()
      ensures Valid() && rooms == map[]
    {
      rooms := map[];
    }

    /** `create_room`. The code stands for the random one the server draws
        (already upper-cased); an existing room under it is replaced. */
    method CreateRoom(socket: SocketId, code: RoomCode) returns (events: seq<Event>)
      requires Valid()
      requires NoLowerCase(code)
      modifies this
      ensures Valid()
      ensures rooms == old(rooms)[code := NewRoom(socket)]
      ensures events == [RoomCreated(socket, code)]
    {
      NewRoomOk(socket);
      rooms := rooms[code := NewRoom(socket)];
      events := [RoomCreated(socket, code)];
    }

    /** `join_room`: upper-case the code; join only an existing room with fewer
        than two players, else report the one shared error to the joiner. */
    method JoinRoom(socket: SocketId, roomId: RoomCode) returns (events: seq<Event>)
      requires Valid()
      modifies this
      ensures Valid()
      ensures var code := Upper(roomId);
        if code in old(rooms) && |old(rooms)[code].players| < 2 then
          && rooms == old(rooms)[code := old(rooms)[code].(players := old(rooms)[code].players + [socket])]
          && events == [GameStart(code, rooms[code].players)]
        else
          && rooms == old(rooms)
          && events == [ErrorMessage(socket, NotFoundOrFull)]
    {
      var code := Upper(roomId);
      if code in rooms && |rooms[code].players| < 2 {
        var room := rooms[code];
        rooms := rooms[code := room.(players := room.players + [socket])];
        events := [GameStart(code, rooms[code].players)];
      } else {
        events := [ErrorMessage(socket, NotFoundOrFull)];
      }
    }

    /** `make_move`. The source does not range-check `index`. */
    method MakeMove(socket: SocketId, code: RoomCode, index: int) returns (events: seq<Event>)
      requires Valid()
      requires 0 <= index < 9
      modifies this
      ensures Valid()
      ensures
        if code !in old(rooms) || !old(rooms)[code].gameActive
           || SymbolOf(old(rooms)[code].players, socket) != old(rooms)[code].turn
           || old(rooms)[code].board[index] != Empty
        then rooms == old(rooms) && events == []
        else
          var room := old(rooms)[code];
          var symbol := room.turn;
          var board := room.board[index := Marked(symbol)];
          && rooms == old(rooms)[code := AfterMove(room, index, symbol)]
          && events == [UpdateBoard(code, index, symbol, Other(symbol))] + Verdict(code, board, symbol)
    {
      if code !in rooms || !rooms[code].gameActive {
        return [];
      }
      var room := rooms[code];
      var symbol := if IndexOf(room.players, socket) == 0 then X else O;
      if symbol != room.turn {
        return [];
      }
      if room.board[index] == Empty {
        AfterMoveOk(room, index);
        events := PlaceMove(code, index, symbol);
        StoreKeepsValid(old(rooms), code, AfterMove(room, index, symbol));
      } else {
        events := [];
      }
    }

    /** The accepted branch of `make_move`: write the mark, flip the turn,
        announce the move, then run `checkWin`. */
    method PlaceMove(code: RoomCode, index: int, symbol: Side) returns (events: seq<Event>)
      requires 0 <= index < 9 && code in rooms && |rooms[code].board| == 9
      requires rooms[code].gameActive
      modifies this
      ensures rooms == old(rooms)[code := AfterMove(old(rooms)[code], index, symbol)]
      ensures events == [UpdateBoard(code, index, symbol, Other(old(rooms)[code].turn))]
                        + Verdict(code, old(rooms)[code].board[index := Marked(symbol)], symbol)
    {
      var room := rooms[code];
      room := room.(board := room.board[index := Marked(symbol)]);
      room := room.(turn := if room.turn == X then O else X);
      rooms := rooms[code := room];
      events := [UpdateBoard(code, index, symbol, room.turn)];
      var over := CheckWin(code, symbol);
      events := events + over;
    }

    /** `checkWin`: end the game when `symbol` holds a line, else when the board is full. */
    method CheckWin(code: RoomCode, symbol: Side) returns (events: seq<Event>)
      requires code in rooms && |rooms[code].board| == 9
      modifies this
      ensures var room := old(rooms)[code];
        var ended := Wins(room.board, symbol) || Full(room.board);
        rooms == old(rooms)[code := room.(gameActive := if ended then false else room.gameActive)]
      ensures events == Verdict(code, old(rooms)[code].board, symbol)
    {
      var room := rooms[code];
      if Wins(room.board, symbol) {
        rooms := rooms[code := room.(gameActive := false)];
        events := [GameOver(code, Winner(symbol))];
      } else if Full(room.board) {
        rooms := rooms[code := room.(gameActive := false)];
        events := [GameOver(code, Draw)];
      } else {
        events := [];
      }
    }

    /** `restart_game`: reset an existing room; an unknown code does nothing. */
    method RestartGame(code: RoomCode) returns (events: seq<Event>)
      requires Valid()
      modifies this
      ensures Valid()
      ensures code in old(rooms) ==>
        rooms == old(rooms)[code := Restarted(old(rooms)[code])] && events == [GameReset(code)]
      ensures code !in old(rooms) ==> rooms == old(rooms) && events == []
    {
      if code in rooms {
        RestartedOk(rooms[code]);
        rooms := rooms[code := Restarted(rooms[code])];
        events := [GameReset(code)];
      } else {
        events := [];
      }
    }

    /** `disconnect`: delete every room the socket is in, telling each room; keep the rest. */
    method Disconnect(socket: SocketId) returns (events: seq<Event>)
      requires Valid()
      modifies this
      ensures Valid()
      ensures rooms == map code | code in old(rooms) && socket !in old(rooms)[code].players :: old(rooms)[code]
      ensures Announces(events, Holding(old(rooms), socket))
    {
      var pending := rooms.Keys;
      events := [];
      ghost var told: set<RoomCode> := {};
      while pending != {}
        invariant pending <= old(rooms).Keys
        invariant rooms == Kept(old(rooms), socket, pending)
        invariant told == Holding(old(rooms), socket) - pending
        invariant Announces(events, told)
        decreases pending
      {
        var code :| code in pending;
        DisconnectStep(old(rooms), socket, pending, code);
        if socket in rooms[code].players {
          AnnounceOne(events, told, code);
          events := events + [PlayerDisconnected(code)];
          rooms := rooms - {code};
          told := told + {code};
        }
        pending := pending - {code};
      }
      DisconnectDone(old(rooms), socket);
    }
  }
}
