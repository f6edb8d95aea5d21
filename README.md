# Tic-tac-toe rooms, peer-to-peer turns and the dodge-game leaderboard

This project models, in Dafny, the bookkeeping core of a small browser games
repository: three pieces of turn, score and room state.

- `grid.dfy` (module `Grid`): the 3x3 board shared by both tic-tac-toe
  variants: the two marks, the eight winning triples of
  `WINNING_COMBINATIONS`, the "some triple is entirely mine" test, and a
  reference definition of rows, columns and diagonals on the geometry of
  the grid. It also has the mark counting used by the invariants.
- `server.dfy` (module `RoomServer`): the relay server's dictionary of rooms.
  Each room has its players, a nine-cell board, the side to move and an
  active flag. Class `Rooms` has one method per socket handler
  (`create_room`, `join_room`, `make_move`, `restart_game`, `disconnect`)
  and one for `checkWin`. Each method returns the events it emits, in order.
  The class invariant `Valid` says every stored room has one or two
  players. It also says 'x' has made as many moves as 'o' or one more, with
  the turn saying which, and that an active game has neither a line nor a
  full board. Every handler keeps it.
- `ox.dfy` (module `PeerTicTacToe`): the peer-to-peer client. Class `Game`
  holds the nine cells' mark classes (an array of sets, because a cell's
  class list is what the code reads) and the module-level flags. It has one
  method per click handler, per incoming data-channel message and per
  helper (`startGame`, `placeMark`, `swapTurns`, `endGame`,
  `checkGameEnd`, `handleRestart`, `startMultiplayerNewGame`). Messages
  sent to the peer are returned as a list. It also has the room-code
  prefix handling and the two orders in which a rematch handshake can run.
- `dino.dfy` (module `Leaderboard`): the dodge game's `players` map from peer
  id to `{name, color, score, alive}`. Class `Session` has the host's merge
  of `join` and `update` messages, the removal on connection close, the
  host's own update, the client's wholesale replacement by a snapshot, the
  round reset and the rematch click. It also has the leaderboard order:
  the source's comparator, and an insertion sort proved to give a ranked
  permutation of the map's entries.

Randomness (room codes), clocks and the transports (socket.io, PeerJS) are
outside the model. A room code is a parameter. Whether a data connection
is open is a boolean parameter `connOpen` / `hostOpen`. A send or emit is
a value in a returned list.

Three behaviours of the peer-to-peer client are stated as they are:

- `startGame` does not reset `myTurn`, and `startMultiplayerNewGame` does
  not reset `myRematchReq`. So after a rematch each side keeps the
  `myTurn` it had when the last game ended, and both requests stay set
  (`RematchOneAfterOther`, `RematchCrossing`).
- A networked game that ends on a click leaves both sides with `myTurn`
  false: the clicker gave it up, and the receiver did not get it back
  because the game was over. After the rematch neither side's click is
  accepted, and neither side's restart button does anything, because its
  request is still set. The new round is stuck
  (`RematchAfterClickEndingIsStuck`).
- A received `rematch_confirm` starts a new round and sends
  `rematch_confirm` back whenever the channel is open. So every confirm is
  answered by another one (`RematchCrossing` shows the second round of
  confirms). No claim is made that the exchange stops. Each such restart
  keeps `myTurn` and both requests, so it does not unstick the round.

## Model

| member | source | states |
|---|---|---|
| Grid.HasLineIsThreeInARow | server.js:98-110 | Some triple of the eight listed is entirely owned (`Grid.HasLine`, the some/every test) exactly when the owner has a full row, a full column or a full diagonal of the grid |
| RoomServer.UpperFixesOnlyUpperCase | server.js:35 | Upper-casing (`RoomServer.Upper`, `toUpperCase` on ASCII letters) leaves a code unchanged exactly when it has no lower-case letter |
| RoomServer.UpperIsIdempotent | server.js:35 | An upper-cased code has no lower-case letter, and upper-casing it again changes nothing |
| RoomServer.IndexOf | server.js:56 | The result is -1 exactly when the socket is not a player; otherwise it is the first position holding the socket |
| RoomServer.SymbolOf | server.js:56-57 | The mover plays 'x' exactly when it is the room's first player; any other socket, including one outside the room, plays 'o' |
| RoomServer.AfterMove | server.js:63-65 | An accepted move writes the mover's mark into the target cell only, keeps the players, flips the turn, and leaves the game inactive exactly when the mover holds a line (`RoomServer.Wins`) or the board is full (`RoomServer.Full`) |
| RoomServer.NewRoomOk | server.js:23-28 | A new room (creator alone, nine empty cells, 'x' to move, active) satisfies the room invariant |
| RoomServer.RestartedOk | server.js:79-81 | A restarted room with one or two players satisfies the room invariant |
| RoomServer.AfterMoveOk | server.js:60-65 | A move by the side to move into an empty cell of an active, valid room keeps the invariant: the mark counts stay balanced with the turn, at most one side holds a line, and a game that goes on has no line and no full board |
| RoomServer.Rooms.constructor | server.js:16 | The server starts with no rooms |
| RoomServer.Rooms.CreateRoom | server.js:21-32 | The code now maps to a room holding only the creator, with an empty board, 'x' to move and active; other rooms are unchanged; `room_created` goes to the creator |
| RoomServer.Rooms.JoinRoom | server.js:34-49 | After upper-casing the code, a room that exists and has fewer than two players gets the joiner appended and everyone is told `game_start` with the player list; otherwise nothing changes and the joiner gets the single "Room not found or full." message; no room ever exceeds two players |
| RoomServer.Rooms.MakeMove | server.js:51-75 | A missing or inactive room, a mover whose symbol is not the turn, or an occupied cell changes nothing and emits nothing; otherwise the room becomes the accepted move's result, and `update_board` is emitted followed by the verdict (`RoomServer.Verdict`: the winner, else a draw, else nothing) |
| RoomServer.Rooms.PlaceMove | server.js:63-74 | In an active room, the accepted branch stores the move's result and emits `update_board` with the next turn, then the verdict |
| RoomServer.Rooms.CheckWin | server.js:104-119 | A line of the mover's mark (`RoomServer.Wins`) ends the game and reports that mark as winner; otherwise a full board (`RoomServer.Full`) ends it as a draw; otherwise nothing changes and nothing is emitted; the events are `RoomServer.Verdict` of the board |
| RoomServer.Rooms.RestartGame | server.js:77-84 | An existing room gets an empty board, 'x' to move and active, with the same players, and `game_reset` is emitted; an unknown code changes nothing |
| RoomServer.Rooms.Disconnect | server.js:86-95 | Exactly the rooms whose player list holds the socket are deleted, every other room is kept unchanged, and each deleted room gets one `player_disconnected` |
| PeerTicTacToe.ClickCountsOne | ox.js:139-141 | An accepted click on a free cell adds exactly one mark to the side whose turn `oTurn` says it is, and none to the other side |
| PeerTicTacToe.JudgeMeaning | ox.js:165-170 | `PeerTicTacToe.Judge` (the branch of `checkGameEnd`, over `PeerTicTacToe.Wins` for `checkWin` and `PeerTicTacToe.AllTaken` for `isDraw`) reports a win exactly when the mark holds a row, column or diagonal; a draw exactly when it holds none and every cell is taken; otherwise the game continues; a full and won board counts as a win |
| PeerTicTacToe.AfterJudge | ox.js:165-175 | When the game continues the turn flips and the game stays as it was; when it ends the turn stays and the game becomes inactive |
| PeerTicTacToe.Ended | ox.js:210-234 | Ending a game makes it inactive and clears both rematch requests |
| PeerTicTacToe.MoveKeepsConsistent | ox.js:139-152 | A mark of the side to move on a free cell, judged afterwards, keeps the local-play invariant: no cell holds both marks and, while the game runs, X leads O by zero or one move as `oTurn` says, with no line and a free cell |
| PeerTicTacToe.DisplayId | ox.js:358-361 | The displayed id is the peer id without the app prefix when it starts with it, and the peer id itself otherwise |
| PeerTicTacToe.RoomCodeRoundTrip | ox.js:401 | Stripping the prefix from the address a joiner connects to gives back the typed code |
| PeerTicTacToe.TrimMeaning | ox.js:389 | `PeerTicTacToe.Trim`: the trimmed code is a middle slice of the input, only white space is cut at either end, and the result starts and ends with a non-space |
| PeerTicTacToe.TrimKeepsTrimmed | ox.js:389 | A code with no white space at either end survives trimming unchanged |
| PeerTicTacToe.Game.constructor | ox.js:35-46 | The script's starting state: empty cells, X to move, game active, not networked, no side, no turn, no rematch requests, opponent "Opponent" |
| PeerTicTacToe.Game.StartLocalGame | ox.js:98-102 | Leaves networked play and starts a fresh local game |
| PeerTicTacToe.Game.StartGame | ox.js:104-129 | Every cell is emptied, X has the move and the game is active; `myTurn` and both rematch flags are unchanged; the local-play invariant holds afterwards |
| PeerTicTacToe.Game.PlaceMark | ox.js:177-180 | Only the chosen cell changes, gaining the mark's class |
| PeerTicTacToe.Game.SwapTurns | ox.js:182-184 | Only `oTurn` changes, to its negation |
| PeerTicTacToe.Game.EndGame | ox.js:210-242 | The game stops and both rematch requests are cleared; nothing else changes |
| PeerTicTacToe.Game.CheckGameEnd | ox.js:165-175 | The branch taken is the win-then-draw judgement of the current board, and the flags become that branch's result |
| PeerTicTacToe.Game.HandleClick | ox.js:131-153 | A click when the game is over, when it is not this side's networked turn, or on a marked cell changes nothing; otherwise only that cell gets the side-to-move's mark, the move is sent when networked and the channel is open, `myTurn` is cleared when networked, the board is judged, and the local-play invariant is kept |
| PeerTicTacToe.Game.HandleRemoteMove | ox.js:155-163 | The peer's mark is added to the cell without any check and judged; if the game still runs the turn comes back to this side; the invariant is kept when the peer's move was a legal one |
| PeerTicTacToe.Game.StartMultiplayerNewGame | ox.js:292-302 | A new round starts and a confirmation is sent when the channel is open |
| PeerTicTacToe.Game.HandleRestart | ox.js:270-290 | A local game restarts at once; in a networked game a request already made changes nothing; otherwise the request is recorded and sent, and the round restarts (with a confirmation) when the peer's request had already arrived |
| PeerTicTacToe.Game.OnData | ox.js:426-456 | A name sets the opponent (default "Opponent" when empty), enters networked play and starts a round; a move is applied as a remote move; a rematch request is recorded and restarts the round when this side had asked too; a confirmation always restarts the round and answers with a confirmation; anything else changes nothing |
| PeerTicTacToe.Game.StartHosting | ox.js:374-386 | The host plays X and holds the first turn, and the code it displays is the code it hosts under |
| PeerTicTacToe.Game.JoinGame | ox.js:388-414 | An empty trimmed code is refused with no change; otherwise the joiner connects to the prefixed code and plays O, waiting for X's move |
| PeerTicTacToe.RematchOneAfterOther | ox.js:441-445 | When one side asks and the other asks after the request arrives, both peers are in a new round (empty board, X to move, active), both requests are still set on both sides, and every other flag, `myTurn` included, is unchanged |
| PeerTicTacToe.RematchCrossing | ox.js:453-454 | When both sides ask before either request arrives, both peers are in a new round, each confirmation is answered by another, both requests stay set on both sides, and every other flag, `myTurn` included, is unchanged |
| PeerTicTacToe.RematchAfterClickEndingIsStuck | ox.js:131-163 | After a game ended by a click and the rematch handshake, both sides are in an active new round with `myTurn` false and both requests set, and a further click or restart on either side changes nothing and sends nothing |
| Leaderboard.CompareIsTotalPreorder | dino.js:337-341 | The comparator (`Leaderboard.Compare`) is antisymmetric in sign and puts one entry first or ties exactly when the alive-then-score order allows it; that order is total and transitive |
| Leaderboard.SortForDisplay | dino.js:337 | The sorted list is a permutation of the input |
| Leaderboard.SortForDisplayRanked | dino.js:337-341 | In the sorted list every alive entry precedes every dead one and scores never rise within the same status |
| Leaderboard.Session.constructor | dino.js:19-35 | The page starts with no players, not host, no id, score 0 and no game running |
| Leaderboard.Session.InitHost | dino.js:424-430 | The peer becomes host under its id and its own record is added with score 0 and alive |
| Leaderboard.Session.HandleHostData | dino.js:480-492 | A join sets the sender's record to score 0 and alive and keeps every other entry; an update changes score and alive of a known entry only and never adds one; either is followed by a snapshot to everyone; a rematch request or anything else changes no record and sends nothing |
| Leaderboard.Session.OnConnectionClose | dino.js:438-442 | Exactly the closed peer's entry is removed and a snapshot is broadcast |
| Leaderboard.Session.SendUpdate | dino.js:305-324 | The host rewrites only its own record, and only when it has one, then broadcasts the update and a snapshot; a client sends the update to the host when that connection is open |
| Leaderboard.Session.HandleClientData | dino.js:520-537 | A snapshot replaces the whole map; a start message starts a round; a notification changes no game state |
| Leaderboard.Session.StartGame | dino.js:355-361 | The round is reset and the game runs |
| Leaderboard.Session.ResetGame | dino.js:363-378 | The local score is 0 and every entry has score 0 and is alive, with no key added or removed and names and colours kept |
| Leaderboard.Session.RematchClick | dino.js:550-563 | The host broadcasts a start and starts a round; a client asks the host when that connection is open and changes nothing else |
| Leaderboard.Session.RenderOrder | dino.js:333-343 | The rendered order is a permutation of the map's entries (one per key, so as many as there are players), alive first and by descending score |

## Left out

- Socket.io delivery, room joins, Express serving and logging: emits are returned as event values, and the addressing is the room code or the socket.
- PeerJS: peer creation, connection set-up, error and retry callbacks, the 15 s timeout, and `location.reload` on close. Whether a connection is open is a parameter.
- Random room codes: every code is a parameter. `RoomServer.Rooms.CreateRoom` requires the code to have no lower-case letter, as the generator's upper-casing guarantees. Like the source, it replaces a room already stored under that code.
- RoomServer.Upper: models `toUpperCase` on the ASCII letters only. Other characters are left unchanged, because case mapping beyond ASCII is not available here.
- RoomServer.Rooms.MakeMove: requires `0 <= index < 9`. The source does not range-check the index, so an out-of-range index would write outside the nine cells.
- PeerTicTacToe.Game.OnData: a move's index is required to be in range, because the source would fail on a missing cell. A move's class is 'x' or 'o', because a remote peer sending another class string is not modelled.
- PeerTicTacToe.Game.constructor: `oTurn` starts undefined in the source. It is modelled as false, which is how every read of it treats it.
- Leaderboard.Session.constructor: `myId` starts as `null` in the source. It is modelled as the empty id.
- The status text, colours, hover classes, highlighted cells, winner names and restart-button text and visibility of the tic-tac-toe client. They do not feed back into the game state.
- The name entry, localStorage name and visitor log, fullscreen and clipboard of both clients.
- The canvas drawing, the dino physics, the obstacles and collision detection: these use floating point and `Math.random`. The local `score` is only read, reset and sent here.
- The lobby player list and the dino rematch button's text and style. Only the restart or request the button triggers is modelled.
- Leaderboard.Session.RenderOrder: the map's entries are listed in an unspecified order of their keys, where the source uses `Object.values` (insertion order). The model's insertion sort keeps tied entries in listed order, like the engine's stable sort, but this is not proved. The contract states a ranked permutation of the entries, not which of several tied orders comes out.
- RoomServer.Rooms.RestartGame: the dictionary is a map, not a JavaScript object. A code naming an inherited property is not modelled. For `restart_game("__proto__")` the source finds `Object.prototype`, writes a board, turn and flag onto it and emits `game_reset`. After that, every `disconnect` loop also visits the inherited keys and throws. The model treats such a code as unknown.
- RoomServer.Rooms.Disconnect: `player_disconnected` events come out in the `for...in` key order in the source. The contract fixes which rooms are announced, once each, but not their order.
- Leaderboard.Session.HandleHostData: `players` is a map, not a JavaScript object. A `join` with id `"__proto__"` replaces the object's prototype in the source instead of adding an entry. An `update` with an inherited name such as `"constructor"` writes onto the inherited value. The model adds or updates an ordinary entry in both cases, and `Leaderboard.Session.RenderOrder` then lists it where `Object.values` would not.
- The `rematch_confirm` exchange is not proved to stop. Each received confirm is answered with another one while the channel is open.
