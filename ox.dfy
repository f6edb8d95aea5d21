/** The peer-to-peer tic-tac-toe client (ox.js): the nine cells' mark classes,
    the module-level turn and rematch flags, and the click and data-channel
    handlers that change them. Sends on the data channel are returned as a
    list; whether the channel is open (`conn && conn.open`) is a parameter.
    Text, colours and the hover class are not modelled. */
module PeerTicTacToe {
  import opened Grid

  datatype Option<T> = None | Some(value: T)

  /** The data-channel messages the two peers exchange. */
  datatype PeerMsg =
    | NameMsg(name: string)
    | MoveMsg(index: int, mark: Side)
    | RematchRequest
    | RematchConfirm
    | OtherMsg

  /** Which branch `checkGameEnd` takes. */
  datatype Ending = Continues | Won | Drawn

  /** The module-level variables of the client, as one value. */
  datatype Flags = Flags(
    oTurn: bool,
    gameActive: bool,
    isMultiplayer: bool,
    mySide: Option<Side>,
    myTurn: bool,
    myRematchReq: bool,
    oppRematchReq: bool,
    opponentName: string)

  const AppPrefix: string := "srinath-ox-"
  const DefaultOpponent: string := "Opponent"

  /** The mark the next local click places: O when `oTurn`, else X. */
  function Current(oTurn: bool): (c: Side)
    ensures c == O <==> oTurn
  {
    if oTurn then O else X
  }

  /** A cell is taken when its class list holds 'x' or 'o'. */
  predicate Taken(cell: set<Side>) {
    X in cell || O in cell
  }

  /** A cell's class list holds no mark but 'x' and 'o'. */
  lemma OnlyTwoMarks(cell: set<Side>)
    ensures cell - {X, O} == {}
    ensures !Taken(cell) ==> cell == {}
  {
    forall m | m in cell ensures m == X || m == O {
      if m.X? {
        assert m == X;
      } else {
        assert m == O;
      }
    }
  }

  /** Which cells carry class `c`. */
  function OwnedBy(b: seq<set<Side>>, c: Side): (owned: seq<bool>)
    requires |b| == 9
    ensures |owned| == 9
    ensures forall i | 0 <= i < 9 :: owned[i] == (c in b[i])
  {
    seq(9, i requires 0 <= i < 9 => c in b[i])
  }

  /** `checkWin(currentClass)`. */
  predicate Wins(b: seq<set<Side>>, c: Side)
    requires |b| == 9
  {
    HasLine(OwnedBy(b, c))
  }

  /** `isDraw()`: every cell is taken. */
  predicate AllTaken(b: seq<set<Side>>) {
    forall i | 0 <= i < |b| :: Taken(b[i])
  }

  /** The branch of `checkGameEnd` for board `b` after a `c` mark: the win test comes first. */
  function Judge(b: seq<set<Side>>, c: Side): (e: Ending)
    requires |b| == 9
  {
    if Wins(b, c) then Won else if AllTaken(b) then Drawn else Continues
  }

  /** `checkGameEnd` reports a win exactly when `c` holds a row, a column or a
      diagonal, a draw exactly when it does not and every cell is taken, and
      otherwise lets the game continue: a full board that is also won is a win. */
  lemma JudgeMeaning(b: seq<set<Side>>, c: Side)
    requires |b| == 9
    ensures Judge(b, c) == Won <==> ThreeInARow(OwnedBy(b, c))
    ensures Judge(b, c) == Drawn <==> !ThreeInARow(OwnedBy(b, c)) && AllTaken(b)
    ensures Judge(b, c) == Continues <==> !ThreeInARow(OwnedBy(b, c)) && exists i | 0 <= i < 9 :: !Taken(b[i])
  {
    HasLineIsThreeInARow(OwnedBy(b, c));
  }

  /** An accepted local click adds one mark to the side whose turn it is and none to the other. */
  lemma ClickCountsOne(b: seq<set<Side>>, oTurn: bool, index: int)
    requires |b| == 9 && 0 <= index < 9 && !Taken(b[index])
    ensures var c := Current(oTurn);
      var b' := b[index := {c}];
      && Count(OwnedBy(b', c)) == Count(OwnedBy(b, c)) + 1
      && Count(OwnedBy(b', Other(c))) == Count(OwnedBy(b, Other(c)))
  {
    var c := Current(oTurn);
    var b' := b[index := {c}];
    assert OwnedBy(b', c) == OwnedBy(b, c)[index := true];
    assert OwnedBy(b', Other(c)) == OwnedBy(b, Other(c));
    CountTakeOne(OwnedBy(b, c), index);
  }

  /** The flags after `endGame`: the game is over and both rematch requests are cleared. */
  function Ended(f: Flags): (f': Flags)
    ensures !f'.gameActive && !f'.myRematchReq && !f'.oppRematchReq
  {
    f.(gameActive := false, myRematchReq := false, oppRematchReq := false)
  }

  /** The flags after `checkGameEnd` took branch `e`: the turn swaps when the
      game continues, and `endGame` runs otherwise. */
  function AfterJudge(f: Flags, e: Ending): (f': Flags)
    ensures e == Continues ==> f'.oTurn == !f.oTurn && f'.gameActive == f.gameActive
    ensures e != Continues ==> f'.oTurn == f.oTurn && !f'.gameActive
  {
    if e == Continues then f.(oTurn := !f.oTurn) else Ended(f)
  }

  /** The local-play invariant: no cell holds both marks and, while the game
      runs, X has made as many moves as O or one more, with `oTurn` telling
      which, and the board has neither a line nor a full grid. */
  ghost predicate Consistent(b: seq<set<Side>>, f: Flags) {
    && |b| == 9
    && (forall i | 0 <= i < 9 :: !(X in b[i] && O in b[i]))
    && (f.gameActive ==>
          && Count(OwnedBy(b, X)) == Count(OwnedBy(b, O)) + (if f.oTurn then 1 else 0)
          && !Wins(b, X) && !Wins(b, O) && !AllTaken(b))
  }

  /** Marking a free cell with the side to move and judging keeps the invariant. */
  lemma MoveKeepsConsistent(b: seq<set<Side>>, f: Flags, index: int, g: Flags)
    requires Consistent(b, f) && f.gameActive
    requires 0 <= index < 9 && !Taken(b[index])
    requires g.gameActive == f.gameActive && g.oTurn == f.oTurn
    ensures var c := Current(f.oTurn);
      var b' := b[index := b[index] + {c}];
      Consistent(b', AfterJudge(g, Judge(b', c)))
  {
    var c := Current(f.oTurn);
    var b' := b[index := b[index] + {c}];
    assert OwnedBy(b', c) == OwnedBy(b, c)[index := true];
    assert OwnedBy(b', Other(c)) == OwnedBy(b, Other(c));
    CountTakeOne(OwnedBy(b, c), index);
    var e := Judge(b', c);
    if e == Continues {
      assert !Wins(b', c);
    }
  }

  /** The peer id a host asks for: the prefix and the room code. */
  function HostPeerId(code: string): (id: string)
    ensures |id| == |AppPrefix| + |code|
  {
    AppPrefix + code
  }

  /** The room id a host displays: the peer id with the prefix removed when it starts with it. */
  function DisplayId(id: string): (shown: string)
    ensures AppPrefix <= id ==> id == AppPrefix + shown
    ensures !(AppPrefix <= id) ==> shown == id
  {
    if AppPrefix <= id then id[|AppPrefix|..] else id
  }

  /** The host shows the code it hosts under, and a joiner who types that code
      connects to the host's peer id. */
  lemma RoomCodeRoundTrip(code: string)
    ensures DisplayId(HostPeerId(code)) == code
  {
  }

  /** The characters `trim` removes: white space (tab, vertical tab, form feed, the byte order
      mark and every space separator) and line terminators (line feed, carriage return, line and
      paragraph separators). */
  predicate IsSpace(ch: char) {
    || ch == '\t' || ch == '\U{0B}' || ch == '\U{0C}' || ch == '\U{FEFF}'
    || ch == ' ' || ch == '\U{A0}' || ch == '\U{1680}' || '\U{2000}' <= ch <= '\U{200A}'
    || ch == '\U{202F}' || ch == '\U{205F}' || ch == '\U{3000}'
    || ch == '\n' || ch == '\r' || ch == '\U{2028}' || ch == '\U{2029}'
  }

  function TrimStart(s: string): string {
    if s != [] && IsSpace(s[0]) then TrimStart(s[1..]) else s
  }

  function TrimEnd(s: string): string {
    if s != [] && IsSpace(s[|s| - 1]) then TrimEnd(s[..|s| - 1]) else s
  }

  /** `String.prototype.trim`: drop white space at both ends. */
  function Trim(s: string): string {
    TrimEnd(TrimStart(s))
  }

  /** TrimStart drops a prefix made only of white space and stops at a non-space. */
  lemma {:induction false} TrimStartCuts(s: string)
    ensures |TrimStart(s)| <= |s| && TrimStart(s) == s[|s| - |TrimStart(s)|..]
    ensures forall i | 0 <= i < |s| - |TrimStart(s)| :: IsSpace(s[i])
    ensures TrimStart(s) == [] || !IsSpace(TrimStart(s)[0])
  {
    if s != [] && IsSpace(s[0]) {
      TrimStartCuts(s[1..]);
      forall i | 0 < i < |s| - |TrimStart(s)| ensures IsSpace(s[i]) {
        assert s[i] == s[1..][i - 1];
      }
    }
  }

  /** TrimEnd drops a suffix made only of white space and stops at a non-space. */
  lemma {:induction false} TrimEndCuts(s: string)
    ensures |TrimEnd(s)| <= |s| && TrimEnd(s) == s[..|TrimEnd(s)|]
    ensures forall i | |TrimEnd(s)| <= i < |s| :: IsSpace(s[i])
    ensures TrimEnd(s) == [] || !IsSpace(TrimEnd(s)[|TrimEnd(s)| - 1])
  {
    if s != [] && IsSpace(s[|s| - 1]) {
      var last := |s| - 1;
      TrimEndCuts(s[..last]);
      forall i | |TrimEnd(s)| <= i < last ensures IsSpace(s[i]) {
        assert s[i] == s[..last][i];
      }
    }
  }

  /** Where Trim cuts: the kept slice `s[i..j]`, with white space only before `i` and from `j`
      on, and a non-space at each end of what is kept. */
  lemma TrimCuts(s: string) returns (i: int, j: int)
    ensures 0 <= i <= j <= |s| && Trim(s) == s[i..j]
    ensures forall k | 0 <= k < i :: IsSpace(s[k])
    ensures forall k | j <= k < |s| :: IsSpace(s[k])
    ensures Trim(s) == [] || (!IsSpace(Trim(s)[0]) && !IsSpace(Trim(s)[|Trim(s)| - 1]))
  {
    var t := TrimStart(s);
    var u := TrimEnd(t);
    TrimStartCuts(s);
    TrimEndCuts(t);
    i := |s| - |t|;
    j := i + |u|;
    assert t == s[i..];
    assert u == t[..|u|];
    assert u == s[i..j];
    forall k | j <= k < |s| ensures IsSpace(s[k]) {
      assert s[k] == t[k - i];
    }
    if u != [] {
      assert u[0] == t[0];
    }
  }

  /** Trim keeps a middle slice, drops only white space, and leaves no white space at either end. */
  lemma TrimMeaning(s: string)
    ensures exists i, j | 0 <= i <= j <= |s| ::
      (&& Trim(s) == s[i..j]
       && (forall k | 0 <= k < i :: IsSpace(s[k]))
       && (forall k | j <= k < |s| :: IsSpace(s[k])))
    ensures Trim(s) == [] || (!IsSpace(Trim(s)[0]) && !IsSpace(Trim(s)[|Trim(s)| - 1]))
  {
    var i, j := TrimCuts(s);
  }

  /** A code with no white space at either end survives trim unchanged. */
  lemma TrimKeepsTrimmed(s: string)
    requires s == [] || (!IsSpace(s[0]) && !IsSpace(s[|s| - 1]))
    ensures Trim(s) == s
  {
  }

  /** The client state of ox.js. */
  class Game {
    /** The nine cells' mark classes. */
    const cells: array<set<Side>>
    var oTurn: bool
    var gameActive: bool
    var isMultiplayer: bool
    var mySide: Option<Side>
    var myTurn: bool
    var myRematchReq: bool
    var oppRematchReq: bool
    var opponentName: string

    ghost predicate Valid() {
      cells.Length == 9
    }

    function Flagged(): Flags
      reads this
    {
      Flags(oTurn, gameActive, isMultiplayer, mySide, myTurn, myRematchReq, oppRematchReq, opponentName)
    }

    function Board(): (b: seq<set<Side>>)
      reads cells
      requires Valid()
      ensures |b| == 9
    {
      cells[..]
    }

    /** The state the script starts in (`oTurn` is undefined, read as false). */
    constructor ()
      ensures Valid() && fresh(cells)
      ensures Flagged() == Flags(false, true, false, None, false, false, false, DefaultOpponent)
      ensures forall i | 0 <= i < 9 :: cells[i] == {}
    {
      cells := new set<Side>[9](_ => {});
      oTurn := false;
      gameActive := true;
      isMultiplayer := false;
      mySide := None;
      myTurn := false;
      myRematchReq := false;
      oppRematchReq := false;
      opponentName := DefaultOpponent;
    }

    /** `startLocalGame`. */
    method StartLocalGame()
      requires Valid()
      modifies this, cells
      ensures Valid()
      ensures Flagged() == old(Flagged()).(isMultiplayer := false, oTurn := false, gameActive := true)
      ensures forall i | 0 <= i < 9 :: cells[i] == {}
      ensures Consistent(Board(), Flagged())
    {
      isMultiplayer := false;
      StartGame();
    }

    /** `startGame`: clear every cell, give X the move, reactivate the game.
        `myTurn` and the rematch flags are left as they were. */
    method StartGame()
      requires Valid()
      modifies this, cells
      ensures Valid()
      ensures Flagged() == old(Flagged()).(oTurn := false, gameActive := true)
      ensures forall i | 0 <= i < 9 :: cells[i] == {}
      ensures Consistent(Board(), Flagged())
    {
      oTurn := false;
      gameActive := true;
      var i := 0;
      while i < cells.Length
        invariant 0 <= i <= cells.Length
        invariant forall j | 0 <= j < i :: cells[j] == {}
        invariant Flagged() == old(Flagged()).(oTurn := false, gameActive := true)
      {
        OnlyTwoMarks(cells[i]);
        cells[i] := cells[i] - {X, O};
        i := i + 1;
      }
      CountNone(OwnedBy(Board(), X));
      CountNone(OwnedBy(Board(), O));
      assert !HasLine(OwnedBy(Board(), X)) && !HasLine(OwnedBy(Board(), O));
      assert !Taken(Board()[0]);
    }

    /** `placeMark`: add the mark's class to the cell. */
    method PlaceMark(index: int, mark: Side)
      requires Valid() && 0 <= index < 9
      modifies cells
      ensures Board() == old(Board())[index := old(cells[index]) + {mark}]
    {
      cells[index] := cells[index] + {mark};
    }

    /** `swapTurns`. */
    method SwapTurns()
      modifies this
      ensures Flagged() == old(Flagged()).(oTurn := !old(oTurn))
    {
      oTurn := !oTurn;
    }

    /** `endGame`: the game stops and both rematch requests are cleared
        (whether it was a draw only changes the status text). */
    method EndGame()
      modifies this
      ensures Flagged() == Ended(old(Flagged()))
    {
      gameActive := false;
      myRematchReq := false;
      oppRematchReq := false;
    }

    /** `checkGameEnd(currentClass)`: a win, else a draw, ends the game; otherwise the turn swaps. */
    method CheckGameEnd(mark: Side) returns (ending: Ending)
      requires Valid()
      modifies this
      ensures ending == Judge(Board(), mark)
      ensures Flagged() == AfterJudge(old(Flagged()), ending)
    {
      if Wins(cells[..], mark) {
        EndGame();
        ending := Won;
      } else if forall i | 0 <= i < 9 :: X in cells[i] || O in cells[i] {
        EndGame();
        ending := Drawn;
      } else {
        SwapTurns();
        ending := Continues;
      }
    }

    /** `handleClick` on cell `index`: ignored when the game is over, when it is
        the opponent's turn in a networked game, or when the cell is taken;
        otherwise mark it with the side to move, send the move (networked),
        give up the turn (networked) and judge the board. */
    method HandleClick(index: int, connOpen: bool) returns (sent: seq<PeerMsg>)
      requires Valid() && 0 <= index < 9
      modifies this, cells
      ensures Valid()
      ensures !old(gameActive) || (old(isMultiplayer) && !old(myTurn)) || Taken(old(cells[index])) ==>
        Board() == old(Board()) && Flagged() == old(Flagged()) && sent == []
      ensures !(!old(gameActive) || (old(isMultiplayer) && !old(myTurn)) || Taken(old(cells[index]))) ==>
        var mark := Current(old(oTurn));
        var board := old(Board())[index := {mark}];
        var waiting := old(Flagged()).(myTurn := if old(isMultiplayer) then false else old(myTurn));
        && Board() == board
        && sent == (if old(isMultiplayer) && connOpen then [MoveMsg(index, mark)] else [])
        && Flagged() == AfterJudge(waiting, Judge(board, mark))
      ensures old(Consistent(Board(), Flagged())) ==> Consistent(Board(), Flagged())
    {
      if !gameActive {
        return [];
      }
      if isMultiplayer && !myTurn {
        return [];
      }
      if X in cells[index] || O in cells[index] {
        return [];
      }
      ghost var before := Board();
      ghost var f := Flagged();
      OnlyTwoMarks(cells[index]);
      assert before[index] == {};
      var mark := if oTurn then O else X;
      assert before[index] + {mark} == {mark};
      PlaceMark(index, mark);
      assert Board() == before[index := {mark}];
      sent := [];
      if isMultiplayer {
        if connOpen {
          sent := [MoveMsg(index, mark)];
        }
        myTurn := false;
      }
      var ending := CheckGameEnd(mark);
      assert Board() == before[index := {mark}];
      if Consistent(before, f) {
        MoveKeepsConsistent(before, f, index, f.(myTurn := if f.isMultiplayer then false else f.myTurn));
      }
    }

    /** `handleRemoteMove`: the peer's mark is placed and judged without any
        check; the turn comes back to this side if the game is still running. */
    method HandleRemoteMove(index: int, mark: Side)
      requires Valid() && 0 <= index < 9
      modifies this, cells
      ensures Valid()
      ensures var board := old(Board())[index := old(cells[index]) + {mark}];
        var f := AfterJudge(old(Flagged()), Judge(board, mark));
        && Board() == board
        && Flagged() == (if f.gameActive then f.(myTurn := true) else f)
      ensures old(Consistent(Board(), Flagged())) && old(gameActive)
              && !Taken(old(cells[index])) && mark == Current(old(oTurn)) ==>
        Consistent(Board(), Flagged())
    {
      ghost var before := Board();
      ghost var f := Flagged();
      PlaceMark(index, mark);
      var ending := CheckGameEnd(mark);
      if gameActive {
        myTurn := true;
      }
      if Consistent(before, f) && f.gameActive && !Taken(before[index]) && mark == Current(f.oTurn) {
        OnlyTwoMarks(before[index]);
        MoveKeepsConsistent(before, f, index, f);
      }
    }

    /** `startMultiplayerNewGame`: start a new round and confirm it to the peer. */
    method StartMultiplayerNewGame(connOpen: bool) returns (sent: seq<PeerMsg>)
      requires Valid()
      modifies this, cells
      ensures Valid()
      ensures Flagged() == old(Flagged()).(oTurn := false, gameActive := true)
      ensures forall i | 0 <= i < 9 :: cells[i] == {}
      ensures sent == if connOpen then [RematchConfirm] else []
    {
      StartGame();
      sent := if connOpen then [RematchConfirm] else [];
    }

    /** `handleRestart`: a local game restarts at once; a networked one records
        this side's request (once), sends it, and restarts if the peer's
        request has already arrived. */
    method HandleRestart(connOpen: bool) returns (sent: seq<PeerMsg>)
      requires Valid()
      modifies this, cells
      ensures Valid()
      ensures !old(isMultiplayer) ==>
        && Flagged() == old(Flagged()).(oTurn := false, gameActive := true)
        && (forall i | 0 <= i < 9 :: cells[i] == {})
        && sent == []
      ensures old(isMultiplayer) && old(myRematchReq) ==>
        Flagged() == old(Flagged()) && Board() == old(Board()) && sent == []
      ensures old(isMultiplayer) && !old(myRematchReq) && !old(oppRematchReq) ==>
        && Flagged() == old(Flagged()).(myRematchReq := true)
        && Board() == old(Board())
        && sent == (if connOpen then [RematchRequest] else [])
      ensures old(isMultiplayer) && !old(myRematchReq) && old(oppRematchReq) ==>
        && Flagged() == old(Flagged()).(myRematchReq := true, oTurn := false, gameActive := true)
        && (forall i | 0 <= i < 9 :: cells[i] == {})
        && sent == (if connOpen then [RematchRequest, RematchConfirm] else [])
    {
      sent := [];
      if isMultiplayer {
        if !myRematchReq {
          myRematchReq := true;
          if connOpen {
            sent := [RematchRequest];
          }
          if oppRematchReq {
            var confirm := StartMultiplayerNewGame(connOpen);
            sent := sent + confirm;
          }
        }
      } else {
        StartGame();
      }
    }

    /** The `conn.on('data')` branches. A move's index is not range-checked by the source. */
    method OnData(msg: PeerMsg, connOpen: bool) returns (sent: seq<PeerMsg>)
      requires Valid()
      requires msg.MoveMsg? ==> 0 <= msg.index < 9
      modifies this, cells
      ensures Valid()
      ensures msg.NameMsg? ==>
        && Flagged() == old(Flagged()).(
             opponentName := if msg.name == [] then DefaultOpponent else msg.name,
             isMultiplayer := true, oTurn := false, gameActive := true)
        && (forall i | 0 <= i < 9 :: cells[i] == {})
        && sent == []
      ensures msg.MoveMsg? ==>
        var board := old(Board())[msg.index := old(cells[msg.index]) + {msg.mark}];
        var f := AfterJudge(old(Flagged()), Judge(board, msg.mark));
        && Board() == board
        && Flagged() == (if f.gameActive then f.(myTurn := true) else f)
        && sent == []
      ensures msg == RematchRequest && !old(myRematchReq) ==>
        Flagged() == old(Flagged()).(oppRematchReq := true) && Board() == old(Board()) && sent == []
      ensures msg == RematchRequest && old(myRematchReq) ==>
        && Flagged() == old(Flagged()).(oppRematchReq := true, oTurn := false, gameActive := true)
        && (forall i | 0 <= i < 9 :: cells[i] == {})
        && sent == (if connOpen then [RematchConfirm] else [])
      ensures msg == RematchConfirm ==>
        && Flagged() == old(Flagged()).(oTurn := false, gameActive := true)
        && (forall i | 0 <= i < 9 :: cells[i] == {})
        && sent == (if connOpen then [RematchConfirm] else [])
      ensures msg == OtherMsg ==> Flagged() == old(Flagged()) && Board() == old(Board()) && sent == []
    {
      sent := [];
      match msg
      case NameMsg(name) =>
        opponentName := if name == [] then DefaultOpponent else name;
        isMultiplayer := true;
        StartGame();
      case MoveMsg(index, mark) =>
        HandleRemoteMove(index, mark);
      case RematchRequest =>
        oppRematchReq := true;
        if myRematchReq {
          sent := StartMultiplayerNewGame(connOpen);
        }
      case RematchConfirm =>
        sent := StartMultiplayerNewGame(connOpen);
      case OtherMsg =>
    }

    /** `startHosting`: this side plays X and has the first move; the returned
        peer id stands for the one `initPeer` asks for with the (random) code. */
    method StartHosting(code: string) returns (peerId: string)
      modifies this
      ensures Flagged() == old(Flagged()).(mySide := Some(X), myTurn := true)
      ensures DisplayId(peerId) == code
    {
      peerId := HostPeerId(code);
      RoomCodeRoundTrip(code);
      mySide := Some(X);
      myTurn := true;
    }

    /** `joinGame`: an empty (trimmed) code is refused; otherwise connect to the
        peer id a host of that code holds, and play O, waiting for X's move. */
    method JoinGame(input: string) returns (address: Option<string>)
      modifies this
      ensures Trim(input) == [] ==> address == None && Flagged() == old(Flagged())
      ensures Trim(input) != [] ==>
        && address == Some(HostPeerId(Trim(input)))
        && Flagged() == old(Flagged()).(mySide := Some(O), myTurn := false)
    {
      var destCode := Trim(input);
      if destCode == [] {
        return None;
      }
      address := Some(HostPeerId(destCode));
      mySide := Some(O);
      myTurn := false;
    }
  }

  /** Two peers whose networked game has ended ask for a rematch one after the
      other: `a` asks, `b` receives the request and then asks too (which
      restarts `b` and sends a request and a confirmation), and `a` receives
      that request. The confirmations are left in flight: each would only
      restart its receiver's round again and answer with another one. Both
      end up in a new round with both requests still set; `myTurn` is kept. */
  method RematchOneAfterOther(a: Game, b: Game)
    requires a.Valid() && b.Valid() && a != b && a.cells != b.cells
    requires a.isMultiplayer && b.isMultiplayer
    requires !a.myRematchReq && !a.oppRematchReq && !b.myRematchReq && !b.oppRematchReq
    modifies a, a.cells, b, b.cells
    ensures a.Flagged() == old(a.Flagged()).(oTurn := false, gameActive := true, myRematchReq := true, oppRematchReq := true)
    ensures b.Flagged() == old(b.Flagged()).(oTurn := false, gameActive := true, myRematchReq := true, oppRematchReq := true)
    ensures forall i | 0 <= i < 9 :: a.cells[i] == {} && b.cells[i] == {}
  {
    var fromA := a.HandleRestart(true);
    assert fromA == [RematchRequest];
    var fromB := b.OnData(fromA[0], true);
    assert fromB == [];
    fromB := b.HandleRestart(true);
    assert fromB == [RematchRequest, RematchConfirm];
    var _ := a.OnData(fromB[0], true);
  }

  /** Both peers ask for a rematch before either request arrives: each request
      finds the receiver's own request set, so both start a new round, and each
      answers with a confirmation, which restarts the other again and is
      answered in turn. Both end in a new round with both requests still set. */
  method RematchCrossing(a: Game, b: Game)
    requires a.Valid() && b.Valid() && a != b && a.cells != b.cells
    requires a.isMultiplayer && b.isMultiplayer
    requires !a.myRematchReq && !a.oppRematchReq && !b.myRematchReq && !b.oppRematchReq
    modifies a, a.cells, b, b.cells
    ensures a.Flagged() == old(a.Flagged()).(oTurn := false, gameActive := true, myRematchReq := true, oppRematchReq := true)
    ensures b.Flagged() == old(b.Flagged()).(oTurn := false, gameActive := true, myRematchReq := true, oppRematchReq := true)
    ensures forall i | 0 <= i < 9 :: a.cells[i] == {} && b.cells[i] == {}
  {
    var fromA := a.HandleRestart(true);
    var fromB := b.HandleRestart(true);
    assert fromA == [RematchRequest] && fromB == [RematchRequest];
    var replyA := a.OnData(fromB[0], true);
    var replyB := b.OnData(fromA[0], true);
    assert replyA == [RematchConfirm] && replyB == [RematchConfirm];
    var echoB := b.OnData(replyA[0], true);
    var echoA := a.OnData(replyB[0], true);
    assert echoA == [RematchConfirm] && echoB == [RematchConfirm];
  }

  /** A networked game that `a` ends with a winning or drawing click, followed
      by the rematch handshake, leaves both peers stuck: `a` gave up its turn
      with the click, `b` never got it back because the game was over, and
      neither a new round nor the requests reset `myTurn` or `myRematchReq`.
      Afterwards a click on cell `j` and the restart button, on either side,
      change nothing and send nothing. */
  method RematchAfterClickEndingIsStuck(a: Game, b: Game, index: int, j: int) returns (sent: seq<PeerMsg>)
    requires a.Valid() && b.Valid() && a != b && a.cells != b.cells
    requires a.isMultiplayer && b.isMultiplayer && a.gameActive && b.gameActive
    requires a.myTurn && !b.myTurn
    requires a.Board() == b.Board() && a.oTurn == b.oTurn
    requires 0 <= index < 9 && !Taken(a.cells[index]) && 0 <= j < 9
    requires var c := Current(a.oTurn); Judge(a.Board()[index := {c}], c) != Continues
    modifies a, a.cells, b, b.cells
    ensures a.Flagged() == old(a.Flagged()).(oTurn := false, gameActive := true, myTurn := false, myRematchReq := true, oppRematchReq := true)
    ensures b.Flagged() == old(b.Flagged()).(oTurn := false, gameActive := true, myRematchReq := true, oppRematchReq := true)
    ensures forall i | 0 <= i < 9 :: a.cells[i] == {} && b.cells[i] == {}
    ensures sent == []
  {
    ghost var c := Current(a.oTurn);
    ghost var after := a.Board()[index := {c}];
    ghost var before := b.Board();
    assert !Taken(before[index]);
    OnlyTwoMarks(before[index]);
    assert after == before[index := {c}];
    var move := a.HandleClick(index, true);
    assert move == [MoveMsg(index, c)] && !a.gameActive;
    assert b.Board() == before;
    assert b.cells[index] == {} && b.cells[index] + {c} == {c};
    assert b.Board()[index := b.cells[index] + {c}] == after;
    var _ := b.OnData(move[0], true);
    assert !b.gameActive && !b.myTurn;
    RematchOneAfterOther(a, b);
    var clickA := a.HandleClick(j, true);
    var clickB := b.HandleClick(j, true);
    var restartA := a.HandleRestart(true);
    var restartB := b.HandleRestart(true);
    sent := clickA + clickB + restartA + restartB;
  }
}
