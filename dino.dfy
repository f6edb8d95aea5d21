/** The dodge game's leaderboard bookkeeping (dino.js): the `players` map from
    peer id to record, kept authoritative by the host of a star of
    connections and replaced wholesale on each client by the snapshots the
    host broadcasts. Handlers return what they send; the canvas, physics and
    the PeerJS connections themselves are outside the model. */
module Leaderboard {

  type PeerId = string

  datatype Player = Player(name: string, color: string, score: int, alive: bool)

  /** The messages of the star: joiner to host, and host to everyone. */
  datatype Message =
    | Join(name: string, color: string, id: PeerId)
    | Update(id: PeerId, score: int, alive: bool)
    | Snapshot(players: map<PeerId, Player>)
    | Start
    | RematchReq(name: string)
    | RematchReqNotification(name: string)

  /** A send: to every open connection of the host, or to the host. */
  datatype Outgoing = Broadcast(msg: Message) | ToHost(msg: Message)

  /** The record a `join` creates: score 0 and running. */
  function Joined(name: string, color: string): (p: Player)
    ensures p.score == 0 && p.alive && p.name == name && p.color == color
  {
    Player(name, color, 0, true)
  }

  /** The record after a round reset. */
  function Fresh(p: Player): (q: Player)
    ensures q.score == 0 && q.alive && q.name == p.name && q.color == p.color
  {
    p.(score := 0, alive := true)
  }

  /** Every record reset, no key added or removed. */
  function ResetAll(m: map<PeerId, Player>): (r: map<PeerId, Player>)
    ensures r.Keys == m.Keys
    ensures forall k | k in r :: r[k] == Fresh(m[k])
  {
    map k | k in m :: Fresh(m[k])
  }

  /* ---------- leaderboard order ---------- */

  /** The `renderLeaderboard` comparator: negative when `a` goes first. */
  function Compare(a: Player, b: Player): (r: int)
    ensures a.alive && !b.alive ==> r < 0
    ensures !a.alive && b.alive ==> r > 0
    ensures a.alive == b.alive ==> r == b.score - a.score
  {
    if a.alive && !b.alive then -1
    else if !a.alive && b.alive then 1
    else b.score - a.score
  }

  /** `a` may come before `b`: alive before dead, and higher score first among equals. */
  predicate InOrder(a: Player, b: Player) {
    && (b.alive ==> a.alive)
    && (a.alive == b.alive ==> a.score >= b.score)
  }

  /** The comparator is consistent: it puts `a` first (or ties) exactly when `InOrder`
      allows it, it is antisymmetric, and the order it induces is total and transitive. */
  lemma CompareIsTotalPreorder(a: Player, b: Player, c: Player)
    ensures Compare(a, b) <= 0 <==> InOrder(a, b)
    ensures Compare(a, b) < 0 <==> Compare(b, a) > 0
    ensures InOrder(a, b) || InOrder(b, a)
    ensures InOrder(a, b) && InOrder(b, c) ==> InOrder(a, c)
  {
  }

  /** Every alive entry precedes every dead one, and scores never rise within the same status. */
  ghost predicate Ranked(s: seq<Player>) {
    forall i, j | 0 <= i < j < |s| :: InOrder(s[i], s[j])
  }

  /** Insert `p` before the first entry it does not have to follow (ahead of its ties, so that
      inserting the earlier entries last keeps tied entries in their original order). */
  function Insert(p: Player, s: seq<Player>): (r: seq<Player>)
    ensures multiset(r) == multiset(s) + multiset{p}
    ensures |r| == |s| + 1
  {
    if s == [] then [p]
    else if Compare(p, s[0]) <= 0 then [p] + s
    else
      assert s == [s[0]] + s[1..];
      [s[0]] + Insert(p, s[1..])
  }

  lemma {:induction false} InsertRanked(p: Player, s: seq<Player>)
    requires Ranked(s)
    ensures Ranked(Insert(p, s))
  {
    if s == [] {
    } else if Compare(p, s[0]) <= 0 {
      forall q | q in s ensures InOrder(p, q) {
        CompareIsTotalPreorder(p, s[0], q);
      }
      RankedCons(p, s);
    } else {
      var rest := Insert(p, s[1..]);
      InsertRanked(p, s[1..]);
      forall q | q in rest ensures InOrder(s[0], q) {
        assert q in multiset(rest);
        if q != p {
          assert q in multiset(s[1..]);
          var k :| 0 <= k < |s[1..]| && s[1..][k] == q;
          assert s[k + 1] == q;
        }
      }
      RankedCons(s[0], rest);
    }
  }

  /** A ranked list stays ranked under a head that may precede each of its entries. */
  lemma RankedCons(x: Player, rest: seq<Player>)
    requires Ranked(rest)
    requires forall q | q in rest :: InOrder(x, q)
    ensures Ranked([x] + rest)
  {
  }

  /** Leaderboard order for a list of entries (the source's `sort` with the comparator). */
  function SortForDisplay(s: seq<Player>): (r: seq<Player>)
    ensures multiset(r) == multiset(s)
    ensures |r| == |s|
  {
    if s == [] then []
    else
      assert s == [s[0]] + s[1..];
      Insert(s[0], SortForDisplay(s[1..]))
  }

  /** The display order is ranked: alive first, scores non-increasing within each group. */
  lemma {:induction false} SortForDisplayRanked(s: seq<Player>)
    ensures Ranked(SortForDisplay(s))
  {
    if s != [] {
      SortForDisplayRanked(s[1..]);
      InsertRanked(s[0], SortForDisplay(s[1..]));
    }
  }

  /** `ks` lists the keys of `m`, each once. */
  ghost predicate Enumerates(m: map<PeerId, Player>, ks: seq<PeerId>) {
    && (forall i, j | 0 <= i < j < |ks| :: ks[i] != ks[j])
    && (forall k :: k in ks <==> k in m)
  }

  /** The entries of `m` in the order of `ks`. */
  ghost function ValuesAt(m: map<PeerId, Player>, ks: seq<PeerId>): (vs: seq<Player>)
    requires forall k | k in ks :: k in m
    ensures |vs| == |ks|
  {
    seq(|ks|, i requires 0 <= i < |ks| => m[ks[i]])
  }

  /** The client's view of one peer of the dodge game. */
  class Session {
    var players: map<PeerId, Player>
    var isHost: bool
    var myId: PeerId
    var score: int
    var gameActive: bool

    /** The script's starting state. */
    constructor ()
      ensures players == map[] && !isHost && myId == [] && score == 0 && !gameActive
    {
      players := map[];
      isHost := false;
      myId := [];
      score := 0;
      gameActive := false;
    }

    /** `initHost` once its peer is open under `id`: become host and add its own record. */
    method InitHost(id: PeerId, name: string, color: string)
      modifies this
      ensures isHost && myId == id
      ensures players == old(players)[id := Joined(name, color)]
      ensures score == old(score) && gameActive == old(gameActive)
    {
      myId := id;
      isHost := true;
      players := players[id := Joined(name, color)];
    }

    /** `handleHostData`, with the rematch wrapper: a `join` (re)creates the
        sender's record, an `update` rewrites score and alive of a known record
        only, and either is followed by a snapshot to everyone; a rematch
        request only changes the host's button. */
    method HandleHostData(data: Message) returns (sent: seq<Outgoing>)
      modifies this
      ensures isHost == old(isHost) && myId == old(myId) && score == old(score) && gameActive == old(gameActive)
      ensures data.Join? ==>
        players == old(players)[data.id := Joined(data.name, data.color)]
      ensures data.Update? && data.id in old(players) ==>
        players == old(players)[data.id := old(players)[data.id].(score := data.score, alive := data.alive)]
      ensures data.Update? && data.id !in old(players) ==> players == old(players)
      ensures data.Join? || data.Update? ==> sent == [Broadcast(Snapshot(players))]
      ensures !(data.Join? || data.Update?) ==> players == old(players) && sent == []
    {
      sent := [];
      match data
      case Join(name, color, id) =>
        players := players[id := Joined(name, color)];
        sent := [Broadcast(Snapshot(players))];
      case Update(id, newScore, alive) =>
        if id in players {
          players := players[id := players[id].(score := newScore, alive := alive)];
        }
        sent := [Broadcast(Snapshot(players))];
      case _ =>
    }

    /** The host's `close` handler for the connection of peer `peer`. */
    method OnConnectionClose(peer: PeerId) returns (sent: seq<Outgoing>)
      modifies this
      ensures players == old(players) - {peer}
      ensures isHost == old(isHost) && myId == old(myId) && score == old(score) && gameActive == old(gameActive)
      ensures sent == [Broadcast(Snapshot(players))]
    {
      players := players - {peer};
      sent := [Broadcast(Snapshot(players))];
    }

    /** `sendUpdate(alive)`: the host rewrites its own record when it has one
        and sends the update and a snapshot to everyone; a client sends the
        update to the host when that connection is open. */
    method SendUpdate(alive: bool, hostOpen: bool) returns (sent: seq<Outgoing>)
      modifies this
      ensures isHost == old(isHost) && myId == old(myId) && score == old(score) && gameActive == old(gameActive)
      ensures isHost && myId in old(players) ==>
        players == old(players)[myId := old(players)[myId].(score := score, alive := alive)]
      ensures !(isHost && myId in old(players)) ==> players == old(players)
      ensures isHost ==>
        sent == [Broadcast(Update(myId, score, alive)), Broadcast(Snapshot(players))]
      ensures !isHost ==> sent == if hostOpen then [ToHost(Update(myId, score, alive))] else []
    {
      var payload := Update(myId, score, alive);
      if isHost {
        if myId in players {
          players := players[myId := players[myId].(score := score, alive := alive)];
        }
        sent := [Broadcast(payload), Broadcast(Snapshot(players))];
      } else if hostOpen {
        sent := [ToHost(payload)];
      } else {
        sent := [];
      }
    }

    /** `handleClientData`: a snapshot replaces the whole map; `start` starts a
        round; a rematch notification only changes a button. */
    method HandleClientData(data: Message)
      modifies this
      ensures isHost == old(isHost) && myId == old(myId)
      ensures data.Snapshot? ==>
        players == data.players && score == old(score) && gameActive == old(gameActive)
      ensures data.Start? ==>
        && players == ResetAll(old(players))
        && score == 0 && gameActive
      ensures !(data.Snapshot? || data.Start?) ==>
        players == old(players) && score == old(score) && gameActive == old(gameActive)
    {
      match data
      case Snapshot(snapshot) =>
        players := snapshot;
      case Start =>
        StartGame();
      case _ =>
    }

    /** `startGame`: reset the round and run. */
    method StartGame()
      modifies this
      ensures players == ResetAll(old(players))
      ensures score == 0 && gameActive
      ensures isHost == old(isHost) && myId == old(myId)
    {
      ResetGame();
      gameActive := true;
    }

    /** `resetGame`: the local score goes to 0, and every record to score 0
        and alive, with no key added or removed. */
    method ResetGame()
      modifies this
      ensures players == ResetAll(old(players))
      ensures score == 0
      ensures isHost == old(isHost) && myId == old(myId) && gameActive == old(gameActive)
    {
      score := 0;
      var pending := players.Keys;
      while pending != {}
        invariant pending <= players.Keys
        invariant players.Keys == old(players).Keys
        invariant forall k | k in players ::
          players[k] == if k in pending then old(players)[k] else Fresh(old(players)[k])
        invariant score == 0
        invariant isHost == old(isHost) && myId == old(myId) && gameActive == old(gameActive)
        decreases pending
      {
        var k :| k in pending;
        players := players[k := Fresh(players[k])];
        pending := pending - {k};
      }
      assert players == ResetAll(old(players));
    }

    /** The rematch button: the host tells everyone to start and starts; a
        client asks the host when that connection is open. */
    method RematchClick(myName: string, hostOpen: bool) returns (sent: seq<Outgoing>)
      modifies this
      ensures isHost ==>
        && sent == [Broadcast(Start)]
        && players == ResetAll(old(players))
        && score == 0 && gameActive
      ensures !isHost ==>
        && sent == (if hostOpen then [ToHost(RematchReq(myName))] else [])
        && players == old(players) && score == old(score) && gameActive == old(gameActive)
      ensures isHost == old(isHost) && myId == old(myId)
    {
      if isHost {
        sent := [Broadcast(Start)];
        StartGame();
      } else {
        sent := if hostOpen then [ToHost(RematchReq(myName))] else [];
      }
    }

    /** `renderLeaderboard`'s order: the entries of `players` (listed in the
        order of `ks`), sorted alive first and by descending score. */
    method RenderOrder() returns (sorted: seq<Player>, ghost ks: seq<PeerId>)
      ensures Enumerates(players, ks)
      ensures multiset(sorted) == multiset(ValuesAt(players, ks))
      ensures Ranked(sorted)
      ensures |sorted| == |players|
    {
      var pending := players.Keys;
      var values: seq<Player> := [];
      ks := [];
      while pending != {}
        invariant pending <= players.Keys
        invariant |ks| == |values|
        invariant forall i, j | 0 <= i < j < |ks| :: ks[i] != ks[j]
        invariant forall k :: k in ks <==> k in players && k !in pending
        invariant forall i | 0 <= i < |ks| :: values[i] == players[ks[i]]
        decreases pending
      {
        var k :| k in pending;
        values := values + [players[k]];
        ks := ks + [k];
        pending := pending - {k};
      }
      assert values == ValuesAt(players, ks);
      sorted := SortForDisplay(values);
      SortForDisplayRanked(values);
      EnumeratesSize(players, ks);
    }
  }

  lemma EnumeratesSize(m: map<PeerId, Player>, ks: seq<PeerId>)
    requires Enumerates(m, ks)
    ensures |ks| == |m|
  {
    DistinctSize(ks);
    assert (set i | 0 <= i < |ks| :: ks[i]) == m.Keys;
  }

  lemma {:induction false} DistinctSize(ks: seq<PeerId>)
    requires forall i, j | 0 <= i < j < |ks| :: ks[i] != ks[j]
    ensures |set i | 0 <= i < |ks| :: ks[i]| == |ks|
  {
    if ks != [] {
      var last := |ks| - 1;
      DistinctSize(ks[..last]);
      assert (set i | 0 <= i < |ks| :: ks[i]) == (set i | 0 <= i < last :: ks[..last][i]) + {ks[last]};
    }
  }
}
