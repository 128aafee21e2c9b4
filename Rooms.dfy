/**
  The relay server's room registry: the `rooms` map keyed by a four-digit
  code, the per-connection `roomCode`, and the create-room, join-room,
  player-ready, start-game and disconnect handlers. Each handler runs to
  completion before the next event, so each is one atomic method here.
 */
module Rooms {
  import opened Text

  /** A connection id assigned by the transport. */
  type SocketId = string

  /** One entry of `room.players`. */
  datatype Player = Player(id: SocketId, name: string, isHost: bool, ready: bool)

  /** A stored room (its `gameState` is always null and is not modelled). */
  datatype Room = Room(code: string, host: SocketId, players: seq<Player>, gameStarted: bool)

  /** What the server sends, to one socket or to everyone in a room. */
  datatype Emit =
    | RoomCreated(to: SocketId, code: string, room: Room)
    | RoomError(to: SocketId, message: string)
    | RoomUpdated(code: string, room: Room)
    | GameStarting(code: string)

  const ROOM_NOT_FOUND := "Room not found"
  const GAME_ALREADY_STARTED := "Game already started"

  /**
    `Math.floor(1000 + Math.random() * 9000).toString()`, with the random
    number `r` drawn from [0, 1) taken as a parameter.
   */
  function GenerateRoomCode(r: real): (code: string)
    requires 0.0 <= r < 1.0
    ensures |code| == 4 && AllDigits(code)
    ensures 1000 <= DigitsValue(code) <= 9999
  {
    var v := (1000.0 + r * 9000.0).Floor;
    assert Pow10(3) == 1000 && Pow10(4) == 10000;
    NatToStringLength(v, 4);
    NatToStringSpec(v);
    NatToString(v)
  }

  /** Number of entries flagged `isHost`. */
  function HostCount(ps: seq<Player>): nat {
    if ps == [] then 0 else (if ps[0].isHost then 1 else 0) + HostCount(ps[1..])
  }

  /**
    The registry invariant: a stored room has players, exactly one of them
    carries `isHost`, that one is `room.host`, and the room sits under its
    own code.
   */
  predicate WellFormed(code: string, r: Room) {
    && r.code == code
    && |r.players| > 0
    && HostCount(r.players) == 1
    && forall i | 0 <= i < |r.players| :: r.players[i].isHost ==> r.players[i].id == r.host
  }

  /** `room.players.filter(p => p.id !== id)`. */
  function Without(ps: seq<Player>, id: SocketId): (r: seq<Player>)
    ensures |r| <= |ps|
    ensures forall p :: p in r <==> p in ps && p.id != id
    ensures r != [] ==> exists k | 0 <= k < |ps| :: r[0] == ps[k] && ps[k].id != id && forall m | 0 <= m < k :: ps[m].id == id
  {
    if ps == [] then []
    else if ps[0].id == id then
      var r := Without(ps[1..], id);
      assert r != [] ==> exists k | 0 <= k < |ps| :: r[0] == ps[k] && ps[k].id != id && forall m | 0 <= m < k :: ps[m].id == id by {
        if r != [] {
          var k :| 0 <= k < |ps[1..]| && r[0] == ps[1..][k] && ps[1..][k].id != id && forall m | 0 <= m < k :: ps[1..][m].id == id;
          assert r[0] == ps[k + 1];
          assert forall m | 0 <= m < k + 1 :: ps[m].id == id by {
            forall m | 0 <= m < k + 1 ensures ps[m].id == id {
              if m > 0 { assert ps[m] == ps[1..][m - 1]; }
            }
          }
        }
      }
      r
    else
      [ps[0]] + Without(ps[1..], id)
  }

  /**
    Filtering distributes over a split of the list, so the remaining entries
    keep their relative order.
   */
  lemma {:induction false} WithoutAppend(a: seq<Player>, b: seq<Player>, id: SocketId)
    ensures Without(a + b, id) == Without(a, id) + Without(b, id)
    decreases |a|
  {
    if a != [] {
      assert (a + b)[0] == a[0] && (a + b)[1..] == a[1..] + b;
      WithoutAppend(a[1..], b, id);
    } else {
      assert a + b == b;
    }
  }

  /** `room.players.find(p => p.id === id)`, as the index of the first match. */
  function FindPlayer(ps: seq<Player>, id: SocketId): (k: Option<nat>)
    ensures k.Some? ==> k.value < |ps| && ps[k.value].id == id
    ensures k.Some? ==> forall j | 0 <= j < k.value :: ps[j].id != id
    ensures k.None? <==> forall j | 0 <= j < |ps| :: ps[j].id != id
  {
    if ps == [] then None
    else if ps[0].id == id then Some(0)
    else match FindPlayer(ps[1..], id)
      case None => None
      case Some(k) => Some(k + 1)
  }

  /** The room the create-room handler stores. */
  function NewRoom(code: string, creator: SocketId, name: string): Room {
    Room(code, creator, [Player(creator, name, true, false)], false)
  }

  /** The room after a successful join: the newcomer appended as a non-host. */
  function JoinedRoom(r: Room, id: SocketId, name: string): Room {
    r.(players := r.players + [Player(id, name, false, false)])
  }

  /** The room after player-ready from `id`; None when `id` has no entry. */
  function MarkReady(r: Room, id: SocketId): Option<Room> {
    match FindPlayer(r.players, id)
    case None => None
    case Some(k) => Some(r.(players := r.players[k := r.players[k].(ready := true)]))
  }

  /** The room after `id` disconnects; None when the room is deleted. */
  function DisconnectRoom(r: Room, id: SocketId): Option<Room> {
    var rest := Without(r.players, id);
    if r.host == id then
      if |rest| > 0 then Some(r.(host := rest[0].id, players := rest[0 := rest[0].(isHost := true)]))
      else None
    else Some(r.(players := rest))
  }

  lemma {:induction false} HostCountAppend(ps: seq<Player>, p: Player)
    ensures HostCount(ps + [p]) == HostCount(ps) + (if p.isHost then 1 else 0)
  {
    if ps != [] {
      assert (ps + [p])[1..] == ps[1..] + [p];
      HostCountAppend(ps[1..], p);
    }
  }

  /** Removing entries that are not hosts keeps the host count. */
  lemma {:induction false} HostCountWithoutOther(ps: seq<Player>, id: SocketId)
    requires forall i | 0 <= i < |ps| :: ps[i].isHost ==> ps[i].id != id
    ensures HostCount(Without(ps, id)) == HostCount(ps)
  {
    if ps != [] {
      HostCountWithoutOther(ps[1..], id);
      if ps[0].id != id {
        assert ([ps[0]] + Without(ps[1..], id))[1..] == Without(ps[1..], id);
      }
    }
  }

  /** Removing every host entry leaves none. */
  lemma {:induction false} HostCountWithoutHost(ps: seq<Player>, id: SocketId)
    requires forall i | 0 <= i < |ps| :: ps[i].isHost ==> ps[i].id == id
    ensures HostCount(Without(ps, id)) == 0
  {
    if ps != [] {
      HostCountWithoutHost(ps[1..], id);
      if ps[0].id != id {
        assert ([ps[0]] + Without(ps[1..], id))[1..] == Without(ps[1..], id);
      }
    }
  }

  /** Changing one entry but not its `isHost` flag keeps the host count. */
  lemma {:induction false} HostCountUpdate(ps: seq<Player>, k: nat, p: Player)
    requires k < |ps| && p.isHost == ps[k].isHost
    ensures HostCount(ps[k := p]) == HostCount(ps)
  {
    if k > 0 {
      assert ps[k := p][1..] == ps[1..][k - 1 := p];
      HostCountUpdate(ps[1..], k - 1, p);
    }
  }

  /** Every entry with no host flag counts zero. */
  lemma {:induction false} HostCountZero(ps: seq<Player>)
    requires HostCount(ps) == 0
    ensures forall i | 0 <= i < |ps| :: !ps[i].isHost
  {
    if ps != [] {
      HostCountZero(ps[1..]);
      assert forall i | 1 <= i < |ps| :: ps[i] == ps[1..][i - 1];
    }
  }

  /** The room create-room stores satisfies the registry invariant. */
  lemma NewRoomWellFormed(code: string, creator: SocketId, name: string)
    ensures WellFormed(code, NewRoom(code, creator, name))
    ensures NewRoom(code, creator, name).players[0].id == creator
  {
    assert [Player(creator, name, true, false)][1..] == [];
  }

  /**
    A join appends exactly one non-host, not-ready entry at the end, keeps
    every earlier entry and `room.host`, and keeps the invariant. It does
    not look for the joiner among the existing entries.
   */
  lemma JoinKeepsInvariant(code: string, r: Room, id: SocketId, name: string)
    requires WellFormed(code, r)
    ensures var r' := JoinedRoom(r, id, name);
      && WellFormed(code, r')
      && |r'.players| == |r.players| + 1
      && r'.players[..|r.players|] == r.players
      && r'.players[|r.players|] == Player(id, name, false, false)
      && r'.host == r.host && r'.gameStarted == r.gameStarted
  {
    HostCountAppend(r.players, Player(id, name, false, false));
  }

  /**
    player-ready sets `ready` on the caller's first entry only and is a
    no-op when the caller has no entry; the invariant is kept.
   */
  lemma ReadyKeepsInvariant(code: string, r: Room, id: SocketId)
    requires WellFormed(code, r)
    ensures MarkReady(r, id).None? <==> forall j | 0 <= j < |r.players| :: r.players[j].id != id
    ensures MarkReady(r, id).Some? ==>
      var r' := MarkReady(r, id).value;
      && WellFormed(code, r')
      && r'.host == r.host && r'.gameStarted == r.gameStarted
      && |r'.players| == |r.players|
      && exists k | 0 <= k < |r.players| ::
           && r.players[k].id == id
           && r'.players[k] == r.players[k].(ready := true)
           && (forall j | 0 <= j < |r.players| && j != k :: r'.players[j] == r.players[j])
  {
    match FindPlayer(r.players, id)
    case None =>
    case Some(k) =>
      HostCountUpdate(r.players, k, r.players[k].(ready := true));
  }

  /**
    The disconnect handler keeps "exactly one isHost entry, and it is
    `room.host`": when the host leaves and others remain, the earliest
    remaining entry becomes host in both places; when the host leaves alone
    the room is deleted; any other departure keeps the host. Every entry of
    the departing socket is gone from the room.
   */
  /** Promoting the first entry of a list with no host makes it the only host. */
  lemma PromoteFirst(rest: seq<Player>)
    requires rest != [] && HostCount(rest) == 0
    ensures var q := rest[0 := rest[0].(isHost := true)];
      && HostCount(q) == 1
      && forall i | 0 <= i < |q| && q[i].isHost :: q[i].id == rest[0].id
  {
    HostCountZero(rest);
    var q := rest[0 := rest[0].(isHost := true)];
    assert q[1..] == rest[1..];
    assert HostCount(rest) == HostCount(rest[1..]);
    forall i | 0 <= i < |q| && q[i].isHost
      ensures q[i].id == rest[0].id
    {
      if i != 0 {
        assert false;
      }
    }
  }

  lemma DisconnectKeepsInvariant(code: string, r: Room, id: SocketId)
    requires WellFormed(code, r)
    ensures DisconnectRoom(r, id).None? <==> r.host == id && forall j | 0 <= j < |r.players| :: r.players[j].id == id
    ensures DisconnectRoom(r, id).Some? ==>
      var r' := DisconnectRoom(r, id).value;
      && WellFormed(code, r')
      && r'.gameStarted == r.gameStarted
      && (forall p :: p in r'.players ==> p.id != id)
      && (r.host != id ==> r'.host == r.host && r'.players == Without(r.players, id))
      && (r.host == id ==> r'.host == Without(r.players, id)[0].id)
  {
    var rest := Without(r.players, id);
    if r.host == id {
      HostCountWithoutHost(r.players, id);
      if |rest| > 0 {
        PromoteFirst(rest);
        var q := rest[0 := rest[0].(isHost := true)];
        forall p | p in q
          ensures p.id != id
        {
          var i :| 0 <= i < |q| && q[i] == p;
          if i > 0 { assert q[i] in rest; }
          else { assert rest[0] in rest; }
        }
      } else {
        forall j | 0 <= j < |r.players|
          ensures r.players[j].id == id
        {
          assert r.players[j] in r.players;
        }
      }
    } else {
      HostCountWithoutOther(r.players, id);
      var h :| 0 <= h < |r.players| && r.players[h].isHost by {
        if forall i | 0 <= i < |r.players| :: !r.players[i].isHost {
          HostCountNone(r.players);
        }
      }
      assert r.players[h] in rest;
      forall i | 0 <= i < |rest| && rest[i].isHost
        ensures rest[i].id == r.host
      {
        assert rest[i] in r.players;
      }
    }
  }

  lemma {:induction false} HostCountNone(ps: seq<Player>)
    requires forall i | 0 <= i < |ps| :: !ps[i].isHost
    ensures HostCount(ps) == 0
  {
    if ps != [] {
      HostCountNone(ps[1..]);
    }
  }

  /** A game that had started is still started in every room that remains. */
  ghost predicate StartedKept(before: map<string, Room>, after: map<string, Room>) {
    forall code | code in before && code in after && before[code].gameStarted :: after[code].gameStarted
  }

  /** The server: all live rooms, and the room code each socket last stored. */
  class Server {
    var rooms: map<string, Room>
    var roomOf: map<SocketId, string>
    var sent: seq<Emit>

    ghost predicate Valid()
      reads this`rooms
    {
      forall code | code in rooms :: WellFormed(code, rooms[code])
    }

    constructor ()
      ensures Valid()
      ensures rooms == map[] && roomOf == map[] && sent == []
    {
      rooms := map[];
      roomOf := map[];
      sent := [];
    }

    /**
      create-room: stores a fresh room under a random code, replacing any
      room already stored under that code (there is no retry), and
      remembers the code on the creator's connection.
     */
    method CreateRoom(sock: SocketId, playerName: string, r: real) returns (code: string)
      requires Valid() && 0.0 <= r < 1.0
      modifies this
      ensures Valid()
      ensures code !in old(rooms) ==> StartedKept(old(rooms), rooms)
      ensures code == GenerateRoomCode(r)
      ensures rooms == old(rooms)[code := NewRoom(code, sock, playerName)]
      ensures roomOf == old(roomOf)[sock := code]
      ensures sent == old(sent) + [RoomCreated(sock, code, NewRoom(code, sock, playerName))]
    {
      code := GenerateRoomCode(r);
      var room := NewRoom(code, sock, playerName);
      NewRoomWellFormed(code, sock, playerName);
      rooms := rooms[code := room];
      roomOf := roomOf[sock := code];
      sent := sent + [RoomCreated(sock, code, room)];
    }

    /** join-room: an unknown code or a started game is answered with an error and changes nothing. */
    method JoinRoom(sock: SocketId, code: string, playerName: string)
      requires Valid()
      modifies this
      ensures Valid()
      ensures StartedKept(old(rooms), rooms)
      ensures code !in old(rooms) ==>
        && rooms == old(rooms) && roomOf == old(roomOf)
        && sent == old(sent) + [RoomError(sock, ROOM_NOT_FOUND)]
      ensures code in old(rooms) && old(rooms)[code].gameStarted ==>
        && rooms == old(rooms) && roomOf == old(roomOf)
        && sent == old(sent) + [RoomError(sock, GAME_ALREADY_STARTED)]
      ensures code in old(rooms) && !old(rooms)[code].gameStarted ==>
        && rooms == old(rooms)[code := JoinedRoom(old(rooms)[code], sock, playerName)]
        && roomOf == old(roomOf)[sock := code]
        && sent == old(sent) + [RoomUpdated(code, rooms[code])]
    {
      if code !in rooms {
        sent := sent + [RoomError(sock, ROOM_NOT_FOUND)];
        return;
      }
      var room := rooms[code];
      if room.gameStarted {
        sent := sent + [RoomError(sock, GAME_ALREADY_STARTED)];
        return;
      }
      JoinKeepsInvariant(code, room, sock, playerName);
      room := JoinedRoom(room, sock, playerName);
      rooms := rooms[code := room];
      roomOf := roomOf[sock := code];
      sent := sent + [RoomUpdated(code, room)];
    }

    /** player-ready: marks the caller's entry; nothing happens without a room or an entry. */
    method PlayerReady(sock: SocketId)
      requires Valid()
      modifies this`rooms, this`sent
      ensures Valid()
      ensures StartedKept(old(rooms), rooms)
      ensures sock in roomOf && roomOf[sock] in old(rooms) && MarkReady(old(rooms)[roomOf[sock]], sock).Some? ==>
        var code := roomOf[sock];
        && rooms == old(rooms)[code := MarkReady(old(rooms)[code], sock).value]
        && sent == old(sent) + [RoomUpdated(code, rooms[code])]
      ensures !(sock in roomOf && roomOf[sock] in old(rooms) && MarkReady(old(rooms)[roomOf[sock]], sock).Some?) ==>
        rooms == old(rooms) && sent == old(sent)
    {
      if sock in roomOf && roomOf[sock] in rooms {
        var code := roomOf[sock];
        ReadyKeepsInvariant(code, rooms[code], sock);
        match MarkReady(rooms[code], sock)
        case None =>
        case Some(room) =>
          rooms := rooms[code := room];
          sent := sent + [RoomUpdated(code, room)];
      }
    }

    /** start-game: only the room's current host can start it; nothing else changes. */
    method StartGame(sock: SocketId)
      requires Valid()
      modifies this`rooms, this`sent
      ensures Valid()
      ensures StartedKept(old(rooms), rooms)
      ensures sock in roomOf && roomOf[sock] in old(rooms) && old(rooms)[roomOf[sock]].host == sock ==>
        var code := roomOf[sock];
        && rooms == old(rooms)[code := old(rooms)[code].(gameStarted := true)]
        && sent == old(sent) + [GameStarting(code)]
      ensures !(sock in roomOf && roomOf[sock] in old(rooms) && old(rooms)[roomOf[sock]].host == sock) ==>
        rooms == old(rooms) && sent == old(sent)
    {
      if sock in roomOf && roomOf[sock] in rooms && rooms[roomOf[sock]].host == sock {
        var code := roomOf[sock];
        rooms := rooms[code := rooms[code].(gameStarted := true)];
        sent := sent + [GameStarting(code)];
      }
    }

    /**
      disconnect: removes the caller's entries from the room its connection
      points at, hands the host role to the earliest remaining entry, and
      deletes the room when its host leaves it empty.
     */
    method Disconnect(sock: SocketId)
      requires Valid()
      modifies this`rooms, this`sent
      ensures Valid()
      ensures StartedKept(old(rooms), rooms)
      ensures sock in roomOf && roomOf[sock] in old(rooms) ==>
        var code := roomOf[sock];
        match DisconnectRoom(old(rooms)[code], sock)
        case None => rooms == old(rooms) - {code} && sent == old(sent)
        case Some(room) => rooms == old(rooms)[code := room] && sent == old(sent) + [RoomUpdated(code, room)]
      ensures !(sock in roomOf && roomOf[sock] in old(rooms)) ==> rooms == old(rooms) && sent == old(sent)
    {
      if sock in roomOf && roomOf[sock] in rooms {
        var code := roomOf[sock];
        DisconnectKeepsInvariant(code, rooms[code], sock);
        match DisconnectRoom(rooms[code], sock)
        case None =>
          rooms := rooms - {code};
        case Some(room) =>
          rooms := rooms[code := room];
          sent := sent + [RoomUpdated(code, room)];
      }
    }
  }
}
