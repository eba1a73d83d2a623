/** Rooms and their lobbies: creating a room, members joining and leaving
    with the host handed on, the role and ready toggles, the start check,
    and a room's game running tick by tick until it ends.

    A room's members are keyed by their connection, in joining order (the
    order of a JavaScript `Map`). Room codes are random in the source and
    come in as parameters here. */
module Lobby {
  import opened Common
  import opened Roles
  import opened MissionState
  import opened Encounter
  import opened EncounterRules

  const MinPlayers: nat := 1

  /** A client connection. */
  type Conn = nat

  datatype Member = Member(id: nat, conn: Conn, name: string, role: Option<Role>, ready: bool)

  datatype Room = Room(code: string, members: seq<Member>, game: Option<GameState>, host: Option<Conn>)

  /** All rooms by code, and the player id counter shared by all rooms. */
  datatype Server = Server(rooms: map<string, Room>, nextPlayerId: nat)

  // ----- Text -----

  /** The decimal digits of n, most significant first. */
  function Decimal(n: nat): (s: string)
    ensures |s| > 0 && forall k :: 0 <= k < |s| ==> '0' <= s[k] <= '9'
    decreases n
  {
    var last := [('0' as int + n % 10) as char];
    if n < 10 then last else Decimal(n / 10) + last
  }

  /** The number a string of decimal digits spells. */
  function DecimalValue(s: string): nat
    decreases |s|
  {
    if |s| == 0 then 0
    else
      var d := s[|s| - 1] as int - '0' as int;
      DecimalValue(s[..|s| - 1]) * 10 + (if 0 <= d then d else 0)
  }

  /** Reading back the digits of n gives n. */
  lemma {:induction false} DecimalRoundTrip(n: nat)
    ensures DecimalValue(Decimal(n)) == n
    decreases n
  {
    var s := Decimal(n);
    if n >= 10 {
      DecimalRoundTrip(n / 10);
      assert s[..|s| - 1] == Decimal(n / 10);
    }
  }

  /** `name || "Player " + id`: a missing or empty name falls back to the
      player's number. */
  function DisplayName(name: Option<string>, id: nat): (s: string)
    ensures name.Some? && name.value != "" ==> s == name.value
    ensures s != ""
  {
    if name.Some? && name.value != "" then name.value else "Player " + Decimal(id)
  }

  /** The upper-case form of a room code, for the letters a to z. */
  function AsciiUpper(s: string): (u: string)
    ensures |u| == |s|
    ensures forall k :: 0 <= k < |s| ==> !('a' <= u[k] <= 'z')
    ensures forall k :: 0 <= k < |s| && !('a' <= s[k] <= 'z') ==> u[k] == s[k]
  {
    seq(|s|, k requires 0 <= k < |s| =>
      if 'a' <= s[k] <= 'z' then (s[k] as int - 'a' as int + 'A' as int) as char else s[k])
  }

  /** Upper-casing twice is upper-casing once. */
  lemma AsciiUpperIdempotent(s: string)
    ensures AsciiUpper(AsciiUpper(s)) == AsciiUpper(s)
  {
  }

  // ----- The member map -----

  /** Where connection c sits in the member list, if anywhere. */
  function IndexOf(ms: seq<Member>, c: Conn): (r: Option<nat>)
    ensures r.Some? ==> r.value < |ms| && ms[r.value].conn == c
    ensures r.Some? ==> forall k :: 0 <= k < r.value ==> ms[k].conn != c
    ensures r.None? <==> forall k :: 0 <= k < |ms| ==> ms[k].conn != c
    decreases |ms|
  {
    if |ms| == 0 then None
    else if ms[0].conn == c then Some(0)
    else match IndexOf(ms[1..], c)
      case None => None
      case Some(k) => Some(k + 1)
  }

  predicate ConnsDistinct(ms: seq<Member>)
  {
    forall j, k :: 0 <= j < k < |ms| ==> ms[j].conn != ms[k].conn
  }

  /** `Map.set`: a connection already present keeps its place and gets the
      new entry; a new connection goes last. */
  function Put(ms: seq<Member>, m: Member): (r: seq<Member>)
    ensures IndexOf(ms, m.conn).Some? ==> r == ms[IndexOf(ms, m.conn).value := m]
    ensures IndexOf(ms, m.conn).None? ==> r == ms + [m]
    ensures ConnsDistinct(ms) ==> ConnsDistinct(r)
  {
    match IndexOf(ms, m.conn)
    case Some(i) => ms[i := m]
    case None => ms + [m]
  }

  /** `Map.delete`: every entry of connection c goes, the rest keep their
      order. */
  function Delete(ms: seq<Member>, c: Conn): (r: seq<Member>)
    ensures forall k :: 0 <= k < |r| ==> r[k].conn != c
    ensures |r| <= |ms|
    decreases |ms|
  {
    if |ms| == 0 then []
    else if ms[0].conn == c then Delete(ms[1..], c)
    else [ms[0]] + Delete(ms[1..], c)
  }

  /** Deleting a connection that is not there changes nothing. */
  lemma {:induction false} DeleteAbsent(ms: seq<Member>, c: Conn)
    requires forall k :: 0 <= k < |ms| ==> ms[k].conn != c
    ensures Delete(ms, c) == ms
    decreases |ms|
  {
    if |ms| > 0 {
      DeleteAbsent(ms[1..], c);
      assert [ms[0]] + ms[1..] == ms;
    }
  }

  lemma TailConnsDistinct(ms: seq<Member>)
    requires |ms| > 0 && ConnsDistinct(ms)
    ensures ConnsDistinct(ms[1..])
    ensures forall k :: 0 <= k < |ms[1..]| ==> ms[1..][k].conn != ms[0].conn
  {
    forall j, k | 0 <= j < k < |ms[1..]|
      ensures ms[1..][j].conn != ms[1..][k].conn
    {
      assert ms[1..][j] == ms[j + 1] && ms[1..][k] == ms[k + 1];
    }
    forall k | 0 <= k < |ms[1..]|
      ensures ms[1..][k].conn != ms[0].conn
    {
      assert ms[1..][k] == ms[k + 1];
    }
  }

  /** With distinct connections, deleting the member at i removes exactly
      that entry and leaves the others in order. */
  lemma {:induction false} DeleteAt(ms: seq<Member>, c: Conn, i: nat)
    requires ConnsDistinct(ms) && i < |ms| && ms[i].conn == c
    ensures Delete(ms, c) == ms[..i] + ms[i + 1..]
    decreases |ms|
  {
    TailConnsDistinct(ms);
    if i == 0 {
      DeleteAbsent(ms[1..], c);
    } else {
      DeleteAt(ms[1..], c, i - 1);
      assert [ms[0]] + (ms[1..][..i - 1] + ms[1..][i..]) == ms[..i] + ms[i + 1..];
    }
  }

  // ----- Rooms -----

  /** `createRoom`: an empty room under the given code, replacing any room
      that had it. */
  function CreateRoom(s: Server, code: string): (s': Server)
    ensures code in s'.rooms && s'.rooms[code] == Room(code, [], None, None)
    ensures forall c :: c in s.rooms && c != code ==> c in s'.rooms && s'.rooms[c] == s.rooms[c]
    ensures s'.rooms.Keys == s.rooms.Keys + {code} && s'.nextPlayerId == s.nextPlayerId
  {
    s.(rooms := s.rooms[code := Room(code, [], None, None)])
  }

  /** `addPlayerToRoom`: a member with the next player id and no role, not
      ready; the first member of a room without a host becomes its host. */
  function AddPlayer(s: Server, code: string, conn: Conn, name: Option<string>): (r: (Server, nat))
    requires code in s.rooms
    ensures r.1 == s.nextPlayerId && r.0.nextPlayerId == s.nextPlayerId + 1
    ensures code in r.0.rooms
    ensures r.0.rooms == s.rooms[code := r.0.rooms[code]]
    ensures var before := s.rooms[code]; var after := r.0.rooms[code];
      && after == before.(members := after.members, host := after.host)
      && after.members == Put(before.members, Member(r.1, conn, DisplayName(name, r.1), None, false))
      && after.host == (if before.host.None? then Some(conn) else before.host)
  {
    var id := s.nextPlayerId;
    var room := s.rooms[code];
    var room' := room.(members := Put(room.members, Member(id, conn, DisplayName(name, id), None, false)),
                       host := if room.host.None? then Some(conn) else room.host);
    (s.(rooms := s.rooms[code := room'], nextPlayerId := id + 1), id)
  }

  /** `removePlayerFromRoom`: the member leaves; a leaving host hands the
      room to the first remaining member, and a room left empty is
      removed. */
  function RemovePlayer(s: Server, code: string, conn: Conn): (s': Server)
    requires code in s.rooms
    ensures s'.nextPlayerId == s.nextPlayerId
    ensures forall c :: c != code ==> (c in s'.rooms <==> c in s.rooms)
    ensures forall c :: c in s.rooms && c != code ==> s'.rooms[c] == s.rooms[c]
    ensures var left := Delete(s.rooms[code].members, conn);
      && (|left| == 0 <==> code !in s'.rooms)
      && (|left| > 0 ==> s'.rooms[code] == s.rooms[code].(members := left, host := s'.rooms[code].host))
      && (|left| > 0 && s.rooms[code].host == Some(conn) ==> s'.rooms[code].host == Some(left[0].conn))
      && (|left| > 0 && s.rooms[code].host != Some(conn) ==> s'.rooms[code].host == s.rooms[code].host)
  {
    var room := s.rooms[code];
    var left := Delete(room.members, conn);
    if |left| == 0 then s.(rooms := s.rooms - {code})
    else
      var host := if room.host == Some(conn) then Some(left[0].conn) else room.host;
      s.(rooms := s.rooms[code := room.(members := left, host := host)])
  }

  // ----- The start check -----

  /** No role is held by two members among the first n. */
  predicate RolesDistinctUpTo(ms: seq<Member>, n: nat)
    requires n <= |ms|
  {
    forall j, k :: 0 <= j < k < n && ms[j].role.Some? ==> ms[j].role != ms[k].role
  }

  predicate RolesDistinct(ms: seq<Member>)
  {
    RolesDistinctUpTo(ms, |ms|)
  }

  /** Every one of the first n members has a role and, unless they host,
      is ready. */
  predicate ReadyUpTo(r: Room, n: nat)
    requires n <= |r.members|
  {
    forall j :: 0 <= j < n ==>
      r.members[j].role.Some? && (Some(r.members[j].conn) == r.host || r.members[j].ready)
  }

  /** When a room may start: enough members, every member with a role, no
      role twice, and everyone but the host ready. */
  predicate StartAllowed(r: Room)
  {
    |r.members| >= MinPlayers && ReadyUpTo(r, |r.members|) && RolesDistinct(r.members)
  }

  function RolesAmong(ms: seq<Member>, n: nat): set<Role>
    requires n <= |ms|
  {
    set j | 0 <= j < n && ms[j].role.Some? :: ms[j].role.value
  }

  /** `canStartGame`: one pass over the members in order, giving up at the
      first role seen twice. */
  method CanStartGame(r: Room) returns (ok: bool)
    ensures ok <==> StartAllowed(r)
  {
    if |r.members| < MinPlayers {
      return false;
    }
    var ms := r.members;
    var allReady := true;
    var used: set<Role> := {};
    var i := 0;
    while i < |ms|
      invariant 0 <= i <= |ms|
      invariant used == RolesAmong(ms, i)
      invariant RolesDistinctUpTo(ms, i)
      invariant allReady <==> ReadyUpTo(r, i)
    {
      var p := ms[i];
      if p.role.None? {
        allReady := false;
      }
      if Some(p.conn) != r.host && !p.ready {
        allReady := false;
      }
      if p.role.Some? {
        if p.role.value in used {
          var j :| 0 <= j < i && ms[j].role.Some? && ms[j].role.value == p.role.value;
          assert !RolesDistinctUpTo(ms, |ms|);
          return false;
        }
        used := used + {p.role.value};
      }
      assert RolesAmong(ms, i + 1) == RolesAmong(ms, i) + (if p.role.Some? then {p.role.value} else {});
      i := i + 1;
    }
    return allReady;
  }

  // ----- Messages -----

  datatype Refusal = RoomNotFound | RoomFull | GameInProgress | RoleTaken

  /** What a message did: took effect, was refused with an error to the
      sender, or was dropped without a word. */
  datatype Reply = Done | Refused(why: Refusal) | Dropped

  /** `createRoom`: a fresh room under the drawn code, with the sender as
      its first member and host. */
  function HandleCreateRoom(s: Server, conn: Conn, code: string, name: Option<string>): (r: (Server, nat))
    ensures code in r.0.rooms && r.0.rooms[code].host == Some(conn)
    ensures r.0.rooms[code].members == [Member(r.1, conn, DisplayName(name, r.1), None, false)]
    ensures r.0.rooms[code].game.None?
  {
    AddPlayer(CreateRoom(s, code), code, conn, name)
  }

  /** `joinRoom`: the code is upper-cased; a missing room, a full one (four
      members) or one whose game is running refuses the join. */
  function HandleJoin(s: Server, conn: Conn, requested: string, name: Option<string>): (r: (Server, Reply))
    ensures var code := AsciiUpper(requested);
      && (code !in s.rooms ==> r == (s, Refused(RoomNotFound)))
      && (code in s.rooms && |s.rooms[code].members| >= MaxPlayers ==> r == (s, Refused(RoomFull)))
      && (code in s.rooms && |s.rooms[code].members| < MaxPlayers && s.rooms[code].game.Some? ==>
            r == (s, Refused(GameInProgress)))
      && (r.1 == Done <==> code in s.rooms && |s.rooms[code].members| < MaxPlayers && s.rooms[code].game.None?)
      && (r.1 == Done ==> r.0 == AddPlayer(s, code, conn, name).0)
  {
    var code := AsciiUpper(requested);
    if code !in s.rooms then (s, Refused(RoomNotFound))
    else if |s.rooms[code].members| >= MaxPlayers then (s, Refused(RoomFull))
    else if s.rooms[code].game.Some? then (s, Refused(GameInProgress))
    else (AddPlayer(s, code, conn, name).0, Done)
  }

  /** `selectRole`: only a member of a room without a running game may
      pick; a role another member holds is refused; otherwise the role is
      set and the member is no longer ready. */
  function HandleSelectRole(s: Server, code: string, conn: Conn, role: Option<Role>): (r: (Server, Reply))
    ensures r.1 != Done ==> r.0 == s
    ensures r.1 == Refused(RoleTaken) <==>
      code in s.rooms && IndexOf(s.rooms[code].members, conn).Some? && s.rooms[code].game.None?
      && exists k :: 0 <= k < |s.rooms[code].members| && k != IndexOf(s.rooms[code].members, conn).value
                     && s.rooms[code].members[k].role == role
    ensures r.1 == Done ==> code in s.rooms && IndexOf(s.rooms[code].members, conn).Some?
    ensures r.1 == Done ==>
      var ms := s.rooms[code].members; var i := IndexOf(ms, conn).value;
      r.0 == s.(rooms := s.rooms[code := s.rooms[code].(members := ms[i := ms[i].(role := role, ready := false)])])
      && forall k :: 0 <= k < |ms| && k != i ==> ms[k].role != role
  {
    if code !in s.rooms then (s, Dropped)
    else
      var room := s.rooms[code];
      match IndexOf(room.members, conn)
      case None => (s, Dropped)
      case Some(i) =>
        if room.game.Some? then (s, Dropped)
        else if exists k :: 0 <= k < |room.members| && k != i && room.members[k].role == role then
          (s, Refused(RoleTaken))
        else
          var ms := room.members[i := room.members[i].(role := role, ready := false)];
          (s.(rooms := s.rooms[code := room.(members := ms)]), Done)
  }

  /** `ready`: a member with a role in a room without a running game flips
      their ready flag; anything else is dropped. */
  function HandleReady(s: Server, code: string, conn: Conn): (r: (Server, Reply))
    ensures r.1 != Refused(RoleTaken) && r.1 != Refused(RoomFull)
    ensures r.1 == Done <==>
      code in s.rooms && IndexOf(s.rooms[code].members, conn).Some?
      && s.rooms[code].members[IndexOf(s.rooms[code].members, conn).value].role.Some?
      && s.rooms[code].game.None?
    ensures r.1 != Done ==> r.0 == s
    ensures r.1 == Done ==>
      var ms := s.rooms[code].members; var i := IndexOf(ms, conn).value;
      r.0 == s.(rooms := s.rooms[code := s.rooms[code].(members := ms[i := ms[i].(ready := !ms[i].ready)])])
  {
    if code !in s.rooms then (s, Dropped)
    else
      var room := s.rooms[code];
      match IndexOf(room.members, conn)
      case None => (s, Dropped)
      case Some(i) =>
        if room.members[i].role.None? || room.game.Some? then (s, Dropped)
        else
          var ms := room.members[i := room.members[i].(ready := !room.members[i].ready)];
          (s.(rooms := s.rooms[code := room.(members := ms)]), Done)
  }

  /** The game's roster: every member with the role they picked. */
  function Roster(ms: seq<Member>): (rs: seq<Recruit>)
    requires forall j :: 0 <= j < |ms| ==> ms[j].role.Some?
    ensures |rs| == |ms|
    ensures forall j :: 0 <= j < |ms| ==>
      rs[j] == Recruit(ms[j].id, ms[j].name, ms[j].role.value)
  {
    seq(|ms|, j requires 0 <= j < |ms| => Recruit(ms[j].id, ms[j].name, ms[j].role.value))
  }

  /** `startGame`: only the host may start, and only when the room may
      start; the game then begins from the members' roster. The source does
      not check for a game already running, and neither does this. */
  function HandleStart(s: Server, code: string, conn: Conn, nextEnemyId: nat): (r: (Server, Reply))
    ensures r.1 == Done <==> code in s.rooms && s.rooms[code].host == Some(conn) && StartAllowed(s.rooms[code])
    ensures r.1 != Done ==> r.0 == s
    ensures r.1 == Done ==>
      var room := s.rooms[code];
      r.0 == s.(rooms := s.rooms[code := room.(game := Some(CreateGameState(Roster(room.members), nextEnemyId)))])
  {
    if code !in s.rooms then (s, Dropped)
    else
      var room := s.rooms[code];
      if room.host != Some(conn) || !StartAllowed(room) then (s, Dropped)
      else
        var g := CreateGameState(Roster(room.members), nextEnemyId);
        (s.(rooms := s.rooms[code := room.(game := Some(g))]), Done)
  }

  /** A closed connection leaves its room. */
  function HandleClose(s: Server, code: string, conn: Conn): (s': Server)
    ensures code !in s.rooms ==> s' == s
    ensures code in s.rooms ==> s' == RemovePlayer(s, code, conn)
  {
    if code in s.rooms then RemovePlayer(s, code, conn) else s
  }

  /** One scheduled tick of a room's game: the game is dropped from the room
      as soon as it ends, which also stops its ticks. */
  function TickRoom(s: Server, code: string, stages: Stages, d: TickDraws): (r: (Server, Option<bool>))
    requires StagesKeep(stages)
    requires code in s.rooms && s.rooms[code].game.Some?
    requires var g := s.rooms[code].game.value; g.world.boss.Some? ==> g.world.boss.value.maxHp > 0.0
    ensures var t := GameTick(s.rooms[code].game.value, stages, d);
      && r.1 == t.outcome
      && r.0.rooms == s.rooms[code := s.rooms[code].(game := if t.outcome.Some? then None else Some(t.game))]
  {
    var room := s.rooms[code];
    var t := GameTick(room.game.value, stages, d);
    var game := if t.outcome.Some? then None else Some(t.game);
    (s.(rooms := s.rooms[code := room.(game := game)]), t.outcome)
  }

  // ----- The server invariant -----

  /** A room as the handlers leave it: filed under its own code, one to four
      members with distinct connections and distinct roles, hosted by one of
      them, and any running game valid. */
  predicate RoomValid(code: string, r: Room)
  {
    && r.code == code
    && 0 < |r.members| <= MaxPlayers
    && ConnsDistinct(r.members)
    && RolesDistinct(r.members)
    && r.host.Some? && IndexOf(r.members, r.host.value).Some?
    && (r.game.Some? ==> Valid(r.game.value))
  }

  predicate ServerValid(s: Server)
  {
    forall code :: code in s.rooms ==> RoomValid(code, s.rooms[code])
  }

  lemma CreateRoomKeepsValid(s: Server, conn: Conn, code: string, name: Option<string>)
    requires ServerValid(s)
    ensures ServerValid(HandleCreateRoom(s, conn, code, name).0)
  {
    var s' := HandleCreateRoom(s, conn, code, name).0;
    assert RoomValid(code, s'.rooms[code]) by {
      assert IndexOf(s'.rooms[code].members, conn) == Some(0);
    }
  }

  /** A new member comes without a role, so roles stay distinct; the room
      keeps its host, or gets the newcomer as host. */
  lemma PutNewcomerKeepsRoom(code: string, room: Room, m: Member)
    requires RoomValid(code, room) && m.role.None? && |Put(room.members, m)| <= MaxPlayers
    ensures RoomValid(code, room.(members := Put(room.members, m)))
  {
    var ms := Put(room.members, m);
    match IndexOf(room.members, m.conn)
    case Some(i) =>
      assert RolesDistinct(ms);
      SameSeatsKeepRoom(code, room, ms);
    case None =>
      assert forall k :: 0 <= k < |room.members| ==> ms[k] == room.members[k];
      assert IndexOf(ms, room.host.value).Some?;
  }

  lemma JoinKeepsValid(s: Server, conn: Conn, requested: string, name: Option<string>)
    requires ServerValid(s)
    ensures ServerValid(HandleJoin(s, conn, requested, name).0)
  {
    var code := AsciiUpper(requested);
    var r := HandleJoin(s, conn, requested, name);
    if r.1 == Done {
      var id := s.nextPlayerId;
      var m := Member(id, conn, DisplayName(name, id), None, false);
      PutNewcomerKeepsRoom(code, s.rooms[code], m);
    }
  }

  /** A member list that keeps every seat's connection, and whose roles are
      still distinct, leaves the room valid. */
  lemma SameSeatsKeepRoom(code: string, room: Room, ms: seq<Member>)
    requires RoomValid(code, room) && |ms| == |room.members| && RolesDistinct(ms)
    requires forall k :: 0 <= k < |ms| ==> ms[k].conn == room.members[k].conn
    ensures RoomValid(code, room.(members := ms))
  {
    var h := IndexOf(room.members, room.host.value).value;
    assert ms[h].conn == room.host.value;
  }

  lemma SelectRoleKeepsValid(s: Server, code: string, conn: Conn, role: Option<Role>)
    requires ServerValid(s)
    ensures ServerValid(HandleSelectRole(s, code, conn, role).0)
  {
    var r := HandleSelectRole(s, code, conn, role);
    if r.1 == Done {
      var room := s.rooms[code];
      var i := IndexOf(room.members, conn).value;
      var ms := room.members[i := room.members[i].(role := role, ready := false)];
      assert RolesDistinct(ms);
      SameSeatsKeepRoom(code, room, ms);
    }
  }

  lemma ReadyKeepsValid(s: Server, code: string, conn: Conn)
    requires ServerValid(s)
    ensures ServerValid(HandleReady(s, code, conn).0)
  {
    var r := HandleReady(s, code, conn);
    if r.1 == Done {
      var room := s.rooms[code];
      var i := IndexOf(room.members, conn).value;
      var ms := room.members[i := room.members[i].(ready := !room.members[i].ready)];
      assert forall k :: 0 <= k < |ms| ==> ms[k].role == room.members[k].role;
      SameSeatsKeepRoom(code, room, ms);
    }
  }

  lemma StartKeepsValid(s: Server, code: string, conn: Conn, nextEnemyId: nat)
    requires ServerValid(s)
    ensures ServerValid(HandleStart(s, code, conn, nextEnemyId).0)
  {
    var r := HandleStart(s, code, conn, nextEnemyId);
    if r.1 == Done {
      StartIsValid(Roster(s.rooms[code].members), nextEnemyId);
    }
  }

  /** What is left after a member leaves still holds distinct connections
      and roles, and everyone else who was there. */
  lemma DeleteKeepsDistinct(ms: seq<Member>, c: Conn)
    requires ConnsDistinct(ms) && RolesDistinct(ms)
    ensures ConnsDistinct(Delete(ms, c)) && RolesDistinct(Delete(ms, c))
    ensures forall j :: 0 <= j < |ms| && ms[j].conn != c ==> IndexOf(Delete(ms, c), ms[j].conn).Some?
  {
    match IndexOf(ms, c)
    case None =>
      DeleteAbsent(ms, c);
      forall j | 0 <= j < |ms| ensures IndexOf(ms, ms[j].conn).Some? {
      }
    case Some(i) =>
      DeleteAt(ms, c, i);
      SpliceKeepsDistinct(ms, i);
  }

  /** Taking seat i out of a member list keeps connections and roles
      distinct and keeps every other seat's connection findable. */
  lemma SpliceKeepsDistinct(ms: seq<Member>, i: nat)
    requires ConnsDistinct(ms) && RolesDistinct(ms) && i < |ms|
    ensures ConnsDistinct(ms[..i] + ms[i + 1..]) && RolesDistinct(ms[..i] + ms[i + 1..])
    ensures forall j :: 0 <= j < |ms| && j != i ==> IndexOf(ms[..i] + ms[i + 1..], ms[j].conn).Some?
  {
    var r := ms[..i] + ms[i + 1..];
    assert forall k :: 0 <= k < |r| ==> r[k] == ms[if k < i then k else k + 1];
    forall j, k | 0 <= j < k < |r|
      ensures r[j].conn != r[k].conn
      ensures r[j].role.Some? ==> r[j].role != r[k].role
    {
      var j' := if j < i then j else j + 1;
      var k' := if k < i then k else k + 1;
      assert r[j] == ms[j'] && r[k] == ms[k'] && j' < k';
    }
    forall j | 0 <= j < |ms| && j != i
      ensures IndexOf(r, ms[j].conn).Some?
    {
      var k := if j < i then j else j - 1;
      assert r[k] == ms[j];
    }
  }

  lemma CloseKeepsValid(s: Server, code: string, conn: Conn)
    requires ServerValid(s)
    ensures ServerValid(HandleClose(s, code, conn))
  {
    if code in s.rooms {
      var room := s.rooms[code];
      var left := Delete(room.members, conn);
      DeleteKeepsDistinct(room.members, conn);
      if |left| > 0 {
        var s' := RemovePlayer(s, code, conn);
        var host := s'.rooms[code].host.value;
        if room.host != Some(conn) {
          var h := IndexOf(room.members, host).value;
          assert IndexOf(left, room.members[h].conn).Some?;
        } else {
          assert IndexOf(left, left[0].conn).Some?;
        }
        assert RoomValid(code, s'.rooms[code]);
      }
    }
  }

  lemma TickRoomKeepsValid(s: Server, code: string, stages: Stages, d: TickDraws)
    requires ServerValid(s) && StagesKeep(stages)
    requires code in s.rooms && s.rooms[code].game.Some?
    ensures ServerValid(TickRoom(s, code, stages, d).0)
  {
    TickKeepsValid(s.rooms[code].game.value, stages, d);
  }
}
