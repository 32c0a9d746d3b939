/** The server's count of games per user, kept by events that interleave: games are created, their rooms
    end on their own, and the ends are processed later from a queue. */
module ServerCores {
  import opened MatchDatabases
  import opened MatchManagers

  /** A game the counts know about: its number and its players. */
  datatype Playing = Playing(id: nat, players: seq<Jid>)

  datatype Room = Room(players: seq<Jid>, active: bool)

  // ----- seats -----

  function Times(players: seq<Jid>, user: Jid): nat {
    multiset(players)[user]
  }

  /** How many seats a user has in a list of games. */
  function Seats(games: seq<Playing>, user: Jid): nat {
    if games == [] then 0 else Seats(games[..|games| - 1], user) + Times(games[|games| - 1].players, user)
  }

  lemma SeatsMore(games: seq<Playing>, g: Playing, user: Jid)
    ensures Seats(games + [g], user) == Seats(games, user) + Times(g.players, user)
  {
  }

  lemma {:induction false} SeatsFewer(games: seq<Playing>, k: nat, user: Jid)
    requires k < |games|
    ensures Seats(games, user) == Seats(Without(games, k), user) + Times(games[k].players, user)
    decreases |games|
  {
    var n := |games| - 1;
    if k < n {
      SeatsFewer(games[..n], k, user);
      assert Without(games, k) == Without(games[..n], k) + [games[n]];
      hide Without, Times;
      SeatsMore(Without(games[..n], k), games[n], user);
    } else {
      assert Without(games, k) == games[..n];
    }
  }

  lemma {:induction false} NoSeat(games: seq<Playing>, user: Jid)
    ensures Seats(games, user) == 0 <==> forall i :: 0 <= i < |games| ==> user !in games[i].players
    decreases |games|
  {
    if games != [] {
      var n := |games| - 1;
      NoSeat(games[..n], user);
      assert forall i :: 0 <= i < n ==> games[..n][i] == games[i];
    }
  }

  // ----- counting up and down -----

  function Signed(up: bool, n: nat): int {
    if up then n else -(n as int)
  }

  /** A status with one game more or less. */
  function Counted(status: UserStatus, n: int): UserStatus {
    status.(gamesPlaying := status.gamesPlaying + n)
  }

  /** The counts of some players changed, once for every time they are listed. */
  ghost predicate CountedAll(users: Users, users': Users, players: seq<Jid>, up: bool) {
    && users'.Keys == users.Keys
    && forall u :: u in users ==> users'[u] == Counted(users[u], Signed(up, Times(players, u)))
  }

  ghost predicate AllKnown(users: Users, players: seq<Jid>) {
    forall k :: 0 <= k < |players| ==> players[k] in users
  }

  lemma CountedNone(users: Users, players: seq<Jid>, up: bool)
    ensures CountedAll(users, users, players[..0], up)
  {
  }

  lemma TimesNext(players: seq<Jid>, i: nat, user: Jid)
    requires i < |players|
    ensures Times(players[..i + 1], user) == Times(players[..i], user) + if user == players[i] then 1 else 0
  {
    assert players[..i + 1] == players[..i] + [players[i]];
  }

  lemma CountedNext(users: Users, users': Users, players: seq<Jid>, i: nat, up: bool)
    requires i < |players| && CountedAll(users, users', players[..i], up) && players[i] in users
    ensures players[i] in users'
    ensures CountedAll(users, users'[players[i] := Counted(users'[players[i]], Signed(up, 1))], players[..i + 1], up)
  {
    hide Times;
    forall u | u in users
      ensures Times(players[..i + 1], u) == Times(players[..i], u) + if u == players[i] then 1 else 0
    {
      TimesNext(players, i, u);
    }
  }

  // ----- the stages of a game -----

  /** Where the games are that the counts know about: about to get a room, in a room, or waiting for
      their end to be processed. */
  datatype Stages = Stages(creating: map<nat, seq<Jid>>, rooms: map<nat, Room>, ending: seq<Playing>)

  /** Nothing but the room with this number has changed. */
  ghost predicate OthersStay(rooms: map<nat, Room>, rooms': map<nat, Room>, id: nat) {
    forall i :: i != id ==> (i in rooms <==> i in rooms') && (i in rooms ==> rooms'[i] == rooms[i])
  }

  /** At most this room has changed, by ending. */
  ghost predicate AtMostEnds(rooms: map<nat, Room>, rooms': map<nat, Room>, id: nat) {
    && OthersStay(rooms, rooms', id) && id in rooms && id in rooms' && rooms'[id].players == rooms[id].players
    && (rooms'[id].active ==> rooms[id].active)
  }

  ghost predicate Creating(st: Stages, g: Playing) {
    g.id in st.creating && st.creating[g.id] == g.players
  }

  ghost predicate InRoom(st: Stages, g: Playing) {
    g.id in st.rooms && st.rooms[g.id] == Room(g.players, true)
  }

  ghost predicate Apart(games: seq<Playing>) {
    forall i, j :: 0 <= i < j < |games| ==> games[i].id != games[j].id
  }

  /** Every game counted is at exactly one stage. */
  ghost predicate Staged(st: Stages, g: Playing) {
    && (Creating(st, g) || InRoom(st, g) || g in st.ending)
    && !(Creating(st, g) && InRoom(st, g)) && !(Creating(st, g) && g in st.ending) && !(InRoom(st, g) && g in st.ending)
  }

  /** The games counted are those at some stage; each has its own number, taken already. */
  ghost predicate Tracked(live: seq<Playing>, st: Stages, ids: nat) {
    && Apart(live) && Apart(st.ending)
    && (forall g :: g in live ==> g.id < ids && Staged(st, g))
    && (forall g :: Creating(st, g) || InRoom(st, g) || g in st.ending ==> g in live)
    && (forall id :: id in st.rooms ==> id < ids && id !in st.creating)
  }

  lemma SameGame(games: seq<Playing>, g: Playing, h: Playing)
    requires Apart(games) && g in games && h in games && g.id == h.id
    ensures g == h
  {
  }

  /** A game is created: it waits for its room. */
  lemma CreatedTracked(live: seq<Playing>, st: Stages, ids: nat, players: seq<Jid>)
    requires Tracked(live, st, ids)
    ensures Tracked(live + [Playing(ids, players)], st.(creating := st.creating[ids := players]), ids + 1)
  {
  }

  /** The room of a game is there. */
  lemma RoomTracked(live: seq<Playing>, st: Stages, ids: nat, id: nat)
    requires Tracked(live, st, ids) && id in st.creating
    ensures Tracked(live, Stages(st.creating - {id}, st.rooms[id := Room(st.creating[id], true)], st.ending), ids)
  {
    var g := Playing(id, st.creating[id]);
    var st' := Stages(st.creating - {id}, st.rooms[id := Room(st.creating[id], true)], st.ending);
    assert Creating(st, g) && g in live;
    forall h | h in live
      ensures Staged(st', h)
    {
      assert Staged(st, h);
      if h.id == id {
        SameGame(live, g, h);
      }
    }
  }

  /** A room ends: the end waits to be processed. */
  lemma EndedTracked(live: seq<Playing>, st: Stages, ids: nat, id: nat)
    requires Tracked(live, st, ids) && id in st.rooms && st.rooms[id].active
    ensures var players := st.rooms[id].players;
      Tracked(live, Stages(st.creating, st.rooms[id := Room(players, false)], st.ending + [Playing(id, players)]), ids)
  {
  }

  function Without(games: seq<Playing>, k: nat): seq<Playing>
    requires k < |games|
  {
    games[..k] + games[k + 1..]
  }

  lemma WithoutHas(games: seq<Playing>, k: nat)
    requires k < |games| && Apart(games)
    ensures Apart(Without(games, k))
    ensures forall h :: h in Without(games, k) <==> h in games && h != games[k]
  {
  }

  /** An end is processed: the game is not counted any more. */
  lemma ProcessedTracked(live: seq<Playing>, st: Stages, ids: nat, k: nat)
    requires Tracked(live, st, ids) && st.ending != [] && k < |live| && live[k] == st.ending[0]
    ensures Tracked(Without(live, k), st.(ending := st.ending[1..]), ids)
  {
    var g, st' := live[k], st.(ending := st.ending[1..]);
    WithoutHas(live, k);
    WithoutHas(st.ending, 0);
    assert Without(st.ending, 0) == st.ending[1..];
    hide Without, Apart;
    forall h
      ensures (Creating(st', h) <==> Creating(st, h)) && (InRoom(st', h) <==> InRoom(st, h))
    {
    }
    hide Creating, InRoom;
    assert Staged(st, g);
    forall h | h in Without(live, k)
      ensures Staged(st', h)
    {
      assert Staged(st, h);
    }
  }

  /** A room without a game is closed. */
  lemma ClosedTracked(live: seq<Playing>, st: Stages, ids: nat, id: nat)
    requires Tracked(live, st, ids) && id in st.rooms && !st.rooms[id].active
    ensures Tracked(live, st.(rooms := st.rooms - {id}), ids)
  {
  }

  // ----- the server -----

  /** The count of every user is the number of seats in the games counted, and all players are known. */
  ghost predicate CountsRight(users: Users, live: seq<Playing>) {
    && (forall u :: u in users ==> users[u].gamesPlaying == Seats(live, u))
    && (forall i :: 0 <= i < |live| ==> AllKnown(users, live[i].players))
  }

  lemma CreatedCounts(users: Users, users': Users, live: seq<Playing>, g: Playing)
    requires CountsRight(users, live) && AllKnown(users, g.players) && CountedAll(users, users', g.players, true)
    ensures CountsRight(users', live + [g])
  {
  }

  lemma ProcessedCounts(users: Users, users': Users, live: seq<Playing>, k: nat)
    requires CountsRight(users, live) && k < |live| && CountedAll(users, users', live[k].players, false)
    ensures CountsRight(users', Without(live, k))
  {
    hide Seats, Times;
    forall u | u in users'
      ensures users'[u].gamesPlaying == Seats(Without(live, k), u)
    {
      SeatsFewer(live, k, u);
    }
    var fewer := Without(live, k);
    forall i | 0 <= i < |fewer|
      ensures AllKnown(users', fewer[i].players)
    {
      var j := if i < k then i else i + 1;
      assert fewer[i] == live[j] && AllKnown(users, live[j].players);
    }
  }

  lemma PresenceCounts(users: Users, live: seq<Playing>, user: Jid, available: bool, multigame: bool)
    requires CountsRight(users, live)
    ensures CountsRight(users[user := Present(users, user, available, multigame)], live)
  {
    hide Seats;
    if user !in users {
      forall i | 0 <= i < |live|
        ensures user !in live[i].players
      {
        assert AllKnown(users, live[i].players);
      }
      NoSeat(live, user);
    }
    forall i | 0 <= i < |live|
      ensures AllKnown(users[user := Present(users, user, available, multigame)], live[i].players)
    {
      assert AllKnown(users, live[i].players);
    }
  }

  /** The status of a user after a presence: a user not known yet starts without games. */
  function Present(users: Users, user: Jid, available: bool, multigame: bool): UserStatus {
    UserStatus(available, if user in users then users[user].gamesPlaying else 0, multigame)
  }

  /** A user is there for a game more: available, and wanting several at a time or sitting in none. */
  predicate FreeFor(users: Users, live: seq<Playing>, p: Jid) {
    p in users && users[p].available && (users[p].multigame || forall i :: 0 <= i < |live| ==> p !in live[i].players)
  }

  class ServerCore {
    var users: Users
    var gameIds: nat
    var creating: map<nat, seq<Jid>>
    var rooms: map<nat, Room>
    var ending: seq<Playing>
    /** The games created whose end is not processed yet. */
    ghost var live: seq<Playing>

    ghost predicate Valid()
      reads this
    {
      CountsRight(users, live) && Tracked(live, Stages(creating, rooms, ending), gameIds)
    }

    constructor ()
      ensures Valid() && users == map[] && live == [] && creating == map[] && rooms == map[] && ending == []
    {
      users, gameIds, creating, rooms, ending, live := map[], 0, map[], map[], [], [];
    }

    /** Numbers of rooms have been given out, */
    lemma RoomIsKnown(id: nat)
      requires Valid() && id in rooms
      ensures id < gameIds && id !in creating
    {
    }

    /** and a game that waits for its room has none. */
    lemma CreatingIsNew(id: nat)
      requires Valid() && id in creating
      ensures id < gameIds && id !in rooms
    {
      assert Creating(Stages(creating, rooms, ending), Playing(id, creating[id]));
    }

    /** Counts the players of a game up or down, once for every seat. */
    method CountPlayers(players: seq<Jid>, up: bool)
      requires AllKnown(users, players)
      modifies this`users
      ensures CountedAll(old(users), users, players, up)
    {
      ghost var before := users;
      CountedNone(before, players, up);
      hide CountedAll;
      for i := 0 to |players|
        invariant CountedAll(before, users, players[..i], up)
      {
        CountedNext(before, users, players, i, up);
        users := users[players[i] := Counted(users[players[i]], Signed(up, 1))];
      }
      assert players[..|players|] == players;
    }

    /** Creates a game if all its players can play: they must be available, and a player who is in a game
        already must want several at a time. */
    method CreateGame(players: seq<Jid>) returns (ok: bool, id: nat)
      requires Valid()
      modifies this`users, this`gameIds, this`creating, this`live
      ensures Valid()
      ensures ok <==> forall k :: 0 <= k < |players| ==> CanPlay(old(users), players[k])
      ensures (forall k :: 0 <= k < |players| ==> FreeFor(old(users), old(live), players[k])) <==> ok
      ensures ok ==> live == old(live) + [Playing(id, players)] && CountedAll(old(users), users, players, true)
      ensures !ok ==> live == old(live) && users == old(users) && creating == old(creating) && gameIds == old(gameIds)
      ensures ok ==> id == old(gameIds) == gameIds - 1 && creating == old(creating)[id := players]
      ensures ok ==> forall k :: 0 <= k < |players| ==>
        Seats(old(live), players[k]) == 0 || IsMultigame(old(users), players[k])
    {
      hide Tracked, CountsRight, CountedAll, Seats;
      id := 0;
      for i := 0 to |players|
        invariant forall k :: 0 <= k < i ==> CanPlay(users, players[k])
        modifies {}
      {
        if !CanPlay(users, players[i]) {
          CanPlayIff(users, live, players[i]);
          return false, id;
        }
      }
      FreeSeats(users, live, players);
      AllFree(users, live, players);
      ghost var before := users;
      CountPlayers(players, true);
      id := gameIds;
      gameIds := gameIds + 1;
      CreatedTracked(live, Stages(creating, rooms, ending), id, players);
      CreatedCounts(before, users, live, Playing(id, players));
      creating := creating[id := players];
      live := live + [Playing(id, players)];
      ok := true;
    }

    /** The room of a created game opens. */
    method OpenRoom(id: nat)
      requires Valid() && id in creating
      modifies this`creating, this`rooms
      ensures Valid() && live == old(live) && users == old(users)
      ensures rooms == old(rooms)[id := Room(old(creating)[id], true)] && creating == old(creating) - {id}
    {
      hide Tracked, CountsRight;
      RoomTracked(live, Stages(creating, rooms, ending), gameIds, id);
      rooms := rooms[id := Room(creating[id], true)];
      creating := creating - {id};
    }

    /** An active room ends, which it does once; its end is queued. */
    method EndGame(id: nat)
      requires Valid() && id in rooms && rooms[id].active
      modifies this`rooms, this`ending
      ensures Valid() && live == old(live) && users == old(users)
      ensures rooms == old(rooms)[id := Room(old(rooms)[id].players, false)]
      ensures ending == old(ending) + [Playing(id, old(rooms)[id].players)]
    {
      hide Tracked, CountsRight;
      EndedTracked(live, Stages(creating, rooms, ending), gameIds, id);
      ending := ending + [Playing(id, rooms[id].players)];
      rooms := rooms[id := Room(rooms[id].players, false)];
    }

    /** The oldest end in the queue is processed. */
    method ProcessEnd()
      requires Valid() && ending != []
      modifies this`users, this`ending, this`live
      ensures Valid() && ending == old(ending)[1..]
      ensures CountedAll(old(users), users, old(ending)[0].players, false)
      ensures exists k :: 0 <= k < |old(live)| && old(live)[k] == old(ending)[0] && live == Without(old(live), k)
    {
      hide CountedAll, Seats, Without;
      ghost var before := users;
      assert ending[0] in live;
      ghost var k :| 0 <= k < |live| && live[k] == ending[0];
      ProcessedTracked(live, Stages(creating, rooms, ending), gameIds, k);
      assert AllKnown(users, live[k].players);
      hide Tracked, CountsRight;
      CountPlayers(ending[0].players, false);
      ProcessedCounts(before, users, live, k);
      ending := ending[1..];
      live := Without(live, k);
    }

    /** A room that has ended is taken down. */
    method CloseGame(id: nat)
      requires Valid() && id in rooms && !rooms[id].active
      modifies this`rooms
      ensures Valid() && live == old(live) && users == old(users) && rooms == old(rooms) - {id}
    {
      hide Tracked, CountsRight;
      ClosedTracked(live, Stages(creating, rooms, ending), gameIds, id);
      rooms := rooms - {id};
    }

    /** A user comes, goes, or changes the wish for several games at a time. */
    method HandlePresence(user: Jid, available: bool, multigame: bool)
      requires Valid()
      modifies this`users
      ensures Valid() && live == old(live)
      ensures users == old(users)[user := Present(old(users), user, available, multigame)]
      ensures users[user].available == available && users[user].multigame == multigame
      ensures users[user].gamesPlaying == if user in old(users) then old(users)[user].gamesPlaying else 0
    {
      hide Tracked, CountsRight;
      PresenceCounts(users, live, user, available, multigame);
      users := users[user := Present(users, user, available, multigame)];
    }
  }

  /** Who can play: an available user who wants several games at a time or sits in none. */
  lemma CanPlayIff(users: Users, live: seq<Playing>, p: Jid)
    requires CountsRight(users, live)
    ensures CanPlay(users, p) <==> FreeFor(users, live, p)
  {
    NoSeat(live, p);
    hide Seats;
  }

  /** Who can play and does not want several games has no seat anywhere. */
  lemma FreeSeats(users: Users, live: seq<Playing>, players: seq<Jid>)
    requires CountsRight(users, live) && forall k :: 0 <= k < |players| ==> CanPlay(users, players[k])
    ensures AllKnown(users, players)
    ensures forall k :: 0 <= k < |players| ==> Seats(live, players[k]) == 0 || IsMultigame(users, players[k])
  {
  }

  lemma AllFree(users: Users, live: seq<Playing>, players: seq<Jid>)
    requires CountsRight(users, live) && forall k :: 0 <= k < |players| ==> CanPlay(users, players[k])
    ensures forall k :: 0 <= k < |players| ==> FreeFor(users, live, players[k])
  {
    hide CountsRight, FreeFor;
    forall k | 0 <= k < |players|
      ensures FreeFor(users, live, players[k])
    {
      CanPlayIff(users, live, players[k]);
    }
  }
}
