/** The server with all its rooms: the events of different rooms, of users and of the queues come in any order. */
module GameServers {
  import opened ChessGames
  import opened MatchDatabases
  import opened MatchManagers
  import opened GameRooms
  import opened ServerCores
  import opened HostedGames

  class GameServer {
    const core: ServerCore
    var games: map<nat, HostedGame>
    /** The rooms that have asked to be taken down. */
    var closing: seq<nat>

    /** The objects of all rooms. */
    function Objects(): set<object>
      reads this`games
    {
      set id, o | id in games && o in games[id].Objects() :: o
    }

    lemma PartOf(id: nat)
      requires id in games
      ensures games[id].Objects() <= Objects()
    {
      hide HostedGame.Objects;
    }

    /** No two rooms share anything. */
    ghost predicate Separate()
      reads this`games
    {
      forall i, j {:trigger games[i].Objects(), games[j].Objects()} :: i in games && j in games && i != j ==>
        games[i].Objects() !! games[j].Objects()
    }

    ghost predicate Holds(id: nat)
      requires id in games
      reads this`games, core, games[id].Objects()
    {
      games[id].core == core && games[id].id == id && games[id].Valid()
    }

    /** A room that has asked to be taken down has ended, and its number is not given out again. */
    ghost predicate ClosingEnded()
      reads this`closing, core
    {
      forall id :: id in closing ==>
        id < core.gameIds && id !in core.creating && (id in core.rooms ==> !core.rooms[id].active)
    }

    /** What holds between events: every room is valid on its own, and the counts know exactly the rooms there are. */
    ghost predicate Valid()
      reads this, core, Objects()
      ensures Valid() ==> core.Valid() && core.rooms.Keys == games.Keys
    {
      && core.Valid() && core.rooms.Keys == games.Keys && Separate() && ClosingEnded()
      && forall id {:trigger Holds(id)} :: id in games ==> Holds(id)
    }

    constructor ()
      ensures Valid() && games == map[] && fresh(core) && core.users == map[] && core.live == []
    {
      core := new ServerCore();
      games, closing := map[], [];
    }

    // ----- one event leaves the other rooms alone -----

    /** What happens in one room leaves every other room as it was. */
    twostate lemma OthersHold(id: nat)
      requires OthersStay(old(core.rooms), core.rooms, id)
      requires forall j {:trigger games[j]} :: j in games && j != id ==> j in old(games) && games[j] == old(games)[j]
      requires forall j {:trigger games[j]} :: j in games && j != id ==> unchanged(games[j].Objects())
      requires old(Valid()) && core.Valid()
      ensures forall j {:trigger Holds(j)} :: j in games && j != id ==> Holds(j)
    {
      hide HostedGame.Sane, ServerCore.Valid;
      forall j | j in games && j != id
        ensures Holds(j)
      {
        assert old(Holds(j));
        assert games[j].Sane();
      }
    }

    /** An event of one room keeps the whole server in order. */
    twostate lemma RoomEvent(id: nat)
      requires games == old(games) && AtMostEnds(old(core.rooms), core.rooms, id)
      requires unchanged(this`closing, core`creating, core`gameIds)
      requires forall j {:trigger games[j]} :: j in games && j != id ==> unchanged(games[j].Objects())
      requires old(Valid()) && id in games && Holds(id)
      ensures Valid()
    {
      hide HostedGame.Sane, ServerCore.Valid;
      assert core.Valid();
      OthersHold(id);
      assert core.rooms.Keys == games.Keys;
    }

    /** An event of the counts alone keeps it too. */
    twostate lemma CountEvent()
      requires games == old(games) && core.rooms == old(core.rooms)
      requires forall j {:trigger games[j]} :: j in games ==> unchanged(games[j].Objects())
      requires old(Valid()) && core.Valid() && ClosingEnded()
      ensures Valid()
    {
      hide HostedGame.Sane, ServerCore.Valid, ClosingEnded;
      forall j | j in games
        ensures Holds(j)
      {
        assert old(Holds(j));
        assert games[j].Sane();
      }
    }

    /** So does taking down a room that has ended. */
    twostate lemma RoomGone(id: nat)
      requires id in old(games) && games == old(games) - {id} && core.rooms == old(core.rooms) - {id}
      requires unchanged(this`closing, core`creating, core`gameIds)
      requires forall j {:trigger games[j]} :: j in games ==> unchanged(games[j].Objects())
      requires old(Valid()) && core.Valid()
      ensures Valid()
    {
      hide HostedGame.Sane, HostedGame.Valid, ServerCore.Valid;
      OthersHold(id);
    }

    /** And so does a room that opens, with objects of its own. */
    twostate lemma RoomOpened(id: nat)
      requires id !in old(games) && id in games && games == old(games)[id := games[id]]
      requires OthersStay(old(core.rooms), core.rooms, id) && core.creating == old(core.creating) - {id}
      requires unchanged(this`closing, core`gameIds) && id in old(core.creating)
      requires forall j {:trigger games[j]} :: j in games && j != id ==> unchanged(games[j].Objects())
      requires games[id].Objects() !! old(Objects())
      requires old(Valid()) && Holds(id)
      ensures Valid()
    {
      hide HostedGame.Sane, ServerCore.Valid;
      OthersHold(id);
    }

    // ----- the events -----

    /** A query reaches a room; a room that does not exist has no handler for it. */
    method Query(id: nat, sender: Jid, occupant: bool, q: Query, now: int) returns (r: Reply)
      requires Valid() && id in games
      modifies games[id].Objects(), core`rooms, core`ending
      ensures Valid() && games == old(games) && core.live == old(core.live) && core.users == old(core.users)
      ensures AtMostEnds(old(core.rooms), core.rooms, id)
    {
      hide HostedGame.Valid, HostedGame.Sane, ServerCore.Valid, AtMostEnds;
      assert Holds(id);
      r := games[id].Query(sender, occupant, q, now);
      assert Holds(id);
      RoomEvent(id);
    }

    /** The periodic check of a room. */
    method Tick(id: nat, gameTime: int, now: int, occupants: nat)
      requires Valid() && id in games
      modifies this`closing, games[id].Objects(), core`rooms, core`ending
      ensures Valid() && games == old(games) && core.live == old(core.live) && core.users == old(core.users)
      ensures AtMostEnds(old(core.rooms), core.rooms, id)
      ensures closing == old(closing) + if !core.rooms[id].active && occupants == 0 then [id] else []
    {
      hide Valid;
      var close := RoomTick(id, gameTime, now, occupants);
      if close {
        AskToClose(id);
      }
    }

    method RoomTick(id: nat, gameTime: int, now: int, occupants: nat) returns (close: bool)
      requires Valid() && id in games
      modifies games[id].Objects(), core`rooms, core`ending
      ensures Valid() && games == old(games) && core.live == old(core.live) && core.users == old(core.users)
      ensures AtMostEnds(old(core.rooms), core.rooms, id)
      ensures close <==> !core.rooms[id].active && occupants == 0
    {
      hide HostedGame.Sane, ServerCore.Valid, AtMostEnds;
      assert Holds(id);
      close := games[id].Tick(gameTime, now, occupants);
      assert Holds(id);
      RoomEvent(id);
    }

    method AskToClose(id: nat)
      requires Valid() && id in core.rooms && !core.rooms[id].active
      modifies this`closing
      ensures Valid() && closing == old(closing) + [id]
    {
      hide HostedGame.Valid, HostedGame.Sane, ServerCore.Valid;
      core.RoomIsKnown(id);
      closing := closing + [id];
      assert forall j {:trigger Holds(j)} :: j in games ==> old(Holds(j));
    }

    /** A player comes to a room or leaves it. */
    method NotifyUserStatus(id: nat, user: Jid, available: bool, now: int)
      requires Valid() && id in games
      modifies games[id].Objects()
      ensures Valid()
    {
      hide HostedGame.Valid, HostedGame.Sane, ServerCore.Valid;
      assert Holds(id);
      games[id].NotifyUserStatus(user, available, now);
      assert Holds(id);
      RoomEvent(id);
    }

    method HandlePresence(user: Jid, available: bool, multigame: bool)
      requires Valid()
      modifies core`users
      ensures Valid() && core.users == old(core.users)[user := Present(old(core.users), user, available, multigame)]
    {
      hide HostedGame.Valid, HostedGame.Sane, ServerCore.Valid;
      core.HandlePresence(user, available, multigame);
      CountEvent();
    }

    method CreateGame(players: seq<Jid>) returns (ok: bool, id: nat)
      requires Valid()
      modifies core`users, core`gameIds, core`creating, core`live
      ensures Valid()
      ensures ok <==> forall k :: 0 <= k < |players| ==> CanPlay(old(core.users), players[k])
      ensures ok ==> core.live == old(core.live) + [Playing(id, players)]
      ensures ok ==> core.creating == old(core.creating)[id := players]
    {
      hide HostedGame.Valid, HostedGame.Sane, ServerCore.Valid, CountedAll;
      ok, id := core.CreateGame(players);
      CountEvent();
    }

    method NewRoom(id: nat, game: ChessGame, white: Jid, black: Jid, now: int) returns (hosted: HostedGame)
      requires Valid() && id in core.creating && core.creating[id] == [white, black] && white != black
      requires game.Valid() && game.Fair() && game.done == NoReason
      requires {game, game.chess, game.chess.gameboard, game.chess.gameboard.cells} !! Objects()
      modifies core`creating, core`rooms
      ensures hosted.Valid() && hosted.core == core && hosted.id == id && hosted.room.game == game && hosted.room.active
      ensures hosted.Objects() !! Objects() && OthersStay(old(core.rooms), core.rooms, id)
      ensures core.creating == old(core.creating) - {id}
      ensures core.live == old(core.live) && core.users == old(core.users)
    {
      hide Valid, HostedGame.Sane, HostedGame.Valid, ServerCore.Valid, ChessGame.Valid;
      ghost var all := Objects();
      hosted := new HostedGame(core, id, game, white, black, now);
      assert hosted.room !in all && hosted.room.agreement !in all;
    }

    /** The room of a created game opens. */
    method OpenRoom(id: nat, game: ChessGame, white: Jid, black: Jid, now: int)
      requires Valid() && id in core.creating && core.creating[id] == [white, black] && white != black
      requires game.Valid() && game.Fair() && game.done == NoReason
      requires {game, game.chess, game.chess.gameboard, game.chess.gameboard.cells} !! Objects()
      modifies this`games, core`creating, core`rooms
      ensures Valid() && id !in old(games) && id in games && games == old(games)[id := games[id]]
      ensures games[id].room.game == game && games[id].room.active
      ensures core.live == old(core.live) && core.users == old(core.users)
    {
      hide Valid, Objects, HostedGame.Sane, HostedGame.Valid, ServerCore.Valid, ChessGame.Valid, OthersStay;
      core.CreatingIsNew(id);
      var hosted := NewRoom(id, game, white, black, now);
      games := games[id := hosted];
      assert Holds(id);
      RoomOpened(id);
    }

    /** The oldest end in the queue is processed. */
    method ProcessEnd()
      requires Valid() && core.ending != []
      modifies core`users, core`ending, core`live
      ensures Valid() && core.ending == old(core.ending)[1..]
      ensures CountedAll(old(core.users), core.users, old(core.ending)[0].players, false)
    {
      hide HostedGame.Valid, HostedGame.Sane, ServerCore.Valid, CountedAll;
      core.ProcessEnd();
      CountEvent();
    }

    /** A room that has ended is taken down. */
    method Remove(id: nat)
      requires Valid() && id in games && !core.rooms[id].active
      modifies this`games, core`rooms
      ensures Valid() && games == old(games) - {id} && core.rooms == old(core.rooms) - {id}
      ensures core.live == old(core.live) && core.users == old(core.users)
    {
      hide HostedGame.Sane, HostedGame.Valid, ServerCore.Valid;
      core.CloseGame(id);
      games := games - {id};
      RoomGone(id);
    }

    /** The oldest request to take a room down is processed. */
    method ProcessClose()
      requires Valid() && closing != []
      modifies this`games, this`closing, core`rooms
      ensures Valid() && closing == old(closing)[1..] && games == old(games) - {old(closing)[0]}
      ensures core.live == old(core.live) && core.users == old(core.users)
    {
      hide HostedGame.Valid, HostedGame.Sane, ServerCore.Valid, Holds, Separate;
      var id := closing[0];
      if id in games {
        Remove(id);
      }
      DropRequest();
    }

    method DropRequest()
      requires Valid() && closing != []
      modifies this`closing
      ensures Valid() && closing == old(closing)[1..]
    {
      hide HostedGame.Valid, HostedGame.Sane, ServerCore.Valid;
      closing := closing[1..];
      assert forall k :: k in closing ==> k in old(closing);
      assert forall j {:trigger Holds(j)} :: j in games ==> old(Holds(j));
    }

    // ----- the end of the server -----

    method StopRoom(id: nat, now: int)
      requires Valid() && id in games
      modifies games[id].Objects(), core`rooms, core`ending
      ensures Valid() && games == old(games) && core.live == old(core.live) && core.users == old(core.users)
      ensures AtMostEnds(old(core.rooms), core.rooms, id) && !core.rooms[id].active
      ensures forall j :: j in core.rooms && core.rooms[j].active ==>
        j != id && j in old(core.rooms) && old(core.rooms)[j].active
    {
      hide HostedGame.Sane, ServerCore.Valid;
      assert Holds(id);
      games[id].Stop(now);
      assert Holds(id);
      RoomEvent(id);
    }

    method StopAll(now: int)
      requires Valid()
      modifies Objects(), core`rooms, core`ending
      ensures Valid() && games == old(games) && core.live == old(core.live) && core.users == old(core.users)
      ensures forall id :: id in core.rooms ==> !core.rooms[id].active
    {
      hide Valid, Objects, AtMostEnds, HostedGame.Objects;
      var todo := games.Keys;
      while todo != {}
        invariant Valid() && games == old(games) && todo <= games.Keys
        invariant core.live == old(core.live) && core.users == old(core.users)
        invariant forall id :: id in core.rooms && id !in todo ==> !core.rooms[id].active
        decreases |todo|
      {
        var id :| id in todo;
        PartOf(id);
        StopRoom(id, now);
        todo := todo - {id};
      }
    }

    /** Every room is stopped, then all go; the ends of those that were active wait to be processed. */
    method Stop(now: int)
      requires Valid()
      modifies this`games, Objects(), core`rooms, core`ending
      ensures Valid() && games == map[] && core.rooms == map[]
      ensures core.live == old(core.live) && core.users == old(core.users)
    {
      hide Valid, Objects;
      StopAll(now);
      while games != map[]
        invariant Valid() && core.live == old(core.live) && core.users == old(core.users)
        invariant forall id :: id in core.rooms ==> !core.rooms[id].active
        decreases |games.Keys|
      {
        var id :| id in games;
        Remove(id);
      }
    }

    /** At any time an active room counts for both its players. */
    lemma ActiveGamesCount(id: nat, player: Jid)
      requires Valid() && id in games && games[id].room.active
      requires player in {games[id].room.white, games[id].room.black}
      ensures player in core.users && core.users[player].gamesPlaying >= 1
    {
      hide HostedGame.Sane, ServerCore.Valid;
      assert Holds(id);
      games[id].ActiveGameCounts(player);
    }
  }
}
