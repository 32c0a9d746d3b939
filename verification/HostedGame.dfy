/** A room on the server: every event of the room reaches the counts exactly when it ends the room, so the counts
    follow from the events. */
module HostedGames {
  import opened ChessGames
  import opened Movetext
  import opened MatchDatabases
  import opened GameRooms
  import opened ServerCores

  class HostedGame {
    const core: ServerCore
    const id: nat
    const room: GameRoom

    function Seated(): seq<Jid> {
      [room.white, room.black]
    }

    /** The room is active as long as it has reported no end. */
    ghost predicate Sane()
      reads room, room.game, room.game.chess, room.game.chess.gameboard, room.game.chess.gameboard.cells,
          room.agreement
    {
      room.Valid() && room.active == (room.endings == [])
    }

    /** The server knows the room and whether it is active. */
    ghost predicate Valid()
      reads core, room, room.game, room.game.chess, room.game.chess.gameboard, room.game.chess.gameboard.cells,
          room.agreement
      ensures Valid() ==> core.Valid() && id in core.rooms
    {
      core.Valid() && Sane() && id in core.rooms && core.rooms[id] == Room(Seated(), room.active)
    }

    /** Everything that belongs to this room alone. */
    function Objects(): set<object> {
      {room, room.game, room.game.chess, room.game.chess.gameboard, room.game.chess.gameboard.cells, room.agreement}
    }

    /** The end waiting to be processed after an event, if the event ended the room. */
    ghost function Report(wasActive: bool, active: bool): seq<Playing> {
      if wasActive && !active then [Playing(id, Seated())] else []
    }

    /** The room of a game the server has created opens. */
    constructor (core: ServerCore, id: nat, game: ChessGame, white: Jid, black: Jid, now: int)
      requires core.Valid() && id in core.creating && core.creating[id] == [white, black]
      requires game.Valid() && game.Fair() && game.done == NoReason && white != black
      modifies core`creating, core`rooms
      ensures Valid() && room.active && this.core == core && this.id == id && room.game == game
      ensures core.live == old(core.live) && core.users == old(core.users)
      ensures core.creating == old(core.creating) - {id} && OthersStay(old(core.rooms), core.rooms, id)
      ensures fresh(room) && fresh(room.agreement)
    {
      hide ServerCore.Valid, Tells, Played, Replay, Moves, ChessGame.Fair, ChessGame.Valid;
      this.core, this.id := core, id;
      room := new GameRoom(game, white, black, now);
      new;
      core.OpenRoom(id);
    }

    /** Passes the end of the room on, if it has just ended. */
    method PassOn()
      requires core.Valid() && room.Valid() && id in core.rooms && core.rooms[id].players == Seated()
      requires room.active ==> core.rooms[id].active
      modifies core`rooms, core`ending
      ensures Valid() && core.live == old(core.live) && core.users == old(core.users)
      ensures core.ending == old(core.ending) + Report(old(core.rooms)[id].active, room.active)
      ensures AtMostEnds(old(core.rooms), core.rooms, id)
    {
      hide GameRoom.Valid, ServerCore.Valid;
      room.ReportedOnce();
      if !room.active && core.rooms[id].active {
        core.EndGame(id);
      }
    }

    method Query(sender: Jid, occupant: bool, q: Query, now: int) returns (r: Reply)
      requires Valid()
      modifies room, room.game, room.game.chess, room.game.chess.gameboard.cells, room.agreement`agreements,
          core`rooms, core`ending
      ensures Valid() && core.live == old(core.live) && core.users == old(core.users)
      ensures core.ending == old(core.ending) + Report(old(room.active), room.active)
      ensures AtMostEnds(old(core.rooms), core.rooms, id)
      ensures !old(room.active) ==> !room.active
    {
      hide GameRoom.Valid, ServerCore.Valid, GameRoom.ReplyTo, GameRoom.EndOf, GameRoom.OnTheClock, GameRoom.Admits,
        GameRoom.Ended, AfterQuery, SaidBy;
      r := room.HandleGameIq(sender, occupant, q, now);
      PassOn();
    }

    /** The periodic check; it asks for an ended room that everybody has left to be taken down. */
    method Tick(gameTime: int, now: int, occupants: nat) returns (close: bool)
      requires Valid()
      modifies room`active, room`endings, room.game`done, room.game`timeOver, room.game.chess.gameboard.cells,
          core`rooms, core`ending
      ensures Valid() && core.live == old(core.live) && core.users == old(core.users)
      ensures core.ending == old(core.ending) + Report(old(room.active), room.active)
      ensures AtMostEnds(old(core.rooms), core.rooms, id)
      ensures close <==> !room.active && occupants == 0
      ensures !old(room.active) ==> !room.active
    {
      hide GameRoom.Valid, ServerCore.Valid, GameRoom.ReplyTo, GameRoom.EndOf, GameRoom.OnTheClock, GameRoom.Admits,
        GameRoom.Ended, AfterQuery, SaidBy;
      close := room.CheckTime(gameTime, now, occupants);
      PassOn();
    }

    /** A player comes or goes. */
    method NotifyUserStatus(user: Jid, available: bool, now: int)
      requires Valid()
      modifies room`timeout
      ensures Valid() && room.active == old(room.active)
    {
      hide GameRoom.Valid, ServerCore.Valid;
      room.NotifyUserStatus(user, available, now);
    }

    method Stop(now: int)
      requires Valid()
      modifies room`active, room`endings, room.game.chess.gameboard.cells, core`rooms, core`ending
      ensures Valid() && !room.active && core.live == old(core.live) && core.users == old(core.users)
      ensures core.ending == old(core.ending) + Report(old(room.active), room.active)
      ensures AtMostEnds(old(core.rooms), core.rooms, id)
    {
      hide GameRoom.Valid, ServerCore.Valid, GameRoom.ReplyTo, GameRoom.EndOf, GameRoom.OnTheClock, GameRoom.Admits,
        GameRoom.Ended, AfterQuery, SaidBy;
      room.OnStop(now);
      PassOn();
    }

    /** As long as the room is active the game counts for each player, by at least one seat. */
    lemma ActiveGameCounts(player: Jid)
      requires Valid() && room.active && player in {room.white, room.black}
      ensures player in core.users && core.users[player].gamesPlaying >= 1
    {
      var st := Stages(core.creating, core.rooms, core.ending);
      assert InRoom(st, Playing(id, Seated()));
      assert Playing(id, Seated()) in core.live;
      var k :| 0 <= k < |core.live| && core.live[k] == Playing(id, Seated());
      assert AllKnown(core.users, core.live[k].players);
      assert player == Seated()[if player == room.white then 0 else 1];
      assert player in Seated();
      SeatsFewer(core.live, k, player);
    }
  }
}
