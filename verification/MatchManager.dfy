/** Offers of matches: who may offer what, accepting, declining, and closing what can no longer be played. */
module MatchManagers {
  import opened IdSets
  import opened MatchDatabases

  datatype UserStatus = UserStatus(available: bool, gamesPlaying: int, multigame: bool) {
    /** Available, and without a game unless several at a time are wanted. */
    predicate CanPlay() {
      available && (gamesPlaying <= 0 || multigame)
    }
  }

  type Users = map<Jid, UserStatus>

  predicate CanPlay(users: Users, p: Jid) {
    p in users && users[p].CanPlay()
  }

  predicate IsMultigame(users: Users, p: Jid) {
    p in users && users[p].multigame
  }

  // ----- what holds between events -----

  /** Every offered match still waits for somebody. */
  ghost predicate AllWait(table: Table) {
    forall id :: id in table ==> Waiting(table[id]) != {}
  }

  /** Every player of an offered match is available. */
  ghost predicate AllAvailable(table: Table, users: Users) {
    forall id, p :: Plays(table, id, p) ==> p in users && users[p].available
  }

  lemma FewerMatches(table: Table, users: Users, gone: set<nat>)
    requires AllWait(table) && AllAvailable(table, users)
    ensures AllWait(table - gone) && AllAvailable(table - gone, users)
  {
    forall id, p | Plays(table - gone, id, p)
      ensures p in users && users[p].available
    {
      assert Plays(table, id, p);
    }
  }

  // ----- closing -----

  /** The matches some player takes part in. */
  ghost function MatchesOf(table: Table, p: Jid): set<nat> {
    set id | id in table && p in table[id].players
  }

  /** The matches of the first `n` of some players, as far as these play several games at a time. */
  ghost function MatchesOfMulti(table: Table, users: Users, players: seq<Jid>, n: nat): set<nat>
    requires n <= |players|
  {
    set id | id in table && exists k :: 0 <= k < n && IsMultigame(users, players[k]) && players[k] in table[id].players
  }

  /** The matches that go when a match is closed: the match, and once everybody has accepted it also
      every other match of those of its players who play several games at a time. */
  ghost function Closing(table: Table, users: Users, id: nat, accepted: bool): set<nat>
    requires id in table
  {
    {id} + if accepted then MatchesOfMulti(table, users, table[id].players, |table[id].players|) else {}
  }

  lemma MultiNone(table: Table, users: Users, players: seq<Jid>)
    ensures MatchesOfMulti(table, users, players, 0) == {}
  {
  }

  lemma MultiNext(table: Table, users: Users, players: seq<Jid>, n: nat)
    requires n < |players|
    ensures MatchesOfMulti(table, users, players, n + 1)
      == MatchesOfMulti(table, users, players, n) + if IsMultigame(users, players[n])
          then MatchesOf(table, players[n]) else {}
  {
  }

  /** Taking away the matches of one player from what is left. */
  lemma RestOf(table: Table, gone: set<nat>, p: Jid)
    ensures (table - gone) - MatchesOf(table - gone, p) == table - (gone + MatchesOf(table, p))
  {
  }

  /** A match survives an accepted one exactly when none of the players who play several games at a time is in it;
      so a player of a single game keeps the other offers open. */
  lemma SurvivesIff(table: Table, users: Users, id: nat, other: nat)
    requires id in table && other in table && other != id
    ensures other !in Closing(table, users, id, true) <==>
      forall p :: p in table[id].players && p in table[other].players ==> !IsMultigame(users, p)
  {
  }

  /** A match of two players, offered by the first and waiting for the second. */
  function OfferedTo(a: Jid, b: Jid): MatchInfo {
    MatchInfo([a, b], map[a := true, b := false], 1)
  }

  lemma OfferedToWaits(a: Jid, b: Jid)
    requires a != b
    ensures InfoOk(OfferedTo(a, b)) && Waiting(OfferedTo(a, b)) == {b}
  {
    var info := OfferedTo(a, b);
    assert Waiting(info) == {b};
    assert (set p | p in [a, b]) == {a, b} == info.accepted.Keys;
  }

  /** Two such matches at once. */
  function OfferedTwice(a: Jid, b: Jid): Table {
    map[0 := OfferedTo(a, b), 1 := OfferedTo(a, b)]
  }

  /** Two players who are there and play one game at a time. */
  function SingleGameUsers(a: Jid, b: Jid): Users {
    map[a := UserStatus(true, 0, false), b := UserStatus(true, 0, false)]
  }

  /** Such a table is one that may stand between events. When the second player accepts one match, nobody is left
      to wait for and a game begins, but the other match stays open. */
  lemma SingleGamePlayersKeepOffers(a: Jid, b: Jid)
    requires a != b
    ensures var table, users := OfferedTwice(a, b), SingleGameUsers(a, b);
      && TableOk(table) && AllWait(table) && AllAvailable(table, users)
      && Waiting(table[0]) == {b} && Closing(table, users, 0, true) == {0}
      && 1 in table - Closing(table, users, 0, true)
  {
    hide InfoOk, MatchesOfMulti, Waiting;
    var table, users := OfferedTwice(a, b), SingleGameUsers(a, b);
    OfferedToWaits(a, b);
    OnlyTwo(a, b);
    NobodyMulti(table, users, table[0].players);
  }

  lemma OnlyTwo(a: Jid, b: Jid)
    requires a != b
    ensures AllAvailable(OfferedTwice(a, b), SingleGameUsers(a, b))
    ensures forall k :: 0 <= k < 2 ==> !IsMultigame(SingleGameUsers(a, b), [a, b][k])
  {
    hide Waiting;
  }

  lemma NobodyMulti(table: Table, users: Users, players: seq<Jid>)
    requires forall k :: 0 <= k < |players| ==> !IsMultigame(users, players[k])
    ensures MatchesOfMulti(table, users, players, |players|) == {}
  {
    hide IsMultigame;
  }

  // ----- offers -----

  datatype OfferAnswer = Offered(id: nat) | CannotPlay | NotAmong | Repeated | UnknownMatch | PlayersChanged

  /** No two players are the same account. */
  predicate DistinctAccounts(players: seq<Jid>) {
    forall i, j :: 0 <= i < j < |players| ==> !SameAccount(players[j], players[i])
  }

  /** Why an offer is refused, if it is: the checks in their order. */
  function Refusal(table: Table, users: Users, sender: Jid, players: seq<Jid>, rematch: int): (r: OfferAnswer)
  {
    if exists k :: 0 <= k < |players| && !CanPlay(users, players[k]) then CannotPlay
    else if sender !in players then NotAmong
    else if !DistinctAccounts(players) then Repeated
    else if rematch == -1 then Offered(0)
    else if rematch < 0 || rematch !in table then UnknownMatch
    else if multiset(table[rematch].players) != multiset(players) then PlayersChanged
    else Offered(rematch)
  }

  lemma DistinctMeansNoRepeats(players: seq<Jid>)
    requires DistinctAccounts(players)
    ensures NoRepeats(players)
  {
  }

  /** The match after the one who offers it has accepted: somebody else still has to. */
  lemma OfferedWaits(players: seq<Jid>, sender: Jid)
    requires NoRepeats(players) && |players| >= 2 && sender in players
    ensures sender in NewInfo(players).accepted
    ensures Waiting(AcceptedBy(NewInfo(players), sender)) != {}
  {
    NewInfoOk(players);
    AcceptedByOk(NewInfo(players), sender);
    var other := if players[0] == sender then players[1] else players[0];
    assert other in Waiting(NewInfo(players)) - {sender};
  }

  /** Putting in an offered match keeps everybody in the table waiting and available. */
  lemma OfferedTable(table: Table, users: Users, id: nat, players: seq<Jid>, sender: Jid)
    requires AllWait(table) && AllAvailable(table, users)
    requires NoRepeats(players) && |players| >= 2 && sender in players
    requires forall k :: 0 <= k < |players| ==> CanPlay(users, players[k])
    ensures sender in NewInfo(players).accepted
    ensures var table' := table[id := AcceptedBy(NewInfo(players), sender)];
      AllWait(table') && AllAvailable(table', users)
  {
    OfferedWaits(players, sender);
    var info := AcceptedBy(NewInfo(players), sender);
    var table' := table[id := info];
    forall i, p | Plays(table', i, p)
      ensures p in users && users[p].available
    {
      if i == id {
        var k :| 0 <= k < |players| && players[k] == p;
        assert CanPlay(users, players[k]);
      } else {
        assert Plays(table, i, p);
      }
    }
  }

  datatype AcceptAnswer = BadRequest | Noted | Started

  /** An offer is taken exactly when all its players can play, the sender is one of them, no account is named twice,
      and a match it takes the place of is known and has the same players. */
  lemma OfferedIff(table: Table, users: Users, sender: Jid, players: seq<Jid>, rematch: int)
    ensures Refusal(table, users, sender, players, rematch).Offered? <==>
      && (forall k :: 0 <= k < |players| ==> CanPlay(users, players[k]))
      && sender in players
      && (forall i, j :: 0 <= i < j < |players| ==>
           players[i].node != players[j].node || players[i].domain != players[j].domain)
      && (rematch == -1 || (rematch in table && multiset(table[rematch].players) == multiset(players)))
    ensures Refusal(table, users, sender, players, rematch) == CannotPlay <==>
      exists k :: 0 <= k < |players| && !CanPlay(users, players[k])
    ensures Refusal(table, users, sender, players, rematch) == NotAmong <==>
      sender !in players && forall k :: 0 <= k < |players| ==> CanPlay(users, players[k])
  {
  }

  class MatchManager {
    const db: MatchDatabase
    var users: Users
    /** The matches for which a game was asked, in order. */
    var started: seq<seq<Jid>>

    ghost predicate Valid()
      reads this, db, db.ids
    {
      db.Valid() && AllWait(db.table) && AllAvailable(db.table, users)
    }

    constructor ()
      ensures Valid() && db.table == map[] && users == map[] && started == []
      ensures fresh(db) && fresh(db.ids)
    {
      db := new MatchDatabase();
      users, started := map[], [];
    }

    /** Closes every match of a player. */
    method CloseMatchesOf(player: Jid)
      requires db.Valid()
      modifies db, db.ids
      ensures db.Valid() && db.table == old(db.table) - MatchesOf(old(db.table), player)
    {
      hide TableOk, Indexed, InfoOk, LiveIds, Stacked;
      ghost var table := db.table;
      var matches := db.GetPlayerMatches(player);
      assert matches == MatchesOf(table, player);
      var todo := matches;
      while todo != {}
        invariant todo <= matches && db.Valid() && db.table == table - (matches - todo)
        decreases |todo|
      {
        var id :| id in todo;
        var players := db.CloseMatch(id);
        todo := todo - {id};
        assert table - (matches - todo) == table - (matches - todo - {id}) - {id};
      }
      assert matches - todo == matches;
    }

    /** Closes a match: declined, or accepted by all, in which case a game is asked for. */
    method CloseMatch(id: nat, accepted: bool)
      requires db.Valid() && id in db.table
      modifies this`started, db, db.ids
      ensures db.Valid() && db.table == old(db.table) - Closing(old(db.table), users, id, accepted)
      ensures started == if accepted then old(started) + [old(db.table)[id].players] else old(started)
    {
      hide TableOk, Indexed, InfoOk, LiveIds, Stacked, MatchesOf, MatchesOfMulti;
      ghost var table := db.table;
      var players := db.CloseMatch(id);
      if accepted {
        MultiNone(table, users, players);
        assert table - {id} == table - ({id} + {});
        for i := 0 to |players|
          invariant db.Valid() && db.table == table - ({id} + MatchesOfMulti(table, users, players, i))
          invariant started == old(started)
        {
          MultiNext(table, users, players, i);
          RestOf(table, {id} + MatchesOfMulti(table, users, players, i), players[i]);
          if IsMultigame(users, players[i]) {
            CloseMatchesOf(players[i]);
          }
          assert {id} + MatchesOfMulti(table, users, players, i) + MatchesOf(table, players[i])
            == {id} + (MatchesOfMulti(table, users, players, i) + MatchesOf(table, players[i]));
          assert MatchesOfMulti(table, users, players, i) + {} == MatchesOfMulti(table, users, players, i);
        }
        started := started + [players];
      } else {
        assert {id} + {} == {id};
      }
    }

    method CheckPlayers(players: seq<Jid>, sender: Jid) returns (can: bool, among: bool)
      ensures can <==> forall k :: 0 <= k < |players| ==> CanPlay(users, players[k])
      ensures can ==> (among <==> sender in players)
    {
      among := false;
      for i := 0 to |players|
        invariant forall k :: 0 <= k < i ==> CanPlay(users, players[k])
        invariant among <==> sender in players[..i]
      {
        assert players[..i + 1] == players[..i] + [players[i]];
        if !CanPlay(users, players[i]) {
          return false, among;
        }
        if players[i] == sender {
          among := true;
        }
      }
      assert players[..|players|] == players;
      can := true;
    }

    method CheckRepeats(players: seq<Jid>) returns (distinct: bool)
      ensures distinct == DistinctAccounts(players)
    {
      for i := 0 to |players|
        invariant forall j, k :: 0 <= j < k < i ==> !SameAccount(players[k], players[j])
      {
        for j := 0 to i
          invariant forall k :: 0 <= k < j ==> !SameAccount(players[i], players[k])
        {
          if SameAccount(players[i], players[j]) {
            return false;
          }
        }
      }
      return true;
    }

    /** An offer, or a rematch when the number of an offered match is given. */
    method ProcessOffer(sender: Jid, players: seq<Jid>, rematch: int) returns (r: OfferAnswer)
      requires Valid() && |players| >= 2
      modifies db, db.ids
      ensures Valid()
      ensures var refusal := Refusal(old(db.table), users, sender, players, rematch);
        if refusal.Offered?
        then
          && r.Offered? && (if rematch == -1 then r.id !in old(db.table) else r.id == rematch)
          && sender in NewInfo(players).accepted
          && db.table == old(db.table)[r.id := AcceptedBy(NewInfo(players), sender)]
        else r == refusal && db.table == old(db.table)
    {
      var can, among := CheckPlayers(players, sender);
      if !can {
        return CannotPlay;
      }
      if !among {
        return NotAmong;
      }
      var distinct := CheckRepeats(players);
      if !distinct {
        return Repeated;
      }
      DistinctMeansNoRepeats(players);
      if rematch != -1 {
        if rematch < 0 || rematch !in db.table {
          return UnknownMatch;
        }
        if multiset(db.table[rematch].players) != multiset(players) {
          return PlayersChanged;
        }
      }
      r := PutOffer(sender, players, rematch);
    }

    /** A valid offer goes into the database, accepted by the one who makes it. */
    method PutOffer(sender: Jid, players: seq<Jid>, rematch: int) returns (r: OfferAnswer)
      requires Valid() && |players| >= 2 && NoRepeats(players) && sender in players
      requires forall k :: 0 <= k < |players| ==> CanPlay(users, players[k])
      requires rematch == -1
        || (rematch >= 0 && rematch in db.table && multiset(db.table[rematch].players) == multiset(players))
      modifies db, db.ids
      ensures Valid() && r.Offered? && (if rematch == -1 then r.id !in old(db.table) else r.id == rematch)
      ensures sender in NewInfo(players).accepted
      ensures db.table == old(db.table)[r.id := AcceptedBy(NewInfo(players), sender)]
    {
      hide TableOk, Indexed, InfoOk, LiveIds, Stacked, AllWait, AllAvailable, NoRepeats, CanPlay, AcceptedBy;
      ghost var table := db.table;
      PlayersOfNew(players);
      var id: nat;
      if rematch != -1 {
        id := rematch;
        SamePlayers(db.table[id].players, players);
        db.ReplaceMatch(id, players);
      } else {
        id := db.InsertMatch(players);
      }
      OfferedTable(table, users, id, players, sender);
      var ok := db.AcceptMatch(id, sender);
      assert db.table == table[id := AcceptedBy(NewInfo(players), sender)];
      r := Offered(id);
    }

    /** A player accepts; when nobody is left to wait for, the match closes and a game is asked for. */
    method HandleAccept(id: nat, player: Jid) returns (r: AcceptAnswer)
      requires Valid()
      modifies this`started, db, db.ids
      ensures Valid()
      ensures r == BadRequest <==> !Plays(old(db.table), id, player)
      ensures r == BadRequest ==> db.table == old(db.table) && started == old(started)
      ensures r != BadRequest ==> player in old(db.table)[id].accepted
      ensures r == Noted ==>
        db.table == old(db.table)[id := AcceptedBy(old(db.table)[id], player)] && started == old(started)
      ensures r == Started <==> Plays(old(db.table), id, player) && Waiting(old(db.table)[id]) == {player}
      ensures r == Started ==>
        db.table == old(db.table) - Closing(old(db.table), users, id, true)
        && started == old(started) + [old(db.table)[id].players]
    {
      hide TableOk, Indexed, LiveIds, Stacked, AllAvailable, MatchesOfMulti, NoRepeats;
      ghost var table := db.table;
      KnownPlayer(table, id, player);
      var ok := db.AcceptMatch(id, player);
      if !ok {
        return BadRequest;
      }
      AcceptedTable(table, users, id, player);
      var done := db.IsDone(id);
      if done == Found(true) {
        ghost var gone := Closing(db.table, users, id, true);
        FewerMatches(table, users, gone);
        CloseMatch(id, true);
        r := Started;
      } else {
        r := Noted;
      }
    }

    /** A player declines: the match closes. */
    method HandleDecline(id: nat, player: Jid) returns (ok: bool)
      requires Valid()
      modifies this`started, db, db.ids
      ensures Valid() && started == old(started)
      ensures ok == Plays(old(db.table), id, player)
      ensures db.table == if ok then old(db.table) - {id} else old(db.table)
    {
      hide TableOk, Indexed, LiveIds, Stacked, AllAvailable, InfoOk, AllWait;
      var has := db.HasPlayer(id, player);
      if has != Found(true) {
        return false;
      }
      FewerMatches(db.table, users, {id});
      assert Closing(db.table, users, id, false) == {id};
      CloseMatch(id, false);
      ok := true;
    }

    /** A user's status changes; a user who leaves takes all offers along. */
    method HandleUserStatus(user: Jid, status: UserStatus)
      requires Valid()
      modifies this`users, db, db.ids
      ensures Valid() && users == old(users)[user := status]
      ensures db.table == if status.available then old(db.table) else old(db.table) - MatchesOf(old(db.table), user)
    {
      hide TableOk, Indexed, LiveIds, Stacked, InfoOk;
      ghost var table := db.table;
      users := users[user := status];
      if !status.available {
        CloseMatchesOf(user);
      }
      assert forall id, p :: Plays(db.table, id, p) ==> Plays(table, id, p) && (p == user ==> status.available);
    }
  }

  lemma KnownPlayer(table: Table, id: nat, player: Jid)
    requires TableOk(table)
    ensures id in table && player in table[id].players ==> player in table[id].accepted
  {
  }

  /** An acceptance leaves fewer players to wait for, and changes nothing about who is in which match. */
  lemma AcceptedTable(table: Table, users: Users, id: nat, player: Jid)
    requires TableOk(table) && AllWait(table) && AllAvailable(table, users)
    requires id in table && player in table[id].players && player in table[id].accepted
    ensures var table' := table[id := AcceptedBy(table[id], player)];
      && Waiting(table'[id]) == Waiting(table[id]) - {player}
      && (Waiting(table'[id]) == {} <==> Waiting(table[id]) == {player})
      && (Waiting(table'[id]) != {} ==> AllWait(table'))
      && AllAvailable(table', users)
      && Closing(table', users, id, true) == Closing(table, users, id, true)
      && table' - Closing(table', users, id, true) == table - Closing(table, users, id, true)
  {
    hide InfoOk, AcceptedBy, Waiting, Closing, Plays;
    AcceptedOne(table, id, player);
    var table' := table[id := AcceptedBy(table[id], player)];
    AcceptedAvailable(table, table', users, id);
    SameClosing(table, table', users, id);
  }

  lemma AcceptedOne(table: Table, id: nat, player: Jid)
    requires TableOk(table) && id in table && player in table[id].players && player in table[id].accepted
    ensures var info := AcceptedBy(table[id], player);
      info.players == table[id].players && Waiting(info) == Waiting(table[id]) - {player}
    ensures AllWait(table) ==> (Waiting(AcceptedBy(table[id], player)) == {} <==> Waiting(table[id]) == {player})
  {
    assert InfoOk(table[id]);
    AcceptedByOk(table[id], player);
  }

  lemma AcceptedAvailable(table: Table, table': Table, users: Users, id: nat)
    requires AllAvailable(table, users) && id in table && id in table' && table' == table[id := table'[id]]
    requires table'[id].players == table[id].players
    ensures AllAvailable(table', users)
  {
    forall i, p | Plays(table', i, p)
      ensures p in users && users[p].available
    {
      assert Plays(table, i, p);
    }
  }

  lemma SameClosing(table: Table, table': Table, users: Users, id: nat)
    requires table'.Keys == table.Keys && id in table
    requires forall i :: i in table ==> table'[i].players == table[i].players
    requires forall i :: i in table && i != id ==> table'[i] == table[i]
    ensures Closing(table', users, id, true) == Closing(table, users, id, true)
    ensures table' - Closing(table', users, id, true) == table - Closing(table, users, id, true)
  {
    assert MatchesOfMulti(table', users, table[id].players, |table[id].players|)
      == MatchesOfMulti(table, users, table[id].players, |table[id].players|);
  }

  lemma SamePlayers(a: seq<Jid>, b: seq<Jid>)
    requires multiset(a) == multiset(b)
    ensures forall p :: p in b <==> p in a
  {
    forall p
      ensures p in b <==> p in a
    {
      assert p in a <==> p in multiset(a);
      assert p in b <==> p in multiset(b);
    }
  }
}
