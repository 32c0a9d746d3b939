/** The offered matches: a table by id, an index from players to ids, and the ids in use. */
module MatchDatabases {
  import opened IdSets

  /** Address of a user. */
  datatype Jid = Jid(node: string, domain: string, resource: string)

  /** The same account, whatever the resource. */
  predicate SameAccount(a: Jid, b: Jid) {
    a.node == b.node && a.domain == b.domain
  }

  /** An offered match: who plays, who has accepted, and how many have not. */
  datatype MatchInfo = MatchInfo(players: seq<Jid>, accepted: map<Jid, bool>, pending: int)

  predicate NoRepeats(players: seq<Jid>) {
    forall i, j :: 0 <= i < j < |players| ==> players[i] != players[j]
  }

  /** The players who have not accepted. */
  function Waiting(info: MatchInfo): set<Jid> {
    set p | p in info.accepted && !info.accepted[p]
  }

  ghost predicate InfoOk(info: MatchInfo) {
    && NoRepeats(info.players) && info.accepted.Keys == (set p | p in info.players)
    && info.pending == |Waiting(info)|
  }

  type Table = map<nat, MatchInfo>
  type Index = map<Jid, set<nat>>

  function IdsOf(index: Index, p: Jid): set<nat> {
    if p in index then index[p] else {}
  }

  ghost predicate Plays(table: Table, id: nat, p: Jid) {
    id in table && p in table[id].players
  }

  /** A player is listed under exactly the matches the player is in. */
  ghost predicate Indexed(table: Table, index: Index) {
    forall p, id :: id in IdsOf(index, p) <==> Plays(table, id, p)
  }

  ghost predicate TableOk(table: Table) {
    forall id :: id in table ==> InfoOk(table[id])
  }

  /** The index with a match listed, or not listed, under each of some players. */
  function Listed(index: Index, players: seq<Jid>, id: nat): Index {
    if players == [] then index
    else
      var before := Listed(index, players[..|players| - 1], id);
      var p := players[|players| - 1];
      before[p := IdsOf(before, p) + {id}]
  }

  function Unlisted(index: Index, players: seq<Jid>, id: nat): Index {
    if players == [] then index
    else
      var before := Unlisted(index, players[..|players| - 1], id);
      var p := players[|players| - 1];
      before[p := IdsOf(before, p) - {id}]
  }

  lemma {:induction false} ListedHas(index: Index, players: seq<Jid>, id: nat, p: Jid, i: nat)
    ensures i in IdsOf(Listed(index, players, id), p) <==> i in IdsOf(index, p) || (i == id && p in players)
    decreases |players|
  {
    if players != [] {
      var n := |players| - 1;
      assert players == players[..n] + [players[n]];
      ListedHas(index, players[..n], id, p, i);
      ListedHas(index, players[..n], id, players[n], i);
    }
  }

  lemma {:induction false} UnlistedHas(index: Index, players: seq<Jid>, id: nat, p: Jid, i: nat)
    ensures i in IdsOf(Unlisted(index, players, id), p) <==> i in IdsOf(index, p) && !(i == id && p in players)
    decreases |players|
  {
    if players != [] {
      var n := |players| - 1;
      assert players == players[..n] + [players[n]];
      UnlistedHas(index, players[..n], id, p, i);
      UnlistedHas(index, players[..n], id, players[n], i);
    }
  }

  lemma InsertIndexed(table: Table, index: Index, id: nat, info: MatchInfo)
    requires Indexed(table, index) && id !in table
    ensures Indexed(table[id := info], Listed(index, info.players, id))
  {
    forall p, i
      ensures i in IdsOf(Listed(index, info.players, id), p) <==> Plays(table[id := info], i, p)
    {
      ListedHas(index, info.players, id, p, i);
      assert i in IdsOf(index, p) <==> Plays(table, i, p);
    }
  }

  lemma RemoveIndexed(table: Table, index: Index, id: nat)
    requires Indexed(table, index) && id in table
    ensures Indexed(table - {id}, Unlisted(index, table[id].players, id))
  {
    forall p, i
      ensures i in IdsOf(Unlisted(index, table[id].players, id), p) <==> Plays(table - {id}, i, p)
    {
      UnlistedHas(index, table[id].players, id, p, i);
      assert i in IdsOf(index, p) <==> Plays(table, i, p);
    }
  }

  /** Replacing a match leaves the index alone, which stays right exactly when the players are the same. */
  lemma ReplaceIndexed(table: Table, index: Index, id: nat, info: MatchInfo)
    requires Indexed(table, index) && id in table
    ensures Indexed(table[id := info], index) <==> forall p :: p in info.players <==> p in table[id].players
  {
    var table' := table[id := info];
    if Indexed(table', index) {
      forall p
        ensures p in info.players <==> p in table[id].players
      {
        assert id in IdsOf(index, p) <==> Plays(table, id, p);
        assert id in IdsOf(index, p) <==> Plays(table', id, p);
      }
    }
    if forall p :: p in info.players <==> p in table[id].players {
      forall p, i
        ensures i in IdsOf(index, p) <==> Plays(table', i, p)
      {
        assert i in IdsOf(index, p) <==> Plays(table, i, p);
      }
    }
  }

  // ----- a new match and its acceptances -----

  /** Nobody has accepted yet. */
  function NewInfo(players: seq<Jid>): MatchInfo {
    MatchInfo(players, map p | p in players :: false, |players|)
  }

  lemma {:induction false} SetOfDistinct(players: seq<Jid>)
    requires NoRepeats(players)
    ensures |set p | p in players| == |players|
    decreases |players|
  {
    if players != [] {
      var n := |players| - 1;
      assert players == players[..n] + [players[n]];
      SetOfDistinct(players[..n]);
      assert (set p | p in players) == (set p | p in players[..n]) + {players[n]};
    }
  }

  lemma NewInfoOk(players: seq<Jid>)
    requires NoRepeats(players)
    ensures InfoOk(NewInfo(players)) && Waiting(NewInfo(players)) == (set p | p in players)
  {
    SetOfDistinct(players);
    assert Waiting(NewInfo(players)) == (set p | p in players);
  }

  /** The record after a player has accepted, once or again. */
  function AcceptedBy(info: MatchInfo, p: Jid): MatchInfo
    requires p in info.accepted
  {
    if info.accepted[p] then info else info.(accepted := info.accepted[p := true], pending := info.pending - 1)
  }

  lemma AcceptedByOk(info: MatchInfo, p: Jid)
    requires InfoOk(info) && p in info.accepted
    ensures InfoOk(AcceptedBy(info, p)) && AcceptedBy(info, p).players == info.players
    ensures Waiting(AcceptedBy(info, p)) == Waiting(info) - {p}
  {
    assert Waiting(AcceptedBy(info, p)) == Waiting(info) - {p};
  }

  /** Answer of a query about a match: the source throws when there is no such match. */
  datatype Lookup = NoMatch | Found(yes: bool)

  method MakeInfo(players: seq<Jid>) returns (info: MatchInfo)
    ensures info == NewInfo(players)
  {
    var accepted: map<Jid, bool> := map[];
    var pending := 0;
    for i := 0 to |players|
      invariant accepted == (map p | p in players[..i] :: false) && pending == i
    {
      assert players[..i + 1] == players[..i] + [players[i]];
      accepted := accepted[players[i] := false];
      pending := pending + 1;
    }
    assert players[..|players|] == players;
    info := MatchInfo(players, accepted, pending);
  }

  class MatchDatabase {
    const ids: IdSet
    var table: Table
    var index: Index

    /** Table, index and allocator agree. */
    ghost predicate Valid()
      reads this, ids
    {
      ids.Valid() && ids.Live() == table.Keys && TableOk(table) && Indexed(table, index)
    }

    constructor ()
      ensures Valid() && table == map[] && fresh(ids)
    {
      table, index := map[], map[];
      ids := new IdSet();
    }

    method InsertMatch(players: seq<Jid>) returns (id: nat)
      requires Valid() && NoRepeats(players)
      modifies this, ids
      ensures Valid() && id !in old(table) && table == old(table)[id := NewInfo(players)]
    {
      hide Stacked, LiveIds, InfoOk, Indexed, Listed, NoRepeats, NewInfo, IdsOf, TableOk;
      NewInfoOk(players);
      id := ids.AcquireId();
      var info := MakeInfo(players);
      InsertIndexed(table, index, id, info);
      TableWith(table, id, info);
      PlayersOfNew(players);
      table := table[id := info];
      var before := index;
      ListedNone(before, players, id);
      for i := 0 to |players|
        invariant index == Listed(before, players[..i], id)
        modifies this`index
      {
        ListedNext(before, players, id, i);
        index := index[players[i] := IdsOf(index, players[i]) + {id}];
      }
      assert players[..|players|] == players;
    }

    /** A rematch takes the place of a match; everybody has to accept again. The index is not touched, so the
        database stays in order exactly when the players are the same, as its one caller sees to. */
    method ReplaceMatch(id: nat, players: seq<Jid>)
      requires Valid() && id in table && NoRepeats(players)
      modifies this`table
      ensures table == old(table)[id := NewInfo(players)]
      ensures Valid() <==> forall p :: p in players <==> p in old(table)[id].players
    {
      hide Stacked, LiveIds, InfoOk, Indexed, NoRepeats, NewInfo, TableOk;
      NewInfoOk(players);
      PlayersOfNew(players);
      var info := MakeInfo(players);
      TableWith(table, id, info);
      ReplaceIndexed(table, index, id, info);
      table := table[id := info];
    }

    /** A player accepts; refused when there is no such match or the player is not in it. */
    method AcceptMatch(id: nat, player: Jid) returns (ok: bool)
      requires Valid()
      modifies this`table
      ensures Valid()
      ensures ok == (id in table && player in old(table)[id].players)
      ensures table == if ok then old(table)[id := AcceptedBy(old(table)[id], player)] else old(table)
    {
      hide Stacked, LiveIds, Indexed, NoRepeats;
      if id !in table {
        return false;
      }
      var info := table[id];
      if player !in info.accepted {
        return false;
      }
      AcceptedByOk(info, player);
      ReplaceIndexed(table, index, id, AcceptedBy(info, player));
      if !info.accepted[player] {
        info := info.(pending := info.pending - 1);
        info := info.(accepted := info.accepted[player := true]);
      }
      table := table[id := info];
      ok := true;
    }

    /** Everybody has accepted. */
    method IsDone(id: nat) returns (done: Lookup)
      requires Valid()
      ensures done == if id in table then Found(Waiting(table[id]) == {}) else NoMatch
    {
      if id !in table {
        return NoMatch;
      }
      assert InfoOk(table[id]);
      return Found(table[id].pending == 0);
    }

    method HasPlayer(id: nat, player: Jid) returns (has: Lookup)
      requires Valid()
      ensures has == if id in table then Found(player in table[id].players) else NoMatch
    {
      if id !in table {
        return NoMatch;
      }
      assert InfoOk(table[id]);
      return Found(player in table[id].accepted);
    }

    /** The matches of a player; asking for them leaves an empty entry for a player without any. */
    method GetPlayerMatches(player: Jid) returns (matches: set<nat>)
      requires Valid()
      modifies this`index
      ensures Valid() && table == old(table)
      ensures forall id :: id in matches <==> Plays(table, id, player)
    {
      matches := IdsOf(index, player);
      AskedIndexed(table, index, player);
      index := index[player := matches];
    }

    /** Takes a match out of the table, the index and the ids in use. */
    method CloseMatch(id: nat) returns (players: seq<Jid>)
      requires Valid() && id in table
      modifies this, ids
      ensures Valid() && players == old(table)[id].players && table == old(table) - {id}
    {
      hide Stacked, LiveIds, InfoOk, Indexed, Unlisted, NoRepeats, IdsOf, TableOk;
      RemoveIndexed(table, index, id);
      TableWithout(table, id);
      players := table[id].players;
      var before := index;
      UnlistedNone(before, players, id);
      for i := 0 to |players|
        invariant index == Unlisted(before, players[..i], id)
        modifies this`index
      {
        UnlistedNext(before, players, id, i);
        index := index[players[i] := IdsOf(index, players[i]) - {id}];
      }
      assert players[..|players|] == players;
      ids.ReleaseId(id);
      table := table - {id};
    }
  }

  lemma TableWith(table: Table, id: nat, info: MatchInfo)
    requires TableOk(table) && InfoOk(info)
    ensures TableOk(table[id := info]) && table[id := info].Keys == table.Keys + {id}
  {
  }

  lemma TableWithout(table: Table, id: nat)
    requires TableOk(table)
    ensures TableOk(table - {id}) && (table - {id}).Keys == table.Keys - {id}
  {
  }

  lemma PlayersOfNew(players: seq<Jid>)
    ensures NewInfo(players).players == players
  {
  }

  lemma ListedNone(index: Index, players: seq<Jid>, id: nat)
    ensures Listed(index, players[..0], id) == index
  {
  }

  lemma ListedNext(index: Index, players: seq<Jid>, id: nat, i: nat)
    requires i < |players|
    ensures var before := Listed(index, players[..i], id);
      Listed(index, players[..i + 1], id) == before[players[i] := IdsOf(before, players[i]) + {id}]
  {
    assert players[..i + 1][..i] == players[..i];
  }

  lemma UnlistedNone(index: Index, players: seq<Jid>, id: nat)
    ensures Unlisted(index, players[..0], id) == index
  {
  }

  lemma UnlistedNext(index: Index, players: seq<Jid>, id: nat, i: nat)
    requires i < |players|
    ensures var before := Unlisted(index, players[..i], id);
      Unlisted(index, players[..i + 1], id) == before[players[i] := IdsOf(before, players[i]) - {id}]
  {
    assert players[..i + 1][..i] == players[..i];
  }

  lemma AskedIndexed(table: Table, index: Index, player: Jid)
    requires Indexed(table, index)
    ensures Indexed(table, index[player := IdsOf(index, player)])
    ensures forall id :: id in IdsOf(index, player) <==> Plays(table, id, player)
  {
  }
}
