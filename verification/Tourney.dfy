/** The tournament object: its players, their order, and the backtracking pairing on them. */
module Tourney {
  import opened Swiss
  import opened SwissSearch
  import opened SwissRecords
  import opened SwissMirror
  import opened SwissOffsets
  import opened SwissRounds
  import opened SwissDraw
  import opened SwissColours
  import opened SwissAssignments
  import opened SwissTallies

  class Tourney {
    /** The players by name, and the names in list order. */
    var players: Players
    var playerList: seq<int>
    /** The names in sorted order, and the position of each name in it. */
    var sortList: seq<int>
    var place: map<int, int>
    var pairedPlayers: seq<(int, nat)>
    var potentialOpponentList: seq<int>
    /** The games of the round under way. */
    var gameList: seq<TourneyGame>
    /** How many results were recorded so far. */
    ghost var recorded: nat

    /** What holds between calls. */
    ghost predicate Valid()
      reads this
    {
      Books(players, playerList, gameList, recorded) && Tallies(players)
    }

    constructor ()
      ensures Valid() && playerList == [] && gameList == [] && recorded == 0
    {
      players, playerList, sortList, place := map[], [], [], map[];
      pairedPlayers, potentialOpponentList, gameList, recorded := [], [], [], 0;
    }

    method AddPlayer(name: int, rating: int)
      requires Valid() && gameList == [] && BYE !in playerList
      requires name > 0 && name !in playerList && rating >= 0
      modifies this`players, this`playerList
      ensures Valid() && playerList == old(playerList) + [name]
      ensures players == old(players)[name := NewPlayer(name, rating, 0)]
    {
      NewcomerKeepsBooks(players, playerList, name, rating, recorded);
      NewcomerTallied(players, name, rating);
      playerList := playerList + [name];
      players := players[name := NewPlayer(name, rating, 0)];
    }

    // ----- preparing a round -----

    /** Replaces the bye of the round before and takes everybody out of their pairs. */
    method UnpairAndCheckBye() returns (playerCount: int)
      requires Roster(players, playerList)
      modifies this`players, this`playerList
      ensures playerList == WithBye(old(playerList)) && players == RoundPlayers(old(players), old(playerList))
      ensures playerCount == |playerList|
    {
      hide *;
      ghost var ps, listing := players, playerList;
      RemoveBye();
      WithoutBye(ps, listing, playerList, players);
      playerCount := |playerList|;
      if playerCount % 2 == 1 {
        playerList := playerList + [BYE];
        players := players[BYE := NewPlayer(BYE, 0, 0)];
        playerCount := playerCount + 1;
      }
    }

    method RemoveBye()
      requires Roster(players, playerList)
      modifies this`players, this`playerList
      ensures Stripped(UnpairedUpTo(old(players), old(playerList), |old(playerList)|), old(playerList), playerList,
        players)
    {
      hide Roster, UnpairedUpTo;
      var byePos := UnpairAndFindBye();
      if byePos >= 0 {
        playerList := playerList[..byePos] + playerList[byePos + 1..];
        players := players - {BYE};
      }
    }

    /** Takes everybody out of their pairs and says where in the list the bye is, or -1. */
    method UnpairAndFindBye() returns (byePos: int)
      requires Roster(players, playerList)
      modifies this`players
      ensures players == UnpairedUpTo(old(players), playerList, |playerList|)
      ensures HasBye(playerList) ==> byePos == |playerList| - 1 >= 0
      ensures !HasBye(playerList) ==> byePos == -1
    {
      hide Distinct, Unpaired;
      ghost var ps, listing := players, playerList;
      byePos := -1;
      NoneUnpaired(ps, listing);
      for i := 0 to |playerList|
        invariant players == UnpairedUpTo(ps, listing, i)
        invariant byePos == if i > 0 && listing[i - 1] == BYE then i - 1 else -1
      {
        UnpairNext(ps, listing, i);
        players := players[playerList[i] := Unpaired(players[playerList[i]])];
        if playerList[i] == BYE {
          byePos := i;
        }
      }
    }

    /** Takes everybody out of their pairs. */
    method UnpairAll()
      requires Roster(players, playerList)
      modifies this`players
      ensures players == UnpairedUpTo(old(players), playerList, |playerList|) && players.Keys == old(players).Keys
    {
      ghost var ps := players;
      NoneUnpaired(ps, playerList);
      assert UnpairedUpTo(ps, playerList, |playerList|).Keys == ps.Keys;
      hide UnpairedUpTo, Roster;
      for i := 0 to |playerList|
        invariant players == UnpairedUpTo(ps, playerList, i)
      {
        UnpairNext(ps, playerList, i);
        players := players[playerList[i] := Unpaired(players[playerList[i]])];
      }
    }

    /** The search problem the fields describe. */
    ghost function TheField(): Field
      reads this
    {
      Field(AllPlain(players), place, playerList, sortList)
    }

    /** Sorts the names by score and rating and numbers them. */
    method SortPlayers()
      requires Within(players, playerList)
      modifies this`sortList, this`place
      ensures sortList == SortOrder(players, playerList)
      ensures Within(place, sortList)
      ensures Distinct(sortList) ==> forall i :: 0 <= i < |sortList| ==> place[sortList[i]] == i
    {
      var entries: seq<Entry> := [];
      for i := 0 to |playerList|
        invariant entries == SortEntries(players, playerList)[..i]
      {
        entries := entries + [Entry(playerList[i], -SortValue(players[playerList[i]]))];
      }
      assert entries == SortEntries(players, playerList);
      sortList := Names(Sorted(entries));
      place := map[];
      ghost var order := sortList;
      for i := 0 to |sortList|
        invariant sortList == order
        invariant forall k :: 0 <= k < i ==> sortList[k] in place
        invariant Distinct(sortList) ==> forall k :: 0 <= k < i ==> place[sortList[k]] == k
      {
        place := place[sortList[i] := i];
      }
    }

    /** Some order by score and rating; nothing is promised about ties. */
    method SortByScoreAndRating() returns (order: seq<int>)
      requires Within(players, playerList) && Distinct(playerList)
      ensures Ranking(players, playerList, order)
    {
      order := [];
      hide NotAfter, Ascends, Distinct, Ranking;
      NobodyAscends(players);
      for i := 0 to |playerList|
        invariant multiset(order) == multiset(playerList[..i])
        invariant Ascends(players, order)
      {
        var x := playerList[i];
        var k := 0;
        while k < |order| && NotAfter(players[order[k]], players[x])
          invariant 0 <= k <= |order|
          invariant forall j :: 0 <= j < k ==> NotAfter(players[order[j]], players[x])
        {
          k := k + 1;
        }
        InsertAscends(players, order, k, x);
        InsertHasAll(order, k, x);
        assert playerList[..i + 1] == playerList[..i] + [x];
        order := order[..k] + [x] + order[k..];
      }
      assert playerList[..|playerList|] == playerList;
      RankingFrom(players, playerList, order);
    }

    /** The places of the players of one group, counted from its end. */
    method SetPlaces(order: seq<int>, beg: nat, j: nat, places: array<int>, ghost ps: Players)
      requires Ranking(ps, playerList, order) && Group(ps, order, beg, j) && places.Length > |order|
      requires SameStandings(ps, players)
      modifies places
      ensures forall k :: beg <= k < j ==> places[k] == PlaceIn(ps, order, j, k)
    {
      places[j - 1] := 1;
      var tmp := 1;
      var i := j - 2;
      PlacingStarts(ps, order, beg, j, places[..]);
      hide Ranking, Group, SameStandings, Placing;
      while i >= beg
        invariant beg - 1 <= i <= j - 2 && Placing(ps, order, j, i, places[..], tmp)
      {
        PlacingStep(ps, players, playerList, order, beg, j, i, places[..], tmp);
        ghost var before := places[..];
        if players[order[i]].rating == players[order[i + 1]].rating {
          places[i] := places[i + 1];
        } else {
          places[i] := places[i + 1] + tmp;
          tmp := 0;
        }
        assert places[..] == before[i := places[i]];
        tmp := tmp + 1;
        i := i - 1;
      }
      PlacingEnds(ps, order, beg, j, places[..], tmp);
    }

    /** The offsets of the players of one group, from its size and their places. */
    method SetGroupOffsets(order: seq<int>, beg: nat, j: nat, count: nat, places: array<int>, ghost ps: Players)
      requires Ranking(ps, playerList, order) && Group(ps, order, beg, j) && places.Length > |order|
      requires count == j - beg && forall k :: beg <= k < j ==> places[k] == PlaceIn(ps, order, j, k)
      requires players == OffsetsUpTo(ps, playerList, order, beg)
      modifies this`players
      ensures players == OffsetsUpTo(ps, playerList, order, j)
    {
      hide Ranking, OffsetsUpTo, PlaceIn, ComparedOffset;
      for k := beg to j
        invariant players == OffsetsUpTo(ps, playerList, order, k)
      {
        var offset := count + 1;
        if offset % 2 == 0 {
          offset := offset - 1;
        }
        offset := offset / 2;
        GroupOffset(ps, playerList, order, beg, j, k);
        NextOffset(ps, playerList, order, k);
        if places[k] > offset {
          players := players[order[k] := players[order[k]].(offset := -offset)];
        } else {
          players := players[order[k] := players[order[k]].(offset := offset)];
        }
      }
    }

    /** The scan over the sorted players: whenever the score changes, the group before it is finished. */
    method SetOffsets()
      requires Within(players, playerList) && Distinct(playerList)
      requires forall k :: 0 <= k < |playerList| ==> players[playerList[k]].score >= 0
      modifies this`players
      ensures players == WithOffsets(old(players), playerList)
    {
      ghost var ps := players;
      var order := SortByScoreAndRating();
      var n := |order|;
      var places := new int[n + 1];
      var score: int, count: nat, beg: nat := -2, 0, 0;
      NoOffsets(ps, playerList, order);
      hide OffsetsUpTo, Ranking, Group, NotAfter, Distinct, Within, WithOffsets;
      for j := 0 to n + 1
        invariant beg <= n && players == OffsetsUpTo(ps, playerList, order, beg)
        invariant j <= n ==> Scanned(ps, order, beg, j, score, count)
        invariant j == n + 1 ==> beg == n
      {
        var next := if j < n then players[order[j]].score else -2;
        ScanStep(ps, playerList, order, beg, j, score, count);
        if next != score {
          if j != 0 {
            SetPlaces(order, beg, j, places, ps);
            SetGroupOffsets(order, beg, j, count, places, ps);
          }
          beg := j;
          score := next;
          count := 0;
        }
        count := count + 1;
      }
      AllOffsets(ps, playerList, order);
    }

    method SetPairingScores(x: int)
      requires x in players && x in place && Within(players, playerList) && Within(place, playerList)
      modifies this`potentialOpponentList
      ensures potentialOpponentList == Choices(players, place, playerList, x, Taken(players))
    {
      var entries: seq<Entry> := [];
      ghost var whole := Open(players, place, playerList, x, Taken(players));
      for i := 0 to |playerList|
        invariant entries + Open(players, place, playerList[i..], x, Taken(players)) == whole
      {
        var y := playerList[i];
        assert playerList[i..][0] == y && playerList[i..][1..] == playerList[i + 1..];
        ghost var rest := Open(players, place, playerList[i + 1..], x, Taken(players));
        if x == y {
          continue;
        }
        if players[y].paired {
          continue;
        }
        if AlreadyPlayed(players[x].opponents, y) > 0 {
          continue;
        }
        var e := Entry(y, PairingScore(players, place, x, y));
        assert entries + ([e] + rest) == (entries + [e]) + rest;
        entries := entries + [e];
      }
      assert entries == whole;
      potentialOpponentList := Names(Sorted(entries));
    }

    method FindBestOpponent(x: int) returns (opponent: int, found: bool)
      requires x in players && players[x].oppChoice < |potentialOpponentList| && Within(players, potentialOpponentList)
      ensures opponent == potentialOpponentList[players[x].oppChoice] && found == !players[opponent].paired
    {
      opponent := potentialOpponentList[players[x].oppChoice];
      found := !players[opponent].paired;
    }

    /** Offers are free, so the first one not tried yet is taken; there is none when all were tried. */
    method TryToPair(x: int) returns (ok: bool, opponent: int)
      requires x in players && x in place && Within(players, playerList) && Within(place, playerList)
      modifies this`potentialOpponentList, this`players
      ensures potentialOpponentList == Choices(old(players), place, playerList, x, Taken(old(players)))
      ensures players == old(players)
      ensures ok == (players[x].oppChoice < |potentialOpponentList|)
      ensures ok ==> opponent == potentialOpponentList[players[x].oppChoice]
    {
      SetPairingScores(x);
      ghost var before, offer := players, potentialOpponentList;
      OfferedAreKnown(players, place, playerList, x, Taken(players));
      opponent := 0;
      while players[x].oppChoice < |potentialOpponentList|
        invariant potentialOpponentList == offer
        invariant x in players && before[x].oppChoice <= players[x].oppChoice
        invariant players == before[x := before[x].(oppChoice := players[x].oppChoice)]
        invariant forall k :: before[x].oppChoice <= k < players[x].oppChoice && k < |potentialOpponentList| ==>
          before[potentialOpponentList[k]].paired
        invariant players[x].oppChoice <= |potentialOpponentList| || players[x].oppChoice == before[x].oppChoice
        decreases |potentialOpponentList| - players[x].oppChoice
      {
        var found;
        opponent, found := FindBestOpponent(x);
        if found {
          break;
        }
        players := players[x := players[x].(oppChoice := players[x].oppChoice + 1)];
      }
      OfferedAreFree(before, place, playerList, x, Taken(before));
      NoneSkipped(before, players, x, potentialOpponentList);
      if players[x].oppChoice >= |potentialOpponentList| {
        return false, opponent;
      }
      return true, opponent;
    }

    method PopLastPairedPlayer() returns (last: int)
      modifies this`pairedPlayers
      ensures old(pairedPlayers) == [] ==> last == -1 && pairedPlayers == []
      ensures old(pairedPlayers) != [] ==>
        last == old(pairedPlayers)[|old(pairedPlayers)| - 1].1
        && pairedPlayers == old(pairedPlayers)[..|old(pairedPlayers)| - 1]
    {
      last := -1;
      if pairedPlayers != [] {
        last := pairedPlayers[|pairedPlayers| - 1].1;
        pairedPlayers := pairedPlayers[..|pairedPlayers| - 1];
      }
    }

    method PairPlayers(p1: int, p2: int)
      requires p1 in players && p2 in players && p1 != p2
      modifies this`players
      ensures players == PairUp(old(players), p1, p2, old(players)[p1].oppChoice)
    {
      var r1, r2 := players[p1].rating, players[p2].rating;
      players := players[p1 := players[p1].(opponents := players[p1].opponents + [Opponent(p2, NO_RESULT, false, r2)])];
      players := players[p1 := players[p1].(paired := true)];
      players := players[p1 := players[p1].(oppName := p2)];
      players := players[p2 := players[p2].(opponents := players[p2].opponents + [Opponent(p1, NO_RESULT, false, r1)])];
      players := players[p2 := players[p2].(paired := true)];
      players := players[p2 := players[p2].(oppName := p1)];
    }

    /** Takes back the last pairing of two players, on both sides. */
    method UndoPair(p1: int, p2: int)
      requires p1 in players && p2 in players && p1 != p2
      requires players[p1].opponents != [] && players[p2].opponents != []
      modifies this`players
      ensures players == Undo(old(players), p1, p2)
    {
      players := players[p1 := players[p1].(opponents := players[p1].opponents[..|players[p1].opponents| - 1])];
      players := players[p2 := players[p2].(opponents := players[p2].opponents[..|players[p2].opponents| - 1])];
      players := players[p1 := players[p1].(paired := false)];
      players := players[p2 := players[p2].(paired := false)];
    }

    /** Undoes the pairing made last and moves its chooser on to the next offer. */
    method StepBack(ghost f: Field, ghost stack: seq<Frame>) returns (i: int, tp: int)
      requires Mirrors(players, f, stack) && Remembers(pairedPlayers, f, stack) && f.order == sortList
      modifies this`players, this`pairedPlayers
      ensures stack == [] ==> i < 0 && players == old(players)
      ensures stack != [] ==> i == Top(stack).i && StackOk(f, Below(stack))
      ensures stack != [] ==> Choosing(players, pairedPlayers, f, Below(stack), i, tp)
      ensures stack != [] ==> players[tp].oppChoice == Top(stack).k + 1
      ensures stack != [] ==> Top(stack).taken == TakenBy(f, Below(stack))
    {
      hide Mirrors, AllPlain, Records, TakenBy;
      tp := 0;
      i := PopLastPairedPlayer();
      if i < 0 {
        return;
      }
      ghost var top, below := stack[|stack| - 1], stack[..|stack| - 1];
      MirrorsPop(players, f, stack);
      tp := sortList[i];
      var opponent := players[tp].oppName;
      UndoPair(tp, opponent);
      ResetChoice(players, tp, players[tp].oppChoice + 1);
      players := players[tp := players[tp].(oppChoice := players[tp].oppChoice + 1)];
    }

    /** TryToPair in the midst of a search: the next offer of the player at position `i`. */
    method NextOffer(i: nat, tp: int, ghost f: Field, ghost stack: seq<Frame>) returns (ok: bool, opponent: int)
      requires Choosing(players, pairedPlayers, f, stack, i, tp)
      requires f.order == sortList && f.place == place && f.listing == playerList
      modifies this`potentialOpponentList, this`players
      ensures players == old(players)
      ensures ok == (players[tp].oppChoice < |Offer(f, i, TakenBy(f, stack))|)
      ensures ok ==> opponent == Offer(f, i, TakenBy(f, stack))[players[tp].oppChoice]
    {
      ghost var plain := players[tp := players[tp].(oppChoice := 0)];
      MirrorsOffer(plain, f, stack, i);
      OfferIgnoresChoice(players, plain, f, tp);
      ok, opponent := TryToPair(tp);
    }

    /** Pairs the chooser at position `i` with the offer it took. */
    method Commit(i: nat, tp: int, opponent: int, ghost f: Field, ghost stack: seq<Frame>)
      requires Choosing(players, pairedPlayers, f, stack, i, tp)
      requires players[tp].oppChoice < |Offer(f, i, TakenBy(f, stack))|
      requires opponent == Offer(f, i, TakenBy(f, stack))[players[tp].oppChoice]
      modifies this`pairedPlayers, this`players
      ensures var fr := Frame(i, old(players)[tp].oppChoice, TakenBy(f, stack));
        Mirrors(players, f, stack + [fr]) && Remembers(pairedPlayers, f, stack + [fr])
    {
      hide Mirrors, TakenBy, Offer, Ready, StackOk;
      ghost var fr := Frame(i, players[tp].oppChoice, TakenBy(f, stack));
      ghost var plain := players[tp := players[tp].(oppChoice := 0)];
      MirrorsPush(plain, f, stack, fr);
      PairOfKnown(f, fr);
      assert opponent in plain && opponent in players;
      assert PairUp(plain, tp, opponent, fr.k) == PairUp(players, tp, opponent, fr.k);
      pairedPlayers := pairedPlayers + [(tp, i)];
      PairPlayers(tp, opponent);
    }

    /** After the last offer of `tp`: back to an earlier chooser and its next offer, if there is one. */
    method Retry(i0: nat, tp0: int, ghost f: Field, ghost stack0: seq<Frame>, ghost goal: Goal)
      returns (more: bool, i: int, tp: int, ghost stack: seq<Frame>)
      requires Choosing(players, pairedPlayers, f, stack0, i0, tp0) && f.order == sortList
      requires OnTrack(f, stack0, i0, players[tp0].oppChoice, goal)
      requires players[tp0].oppChoice >= |Offer(f, i0, TakenBy(f, stack0))|
      modifies this`players, this`pairedPlayers
      ensures !more ==> Restored(players, f) && goal.outcome == NoPairing
      ensures more ==> Choosing(players, pairedPlayers, f, stack, i, tp)
      ensures more ==> OnTrack(f, stack, i, players[tp].oppChoice, goal)
      ensures more ==> Left(f, stack, i, players[tp].oppChoice) < Left(f, stack0, i0, old(players)[tp0].oppChoice)
    {
      hide Mirrors, Remembers, Search, Try, Work, TryWork, StackWork, Resume, TakenBy, Offer;
      stack := stack0;
      players := players[tp0 := players[tp0].(oppChoice := 0)];
      OffersExhausted(f, i0, TakenBy(f, stack0), old(players)[tp0].oppChoice);
      if stack != [] {
        PopKeepsSearch(f, stack);
      } else {
        EmptyStackEnds(f, NoPairing);
        EmptyIsRestored(players, f);
      }
      i, tp := StepBack(f, stack);
      if i < 0 {
        more := false;
      } else {
        more := true;
        stack := Below(stack);
      }
    }

    /** Looks for an offer for the player at position `start`; without one, takes back earlier pairings
        until some player has another offer, or nothing is left to take back. */
    method FindOffer(start: nat, first: int, ghost f: Field, ghost bottom: seq<Frame>, ghost goal: Goal)
      returns (found: bool, i: int, tp: int, opponent: int, ghost stack: seq<Frame>)
      requires Choosing(players, pairedPlayers, f, bottom, start, first)
      requires OnTrack(f, bottom, start, players[first].oppChoice, goal)
      requires f.order == sortList && f.place == place && f.listing == playerList
      modifies this`players, this`pairedPlayers, this`potentialOpponentList
      ensures !found ==> Restored(players, f) && goal.outcome == NoPairing
      ensures found ==> Choosing(players, pairedPlayers, f, stack, i, tp)
      ensures found ==> OnTrack(f, stack, i, players[tp].oppChoice, goal)
      ensures found ==> players[tp].oppChoice < |Offer(f, i, TakenBy(f, stack))|
      ensures found ==> opponent == Offer(f, i, TakenBy(f, stack))[players[tp].oppChoice]
    {
      hide Choosing, OnTrack, Left, Offer;
      i, tp, stack := start, first, bottom;
      found, opponent := NextOffer(i, tp, f, stack);
      while !found
        invariant Choosing(players, pairedPlayers, f, stack, i, tp)
        invariant OnTrack(f, stack, i, players[tp].oppChoice, goal)
        invariant found == (players[tp].oppChoice < |Offer(f, i, TakenBy(f, stack))|)
        invariant found ==> opponent == Offer(f, i, TakenBy(f, stack))[players[tp].oppChoice]
        decreases Left(f, stack, i, players[tp].oppChoice)
      {
        var more;
        more, i, tp, stack := Retry(i, tp, f, stack, goal);
        if !more {
          return;
        }
        found, opponent := NextOffer(i, tp, f, stack);
      }
    }

    /** Pairs the player at position `start`, taking back earlier pairings where it must. */
    method PairNext(start: nat, first: int, ghost f: Field, ghost bottom: seq<Frame>, ghost goal: Goal)
      returns (found: bool, i: int, ghost stack: seq<Frame>)
      requires Choosing(players, pairedPlayers, f, bottom, start, first)
      requires OnTrack(f, bottom, start, players[first].oppChoice, goal) && goal.outcome == Search(f, 0, {})
      requires f.order == sortList && f.place == place && f.listing == playerList
      modifies this`players, this`pairedPlayers, this`potentialOpponentList
      ensures !found ==> Restored(players, f) && goal.outcome == NoPairing
      ensures found ==> Underway(players, pairedPlayers, f, stack, i + 1)
      ensures found ==> Remaining(f, stack, i + 1) < goal.work
    {
      hide *;
      var tp, opponent;
      found, i, tp, opponent, stack := FindOffer(start, first, f, bottom, goal);
      if found {
        ghost var fr := Frame(i, players[tp].oppChoice, TakenBy(f, stack));
        PushOnTrack(f, stack, fr, goal);
        Commit(i, tp, opponent, f, stack);
        stack := stack + [fr];
        PushedIsUnderway(players, pairedPlayers, f, stack, i);
      }
    }

    /** The loop of the search: pairs one player after the other in order, from nothing chosen. */
    method PairEverybody(ghost f: Field) returns (done: int, ghost stack: seq<Frame>)
      requires Underway(players, pairedPlayers, f, [], 0)
      requires f.order == sortList && f.place == place && f.listing == playerList
      modifies this`players, this`pairedPlayers, this`potentialOpponentList
      ensures done in {0, 1}
      ensures done == 0 ==> Restored(players, f) && Search(f, 0, {}) == NoPairing
      ensures done == 1 ==> Underway(players, pairedPlayers, f, stack, |f.order|)
    {
      hide *;
      stack := [];
      var i := 0;
      while i < |sortList|
        invariant Underway(players, pairedPlayers, f, stack, i)
        decreases Remaining(f, stack, i)
      {
        StartChoosing(players, pairedPlayers, f, stack, i);
        var tp := sortList[i];
        if !players[tp].paired {
          var found;
          found, i, stack := PairNext(i, tp, f, stack, Goal(Search(f, 0, {}), Remaining(f, stack, i)));
          if !found {
            return 0, stack;
          }
        }
        i := i + 1;
      }
      return 1, stack;
    }

    /** Pairs everybody without rematches if that can be done; otherwise leaves no trace. */
    method SwissAssign2(playerCount: int) returns (done: int)
      requires Ready(TheField()) && FairRecords(TheField()) && Fresh(TheField())
      requires pairedPlayers == [] && playerCount == |playerList|
      modifies this`players, this`pairedPlayers, this`potentialOpponentList
      ensures done in {0, 1}
      ensures done == 1 <==> playerCount > 0 && exists m :: PerfectPairing(old(TheField()), {}, m)
      ensures done == 1 ==>
        PerfectPairing(old(TheField()), {}, Found(old(TheField()))) && PairedBy(players, old(TheField()),
            Found(old(TheField())))
      ensures done == 0 ==> Restored(players, old(TheField()))
    {
      if playerCount <= 0 {
        return 0;
      }
      hide Ready, FairRecords, Fresh, Underway, PerfectPairing, PairedBy, Restored, Search, AllPlain;
      ghost var f := TheField();
      EmptyStack(players, f);
      SearchDecides(f);
      ghost var stack;
      done, stack := PairEverybody(f);
      if done == 1 {
        CompleteStackPairs(players, pairedPlayers, f, stack);
      }
    }

    // ----- colours and games -----

    /** Position of the last entry with a name in a player's list of opponents. */
    method FindOpponent(x: int, name: int) returns (k: int)
      requires x in players
      ensures k == LastOf(players[x].opponents, name)
    {
      k := -1;
      var s := players[x].opponents;
      for i := 0 to |s|
        invariant k == LastOf(s[..i], name)
      {
        assert s[..i + 1][..i] == s[..i];
        if s[i].name == name {
          k := i;
        }
      }
      assert s[..|s|] == s;
    }

    /** Puts a game before the first one that is later in the order. */
    method AddGame(g: TourneyGame) returns (ghost k: nat)
      requires InOrder(place, gameList) && g.white in place && g.black in place
      modifies this`gameList
      ensures k <= |old(gameList)| && gameList == InsertAt(old(gameList), k, g)
      ensures InOrder(place, gameList)
    {
      var games := gameList;
      var score := place[g.white] + place[g.black];
      for i := 0 to |games|
        invariant gameList == games && forall j :: 0 <= j < i ==> Key(place, games[j]) <= score
      {
        var compScore := place[games[i].white] + place[games[i].black];
        if score < compScore {
          InsertInOrder(place, games, i, g);
          gameList := InsertAt(games, i, g);
          return i;
        }
      }
      InsertInOrder(place, games, |games|, g);
      gameList := games + [g];
      k := |games|;
      assert gameList == InsertAt(games, k, g);
    }

    /** The colour of the first of two players: 1 is white. */
    method ChooseColor(p: TourneyPlayer, q: TourneyPlayer) returns (p1Color: int)
      ensures (p1Color != 0) == FirstPlaysWhite(p, q)
    {
      p1Color := 0;
      if p.dueColor != q.dueColor {
        if p.dueColor != 0 {
          p1Color := 1;
        }
      } else {
        if p.dueColor != 0 {
          if p.consecutiveBlacks > q.consecutiveBlacks {
            p1Color := 1;
          } else if p.consecutiveBlacks == q.consecutiveBlacks {
            if p.totalBlacks > q.totalBlacks {
              p1Color := 1;
            } else if p.totalBlacks < q.totalBlacks {
              p1Color := 0;
            } else {
              if SortValue(p) >= SortValue(q) {
                p1Color := 1;
              } else {
                p1Color := 0;
              }
            }
          }
        } else {
          if p.consecutiveWhites > q.consecutiveWhites {
            p1Color := 0;
          } else if p.consecutiveWhites < q.consecutiveWhites {
            p1Color := 1;
          } else {
            if p.totalWhites > q.totalWhites {
              p1Color := 0;
            } else if p.totalWhites < q.totalWhites {
              p1Color := 1;
            } else {
              if SortValue(p) < SortValue(q) {
                p1Color := 1;
              } else {
                p1Color := 0;
              }
            }
          }
        }
      }
    }

    method AssignColors(p1: int, p2: int) returns (ghost k: nat)
      requires Opponents(players, p1, p2) && InOrder(place, gameList) && p1 in place && p2 in place
      modifies this`players, this`gameList
      ensures k <= |old(gameList)|
      ensures var g := GameBetween(old(players), p1, p2);
        && Opponents(old(players), g.white, g.black)
        && players == Coloured(old(players), g.white, g.black)
        && gameList == InsertAt(old(gameList), k, g) && InOrder(place, gameList)
    {
      hide FirstPlaysWhite, LastOf, InOrder, Key, InsertAt;
      var p, q := players[p1], players[p2];
      var p1Color := ChooseColor(p, q);
      var opp1 := FindOpponent(p1, p2);
      var opp2 := FindOpponent(p2, p1);
      if p1Color != 0 {
        players := players[p1 := GotWhite(p, opp1)];
        players := players[p2 := GotBlack(q)];
        k := AddGame(TourneyGame(p1, p2));
      } else {
        players := players[p2 := GotWhite(q, opp2)];
        players := players[p1 := GotBlack(p)];
        k := AddGame(TourneyGame(p2, p1));
      }
    }

    /** Gives the two players of a pair their colours, and marks both as having one. */
    method ColorizePair(tp: int, opponent: int, ghost drawn: Players, ghost m: map<int, int>)
      requires Colouring(drawn, players, m, gameList) && InOrder(place, gameList)
      requires Toned(drawn, players, gameList) && forall x :: x in drawn ==> TalliedBefore(drawn[x])
      requires tp in players && tp in place && !players[tp].paired
      requires opponent == players[tp].oppName && opponent in place
      modifies this`players, this`gameList
      ensures Colouring(drawn, players, m, gameList) && InOrder(place, gameList) && Toned(drawn, players, gameList)
      ensures players.Keys == old(players).Keys && players[tp].paired
      ensures forall x :: x in old(players) && old(players)[x].paired ==> x in players && players[x].paired
    {
      hide *;
      ghost var ps, games := players, gameList;
      NewPair(drawn, ps, m, games, tp);
      ghost var k := AssignColors(tp, opponent);
      PairColoured(drawn, ps, m, games, k, tp);
      ToneStep(drawn, ps, m, games, k, tp);
      players := Marked(players, tp, opponent);
    }

    /** Gives everybody a colour and lists the games of the round. */
    method ColorizeTourney(ghost m: map<int, int>)
      requires Partnered(players, m) && Roster(players, playerList) && Within(place, playerList) && gameList == []
      requires forall x {:trigger players[x]} :: x in players ==> TalliedBefore(players[x])
      modifies this`players, this`gameList
      ensures var drawn := UnpairedUpTo(old(players), playerList, |playerList|);
        Colouring(drawn, players, m, gameList) && InOrder(place, gameList) && Toned(drawn, players, gameList)
      ensures forall x :: x in players ==> players[x].paired
    {
      hide *;
      ghost var ps := players;
      var listing := playerList;
      UnpairAll();
      ghost var drawn := players;
      ColouringStarts(ps, drawn, listing, m);
      EverybodyPlaced(ps, listing, m, place);
      UnpairedTones(ps, listing);
      ToneStarts(drawn);
      for i := 0 to |listing|
        invariant Colouring(drawn, players, m, gameList) && InOrder(place, gameList)
        invariant Toned(drawn, players, gameList) && players.Keys == ps.Keys
        invariant forall k :: 0 <= k < i ==> listing[k] in players && players[listing[k]].paired
      {
        var tp := listing[i];
        if !players[tp].paired {
          NewPair(drawn, players, m, gameList, tp);
          ghost var before := players;
          ColorizePair(tp, players[tp].oppName, drawn, m);
          assert forall x :: x in before && before[x].paired ==> players[x].paired;
        }
      }
    }

    // ----- results -----

    method CalculateScore(x: int)
      requires x in players
      modifies this`players
      ensures players == old(players)[x := old(players)[x].(score := Total(old(players)[x].opponents))]
    {
      var score := 0;
      var s := players[x].opponents;
      for i := 0 to |s|
        invariant score == Total(s[..i]) && players == old(players)
      {
        assert s[..i + 1][..i] == s[..i];
        if s[i].result > 0 {
          score := score + s[i].result;
        }
      }
      assert s[..|s|] == s;
      players := players[x := players[x].(score := score)];
    }

    method SetResult(x: int, k: nat, points: int)
      requires x in players && k < |players[x].opponents|
      modifies this`players
      ensures players == old(players)[x := Entered(old(players)[x], k, points)]
    {
      var s := players[x].opponents;
      players := players[x := players[x].(opponents := s[k := s[k].(result := points)])];
    }

    /** Enters a result on both sides: 1 white wins, 0 black wins, 2 draw. */
    method EnterResult(white: int, black: int, result: int)
      requires Opponents(players, white, black) && result in {0, 1, 2}
      modifies this`players
      ensures players == Reported(old(players), white, black, result)
    {
      hide LastOf, Total, Entered;
      ghost var ps := players;
      var opp1 := FindOpponent(white, black);
      var opp2 := FindOpponent(black, white);
      match result {
        case 1 =>
          SetResult(white, opp1, 2);
          SetResult(black, opp2, 0);
        case 0 =>
          SetResult(white, opp1, 0);
          SetResult(black, opp2, 2);
        case _ =>
          SetResult(white, opp1, 1);
          SetResult(black, opp2, 1);
      }
      assert players == ps[white := Entered(ps[white], opp1, Points(result, true))]
        [black := Entered(ps[black], opp2, Points(result, false))];
      CalculateScore(white);
      CalculateScore(black);
    }

    /** Takes a game off the list of games still to be finished. */
    method RemoveGame(white: int, black: int, ghost k: nat)
      requires Separate(gameList) && k < |gameList| && gameList[k] == TourneyGame(white, black)
      modifies this`gameList
      ensures gameList == RemoveAt(old(gameList), k)
    {
      var games := gameList;
      for i := 0 to |games|
        invariant gameList == games && forall j :: 0 <= j < i ==> games[j] != TourneyGame(white, black)
      {
        if games[i] == TourneyGame(white, black) {
          assert Plays(games[i], white) && Plays(games[k], white);
          gameList := RemoveAt(games, i);
          return;
        }
      }
    }

    /** Records the result of a game under way. The answer is 2 when it was the last one of the round. */
    method SetGameResult(white: int, black: int, result: int, ghost k: nat) returns (more: int)
      requires Valid() && k < |gameList| && gameList[k] == TourneyGame(white, black)
      requires result in {0, 1, 2} && ByeIsWon(gameList[k], result)
      modifies this`players, this`gameList, this`recorded
      ensures Valid() && recorded == old(recorded) + 1
      ensures Opponents(old(players), white, black) && players == Reported(old(players), white, black, result)
      ensures gameList == RemoveAt(old(gameList), k)
      ensures more == if gameList == [] then 2 else 1
    {
      ReportKeepsBooks(players, playerList, gameList, k, result, recorded);
      ReportedTallied(players, white, black, result);
      assert Separate(gameList);
      hide Books, Separate, Opponents, Reported, RemoveAt;
      EnterResult(white, black, result);
      RemoveGame(white, black, k);
      recorded := recorded + 1;
      more := if |gameList| == 0 then 2 else 1;
    }

    /** Position of the first entry with a name in a player's list of opponents, or -1. */
    method FirstOpponent(x: int, name: int) returns (k: int)
      requires x in players
      ensures -1 <= k < |players[x].opponents|
      ensures k >= 0 ==> players[x].opponents[k].name == name
      ensures k < 0 ==> forall j :: 0 <= j < |players[x].opponents| ==> players[x].opponents[j].name != name
    {
      var s := players[x].opponents;
      for i := 0 to |s|
        invariant forall j :: 0 <= j < i ==> s[j].name != name
      {
        if s[i].name == name {
          return i;
        }
      }
      return -1;
    }

    /** A win for the opponent of the bye, which is white or black as its entry says. */
    method ScoreBye(opponent: int, white: bool, ghost k: nat)
      requires Valid() && k < |gameList| && Plays(gameList[k], BYE) && opponent == OtherOf(gameList[k], BYE)
      requires white == (gameList[k].white == BYE)
      modifies this`players, this`gameList, this`recorded
      ensures Valid() && recorded == old(recorded) + 1 && gameList == RemoveAt(old(gameList), k)
      ensures Opponents(old(players), old(gameList)[k].white, old(gameList)[k].black)
      ensures players == ByeScored(old(players), old(gameList)[k])
    {
      hide Books, Reported, Opponents, RemoveAt, Tallies;
      ghost var ps, g := players, gameList[k];
      ByeEntry(ps, playerList, gameList, k, recorded, 0);
      var more;
      if white {
        more := SetGameResult(BYE, opponent, 0, k);
      } else {
        more := SetGameResult(opponent, BYE, 1, k);
      }
      assert players == Reported(ps, g.white, g.black, ByeResult(g));
      ReportedNames(ps, g.white, g.black, ByeResult(g));
      ByeCountKeepsBooks(players, playerList, gameList, recorded);
      CountedTallied(players);
      players := players[BYE := players[BYE].(byeCount := players[BYE].byeCount + 1)];
    }

    /** Gives the player drawn with the bye a win; without a bye there is nothing to do. */
    method SetByeResult(ghost k: nat) returns (name: int)
      requires Valid()
      requires BYE in playerList ==> k < |gameList| && Plays(gameList[k], BYE) && KnowsPartner(players, gameList[k])
      modifies this`players, this`gameList, this`recorded
      ensures Valid()
      ensures BYE !in playerList ==>
        name == -1 && players == old(players) && gameList == old(gameList) && recorded == old(recorded)
      ensures BYE in playerList ==>
        var g := old(gameList)[k];
        && Opponents(old(players), g.white, g.black)
        && name == OtherOf(g, BYE) && gameList == RemoveAt(old(gameList), k) && recorded == old(recorded) + 1
        && players == ByeScored(old(players), g)
    {
      hide Books, Opponents, RemoveAt, ByeScored;
      for i := 0 to |playerList|
        invariant players == old(players) && gameList == old(gameList) && recorded == old(recorded)
        invariant forall j :: 0 <= j < i ==> playerList[j] != BYE
      {
        if playerList[i] == BYE {
          var opponent := players[BYE].oppName;
          var j := FirstOpponent(BYE, opponent);
          ByeEntry(players, playerList, gameList, k, recorded, if j >= 0 then j else 0);
          if j >= 0 {
            ScoreBye(opponent, players[BYE].opponents[j].white, k);
            return opponent;
          }
        }
      }
      return -1;
    }

    // ----- a round -----

    /** Everybody free, and every list of offers at its start. */
    method ClearChoices()
      requires Roster(players, playerList)
      modifies this`players
      ensures players == ClearedUpTo(old(players), playerList, |playerList|)
    {
      ghost var ps := players;
      NoneCleared(ps, playerList);
      hide ClearedUpTo, Roster;
      for i := 0 to |playerList|
        invariant players == ClearedUpTo(ps, playerList, i)
      {
        ClearNext(ps, playerList, i);
        players := players[playerList[i] := Cleared(players[playerList[i]])];
      }
    }

    /** Everything up to the search: the players of the round in order, with their offsets, nobody paired. */
    method PrepareRound() returns (playerCount: int)
      requires Valid() && gameList == []
      modifies this`players, this`playerList, this`sortList, this`place, this`pairedPlayers
      ensures playerCount == |playerList| && playerList == WithBye(old(playerList)) && pairedPlayers == []
      ensures var ps := RoundPlayers(old(players), old(playerList));
        && Books(ps, playerList, [], recorded)
        && sortList == SortOrder(ps, playerList)
        && TheField() == RoundField(ps, playerList, place)
        && PlacedInOrder(place, sortList) && NewBye(ps)
    {
      hide Books, RoundPlayers, SortOrder, NewBye, WithBye, WithOffsets, ClearedUpTo, AllPlain, Roster, Distinct,
        Within;
      ghost var ps0, list0 := players, playerList;
      ByeKeepsBooks(ps0, list0, recorded);
      RoundHasNewBye(ps0, list0);
      BooksRoster(ps0, list0, recorded);
      ghost var ps := RoundPlayers(ps0, list0);
      playerCount := UnpairAndCheckBye();
      RoundOrder(ps, playerList, recorded);
      BooksRoster(ps, playerList, recorded);
      SortPlayers();
      SetOffsets();
      OffsetsKeepRoster(ps, playerList);
      ClearChoices();
      pairedPlayers := [];
    }

    /** Draws a round: pairs everybody without a rematch and lists the games, or leaves every history alone. */
    method MakeAssignments() returns (done: int)
      requires Valid() && gameList == []
      modifies this
      ensures Valid() && recorded == old(recorded) && playerList == WithBye(old(playerList))
      ensures done in {0, 1}
      ensures var ps := RoundPlayers(old(players), old(playerList));
        && (done == 1 <==> CanDraw(old(players), old(playerList)))
        && (done == 1 ==>
             RoundDrawn(ps, players, playerList, place, gameList, TheDraw(ps, playerList, place)))
        && (done == 1 ==> Within(ps, playerList) && sortList == SortOrder(ps, playerList))
        && (done == 1 ==> PlacedInOrder(place, sortList))
        && (done == 0 ==> gameList == [] && SameHistories(ps, players))
      ensures SameScores(old(players), players)
      ensures done == 1 ==> RoundOpen(players, playerList, place, gameList)
      ensures done == 1 ==> ColouredByRule(RoundPlayers(old(players), old(playerList)), players, gameList)
    {
      hide Books, RoundPlayers, WithBye, SortOrder, NewBye, SameHistories, Restored, PerfectPairing, RematchFree,
        RoundDrawn, PairedBy, Poses, Ready, FairRecords, RoundField, Within, Tallies, SearchTones, ColouredByRule,
        TheDraw, Fresh, RoundOpen, SameScores, PlacedInOrder, CanDraw;
      ghost var ps := RoundPlayers(players, playerList);
      RoundTallied(players, playerList);
      var playerCount := PrepareRound();
      ghost var f := TheField();
      PlacedWithin(place, sortList);
      RoundFieldReady(ps, playerList, place, recorded);
      BooksRoster(ps, playerList, recorded);
      FieldTones(ps, playerList, place);
      DrawOfRound(old(players), old(playerList), place);
      done := SwissAssign2(playerCount);
      if done == 0 {
        RestoredIsSame(f, ps, playerList, players);
        SameHistoryKeepsBooks(ps, players, playerList, gameList, recorded);
        RestoredTallied(f, ps, players);
      } else {
        FinishRound(f, ps, Found(f));
      }
      DrawnScores(old(players), old(playerList), players, playerList, place, gameList);
    }

    /** The colours of a round whose pairs are found. */
    method FinishRound(ghost f: Field, ghost ps: Players, ghost m: map<int, int>)
      requires Books(ps, playerList, [], recorded) && Poses(f, ps, playerList) && Within(place, playerList)
        && gameList == []
      requires PerfectPairing(f, {}, m) && PairedBy(players, f, m) && Tallies(ps) && SearchTones(ps, f)
      modifies this`players, this`gameList
      ensures Books(players, playerList, gameList, recorded) && Tallies(players)
      ensures ColouredByRule(ps, players, gameList)
      ensures RoundDrawn(ps, players, playerList, place, gameList, m)
    {
      hide *;
      ghost var found := players;
      BooksRoster(ps, playerList, recorded);
      PairedIsDrawn(f, ps, playerList, found, m);
      DrawnRoster(ps, found, playerList, m);
      EverybodyOrdered(f, ps, playerList);
      FoundTones(f, ps, found, m);
      UnpairedTones(found, playerList);
      ghost var drawn := UnpairedUpTo(found, playerList, |playerList|);
      ColorizeTourney(m);
      ToneThrough(ps, found, drawn);
      AllToned(ps, drawn, players, m, gameList);
      ColouredRound(ps, found, players, playerList, place, gameList, m, recorded);
    }

    /** The first round: colours are due alternately down the list, then the round is drawn. */
    method Start(firstColor: int) returns (done: int)
      requires Valid() && gameList == [] && firstColor in {0, 1}
      modifies this
      ensures Valid() && recorded == old(recorded) && playerList == WithBye(old(playerList))
      ensures done in {0, 1}
      ensures done == 0 ==> gameList == []
      ensures done == 1 <==> CanDraw(old(players), old(playerList))
      ensures Within(old(players), old(playerList))
      ensures done == 1 ==>
        var ps := DueInTurn(old(players), old(playerList), |old(playerList)|, firstColor);
        var round := RoundPlayers(ps, old(playerList));
        && RoundDrawn(round, players, playerList, place, gameList, TheDraw(round, playerList, place))
        && Within(round, playerList) && sortList == SortOrder(round, playerList) && PlacedInOrder(place, sortList)
        && ColouredByRule(round, players, gameList)
      ensures SameScores(old(players), players)
      ensures done == 1 ==> RoundOpen(players, playerList, place, gameList)
    {
      hide Books, RoundPlayers, WithBye, RoundDrawn, SameHistories, CanDraw, Tallies, ColouredByRule, TheDraw,
        SortOrder,
        PlacedInOrder, OnlyDueDiffers, RoundOpen, SameScores;
      ghost var ps := players;
      var colour := firstColor;
      for i := 0 to |playerList|
        invariant playerList == old(playerList) && gameList == [] && recorded == old(recorded)
        invariant colour == DueAt(i, firstColor) && players == DueInTurn(ps, playerList, i, firstColor)
      {
        players := players[playerList[i] := players[playerList[i]].(dueColor := colour)];
        colour := 1 - colour;
      }
      DueChanges(ps, playerList, |playerList|, firstColor);
      DueKeepsHistories(ps, players);
      SameHistoryKeepsBooks(ps, players, playerList, [], recorded);
      SameHistoriesScores(ps, players);
      DueKeepsTallies(ps, players);
      SameHistoriesDraws(ps, players, playerList);
      done := MakeAssignments();
      ScoresThrough(ps, DueInTurn(ps, old(playerList), |old(playerList)|, firstColor), players);
    }
  }
}
