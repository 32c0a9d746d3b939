/** The first round of a tournament: the upper half of the order plays the lower half. */
module FirstRounds {
  import opened Swiss
  import opened SwissRounds
  import opened SwissDraw
  import opened SwissAssignments
  import opened SwissOffers
  import opened SwissTallies
  import opened Tourney

  /** A round of players with the same score and different ratings, none of whom has met anybody: it can be drawn,
      and the `k`-th by rating is drawn with the one half the players below, whatever else the records say. */
  method DrawLevelRound(t: Tourney, n: nat) returns (done: int)
    requires t.Valid() && t.gameList == [] && n > 0
    requires LevelRound(RoundPlayers(t.players, t.playerList), WithBye(t.playerList), n)
    modifies t
    ensures t.Valid() && done == 1 && Folded(t.players, t.sortList, n)
    ensures RoundOpen(t.players, t.playerList, t.place, t.gameList) && OnBoards(t.gameList, t.sortList, n)
  {
    hide Folded, OnBoards, LevelRound, RoundPlayers, WithBye, Books, RoundDrawn, CanDraw, TheDraw, SortOrder,
      PlacedInOrder,
      RoundOpen;
    ghost var ps, listing := RoundPlayers(t.players, t.playerList), WithBye(t.playerList);
    LevelCanBeDrawn(t.players, t.playerList, n, t.recorded);
    ByeKeepsBooks(t.players, t.playerList, t.recorded);
    RoundHasNewBye(t.players, t.playerList);
    ghost var recorded := t.recorded;
    done := t.MakeAssignments();
    LevelRoundDrawn(ps, t.players, listing, t.place, t.gameList, n, recorded);
    RoundOnBoards(ps, t.players, listing, t.place, t.gameList, n, recorded);
  }

  /** The order goes down by rating, and the `k`-th of each half has the `k`-th of the other as the one opponent. */
  ghost predicate Folded(ps: Players, order: seq<int>, n: nat)
    ensures Folded(ps, order, n) ==> |order| == 2 * n && Within(ps, order)
  {
    && |order| == 2 * n && Within(ps, order)
    && (forall i, j :: 0 <= i < j < 2 * n ==> ps[order[i]].rating > ps[order[j]].rating)
    && (forall k :: 0 <= k < n ==> Only(ps, order[k], order[n + k]))
    && (forall k :: 0 <= k < n ==> Only(ps, order[n + k], order[k]))
  }

  /** The one opponent of `x` so far is `y`. */
  predicate Only(ps: Players, x: int, y: int) {
    x in ps && |ps[x].opponents| == 1 && ps[x].opponents[0].name == y
  }

  lemma LevelRoundDrawn(ps: Players, ps': Players, listing: seq<int>, place: map<int, int>, games: seq<TourneyGame>,
      n: nat, recorded: nat)
    requires Books(ps, listing, [], recorded) && NewBye(ps) && LevelRound(ps, listing, n)
    requires Within(ps, listing) && PlacedInOrder(place, SortOrder(ps, listing))
    requires RoundDrawn(ps, ps', listing, place, games, TheDraw(ps, listing, place))
    ensures Folded(ps', SortOrder(ps, listing), n)
  {
    hide SortOrder, Books, NewBye, LevelRound, RoundDrawn, TheDraw, PlacedInOrder;
    var order, m := SortOrder(ps, listing), TheDraw(ps, listing, place);
    RoundOrder(ps, listing, recorded);
    LevelSize(ps, listing, n);
    DrawnIsOpen(ps, ps', listing, place, games, m);
    forall i | 0 <= i < 2 * n
      ensures order[i] in ps && order[i] in m && ps[order[i]].opponents == []
      ensures Extended(ps[order[i]], ps'[order[i]], m[order[i]])
    {
      assert order[i] in order;
      LevelNewcomer(ps, listing, n, order[i]);
    }
    forall i, j | 0 <= i < j < 2 * n
      ensures ps'[order[i]].rating > ps'[order[j]].rating
    {
      LevelOrder(ps, listing, n, i, j);
    }
    forall k | 0 <= k < n
      ensures Only(ps', order[k], order[n + k]) && Only(ps', order[n + k], order[k])
    {
      LevelDraw(ps, listing, place, n, recorded, k);
    }
  }

  lemma LevelNewcomer(ps: Players, listing: seq<int>, n: nat, x: int)
    requires LevelRound(ps, listing, n) && x in listing
    ensures x in ps && ps[x].opponents == []
  {
    hide Comparable, Distinct;
  }

  // ----- the start of a tournament -----

  /** The same at the start of a tournament: moreover the player of the upper half has the colour due to it, which
      alternates down the list, beginning with the first colour. */
  method StartLevelRound(t: Tourney, n: nat, firstColor: int) returns (done: int)
    requires t.Valid() && t.gameList == [] && n > 0 && firstColor in {0, 1}
    requires LevelRound(RoundPlayers(t.players, t.playerList), WithBye(t.playerList), n)
    modifies t
    ensures t.Valid() && done == 1 && Folded(t.players, t.sortList, n) && OnBoards(t.gameList, t.sortList, n)
    ensures forall i, k :: 0 <= i < |old(t.playerList)| && 0 <= k < n && old(t.playerList)[i] == t.sortList[k] ==>
      UpperHas(t.gameList, t.sortList[k], t.sortList[n + k], DueAt(i, firstColor))
  {
    hide Folded, LevelRound, RoundPlayers, WithBye, Books, RoundDrawn, CanDraw, TheDraw, SortOrder, PlacedInOrder,
      RoundOpen, Tallies, ColouredByRule, DueInTurn, UpperHas, OnBoards;
    ghost var before, list0, recorded := t.players, t.playerList, t.recorded;
    BooksRoster(before, list0, recorded);
    ghost var due := DueInTurn(before, list0, |list0|, firstColor);
    LevelCanBeDrawn(before, list0, n, recorded);
    LevelAfterDue(before, due, list0, n, recorded, firstColor);
    done := t.Start(firstColor);
    ghost var ps, listing := RoundPlayers(due, list0), WithBye(list0);
    LevelRoundDrawn(ps, t.players, listing, t.place, t.gameList, n, recorded);
    RoundOnBoards(ps, t.players, listing, t.place, t.gameList, n, recorded);
    forall i, k | 0 <= i < |list0| && 0 <= k < n && list0[i] == t.sortList[k]
      ensures UpperHas(t.gameList, t.sortList[k], t.sortList[n + k], DueAt(i, firstColor))
    {
      UpperColour(ps, t.players, listing, t.place, t.gameList, n, recorded, k);
      DueInTurnAt(before, list0, |list0|, firstColor, i);
      DueInRound(due, list0, ps, listing, n, recorded, k);
    }
  }

  /** The game of the two, `x` having the colour: 1 is white. */
  ghost predicate UpperHas(games: seq<TourneyGame>, x: int, y: int, colour: int) {
    (if colour == 1 then TourneyGame(x, y) else TourneyGame(y, x)) in games
  }

  lemma LevelAfterDue(before: Players, due: Players, list0: seq<int>, n: nat, recorded: nat, first: int)
    requires Books(before, list0, [], recorded) && Tallies(before) && first in {0, 1}
    requires LevelRound(RoundPlayers(before, list0), WithBye(list0), n) && Within(before, list0)
    requires due == DueInTurn(before, list0, |list0|, first)
    ensures LevelRound(RoundPlayers(due, list0), WithBye(list0), n)
    ensures Books(RoundPlayers(due, list0), WithBye(list0), [], recorded) && NewBye(RoundPlayers(due, list0))
    ensures Tallies(RoundPlayers(due, list0))
  {
    hide Books, WithBye, Tallies, DueInTurn, RoundPlayers;
    DueChanges(before, list0, |list0|, first);
    DueKeepsHistories(before, due);
    DueKeepsTallies(before, due);
    SameHistoryKeepsBooks(before, due, list0, [], recorded);
    ByeKeepsBooks(due, list0, recorded);
    RoundHasNewBye(due, list0);
    RoundTallied(due, list0);
    forall x | x in before
      ensures due[x].dueColor in {before[x].dueColor, 0, 1}
    {
      DueIsColour(before, list0, |list0|, first, x);
    }
    LevelSame(before, due, list0, n);
  }

  lemma LevelSame(before: Players, due: Players, list0: seq<int>, n: nat)
    requires LevelRound(RoundPlayers(before, list0), WithBye(list0), n) && OnlyDueDiffers(before, due)
    requires forall x :: x in before ==> due[x].dueColor in {before[x].dueColor, 0, 1}
    ensures LevelRound(RoundPlayers(due, list0), WithBye(list0), n)
  {
    hide *;
    RoundDue(before, due, list0);
    LevelDueSame(RoundPlayers(before, list0), RoundPlayers(due, list0), WithBye(list0), n);
  }

  lemma RoundDue(before: Players, due: Players, list0: seq<int>)
    requires OnlyDueDiffers(before, due)
    requires forall x :: x in before ==> due[x].dueColor in {before[x].dueColor, 0, 1}
    ensures var ps, ps' := RoundPlayers(before, list0), RoundPlayers(due, list0);
      && OnlyDueDiffers(ps, ps')
      && forall x :: x in ps' ==> x in ps && ps'[x].dueColor in {ps[x].dueColor, 0, 1}
  {
    hide Reals;
  }

  lemma LevelDueSame(ps: Players, ps': Players, listing: seq<int>, n: nat)
    requires LevelRound(ps, listing, n) && OnlyDueDiffers(ps, ps')
    requires forall x :: x in ps' ==> x in ps && ps'[x].dueColor in {ps[x].dueColor, 0, 1}
    ensures LevelRound(ps', listing, n)
  {
    hide Distinct;
    assert Roster(ps', listing);
    hide Roster;
    forall x, y | x in ps' && y in ps'
      ensures ps'[x].score == ps'[y].score && Comparable(ps'[x], ps'[y])
    {
      assert Comparable(ps[x], ps[y]);
    }
  }

  /** In a level round the stronger of two opponents has the colour due to it. */
  lemma UpperColour(ps: Players, ps': Players, listing: seq<int>, place: map<int, int>, games: seq<TourneyGame>,
      n: nat, recorded: nat, k: nat)
    requires Books(ps, listing, [], recorded) && NewBye(ps) && LevelRound(ps, listing, n) && Tallies(ps)
    requires Within(ps, listing) && PlacedInOrder(place, SortOrder(ps, listing)) && k < n
    requires RoundDrawn(ps, ps', listing, place, games, TheDraw(ps, listing, place))
    requires ColouredByRule(ps, ps', games) && Folded(ps', SortOrder(ps, listing), n)
    ensures SortOrder(ps, listing)[k] in ps
    ensures var order := SortOrder(ps, listing);
      UpperHas(games, order[k], order[n + k], ps[order[k]].dueColor)
  {
    hide SortOrder, Books, NewBye, TheDraw, PlacedInOrder, RoundDrawn, Comparable, ByRule, RematchFree, Drawn, Folded;
    var order := SortOrder(ps, listing);
    var x, y := order[k], order[n + k];
    RoundOrder(ps, listing, recorded);
    LevelOrder(ps, listing, n, k, n + k);
    assert x in order && y in order;
    LevelPair(ps, listing, n, x, y);
    StrongerGetsItsColour(ps[x], ps[y]);
    var i := GameOfPair(ps, ps', listing, place, games, TheDraw(ps, listing, place), x, y, n, k, order);
    assert RuleOf(ps, ps', games[i]);
  }

  lemma LevelPair(ps: Players, listing: seq<int>, n: nat, x: int, y: int)
    requires LevelRound(ps, listing, n) && Tallies(ps) && x in listing && y in listing && x in ps && y in ps
    requires ps[x].rating > ps[y].rating
    ensures Tallied(ps[x], []) && Tallied(ps[y], []) && SortValue(ps[x]) > SortValue(ps[y])
    ensures ps[x].dueColor in {0, 1} && ps[y].dueColor in {0, 1}
  {
    assert Comparable(ps[x], ps[y]);
    hide Roster, Games, LastGames;
    assert ps[x].opponents == [] && ps[y].opponents == [];
  }

  lemma GameOfPair(ps: Players, ps': Players, listing: seq<int>, place: map<int, int>, games: seq<TourneyGame>,
      m: map<int, int>, x: int, y: int, n: nat, k: nat, order: seq<int>) returns (i: nat)
    requires RoundDrawn(ps, ps', listing, place, games, m) && Folded(ps', order, n) && k < n
    requires x == order[k] && y == order[n + k] && x in listing
    ensures i < |games| && games[i] in {TourneyGame(x, y), TourneyGame(y, x)}
  {
    hide RematchFree, Drawn, InOrder, Separate;
    assert HasGame(games, x);
    i :| 0 <= i < |games| && Plays(games[i], x);
    assert Awaited(ps', games[i]);
    assert Only(ps', x, y);
  }

  /** A player of the upper half is no bye, so the colour due before the round is due in it. */
  lemma DueInRound(due: Players, list0: seq<int>, ps: Players, listing: seq<int>, n: nat, recorded: nat, k: nat)
    requires ps == RoundPlayers(due, list0) && listing == WithBye(list0) && k < n
    requires Books(ps, listing, [], recorded) && NewBye(ps) && LevelRound(ps, listing, n) && Within(ps, listing)
    requires |SortOrder(ps, listing)| == 2 * n && SortOrder(ps, listing)[k] in due
    ensures var x := SortOrder(ps, listing)[k];
      x in ps && ps[x].dueColor == due[x].dueColor
  {
    hide SortOrder, Books, NewBye, LevelRound, WithBye, Reals;
    RoundOrder(ps, listing, recorded);
    LevelOrder(ps, listing, n, k, n + k);
  }

  // ----- the boards -----

  /** Board `k` of a level round is that of the `k`-th player of each half. */
  ghost predicate OnBoards(games: seq<TourneyGame>, order: seq<int>, n: nat)
    requires |order| == 2 * n
  {
    && |games| == n
    && forall k :: 0 <= k < n ==>
      games[k] in {TourneyGame(order[k], order[n + k]), TourneyGame(order[n + k], order[k])}
  }

  lemma BoardOf(ps': Players, listing: seq<int>, place: map<int, int>, games: seq<TourneyGame>, order: seq<int>,
      n: nat, k: nat) returns (i: nat)
    requires Folded(ps', order, n) && Covers(games, listing) && InOrder(place, games) && PlacedInOrder(place, order)
    requires forall x :: x in order ==> x in listing
    requires forall j :: 0 <= j < |games| ==> Awaited(ps', games[j])
    requires k < n
    ensures i < |games| && games[i] in {TourneyGame(order[k], order[n + k]), TourneyGame(order[n + k], order[k])}
    ensures Key(place, games[i]) == n + 2 * k
  {
    hide Separate;
    var x := order[k];
    assert x in order;
    assert HasGame(games, x);
    i :| 0 <= i < |games| && Plays(games[i], x);
    assert Awaited(ps', games[i]);
    assert Only(ps', x, order[n + k]);
  }

  /** Every game is that of a pair. */
  lemma PairOfBoard(ps': Players, listing: seq<int>, place: map<int, int>, games: seq<TourneyGame>, order: seq<int>,
      n: nat, i: nat) returns (k: nat)
    requires Folded(ps', order, n) && Covers(games, listing) && InOrder(place, games) && PlacedInOrder(place, order)
    requires (forall x :: x in order ==> x in listing) && forall x :: x in listing ==> x in order
    requires forall j :: 0 <= j < |games| ==> Awaited(ps', games[j])
    requires i < |games|
    ensures k < n && games[i] in {TourneyGame(order[k], order[n + k]), TourneyGame(order[n + k], order[k])}
    ensures Key(place, games[i]) == n + 2 * k
  {
    hide Separate;
    var x := games[i].white;
    assert Plays(games[i], x) && HasGame(games, x);
    var p :| 0 <= p < 2 * n && order[p] == x;
    k := if p < n then p else p - n;
    assert Awaited(ps', games[i]);
    assert Only(ps', order[k], order[n + k]) && Only(ps', order[n + k], order[k]);
  }

  /** Keys that run through n, n + 2, ... and ascend stand in that order. */
  lemma {:induction false} KeysInTurn(keys: seq<int>, n: nat, at: seq<nat>, k: nat)
    requires |at| == n && k < n && (forall j :: 0 <= j < n ==> at[j] < |keys| && keys[at[j]] == n + 2 * j)
    requires forall i, j :: 0 <= i < j < |keys| ==> keys[i] <= keys[j]
    ensures at[k] >= k
  {
    if k > 0 {
      KeysInTurn(keys, n, at, k - 1);
    }
  }

  lemma {:induction false} KeysFromEnd(keys: seq<int>, n: nat, at: seq<nat>, k: nat)
    requires |at| == n && k < n && (forall j :: 0 <= j < n ==> at[j] < |keys| && keys[at[j]] == n + 2 * j)
    requires forall i, j :: 0 <= i < j < |keys| ==> keys[i] <= keys[j]
    ensures |keys| - at[k] >= n - k
    decreases n - k
  {
    if k < n - 1 {
      KeysFromEnd(keys, n, at, k + 1);
    }
  }

  lemma {:induction false} KeysStrict(keys: seq<int>, n: nat, i: nat)
    requires i < |keys| && (forall j :: 0 <= j < |keys| ==> keys[j] >= n && (keys[j] - n) % 2 == 0)
    requires forall j, k :: 0 <= j < k < |keys| ==> keys[j] < keys[k]
    ensures keys[i] >= n + 2 * i
  {
    if i > 0 {
      KeysStrict(keys, n, i - 1);
      assert (keys[i] - n) % 2 == 0 && (keys[i - 1] - n) % 2 == 0;
    }
  }

  /** The games of a level round stand board by board. */
  lemma LevelBoards(ps': Players, listing: seq<int>, place: map<int, int>, games: seq<TourneyGame>, order: seq<int>,
      n: nat)
    requires Folded(ps', order, n) && Covers(games, listing) && InOrder(place, games) && PlacedInOrder(place, order)
    requires (forall x :: x in order ==> x in listing) && forall x :: x in listing ==> x in order
    requires forall j :: 0 <= j < |games| ==> Awaited(ps', games[j])
    requires n > 0
    ensures OnBoards(games, order, n)
  {
    hide Folded, Covers, PlacedInOrder, Awaited, Key;
    var keys := seq(|games|, i requires 0 <= i < |games| => Key(place, games[i]));
    var at: seq<nat> := [];
    for k := 0 to n
      invariant |at| == k && forall j :: 0 <= j < k ==> at[j] < |games| && keys[at[j]] == n + 2 * j
      invariant forall j :: 0 <= j < k ==> IsBoard(games[at[j]], order, n, j)
    {
      var i := BoardOf(ps', listing, place, games, order, n, k);
      at := at + [i];
    }
    forall i | 0 <= i < |games|
      ensures n <= keys[i] <= 3 * n - 2 && (keys[i] - n) % 2 == 0
    {
      var k := PairOfBoard(ps', listing, place, games, order, n, i);
    }
    forall i, j | 0 <= i < j < |games|
      ensures keys[i] < keys[j]
    {
      BoardsDiffer(ps', listing, place, games, order, n, i, j);
    }
    hide InOrder, IsBoard;
    if games != [] {
      KeysStrict(keys, n, |keys| - 1);
    }
    KeysInTurn(keys, n, at, n - 1);
    forall k | 0 <= k < n
      ensures IsBoard(games[k], order, n, k)
    {
      KeysInTurn(keys, n, at, k);
      KeysFromEnd(keys, n, at, k);
    }
    BoardsFrom(games, order, n);
  }

  predicate IsBoard(g: TourneyGame, order: seq<int>, n: nat, k: nat)
    requires |order| == 2 * n && k < n
  {
    g in {TourneyGame(order[k], order[n + k]), TourneyGame(order[n + k], order[k])}
  }

  lemma BoardsFrom(games: seq<TourneyGame>, order: seq<int>, n: nat)
    requires |order| == 2 * n && |games| == n && forall k :: 0 <= k < n ==> IsBoard(games[k], order, n, k)
    ensures OnBoards(games, order, n)
  {
  }

  /** No two games have the same key. */
  lemma BoardsDiffer(ps': Players, listing: seq<int>, place: map<int, int>, games: seq<TourneyGame>, order: seq<int>,
      n: nat, i: nat, j: nat)
    requires Folded(ps', order, n) && Covers(games, listing) && InOrder(place, games) && PlacedInOrder(place, order)
    requires (forall x :: x in order ==> x in listing) && forall x :: x in listing ==> x in order
    requires forall j :: 0 <= j < |games| ==> Awaited(ps', games[j])
    requires i < j < |games|
    ensures Key(place, games[i]) < Key(place, games[j])
  {
    hide Folded, PlacedInOrder, Awaited, Key, HasGame;
    var k := PairOfBoard(ps', listing, place, games, order, n, i);
    var l := PairOfBoard(ps', listing, place, games, order, n, j);
    NotTwice(games, i, j, order[k]);
  }

  lemma NotTwice(games: seq<TourneyGame>, i: nat, j: nat, x: int)
    requires Separate(games) && i < j < |games| && Plays(games[i], x)
    ensures !Plays(games[j], x)
  {
  }

  lemma RoundOnBoards(ps: Players, ps': Players, listing: seq<int>, place: map<int, int>, games: seq<TourneyGame>,
      n: nat, recorded: nat)
    requires Books(ps, listing, [], recorded) && NewBye(ps) && n > 0 && Within(ps, listing)
    requires PlacedInOrder(place, SortOrder(ps, listing)) && Folded(ps', SortOrder(ps, listing), n)
    requires RoundDrawn(ps, ps', listing, place, games, TheDraw(ps, listing, place))
    ensures OnBoards(games, SortOrder(ps, listing), n)
  {
    hide Books, NewBye, SortOrder, Folded, TheDraw, OnBoards, PlacedInOrder, RematchFree, Drawn, Covers, InOrder,
      Awaited;
    RoundOrder(ps, listing, recorded);
    LevelBoards(ps', listing, place, games, SortOrder(ps, listing), n);
  }
}
