/** Giving out the colours of a drawn round: every game is added once, in order. */
module SwissColours {
  import opened Swiss
  import opened SwissRounds
  import opened SwissDraw

  /** A draw just made: everybody's last entry is the partner, with neither result nor colour. */
  ghost predicate Partnered(ps: Players, m: map<int, int>) {
    && m.Keys == ps.Keys
    && forall x :: x in ps ==>
      && m[x] in ps && m[x] != x && m[m[x]] == x && ps[x].oppName == m[x] && Awaits(ps, x, m[x], false)
  }

  /** Only colours, and whether the player has one yet, differ. */
  ghost predicate ColourOnly(p: TourneyPlayer, q: TourneyPlayer) {
    var n := |p.opponents|;
    && q.rating == p.rating && q.score == p.score && q.oppName == p.oppName && q.byeCount == p.byeCount
    && |q.opponents| == n >= 1
    && q.opponents[..n - 1] == p.opponents[..n - 1]
    && q.opponents[n - 1] == p.opponents[n - 1].(white := q.opponents[n - 1].white)
  }

  /** The games given out so far pair players as the draw says, and tell them their colours. */
  ghost predicate GamesOf(ps: Players, m: map<int, int>, games: seq<TourneyGame>) {
    forall i :: 0 <= i < |games| ==>
      games[i].white in m && m[games[i].white] == games[i].black && Awaited(ps, games[i])
  }

  /** A player has a colour exactly when in a game given out; without one it still waits for the partner. */
  ghost predicate InStep(drawn: Players, ps: Players, m: map<int, int>, games: seq<TourneyGame>, x: int)
    requires x in drawn && x in ps && x in m
  {
    && ColourOnly(drawn[x], ps[x])
    && (ps[x].paired <==> HasGame(games, x))
    && (!ps[x].paired ==> Awaits(ps, x, m[x], false))
  }

  ghost predicate Colouring(drawn: Players, ps: Players, m: map<int, int>, games: seq<TourneyGame>) {
    && Partnered(drawn, m) && ps.Keys == drawn.Keys
    && (forall x :: x in ps ==> InStep(drawn, ps, m, games, x))
    && Separate(games) && GamesOf(ps, m, games)
  }

  /** The records after both players of a game have their colour. */
  function GameGiven(ps: Players, g: TourneyGame): Players
    requires Opponents(ps, g.white, g.black)
  {
    Marked(Coloured(ps, g.white, g.black), g.white, g.black)
  }

  function Marked(ps: Players, x: int, y: int): Players
    requires x in ps && y in ps && x != y
  {
    ps[x := ps[x].(paired := true)][y := ps[y].(paired := true)]
  }

  lemma MarkedEitherWay(ps: Players, x: int, y: int)
    requires x in ps && y in ps && x != y
    ensures Marked(ps, x, y) == Marked(ps, y, x)
  {
  }

  /** A game between two players without a colour. */
  ghost predicate NewGame(ps: Players, m: map<int, int>, g: TourneyGame) {
    && g.white in ps && g.white in m && m[g.white] == g.black && g.black in ps && g.black in m && m[g.black] == g.white
    && g.white != g.black && !ps[g.white].paired && !ps[g.black].paired
    && Awaits(ps, g.white, g.black, false) && Awaits(ps, g.black, g.white, false)
  }

  /** A player without a colour and its partner can be given a game either way round. */
  lemma NewPair(drawn: Players, ps: Players, m: map<int, int>, games: seq<TourneyGame>, x: int)
    requires Colouring(drawn, ps, m, games) && x in ps && !ps[x].paired
    ensures x in m && m[x] == ps[x].oppName && m[x] != x
    ensures NewGame(ps, m, TourneyGame(x, m[x])) && NewGame(ps, m, TourneyGame(m[x], x))
    ensures Opponents(ps, x, m[x]) && Opponents(ps, m[x], x)
  {
  }

  lemma GivenRecords(ps: Players, m: map<int, int>, g: TourneyGame)
    requires NewGame(ps, m, g)
    ensures Opponents(ps, g.white, g.black)
    ensures var ps' := GameGiven(ps, g);
      && ps'.Keys == ps.Keys && Awaited(ps', g)
      && ColourOnly(ps[g.white], ps'[g.white]) && ColourOnly(ps[g.black], ps'[g.black])
      && ps'[g.white].paired && ps'[g.black].paired
      && (forall z :: z in ps && !Plays(g, z) ==> ps'[z] == ps[z])
      && (forall z :: z in ps && (ps[z].paired || Plays(g, z)) ==> ps'[z].paired)
  {
  }

  lemma ColourOnlyTwice(p: TourneyPlayer, q: TourneyPlayer, r: TourneyPlayer)
    requires ColourOnly(p, q) && ColourOnly(q, r)
    ensures ColourOnly(p, r)
  {
  }

  /** The games given out before still stand. */
  lemma GamesStand(ps: Players, ps': Players, m: map<int, int>, games: seq<TourneyGame>, k: nat, g: TourneyGame)
    requires GamesOf(ps, m, games) && k <= |games| && NewGame(ps, m, g) && Awaited(ps', g)
    requires !HasGame(games, g.white) && !HasGame(games, g.black)
    requires ps'.Keys == ps.Keys && forall z :: z in ps && !Plays(g, z) ==> ps'[z] == ps[z]
    ensures GamesOf(ps', m, InsertAt(games, k, g))
  {
  }

  lemma StepInStep(drawn: Players, ps: Players, ps': Players, m: map<int, int>, games: seq<TourneyGame>, k: nat,
      g: TourneyGame, x: int)
    requires x in drawn && x in ps && x in ps' && x in m && k <= |games| && InStep(drawn, ps, m, games, x)
    requires Plays(g, x) ==> ColourOnly(ps[x], ps'[x]) && ps'[x].paired
    requires !Plays(g, x) ==> ps'[x] == ps[x]
    ensures InStep(drawn, ps', m, InsertAt(games, k, g), x)
  {
    hide HasGame, InsertAt;
    InsertHas(games, k, g, x);
    if Plays(g, x) {
      ColourOnlyTwice(drawn[x], ps[x], ps'[x]);
    }
  }

  /** Giving out one more game. */
  lemma ColourStep(drawn: Players, ps: Players, m: map<int, int>, games: seq<TourneyGame>, k: nat, g: TourneyGame)
    requires Colouring(drawn, ps, m, games) && NewGame(ps, m, g) && k <= |games|
    ensures Opponents(ps, g.white, g.black)
    ensures Colouring(drawn, GameGiven(ps, g), m, InsertAt(games, k, g))
  {
    GivenRecords(ps, m, g);
    var ps' := GameGiven(ps, g);
    hide GameGiven, InsertAt, Opponents, ColourOnly, Separate, GamesOf, HasGame, Awaited, Awaits;
    assert InStep(drawn, ps, m, games, g.white) && InStep(drawn, ps, m, games, g.black);
    InsertSeparate(games, k, g);
    GamesStand(ps, ps', m, games, k, g);
    hide InStep;
    forall x | x in ps'
      ensures InStep(drawn, ps', m, InsertAt(games, k, g), x)
    {
      StepInStep(drawn, ps, ps', m, games, k, g, x);
    }
  }

  /** The game of a pair, the first of whom is asked for its colour. */
  function GameBetween(ps: Players, x: int, y: int): TourneyGame
    requires x in ps && y in ps
  {
    if FirstPlaysWhite(ps[x], ps[y]) then TourneyGame(x, y) else TourneyGame(y, x)
  }

  /** Two players drawn against each other get one colour each: the record of one says white and that of the
      other black, and next time the other colour is due to both. */
  lemma OneOfEachColour(ps: Players, x: int, y: int)
    requires x in ps && y in ps && x != y && Awaits(ps, x, y, false) && Awaits(ps, y, x, false)
    ensures var g := GameBetween(ps, x, y);
      && ((g.white == x && g.black == y) || (g.white == y && g.black == x))
      && Opponents(ps, g.white, g.black)
      && var ps' := Coloured(ps, g.white, g.black);
      && g.white in ps' && g.black in ps'
      && Awaits(ps', g.white, g.black, true) && Awaits(ps', g.black, g.white, false)
      && ps'[g.white].dueColor == 0 && ps'[g.black].dueColor == 1
  {
    hide FirstPlaysWhite;
  }

  /** Both players of a pair get their colours and are marked. */
  lemma PairColoured(drawn: Players, ps: Players, m: map<int, int>, games: seq<TourneyGame>, k: nat, x: int)
    requires Colouring(drawn, ps, m, games) && k <= |games| && x in ps && !ps[x].paired
    ensures x in m && m[x] in ps
    ensures var y := m[x];
      var g := GameBetween(ps, x, y);
      && Opponents(ps, g.white, g.black)
      && var ps' := Coloured(ps, g.white, g.black);
        && x in ps' && y in ps' && x != y
        && Colouring(drawn, Marked(ps', x, y), m, InsertAt(games, k, g)) && Marked(ps', x, y).Keys == ps.Keys
        && forall z :: z in ps && (ps[z].paired || z == x) ==> Marked(ps', x, y)[z].paired
  {
    NewPair(drawn, ps, m, games, x);
    var g := GameBetween(ps, x, m[x]);
    assert NewGame(ps, m, g) && g in {TourneyGame(x, m[x]), TourneyGame(m[x], x)} && Plays(g, x);
    assert GameGiven(ps, g) == Marked(Coloured(ps, g.white, g.black), g.white, g.black);
    hide *;
    GivenRecords(ps, m, g);
    ColourStep(drawn, ps, m, games, k, g);
    MarkedEitherWay(Coloured(ps, g.white, g.black), g.white, g.black);
  }

  /** The players of a game are each other's opponents of the round. */
  predicate KnowsPartner(ps: Players, g: TourneyGame) {
    g.white in ps && g.black in ps && ps[g.white].oppName == g.black && ps[g.black].oppName == g.white
  }

  lemma HasGameMeansPlayer(ps: Players, m: map<int, int>, games: seq<TourneyGame>, x: int)
    requires GamesOf(ps, m, games) && HasGame(games, x)
    ensures x in ps
  {
  }

  lemma ColouredDrawn(before: Players, drawn: Players, ps: Players, m: map<int, int>, games: seq<TourneyGame>)
    requires Colouring(drawn, ps, m, games) && Drawn(before, drawn, m)
    ensures Drawn(before, ps, m)
  {
  }

  lemma ColouredKnow(drawn: Players, ps: Players, m: map<int, int>, games: seq<TourneyGame>, i: nat)
    requires Colouring(drawn, ps, m, games) && i < |games|
    ensures Awaited(ps, games[i]) && KnowsPartner(ps, games[i])
  {
  }

  lemma ColouredCovers(drawn: Players, ps: Players, listing: seq<int>, m: map<int, int>, games: seq<TourneyGame>)
    requires Colouring(drawn, ps, m, games) && (forall x :: x in ps <==> x in listing)
    requires forall x :: x in ps ==> ps[x].paired
    ensures Covers(games, listing)
  {
    hide ColourOnly, Separate, HasGame;
    forall x
      ensures HasGame(games, x) <==> x in listing
    {
      assert x in ps ==> InStep(drawn, ps, m, games, x);
      if HasGame(games, x) {
        HasGameMeansPlayer(ps, m, games, x);
      }
    }
  }

  /** When everybody has a colour, the games cover the players and the round is drawn. */
  lemma ColouredIsDrawn(before: Players, drawn: Players, ps: Players, listing: seq<int>, m: map<int, int>,
      games: seq<TourneyGame>)
    requires Colouring(drawn, ps, m, games) && Drawn(before, drawn, m) && Roster(before, listing)
    requires forall x :: x in ps ==> ps[x].paired
    ensures Drawn(before, ps, m) && Covers(games, listing)
    ensures forall i :: 0 <= i < |games| ==> Awaited(ps, games[i]) && KnowsPartner(ps, games[i])
  {
    ColouredDrawn(before, drawn, ps, m, games);
    assert forall x :: x in ps <==> x in listing;
    hide Colouring, Drawn, Covers, Awaited, KnowsPartner;
    ColouredCovers(drawn, ps, listing, m, games);
    forall i | 0 <= i < |games|
      ensures Awaited(ps, games[i]) && KnowsPartner(ps, games[i])
    {
      ColouredKnow(drawn, ps, m, games, i);
    }
  }

  lemma UnpairedIs(ps: Players, listing: seq<int>, x: int)
    requires x in ps && x in listing
    ensures UnpairedUpTo(ps, listing, |listing|)[x] == Unpaired(ps[x])
  {
  }

  lemma InStepAtStart(ps: Players, drawn: Players, m: map<int, int>, x: int)
    requires x in ps && x in drawn && x in m && drawn[x] == Unpaired(ps[x]) && Awaits(ps, x, m[x], false)
    ensures InStep(drawn, drawn, m, [], x) && Awaits(drawn, x, m[x], false)
  {
  }

  lemma OnTheList(ps: Players, listing: seq<int>, x: int)
    requires Roster(ps, listing)
    ensures x in ps <==> x in listing
  {
    hide Distinct;
  }

  lemma UnpairedKeys(ps: Players, listing: seq<int>)
    ensures UnpairedUpTo(ps, listing, |listing|).Keys == ps.Keys
  {
    hide Unpaired;
  }

  lemma PartneredKeys(ps: Players, m: map<int, int>)
    requires Partnered(ps, m)
    ensures m.Keys == ps.Keys
  {
    hide Awaits;
  }

  lemma PartneredAt(ps: Players, m: map<int, int>, x: int)
    requires Partnered(ps, m) && x in ps
    ensures m.Keys == ps.Keys && m[x] in ps && m[x] != x && m[m[x]] == x
    ensures ps[x].oppName == m[x] && Awaits(ps, x, m[x], false)
  {
    hide Awaits;
  }

  lemma PartneredFrom(ps: Players, drawn: Players, m: map<int, int>)
    requires drawn.Keys == ps.Keys && m.Keys == ps.Keys
    requires forall x :: x in ps ==> m[x] in ps && m[x] != x && m[m[x]] == x
    requires forall x :: x in ps ==> drawn[x].oppName == m[x] && Awaits(drawn, x, m[x], false)
    ensures Partnered(drawn, m)
  {
    hide Awaits;
  }

  lemma NoGamesGiven(drawn: Players, m: map<int, int>)
    requires Partnered(drawn, m) && forall x :: x in drawn ==> InStep(drawn, drawn, m, [], x)
    ensures Colouring(drawn, drawn, m, [])
  {
    hide Partnered, Awaits, InStep;
  }

  /** Before the first game nobody has a colour. */
  lemma ColouringStarts(ps: Players, drawn: Players, listing: seq<int>, m: map<int, int>)
    requires Partnered(ps, m) && Roster(ps, listing) && drawn == UnpairedUpTo(ps, listing, |listing|)
    ensures Colouring(drawn, drawn, m, [])
  {
    hide UnpairedUpTo, Awaits, InStep, Roster, Partnered, Colouring;
    UnpairedKeys(ps, listing);
    PartneredKeys(ps, m);
    forall x | x in ps
      ensures m[x] in ps && m[x] != x && m[m[x]] == x
      ensures drawn[x].oppName == m[x] && Awaits(drawn, x, m[x], false) && InStep(drawn, drawn, m, [], x)
    {
      OnTheList(ps, listing, x);
      PartneredAt(ps, m, x);
      UnpairedIs(ps, listing, x);
      InStepAtStart(ps, drawn, m, x);
    }
    PartneredFrom(ps, drawn, m);
    NoGamesGiven(drawn, m);
  }

  lemma DrawnUnpaired(before: Players, ps: Players, drawn: Players, listing: seq<int>, m: map<int, int>)
    requires Drawn(before, ps, m) && drawn == UnpairedUpTo(ps, listing, |listing|)
    ensures Drawn(before, drawn, m)
  {
  }

  /** Everybody and everybody's partner is on the list and has a place. */
  lemma EverybodyPlaced(ps: Players, listing: seq<int>, m: map<int, int>, place: map<int, int>)
    requires Partnered(ps, m) && Roster(ps, listing) && Within(place, listing)
    ensures InOrder(place, [])
    ensures forall x :: x in ps ==> x in listing && x in place && x in m && m[x] in place
    ensures forall k :: 0 <= k < |listing| ==> listing[k] in ps
  {
  }
}
