/** The colour counts of a record are those of its games, and the colours of a round follow the rule. */
module SwissTallies {
  import opened Swiss
  import opened SwissSearch
  import opened SwissRecords
  import opened SwissMirror
  import opened SwissOffsets
  import opened SwissRounds
  import opened SwissDraw
  import opened SwissColours
  import opened SwissAssignments

  // ----- counting colours -----

  /** How many games were played with a colour. */
  function Games(s: seq<Opponent>, white: bool): nat {
    if s == [] then 0 else Games(s[..|s| - 1], white) + if s[|s| - 1].white == white then 1 else 0
  }

  /** How many of the last games in a row were played with a colour. */
  function LastGames(s: seq<Opponent>, white: bool): nat {
    if s == [] || s[|s| - 1].white != white then 0 else LastGames(s[..|s| - 1], white) + 1
  }

  /** The counts of a record are those of a list of games. */
  predicate Tallied(p: TourneyPlayer, s: seq<Opponent>) {
    && p.totalWhites == Games(s, true) && p.totalBlacks == Games(s, false)
    && p.consecutiveWhites == LastGames(s, true) && p.consecutiveBlacks == LastGames(s, false)
  }

  ghost predicate Tallies(ps: Players) {
    forall x {:trigger ps[x]} :: x in ps ==> Tallied(ps[x], ps[x].opponents)
  }

  lemma {:induction false} GamesSame(s: seq<Opponent>, t: seq<Opponent>, white: bool)
    requires |s| == |t| && forall k :: 0 <= k < |s| ==> s[k].white == t[k].white
    ensures Games(s, white) == Games(t, white) && LastGames(s, white) == LastGames(t, white)
    decreases |s|
  {
    if s != [] {
      GamesSame(s[..|s| - 1], t[..|t| - 1], white);
    }
  }

  /** Everything the counts and the rule for colours look at, save the list of games. */
  predicate SameTones(p: TourneyPlayer, q: TourneyPlayer) {
    && q.totalWhites == p.totalWhites && q.totalBlacks == p.totalBlacks
    && q.consecutiveWhites == p.consecutiveWhites && q.consecutiveBlacks == p.consecutiveBlacks
  }

  predicate SameWhites(s: seq<Opponent>, t: seq<Opponent>) {
    |s| == |t| && forall k :: 0 <= k < |s| ==> s[k].white == t[k].white
  }

  lemma SameTallied(p: TourneyPlayer, q: TourneyPlayer)
    requires SameTones(p, q) && SameWhites(p.opponents, q.opponents) && Tallied(p, p.opponents)
    ensures Tallied(q, q.opponents)
  {
    GamesSame(p.opponents, q.opponents, true);
    GamesSame(p.opponents, q.opponents, false);
  }

  /** Records that agree on the counts and the colours of the games. */
  ghost predicate SameColours(ps: Players, ps': Players) {
    ps'.Keys <= ps.Keys &&
    forall x {:trigger ps'[x]} :: x in ps' ==> SameTones(ps[x], ps'[x]) && SameWhites(ps[x].opponents, ps'[x].opponents)
  }

  lemma ColoursKept(ps: Players, ps': Players)
    requires Tallies(ps) && SameColours(ps, ps')
    ensures Tallies(ps')
  {
    hide SameTones, SameWhites, Tallied;
    forall x | x in ps'
      ensures Tallied(ps'[x], ps'[x].opponents)
    {
      SameTallied(ps[x], ps'[x]);
    }
  }

  lemma NewcomerTallied(ps: Players, name: int, rating: int)
    requires Tallies(ps)
    ensures Tallies(ps[name := NewPlayer(name, rating, 0)])
  {
    hide Tallied;
    NewTallied(name, rating);
  }

  lemma NewTallied(name: int, rating: int)
    ensures Tallied(NewPlayer(name, rating, 0), [])
  {
  }

  lemma RoundTallied(ps: Players, listing: seq<int>)
    requires Tallies(ps)
    ensures Tallies(RoundPlayers(ps, listing))
  {
    hide Games, LastGames, Reals;
    NewTallied(BYE, 0);
    var ps' := RoundPlayers(ps, listing);
    forall x | x in ps'
      ensures Tallied(ps'[x], ps'[x].opponents)
    {
      assert x != BYE ==> x in ps;
    }
  }

  lemma ReportedTallied(ps: Players, white: int, black: int, result: int)
    requires Opponents(ps, white, black) && Tallies(ps)
    ensures Tallies(Reported(ps, white, black, result))
  {
    hide Tallied, Total;
    ColoursKept(ps, Reported(ps, white, black, result));
  }

  lemma CountedTallied(ps: Players)
    requires BYE in ps && Tallies(ps)
    ensures Tallies(CountBye(ps))
  {
    hide Tallied;
    ColoursKept(ps, CountBye(ps));
  }

  // ----- giving out colours -----

  /** The rule does not mind that the first of two players has white. */
  predicate ByRule(p: TourneyPlayer, q: TourneyPlayer) {
    FirstPlaysWhite(p, q) || !FirstPlaysWhite(q, p)
  }

  /** The counts are those of the games before the last one, which has no colour yet. */
  predicate TalliedBefore(p: TourneyPlayer) {
    p.opponents != [] && Tallied(p, p.opponents[..|p.opponents| - 1])
  }

  /** Who has a game has the counts to it; who has none has the record from before. */
  ghost predicate Toned(drawn: Players, ps: Players, games: seq<TourneyGame>) {
    && ps.Keys == drawn.Keys
    && (forall x {:trigger ps[x]} :: x in ps ==>
         if HasGame(games, x) then Tallied(ps[x], ps[x].opponents) else ps[x] == drawn[x])
    && forall i {:trigger games[i]} :: 0 <= i < |games| ==> RuleOf(drawn, ps, games[i])
  }

  /** The players of a game have its colours by the rule, and next time the other colour is due to each. */
  predicate RuleOf(drawn: Players, ps: Players, g: TourneyGame) {
    && g.white in drawn && g.black in drawn && g.white in ps && g.black in ps
    && ByRule(drawn[g.white], drawn[g.black]) && ps[g.white].dueColor == 0 && ps[g.black].dueColor == 1
  }

  lemma GotWhiteTallied(p: TourneyPlayer)
    requires TalliedBefore(p)
    ensures var q := GotWhite(p, |p.opponents| - 1); Tallied(q, q.opponents)
  {
    var q := GotWhite(p, |p.opponents| - 1);
    assert q.opponents[..|q.opponents| - 1] == p.opponents[..|p.opponents| - 1];
  }

  lemma GotBlackTallied(p: TourneyPlayer)
    requires TalliedBefore(p) && !p.opponents[|p.opponents| - 1].white
    ensures Tallied(GotBlack(p), GotBlack(p).opponents)
  {
  }

  lemma ToneStarts(drawn: Players)
    ensures Toned(drawn, drawn, [])
  {
  }

  /** The two records after a game is given out. */
  lemma GivenTallied(ps: Players, m: map<int, int>, g: TourneyGame)
    requires NewGame(ps, m, g) && TalliedBefore(ps[g.white]) && TalliedBefore(ps[g.black])
    ensures Opponents(ps, g.white, g.black)
    ensures var ps' := GameGiven(ps, g);
      && ps'.Keys == ps.Keys && (forall z {:trigger ps'[z]} :: z in ps && !Plays(g, z) ==> ps'[z] == ps[z])
      && Tallied(ps'[g.white], ps'[g.white].opponents) && Tallied(ps'[g.black], ps'[g.black].opponents)
      && ps'[g.white].dueColor == 0 && ps'[g.black].dueColor == 1
  {
    hide Tallied, TalliedBefore;
    GivenRecords(ps, m, g);
    PairTallied(ps[g.white], ps[g.black], g.white, g.black);
    var ps' := Coloured(ps, g.white, g.black);
    TalliedMarked(ps'[g.white]);
    TalliedMarked(ps'[g.black]);
  }

  /** Who has no colour yet is in no game, has the record from before, and may get a game with the partner. */
  lemma ToneFree(drawn: Players, ps: Players, m: map<int, int>, games: seq<TourneyGame>, x: int)
    requires Colouring(drawn, ps, m, games) && Toned(drawn, ps, games) && x in ps && !ps[x].paired
    ensures x in m && m[x] in ps && m[x] != x && x in drawn && m[x] in drawn
    ensures var g := GameBetween(ps, x, m[x]);
      && NewGame(ps, m, g) && !HasGame(games, g.white) && !HasGame(games, g.black)
      && g in {TourneyGame(x, m[x]), TourneyGame(m[x], x)}
      && ps[x] == drawn[x] && ps[m[x]] == drawn[m[x]] && ByRule(drawn[g.white], drawn[g.black])
  {
    hide Tallied, FirstPlaysWhite, HasGame, Awaits, ColourOnly, Partnered, Separate, GamesOf;
    NewPair(drawn, ps, m, games, x);
    assert InStep(drawn, ps, m, games, x) && InStep(drawn, ps, m, games, m[x]);
  }

  lemma GamesToned(drawn: Players, ps: Players, ps': Players, games: seq<TourneyGame>, k: nat, g: TourneyGame)
    requires Toned(drawn, ps, games) && k <= |games| && ps'.Keys == ps.Keys && RuleOf(drawn, ps', g)
    requires !HasGame(games, g.white) && !HasGame(games, g.black)
    requires forall z {:trigger ps'[z]} :: z in ps && !Plays(g, z) ==> ps'[z] == ps[z]
    requires Tallied(ps'[g.white], ps'[g.white].opponents) && Tallied(ps'[g.black], ps'[g.black].opponents)
    ensures Toned(drawn, ps', InsertAt(games, k, g))
  {
    hide Tallied, ByRule, HasGame, InsertAt;
    var more := InsertAt(games, k, g);
    forall z | z in ps'
      ensures if HasGame(more, z) then Tallied(ps'[z], ps'[z].opponents) else ps'[z] == drawn[z]
    {
      InsertHas(games, k, g, z);
    }
    forall i | 0 <= i < |more|
      ensures RuleOf(drawn, ps', more[i])
    {
      RuleStays(drawn, ps, ps', games, k, g, i);
    }
  }

  lemma RuleStays(drawn: Players, ps: Players, ps': Players, games: seq<TourneyGame>, k: nat, g: TourneyGame, i: nat)
    requires Toned(drawn, ps, games) && k <= |games| && ps'.Keys == ps.Keys && RuleOf(drawn, ps', g)
    requires !HasGame(games, g.white) && !HasGame(games, g.black) && i < |InsertAt(games, k, g)|
    requires forall z {:trigger ps'[z]} :: z in ps && !Plays(g, z) ==> ps'[z] == ps[z]
    ensures RuleOf(drawn, ps', InsertAt(games, k, g)[i])
  {
    hide Tallied, ByRule, HasGame;
    if i != k {
      var j := if i < k then i else i - 1;
      assert InsertAt(games, k, g)[i] == games[j];
      hide InsertAt;
      assert RuleOf(drawn, ps, games[j]);
      PlaysHas(games, j, games[j].white);
      PlaysHas(games, j, games[j].black);
    }
  }

  lemma PlaysHas(games: seq<TourneyGame>, j: nat, x: int)
    requires j < |games| && Plays(games[j], x)
    ensures HasGame(games, x)
  {
  }

  /** A game more keeps the counts right. */
  lemma ToneStep(drawn: Players, ps: Players, m: map<int, int>, games: seq<TourneyGame>, k: nat, x: int)
    requires Colouring(drawn, ps, m, games) && Toned(drawn, ps, games) && k <= |games| && x in ps && !ps[x].paired
    requires forall y :: y in drawn ==> TalliedBefore(drawn[y])
    ensures x in m && m[x] in ps && m[x] != x
    ensures var g := GameBetween(ps, x, m[x]);
      && Opponents(ps, g.white, g.black)
      && var ps' := Coloured(ps, g.white, g.black);
        && x in ps' && m[x] in ps'
        && Toned(drawn, Marked(ps', x, m[x]), InsertAt(games, k, g))
  {
    hide Tallied, TalliedBefore, FirstPlaysWhite, Toned, Colouring, HasGame, ByRule, GotWhite, GotBlack, Awaits;
    ToneFree(drawn, ps, m, games, x);
    var g := GameBetween(ps, x, m[x]);
    GivenTallied(ps, m, g);
    GamesToned(drawn, ps, GameGiven(ps, g), games, k, g);
    if g == TourneyGame(m[x], x) {
      MarkedEitherWay(Coloured(ps, g.white, g.black), g.white, g.black);
    }
  }

  lemma TalliedMarked(p: TourneyPlayer)
    ensures Tallied(p.(paired := true), p.opponents) <==> Tallied(p, p.opponents)
  {
  }

  lemma PairTallied(p: TourneyPlayer, q: TourneyPlayer, x: int, y: int)
    requires TalliedBefore(p) && TalliedBefore(q) && !q.opponents[|q.opponents| - 1].white
    requires p.opponents[|p.opponents| - 1].name == y
    ensures LastOf(p.opponents, y) == |p.opponents| - 1
    ensures Tallied(GotWhite(p, LastOf(p.opponents, y)), GotWhite(p, LastOf(p.opponents, y)).opponents)
    ensures Tallied(GotBlack(q), GotBlack(q).opponents)
  {
    GotWhiteTallied(p);
    GotBlackTallied(q);
  }

  // ----- from the records of a round to those of its games -----

  /** Two records agree on everything the rule for colours looks at. */
  predicate SameForRule(p: TourneyPlayer, q: TourneyPlayer) {
    SameTones(p, q) && q.dueColor == p.dueColor && q.score == p.score && q.rating == p.rating
  }

  ghost predicate Toning(ps: Players, ps': Players) {
    ps'.Keys == ps.Keys && forall x {:trigger ps'[x]} :: x in ps' ==> SameForRule(ps[x], ps'[x])
  }

  /** The search starts with the same colours and histories. */
  ghost predicate SearchTones(ps: Players, f: Field) {
    Toning(ps, f.ps) && forall x {:trigger f.ps[x]} :: x in f.ps ==> f.ps[x].opponents == ps[x].opponents
  }

  lemma FieldTones(ps: Players, listing: seq<int>, place: map<int, int>)
    requires Roster(ps, listing) && Within(ps, listing)
    ensures SearchTones(ps, RoundField(ps, listing, place))
  {
    hide RoundField, ReadyRecords, WithOffsets, ComparedOffset, Roster, SortOrder;
    RoundFieldKeys(ps, listing, place);
    forall x | x in ps
      ensures var q := RoundField(ps, listing, place).ps[x]; SameForRule(ps[x], q) && q.opponents == ps[x].opponents
    {
      ReadyRecord(ps, listing, x);
    }
  }

  /** A search that fails leaves the counts right. */
  lemma RestoredTallied(f: Field, ps: Players, ps': Players)
    requires Tallies(ps) && SearchTones(ps, f) && Restored(ps', f)
    ensures Tallies(ps')
  {
    hide Tallied;
    forall x | x in ps'
      ensures x in ps && SameTones(ps[x], ps'[x]) && ps'[x].opponents == ps[x].opponents
    {
      assert x in AllPlain(ps') && AllPlain(ps')[x] == Plain(ps'[x]);
    }
    ColoursKept(ps, ps');
  }

  /** The search leaves the counts those of the games before. */
  lemma FoundTones(f: Field, ps: Players, found: Players, m: map<int, int>)
    requires Ready(f) && Tallies(ps) && SearchTones(ps, f) && PairedBy(found, f, m)
    requires forall x {:trigger f.ps[x]} :: x in f.ps ==> x in f.order
    ensures Toning(ps, found) && forall x {:trigger found[x]} :: x in found ==> TalliedBefore(found[x])
  {
    hide Games, LastGames, Distinct;
    forall x | x in found
      ensures SameForRule(ps[x], found[x]) && TalliedBefore(found[x])
    {
      assert SameMan(found[x], f.ps[x]) && PairedWith(f, found[x], x, m[x]);
      assert found[x].opponents[..|found[x].opponents| - 1] == ps[x].opponents;
    }
  }

  lemma UnpairedTones(ps: Players, listing: seq<int>)
    ensures var drawn := UnpairedUpTo(ps, listing, |listing|);
      drawn.Keys == ps.Keys && forall x {:trigger drawn[x]} :: x in drawn ==>
        SameForRule(ps[x], drawn[x]) && (TalliedBefore(ps[x]) ==> TalliedBefore(drawn[x]))
  {
    hide Games, LastGames;
  }

  /** The colours of a round are given by the rule, from the records it started with. */
  ghost predicate ColouredByRule(ps: Players, ps': Players, games: seq<TourneyGame>) {
    forall i {:trigger games[i]} :: 0 <= i < |games| ==> RuleOf(ps, ps', games[i])
  }

  lemma AllToned(ps: Players, drawn: Players, ps': Players, m: map<int, int>, games: seq<TourneyGame>)
    requires Colouring(drawn, ps', m, games) && Toned(drawn, ps', games) && forall x :: x in ps' ==> ps'[x].paired
    requires Toning(ps, drawn)
    ensures Tallies(ps') && ColouredByRule(ps, ps', games)
  {
    hide HasGame, Tallied, ColourOnly, Awaits, GamesOf, Separate, FirstPlaysWhite;
    forall x | x in ps'
      ensures Tallied(ps'[x], ps'[x].opponents)
    {
      assert InStep(drawn, ps', m, games, x);
    }
    forall i | 0 <= i < |games|
      ensures RuleOf(ps, ps', games[i])
    {
      assert RuleOf(drawn, ps', games[i]);
      SameRule(ps[games[i].white], drawn[games[i].white], ps[games[i].black], drawn[games[i].black]);
    }
  }

  lemma SameRule(p: TourneyPlayer, p': TourneyPlayer, q: TourneyPlayer, q': TourneyPlayer)
    requires SameForRule(p, p') && SameForRule(q, q')
    ensures ByRule(p, q) <==> ByRule(p', q')
  {
  }

  lemma ToneThrough(ps: Players, found: Players, drawn: Players)
    requires Toning(ps, found) && Toning(found, drawn)
    ensures Toning(ps, drawn)
  {
  }

  /** Everything but the colour due is as it was. */
  ghost predicate OnlyDueDiffers(ps: Players, ps': Players) {
    ps'.Keys == ps.Keys && forall x {:trigger ps'[x]} :: x in ps' ==> ps'[x] == ps[x].(dueColor := ps'[x].dueColor)
  }

  lemma DueKeepsTallies(ps: Players, ps': Players)
    requires Tallies(ps) && OnlyDueDiffers(ps, ps')
    ensures Tallies(ps')
  {
    hide Tallied;
    ColoursKept(ps, ps');
  }

  // ----- the colours due at the start -----

  /** The colour due at the `k`-th place of the list: the first one and the other one in turn. */
  function DueAt(k: nat, first: int): int {
    if k % 2 == 0 then first else 1 - first
  }

  /** The records with the colours due to the first `n` players of the list. */
  ghost function DueInTurn(ps: Players, listing: seq<int>, n: nat, first: int): (ps': Players)
    requires Within(ps, listing) && n <= |listing|
    ensures ps'.Keys == ps.Keys
  {
    if n == 0 then ps
    else
      var before := DueInTurn(ps, listing, n - 1, first);
      before[listing[n - 1] := before[listing[n - 1]].(dueColor := DueAt(n - 1, first))]
  }

  lemma {:induction false} DueChanges(ps: Players, listing: seq<int>, n: nat, first: int)
    requires Within(ps, listing) && n <= |listing| && first in {0, 1}
    ensures OnlyDueDiffers(ps, DueInTurn(ps, listing, n, first))
  {
    hide DueAt;
    if n > 0 {
      DueChanges(ps, listing, n - 1, first);
    }
  }

  lemma {:induction false} DueIsColour(ps: Players, listing: seq<int>, n: nat, first: int, x: int)
    requires Within(ps, listing) && n <= |listing| && first in {0, 1} && x in ps
    ensures DueInTurn(ps, listing, n, first)[x].dueColor in {ps[x].dueColor, 0, 1}
  {
    if n > 0 {
      DueIsColour(ps, listing, n - 1, first, x);
    }
  }

  lemma {:induction false} DueInTurnAt(ps: Players, listing: seq<int>, n: nat, first: int, k: nat)
    requires Within(ps, listing) && Distinct(listing) && k < n <= |listing|
    ensures DueInTurn(ps, listing, n, first)[listing[k]].dueColor == DueAt(k, first)
  {
    if k < n - 1 {
      DueInTurnAt(ps, listing, n - 1, first, k);
    }
  }

  lemma DueKeepsHistories(ps: Players, ps': Players)
    requires OnlyDueDiffers(ps, ps')
    ensures SameHistories(ps, ps')
  {
  }

  // ----- what the rule says -----

  /** Of two players due different colours each gets the colour that is due. */
  lemma DueColoursAreGiven(p: TourneyPlayer, q: TourneyPlayer)
    requires p.dueColor == 1 && q.dueColor == 0
    ensures ByRule(p, q) && !ByRule(q, p)
  {
  }

  /** With the same colour due to both, who has gone without it longer gets it; then who had it less often, for white
      by the games with black and for black by the games with white; then the stronger one. */
  lemma DeniedLongerGetsIt(p: TourneyPlayer, q: TourneyPlayer)
    requires p.dueColor == q.dueColor == 1 && ByRule(p, q)
    ensures p.consecutiveBlacks >= q.consecutiveBlacks
    ensures p.consecutiveBlacks == q.consecutiveBlacks ==> p.totalBlacks >= q.totalBlacks
    ensures p.consecutiveBlacks == q.consecutiveBlacks && p.totalBlacks == q.totalBlacks ==>
      SortValue(p) >= SortValue(q)
  {
  }

  lemma DeniedBlackLongerGetsIt(p: TourneyPlayer, q: TourneyPlayer)
    requires p.dueColor == q.dueColor == 0 && ByRule(p, q)
    ensures q.consecutiveWhites >= p.consecutiveWhites
    ensures q.consecutiveWhites == p.consecutiveWhites ==> q.totalWhites >= p.totalWhites
    ensures q.consecutiveWhites == p.consecutiveWhites && q.totalWhites == p.totalWhites ==>
      SortValue(q) >= SortValue(p)
  {
  }

  /** Before any game the stronger of two players gets the colour that is due. */
  lemma StrongerGetsItsColour(p: TourneyPlayer, q: TourneyPlayer)
    requires Tallied(p, []) && Tallied(q, []) && SortValue(p) > SortValue(q)
    requires p.dueColor in {0, 1} && q.dueColor in {0, 1}
    ensures ByRule(p, q) <==> p.dueColor == 1
    ensures ByRule(q, p) <==> p.dueColor == 0
  {
  }
}
