/** The tournament as the server sees it: rounds of games are handed out and results come back. */
module ChessTourneys {
  import opened Swiss
  import opened SwissRounds
  import opened SwissDraw
  import opened SwissColours
  import opened SwissAssignments
  import opened Tourney
  import ChessGames
  import opened ChessBoard

  /** A player of the tournament: address and score. */
  datatype Entrant = Entrant(jid: string, score: int)

  /** A game to be started, by the addresses of white and black. */
  datatype Seating = Seating(white: string, black: string)

  datatype Match = NotReady | TourneyOver | Games(games: seq<Seating>)

  /** The result a report stands for: only the score of the player named first is looked at. */
  function ResultCode(white: ChessGames.Score): int {
    if white == ChessGames.Draw then 2 else if white == ChessGames.Win then 1 else 0
  }

  lemma CodeIsResult(white: ChessGames.Score)
    ensures ResultCode(white) in {0, 1, 2}
  {
  }

  /** What a score is worth, in half points. */
  function HalfPoints(s: ChessGames.Score): int {
    if s == ChessGames.Win then 2 else if s == ChessGames.Draw then 1 else 0
  }

  /** The points given are those reported exactly when the two reported scores share out one point. */
  lemma ReportedAsScoredIff(white: ChessGames.Score, black: ChessGames.Score)
    ensures HalfPoints(white) + HalfPoints(black) == 2 <==>
      && Points(ResultCode(white), true) == HalfPoints(white)
      && Points(ResultCode(white), false) == HalfPoints(black)
  {
  }

  /** So a game that was called off or adjourned, which has no scores, is a win for Black. */
  lemma NoResultIsAWinForBlack()
    ensures Points(ResultCode(ChessGames.NoResult), true) == 0 && Points(ResultCode(ChessGames.NoResult), false) == 2
  {
  }

  /** The scores of a game that came to its end always share out the point. */
  lemma EndedGamesShareThePoint(code: ChessGames.EndCode, resigned: Option<Color>, mated: Option<Color>,
      timeOver: Option<Color>)
    ensures var (white, black) := ChessGames.Scores(code, resigned, mated, timeOver);
      HalfPoints(white) + HalfPoints(black) == 2 <==> code != ChessGames.NoReason
  {
  }

  datatype Answer = Recorded | AlreadySet | UnknownPlayer

  function Numbers(n: nat): seq<int> {
    seq(n, i => i + 1)
  }

  /** The entrants have the names 1, 2, ... in the order they came. */
  ghost predicate Numbered(entrants: seq<Entrant>, listing: seq<int>) {
    Reals(listing) == Numbers(|entrants|)
  }

  ghost predicate Indexed(entrants: seq<Entrant>, playerMap: map<string, nat>) {
    && (forall i :: 0 <= i < |entrants| ==> entrants[i].jid in playerMap && playerMap[entrants[i].jid] == i)
    && (forall jid :: jid in playerMap ==> playerMap[jid] < |entrants| && entrants[playerMap[jid]].jid == jid)
  }

  /** The scores shown are those of the pairing. */
  ghost predicate Mirrored(entrants: seq<Entrant>, ps: Players) {
    forall x :: 1 <= x <= |entrants| ==> x in ps && entrants[x - 1].score == ps[x].score
  }

  predicate IsBye(g: TourneyGame) {
    Plays(g, BYE)
  }

  /** A game between entrants neither of whom has a result in this round. */
  ghost predicate OpenGame(entrants: seq<Entrant>, resultSet: set<string>, g: TourneyGame) {
    && 1 <= g.white <= |entrants| && 1 <= g.black <= |entrants|
    && entrants[g.white - 1].jid !in resultSet && entrants[g.black - 1].jid !in resultSet
  }

  ghost predicate OpenGames(entrants: seq<Entrant>, resultSet: set<string>, games: seq<TourneyGame>) {
    forall i :: 0 <= i < |games| ==> OpenGame(entrants, resultSet, games[i])
  }

  function ScoreSum(entrants: seq<Entrant>): int {
    if entrants == [] then 0 else ScoreSum(entrants[..|entrants| - 1]) + entrants[|entrants| - 1].score
  }

  lemma {:induction false} ScoreSumIsRealScore(entrants: seq<Entrant>, ps: Players, n: nat)
    requires Mirrored(entrants, ps) && n <= |entrants|
    ensures Within(ps, Numbers(n))
    ensures ScoreSum(entrants[..n]) == RealScore(ps, Numbers(n))
  {
    if n > 0 {
      ScoreSumIsRealScore(entrants, ps, n - 1);
      assert Numbers(n) == Numbers(n - 1) + [n] && entrants[..n][..n - 1] == entrants[..n - 1];
      assert n in ps;
      RealScoreSplit(ps, Numbers(n - 1), n);
    }
  }

  lemma {:induction false} RealScoreSplit(ps: Players, listing: seq<int>, name: int)
    requires Within(ps, listing) && name in ps && name != BYE
    ensures Within(ps, listing + [name]) && RealScore(ps, listing + [name]) == RealScore(ps, listing) + ps[name].score
    decreases |listing|
  {
    if listing != [] {
      assert (listing + [name])[1..] == listing[1..] + [name];
      RealScoreSplit(ps, listing[1..], name);
    }
  }

  /** The scores of the entrants add up to two half points for every result recorded. */
  lemma ScoresAddUp(entrants: seq<Entrant>, ps: Players, listing: seq<int>, games: seq<TourneyGame>, recorded: nat)
    requires Books(ps, listing, games, recorded) && Numbered(entrants, listing) && Mirrored(entrants, ps)
    ensures ScoreSum(entrants) == 2 * recorded
  {
    var names := Reals(listing);
    assert entrants[..|entrants|] == entrants;
    ScoreSumIsRealScore(entrants, ps, |entrants|);
    RealsOf(ps, listing);
    if listing == names + [BYE] {
      RealScoreNewcomer(ps, names, BYE);
    }
  }

  // ----- the games of a round -----

  /** The games without those of a bye. */
  function RealGames(games: seq<TourneyGame>): seq<TourneyGame> {
    if games == [] then []
    else
      var last := games[|games| - 1];
      RealGames(games[..|games| - 1]) + if IsBye(last) then [] else [last]
  }

  lemma {:induction false} NoByeNoChange(games: seq<TourneyGame>)
    requires forall i :: 0 <= i < |games| ==> !IsBye(games[i])
    ensures RealGames(games) == games
    decreases |games|
  {
    if games != [] {
      NoByeNoChange(games[..|games| - 1]);
    }
  }

  /** With one bye the real games are the others, in order. */
  lemma {:induction false} OneByeRemoved(games: seq<TourneyGame>, k: nat)
    requires k < |games| && forall i :: 0 <= i < |games| ==> (IsBye(games[i]) <==> i == k)
    ensures RealGames(games) == RemoveAt(games, k)
    decreases |games|
  {
    var n := |games| - 1;
    if k == n {
      NoByeNoChange(games[..n]);
    } else {
      OneByeRemoved(games[..n], k);
      assert games[..n] == games[..k] + games[k..n];
      assert RemoveAt(games, k) == RemoveAt(games[..n], k) + [games[n]];
    }
  }

  predicate Known(entrants: seq<Entrant>, g: TourneyGame) {
    1 <= g.white <= |entrants| && 1 <= g.black <= |entrants|
  }

  /** Who sits where in a game. */
  function Seat(entrants: seq<Entrant>, g: TourneyGame): Seating
    requires Known(entrants, g)
  {
    Seating(entrants[g.white - 1].jid, entrants[g.black - 1].jid)
  }

  /** The games handed out are the real games of the list, in its order. */
  ghost predicate Seated(entrants: seq<Entrant>, games: seq<TourneyGame>, seats: seq<Seating>) {
    && |seats| == |games|
    && forall i :: 0 <= i < |games| ==> Known(entrants, games[i]) && seats[i] == Seat(entrants, games[i])
  }

  /** The bye of a round, if the number of players is odd. */
  ghost predicate ByeOf(bye: int, n: nat, games: seq<TourneyGame>) {
    && (if n % 2 == 0 then bye == -1 else 1 <= bye <= n)
    && Separate(games)
    && forall x :: 1 <= x <= n ==> (HasGame(games, x) <==> x != bye)
  }

  lemma ListedNames(entrants: seq<Entrant>, ps: Players, listing: seq<int>)
    requires Numbered(entrants, listing) && Roster(ps, listing)
    ensures forall x :: x in listing && x != BYE <==> 1 <= x <= |entrants|
    ensures forall x :: x in ps && x != BYE <==> 1 <= x <= |entrants|
  {
    RealsOf(ps, listing);
    var names := Numbers(|entrants|);
    forall x
      ensures x in names <==> 1 <= x <= |entrants|
    {
      if 1 <= x <= |entrants| {
        assert names[x - 1] == x;
      }
    }
  }

  /** In an open round a game is a bye or between two entrants. */
  lemma RoundKnown(entrants: seq<Entrant>, ps: Players, listing: seq<int>, games: seq<TourneyGame>, i: nat)
    requires Numbered(entrants, listing) && Roster(ps, listing) && Covers(games, listing) && i < |games|
    ensures IsBye(games[i]) || Known(entrants, games[i])
  {
    ListedNames(entrants, ps, listing);
    assert Plays(games[i], games[i].white) && Plays(games[i], games[i].black);
    assert HasGame(games, games[i].white) && HasGame(games, games[i].black);
  }

  lemma OneBye(games: seq<TourneyGame>, k: nat)
    requires Separate(games) && k < |games| && IsBye(games[k])
    ensures forall i :: 0 <= i < |games| ==> (IsBye(games[i]) <==> i == k)
  {
  }

  /** After the bye is scored the open games cover everybody but the player who had it. */
  lemma ByeLeaves(entrants: seq<Entrant>, ps: Players, listing: seq<int>, games: seq<TourneyGame>, k: nat)
    requires Numbered(entrants, listing) && Roster(ps, listing) && Covers(games, listing)
    requires k < |games| && IsBye(games[k]) && |entrants| % 2 == 1
    ensures ByeOf(OtherOf(games[k], BYE), |entrants|, RemoveAt(games, k))
  {
    ListedNames(entrants, ps, listing);
    RemoveFromRound(map[], games, k);
    var g := games[k];
    assert Plays(g, OtherOf(g, BYE)) && HasGame(games, OtherOf(g, BYE));
  }

  lemma NoByeLeaves(entrants: seq<Entrant>, ps: Players, listing: seq<int>, games: seq<TourneyGame>)
    requires Numbered(entrants, listing) && Roster(ps, listing) && Covers(games, listing) && |entrants| % 2 == 0
    ensures ByeOf(-1, |entrants|, games)
  {
    ListedNames(entrants, ps, listing);
  }

  lemma DrawnHasPlayers(ps: Players, listing: seq<int>, entrants: seq<Entrant>)
    requires CanDraw(ps, listing) && Numbered(entrants, listing)
    ensures entrants != []
  {
    hide RematchFree, RoundPlayers;
  }

  /** A round has a game to play unless its only player has the bye. */
  lemma GamesOfRound(entrants: seq<Entrant>, resultSet: set<string>, games: seq<TourneyGame>, bye: int)
    requires entrants != [] && OpenGames(entrants, resultSet, games) && ByeOf(bye, |entrants|, games)
    ensures games == [] <==> |entrants| == 1
  {
    hide Separate;
    if games != [] {
      assert OpenGame(entrants, resultSet, games[0]) && HasGame(games, games[0].white);
    } else {
      assert !HasGame(games, 1) && !HasGame(games, 2);
    }
  }

  class ChessTourney {
    const tourney: Tourney
    const rounds: int
    var missingRounds: int
    var started: bool
    var missingResults: bool
    var entrants: seq<Entrant>
    var playerMap: map<string, nat>
    var resultSet: set<string>

    /** What holds between calls. */
    ghost predicate Valid()
      reads this, tourney
    {
      && tourney.Valid()
      && Numbered(entrants, tourney.playerList) && Indexed(entrants, playerMap) && Mirrored(entrants, tourney.players)
      && OpenGames(entrants, resultSet, tourney.gameList)
      && (!missingResults ==> tourney.gameList == [])
      && (!started ==> BYE !in tourney.playerList && !missingResults)
      && missingRounds <= rounds
    }

    /** Results are waited for, but no game is open that could have one. */
    predicate Stalled()
      reads this, tourney
    {
      missingResults && tourney.gameList == []
    }

    constructor (rounds: int)
      ensures Valid() && fresh(tourney) && this.rounds == missingRounds == rounds && entrants == []
      ensures !started && !missingResults && tourney.recorded == 0
    {
      this.rounds := rounds;
      missingRounds := rounds;
      started, missingResults := false, false;
      entrants, playerMap, resultSet := [], map[], {};
      tourney := new Tourney();
      new;
      assert Numbers(0) == [];
    }

    method AddPlayer(jid: string, rating: int)
      requires Valid() && !started && jid !in playerMap && rating >= 0
      modifies this, tourney
      ensures Valid() && !started && entrants == old(entrants) + [Entrant(jid, 0)]
      ensures missingRounds == old(missingRounds) && tourney.recorded == old(tourney.recorded)
    {
      var newcomer := Entrant(jid, 0);
      BooksRoster(tourney.players, tourney.playerList, tourney.recorded);
      NextNumber(entrants, tourney.players, tourney.playerList, newcomer);
      NextMirrored(entrants, tourney.players, rating, newcomer);
      NextIndexed(entrants, playerMap, newcomer);
      hide Numbered, Indexed, Mirrored, Books, NewPlayer;
      tourney.AddPlayer(|entrants| + 1, rating);
      entrants := entrants + [newcomer];
      playerMap := playerMap[jid := |entrants| - 1];
    }

    /** Starts the next round once every result of the last one is in, unless all rounds are played. */
    method NextRound(firstColor: int) returns (m: Match, ghost drawn: bool)
      requires Valid() && firstColor in {0, 1}
      modifies this, tourney
      ensures Valid()
      ensures old(missingResults) ==> m == NotReady && unchanged(this) && unchanged(tourney)
      ensures !old(missingResults) && old(missingRounds) == 0 ==>
        m == TourneyOver && unchanged(this) && unchanged(tourney)
      ensures !old(missingResults) && old(missingRounds) != 0 ==>
        && m.Games? && old(tourney.gameList) == [] && Seated(entrants, tourney.gameList, m.games)
        && missingRounds == old(missingRounds) - 1 && missingResults && started && resultSet == {}
      ensures m.Games? ==>
        && (drawn <==> CanDraw(old(tourney.players), old(tourney.playerList)))
        && (drawn ==> exists bye :: ByeOf(bye, |entrants|, tourney.gameList))
        && (!drawn ==> tourney.gameList == [])
        && tourney.recorded == old(tourney.recorded) + if drawn then |entrants| % 2 else 0
      ensures m.Games? ==> (Stalled() <==> !drawn || |entrants| == 1)
      ensures old(Stalled()) ==> m == NotReady && Stalled()
    {
      drawn := false;
      if missingResults {
        return NotReady, drawn;
      }
      if missingRounds == 0 {
        return TourneyOver, drawn;
      }
      hide Numbered, Indexed, Mirrored, OpenGames, Books, CanDraw, Seated, ByeOf;
      m, drawn := PlayRound(firstColor);
      if drawn {
        DrawnHasPlayers(old(tourney.players), old(tourney.playerList), old(entrants));
        ghost var bye :| ByeOf(bye, |entrants|, tourney.gameList);
        GamesOfRound(entrants, resultSet, tourney.gameList, bye);
      }
    }

    /** Draws a round and hands out its games. */
    method PlayRound(firstColor: int) returns (m: Match, ghost drawn: bool)
      requires tourney.Valid() && tourney.gameList == [] && firstColor in {0, 1}
      requires Numbered(entrants, tourney.playerList) && Indexed(entrants, playerMap)
        && Mirrored(entrants, tourney.players)
      modifies this, tourney
      ensures tourney.Valid() && playerMap == old(playerMap)
      ensures Numbered(entrants, tourney.playerList) && Indexed(entrants, playerMap)
        && Mirrored(entrants, tourney.players)
      ensures OpenGames(entrants, resultSet, tourney.gameList)
      ensures m.Games? && Seated(entrants, tourney.gameList, m.games)
      ensures missingRounds == old(missingRounds) - 1 && missingResults && started && resultSet == {}
      ensures drawn <==> CanDraw(old(tourney.players), old(tourney.playerList))
      ensures drawn ==> exists bye :: ByeOf(bye, |entrants|, tourney.gameList)
      ensures !drawn ==> tourney.gameList == []
      ensures tourney.recorded == old(tourney.recorded) + if drawn then |entrants| % 2 else 0
    {
      hide *;
      missingRounds := missingRounds - 1;
      drawn := DrawRound(firstColor);
      missingResults := true;
      resultSet := {};
      var seats := MakeGames(drawn);
      m := Games(seats);
    }

    /** The draw of a round; the first one also says which colours are due. */
    method DrawRound(firstColor: int) returns (ghost drawn: bool)
      requires tourney.Valid() && tourney.gameList == [] && firstColor in {0, 1}
      requires Numbered(entrants, tourney.playerList) && Mirrored(entrants, tourney.players)
      modifies this`started, tourney
      ensures tourney.Valid() && tourney.recorded == old(tourney.recorded) && started
      ensures Numbered(entrants, tourney.playerList) && Mirrored(entrants, tourney.players)
      ensures BYE in tourney.playerList <==> |entrants| % 2 == 1
      ensures drawn <==> CanDraw(old(tourney.players), old(tourney.playerList))
      ensures if drawn then RoundOpen(tourney.players, tourney.playerList, tourney.place, tourney.gameList)
        else tourney.gameList == []
    {
      hide *;
      ghost var ps, listing := tourney.players, tourney.playerList;
      var done;
      if started {
        done := tourney.MakeAssignments();
      } else {
        done := tourney.Start(firstColor);
        started := true;
      }
      drawn := done == 1;
      RoundEntrants(entrants, ps, tourney.players, listing);
    }

    /** The games of the round just drawn; a bye is scored at once. */
    method MakeGames(ghost drawn: bool) returns (seats: seq<Seating>)
      requires tourney.Valid() && Numbered(entrants, tourney.playerList) && Indexed(entrants, playerMap)
      requires Mirrored(entrants, tourney.players)
      requires if drawn then RoundOpen(tourney.players, tourney.playerList, tourney.place, tourney.gameList)
        else tourney.gameList == []
      requires BYE in tourney.playerList <==> |entrants| % 2 == 1
      modifies this`entrants, tourney
      ensures tourney.Valid() && Numbered(entrants, tourney.playerList) && Indexed(entrants, playerMap)
      ensures Mirrored(entrants, tourney.players) && tourney.playerList == old(tourney.playerList)
      ensures Seated(entrants, tourney.gameList, seats)
      ensures OpenGames(entrants, {}, tourney.gameList) && |entrants| == |old(entrants)|
      ensures drawn ==> exists bye :: ByeOf(bye, |entrants|, tourney.gameList)
      ensures !drawn ==> tourney.gameList == []
      ensures tourney.recorded == old(tourney.recorded) + if drawn then |entrants| % 2 else 0
    {
      hide Numbered, Indexed, Mirrored, Books, RoundOpen, Roster, Covers, Separate, Seated, ByesSoFar, RealGames;
      hide KnowsPartner, ByeOf, Opponents, RemoveAt, ByeScored, OtherOf, Known, OpenGames, OpenGame;
      var games := tourney.gameList;
      ghost var ps, listing := tourney.players, tourney.playerList;
      assert Books(ps, listing, games, tourney.recorded);
      RoundFacts(ps, listing, games, tourney.recorded, if drawn then tourney.place else map[], drawn);
      var bye: int;
      ghost var k: nat;
      seats, bye, k := CollectSeats(drawn);
      RoundSeats(entrants, ps, listing, tourney.place, games, bye, k, drawn);
      assert drawn && bye == 0 ==> ByeOf(-1, |entrants|, games);
      if bye == 1 {
        ScoreTheBye(k);
        assert ByeOf(OtherOf(games[k], BYE), |entrants|, tourney.gameList);
      }
      SeatedKeeps(old(entrants), entrants, tourney.gameList, seats);
    }

    /** The seats of the real games of a round, in order, and how many byes there are among its games. */
    method CollectSeats(ghost drawn: bool) returns (seats: seq<Seating>, bye: int, ghost k: nat)
      requires Numbered(entrants, tourney.playerList) && Roster(tourney.players, tourney.playerList)
      requires Separate(tourney.gameList)
      requires if drawn then Covers(tourney.gameList, tourney.playerList) else tourney.gameList == []
      ensures Seated(entrants, RealGames(tourney.gameList), seats)
      ensures ByesSoFar(tourney.gameList, |tourney.gameList|, bye, k)
    {
      hide Numbered, Roster, Covers, Seated, ByesSoFar, RealGames;
      var games := tourney.gameList;
      bye, k, seats := 0, 0, [];
      NoGamesYet(entrants, games);
      for i := 0 to |games|
        invariant Seated(entrants, RealGames(games[..i]), seats) && ByesSoFar(games, i, bye, k)
      {
        RealGamesNext(games, i);
        NextBye(games, i, bye, k);
        RoundKnown(entrants, tourney.players, tourney.playerList, games, i);
        if games[i].white == BYE || games[i].black == BYE {
          bye := bye + 1;
          k := i;
        } else {
          SeatNext(entrants, RealGames(games[..i]), seats, games[i]);
          seats := seats + [Seating(entrants[games[i].white - 1].jid, entrants[games[i].black - 1].jid)];
        }
      }
      assert games[..|games|] == games;
    }

    /** The player who has the bye gets a win, here and in the books. */
    method ScoreTheBye(ghost k: nat)
      requires tourney.Valid() && Numbered(entrants, tourney.playerList) && Indexed(entrants, playerMap)
      requires Mirrored(entrants, tourney.players)
      requires k < |tourney.gameList| && IsBye(tourney.gameList[k])
        && KnowsPartner(tourney.players, tourney.gameList[k])
      requires BYE in tourney.playerList
      modifies this`entrants, tourney
      ensures tourney.Valid() && Numbered(entrants, tourney.playerList) && Indexed(entrants, playerMap)
      ensures Mirrored(entrants, tourney.players) && tourney.playerList == old(tourney.playerList)
      ensures tourney.gameList == RemoveAt(old(tourney.gameList), k) && tourney.recorded == old(tourney.recorded) + 1
      ensures |entrants| == |old(entrants)|
      ensures forall i :: 0 <= i < |entrants| ==> entrants[i].jid == old(entrants)[i].jid
    {
      hide Numbered, Indexed, Mirrored, Books, Separate, KnowsPartner, Opponents, RemoveAt, ByeScored, OtherOf;
      ghost var ps, games, n := tourney.players, tourney.gameList, tourney.recorded;
      var name := tourney.SetByeResult(k);
      ByeMirrors(entrants, ps, tourney.playerList, games, k, n);
      RescoredSame(entrants, playerMap, tourney.playerList, name - 1, tourney.players[name].score);
      entrants := entrants[name - 1 := entrants[name - 1].(score := tourney.players[name].score)];
    }

    /** Takes the result of a game that was handed out; a second report of it is refused. */
    method AddResult(white: string, black: string, whiteScore: ChessGames.Score, blackScore: ChessGames.Score,
        ghost k: nat)
      returns (a: Answer)
      requires Valid()
      requires Verdict(resultSet, playerMap, white, black) == Recorded ==>
        k < |tourney.gameList| && tourney.gameList[k] == TourneyGame(playerMap[white] + 1, playerMap[black] + 1)
      modifies this`entrants, this`resultSet, this`missingResults, tourney
      ensures Valid() && a == Verdict(old(resultSet), playerMap, white, black)
      ensures a != Recorded ==> unchanged(this) && unchanged(tourney)
      ensures a == Recorded ==>
        && resultSet == old(resultSet) + {white, black} && tourney.recorded == old(tourney.recorded) + 1
        && tourney.gameList == RemoveAt(old(tourney.gameList), k) && missingResults == (tourney.gameList != [])
        && playerMap[white] < |old(entrants)| && playerMap[black] < |old(entrants)|
        && entrants == Credited(old(entrants), playerMap[white], playerMap[black], ResultCode(whiteScore))
      ensures old(Stalled()) ==> a != Recorded && Stalled()
    {
      if white in resultSet {
        return AlreadySet;
      }
      if white !in playerMap {
        return UnknownPlayer;
      }
      if black in resultSet {
        return AlreadySet;
      }
      if black !in playerMap {
        return UnknownPlayer;
      }
      ResultReady(entrants, tourney.players, tourney.playerList, tourney.gameList, tourney.recorded, playerMap,
          resultSet, k, white, black);
      CodeIsResult(whiteScore);
      hide *;
      Record(playerMap[white], playerMap[black], ResultCode(whiteScore), k);
      return Recorded;
    }

    /** Records the result of a game between the entrants `i` and `j`. */
    method Record(i: nat, j: nat, result: int, ghost k: nat)
      requires Valid() && result in {0, 1, 2} && i < |entrants| && j < |entrants|
      requires k < |tourney.gameList| && tourney.gameList[k] == TourneyGame(i + 1, j + 1)
      requires ByeIsWon(tourney.gameList[k], result) && Separate(tourney.gameList)
        && Awaited(tourney.players, tourney.gameList[k])
      requires GoodRecord(tourney.players, i + 1) && GoodRecord(tourney.players, j + 1)
      modifies this`entrants, this`resultSet, this`missingResults, tourney
      ensures Valid() && tourney.recorded == old(tourney.recorded) + 1
      ensures resultSet == old(resultSet) + {old(entrants)[i].jid, old(entrants)[j].jid}
      ensures tourney.gameList == RemoveAt(old(tourney.gameList), k) && missingResults == (tourney.gameList != [])
      ensures entrants == Credited(old(entrants), i, j, result)
    {
      hide Numbered, Indexed, Mirrored, OpenGames, Books, Credited, Reported, Opponents, RemoveAt, Separate, Awaited,
        GoodRecord, ByeIsWon;
      ghost var es, ps, games := entrants, tourney.players, tourney.gameList;
      resultSet := resultSet + {entrants[i].jid, entrants[j].jid};
      var more := tourney.SetGameResult(i + 1, j + 1, result, k);
      missingResults := more != 2;
      ResultKeeps(es, ps, tourney.players, tourney.playerList, games, playerMap, old(resultSet), k, i, j, result);
      entrants := entrants[i := entrants[i].(score := tourney.players[i + 1].score)];
      entrants := entrants[j := entrants[j].(score := tourney.players[j + 1].score)];
    }
  }

  // ----- handing out the games -----

  lemma RealGamesNext(games: seq<TourneyGame>, i: nat)
    requires i < |games|
    ensures RealGames(games[..i + 1]) == if IsBye(games[i]) then RealGames(games[..i])
      else RealGames(games[..i]) + [games[i]]
  {
    assert games[..i + 1][..i] == games[..i];
  }

  lemma SeatNext(entrants: seq<Entrant>, games: seq<TourneyGame>, seats: seq<Seating>, g: TourneyGame)
    requires Seated(entrants, games, seats) && Known(entrants, g)
    ensures Seated(entrants, games + [g], seats + [Seat(entrants, g)])
  {
  }

  /** No bye among the first games, or one bye, at position `k`. */
  ghost predicate ByesSoFar(games: seq<TourneyGame>, i: nat, bye: int, k: nat)
    requires i <= |games|
  {
    || (bye == 0 && forall j :: 0 <= j < i ==> !IsBye(games[j]))
    || (bye == 1 && k < i && IsBye(games[k]))
  }

  lemma NextBye(games: seq<TourneyGame>, i: nat, bye: int, k: nat)
    requires Separate(games) && i < |games| && ByesSoFar(games, i, bye, k)
    ensures IsBye(games[i]) ==> bye == 0 && ByesSoFar(games, i + 1, 1, i)
    ensures !IsBye(games[i]) ==> ByesSoFar(games, i + 1, bye, k)
  {
  }

  /** Scoring the bye shows in the score of the player who had it and in no other. */
  lemma ByeMirrors(entrants: seq<Entrant>, ps: Players, listing: seq<int>, games: seq<TourneyGame>, k: nat,
      recorded: nat)
    requires Books(ps, listing, games, recorded) && Numbered(entrants, listing) && Mirrored(entrants, ps)
    requires k < |games| && IsBye(games[k]) && Opponents(ps, games[k].white, games[k].black)
    ensures var name, ps' := OtherOf(games[k], BYE), ByeScored(ps, games[k]);
      && 1 <= name <= |entrants| && name in ps'
      && Mirrored(entrants[name - 1 := entrants[name - 1].(score := ps'[name].score)], ps')
  {
  }

  lemma RescoredSame(entrants: seq<Entrant>, playerMap: map<string, nat>, listing: seq<int>, i: nat, score: int)
    requires i < |entrants| && Indexed(entrants, playerMap) && Numbered(entrants, listing)
    ensures Indexed(entrants[i := entrants[i].(score := score)], playerMap)
    ensures Numbered(entrants[i := entrants[i].(score := score)], listing)
  {
  }

  lemma NoGamesYet(entrants: seq<Entrant>, games: seq<TourneyGame>)
    ensures Seated(entrants, RealGames(games[..0]), []) && ByesSoFar(games, 0, 0, 0)
  {
  }

  lemma RoundFacts(ps: Players, listing: seq<int>, games: seq<TourneyGame>, recorded: nat, place: map<int, int>,
      drawn: bool)
    requires Books(ps, listing, games, recorded) && (drawn ==> RoundOpen(ps, listing, place, games))
    ensures Roster(ps, listing) && Separate(games) && (drawn ==> Covers(games, listing))
  {
  }

  /** What the scan over the games of a round finds: no bye in an even round, one in an odd round. */
  lemma RoundSeats(entrants: seq<Entrant>, ps: Players, listing: seq<int>, place: map<int, int>,
      games: seq<TourneyGame>, bye: int, k: nat, drawn: bool)
    requires if drawn then RoundOpen(ps, listing, place, games) else games == []
    requires Numbered(entrants, listing) && Roster(ps, listing)
    requires BYE in listing <==> |entrants| % 2 == 1
    requires ByesSoFar(games, |games|, bye, k)
    ensures bye == 1 || bye == 0
    ensures bye == 0 ==> RealGames(games) == games
    ensures bye == 0 && drawn ==> |entrants| % 2 == 0 && ByeOf(-1, |entrants|, games)
    ensures bye == 1 ==>
      && drawn && |entrants| % 2 == 1 && k < |games| && IsBye(games[k]) && KnowsPartner(ps, games[k])
      && RealGames(games) == RemoveAt(games, k) && ByeOf(OtherOf(games[k], BYE), |entrants|, RemoveAt(games, k))
  {
    hide Roster, InOrder, Numbered;
    if bye == 0 {
      NoByeNoChange(games);
      assert !HasGame(games, BYE);
      if drawn {
        NoByeLeaves(entrants, ps, listing, games);
      }
    } else {
      OneBye(games, k);
      OneByeRemoved(games, k);
      assert HasGame(games, BYE);
      ByeLeaves(entrants, ps, listing, games, k);
    }
  }

  lemma SeatedKeeps(entrants: seq<Entrant>, entrants': seq<Entrant>, games: seq<TourneyGame>, seats: seq<Seating>)
    requires Seated(entrants, games, seats) && |entrants'| == |entrants|
    requires forall i :: 0 <= i < |entrants| ==> entrants'[i].jid == entrants[i].jid
    ensures Seated(entrants', games, seats) && OpenGames(entrants', {}, games)
  {
  }

  /** A game that may be reported is between two entrants. */
  lemma ResultReady(entrants: seq<Entrant>, ps: Players, listing: seq<int>, games: seq<TourneyGame>, recorded: nat,
                    playerMap: map<string, nat>, resultSet: set<string>, k: nat, white: string, black: string)
    requires Books(ps, listing, games, recorded) && Indexed(entrants, playerMap)
      && OpenGames(entrants, resultSet, games)
    requires white in playerMap && black in playerMap && k < |games|
    requires games[k] == TourneyGame(playerMap[white] + 1, playerMap[black] + 1)
    ensures playerMap[white] < |entrants| && playerMap[black] < |entrants|
    ensures entrants[playerMap[white]].jid == white && entrants[playerMap[black]].jid == black
    ensures Separate(games) && Awaited(ps, games[k]) && GoodRecord(ps, games[k].white) && GoodRecord(ps, games[k].black)
    ensures forall result :: ByeIsWon(games[k], result)
  {
  }

  /** Recording a result keeps what the server knows in step with the books. */
  lemma ResultKeeps(entrants: seq<Entrant>, ps: Players, ps': Players, listing: seq<int>, games: seq<TourneyGame>,
                    playerMap: map<string, nat>, resultSet: set<string>, k: nat, i: nat, j: nat, result: int)
    requires Numbered(entrants, listing) && Indexed(entrants, playerMap) && Mirrored(entrants, ps)
    requires OpenGames(entrants, resultSet, games) && Separate(games) && k < |games|
      && games[k] == TourneyGame(i + 1, j + 1)
    requires Awaited(ps, games[k]) && GoodRecord(ps, i + 1) && GoodRecord(ps, j + 1)
    requires Opponents(ps, i + 1, j + 1) && ps' == Reported(ps, i + 1, j + 1, result)
    requires i < |entrants| && j < |entrants|
    ensures i + 1 in ps' && j + 1 in ps'
    ensures entrants[i := entrants[i].(score := ps'[i + 1].score)][j := entrants[j].(score := ps'[j + 1].score)]
      == Credited(entrants, i, j, result)
    ensures Mirrored(Credited(entrants, i, j, result), ps')
    ensures Numbered(Credited(entrants, i, j, result), listing) && Indexed(Credited(entrants, i, j, result), playerMap)
    ensures OpenGames(Credited(entrants, i, j, result), resultSet + {entrants[i].jid, entrants[j].jid},
      RemoveAt(games, k))
  {
    hide OpenGames, Separate, Awaited, GoodRecord, Reported, Opponents, RemoveAt, Points, Mirrored, Indexed;
    CreditedMirrors(entrants, ps, games[k], result);
    CreditedIndexed(entrants, playerMap, i, j, result);
    OthersOpen(entrants, Credited(entrants, i, j, result), playerMap, resultSet, games, k);
    NumberedSame(entrants, Credited(entrants, i, j, result), listing);
  }

  /** Drawing a round leaves numbers and scores alone and adds a bye to an odd number. */
  lemma RoundEntrants(entrants: seq<Entrant>, ps: Players, ps': Players, listing: seq<int>)
    requires Numbered(entrants, listing) && Mirrored(entrants, ps) && SameScores(ps, ps')
    ensures Numbered(entrants, WithBye(listing)) && Mirrored(entrants, ps')
    ensures BYE in WithBye(listing) <==> |entrants| % 2 == 1
  {
  }

  lemma NumberedSame(entrants: seq<Entrant>, entrants': seq<Entrant>, listing: seq<int>)
    requires Numbered(entrants, listing) && |entrants'| == |entrants|
    ensures Numbered(entrants', listing)
  {
  }

  // ----- one result -----

  /** The seats name the players: whoever is looked up by a seat is the one of the game. */
  lemma SeatFindsPlayers(entrants: seq<Entrant>, playerMap: map<string, nat>, g: TourneyGame)
    requires Indexed(entrants, playerMap) && Known(entrants, g)
    ensures var seat := Seat(entrants, g);
      && seat.white in playerMap && playerMap[seat.white] + 1 == g.white
      && seat.black in playerMap && playerMap[seat.black] + 1 == g.black
  {
  }

  /** A report is taken exactly when both players are known and neither has a result in the round. */
  lemma RecordedIff(resultSet: set<string>, playerMap: map<string, nat>, white: string, black: string)
    ensures Verdict(resultSet, playerMap, white, black) == Recorded <==>
      white !in resultSet && black !in resultSet && white in playerMap && black in playerMap
    ensures Verdict(resultSet, playerMap, white, black) == AlreadySet <==>
      white in resultSet || (black in resultSet && white in playerMap)
  {
  }

  /** How a report is answered: both players must be known and without a result in this round. */
  function Verdict(resultSet: set<string>, playerMap: map<string, nat>, white: string, black: string): Answer {
    if white in resultSet then AlreadySet
    else if white !in playerMap then UnknownPlayer
    else if black in resultSet then AlreadySet
    else if black !in playerMap then UnknownPlayer
    else Recorded
  }

  /** The points of a game go to its two players. */
  function Credited(entrants: seq<Entrant>, i: nat, j: nat, result: int): seq<Entrant>
    requires i < |entrants| && j < |entrants|
  {
    entrants[i := entrants[i].(score := entrants[i].score + Points(result, true))]
      [j := entrants[j].(score := entrants[j].score + Points(result, false))]
  }

  lemma CreditedMirrors(entrants: seq<Entrant>, ps: Players, g: TourneyGame, result: int)
    requires Mirrored(entrants, ps) && Known(entrants, g) && Awaited(ps, g) && GoodRecord(ps, g.white)
      && GoodRecord(ps, g.black)
    ensures Opponents(ps, g.white, g.black)
    ensures var ps' := Reported(ps, g.white, g.black, result);
      var i, j := g.white - 1, g.black - 1;
      && g.white in ps' && g.black in ps'
      && entrants[i := entrants[i].(score := ps'[g.white].score)][j := entrants[j].(score := ps'[g.black].score)]
        == Credited(entrants, i, j, result)
      && Mirrored(Credited(entrants, i, j, result), ps')
  {
  }

  lemma CreditedIndexed(entrants: seq<Entrant>, playerMap: map<string, nat>, i: nat, j: nat, result: int)
    requires Indexed(entrants, playerMap) && i < |entrants| && j < |entrants|
    ensures Indexed(Credited(entrants, i, j, result), playerMap)
    ensures forall x :: 0 <= x < |entrants| ==> Credited(entrants, i, j, result)[x].jid == entrants[x].jid
  {
  }

  /** The games still open are between other players. */
  lemma OthersOpen(entrants: seq<Entrant>, entrants': seq<Entrant>, playerMap: map<string, nat>,
      resultSet: set<string>, games: seq<TourneyGame>, k: nat)
    requires Indexed(entrants, playerMap) && OpenGames(entrants, resultSet, games) && Separate(games) && k < |games|
    requires |entrants'| == |entrants| && forall x :: 0 <= x < |entrants| ==> entrants'[x].jid == entrants[x].jid
    requires Known(entrants, games[k])
    ensures OpenGames(entrants', resultSet + {entrants[games[k].white - 1].jid, entrants[games[k].black - 1].jid},
      RemoveAt(games, k))
  {
    var g, fewer := games[k], RemoveAt(games, k);
    assert Plays(g, g.white) && Plays(g, g.black);
    forall i | 0 <= i < |fewer|
      ensures OpenGame(entrants', resultSet + {entrants[g.white - 1].jid, entrants[g.black - 1].jid}, fewer[i])
    {
      var o := games[if i < k then i else i + 1];
      assert fewer[i] == o && Plays(o, o.white) && Plays(o, o.black) && OpenGame(entrants, resultSet, o);
    }
  }

  /** The next newcomer gets the next number. */
  lemma NextNumber(entrants: seq<Entrant>, ps: Players, listing: seq<int>, newcomer: Entrant)
    requires Numbered(entrants, listing) && Roster(ps, listing) && BYE !in listing
    ensures |entrants| + 1 !in listing && BYE !in listing + [|entrants| + 1]
    ensures Numbered(entrants + [newcomer], listing + [|entrants| + 1])
  {
  }

  lemma NextMirrored(entrants: seq<Entrant>, ps: Players, rating: int, newcomer: Entrant)
    requires Mirrored(entrants, ps) && newcomer.score == 0
    ensures Mirrored(entrants + [newcomer], ps[|entrants| + 1 := NewPlayer(|entrants| + 1, rating, 0)])
  {
  }

  lemma NextIndexed(entrants: seq<Entrant>, playerMap: map<string, nat>, newcomer: Entrant)
    requires Indexed(entrants, playerMap) && newcomer.jid !in playerMap
    ensures Indexed(entrants + [newcomer], playerMap[newcomer.jid := |entrants|])
  {
  }

  /** At any time the scores of the entrants add up to two half points for every result recorded, byes included. */
  lemma ScoresOfTourney(t: ChessTourney)
    requires t.Valid()
    ensures ScoreSum(t.entrants) == 2 * t.tourney.recorded
  {
    hide Books, Numbered, Mirrored, Indexed, OpenGames;
    ScoresAddUp(t.entrants, t.tourney.players, t.tourney.playerList, t.tourney.gameList, t.tourney.recorded);
  }
}
