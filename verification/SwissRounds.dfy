/** Rounds of a tournament as values: colours, results, the list of games, and what holds between calls. */
module SwissRounds {
  import opened Swiss

  // ----- entries of an opponent list -----

  /** Position of the last entry with a name, or -1. */
  function LastOf(s: seq<Opponent>, name: int): (k: int)
    ensures -1 <= k < |s|
    ensures k >= 0 ==> s[k].name == name
    ensures k < 0 ==> forall j :: 0 <= j < |s| ==> s[j].name != name
  {
    if s == [] then -1
    else if s[|s| - 1].name == name then |s| - 1
    else LastOf(s[..|s| - 1], name)
  }

  function Positive(result: int): int {
    if result > 0 then result else 0
  }

  /** Sum of the results that are positive. */
  function Total(s: seq<Opponent>): int {
    if s == [] then 0 else Total(s[..|s| - 1]) + Positive(s[|s| - 1].result)
  }

  // ----- colours -----

  /** Who plays white: the player due white; both due the same, the one more often or longer denied it;
      in a complete tie the stronger player gets the colour that is due. */
  function FirstPlaysWhite(p: TourneyPlayer, q: TourneyPlayer): bool {
    if p.dueColor != q.dueColor then p.dueColor != 0
    else if p.dueColor != 0 then
      if p.consecutiveBlacks != q.consecutiveBlacks then p.consecutiveBlacks > q.consecutiveBlacks
      else if p.totalBlacks != q.totalBlacks then p.totalBlacks > q.totalBlacks
      else SortValue(p) >= SortValue(q)
    else
      if p.consecutiveWhites != q.consecutiveWhites then p.consecutiveWhites < q.consecutiveWhites
      else if p.totalWhites != q.totalWhites then p.totalWhites < q.totalWhites
      else SortValue(p) < SortValue(q)
  }

  /** Which of two players is asked first matters only if nothing at all tells them apart. */
  lemma OrderMattersOnlyInTies(p: TourneyPlayer, q: TourneyPlayer)
    requires p.dueColor in {0, 1} && q.dueColor in {0, 1}
    ensures FirstPlaysWhite(p, q) == FirstPlaysWhite(q, p) <==>
      && p.dueColor == q.dueColor && SortValue(p) == SortValue(q)
      && (if p.dueColor == 1
          then p.consecutiveBlacks == q.consecutiveBlacks && p.totalBlacks == q.totalBlacks
          else p.consecutiveWhites == q.consecutiveWhites && p.totalWhites == q.totalWhites)
  {
  }

  function GotWhite(p: TourneyPlayer, k: nat): TourneyPlayer
    requires k < |p.opponents|
  {
    p.(consecutiveWhites := p.consecutiveWhites + 1, totalWhites := p.totalWhites + 1, dueColor := 0,
       consecutiveBlacks := 0, opponents := p.opponents[k := p.opponents[k].(white := true)])
  }

  function GotBlack(p: TourneyPlayer): TourneyPlayer {
    p.(consecutiveBlacks := p.consecutiveBlacks + 1, totalBlacks := p.totalBlacks + 1, dueColor := 1,
       consecutiveWhites := 0)
  }

  /** The two players know each other's names. */
  predicate Opponents(ps: Players, x: int, y: int) {
    x in ps && y in ps && x != y && LastOf(ps[x].opponents, y) >= 0 && LastOf(ps[y].opponents, x) >= 0
  }

  /** The records after white is given to `x` and black to `y`. */
  function Coloured(ps: Players, x: int, y: int): Players
    requires Opponents(ps, x, y)
  {
    ps[x := GotWhite(ps[x], LastOf(ps[x].opponents, y))][y := GotBlack(ps[y])]
  }

  // ----- the list of games -----

  datatype TourneyGame = TourneyGame(white: int, black: int)

  function Key(place: map<int, int>, g: TourneyGame): int
    requires g.white in place && g.black in place
  {
    place[g.white] + place[g.black]
  }

  ghost predicate Placed(place: map<int, int>, games: seq<TourneyGame>) {
    forall i :: 0 <= i < |games| ==> games[i].white in place && games[i].black in place
  }

  ghost predicate InOrder(place: map<int, int>, games: seq<TourneyGame>) {
    && Placed(place, games)
    && forall i, j :: 0 <= i < j < |games| ==> Key(place, games[i]) <= Key(place, games[j])
  }

  predicate Plays(g: TourneyGame, x: int) {
    g.white == x || g.black == x
  }

  /** Nobody is in two games or plays himself. */
  ghost predicate Separate(games: seq<TourneyGame>) {
    && (forall i :: 0 <= i < |games| ==> games[i].white != games[i].black)
    && (forall i, j, x :: 0 <= i < j < |games| && Plays(games[i], x) ==> !Plays(games[j], x))
  }

  ghost predicate HasGame(games: seq<TourneyGame>, x: int) {
    exists i :: 0 <= i < |games| && Plays(games[i], x)
  }

  /** Every listed name is in exactly one game, and nobody else is in any. */
  ghost predicate Covers(games: seq<TourneyGame>, listing: seq<int>) {
    Separate(games) && forall x :: HasGame(games, x) <==> x in listing
  }

  function InsertAt(games: seq<TourneyGame>, k: nat, g: TourneyGame): seq<TourneyGame>
    requires k <= |games|
  {
    games[..k] + [g] + games[k..]
  }

  lemma InsertHas(games: seq<TourneyGame>, k: nat, g: TourneyGame, x: int)
    requires k <= |games|
    ensures HasGame(InsertAt(games, k, g), x) <==> HasGame(games, x) || Plays(g, x)
  {
    var more := InsertAt(games, k, g);
    if Plays(g, x) {
      assert more[k] == g;
    }
    if i :| 0 <= i < |games| && Plays(games[i], x) {
      assert more[if i < k then i else i + 1] == games[i];
    }
    if i :| 0 <= i < |more| && Plays(more[i], x) {
      assert i == k || more[i] == games[if i < k then i else i - 1];
    }
  }

  lemma InsertSeparate(games: seq<TourneyGame>, k: nat, g: TourneyGame)
    requires k <= |games| && Separate(games) && g.white != g.black
    requires !HasGame(games, g.white) && !HasGame(games, g.black)
    ensures Separate(InsertAt(games, k, g))
  {
  }

  /** A game is put before the first one that comes later in the order. */
  lemma InsertInOrder(place: map<int, int>, games: seq<TourneyGame>, k: nat, g: TourneyGame)
    requires InOrder(place, games) && k <= |games| && g.white in place && g.black in place
    requires forall i :: 0 <= i < k ==> Key(place, games[i]) <= Key(place, g)
    requires k < |games| ==> Key(place, g) < Key(place, games[k])
    ensures InOrder(place, InsertAt(games, k, g))
  {
  }

  function RemoveAt(games: seq<TourneyGame>, k: nat): seq<TourneyGame>
    requires k < |games|
  {
    games[..k] + games[k + 1..]
  }

  lemma RemoveFromRound(place: map<int, int>, games: seq<TourneyGame>, k: nat)
    requires k < |games| && Separate(games)
    ensures Separate(RemoveAt(games, k))
    ensures InOrder(place, games) ==> InOrder(place, RemoveAt(games, k))
    ensures forall x :: HasGame(RemoveAt(games, k), x) <==> HasGame(games, x) && !Plays(games[k], x)
  {
    var fewer := RemoveAt(games, k);
    forall i | 0 <= i < |fewer|
      ensures fewer[i] == games[if i < k then i else i + 1]
    {
    }
    forall x
      ensures HasGame(fewer, x) <==> HasGame(games, x) && !Plays(games[k], x)
    {
      if i :| 0 <= i < |games| && Plays(games[i], x) && !Plays(games[k], x) {
        assert fewer[if i < k then i else i - 1] == games[i];
      }
    }
  }

  // ----- reporting a result -----

  /** Half points of one side for a result: 1 white wins, 0 black wins, 2 draw. */
  function Points(result: int, white: bool): int {
    if result == 2 then 1 else if (result == 1) == white then 2 else 0
  }

  function Entered(p: TourneyPlayer, k: nat, points: int): TourneyPlayer
    requires k < |p.opponents|
  {
    p.(opponents := p.opponents[k := p.opponents[k].(result := points)])
  }

  function Scored(p: TourneyPlayer, k: nat, points: int): TourneyPlayer
    requires k < |p.opponents|
  {
    var entered := Entered(p, k, points);
    entered.(score := Total(entered.opponents))
  }

  /** The records after a result is entered on both sides. */
  function Reported(ps: Players, white: int, black: int, result: int): Players
    requires Opponents(ps, white, black)
  {
    ps[white := Scored(ps[white], LastOf(ps[white].opponents, black), Points(result, true))]
      [black := Scored(ps[black], LastOf(ps[black].opponents, white), Points(result, false))]
  }

  // ----- what holds between calls -----

  /** The list names the players once each, a bye last. */
  ghost predicate Roster(ps: Players, listing: seq<int>) {
    && Distinct(listing) && (forall x :: x in ps <==> x in listing) && (forall x :: x in ps ==> x >= 0)
    && forall i :: 0 <= i < |listing| && listing[i] == BYE ==> i == |listing| - 1
  }

  /** The score is the sum of the results; nobody occurs twice, and only players or a bye occur. */
  ghost predicate GoodRecord(ps: Players, x: int)
    requires x in ps
  {
    var s := ps[x].opponents;
    && ps[x].rating >= 0 && ps[x].score == Total(s) && (x != BYE ==> ps[x].byeCount == 0)
    && (forall j, k :: 0 <= j < k < |s| ==> s[j].name != s[k].name)
    && (forall k :: 0 <= k < |s| ==> s[k].name != x && (s[k].name == BYE || s[k].name in ps))
  }

  ghost predicate GoodRecords(ps: Players) {
    forall x {:trigger GoodRecord(ps, x)} :: x in ps ==> GoodRecord(ps, x)
  }

  /** Having met is mutual among real players. */
  ghost predicate Mutual(ps: Players) {
    forall x, y {:trigger Met(ps[x], y)} :: x in ps && y in ps && x != BYE && y != BYE && Met(ps[x], y)
        ==> Met(ps[y], x)
  }

  /** The last entry of `x` is `y`, without a result, and says which colour `x` has. */
  predicate Awaits(ps: Players, x: int, y: int, white: bool) {
    && x in ps && ps[x].opponents != []
    && var last := ps[x].opponents[|ps[x].opponents| - 1];
      last.name == y && last.result == NO_RESULT && last.white == white
  }

  predicate Awaited(ps: Players, g: TourneyGame) {
    g.white != g.black && Awaits(ps, g.white, g.black, true) && Awaits(ps, g.black, g.white, false)
  }

  /** Sum of the scores of the real players. */
  function RealScore(ps: Players, listing: seq<int>): int
    requires Within(ps, listing)
  {
    if listing == [] then 0
    else (if listing[0] == BYE then 0 else ps[listing[0]].score) + RealScore(ps, listing[1..])
  }

  /** The books of a tournament with some games under way and a number of results recorded. */
  ghost predicate Books(ps: Players, listing: seq<int>, games: seq<TourneyGame>, recorded: nat)
    ensures Books(ps, listing, games, recorded) ==> Within(ps, listing) && RealScore(ps, listing) == 2 * recorded
  {
    && Roster(ps, listing)
    && GoodRecords(ps)
    && Mutual(ps)
    && Separate(games)
    && (forall i :: 0 <= i < |games| ==> Awaited(ps, games[i]))
    && Within(ps, listing) && RealScore(ps, listing) == 2 * recorded
  }

  /** Between calls no real player has a bye counted, so a second bye is scored like any other opponent:
      only having met the bye keeps a player from having it twice. */
  lemma NoByeIsCounted(ps: Players, listing: seq<int>, games: seq<TourneyGame>, recorded: nat, place: map<int, int>,
      x: int, y: int)
    requires Books(ps, listing, games, recorded) && x in ps && x != BYE && y in ps && x in place && y in place
    ensures ps[x].byeCount == 0 && PairingScore(ps, place, x, y) == Distance(ps, place, x, y)
  {
    hide Distance, Mutual, RealScore, Separate, Distinct, Awaited, Total;
    assert GoodRecord(ps, x);
  }

  lemma {:induction false} TotalNonNegative(s: seq<Opponent>)
    ensures Total(s) >= 0
    decreases |s|
  {
    if s != [] {
      TotalNonNegative(s[..|s| - 1]);
    }
  }

  /** What a player's score changes by. */
  function Gain(ps: Players, ps': Players, x: int): int {
    if x == BYE || x !in ps || x !in ps' then 0 else ps'[x].score - ps[x].score
  }

  lemma {:induction false} RealScoreChanges(ps: Players, ps': Players, listing: seq<int>, x: int, y: int)
    requires Within(ps, listing) && Within(ps', listing) && Distinct(listing) && x != y
    requires forall z :: z in listing && z != x && z != y ==> ps'[z].score == ps[z].score
    ensures RealScore(ps', listing) == RealScore(ps, listing)
      + (if x in listing then Gain(ps, ps', x) else 0) + (if y in listing then Gain(ps, ps', y) else 0)
    decreases |listing|
  {
    if listing != [] {
      assert listing == [listing[0]] + listing[1..];
      RealScoreChanges(ps, ps', listing[1..], x, y);
    }
  }

  /** The same history with other results, and a score to match. */
  ghost predicate SameNames(p: TourneyPlayer, q: TourneyPlayer) {
    && |p.opponents| == |q.opponents|
    && (forall k :: 0 <= k < |p.opponents| ==> p.opponents[k].name == q.opponents[k].name)
    && p.rating == q.rating && (p.score == Total(p.opponents) ==> q.score == Total(q.opponents))
  }

  /** No real player's count of byes differs. */
  ghost predicate SameByes(ps: Players, ps': Players) {
    forall x :: x in ps && x in ps' && x != BYE ==> ps'[x].byeCount == ps[x].byeCount
  }

  lemma SameNamesKeepRecords(ps: Players, ps': Players)
    requires ps.Keys == ps'.Keys && (forall x :: x in ps ==> SameNames(ps[x], ps'[x])) && SameByes(ps, ps')
    requires Mutual(ps) && GoodRecords(ps)
    ensures Mutual(ps') && GoodRecords(ps')
  {
    forall x, y | x in ps
      ensures Met(ps'[x], y) <==> Met(ps[x], y)
    {
      SameNamesMet(ps[x], ps'[x], y);
    }
    forall x | x in ps'
      ensures GoodRecord(ps', x)
    {
      assert GoodRecord(ps, x) && SameNames(ps[x], ps'[x]);
    }
  }

  lemma SameNamesMet(p: TourneyPlayer, q: TourneyPlayer, y: int)
    requires SameNames(p, q)
    ensures Met(p, y) <==> Met(q, y)
  {
  }

  lemma ReportedNames(ps: Players, x: int, y: int, result: int)
    requires Opponents(ps, x, y)
    ensures ps.Keys == Reported(ps, x, y, result).Keys
    ensures forall z :: z in ps ==> SameNames(ps[z], Reported(ps, x, y, result)[z])
    ensures SameByes(ps, Reported(ps, x, y, result))
    ensures forall z :: z in ps && z != x && z != y ==> Reported(ps, x, y, result)[z] == ps[z]
  {
  }

  /** Entering a result keeps the histories. */
  lemma ReportedScores(ps: Players, g: TourneyGame, result: int)
    requires Awaited(ps, g) && GoodRecord(ps, g.white) && GoodRecord(ps, g.black)
    ensures Opponents(ps, g.white, g.black)
    ensures var ps' := Reported(ps, g.white, g.black, result);
      && ps'[g.white].score == ps[g.white].score + Points(result, true)
      && ps'[g.black].score == ps[g.black].score + Points(result, false)
  {
  }

  /** A bye is won by the player who has it. */
  predicate ByeIsWon(g: TourneyGame, result: int) {
    (g.white == BYE ==> result == 0) && (g.black == BYE ==> result == 1)
  }

  /** The other games are still waited for. */
  lemma OthersAwaited(ps: Players, ps': Players, games: seq<TourneyGame>, k: nat)
    requires k < |games| && Separate(games) && forall i :: 0 <= i < |games| ==> Awaited(ps, games[i])
    requires ps.Keys == ps'.Keys && forall z :: z in ps && !Plays(games[k], z) ==> ps'[z] == ps[z]
    ensures forall i :: 0 <= i < |RemoveAt(games, k)| ==> Awaited(ps', RemoveAt(games, k)[i])
  {
  }

  lemma ReportedGain(ps: Players, listing: seq<int>, g: TourneyGame, result: int)
    requires Roster(ps, listing) && Awaited(ps, g) && GoodRecord(ps, g.white) && GoodRecord(ps, g.black)
    requires result in {0, 1, 2} && ByeIsWon(g, result) && Within(ps, listing) && Opponents(ps, g.white, g.black)
    ensures Within(Reported(ps, g.white, g.black, result), listing)
    ensures RealScore(Reported(ps, g.white, g.black, result), listing) == RealScore(ps, listing) + 2
  {
    hide RealScore, Total, Scored, LastOf, GoodRecord, Reported, Opponents;
    ReportedNames(ps, g.white, g.black, result);
    ReportedScores(ps, g, result);
    RealScoreChanges(ps, Reported(ps, g.white, g.black, result), listing, g.white, g.black);
  }

  /** Recording the result of a game under way keeps the books: two half points more, one game less. */
  lemma ReportKeepsBooks(ps: Players, listing: seq<int>, games: seq<TourneyGame>, k: nat, result: int, recorded: nat)
    requires Books(ps, listing, games, recorded) && k < |games|
    requires result in {0, 1, 2} && ByeIsWon(games[k], result)
    ensures Opponents(ps, games[k].white, games[k].black)
    ensures Books(Reported(ps, games[k].white, games[k].black, result), listing, RemoveAt(games, k), recorded + 1)
  {
    hide Mutual, GoodRecord, RealScore, Reported, Distinct, SameNames, SameByes, Opponents, Separate, RemoveAt;
    var g := games[k];
    ReportedScores(ps, g, result);
    ReportedNames(ps, g.white, g.black, result);
    var ps' := Reported(ps, g.white, g.black, result);
    SameNamesKeepRecords(ps, ps');
    ReportedGain(ps, listing, g, result);
    RemoveFromRound(map[], games, k);
    OthersAwaited(ps, ps', games, k);
  }
}
