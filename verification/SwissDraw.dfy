/** Drawing a round: who takes part, what a draw without rematches is, and why it keeps the books. */
module SwissDraw {
  import opened Swiss
  import opened SwissSearch
  import opened SwissRounds

  // ----- who takes part -----

  /** The list without the bye of the round before. */
  function Reals(listing: seq<int>): seq<int> {
    if listing != [] && listing[|listing| - 1] == BYE then listing[..|listing| - 1] else listing
  }

  /** A bye joins an odd number of players. */
  function WithBye(listing: seq<int>): seq<int> {
    if |Reals(listing)| % 2 == 1 then Reals(listing) + [BYE] else Reals(listing)
  }

  function Unpaired(p: TourneyPlayer): TourneyPlayer {
    p.(paired := false)
  }

  /** The records a round starts with: nobody paired, and a new record for the bye. */
  function RoundPlayers(ps: Players, listing: seq<int>): Players {
    var reals := map x | x in ps && x != BYE :: Unpaired(ps[x]);
    if |Reals(listing)| % 2 == 1 then reals[BYE := NewPlayer(BYE, 0, 0)] else reals
  }

  /** The first `n` players of the list are taken out of their pairs. */
  ghost function UnpairedUpTo(ps: Players, listing: seq<int>, n: nat): Players
    requires n <= |listing|
  {
    map x | x in ps :: if x in listing[..n] then Unpaired(ps[x]) else ps[x]
  }

  lemma UnpairNext(ps: Players, listing: seq<int>, n: nat)
    requires n < |listing| && Roster(ps, listing)
    ensures listing[n] in UnpairedUpTo(ps, listing, n)
    ensures UnpairedUpTo(ps, listing, n + 1)
      == UnpairedUpTo(ps, listing, n)[listing[n] := Unpaired(UnpairedUpTo(ps, listing, n)[listing[n]])]
    ensures UnpairedUpTo(ps, listing, 0) == ps
    ensures listing[n] == BYE ==> n == |listing| - 1
  {
  }

  predicate HasBye(listing: seq<int>) {
    listing != [] && listing[|listing| - 1] == BYE
  }

  lemma RealsUnpaired(ps: Players, listing: seq<int>)
    requires Roster(ps, listing)
    ensures var all := UnpairedUpTo(ps, listing, |listing|);
      (if HasBye(listing) then all - {BYE} else all) == map x | x in ps && x != BYE :: Unpaired(ps[x])
  {
    var all := UnpairedUpTo(ps, listing, |listing|);
    assert listing[..|listing|] == listing;
    assert HasBye(listing) <==> BYE in ps;
    var reals := if HasBye(listing) then all - {BYE} else all;
    assert reals.Keys == set x | x in ps && x != BYE;
    hide Distinct;
  }

  /** The list and the records without the bye, which stands last. */
  predicate Stripped(all: Players, listing: seq<int>, l: seq<int>, reals: Players) {
    if HasBye(listing) then l == listing[..|listing| - 1] + listing[|listing|..] && reals == all - {BYE}
    else l == listing && reals == all
  }

  /** Taking the bye off the list and giving a new one to an odd number of players. */
  lemma WithoutBye(ps: Players, listing: seq<int>, l: seq<int>, reals: Players)
    requires Roster(ps, listing) && Stripped(UnpairedUpTo(ps, listing, |listing|), listing, l, reals)
    ensures WithBye(listing) == (if |l| % 2 == 1 then l + [BYE] else l)
    ensures RoundPlayers(ps, listing) == (if |l| % 2 == 1 then reals[BYE := NewPlayer(BYE, 0, 0)] else reals)
  {
    RealsUnpaired(ps, listing);
    hide UnpairedUpTo, Roster, NewPlayer;
    if HasBye(listing) {
      assert listing[|listing|..] == [] && l == Reals(listing);
    }
  }

  lemma NoneUnpaired(ps: Players, listing: seq<int>)
    ensures UnpairedUpTo(ps, listing, 0) == ps
  {
  }

  /** Nothing that the books look at differs. */
  ghost predicate SameHistory(p: TourneyPlayer, q: TourneyPlayer) {
    p.rating == q.rating && p.score == q.score && p.opponents == q.opponents
  }

  lemma {:induction false} RealScoreSame(ps: Players, ps': Players, listing: seq<int>)
    requires Within(ps, listing) && Within(ps', listing)
    requires forall x :: x in listing && x != BYE ==> ps'[x].score == ps[x].score
    ensures RealScore(ps', listing) == RealScore(ps, listing)
    decreases |listing|
  {
    if listing != [] {
      RealScoreSame(ps, ps', listing[1..]);
    }
  }

  /** The records agree on everything the books look at. */
  ghost predicate SameHistories(ps: Players, ps': Players) {
    ps'.Keys == ps.Keys && SameByes(ps, ps') && forall x :: x in ps ==> SameHistory(ps[x], ps'[x])
  }

  lemma SameHistoryAwaited(ps: Players, ps': Players, games: seq<TourneyGame>)
    requires SameHistories(ps, ps')
    requires forall i :: 0 <= i < |games| ==> Awaited(ps, games[i])
    ensures forall i :: 0 <= i < |games| ==> Awaited(ps', games[i])
  {
  }

  /** The books do not look at the fields the pairing works with. */
  lemma SameHistoryKeepsBooks(ps: Players, ps': Players, listing: seq<int>, games: seq<TourneyGame>, recorded: nat)
    requires Books(ps, listing, games, recorded) && SameHistories(ps, ps')
    ensures Books(ps', listing, games, recorded)
  {
    hide GoodRecord, Mutual, RealScore, Separate, Distinct, Awaited, Total;
    SameHistoryAwaited(ps, ps', games);
    RealScoreSame(ps, ps', listing);
    SameNamesKeepRecords(ps, ps');
  }

  lemma RealsOf(ps: Players, listing: seq<int>)
    requires Roster(ps, listing)
    ensures Distinct(Reals(listing)) && forall x :: x in Reals(listing) <==> x in listing && x != BYE
    ensures listing == Reals(listing) || listing == Reals(listing) + [BYE]
  {
  }

  /** The names of the round: the real players, and the bye if their number is odd. */
  lemma RoundNames(ps: Players, listing: seq<int>, x: int)
    requires Roster(ps, listing)
    ensures x in WithBye(listing) <==> (x in ps && x != BYE) || (x == BYE && |Reals(listing)| % 2 == 1)
    ensures x in RoundPlayers(ps, listing) <==> (x in ps && x != BYE) || (x == BYE && |Reals(listing)| % 2 == 1)
  {
    RealsOf(ps, listing);
    hide Reals, Distinct;
  }

  lemma RoundDistinct(ps: Players, listing: seq<int>)
    requires Roster(ps, listing)
    ensures Distinct(WithBye(listing))
    ensures forall i :: 0 <= i < |WithBye(listing)| && WithBye(listing)[i] == BYE ==> i == |WithBye(listing)| - 1
  {
    RealsOf(ps, listing);
    var r := Reals(listing);
    hide Reals, Roster;
    assert BYE !in r;
  }

  lemma RoundRoster(ps: Players, listing: seq<int>)
    requires Roster(ps, listing)
    ensures Roster(RoundPlayers(ps, listing), WithBye(listing))
  {
    hide Reals, WithBye, RoundPlayers, Distinct;
    RoundDistinct(ps, listing);
    forall x
      ensures x in RoundPlayers(ps, listing) <==> x in WithBye(listing)
      ensures x in RoundPlayers(ps, listing) ==> x >= 0
    {
      RoundNames(ps, listing, x);
    }
  }

  lemma RoundRecord(ps: Players, listing: seq<int>, x: int)
    requires forall y :: y in ps && y != BYE ==> y in RoundPlayers(ps, listing)
    requires x in RoundPlayers(ps, listing) && (x in ps ==> GoodRecord(ps, x))
    ensures GoodRecord(RoundPlayers(ps, listing), x)
  {
  }

  lemma RoundGood(ps: Players, listing: seq<int>)
    requires Mutual(ps) && GoodRecords(ps)
    ensures Mutual(RoundPlayers(ps, listing))
    ensures GoodRecords(RoundPlayers(ps, listing))
  {
    hide GoodRecord, Reals;
    forall x | x in RoundPlayers(ps, listing)
      ensures GoodRecord(RoundPlayers(ps, listing), x)
    {
      RoundRecord(ps, listing, x);
    }
    var ps' := RoundPlayers(ps, listing);
    forall x, y | x in ps' && y in ps' && x != BYE && y != BYE && Met(ps'[x], y)
      ensures Met(ps'[y], x)
    {
      assert Met(ps[x], y);
    }
  }

  lemma RoundScore(ps: Players, listing: seq<int>)
    requires Roster(ps, listing) && Within(ps, listing)
    ensures Within(RoundPlayers(ps, listing), WithBye(listing))
    ensures RealScore(RoundPlayers(ps, listing), WithBye(listing)) == RealScore(ps, listing)
  {
    RealsOf(ps, listing);
    RoundRoster(ps, listing);
    var r, ps' := Reals(listing), RoundPlayers(ps, listing);
    hide Reals, Roster, RealScore;
    if listing != r {
      RealScoreNewcomer(ps, r, BYE);
    }
    RealScoreSame(ps, ps', r);
    if WithBye(listing) != r {
      RealScoreNewcomer(ps', r, BYE);
    }
  }

  /** Replacing the bye keeps the books. */
  lemma ByeKeepsBooks(ps: Players, listing: seq<int>, recorded: nat)
    requires Books(ps, listing, [], recorded)
    ensures Books(RoundPlayers(ps, listing), WithBye(listing), [], recorded)
  {
    RoundRoster(ps, listing);
    RoundGood(ps, listing);
    RoundScore(ps, listing);
    hide Roster, GoodRecord, Mutual, RealScore, RoundPlayers, WithBye;
  }

  lemma NewcomerRecords(ps: Players, name: int, rating: int)
    requires Mutual(ps) && GoodRecords(ps) && name !in ps && rating >= 0 && name != BYE
    ensures var ps' := ps[name := NewPlayer(name, rating, 0)];
      Mutual(ps') && GoodRecords(ps')
  {
    var ps' := ps[name := NewPlayer(name, rating, 0)];
    assert ps'[name].opponents == [];
    hide NewPlayer;
    forall x | x in ps'
      ensures GoodRecord(ps', x)
    {
      assert x in ps ==> GoodRecord(ps, x);
    }
    forall x, y | x in ps' && y in ps' && Met(ps'[x], y)
      ensures x in ps && y in ps && Met(ps[x], y)
    {
      assert x in ps ==> GoodRecord(ps, x);
    }
  }

  lemma NewcomerRoster(ps: Players, listing: seq<int>, name: int, p: TourneyPlayer)
    requires Roster(ps, listing) && BYE !in listing && name > 0 && name !in listing
    ensures Roster(ps[name := p], listing + [name])
  {
  }

  /** A new player with an empty record keeps the books. */
  lemma NewcomerKeepsBooks(ps: Players, listing: seq<int>, name: int, rating: int, recorded: nat)
    requires Books(ps, listing, [], recorded) && BYE !in listing
    requires name > 0 && name !in listing && rating >= 0
    ensures Books(ps[name := NewPlayer(name, rating, 0)], listing + [name], [], recorded)
  {
    var ps', more := ps[name := NewPlayer(name, rating, 0)], listing + [name];
    NewcomerRecords(ps, name, rating);
    NewcomerRoster(ps, listing, name, NewPlayer(name, rating, 0));
    hide GoodRecord, Mutual, Roster, RealScore;
    RealScoreSame(ps, ps', listing);
    RealScoreNewcomer(ps', listing, name);
  }

  lemma {:induction false} RealScoreNewcomer(ps: Players, listing: seq<int>, name: int)
    requires Within(ps, listing + [name]) && (name == BYE || name !in ps || ps[name].score == 0)
    ensures Within(ps, listing) && RealScore(ps, listing + [name]) == RealScore(ps, listing)
    decreases |listing|
  {
    forall k | 0 <= k < |listing|
      ensures listing[k] in ps
    {
      assert (listing + [name])[k] == listing[k];
    }
    if listing != [] {
      assert (listing + [name])[1..] == listing[1..] + [name];
      RealScoreNewcomer(ps, listing[1..], name);
    }
  }

  // ----- the search problem of a round -----

  /** A draw of everybody without a rematch, and without a second bye for anybody. */
  ghost predicate RematchFree(ps: Players, listing: seq<int>, m: map<int, int>) {
    && (forall x :: x in m <==> x in listing)
    && forall x :: x in m ==> x in ps && m[x] in m && m[x] != x && m[m[x]] == x && !Met(ps[x], m[x])
  }

  /** The next round can be drawn: somebody is there, and a draw without rematches exists. */
  ghost predicate CanDraw(ps: Players, listing: seq<int>) {
    WithBye(listing) != [] && exists m :: RematchFree(RoundPlayers(ps, listing), WithBye(listing), m)
  }

  /** The records of a search problem are those of a round, up to what the pairing works with. */
  ghost predicate Poses(f: Field, ps: Players, listing: seq<int>)
    ensures Poses(f, ps, listing) ==> Ready(f)
  {
    && f.listing == listing && Ready(f)
    && SameHistories(ps, f.ps)
  }

  lemma PosesDraw(f: Field, ps: Players, listing: seq<int>, m: map<int, int>)
    requires Poses(f, ps, listing)
    ensures PerfectPairing(f, {}, m) <==> RematchFree(ps, listing, m)
  {
  }

  /** With the bye last in order and new, having met is mutual wherever the search relies on it. */
  lemma RoundIsFair(f: Field, ps: Players, listing: seq<int>)
    requires Poses(f, ps, listing) && Roster(ps, listing) && Mutual(ps)
    requires BYE in ps ==> ps[BYE].opponents == []
    requires forall i :: 0 <= i < |f.order| && f.order[i] == BYE ==> i == |f.order| - 1
    ensures FairRecords(f)
  {
    forall i, j | 0 <= i < j < |f.order| && Met(f.ps[f.order[j]], f.order[i])
      ensures Met(f.ps[f.order[i]], f.order[j])
    {
      var x, y := f.order[i], f.order[j];
      assert SameHistory(ps[x], f.ps[x]) && SameHistory(ps[y], f.ps[y]);
      assert Met(ps[y], x);
      assert Met(ps[x], y);
    }
  }

  /** The sorted order of a round ends with the bye, if there is one. */
  lemma ByeEndsTheOrder(ps: Players, listing: seq<int>)
    requires Roster(ps, listing) && Within(ps, listing)
    requires forall x :: x in ps ==> ps[x].rating >= 0 && ps[x].score >= 0
    requires BYE in ps ==> SortValue(ps[BYE]) == 0
    ensures var order := SortOrder(ps, listing);
      && |order| == |listing| && Distinct(order) && (forall x :: x in order <==> x in listing)
      && forall i :: 0 <= i < |order| && order[i] == BYE ==> i == |order| - 1
  {
    var order := SortOrder(ps, listing);
    SortOrderIsPermutation(ps, listing);
    if BYE in order {
      var k :| 0 <= k < |listing| && listing[k] == BYE;
      hide SortOrder;
      ByeSortsLast(ps, listing);
    }
  }

  // ----- the records of a drawn round -----

  /** One more entry, for the partner, with no result yet. */
  ghost predicate Extended(p: TourneyPlayer, q: TourneyPlayer, y: int) {
    && q.rating == p.rating && q.score == p.score && |q.opponents| == |p.opponents| + 1
    && q.opponents[..|p.opponents|] == p.opponents
    && q.opponents[|p.opponents|].name == y && q.opponents[|p.opponents|].result == NO_RESULT
  }

  ghost predicate Drawn(ps: Players, ps': Players, m: map<int, int>) {
    ps'.Keys == ps.Keys && SameByes(ps, ps') && forall x :: x in ps ==> x in m && Extended(ps[x], ps'[x], m[x])
  }

  lemma ExtendedMet(p: TourneyPlayer, q: TourneyPlayer, y: int, z: int)
    requires Extended(p, q, y)
    ensures Met(q, z) <==> Met(p, z) || z == y
  {
  }

  lemma ExtendedTotal(p: TourneyPlayer, q: TourneyPlayer, y: int)
    requires Extended(p, q, y)
    ensures Total(q.opponents) == Total(p.opponents)
  {
    assert q.opponents[..|q.opponents| - 1] == p.opponents;
  }

  lemma ExtendedNames(p: TourneyPlayer, q: TourneyPlayer, y: int)
    requires Extended(p, q, y) && !Met(p, y)
    requires forall j, k :: 0 <= j < k < |p.opponents| ==> p.opponents[j].name != p.opponents[k].name
    ensures forall j, k :: 0 <= j < k < |q.opponents| ==> q.opponents[j].name != q.opponents[k].name
    ensures forall k :: 0 <= k < |q.opponents| ==> q.opponents[k].name == y || Met(p, q.opponents[k].name)
  {
    forall k | 0 <= k < |p.opponents|
      ensures q.opponents[k] == p.opponents[k]
    {
      assert q.opponents[..|p.opponents|][k] == p.opponents[k];
    }
  }

  lemma ExtendedGood(ps: Players, ps': Players, m: map<int, int>, x: int)
    requires Drawn(ps, ps', m) && RematchFreeOn(ps, m) && x in ps && GoodRecord(ps, x)
    ensures GoodRecord(ps', x)
  {
    hide Extended, Total;
    ExtendedTotal(ps[x], ps'[x], m[x]);
    ExtendedNames(ps[x], ps'[x], m[x]);
    ExtendedStanding(ps[x], ps'[x], m[x]);
  }

  lemma ExtendedStanding(p: TourneyPlayer, q: TourneyPlayer, y: int)
    requires Extended(p, q, y)
    ensures q.rating == p.rating && q.score == p.score
  {
  }

  /** Everybody with a record takes part. */
  ghost predicate RematchFreeOn(ps: Players, m: map<int, int>) {
    && m.Keys == ps.Keys
    && forall x :: x in m ==> m[x] in m && m[x] != x && m[m[x]] == x && !Met(ps[x], m[x])
  }

  /** After the draw having met is still mutual and the records are still good. */
  lemma DrawnRecords(ps: Players, ps': Players, m: map<int, int>)
    requires Drawn(ps, ps', m) && RematchFreeOn(ps, m)
    requires Mutual(ps) && GoodRecords(ps)
    ensures Mutual(ps') && GoodRecords(ps')
  {
    forall x | x in ps'
      ensures GoodRecord(ps', x)
    {
      ExtendedGood(ps, ps', m, x);
    }
    forall x, z | x in ps
      ensures Met(ps'[x], z) <==> Met(ps[x], z) || z == m[x]
    {
      ExtendedMet(ps[x], ps'[x], m[x], z);
    }
  }

  lemma DrawKeepsBooks(ps: Players, ps': Players, listing: seq<int>, m: map<int, int>, games: seq<TourneyGame>,
      recorded: nat)
    requires Books(ps, listing, [], recorded) && RematchFree(ps, listing, m) && Drawn(ps, ps', m)
    requires Separate(games) && forall i :: 0 <= i < |games| ==> Awaited(ps', games[i])
    ensures Books(ps', listing, games, recorded)
  {
    assert forall x :: x in m.Keys <==> x in ps.Keys;
    DrawnRecords(ps, ps', m);
    forall x | x in ps
      ensures ps'[x].score == ps[x].score
    {
      assert Extended(ps[x], ps'[x], m[x]);
    }
    RealScoreSame(ps, ps', listing);
    hide GoodRecord, Mutual, RealScore, Separate, Awaited, Extended, RematchFree;
  }

  // ----- the bye -----

  /** The player a bye is drawn with. */
  function OtherOf(g: TourneyGame, x: int): int {
    if g.white == x then g.black else g.white
  }

  /** The result a bye is given: a win for the player who has it. */
  function ByeResult(g: TourneyGame): int {
    if g.white == BYE then 0 else 1
  }

  /** The one entry of the bye for its partner of the round is the last one, and names its colour. */
  lemma ByeEntry(ps: Players, listing: seq<int>, games: seq<TourneyGame>, k: nat, recorded: nat, j: nat)
    requires Books(ps, listing, games, recorded) && k < |games| && Plays(games[k], BYE)
    ensures BYE in ps && ps[BYE].opponents != []
    ensures ByeIsWon(games[k], ByeResult(games[k]))
    ensures j < |ps[BYE].opponents| && ps[BYE].opponents[j].name == OtherOf(games[k], BYE) ==>
      ps[BYE].opponents[j].white == (games[k].white == BYE)
    ensures exists i :: 0 <= i < |ps[BYE].opponents| && ps[BYE].opponents[i].name == OtherOf(games[k], BYE)
  {
    var g := games[k];
    assert Awaited(ps, g);
    assert GoodRecord(ps, BYE);
    var s := ps[BYE].opponents;
    assert s[|s| - 1].name == OtherOf(g, BYE);
  }

  /** The records after the bye of a round is scored and counted. */
  function ByeScored(ps: Players, g: TourneyGame): Players
    requires Opponents(ps, g.white, g.black) && Plays(g, BYE)
  {
    CountBye(Reported(ps, g.white, g.black, ByeResult(g)))
  }

  function CountBye(ps: Players): Players
    requires BYE in ps
  {
    ps[BYE := ps[BYE].(byeCount := ps[BYE].byeCount + 1)]
  }

  /** Counting a bye is not in the books. */
  lemma ByeCountKeepsBooks(ps: Players, listing: seq<int>, games: seq<TourneyGame>, recorded: nat)
    requires Books(ps, listing, games, recorded) && BYE in ps
    ensures Books(CountBye(ps), listing, games, recorded)
  {
    hide Books;
    SameHistoryKeepsBooks(ps, CountBye(ps), listing, games, recorded);
  }
}
