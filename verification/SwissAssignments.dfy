/** From the books to the search problem of a round, and from its answer back to the books. */
module SwissAssignments {
  import opened Swiss
  import opened SwissSearch
  import opened SwissRecords
  import opened SwissMirror
  import opened SwissOffsets
  import opened SwissRounds
  import opened SwissDraw
  import opened SwissColours

  /** Ready to be paired: nobody has a partner and nobody has been offered an opponent yet. */
  function Cleared(p: TourneyPlayer): TourneyPlayer {
    p.(paired := false, oppChoice := 0)
  }

  ghost function ClearedUpTo(ps: Players, listing: seq<int>, n: nat): Players
    requires n <= |listing|
  {
    map x | x in ps :: if x in listing[..n] then Cleared(ps[x]) else ps[x]
  }

  lemma ClearNext(ps: Players, listing: seq<int>, n: nat)
    requires n < |listing| && Roster(ps, listing)
    ensures listing[n] in ClearedUpTo(ps, listing, n)
    ensures ClearedUpTo(ps, listing, n + 1)
      == ClearedUpTo(ps, listing, n)[listing[n] := Cleared(ClearedUpTo(ps, listing, n)[listing[n]])]
  {
  }

  lemma NoneCleared(ps: Players, listing: seq<int>)
    ensures ClearedUpTo(ps, listing, 0) == ps
  {
  }

  /** The records the search starts with: those of the round, with offsets, cleared. */
  ghost function ReadyRecords(ps: Players, listing: seq<int>): Players {
    ClearedUpTo(WithOffsets(ps, listing), listing, |listing|)
  }

  lemma OffsetsKeepRoster(ps: Players, listing: seq<int>)
    requires Roster(ps, listing)
    ensures Roster(WithOffsets(ps, listing), listing)
  {
  }

  ghost function RoundField(ps: Players, listing: seq<int>, place: map<int, int>): Field
    requires Within(ps, listing)
  {
    Field(AllPlain(ReadyRecords(ps, listing)), place, listing, SortOrder(ps, listing))
  }

  /** The draw the search finds for a round. */
  ghost function TheDraw(ps: Players, listing: seq<int>, place: map<int, int>): map<int, int> {
    if Within(ps, listing) && Ready(RoundField(ps, listing, place)) then Found(RoundField(ps, listing, place))
        else map[]
  }

  /** Everybody's place is the position in the order. */
  ghost predicate PlacedInOrder(place: map<int, int>, order: seq<int>) {
    Within(place, order) && forall i :: 0 <= i < |order| ==> place[order[i]] == i
  }

  /** The bye of a round has an empty record. */
  ghost predicate NewBye(ps: Players) {
    BYE in ps ==> ps[BYE] == NewPlayer(BYE, 0, 0)
  }

  lemma RoundHasNewBye(ps: Players, listing: seq<int>)
    ensures NewBye(RoundPlayers(ps, listing))
  {
  }

  lemma RoundOrder(ps: Players, listing: seq<int>, recorded: nat)
    requires Books(ps, listing, [], recorded) && NewBye(ps)
    ensures Within(ps, listing)
    ensures var order := SortOrder(ps, listing);
      && |order| == |listing| && Distinct(order) && (forall x :: x in order <==> x in listing)
      && forall i :: 0 <= i < |order| && order[i] == BYE ==> i == |order| - 1
    ensures forall k :: 0 <= k < |listing| ==> ps[listing[k]].score >= 0
  {
    forall x | x in ps
      ensures ps[x].rating >= 0 && ps[x].score >= 0
    {
      assert GoodRecord(ps, x);
      TotalNonNegative(ps[x].opponents);
    }
    hide Mutual, GoodRecord, Distinct;
    ByeEndsTheOrder(ps, listing);
  }

  lemma ReadyRecord(ps: Players, listing: seq<int>, x: int)
    requires x in ps && x in listing
    ensures x in WithOffsets(ps, listing) && x in ReadyRecords(ps, listing)
    ensures ReadyRecords(ps, listing)[x] == Cleared(WithOffsets(ps, listing)[x])
    ensures WithOffsets(ps, listing)[x] == ps[x].(offset := ComparedOffset(ps, listing, x))
  {
    hide ComparedOffset, Cleared;
    assert listing[..|listing|] == listing;
  }

  lemma RoundFieldKeys(ps: Players, listing: seq<int>, place: map<int, int>)
    requires Roster(ps, listing) && Within(ps, listing)
    ensures var f := RoundField(ps, listing, place);
      f.ps.Keys == ps.Keys && ReadyRecords(ps, listing).Keys == ps.Keys
    ensures forall x :: x in ps ==>
      x in listing && RoundField(ps, listing, place).ps[x] == Plain(ReadyRecords(ps, listing)[x])
  {
    hide SortOrder, ComparedOffset, Cleared, Plain, Distinct;
  }

  lemma RoundFieldRecords(ps: Players, listing: seq<int>, place: map<int, int>)
    requires Roster(ps, listing) && Within(ps, listing)
    ensures var f := RoundField(ps, listing, place);
      && f.ps.Keys == ps.Keys
      && forall x :: x in ps ==>
        SameHistory(ps[x], f.ps[x]) && !f.ps[x].paired && f.ps[x].oppChoice == 0 && f.ps[x].oppName == 0
    ensures SameByes(ps, RoundField(ps, listing, place).ps)
  {
    hide RoundField, ReadyRecords, WithOffsets, ComparedOffset, Roster, SortOrder;
    RoundFieldKeys(ps, listing, place);
    forall x | x in ps
      ensures var q := RoundField(ps, listing, place).ps[x];
        && SameHistory(ps[x], q) && !q.paired && q.oppChoice == 0 && q.oppName == 0 && q.byeCount == ps[x].byeCount
    {
      ReadyRecord(ps, listing, x);
    }
  }

  lemma ReadyFrom(f: Field, ps: Players)
    requires f.ps.Keys == ps.Keys && Within(ps, f.listing) && Within(f.place, f.order)
    requires Distinct(f.order) && (forall x :: x in f.order <==> x in f.listing)
    ensures Ready(f)
  {
    var order, listing := f.order, f.listing;
    assert forall x :: x in order <==> x in listing;
    forall k | 0 <= k < |f.listing|
      ensures f.listing[k] in f.place
    {
      assert listing[k] in order;
    }
    forall k | 0 <= k < |f.order|
      ensures f.order[k] in f.ps
    {
      assert order[k] in listing;
    }
  }

  lemma PosesFrom(f: Field, ps: Players, listing: seq<int>)
    requires Ready(f) && f.listing == listing && f.ps.Keys == ps.Keys
    requires forall x :: x in ps ==>
        SameHistory(ps[x], f.ps[x]) && !f.ps[x].paired && f.ps[x].oppChoice == 0 && f.ps[x].oppName == 0
    requires SameByes(ps, f.ps)
    ensures Poses(f, ps, listing) && Fresh(f)
  {
  }

  lemma RoundFieldIs(ps: Players, listing: seq<int>, place: map<int, int>)
    requires Within(ps, listing)
    ensures var f := RoundField(ps, listing, place);
      f.order == SortOrder(ps, listing) && f.listing == listing && f.place == place
  {
    hide SortOrder, AllPlain, ReadyRecords;
  }

  lemma RoundFieldPoses(ps: Players, listing: seq<int>, place: map<int, int>, recorded: nat)
    requires Books(ps, listing, [], recorded) && NewBye(ps)
    requires Within(place, SortOrder(ps, listing))
    ensures Poses(RoundField(ps, listing, place), ps, listing) && Fresh(RoundField(ps, listing, place))
  {
    hide *;
    RoundOrder(ps, listing, recorded);
    var f := RoundField(ps, listing, place);
    RoundFieldIs(ps, listing, place);
    BooksRoster(ps, listing, recorded);
    RoundFieldRecords(ps, listing, place);
    ReadyFrom(f, ps);
    PosesFrom(f, ps, listing);
  }

  /** The search problem of a round meets all that the search asks for. */
  lemma RoundFieldReady(ps: Players, listing: seq<int>, place: map<int, int>, recorded: nat)
    requires Books(ps, listing, [], recorded) && NewBye(ps)
    requires Within(place, SortOrder(ps, listing))
    ensures var f := RoundField(ps, listing, place);
      Poses(f, ps, listing) && Ready(f) && Fresh(f) && FairRecords(f) && Within(place, listing)
  {
    RoundFieldPoses(ps, listing, place, recorded);
    RoundOrder(ps, listing, recorded);
    hide SortOrder, GoodRecord, Distinct, AllPlain, ReadyRecords;
    RoundIsFair(RoundField(ps, listing, place), ps, listing);
  }

  /** The draws of the search problem are those of the round. */
  lemma AllDraws(f: Field, ps: Players, listing: seq<int>)
    requires Poses(f, ps, listing)
    ensures (exists m :: PerfectPairing(f, {}, m)) <==> (exists m :: RematchFree(ps, listing, m))
  {
    forall m
      ensures PerfectPairing(f, {}, m) <==> RematchFree(ps, listing, m)
    {
      PosesDraw(f, ps, listing, m);
    }
  }

  lemma DrawnRoster(ps: Players, ps': Players, listing: seq<int>, m: map<int, int>)
    requires Roster(ps, listing) && Drawn(ps, ps', m)
    ensures Roster(ps', listing)
  {
  }

  // ----- after the search -----

  lemma DrawnFrom(ps: Players, ps': Players, m: map<int, int>)
    requires ps'.Keys == ps.Keys == m.Keys && SameByes(ps, ps')
    requires forall x :: x in ps ==> m[x] in ps && m[x] != x && m[m[x]] == x
    requires forall x :: x in ps ==>
      Extended(ps[x], ps'[x], m[x]) && ps'[x].oppName == m[x] && Awaits(ps', x, m[x], false)
    ensures Drawn(ps, ps', m) && Partnered(ps', m)
  {
  }

  lemma PairedRecords(f: Field, ps: Players, ps': Players, m: map<int, int>, x: int)
    requires Ready(f) && x in f.order && x in ps && x in f.ps && SameHistory(ps[x], f.ps[x]) && PairedBy(ps', f, m)
    ensures x in m && x in ps' && Extended(ps[x], ps'[x], m[x]) && ps'[x].oppName == m[x] && Awaits(ps', x, m[x], false)
  {
  }

  lemma PairedByes(f: Field, ps: Players, listing: seq<int>, ps': Players, m: map<int, int>)
    requires Poses(f, ps, listing) && PairedBy(ps', f, m)
    ensures SameByes(ps, ps')
  {
    hide Ready, SameHistory, PairedWith;
  }

  lemma PlacedWithin(place: map<int, int>, order: seq<int>)
    requires PlacedInOrder(place, order)
    ensures Within(place, order)
  {
  }

  /** A round can be drawn exactly when its search problem has a pairing, and is drawn by the pairing found. */
  lemma DrawOfRound(before: Players, list0: seq<int>, place: map<int, int>)
    requires var ps, listing := RoundPlayers(before, list0), WithBye(list0);
      Within(ps, listing) && Poses(RoundField(ps, listing, place), ps, listing)
    ensures var ps, listing := RoundPlayers(before, list0), WithBye(list0);
      var f := RoundField(ps, listing, place);
      && TheDraw(ps, listing, place) == Found(f)
      && (CanDraw(before, list0) <==> listing != [] && exists m :: PerfectPairing(f, {}, m))
  {
    hide RoundPlayers, WithBye, RoundField, Found, PerfectPairing, RematchFree;
    var ps, listing := RoundPlayers(before, list0), WithBye(list0);
    AllDraws(RoundField(ps, listing, place), ps, listing);
  }

  lemma EverybodyOrdered(f: Field, ps: Players, listing: seq<int>)
    requires Poses(f, ps, listing) && Roster(ps, listing)
    ensures forall x :: x in f.ps ==> x in f.order
  {
    hide Distinct, SameHistory;
  }

  /** The records the search leaves are those of a draw. */
  lemma PairedIsDrawn(f: Field, ps: Players, listing: seq<int>, ps': Players, m: map<int, int>)
    requires Poses(f, ps, listing) && Roster(ps, listing)
    requires PerfectPairing(f, {}, m) && PairedBy(ps', f, m)
    ensures RematchFree(ps, listing, m) && Drawn(ps, ps', m) && Partnered(ps', m)
  {
    PosesDraw(f, ps, listing, m);
    PairedByes(f, ps, listing, ps', m);
    assert forall x :: x in ps <==> x in m;
    assert m.Keys == ps.Keys == ps'.Keys;
    assert forall x :: x in ps ==> x in f.order;
    hide Distinct, Ready, PairedBy, Extended, SameHistory, Awaits;
    forall x | x in ps
      ensures Extended(ps[x], ps'[x], m[x]) && ps'[x].oppName == m[x] && Awaits(ps', x, m[x], false)
    {
      PairedRecords(f, ps, ps', m, x);
    }
    DrawnFrom(ps, ps', m);
  }

  /** A search that fails leaves every history as it was. */
  lemma RestoredIsSame(f: Field, ps: Players, listing: seq<int>, ps': Players)
    requires Poses(f, ps, listing) && Restored(ps', f)
    ensures SameHistories(ps, ps')
  {
  }

  /** What a successful draw of a round comes to: everybody is in one game, the games are in order,
      nobody meets anybody again, and each history has the partner added. */
  ghost predicate RoundDrawn(ps: Players, ps': Players, listing: seq<int>, place: map<int, int>,
      games: seq<TourneyGame>, m: map<int, int>) {
    && RematchFree(ps, listing, m) && Drawn(ps, ps', m)
    && Covers(games, listing) && InOrder(place, games)
    && (forall i :: 0 <= i < |games| ==> Awaited(ps', games[i]) && KnowsPartner(ps', games[i]))
  }

  lemma BooksRoster(ps: Players, listing: seq<int>, recorded: nat)
    requires Books(ps, listing, [], recorded)
    ensures Roster(ps, listing) && Distinct(listing)
  {
  }

  lemma RoundDrawnFrom(ps: Players, ps': Players, listing: seq<int>, place: map<int, int>, games: seq<TourneyGame>,
      m: map<int, int>)
    requires RematchFree(ps, listing, m) && Drawn(ps, ps', m) && Covers(games, listing) && InOrder(place, games)
    requires forall i :: 0 <= i < |games| ==> Awaited(ps', games[i]) && KnowsPartner(ps', games[i])
    ensures RoundDrawn(ps, ps', listing, place, games, m) && Separate(games)
  {
  }

  lemma ColouredRound(ps: Players, found: Players, ps': Players, listing: seq<int>, place: map<int, int>,
      games: seq<TourneyGame>, m: map<int, int>, recorded: nat)
    requires Books(ps, listing, [], recorded) && RematchFree(ps, listing, m) && Drawn(ps, found, m)
    requires Colouring(UnpairedUpTo(found, listing, |listing|), ps', m, games) && InOrder(place, games)
    requires forall x :: x in ps' ==> ps'[x].paired
    ensures RoundDrawn(ps, ps', listing, place, games, m) && Books(ps', listing, games, recorded)
  {
    hide *;
    BooksRoster(ps, listing, recorded);
    var drawn := UnpairedUpTo(found, listing, |listing|);
    DrawnUnpaired(ps, found, drawn, listing, m);
    ColouredIsDrawn(ps, drawn, ps', listing, m, games);
    RoundDrawnFrom(ps, ps', listing, place, games, m);
    DrawKeepsBooks(ps, ps', listing, m, games, recorded);
  }

  /** Nobody's score differs. */
  ghost predicate SameScores(ps: Players, ps': Players) {
    forall x :: x in ps && x != BYE ==> x in ps' && ps'[x].score == ps[x].score
  }

  lemma SameHistoriesScores(ps: Players, ps': Players)
    requires SameHistories(ps, ps')
    ensures SameScores(ps, ps')
  {
  }

  /** A round in progress from its start: everybody in one game, in order, knowing the partner. */
  ghost predicate RoundOpen(ps: Players, listing: seq<int>, place: map<int, int>, games: seq<TourneyGame>) {
    Covers(games, listing) && InOrder(place, games) && forall i :: 0 <= i < |games| ==> KnowsPartner(ps, games[i])
  }

  lemma RoundKeepsScores(before: Players, list0: seq<int>)
    ensures SameScores(before, RoundPlayers(before, list0))
  {
    hide Reals;
  }

  lemma DrawKeepsScores(ps: Players, ps': Players, m: map<int, int>)
    requires Drawn(ps, ps', m)
    ensures SameScores(ps, ps')
  {
  }

  lemma ScoresThrough(before: Players, ps: Players, ps': Players)
    requires SameScores(before, ps) && SameScores(ps, ps')
    ensures SameScores(before, ps')
  {
  }

  lemma DrawnIsOpen(ps: Players, ps': Players, listing: seq<int>, place: map<int, int>, games: seq<TourneyGame>,
      m: map<int, int>)
    requires RoundDrawn(ps, ps', listing, place, games, m)
    ensures Drawn(ps, ps', m) && RoundOpen(ps', listing, place, games)
  {
    hide RematchFree, Drawn, Covers, InOrder, Awaited, KnowsPartner;
  }

  /** Drawing a round changes nobody's score. */
  lemma DrawnScores(before: Players, list0: seq<int>, ps': Players, listing: seq<int>, place: map<int, int>,
      games: seq<TourneyGame>)
    requires var ps := RoundPlayers(before, list0);
      SameHistories(ps, ps') || exists m :: RoundDrawn(ps, ps', listing, place, games, m)
    ensures SameScores(before, ps')
    ensures (exists m :: RoundDrawn(RoundPlayers(before, list0), ps', listing, place, games, m)) ==>
      RoundOpen(ps', listing, place, games)
  {
    hide *;
    var ps := RoundPlayers(before, list0);
    RoundKeepsScores(before, list0);
    if m :| RoundDrawn(ps, ps', listing, place, games, m) {
      DrawnIsOpen(ps, ps', listing, place, games, m);
      DrawKeepsScores(ps, ps', m);
    } else {
      SameHistoriesScores(ps, ps');
    }
    ScoresThrough(before, ps, ps');
  }

  lemma SameHistoriesDraws(ps: Players, ps': Players, listing: seq<int>)
    requires SameHistories(ps, ps')
    ensures CanDraw(ps, listing) <==> CanDraw(ps', listing)
  {
    var p, q := RoundPlayers(ps, listing), RoundPlayers(ps', listing);
    hide WithBye;
    forall m
      ensures RematchFree(p, WithBye(listing), m) <==> RematchFree(q, WithBye(listing), m)
    {
      assert forall x :: x in p <==> x in q;
      forall x, y | x in p
        ensures Met(p[x], y) <==> Met(q[x], y)
      {
        if x != BYE {
          assert SameHistory(ps[x], ps'[x]);
        }
      }
    }
  }
}
