/** What the offers of a round mean: in which order a player is offered its opponents, and the first round they lead
    to, in which the upper half plays the lower half. */
module SwissOffers {
  import opened Swiss
  import opened SwissSearch
  import opened SwissOffsets
  import opened SwissRounds
  import opened SwissDraw
  import opened SwissAssignments

  // ----- the order of the offers -----

  lemma {:induction false} OpenKeys(ps: Players, place: map<int, int>, listing: seq<int>, x: int, taken: set<int>,
      e: Entry)
    requires x in ps && x in place && Within(ps, listing) && Within(place, listing)
    requires e in Open(ps, place, listing, x, taken)
    ensures e.name in ps && e.name in place && e.key == PairingScore(ps, place, x, e.name)
    decreases |listing|
  {
    hide PairingScore;
    var y := listing[0];
    var rest := Open(ps, place, listing[1..], x, taken);
    if e in rest {
      OpenKeys(ps, place, listing[1..], x, taken, e);
    }
  }

  /** Offers come in the order of their pairing scores. */
  lemma OffersAscend(ps: Players, place: map<int, int>, listing: seq<int>, x: int, taken: set<int>, i: nat, j: nat)
    requires x in ps && x in place && Within(ps, listing) && Within(place, listing)
    requires i <= j < |Choices(ps, place, listing, x, taken)|
    ensures var y, z := Choices(ps, place, listing, x, taken)[i], Choices(ps, place, listing, x, taken)[j];
      && y in ps && z in ps && y in place && z in place
      && PairingScore(ps, place, x, y) <= PairingScore(ps, place, x, z)
  {
    hide PairingScore, Open, Sorted;
    var es := Open(ps, place, listing, x, taken);
    SortedIsSorted(es);
    SortedHas(es, Sorted(es)[i]);
    SortedHas(es, Sorted(es)[j]);
    OpenKeys(ps, place, listing, x, taken, Sorted(es)[i]);
    OpenKeys(ps, place, listing, x, taken, Sorted(es)[j]);
  }

  /** How many places somebody stands away from the place wanted. */
  function Away(ps: Players, place: map<int, int>, x: int, y: int): nat
    requires x in ps && x in place && y in place
  {
    Abs(place[y] - (place[x] + ps[x].offset))
  }

  /** Scores differ by less than a hundred points and ratings by less than ten thousand, and colours are due or not. */
  predicate Comparable(p: TourneyPlayer, q: TourneyPlayer) {
    Abs(p.score - q.score) < 199 && Abs(p.rating - q.rating) < 10000 && p.dueColor in {0, 1} && q.dueColor in {0, 1}
  }

  /** An opponent is at least as well placed as another: nearer to the place wanted; equally near, nearer in points;
      then rather due the same colour; then nearer in rating. */
  predicate AtLeastAsGood(ps: Players, place: map<int, int>, x: int, y: int, z: int)
    requires x in ps && y in ps && z in ps && x in place && y in place && z in place
  {
    var p, q, r := ps[x], ps[y], ps[z];
    || Away(ps, place, x, y) < Away(ps, place, x, z)
    || (Away(ps, place, x, y) == Away(ps, place, x, z)
        && (|| Abs(q.score - p.score) < Abs(r.score - p.score)
            || (Abs(q.score - p.score) == Abs(r.score - p.score)
                && (|| (q.dueColor == p.dueColor && r.dueColor != p.dueColor)
                    || ((q.dueColor == p.dueColor <==> r.dueColor == p.dueColor)
                        && Abs(q.rating - p.rating) <= Abs(r.rating - p.rating))))))
  }

  lemma ScoresCompare(ps: Players, place: map<int, int>, x: int, y: int, z: int)
    requires x in ps && y in ps && z in ps && x in place && y in place && z in place && ps[x].byeCount == 0
    requires Comparable(ps[x], ps[y]) && Comparable(ps[x], ps[z])
    ensures PairingScore(ps, place, x, y) <= PairingScore(ps, place, x, z) <==> AtLeastAsGood(ps, place, x, y, z)
  {
  }

  /** What the parts of a pairing score weigh against each other: a place two hundred half points, a half point fifty
      thousand of rating, the colour due ten thousand. */
  lemma PartsWeigh(ps: Players, place: map<int, int>, x: int, y: int, z: int)
    requires x in ps && y in ps && z in ps && x in place && y in place && z in place && ps[x].byeCount == 0
    ensures var p, q, r := ps[x], ps[y], ps[z];
      var points, colour, rating := Abs(q.score - p.score) - Abs(r.score - p.score),
        Abs(q.dueColor - p.dueColor) - Abs(r.dueColor - p.dueColor),
            Abs(q.rating - p.rating) - Abs(r.rating - p.rating);
      var nearer := Away(ps, place, x, z) - Away(ps, place, x, y);
      var noWorse := PairingScore(ps, place, x, y) <= PairingScore(ps, place, x, z);
      && (nearer == 1 && colour == rating == 0 ==> (noWorse <==> points <= 200))
      && (nearer == 0 && points == 1 && colour == 0 ==> (noWorse <==> rating <= -50000))
      && (nearer == points == 0 && colour == 1 ==> (noWorse <==> rating <= -10000))
  {
  }

  /** A player who had a bye counted would be offered another one after everybody fewer than ten places away from the
      place wanted, and with every bye counted that is ten places more. */
  lemma SecondByeComesLater(ps: Players, place: map<int, int>, x: int, y: int)
    requires x in ps && y in ps && BYE in ps && x in place && y in place && BYE in place && y != BYE
    requires ps[x].byeCount > 0 && Comparable(ps[x], ps[y])
    ensures Away(ps, place, x, y) < 10 * ps[x].byeCount ==>
      PairingScore(ps, place, x, y) < PairingScore(ps, place, x, BYE)
    ensures Away(ps, place, x, y) > 10 * ps[x].byeCount ==>
      PairingScore(ps, place, x, y) > PairingScore(ps, place, x, BYE)
  {
  }

  /** Of two opponents the one offered first is at least as well placed. */
  lemma BestFirst(ps: Players, place: map<int, int>, listing: seq<int>, x: int, taken: set<int>, i: nat, j: nat)
    requires x in ps && x in place && Within(ps, listing) && Within(place, listing) && ps[x].byeCount == 0
    requires i <= j < |Choices(ps, place, listing, x, taken)|
    ensures var y, z := Choices(ps, place, listing, x, taken)[i], Choices(ps, place, listing, x, taken)[j];
      && y in ps && z in ps && y in place && z in place
      && (Comparable(ps[x], ps[y]) && Comparable(ps[x], ps[z]) ==> AtLeastAsGood(ps, place, x, y, z))
  {
    hide PairingScore, Choices, Comparable, AtLeastAsGood;
    OffersAscend(ps, place, listing, x, taken, i, j);
    var y, z := Choices(ps, place, listing, x, taken)[i], Choices(ps, place, listing, x, taken)[j];
    if Comparable(ps[x], ps[y]) && Comparable(ps[x], ps[z]) {
      ScoresCompare(ps, place, x, y, z);
    }
  }

  /** The one opponent that is better placed than every other is offered first. */
  lemma BestIsFirst(ps: Players, place: map<int, int>, listing: seq<int>, x: int, taken: set<int>, y: int)
    requires x in ps && x in place && Within(ps, listing) && Within(place, listing) && ps[x].byeCount == 0
    requires y in Choices(ps, place, listing, x, taken)
    requires forall z :: z in Choices(ps, place, listing, x, taken) && z != y ==>
      && z in ps && z in place && y in ps && y in place
      && Comparable(ps[x], ps[y]) && Comparable(ps[x], ps[z]) && !AtLeastAsGood(ps, place, x, z, y)
    ensures Choices(ps, place, listing, x, taken)[0] == y
  {
    hide PairingScore, Choices, Comparable, AtLeastAsGood;
    var offers := Choices(ps, place, listing, x, taken);
    var j :| 0 <= j < |offers| && offers[j] == y;
    BestFirst(ps, place, listing, x, taken, 0, j);
    assert offers[0] in offers;
  }

  // ----- the first round -----

  /** Nobody has met anybody, everybody's place is the position in the order, and the upper half wants the place
      `n` below, the lower half that `n` above. */
  ghost predicate Halves(f: Field, n: nat)
    ensures Halves(f, n) ==> Ready(f) && |f.order| == 2 * n
  {
    && Ready(f) && |f.order| == 2 * n
    && (forall i :: 0 <= i < 2 * n ==> AtPlace(f, n, i))
    && (forall i, j :: 0 <= i < 2 * n && 0 <= j < 2 * n ==> Comparable(f.ps[f.order[i]], f.ps[f.order[j]]))
  }

  predicate AtPlace(f: Field, n: nat, i: nat)
    requires i < |f.order| && f.order[i] in f.ps && f.order[i] in f.place
  {
    var p := f.ps[f.order[i]];
    f.place[f.order[i]] == i && p.offset == (if i < n then n as int else -(n as int))
    && p.opponents == [] && p.byeCount == 0
  }

  /** The first `i` players of each half. */
  ghost function FirstOfHalves(f: Field, n: nat, i: nat): set<int>
    requires i <= n && |f.order| == 2 * n
  {
    set j | 0 <= j < 2 * n && (j < i || n <= j < n + i) :: f.order[j]
  }

  lemma InHalves(f: Field, n: nat, i: nat, j: nat)
    requires Halves(f, n) && i <= n && j < 2 * n
    ensures f.order[j] in FirstOfHalves(f, n, i) <==> j < i || n <= j < n + i
  {
    hide AtPlace, Comparable;
  }

  /** The next player of the upper half is offered the next one of the lower half first. */
  lemma OpponentBelow(f: Field, n: nat, i: nat)
    requires Halves(f, n) && i < n
    ensures var offer := Offer(f, i, FirstOfHalves(f, n, i)); |offer| > 0 && offer[0] == f.order[n + i]
  {
    var taken, x, y := FirstOfHalves(f, n, i), f.order[i], f.order[n + i];
    hide FirstOfHalves, Comparable, Choices;
    InHalves(f, n, i, n + i);
    OfferHas(f, i, taken, y);
    assert AtPlace(f, n, i) && AtPlace(f, n, n + i);
    forall z | z in Offer(f, i, taken) && z != y
      ensures z in f.ps && z in f.place && Comparable(f.ps[x], f.ps[z]) && Comparable(f.ps[x], f.ps[y])
      ensures !AtLeastAsGood(f.ps, f.place, x, z, y)
    {
      OfferHas(f, i, taken, z);
      var j :| 0 <= j < 2 * n && f.order[j] == z;
      assert AtPlace(f, n, j);
    }
    BestIsFirst(f.ps, f.place, f.listing, x, taken, y);
  }

  /** The pairs of the `k`-th players of the two halves from `i` on. */
  function Across(f: Field, n: nat, i: nat): seq<Pair>
    requires i <= n && |f.order| == 2 * n
    decreases n - i
  {
    if i == n then [] else [Pair(f.order[i], f.order[n + i])] + Across(f, n, i + 1)
  }

  lemma {:induction false} NobodyLeft(f: Field, n: nat, i: nat)
    requires Halves(f, n) && n <= i <= 2 * n
    ensures Search(f, i, FirstOfHalves(f, n, n)) == Pairing([])
    decreases 2 * n - i
  {
    hide Halves, FirstOfHalves, Try;
    if i < 2 * n {
      InHalves(f, n, n, i);
      NobodyLeft(f, n, i + 1);
    }
  }

  lemma HalvesGrow(f: Field, n: nat, i: nat)
    requires Halves(f, n) && i < n
    ensures FirstOfHalves(f, n, i) + {f.order[i], f.order[n + i]} == FirstOfHalves(f, n, i + 1)
  {
    hide AtPlace, Comparable;
  }

  /** The search pairs the two halves and never turns back. */
  lemma {:induction false} SearchFolds(f: Field, n: nat, i: nat)
    requires Halves(f, n) && i <= n
    ensures Search(f, i, FirstOfHalves(f, n, i)) == Pairing(Across(f, n, i))
    decreases n - i
  {
    hide Halves, FirstOfHalves, Offer;
    if i == n {
      NobodyLeft(f, n, i);
    } else {
      InHalves(f, n, i, i);
      OpponentBelow(f, n, i);
      HalvesGrow(f, n, i);
      SearchFolds(f, n, i + 1);
    }
  }

  lemma {:induction false} AcrossPairs(f: Field, n: nat, i: nat, k: nat)
    requires Halves(f, n) && i <= k < n
    ensures var m := PairMap(Across(f, n, i));
      && f.order[k] in m && m[f.order[k]] == f.order[n + k]
      && f.order[n + k] in m && m[f.order[n + k]] == f.order[k]
    decreases n - i
  {
    hide AtPlace, Comparable;
    if i < k {
      AcrossPairs(f, n, i + 1, k);
      assert Across(f, n, i)[1..] == Across(f, n, i + 1);
      assert f.order[k] != f.order[i] && f.order[n + k] != f.order[i];
      assert f.order[k] != f.order[n + i] && f.order[n + k] != f.order[n + i];
    }
  }

  /** The pairing found pairs the `k`-th of the order with the one half the players below. */
  lemma FoundFolds(f: Field, n: nat, k: nat)
    requires Halves(f, n) && k < n
    ensures var m := Found(f);
      && f.order[k] in m && m[f.order[k]] == f.order[n + k]
      && f.order[n + k] in m && m[f.order[n + k]] == f.order[k]
  {
    assert FirstOfHalves(f, n, 0) == {};
    hide Halves, FirstOfHalves;
    SearchFolds(f, n, 0);
    AcrossPairs(f, n, 0, k);
  }

  // ----- the order of a round whose players are level -----

  lemma DistinctSame(a: seq<int>, b: seq<int>)
    requires Distinct(a) && Distinct(b) && forall x :: x in a <==> x in b
    ensures multiset(a) == multiset(b)
  {
    hide Distinct;
    forall x
      ensures multiset(a)[x] == multiset(b)[x]
    {
      DistinctOnce(a, x);
      DistinctOnce(b, x);
      assert x in a <==> x in multiset(a);
      assert x in b <==> x in multiset(b);
    }
  }

  lemma OrderDescends(ps: Players, listing: seq<int>, i: nat, j: nat)
    requires Within(ps, listing) && Distinct(listing) && i < j < |SortOrder(ps, listing)|
    ensures var order := SortOrder(ps, listing);
      order[i] in ps && order[j] in ps && SortValue(ps[order[i]]) >= SortValue(ps[order[j]]) && order[i] != order[j]
  {
    var es := SortEntries(ps, listing);
    SortedIsSorted(es);
    SortedHas(es, Sorted(es)[i]);
    SortedHas(es, Sorted(es)[j]);
    SortOrderIsPermutation(ps, listing);
  }

  /** A round of `2 * n` players that nobody has begun: all scores the same, all ratings different. */
  ghost predicate LevelRound(ps: Players, listing: seq<int>, n: nat) {
    && Roster(ps, listing) && Within(ps, listing) && |listing| == 2 * n
    && (forall x :: x in ps ==> ps[x].opponents == [] && ps[x].byeCount == 0)
    && (forall x, y :: x in ps && y in ps ==> ps[x].score == ps[y].score && Comparable(ps[x], ps[y]))
    && (forall x, y :: x in ps && y in ps && x != y ==> ps[x].rating != ps[y].rating)
  }

  /** Its order goes down by rating. */
  lemma LevelOrder(ps: Players, listing: seq<int>, n: nat, i: nat, j: nat)
    requires LevelRound(ps, listing, n) && i < j < 2 * n
    ensures var order := SortOrder(ps, listing);
      |order| == 2 * n && order[i] in ps && order[j] in ps && ps[order[i]].rating > ps[order[j]].rating
  {
    hide SortOrder, Comparable;
    SortOrderIsPermutation(ps, listing);
    OrderDescends(ps, listing, i, j);
  }

  lemma LevelTied(ps: Players, listing: seq<int>, order: seq<int>, n: nat, i: nat)
    requires LevelRound(ps, listing, n) && multiset(order) == multiset(listing) && i < |order| == 2 * n
    requires Distinct(order) && Within(ps, order)
    ensures Count(listing, Tied(ps, order[i])) == 2 * n - 1
  {
    hide Comparable, Count;
    CountPermuted(listing, order, Tied(ps, order[i]));
    CountOthers(order, i, Tied(ps, order[i]));
  }

  lemma LevelAhead(ps: Players, listing: seq<int>, order: seq<int>, n: nat, i: nat)
    requires LevelRound(ps, listing, n) && multiset(order) == multiset(listing) && i < |order| == 2 * n
    requires Within(ps, order) && forall j, k :: 0 <= j < k < 2 * n ==> ps[order[j]].rating > ps[order[k]].rating
    ensures Count(listing, Ahead(ps, order[i])) == i
  {
    hide Comparable, Count;
    var f := Ahead(ps, order[i]);
    CountPermuted(listing, order, f);
    CountThree(order, i, 2 * n, f);
    CountAll(order[..i], f);
    CountNone(order[i..2 * n], f);
    CountNone(order[2 * n..], f);
  }

  /** So the offsets are half the players down for the upper half and as many up for the lower one. */
  lemma LevelOffset(ps: Players, listing: seq<int>, n: nat, i: nat)
    requires LevelRound(ps, listing, n) && i < 2 * n
    ensures |SortOrder(ps, listing)| == 2 * n
    ensures ComparedOffset(ps, listing, SortOrder(ps, listing)[i]) == if i < n then n as int else -(n as int)
  {
    hide SortOrder, Comparable, Count;
    var order := SortOrder(ps, listing);
    SortOrderIsPermutation(ps, listing);
    DistinctSame(order, listing);
    forall j, k | 0 <= j < k < 2 * n
      ensures ps[order[j]].rating > ps[order[k]].rating
    {
      LevelOrder(ps, listing, n, j, k);
    }
    forall k | 0 <= k < 2 * n
      ensures order[k] in ps
    {
      assert order[k] in order && order[k] in listing;
    }
    LevelTied(ps, listing, order, n, i);
    LevelAhead(ps, listing, order, n, i);
  }

  lemma LevelIsHalves(ps: Players, listing: seq<int>, place: map<int, int>, n: nat, recorded: nat)
    requires Books(ps, listing, [], recorded) && NewBye(ps) && LevelRound(ps, listing, n)
    requires PlacedInOrder(place, SortOrder(ps, listing))
    ensures Halves(RoundField(ps, listing, place), n)
  {
    var f := RoundField(ps, listing, place);
    hide SortOrder, Books, RoundField, Comparable;
    RoundFieldReady(ps, listing, place, recorded);
    RoundFieldIs(ps, listing, place);
    SortOrderIsPermutation(ps, listing);
    forall i | 0 <= i < 2 * n
      ensures AtPlace(f, n, i) && LevelRecord(ps, f, f.order[i])
    {
      LevelMan(ps, listing, place, n, i, recorded);
    }
    forall i, j | 0 <= i < 2 * n && 0 <= j < 2 * n
      ensures Comparable(f.ps[f.order[i]], f.ps[f.order[j]])
    {
      assert LevelRecord(ps, f, f.order[i]) && LevelRecord(ps, f, f.order[j]);
      LevelComparable(ps, listing, n, f, f.order[i], f.order[j]);
    }
  }

  predicate LevelRecord(ps: Players, f: Field, x: int) {
    x in ps && x in f.ps && f.ps[x].score == ps[x].score && f.ps[x].rating == ps[x].rating
      && f.ps[x].dueColor == ps[x].dueColor
  }

  lemma LevelComparable(ps: Players, listing: seq<int>, n: nat, f: Field, x: int, y: int)
    requires LevelRound(ps, listing, n) && LevelRecord(ps, f, x) && LevelRecord(ps, f, y)
    ensures Comparable(f.ps[x], f.ps[y])
  {
    assert Comparable(ps[x], ps[y]);
  }

  lemma LevelMan(ps: Players, listing: seq<int>, place: map<int, int>, n: nat, i: nat, recorded: nat)
    requires Books(ps, listing, [], recorded) && LevelRound(ps, listing, n) && i < 2 * n
    requires PlacedInOrder(place, SortOrder(ps, listing))
    ensures var f := RoundField(ps, listing, place);
      i < |f.order| && f.order[i] in f.ps && f.order[i] in f.place && AtPlace(f, n, i) && LevelRecord(ps, f, f.order[i])
  {
    hide SortOrder, Books, RoundField, Comparable, ReadyRecords, WithOffsets, ComparedOffset;
    RoundFieldIs(ps, listing, place);
    SortOrderIsPermutation(ps, listing);
    BooksRoster(ps, listing, recorded);
    RoundFieldKeys(ps, listing, place);
    LevelOffset(ps, listing, n, i);
    ReadyRecord(ps, listing, SortOrder(ps, listing)[i]);
  }

  /** In such a round the `k`-th by rating is drawn with the one `n` places below. */
  lemma LevelDraw(ps: Players, listing: seq<int>, place: map<int, int>, n: nat, recorded: nat, k: nat)
    requires Books(ps, listing, [], recorded) && NewBye(ps) && LevelRound(ps, listing, n) && k < n
    requires PlacedInOrder(place, SortOrder(ps, listing)) && |SortOrder(ps, listing)| == 2 * n
    ensures var m, order := TheDraw(ps, listing, place), SortOrder(ps, listing);
      order[k] in m && m[order[k]] == order[n + k] && order[n + k] in m && m[order[n + k]] == order[k]
  {
    hide SortOrder, Books, RoundField, LevelRound, Halves, NewBye;
    LevelIsHalves(ps, listing, place, n, recorded);
    RoundFieldIs(ps, listing, place);
    LevelWithin(ps, listing, n);
    FoundFolds(RoundField(ps, listing, place), n, k);
  }

  lemma LevelWithin(ps: Players, listing: seq<int>, n: nat)
    requires LevelRound(ps, listing, n)
    ensures Within(ps, listing)
  {
    hide Comparable, Roster;
  }

  /** Such a round can be drawn. */
  lemma LevelCanBeDrawn(before: Players, list0: seq<int>, n: nat, recorded: nat)
    requires Books(before, list0, [], recorded) && n > 0
    requires LevelRound(RoundPlayers(before, list0), WithBye(list0), n)
    ensures CanDraw(before, list0)
  {
    hide SortOrder, Books, LevelRound, Halves, NewBye, RoundPlayers, WithBye, RematchFree, RoundField;
    var ps, listing := RoundPlayers(before, list0), WithBye(list0);
    ByeKeepsBooks(before, list0, recorded);
    RoundHasNewBye(before, list0);
    LevelWithin(ps, listing, n);
    RoundOrder(ps, listing, recorded);
    LevelSize(ps, listing, n);
    var order := SortOrder(ps, listing);
    var place := SomePlaces(order);
    LevelIsHalves(ps, listing, place, n, recorded);
    RoundFieldReady(ps, listing, place, recorded);
    var f := RoundField(ps, listing, place);
    assert FirstOfHalves(f, n, 0) == {};
    SearchFolds(f, n, 0);
    SearchFinds(f, 0, {});
    PosesDraw(f, ps, listing, PairMap(Search(f, 0, {}).pairs));
  }

  lemma LevelSize(ps: Players, listing: seq<int>, n: nat)
    requires LevelRound(ps, listing, n)
    ensures |listing| == 2 * n
  {
    hide Comparable, Roster;
  }

  lemma SomePlaces(order: seq<int>) returns (place: map<int, int>)
    requires Distinct(order)
    ensures PlacedInOrder(place, order)
  {
    place := map k | 0 <= k < |order| :: order[k] := k;
  }

  /** Players are sorted by score and among equals by rating, as long as ratings differ by less than half a point is
      worth. */
  lemma ByScoreThenRating(p: TourneyPlayer, q: TourneyPlayer)
    ensures Abs(p.rating - q.rating) < 5000 ==>
      (SortValue(p) > SortValue(q) <==> p.score > q.score || (p.score == q.score && p.rating > q.rating))
    ensures p.score == q.score - 1 ==> (SortValue(p) > SortValue(q) <==> p.rating > q.rating + 5000)
  {
  }
}
