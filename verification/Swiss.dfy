/** Players of a Swiss tournament, the order they are sorted in and the opponents they are offered. */
module Swiss {

  /** Name of the bye. */
  const BYE: int := 0

  /** An entry of a player's list of opponents. Results are in half points; NO_RESULT is the source's -1. */
  datatype Opponent = Opponent(name: int, result: int, white: bool, rating: int)

  const NO_RESULT: int := -2

  /** A player; the score is in half points. */
  datatype TourneyPlayer = TourneyPlayer(
    name: int,
    rating: int,
    score: int,
    offset: int,
    oppChoice: nat,
    paired: bool,
    oppName: int,
    opponents: seq<Opponent>,
    dueColor: int,
    consecutiveWhites: int,
    consecutiveBlacks: int,
    totalWhites: int,
    totalBlacks: int,
    byeCount: int)

  function NewPlayer(name: int, rating: int, score: int): TourneyPlayer {
    TourneyPlayer(name, rating, score, 0, 0, false, 0, [], 0, 0, 0, 0, 0, 0)
  }

  type Players = map<int, TourneyPlayer>

  /** How often a name occurs in a player's list of opponents. */
  function AlreadyPlayed(opponents: seq<Opponent>, name: int): nat {
    if opponents == [] then 0
    else (if opponents[0].name == name then 1 else 0) + AlreadyPlayed(opponents[1..], name)
  }

  ghost predicate Met(p: TourneyPlayer, name: int) {
    exists k :: 0 <= k < |p.opponents| && p.opponents[k].name == name
  }

  lemma {:induction false} AlreadyPlayedIsMet(opponents: seq<Opponent>, name: int)
    ensures AlreadyPlayed(opponents, name) > 0 <==> exists k :: 0 <= k < |opponents| && opponents[k].name == name
  {
    if opponents != [] {
      AlreadyPlayedIsMet(opponents[1..], name);
      if k :| 0 <= k < |opponents| && opponents[k].name == name {
        assert k > 0 ==> opponents[1..][k - 1].name == name;
      }
    }
  }

  // ----- stable sorting by an integer key -----

  datatype Entry = Entry(name: int, key: int)

  /** Inserts before the first entry whose key is not smaller. */
  function Insert(e: Entry, s: seq<Entry>): seq<Entry> {
    if s == [] || e.key <= s[0].key then [e] + s else [s[0]] + Insert(e, s[1..])
  }

  /** Sorts by ascending key and keeps the order of entries with equal keys. */
  function Sorted(s: seq<Entry>): seq<Entry> {
    if s == [] then [] else Insert(s[0], Sorted(s[1..]))
  }

  predicate Ascending(s: seq<Entry>) {
    forall i, j :: 0 <= i < j < |s| ==> s[i].key <= s[j].key
  }

  lemma {:induction false} InsertKeeps(e: Entry, s: seq<Entry>)
    ensures multiset(Insert(e, s)) == multiset(s) + multiset{e}
    decreases |s|
  {
    if s != [] && !(e.key <= s[0].key) {
      InsertKeeps(e, s[1..]);
      assert s == [s[0]] + s[1..];
    }
  }

  lemma {:induction false} InsertSorts(e: Entry, s: seq<Entry>)
    requires Ascending(s)
    ensures Ascending(Insert(e, s))
    ensures Insert(e, s) != [] && Insert(e, s)[0].key == if s == [] || e.key <= s[0].key then e.key else s[0].key
    decreases |s|
  {
    if s != [] && !(e.key <= s[0].key) {
      InsertSorts(e, s[1..]);
    }
  }

  lemma {:induction false} SortedIsSorted(s: seq<Entry>)
    ensures multiset(Sorted(s)) == multiset(s)
    ensures Ascending(Sorted(s))
    decreases |s|
  {
    if s != [] {
      SortedIsSorted(s[1..]);
      InsertKeeps(s[0], Sorted(s[1..]));
      InsertSorts(s[0], Sorted(s[1..]));
      hide Insert, Ascending;
      assert s == [s[0]] + s[1..];
    }
  }

  function Names(s: seq<Entry>): seq<int> {
    seq(|s|, i requires 0 <= i < |s| => s[i].name)
  }

  lemma SortedHas(s: seq<Entry>, e: Entry)
    ensures e in Sorted(s) <==> e in s
  {
    SortedIsSorted(s);
    assert e in Sorted(s) <==> e in multiset(Sorted(s));
    assert e in s <==> e in multiset(s);
  }

  /** An entry that comes last and has the largest key, ties included, stays last. */
  lemma {:induction false} LargestLastStays(s: seq<Entry>)
    requires s != [] && forall i :: 0 <= i < |s| ==> s[i].key <= s[|s| - 1].key
    ensures |Sorted(s)| == |s| && Sorted(s)[|s| - 1] == s[|s| - 1]
    decreases |s|
  {
    if |s| == 1 {
      assert Sorted(s[1..]) == [];
    } else {
      LargestLastStays(s[1..]);
      InsertBeforeLast(s[0], Sorted(s[1..]));
    }
  }

  lemma {:induction false} InsertBeforeLast(e: Entry, s: seq<Entry>)
    requires s != [] && e.key <= s[|s| - 1].key
    ensures |Insert(e, s)| == |s| + 1 && Insert(e, s)[|s|] == s[|s| - 1]
    decreases |s|
  {
    if !(e.key <= s[0].key) {
      InsertBeforeLast(e, s[1..]);
    }
  }

  // ----- the order of the players -----

  /** Every name of a list is a key. */
  predicate Within<V>(m: map<int, V>, listing: seq<int>) {
    forall k :: 0 <= k < |listing| ==> listing[k] in m
  }

  /** Score plus a ten-thousandth of the rating, in units of a ten-thousandth of a point. */
  function SortValue(p: TourneyPlayer): int {
    5000 * p.score + p.rating
  }

  /** Entries in list order; descending by sort value is ascending by its negation. */
  function SortEntries(ps: Players, listing: seq<int>): seq<Entry>
    requires Within(ps, listing)
  {
    seq(|listing|, i requires 0 <= i < |listing| => Entry(listing[i], -SortValue(ps[listing[i]])))
  }

  function SortOrder(ps: Players, listing: seq<int>): seq<int>
    requires Within(ps, listing)
  {
    Names(Sorted(SortEntries(ps, listing)))
  }

  predicate Distinct(s: seq<int>) {
    forall i, j :: 0 <= i < j < |s| ==> s[i] != s[j]
  }

  lemma SortOrderIsPermutation(ps: Players, listing: seq<int>)
    requires Within(ps, listing) && Distinct(listing)
    ensures |SortOrder(ps, listing)| == |listing| && Distinct(SortOrder(ps, listing))
    ensures forall x :: x in SortOrder(ps, listing) <==> x in listing
  {
    var es := SortEntries(ps, listing);
    var s := Sorted(es);
    SortedIsSorted(es);
    assert |s| == |multiset(s)| == |multiset(es)| == |es|;
    forall x
      ensures x in Names(s) <==> x in listing
    {
      if x in Names(s) {
        var i :| 0 <= i < |s| && Names(s)[i] == x;
        SortedHas(es, s[i]);
      }
      if x in listing {
        var i :| 0 <= i < |listing| && listing[i] == x;
        SortedHas(es, es[i]);
        var j :| 0 <= j < |s| && s[j] == es[i];
        assert Names(s)[j] == x;
      }
    }
    forall i, j | 0 <= i < j < |s|
      ensures s[i].name != s[j].name
    {
      if s[i].name == s[j].name {
        SameNameTwice(es, s, i, j);
      }
    }
  }

  lemma {:induction false} DistinctCountsOnce(es: seq<Entry>, e: Entry)
    requires forall k, l :: 0 <= k < l < |es| ==> es[k].name != es[l].name
    ensures multiset(es)[e] <= 1
    decreases |es|
  {
    if es != [] {
      var rest := es[1..];
      assert es == [es[0]] + rest;
      DistinctCountsOnce(rest, e);
    }
  }

  /** A rearrangement of entries with distinct names has distinct names. */
  lemma SameNameTwice(es: seq<Entry>, s: seq<Entry>, i: nat, j: nat)
    requires multiset(es) == multiset(s) && i < j < |s| && s[i].name == s[j].name
    ensures exists k, l :: 0 <= k < l < |es| && es[k].name == es[l].name
  {
    assert s[i] in multiset(s) && s[j] in multiset(s);
    var k :| 0 <= k < |es| && es[k] == s[i];
    var l :| 0 <= l < |es| && es[l] == s[j];
    if k == l {
      assert s == s[..j] + [s[j]] + s[j + 1..];
      assert s[..j][i] in multiset(s[..j]);
      assert multiset(s)[s[j]] >= 2;
      if forall k, l :: 0 <= k < l < |es| ==> es[k].name != es[l].name {
        DistinctCountsOnce(es, s[j]);
      }
    }
  }

  /** With scores and ratings that are not negative, a bye at the end of the list sorts last. */
  lemma ByeSortsLast(ps: Players, listing: seq<int>)
    requires Within(ps, listing)
    requires forall k :: 0 <= k < |listing| ==> ps[listing[k]].score >= 0 && ps[listing[k]].rating >= 0
    requires listing != [] && SortValue(ps[listing[|listing| - 1]]) == 0
    ensures |SortOrder(ps, listing)| == |listing|
    ensures SortOrder(ps, listing)[|listing| - 1] == listing[|listing| - 1]
  {
    var es := SortEntries(ps, listing);
    LargestLastStays(es);
  }

  // ----- the opponents a player is offered -----

  function Abs(i: int): nat {
    if i < 0 then -i else i
  }

  /** How far an opponent is from the one wanted, in units of a ten-thousandth: distance from the wanted
      place, difference in points, due colours and rating. */
  function Distance(ps: Players, place: map<int, int>, x: int, y: int): int
    requires x in ps && y in ps && x in place && y in place
  {
    10000000 * Abs(place[y] - (place[x] + ps[x].offset))
    + 50000 * Abs(ps[y].score - ps[x].score)
    + 10000 * Abs(ps[y].dueColor - ps[x].dueColor)
    + Abs(ps[y].rating - ps[x].rating)
  }

  /** Score of an opponent; a second bye is meant to be pushed to the end. */
  function PairingScore(ps: Players, place: map<int, int>, x: int, y: int): int
    requires x in ps && y in ps && x in place && y in place
  {
    if y == BYE && ps[x].byeCount != 0 then 100000000 * ps[x].byeCount else Distance(ps, place, x, y)
  }

  /** The opponents still open to `x` when `taken` are paired, in list order. */
  function Open(ps: Players, place: map<int, int>, listing: seq<int>, x: int, taken: set<int>): seq<Entry>
    requires x in ps && x in place && Within(ps, listing) && Within(place, listing)
  {
    if listing == [] then []
    else
      var y := listing[0];
      var rest := Open(ps, place, listing[1..], x, taken);
      if y == x || y in taken || AlreadyPlayed(ps[x].opponents, y) > 0 then rest
      else [Entry(y, PairingScore(ps, place, x, y))] + rest
  }

  /** ... best first. */
  function Choices(ps: Players, place: map<int, int>, listing: seq<int>, x: int, taken: set<int>): seq<int>
    requires x in ps && x in place && Within(ps, listing) && Within(place, listing)
  {
    Names(Sorted(Open(ps, place, listing, x, taken)))
  }

  ghost predicate NameIn(es: seq<Entry>, y: int) {
    exists i :: 0 <= i < |es| && es[i].name == y
  }

  lemma NameInCons(e: Entry, es: seq<Entry>, y: int)
    ensures NameIn([e] + es, y) <==> e.name == y || NameIn(es, y)
  {
    var whole := [e] + es;
    if e.name == y {
      assert whole[0].name == y;
    }
    if i :| 0 <= i < |es| && es[i].name == y {
      assert whole[i + 1].name == y;
    }
  }

  lemma {:induction false} OpenHas(ps: Players, place: map<int, int>, listing: seq<int>, x: int, taken: set<int>,
      y: int)
    requires x in ps && x in place && Within(ps, listing) && Within(place, listing)
    ensures NameIn(Open(ps, place, listing, x, taken), y) <==>
      y in listing && y != x && y !in taken && !Met(ps[x], y)
    decreases |listing|
  {
    if listing != [] {
      OpenHas(ps, place, listing[1..], x, taken, y);
      AlreadyPlayedIsMet(ps[x].opponents, listing[0]);
      assert listing == [listing[0]] + listing[1..];
      NameInCons(Entry(listing[0], PairingScore(ps, place, x, listing[0])), Open(ps, place, listing[1..], x, taken), y);
    }
  }

  /** A player is offered exactly the others that are not paired yet and were not met before. */
  lemma ChoicesHas(ps: Players, place: map<int, int>, listing: seq<int>, x: int, taken: set<int>, y: int)
    requires x in ps && x in place && Within(ps, listing) && Within(place, listing)
    ensures y in Choices(ps, place, listing, x, taken) <==>
      y in listing && y != x && y !in taken && !Met(ps[x], y)
  {
    OpenHas(ps, place, listing, x, taken, y);
    var es := Open(ps, place, listing, x, taken);
    if y in Choices(ps, place, listing, x, taken) {
      var i :| 0 <= i < |Sorted(es)| && Names(Sorted(es))[i] == y;
      SortedHas(es, Sorted(es)[i]);
    }
    if NameIn(es, y) {
      var k :| 0 <= k < |es| && es[k].name == y;
      SortedHas(es, es[k]);
      var i :| 0 <= i < |Sorted(es)| && Sorted(es)[i] == es[k];
      assert Names(Sorted(es))[i] == y;
    }
  }
}
