/** How far down (or up) the order a player looks for an opponent: the definition by comparing with
    everybody, and the arithmetic of the scan over groups of equal score that replaces it. */
module SwissOffsets {
  import opened Swiss

  // ----- counting -----

  function Count(s: seq<int>, f: int -> bool): nat {
    if s == [] then 0 else (if f(s[0]) then 1 else 0) + Count(s[1..], f)
  }

  lemma {:induction false} CountSplit(a: seq<int>, b: seq<int>, f: int -> bool)
    ensures Count(a + b, f) == Count(a, f) + Count(b, f)
    decreases |a|
  {
    if a == [] {
      assert a + b == b;
    } else {
      assert (a + b)[1..] == a[1..] + b;
      CountSplit(a[1..], b, f);
    }
  }

  lemma {:induction false} CountNone(s: seq<int>, f: int -> bool)
    requires forall i :: 0 <= i < |s| ==> !f(s[i])
    ensures Count(s, f) == 0
    decreases |s|
  {
    if s != [] {
      CountNone(s[1..], f);
    }
  }

  lemma {:induction false} CountAll(s: seq<int>, f: int -> bool)
    requires forall i :: 0 <= i < |s| ==> f(s[i])
    ensures Count(s, f) == |s|
    decreases |s|
  {
    if s != [] {
      CountAll(s[1..], f);
    }
  }

  /** Taking out one entry. */
  function Without(s: seq<int>, k: nat): seq<int>
    requires k < |s|
    ensures |Without(s, k)| == |s| - 1
  {
    s[..k] + s[k + 1..]
  }

  lemma WithoutHas(s: seq<int>, k: nat)
    requires k < |s|
    ensures multiset(Without(s, k)) == multiset(s) - multiset{s[k]}
  {
    assert s == s[..k] + [s[k]] + s[k + 1..];
  }

  lemma WithoutCounts(s: seq<int>, k: nat, f: int -> bool)
    requires k < |s|
    ensures Count(s, f) == Count(Without(s, k), f) + if f(s[k]) then 1 else 0
  {
    assert s == s[..k] + s[k..];
    CountSplit(s[..k], s[k..], f);
    CountSplit(s[..k], s[k + 1..], f);
  }

  /** Counting does not depend on the order. */
  lemma {:induction false} CountPermuted(a: seq<int>, b: seq<int>, f: int -> bool)
    requires multiset(a) == multiset(b)
    ensures Count(a, f) == Count(b, f)
    decreases |a|
  {
    if a == [] {
      assert |multiset(b)| == 0;
    } else {
      hide Count, Without;
      assert a[0] in multiset(b);
      var k :| 0 <= k < |b| && b[k] == a[0];
      WithoutHas(a, 0);
      WithoutHas(b, k);
      WithoutCounts(a, 0, f);
      WithoutCounts(b, k, f);
      CountPermuted(Without(a, 0), Without(b, k), f);
    }
  }

  // ----- the definition -----

  /** Another player with the same score ... */
  function Tied(ps: Players, x: int): int -> bool {
    y => x in ps && y in ps && y != x && ps[y].score == ps[x].score
  }

  /** ... and a higher rating. */
  function Ahead(ps: Players, x: int): int -> bool {
    y => x in ps && y in ps && y != x && ps[y].score == ps[x].score && ps[y].rating > ps[x].rating
  }

  /** Half the size of the group, rounded down after an even size is made odd; negative in its lower half. */
  function OffsetFrom(tied: nat, place: int): int {
    var size := tied + 2;
    var half := (if size % 2 == 0 then size - 1 else size) / 2;
    if place > half then -half else half
  }

  /** That is half the players of the group, rounded down: downwards for the upper half, upwards for the rest. */
  lemma HalfOfGroup(tied: nat, place: int)
    ensures OffsetFrom(tied, place) == if 2 * place <= tied + 1 then (tied + 1) / 2 else -((tied + 1) / 2)
  {
  }

  /** The offset by comparing a player with all the others. */
  function ComparedOffset(ps: Players, listing: seq<int>, x: int): int {
    OffsetFrom(Count(listing, Tied(ps, x)), 1 + Count(listing, Ahead(ps, x)))
  }

  /** The records with the offsets of the listed players set. */
  function WithOffsets(ps: Players, listing: seq<int>): Players {
    map x | x in ps :: if x in listing then ps[x].(offset := ComparedOffset(ps, listing, x)) else ps[x]
  }

  // ----- a sorted order and its groups -----

  /** byScoreAndRating: by ascending score, among equals by ascending rating. */
  predicate NotAfter(p: TourneyPlayer, q: TourneyPlayer) {
    p.score < q.score || (p.score == q.score && p.rating <= q.rating)
  }

  /** Some order a sort by score and rating may leave, whatever it does with ties. */
  ghost predicate Ranking(ps: Players, listing: seq<int>, order: seq<int>) {
    && multiset(order) == multiset(listing) && Within(ps, order) && Distinct(order)
    && forall i, j :: 0 <= i < j < |order| ==> NotAfter(ps[order[i]], ps[order[j]])
  }

  /** All players with one score stand at positions lo..hi of the order. */
  ghost predicate Group(ps: Players, order: seq<int>, lo: nat, hi: nat)
    requires Within(ps, order)
  {
    && lo < hi <= |order|
    && (forall i :: lo <= i < hi ==> ps[order[i]].score == ps[order[lo]].score)
    && (forall i :: 0 <= i < lo ==> ps[order[i]].score < ps[order[lo]].score)
    && (forall i :: hi <= i < |order| ==> ps[order[i]].score > ps[order[lo]].score)
  }

  lemma CountThree(s: seq<int>, a: nat, b: nat, f: int -> bool)
    requires a <= b <= |s|
    ensures Count(s, f) == Count(s[..a], f) + Count(s[a..b], f) + Count(s[b..], f)
  {
    hide Count;
    assert s == s[..a] + (s[a..b] + s[b..]);
    CountSplit(s[..a], s[a..b] + s[b..], f);
    CountSplit(s[a..b], s[b..], f);
  }

  lemma CountGroup(s: seq<int>, lo: nat, hi: nat, f: int -> bool)
    requires lo <= hi <= |s|
    requires forall i :: 0 <= i < lo ==> !f(s[i])
    requires forall i :: hi <= i < |s| ==> !f(s[i])
    ensures Count(s, f) == Count(s[lo..hi], f)
  {
    CountThree(s, lo, hi, f);
    CountNone(s[..lo], f);
    CountNone(s[hi..], f);
  }

  lemma CountOthers(s: seq<int>, k: nat, f: int -> bool)
    requires k < |s| && forall i :: 0 <= i < |s| ==> (f(s[i]) <==> i != k)
    ensures Count(s, f) == |s| - 1
  {
    CountThree(s, k, k + 1, f);
    CountAll(s[..k], f);
    CountNone(s[k..k + 1], f);
    CountAll(s[k + 1..], f);
  }

  /** In its group a player is tied with all the others. */
  lemma GroupTied(ps: Players, listing: seq<int>, order: seq<int>, lo: nat, hi: nat, k: nat)
    requires Ranking(ps, listing, order) && Group(ps, order, lo, hi) && lo <= k < hi
    ensures Count(listing, Tied(ps, order[k])) == hi - lo - 1
  {
    hide Count;
    var f := Tied(ps, order[k]);
    CountPermuted(listing, order, f);
    CountGroup(order, lo, hi, f);
    CountOthers(order[lo..hi], k - lo, f);
  }

  /** Only players further on in its group are ahead of it. */
  lemma GroupAhead(ps: Players, listing: seq<int>, order: seq<int>, lo: nat, hi: nat, k: nat)
    requires Ranking(ps, listing, order) && Group(ps, order, lo, hi) && lo <= k < hi
    ensures Count(listing, Ahead(ps, order[k])) == Count(order[k + 1..hi], Ahead(ps, order[k]))
  {
    var f := Ahead(ps, order[k]);
    hide Count;
    CountPermuted(listing, order, f);
    forall i | 0 <= i < k + 1
      ensures !f(order[i])
    {
      if i < k {
        assert NotAfter(ps[order[i]], ps[order[k]]);
      }
    }
    CountGroup(order, k + 1, hi, f);
  }

  /** Place of the player at position `k` among those of its group, the highest rating first. */
  function PlaceIn(ps: Players, order: seq<int>, hi: nat, k: nat): int
    requires k < hi <= |order|
  {
    1 + Count(order[k + 1..hi], Ahead(ps, order[k]))
  }


  /** One step of the scan down a group: a player shares the place of the next one with the same
      rating; with a lower rating it comes after everybody passed so far. */
  lemma PlaceStep(ps: Players, listing: seq<int>, order: seq<int>, lo: nat, hi: nat, k: nat)
    requires Ranking(ps, listing, order) && Group(ps, order, lo, hi) && lo <= k < hi - 1
    ensures order[k] in ps && order[k + 1] in ps
    ensures PlaceIn(ps, order, hi, k) ==
      if ps[order[k]].rating == ps[order[k + 1]].rating then PlaceIn(ps, order, hi, k + 1) else hi - k
  {
    assert NotAfter(ps[order[k]], ps[order[k + 1]]);
    var f, above := Ahead(ps, order[k]), order[k + 1..hi];
    if ps[order[k]].rating == ps[order[k + 1]].rating {
      assert above[1..] == order[k + 2..hi];
      SameCount(order[k + 2..hi], f, Ahead(ps, order[k + 1]));
    } else {
      forall i | 0 <= i < |above|
        ensures f(above[i])
      {
        assert NotAfter(ps[order[k + 1]], ps[order[k + 1 + i]]) || i == 0;
      }
      CountAll(above, f);
    }
  }

  /** The places after position `i` of a group ending at `hi` are found; `tmp` players since the last change
      of rating. */
  ghost predicate Placing(ps: Players, order: seq<int>, hi: nat, i: int, places: seq<int>, tmp: int)
    ensures Placing(ps, order, hi, i, places, tmp) ==> |places| > |order| >= hi > i + 1 >= 0
  {
    && |places| > |order| >= hi > i + 1 >= 0
    && (forall k :: i < k < hi ==> places[k] == PlaceIn(ps, order, hi, k))
    && places[i + 1] + tmp == hi - i
  }

  lemma PlacingStarts(ps: Players, order: seq<int>, lo: nat, hi: nat, places: seq<int>)
    requires Within(ps, order) && Group(ps, order, lo, hi) && |places| > |order| && places[hi - 1] == 1
    ensures lo < hi && Placing(ps, order, hi, hi - 2, places, 1)
  {
  }

  lemma PlacingStep(ps: Players, ps': Players, listing: seq<int>, order: seq<int>, lo: nat, hi: nat, i: nat,
      places: seq<int>, tmp: int)
    requires Ranking(ps, listing, order) && Group(ps, order, lo, hi) && lo <= i && SameStandings(ps, ps')
    requires Placing(ps, order, hi, i, places, tmp)
    ensures order[i] in ps' && order[i + 1] in ps'
    ensures if ps'[order[i]].rating == ps'[order[i + 1]].rating
      then Placing(ps, order, hi, i - 1, places[i := places[i + 1]], tmp + 1)
      else Placing(ps, order, hi, i - 1, places[i := places[i + 1] + tmp], 1)
  {
    PlaceStep(ps, listing, order, lo, hi, i);
    hide PlaceIn, NotAfter;
  }

  lemma PlacingEnds(ps: Players, order: seq<int>, lo: nat, hi: nat, places: seq<int>, tmp: int)
    requires Placing(ps, order, hi, lo - 1, places, tmp)
    ensures forall k :: lo <= k < hi ==> places[k] == PlaceIn(ps, order, hi, k)
  {
  }

  lemma {:induction false} SameCount(s: seq<int>, f: int -> bool, g: int -> bool)
    requires forall i :: 0 <= i < |s| ==> f(s[i]) == g(s[i])
    ensures Count(s, f) == Count(s, g)
    decreases |s|
  {
    if s != [] {
      SameCount(s[1..], f, g);
    }
  }

  /** Size of the group and place in it give the offset of the definition. */
  lemma GroupOffset(ps: Players, listing: seq<int>, order: seq<int>, lo: nat, hi: nat, k: nat)
    requires Ranking(ps, listing, order) && Group(ps, order, lo, hi) && lo <= k < hi
    ensures OffsetFrom(hi - lo - 1, PlaceIn(ps, order, hi, k)) == ComparedOffset(ps, listing, order[k])
  {
    GroupTied(ps, listing, order, lo, hi, k);
    GroupAhead(ps, listing, order, lo, hi, k);
  }

  // ----- the sort -----

  ghost predicate Ascends(ps: Players, order: seq<int>)
    ensures Ascends(ps, order) ==> Within(ps, order)
  {
    Within(ps, order) && forall i, j :: 0 <= i < j < |order| ==> NotAfter(ps[order[i]], ps[order[j]])
  }

  lemma NobodyAscends(ps: Players)
    ensures Ascends(ps, [])
  {
  }

  lemma InsertHasAll(order: seq<int>, k: nat, x: int)
    requires k <= |order|
    ensures multiset(order[..k] + [x] + order[k..]) == multiset(order + [x])
  {
    assert order == order[..k] + order[k..];
  }

  /** Inserting after everybody who does not come later keeps a ranking. */
  lemma InsertAscends(ps: Players, order: seq<int>, k: nat, x: int)
    requires Ascends(ps, order) && x in ps && k <= |order|
    requires forall j :: 0 <= j < k ==> NotAfter(ps[order[j]], ps[x])
    requires k < |order| ==> !NotAfter(ps[order[k]], ps[x])
    ensures Ascends(ps, order[..k] + [x] + order[k..])
  {
  }

  lemma RankingFrom(ps: Players, listing: seq<int>, order: seq<int>)
    requires Distinct(listing) && multiset(order) == multiset(listing) && Ascends(ps, order)
    ensures Ranking(ps, listing, order)
  {
    forall i, j | 0 <= i < j < |order|
      ensures order[i] != order[j]
    {
      if order[i] == order[j] {
        assert order == order[..j] + [order[j]] + order[j + 1..];
        assert order[..j][i] in multiset(order[..j]);
        assert multiset(order)[order[j]] >= 2;
        DistinctOnce(listing, order[j]);
      }
    }
  }

  lemma {:induction false} DistinctOnce(s: seq<int>, x: int)
    requires Distinct(s)
    ensures multiset(s)[x] <= 1
    decreases |s|
  {
    if s != [] {
      assert s == [s[0]] + s[1..];
      DistinctOnce(s[1..], x);
    }
  }

  // ----- the scan -----

  /** The records agree but for the offsets. */
  ghost predicate SameStandings(ps: Players, ps': Players) {
    ps'.Keys == ps.Keys && forall x :: x in ps ==> ps'[x].score == ps[x].score && ps'[x].rating == ps[x].rating
  }

  /** The offsets of the first `n` players of the order are set. */
  ghost function OffsetsUpTo(ps: Players, listing: seq<int>, order: seq<int>, n: nat): (ps': Players)
    requires n <= |order|
    ensures SameStandings(ps, ps')
  {
    map x | x in ps :: if x in order[..n] then ps[x].(offset := ComparedOffset(ps, listing, x)) else ps[x]
  }

  lemma NoOffsets(ps: Players, listing: seq<int>, order: seq<int>)
    ensures OffsetsUpTo(ps, listing, order, 0) == ps
  {
  }

  lemma NextOffset(ps: Players, listing: seq<int>, order: seq<int>, k: nat)
    requires k < |order| && Ranking(ps, listing, order)
    ensures order[k] in ps
    ensures OffsetsUpTo(ps, listing, order, k + 1)
      == OffsetsUpTo(ps, listing, order, k)[order[k] := ps[order[k]].(offset := ComparedOffset(ps, listing, order[k]))]
    ensures OffsetsUpTo(ps, listing, order, k)[order[k]] == ps[order[k]]
  {
  }

  lemma AllOffsets(ps: Players, listing: seq<int>, order: seq<int>)
    requires Ranking(ps, listing, order)
    ensures OffsetsUpTo(ps, listing, order, |order|) == WithOffsets(ps, listing)
  {
    assert order[..|order|] == order;
    forall x
      ensures x in order <==> x in listing
    {
      assert x in order <==> x in multiset(order);
      assert x in listing <==> x in multiset(listing);
    }
  }

  /** The scan before position `j`: it is in the midst of a group that began at `beg`. */
  ghost predicate Scanned(ps: Players, order: seq<int>, beg: nat, j: nat, score: int, count: nat) {
    && Within(ps, order) && beg <= j <= |order| && count == j - beg
    && (j == 0 ==> score < 0)
    && (j > 0 ==> beg < j && score == ps[order[beg]].score)
    && (forall k :: beg <= k < j ==> ps[order[k]].score == score)
    && (forall k :: 0 <= k < beg < j ==> ps[order[k]].score < score)
  }

  /** Where the score changes a group ends; where it does not the group goes on. */
  lemma ScanStep(ps: Players, listing: seq<int>, order: seq<int>, beg: nat, j: nat, score: int, count: nat)
    requires Ranking(ps, listing, order) && Scanned(ps, order, beg, j, score, count)
    requires Within(ps, listing) && forall k :: 0 <= k < |listing| ==> ps[listing[k]].score >= 0
    ensures Within(ps, order) && (j < |order| ==> ps[order[j]].score >= 0)
    ensures j > 0 && (j == |order| || ps[order[j]].score != score) ==> Group(ps, order, beg, j)
    ensures j < |order| && ps[order[j]].score != score ==> Scanned(ps, order, j, j + 1, ps[order[j]].score, 1)
    ensures j < |order| && ps[order[j]].score == score ==> Scanned(ps, order, beg, j + 1, score, count + 1)
  {
    assert j < |order| ==> order[j] in multiset(order) && order[j] in listing;
    forall i, k | 0 <= i < k < |order|
      ensures ps[order[i]].score <= ps[order[k]].score
    {
      assert NotAfter(ps[order[i]], ps[order[k]]);
    }
  }
}
