/** The depth-first search for a pairing without rematches as a recursive function: what it finds,
    that it misses nothing, and how an explicit stack of choices continues it. */
module SwissSearch {
  import opened Swiss

  /** What does not change during a search: the players before it, their list and their order. */
  datatype Field = Field(ps: Players, place: map<int, int>, listing: seq<int>, order: seq<int>)

  ghost predicate Ready(f: Field) {
    && Within(f.ps, f.listing) && Within(f.place, f.listing) && Within(f.ps, f.order) && Within(f.place, f.order)
    && Distinct(f.order) && (forall x :: x in f.listing <==> x in f.order)
  }

  function Offer(f: Field, i: nat, taken: set<int>): seq<int>
    requires Ready(f) && i < |f.order|
  {
    Choices(f.ps, f.place, f.listing, f.order[i], taken)
  }

  datatype Pair = Pair(chooser: int, chosen: int)

  datatype Outcome = NoPairing | Pairing(pairs: seq<Pair>)

  /** Pairs everybody from position `i` on: the first one not taken yet tries its offers in turn. */
  function Search(f: Field, i: nat, taken: set<int>): Outcome
    requires Ready(f) && i <= |f.order|
    decreases |f.order| - i, 1, 0
  {
    if i == |f.order| then Pairing([])
    else if f.order[i] in taken then Search(f, i + 1, taken)
    else Try(f, i, taken, 0)
  }

  /** Tries the offers of the player at position `i` from number `k` on. */
  function Try(f: Field, i: nat, taken: set<int>, k: nat): Outcome
    requires Ready(f) && i < |f.order|
    decreases |f.order| - i, 0, |Offer(f, i, taken)| - k
  {
    var offer := Offer(f, i, taken);
    if k >= |offer| then NoPairing
    else
      match Search(f, i + 1, taken + {f.order[i], offer[k]})
      case Pairing(pairs) => Pairing([Pair(f.order[i], offer[k])] + pairs)
      case NoPairing => Try(f, i, taken, k + 1)
  }

  // ----- pairings -----

  /** A way to pair up everybody outside `taken`: nobody with themselves, nobody with somebody met before. */
  ghost predicate PerfectPairing(f: Field, taken: set<int>, m: map<int, int>)
    requires Ready(f)
  {
    && (forall x :: x in m <==> x in f.order && x !in taken)
    && (forall x :: x in m ==> m[x] in m && m[x] != x && m[m[x]] == x)
    && (forall x :: x in m ==> !Met(f.ps[x], m[x]))
  }

  /** Of two players, one has met the other only if the other has met the one; the bye, last in order, keeps no list. */
  ghost predicate FairRecords(f: Field)
    requires Ready(f)
  {
    forall i, j :: 0 <= i < j < |f.order| && Met(f.ps[f.order[j]], f.order[i]) ==> Met(f.ps[f.order[i]], f.order[j])
  }

  function PairMap(pairs: seq<Pair>): map<int, int> {
    if pairs == [] then map[]
    else PairMap(pairs[1..])[pairs[0].chooser := pairs[0].chosen][pairs[0].chosen := pairs[0].chooser]
  }

  /** Everybody before position `i` is taken, and everybody taken is known. */
  ghost predicate DoneBefore(f: Field, i: nat, taken: set<int>)
    requires i <= |f.order|
  {
    forall j :: 0 <= j < i ==> f.order[j] in taken
  }

  lemma OfferHas(f: Field, i: nat, taken: set<int>, y: int)
    requires Ready(f) && i < |f.order|
    ensures y in Offer(f, i, taken) <==> y in f.order && y != f.order[i] && y !in taken && !Met(f.ps[f.order[i]], y)
  {
    ChoicesHas(f.ps, f.place, f.listing, f.order[i], taken, y);
  }

  /** Adding one pair to a pairing of the others. */
  lemma AddPair(f: Field, i: nat, taken: set<int>, y: int, m: map<int, int>)
    requires Ready(f) && FairRecords(f) && i < |f.order| && DoneBefore(f, i, taken) && f.order[i] !in taken
    requires y in Offer(f, i, taken)
    requires PerfectPairing(f, taken + {f.order[i], y}, m)
    ensures PerfectPairing(f, taken, m[f.order[i] := y][y := f.order[i]])
  {
    OfferHas(f, i, taken, y);
    var x := f.order[i];
    var j :| 0 <= j < |f.order| && f.order[j] == y;
    assert j > i;
    assert !Met(f.ps[y], x);
  }

  /** Removing the pair of the player at position `i`. */
  lemma DropPair(f: Field, i: nat, taken: set<int>, m: map<int, int>)
    requires Ready(f) && i < |f.order| && f.order[i] !in taken && PerfectPairing(f, taken, m)
    ensures var x := f.order[i];
      x in m && m[x] in Offer(f, i, taken) && PerfectPairing(f, taken + {x, m[x]}, m - {x, m[x]})
  {
    var x := f.order[i];
    assert x in m;
    OfferHas(f, i, taken, m[x]);
    var m' := m - {x, m[x]};
    forall z | z in m'
      ensures m'[z] in m' && m'[z] == m[z]
    {
      assert m[m[z]] == z && m[m[x]] == x;
    }
  }

  /** What the search finds is a pairing of everybody left. */
  lemma {:induction false} SearchFinds(f: Field, i: nat, taken: set<int>)
    requires Ready(f) && FairRecords(f) && i <= |f.order| && DoneBefore(f, i, taken)
    requires Search(f, i, taken).Pairing?
    ensures PerfectPairing(f, taken, PairMap(Search(f, i, taken).pairs))
    decreases |f.order| - i, 1, 0
  {
    if i == |f.order| {
    } else if f.order[i] in taken {
      SearchFinds(f, i + 1, taken);
    } else {
      TryFinds(f, i, taken, 0);
    }
  }

  lemma {:induction false} TryFinds(f: Field, i: nat, taken: set<int>, k: nat)
    requires Ready(f) && FairRecords(f) && i < |f.order| && DoneBefore(f, i, taken) && f.order[i] !in taken
    requires Try(f, i, taken, k).Pairing?
    ensures PerfectPairing(f, taken, PairMap(Try(f, i, taken, k).pairs))
    decreases |f.order| - i, 0, |Offer(f, i, taken)| - k
  {
    hide PerfectPairing, FairRecords, Offer, Ready, Search;
    var offer := Offer(f, i, taken);
    var taken' := taken + {f.order[i], offer[k]};
    var found := Search(f, i + 1, taken');
    if found.Pairing? {
      SearchFinds(f, i + 1, taken');
      assert offer[k] in offer;
      AddPair(f, i, taken, offer[k], PairMap(found.pairs));
      assert Try(f, i, taken, k).pairs[1..] == found.pairs;
    } else {
      TryFinds(f, i, taken, k + 1);
    }
  }

  /** The search misses no pairing. */
  lemma {:induction false} SearchMissesNone(f: Field, i: nat, taken: set<int>, m: map<int, int>)
    requires Ready(f) && i <= |f.order| && PerfectPairing(f, taken, m)
    ensures Search(f, i, taken).Pairing?
    decreases |f.order| - i, 1, 0
  {
    if i == |f.order| {
    } else if f.order[i] in taken {
      SearchMissesNone(f, i + 1, taken, m);
    } else {
      DropPair(f, i, taken, m);
      var k :| 0 <= k < |Offer(f, i, taken)| && Offer(f, i, taken)[k] == m[f.order[i]];
      TryMissesNone(f, i, taken, m, 0, k);
    }
  }

  lemma {:induction false} TryMissesNone(f: Field, i: nat, taken: set<int>, m: map<int, int>, k: nat, hit: nat)
    requires Ready(f) && i < |f.order| && f.order[i] !in taken && PerfectPairing(f, taken, m)
    requires f.order[i] in m && k <= hit < |Offer(f, i, taken)| && Offer(f, i, taken)[hit] == m[f.order[i]]
    ensures Try(f, i, taken, k).Pairing?
    decreases |f.order| - i, 0, |Offer(f, i, taken)| - k
  {
    if k == hit {
      DropPair(f, i, taken, m);
      SearchMissesNone(f, i + 1, taken + {f.order[i], m[f.order[i]]}, m - {f.order[i], m[f.order[i]]});
    } else {
      TryMissesNone(f, i, taken, m, k + 1, hit);
    }
  }

  /** The search succeeds exactly when everybody can be paired without a rematch, and then it has done so. */
  lemma SearchDecides(f: Field)
    requires Ready(f) && FairRecords(f)
    ensures Search(f, 0, {}).Pairing? <==> exists m :: PerfectPairing(f, {}, m)
    ensures Search(f, 0, {}).Pairing? ==> PerfectPairing(f, {}, PairMap(Search(f, 0, {}).pairs))
  {
    if Search(f, 0, {}).Pairing? {
      SearchFinds(f, 0, {});
    }
    if m :| PerfectPairing(f, {}, m) {
      SearchMissesNone(f, 0, {}, m);
    }
  }

  /** The pairing the search finds, if it finds one. */
  ghost function Found(f: Field): map<int, int>
    requires Ready(f)
  {
    if Search(f, 0, {}).Pairing? then PairMap(Search(f, 0, {}).pairs) else map[]
  }

  // ----- continuing from a stack -----

  /** A choice on the stack: position of the chooser, number of the offer taken, who was taken before. */
  datatype Frame = Frame(i: nat, k: nat, taken: set<int>)

  ghost predicate FrameOk(f: Field, fr: Frame)
    requires Ready(f)
  {
    fr.i < |f.order| && fr.k < |Offer(f, fr.i, fr.taken)|
  }

  function PairOf(f: Field, fr: Frame): Pair
    requires Ready(f) && fr.i < |f.order| && fr.k < |Offer(f, fr.i, fr.taken)|
  {
    Pair(f.order[fr.i], Offer(f, fr.i, fr.taken)[fr.k])
  }

  ghost predicate StackOk(f: Field, stack: seq<Frame>)
    requires Ready(f)
  {
    forall s :: 0 <= s < |stack| ==> FrameOk(f, stack[s])
  }

  /** The outcome of the whole search, given the outcome above the stack. */
  ghost function Resume(f: Field, stack: seq<Frame>, r: Outcome): Outcome
    requires Ready(f) && StackOk(f, stack)
    decreases |stack|
  {
    if stack == [] then r
    else
      var top, below := stack[|stack| - 1], stack[..|stack| - 1];
      match r
      case Pairing(pairs) => Resume(f, below, Pairing([PairOf(f, top)] + pairs))
      case NoPairing => Resume(f, below, Try(f, top.i, top.taken, top.k + 1))
  }

  ghost function StackPairs(f: Field, stack: seq<Frame>): seq<Pair>
    requires Ready(f) && StackOk(f, stack)
  {
    seq(|stack|, s requires 0 <= s < |stack| => PairOf(f, stack[s]))
  }

  lemma {:induction false} ResumeSuccess(f: Field, stack: seq<Frame>, pairs: seq<Pair>)
    requires Ready(f) && StackOk(f, stack)
    ensures Resume(f, stack, Pairing(pairs)) == Pairing(StackPairs(f, stack) + pairs)
    decreases |stack|
  {
    if stack == [] {
      assert StackPairs(f, stack) + pairs == pairs;
    } else {
      var top, below := stack[|stack| - 1], stack[..|stack| - 1];
      ResumeSuccess(f, below, [PairOf(f, top)] + pairs);
      assert StackPairs(f, stack) == StackPairs(f, below) + [PairOf(f, top)];
      assert StackPairs(f, below) + ([PairOf(f, top)] + pairs) == StackPairs(f, stack) + pairs;
    }
  }

  /** The frame on top decides how an outcome continues below it. */
  lemma ResumeTop(f: Field, stack: seq<Frame>, fr: Frame, r: Outcome)
    requires Ready(f) && StackOk(f, stack) && FrameOk(f, fr)
    ensures StackOk(f, stack + [fr])
    ensures Resume(f, stack + [fr], r) ==
      match r
      case Pairing(pairs) => Resume(f, stack, Pairing([PairOf(f, fr)] + pairs))
      case NoPairing => Resume(f, stack, Try(f, fr.i, fr.taken, fr.k + 1))
  {
  }

  /** Pushing the choice just tried does not change the outcome. */
  lemma ResumePush(f: Field, stack: seq<Frame>, fr: Frame)
    requires Ready(f) && StackOk(f, stack) && FrameOk(f, fr)
    ensures StackOk(f, stack + [fr])
    ensures Resume(f, stack + [fr], Search(f, fr.i + 1, fr.taken + {f.order[fr.i], Offer(f, fr.i, fr.taken)[fr.k]}))
      == Resume(f, stack, Try(f, fr.i, fr.taken, fr.k))
  {
    ResumeTop(f, stack, fr, Search(f, fr.i + 1, fr.taken + {f.order[fr.i], Offer(f, fr.i, fr.taken)[fr.k]}));
  }

  // ----- how much of the search is left -----

  function Work(f: Field, i: nat, taken: set<int>): nat
    requires Ready(f) && i <= |f.order|
    decreases |f.order| - i, 1, 0
  {
    if i == |f.order| then 0
    else if f.order[i] in taken then 1 + Work(f, i + 1, taken)
    else 1 + TryWork(f, i, taken, 0)
  }

  function TryWork(f: Field, i: nat, taken: set<int>, k: nat): nat
    requires Ready(f) && i < |f.order|
    decreases |f.order| - i, 0, |Offer(f, i, taken)| - k
  {
    var offer := Offer(f, i, taken);
    if k >= |offer| then 1
    else 2 + Work(f, i + 1, taken + {f.order[i], offer[k]}) + TryWork(f, i, taken, k + 1)
  }

  /** Work left in the frames of a stack: the offers after the one taken. */
  ghost function StackWork(f: Field, stack: seq<Frame>): nat
    requires Ready(f) && StackOk(f, stack)
    decreases |stack|
  {
    if stack == [] then 0
    else
      var top := stack[|stack| - 1];
      StackWork(f, stack[..|stack| - 1]) + TryWork(f, top.i, top.taken, top.k + 1)
  }

  lemma StackWorkPush(f: Field, stack: seq<Frame>, fr: Frame)
    requires Ready(f) && StackOk(f, stack) && FrameOk(f, fr)
    ensures StackOk(f, stack + [fr])
    ensures StackWork(f, stack + [fr]) == StackWork(f, stack) + TryWork(f, fr.i, fr.taken, fr.k + 1)
  {
    assert (stack + [fr])[..|stack + [fr]| - 1] == stack;
  }
}
