/** How the records of the players mirror the stack of choices of the search, step by step. */
module SwissMirror {
  import opened Swiss
  import opened SwissSearch
  import opened SwissRecords

  /** The names of the players that are paired. */
  function Taken(ps: Players): set<int> {
    set x | x in ps && ps[x].paired
  }

  /** The records agree with a stack of choices, up to stale opponent names and one list of offers. */
  ghost predicate Mirrors(ps: Players, f: Field, stack: seq<Frame>)
    ensures Mirrors(ps, f, stack) ==> Ready(f) && StackOk(f, stack)
  {
    Ready(f) && Fresh(f) && Chain(f, stack) && AllPlain(ps) == Records(f, stack)
  }

  /** ... and so do the remembered positions of the choosers. */
  ghost predicate Remembers(paired: seq<(int, nat)>, f: Field, stack: seq<Frame>)
    requires Ready(f) && StackOk(f, stack)
  {
    && |paired| == |stack|
    && forall s :: 0 <= s < |stack| ==> paired[s] == (f.order[stack[s].i], stack[s].i)
  }

  /** The outcome a search must come to, and a bound on the work it may still take. */
  datatype Goal = Goal(outcome: Outcome, work: nat)

  /** Work left when the player at position `i` is about to try offer number `k`. */
  ghost function Left(f: Field, stack: seq<Frame>, i: int, k: nat): nat
    requires Ready(f) && StackOk(f, stack) && 0 <= i < |f.order|
  {
    TryWork(f, i, TakenBy(f, stack), k) + StackWork(f, stack)
  }

  /** Trying offer number `k` of the player at position `i` on top of the stack comes to the goal. */
  ghost predicate OnTrack(f: Field, stack: seq<Frame>, i: int, k: nat, goal: Goal)
    requires Ready(f) && StackOk(f, stack) && 0 <= i < |f.order|
  {
    goal.outcome == Resume(f, stack, Try(f, i, TakenBy(f, stack), k)) && Left(f, stack, i, k) <= goal.work
  }

  ghost function Top(stack: seq<Frame>): Frame
    requires stack != []
  {
    stack[|stack| - 1]
  }

  ghost function Below(stack: seq<Frame>): seq<Frame>
    requires stack != []
  {
    stack[..|stack| - 1]
  }

  /** The player `tp` at position `i` is free and trying its offers on top of a stack of choices. */
  ghost predicate Choosing(ps: Players, paired: seq<(int, nat)>, f: Field, stack: seq<Frame>, i: int, tp: int)
    ensures Choosing(ps, paired, f, stack, i, tp) ==>
      Ready(f) && StackOk(f, stack) && 0 <= i < |f.order| && tp in ps
  {
    && tp in ps && Mirrors(ps[tp := ps[tp].(oppChoice := 0)], f, stack) && Remembers(paired, f, stack)
    && 0 <= i < |f.order| && tp == f.order[i] && tp !in TakenBy(f, stack)
  }

  /** A stack of choices with which everybody before position `i` is paired, on the way of the whole search. */
  ghost predicate Underway(ps: Players, paired: seq<(int, nat)>, f: Field, stack: seq<Frame>, i: int)
    ensures Underway(ps, paired, f, stack, i) ==> Ready(f) && StackOk(f, stack) && 0 <= i <= |f.order|
  {
    && 0 <= i <= |f.order| && Mirrors(ps, f, stack) && Remembers(paired, f, stack)
    && Search(f, 0, {}) == Resume(f, stack, Search(f, i, TakenBy(f, stack)))
  }

  /** Work left when the player at position `i` is next. */
  ghost function Remaining(f: Field, stack: seq<Frame>, i: nat): nat
    requires Ready(f) && StackOk(f, stack) && i <= |f.order|
  {
    Work(f, i, TakenBy(f, stack)) + StackWork(f, stack)
  }

  lemma MirrorsMan(ps: Players, f: Field, stack: seq<Frame>, x: int)
    requires Mirrors(ps, f, stack) && x in f.ps
    ensures x in ps && SameMan(ps[x], f.ps[x])
    ensures ps[x].paired <==> x in TakenBy(f, stack)
    ensures x !in TakenBy(f, stack) ==> ps[x].opponents == f.ps[x].opponents && ps[x].oppChoice == 0
  {
    RecordsAre(f, stack);
    assert x in AllPlain(ps) && AllPlain(ps)[x] == Plain(ps[x]);
    assert Plain(ps[x]) == Records(f, stack)[x];
  }

  lemma MirrorsTaken(ps: Players, f: Field, stack: seq<Frame>)
    requires Mirrors(ps, f, stack)
    ensures ps.Keys == f.ps.Keys && Taken(ps) == TakenBy(f, stack)
  {
    assert ps.Keys == AllPlain(ps).Keys;
    forall x
      ensures x in Taken(ps) <==> x in TakenBy(f, stack)
    {
      if x in f.ps {
        MirrorsMan(ps, f, stack, x);
      } else if x in TakenBy(f, stack) {
        TakenKnown(f, stack, x);
      }
    }
  }

  lemma TakenKnown(f: Field, stack: seq<Frame>, x: int)
    requires Ready(f) && StackOk(f, stack) && x in TakenBy(f, stack)
    ensures x in f.ps
  {
    InTakenBy(f, stack, x);
    var s :| 0 <= s < |stack| && x in {PairOf(f, stack[s]).chooser, PairOf(f, stack[s]).chosen};
    PairOfKnown(f, stack[s]);
  }

  lemma MirrorsOffer(ps: Players, f: Field, stack: seq<Frame>, i: nat)
    requires Mirrors(ps, f, stack) && i < |f.order| && f.order[i] !in TakenBy(f, stack)
    ensures Within(ps, f.listing) && f.order[i] in ps && f.order[i] in f.place
    ensures Choices(ps, f.place, f.listing, f.order[i], Taken(ps)) == Offer(f, i, TakenBy(f, stack))
  {
    MirrorsTaken(ps, f, stack);
    forall y | y in ps
      ensures SameMan(ps[y], f.ps[y])
    {
      MirrorsMan(ps, f, stack, y);
    }
    MirrorsMan(ps, f, stack, f.order[i]);
    OpenSame(f, ps, f.listing, f.order[i], Taken(ps));
  }

  /** Pairing two players that are free pushes a frame. */
  lemma MirrorsPush(ps: Players, f: Field, stack: seq<Frame>, fr: Frame)
    requires Mirrors(ps, f, stack) && FrameOk(f, fr)
    requires fr.taken == TakenBy(f, stack) && f.order[fr.i] !in fr.taken
    ensures PairOf(f, fr).chooser in ps && PairOf(f, fr).chosen in ps
    ensures Mirrors(PairUp(ps, PairOf(f, fr).chooser, PairOf(f, fr).chosen, fr.k), f, stack + [fr])
  {
    var x, y := PairOf(f, fr).chooser, PairOf(f, fr).chosen;
    PairOfKnown(f, fr);
    MirrorsTaken(ps, f, stack);
    ChainPush(f, stack, fr);
    RecordsPush(f, stack, fr);
    var ps' := PairUp(ps, x, y, fr.k);
    forall z | z in ps'
      ensures Plain(ps'[z]) == Records(f, stack + [fr])[z]
    {
      assert AllPlain(ps)[z] == Plain(ps[z]) == Records(f, stack)[z];
      assert AllPlain(ps)[y] == Plain(ps[y]) && AllPlain(ps)[x] == Plain(ps[x]);
      MirrorsMan(ps, f, stack, x);
      MirrorsMan(ps, f, stack, y);
    }
  }

  /** The record of a player taken out of its last pairing. */
  function Without(p: TourneyPlayer): TourneyPlayer
    requires p.opponents != []
  {
    p.(paired := false, opponents := p.opponents[..|p.opponents| - 1])
  }

  /** The records after undoing the pairing of `x` and `y`. */
  function Undo(ps: Players, x: int, y: int): Players
    requires x in ps && y in ps && x != y && ps[x].opponents != [] && ps[y].opponents != []
  {
    ps[x := Without(ps[x])][y := Without(ps[y])]
  }

  lemma UndoPairUp(ps: Players, before: Players, x: int, y: int, k: nat)
    requires x in before && y in before && x != y
    requires !before[x].paired && before[x].oppChoice == 0 && before[x].oppName == 0
    requires !before[y].paired && before[y].oppChoice == 0 && before[y].oppName == 0
    requires AllPlain(ps) == PairUp(before, x, y, k)
    ensures x in ps && y in ps && ps[x].opponents != [] && ps[y].opponents != []
    ensures ps[x].oppName == y && ps[x].oppChoice == k && Undo(ps, x, y)[x].oppChoice == k
    ensures AllPlain(Undo(ps, x, y)[x := Undo(ps, x, y)[x].(oppChoice := 0)]) == before
  {
    var rs := PairUp(before, x, y, k);
    assert x in AllPlain(ps) && y in AllPlain(ps);
    assert AllPlain(ps)[x] == Plain(ps[x]) && AllPlain(ps)[y] == Plain(ps[y]);
    assert ps[x] == rs[x] && ps[y] == rs[y];
    var ps' := Undo(ps, x, y)[x := Undo(ps, x, y)[x].(oppChoice := 0)];
    assert ps'.Keys == AllPlain(ps).Keys == before.Keys;
    forall z | z in ps'
      ensures Plain(ps'[z]) == before[z]
    {
      assert AllPlain(ps)[z] == Plain(ps[z]);
    }
  }

  /** Undoing the pairing on top pops its frame; only the chooser's offer number is left over. */
  lemma MirrorsPop(ps: Players, f: Field, stack: seq<Frame>)
    requires Mirrors(ps, f, stack) && stack != []
    ensures var top := stack[|stack| - 1];
      var x, y := PairOf(f, top).chooser, PairOf(f, top).chosen;
      && x in ps && y in ps && x != y && ps[x].opponents != [] && ps[y].opponents != []
      && ps[x].oppName == y && ps[x].oppChoice == top.k
      && Undo(ps, x, y)[x].oppChoice == top.k
      && top.taken == TakenBy(f, stack[..|stack| - 1]) && x !in top.taken
      && Mirrors(Undo(ps, x, y)[x := Undo(ps, x, y)[x].(oppChoice := 0)], f, stack[..|stack| - 1])
  {
    var top, below := stack[|stack| - 1], stack[..|stack| - 1];
    PairOfKnown(f, top);
    ChainPop(f, stack);
    assert Grows(f, stack, |stack| - 1);
    RecordsAre(f, below);
    UndoPairUp(ps, Records(f, below), PairOf(f, top).chooser, PairOf(f, top).chosen, top.k);
  }

  // ----- what the search leaves behind -----

  /** Everybody is paired with the partner `m` names, who is added to the list of opponents; nothing else changed. */
  ghost predicate PairedBy(ps: Players, f: Field, m: map<int, int>)
    requires Ready(f)
  {
    && ps.Keys == f.ps.Keys
    && (forall x :: x in f.ps ==> SameMan(ps[x], f.ps[x]))
    && forall x :: x in f.order ==> x in m && PairedWith(f, ps[x], x, m[x])
  }

  lemma {:induction false} PairMapKeys(pairs: seq<Pair>, x: int)
    requires x in PairMap(pairs)
    ensures exists s :: 0 <= s < |pairs| && x in {pairs[s].chooser, pairs[s].chosen}
    decreases |pairs|
  {
    if x !in {pairs[0].chooser, pairs[0].chosen} {
      PairMapKeys(pairs[1..], x);
      var s :| 0 <= s < |pairs[1..]| && x in {pairs[1..][s].chooser, pairs[1..][s].chosen};
      assert pairs[1..][s] == pairs[s + 1];
    }
  }

  lemma AllOnStack(f: Field, stack: seq<Frame>)
    requires Ready(f) && StackOk(f, stack) && PerfectPairing(f, {}, PairMap(StackPairs(f, stack)))
    ensures forall x :: x in f.order ==> x in TakenBy(f, stack)
  {
    var pairs := StackPairs(f, stack);
    forall x | x in f.order
      ensures x in TakenBy(f, stack)
    {
      PairMapKeys(pairs, x);
      var s :| 0 <= s < |pairs| && x in {pairs[s].chooser, pairs[s].chosen};
      InTakenBy(f, stack, x);
    }
  }

  lemma MirrorsPaired(ps: Players, f: Field, stack: seq<Frame>, m: map<int, int>)
    requires Mirrors(ps, f, stack)
    requires forall x :: x in f.order ==> x in f.ps && x in m && PairedWith(f, Records(f, stack)[x], x, m[x])
    ensures PairedBy(ps, f, m)
  {
    MirrorsTaken(ps, f, stack);
    forall x | x in f.ps
      ensures SameMan(ps[x], f.ps[x])
    {
      MirrorsMan(ps, f, stack, x);
    }
    forall x | x in f.order
      ensures x in m && PairedWith(f, ps[x], x, m[x])
    {
      assert x in AllPlain(ps) && AllPlain(ps)[x] == Plain(ps[x]);
    }
  }

  /** A stack that the search calls complete pairs everybody. */
  lemma CompleteStackPairs(ps: Players, paired: seq<(int, nat)>, f: Field, stack: seq<Frame>)
    requires Underway(ps, paired, f, stack, |f.order|) && FairRecords(f)
    ensures PerfectPairing(f, {}, Found(f)) && PairedBy(ps, f, Found(f))
  {
    ResumeSuccess(f, stack, []);
    assert StackPairs(f, stack) + [] == StackPairs(f, stack);
    SearchDecides(f);
    AllOnStack(f, stack);
    RecordsOfPairing(f, stack);
    MirrorsPaired(ps, f, stack, PairMap(StackPairs(f, stack)));
  }

  /** The whole search failed and its stack is empty: every record is as it was. */
  ghost predicate Restored(ps: Players, f: Field) {
    AllPlain(ps) == f.ps
  }

  lemma EmptyIsRestored(ps: Players, f: Field)
    requires Mirrors(ps, f, [])
    ensures Restored(ps, f)
  {
  }

  /** With every offer tried the attempt comes to nothing. */
  lemma OffersExhausted(f: Field, i: nat, taken: set<int>, k: nat)
    requires Ready(f) && i < |f.order| && k >= |Offer(f, i, taken)|
    ensures Try(f, i, taken, k) == NoPairing && TryWork(f, i, taken, k) > 0
  {
  }

  /** The next player in order is passed over when it is paired, and otherwise starts with its first offer. */
  lemma StartChoosing(ps: Players, paired: seq<(int, nat)>, f: Field, stack: seq<Frame>, i: nat)
    requires Underway(ps, paired, f, stack, i) && i < |f.order|
    ensures f.order[i] in ps
    ensures ps[f.order[i]].paired ==>
      Underway(ps, paired, f, stack, i + 1) && Remaining(f, stack, i + 1) < Remaining(f, stack, i)
    ensures !ps[f.order[i]].paired ==>
      && Choosing(ps, paired, f, stack, i, f.order[i])
      && OnTrack(f, stack, i, ps[f.order[i]].oppChoice, Goal(Search(f, 0, {}), Remaining(f, stack, i)))
  {
    hide Mirrors, Remembers, Search, Try, Work, TryWork, StackWork, Resume, TakenBy, SameMan;
    var tp := f.order[i];
    MirrorsMan(ps, f, stack, tp);
    SearchStep(f, i, TakenBy(f, stack));
    if !ps[tp].paired {
      SameButOffer(ps, tp);
    }
  }

  /** A taken player is passed over; a free one starts with its first offer. */
  lemma SearchStep(f: Field, i: nat, taken: set<int>)
    requires Ready(f) && i < |f.order|
    ensures f.order[i] in taken ==>
      Search(f, i, taken) == Search(f, i + 1, taken) && Work(f, i + 1, taken) < Work(f, i, taken)
    ensures f.order[i] !in taken ==>
      Search(f, i, taken) == Try(f, i, taken, 0) && TryWork(f, i, taken, 0) < Work(f, i, taken)
  {
  }

  /** Popping the top frame: the outcome is the same from its next offer on, with less work left. */
  lemma PopKeepsSearch(f: Field, stack: seq<Frame>)
    requires Ready(f) && StackOk(f, stack) && stack != []
    ensures StackOk(f, Below(stack)) && FrameOk(f, Top(stack))
    ensures Resume(f, stack, NoPairing)
      == Resume(f, Below(stack), Try(f, Top(stack).i, Top(stack).taken, Top(stack).k + 1))
    ensures StackWork(f, stack)
      == StackWork(f, Below(stack)) + TryWork(f, Top(stack).i, Top(stack).taken, Top(stack).k + 1)
  {
    hide Search, Try, Work, TryWork, TakenBy, Offer, Ready;
    var below, top := Below(stack), Top(stack);
    assert stack == below + [top];
    ResumeTop(f, below, top, NoPairing);
  }

  /** Pushing a frame: the outcome is that of pairing the rest, with less work left. */
  lemma PushKeepsSearch(f: Field, stack: seq<Frame>, fr: Frame)
    requires Ready(f) && StackOk(f, stack) && FrameOk(f, fr) && fr.taken == TakenBy(f, stack)
    ensures StackOk(f, stack + [fr])
    ensures Resume(f, stack + [fr], Search(f, fr.i + 1, TakenBy(f, stack + [fr])))
      == Resume(f, stack, Try(f, fr.i, fr.taken, fr.k))
    ensures Work(f, fr.i + 1, TakenBy(f, stack + [fr])) + StackWork(f, stack + [fr])
      < TryWork(f, fr.i, fr.taken, fr.k) + StackWork(f, stack)
  {
    hide Search, Try, Work, StackWork, Resume, TakenBy, Offer, Ready;
    TakenByPush(f, stack, fr);
    ResumePush(f, stack, fr);
    StackWorkPush(f, stack, fr);
  }

  /** ... so taking an offer stays on the way to the goal. */
  lemma PushOnTrack(f: Field, stack: seq<Frame>, fr: Frame, goal: Goal)
    requires Ready(f) && StackOk(f, stack) && fr.i < |f.order| && fr.k < |Offer(f, fr.i, fr.taken)|
    requires fr.taken == TakenBy(f, stack) && OnTrack(f, stack, fr.i, fr.k, goal)
    ensures StackOk(f, stack + [fr])
    ensures goal.outcome == Resume(f, stack + [fr], Search(f, fr.i + 1, TakenBy(f, stack + [fr])))
    ensures Remaining(f, stack + [fr], fr.i + 1) < goal.work
  {
    hide Search, Try, Work, TryWork, StackWork, Resume, Offer, TakenBy;
    PushKeepsSearch(f, stack, fr);
  }

  lemma PushedIsUnderway(ps: Players, paired: seq<(int, nat)>, f: Field, stack: seq<Frame>, i: nat)
    requires Mirrors(ps, f, stack) && Remembers(paired, f, stack) && i < |f.order|
    requires Search(f, 0, {}) == Resume(f, stack, Search(f, i + 1, TakenBy(f, stack)))
    ensures Underway(ps, paired, f, stack, i + 1)
  {
  }

  lemma OfferedAreKnown(ps: Players, place: map<int, int>, listing: seq<int>, x: int, taken: set<int>)
    requires x in ps && x in place && Within(ps, listing) && Within(place, listing)
    ensures Within(ps, Choices(ps, place, listing, x, taken))
  {
    var offer := Choices(ps, place, listing, x, taken);
    forall k | 0 <= k < |offer|
      ensures offer[k] in ps
    {
      assert offer[k] in offer;
      ChoicesHas(ps, place, listing, x, taken, offer[k]);
    }
  }

  lemma OfferedAreFree(ps: Players, place: map<int, int>, listing: seq<int>, x: int, taken: set<int>)
    requires x in ps && x in place && Within(ps, listing) && Within(place, listing) && taken == Taken(ps)
    ensures var offer := Choices(ps, place, listing, x, taken);
      Within(ps, offer) && forall k :: 0 <= k < |offer| ==> !ps[offer[k]].paired
  {
    var offer := Choices(ps, place, listing, x, taken);
    forall k | 0 <= k < |offer|
      ensures offer[k] in ps && !ps[offer[k]].paired
    {
      ChoicesHas(ps, place, listing, x, taken, offer[k]);
      assert offer[k] in offer;
    }
  }

  lemma NoneSkipped(before: Players, ps: Players, x: int, offer: seq<int>)
    requires x in before && x in ps && before[x].oppChoice <= ps[x].oppChoice
    requires ps == before[x := before[x].(oppChoice := ps[x].oppChoice)]
    requires Within(before, offer) && forall k :: 0 <= k < |offer| ==> !before[offer[k]].paired
    requires forall k :: before[x].oppChoice <= k < ps[x].oppChoice && k < |offer| ==> before[offer[k]].paired
    requires ps[x].oppChoice <= |offer| || ps[x].oppChoice == before[x].oppChoice
    ensures ps == before
  {
    var k := before[x].oppChoice;
    assert k < |offer| ==> !before[offer[k]].paired;
  }

  lemma EmptyStackEnds(f: Field, r: Outcome)
    requires Ready(f)
    ensures Resume(f, [], r) == r
  {
  }

  /** Before the first choice the stack is empty. */
  lemma EmptyStack(ps: Players, f: Field)
    requires Ready(f) && Fresh(f) && f.ps == AllPlain(ps)
    ensures Underway(ps, [], f, [], 0)
  {
  }

  lemma SameButOffer(ps: Players, x: int)
    requires x in ps && ps[x].oppChoice == 0
    ensures ps[x := ps[x].(oppChoice := 0)] == ps
  {
  }

  lemma ResetChoice(ps: Players, x: int, k: nat)
    requires x in ps
    ensures ps[x := ps[x].(oppChoice := k)][x := ps[x].(oppChoice := 0)] == ps[x := ps[x].(oppChoice := 0)]
  {
  }

  /** The number of the next offer plays no part in making the offers. */
  lemma OfferIgnoresChoice(ps: Players, plain: Players, f: Field, x: int)
    requires Ready(f) && x in ps && plain == ps[x := ps[x].(oppChoice := 0)]
    requires Within(plain, f.listing) && x in f.place
    ensures Within(ps, f.listing) && Taken(ps) == Taken(plain)
    ensures Choices(ps, f.place, f.listing, x, Taken(ps)) == Choices(plain, f.place, f.listing, x, Taken(plain))
  {
    assert Taken(ps) == Taken(plain);
    OpenIgnoresChoice(ps, plain, f.place, f.listing, x, Taken(ps));
  }

  lemma {:induction false} OpenIgnoresChoice(ps: Players, plain: Players, place: map<int, int>, listing: seq<int>,
      x: int, taken: set<int>)
    requires x in ps && plain == ps[x := ps[x].(oppChoice := 0)] && x in place
    requires Within(ps, listing) && Within(place, listing) && Within(plain, listing)
    ensures Open(ps, place, listing, x, taken) == Open(plain, place, listing, x, taken)
    decreases |listing|
  {
    if listing != [] {
      OpenIgnoresChoice(ps, plain, place, listing[1..], x, taken);
    }
  }
}
