/** What the records of the players say while a stack of choices is being built and taken down. */
module SwissRecords {
  import opened Swiss
  import opened SwissSearch

  /** A record without the name of the opponent it is no longer paired with. */
  function Plain(p: TourneyPlayer): TourneyPlayer {
    if p.paired then p else p.(oppName := 0)
  }

  function AllPlain(ps: Players): Players {
    map x | x in ps :: Plain(ps[x])
  }

  /** A record with one more opponent, to whom it is now paired. */
  function With(p: TourneyPlayer, opponent: int, rating: int): TourneyPlayer {
    p.(paired := true, oppName := opponent, opponents := p.opponents + [Opponent(opponent, NO_RESULT, false, rating)])
  }

  /** The records after pairing `x` with `y` by its offer number `k`. */
  function PairUp(ps: Players, x: int, y: int, k: nat): Players
    requires x in ps && y in ps
  {
    ps[x := With(ps[x], y, ps[y].rating).(oppChoice := k)][y := With(ps[y], x, ps[x].rating)]
  }

  /** The names paired by a stack of choices. */
  ghost function TakenBy(f: Field, stack: seq<Frame>): set<int>
    requires Ready(f) && StackOk(f, stack)
    decreases |stack|
  {
    if stack == [] then {}
    else
      var p := PairOf(f, stack[|stack| - 1]);
      TakenBy(f, stack[..|stack| - 1]) + {p.chooser, p.chosen}
  }

  /** Each frame remembers who was taken below it, and its chooser was not among them. */
  ghost predicate Chain(f: Field, stack: seq<Frame>)
    requires Ready(f)
  {
    && StackOk(f, stack)
    && forall t :: 0 <= t < |stack| ==> Grows(f, stack, t)
  }

  ghost predicate Grows(f: Field, stack: seq<Frame>, t: nat)
    requires Ready(f) && StackOk(f, stack) && t < |stack|
  {
    stack[t].taken == TakenBy(f, stack[..t]) && f.order[stack[t].i] !in stack[t].taken
  }

  /** The records before the search: nobody paired, every list of offers at its start. */
  ghost predicate Fresh(f: Field)
    requires Ready(f)
  {
    forall x :: x in f.ps ==> !f.ps[x].paired && f.ps[x].oppChoice == 0 && f.ps[x].oppName == 0
  }

  lemma PairOfKnown(f: Field, fr: Frame)
    requires Ready(f) && FrameOk(f, fr)
    ensures var p := PairOf(f, fr);
      p.chooser in f.order && p.chosen in f.order && p.chooser in f.ps && p.chosen in f.ps
      && p.chosen != p.chooser && p.chosen !in fr.taken
  {
    OfferHas(f, fr.i, fr.taken, PairOf(f, fr).chosen);
  }

  /** The records a stack of choices stands for. */
  ghost function Records(f: Field, stack: seq<Frame>): (ps: Players)
    requires Ready(f) && StackOk(f, stack)
    ensures ps.Keys == f.ps.Keys
    decreases |stack|
  {
    if stack == [] then f.ps
    else
      var top := stack[|stack| - 1];
      PairOfKnown(f, top);
      PairUp(Records(f, stack[..|stack| - 1]), PairOf(f, top).chooser, PairOf(f, top).chosen, top.k)
  }

  /** Everything that pairing does not touch. */
  predicate SameMan(p: TourneyPlayer, q: TourneyPlayer) {
    p == q.(oppChoice := p.oppChoice, paired := p.paired, oppName := p.oppName, opponents := p.opponents)
  }

  lemma {:induction false} RecordsAre(f: Field, stack: seq<Frame>)
    requires Ready(f) && Fresh(f) && StackOk(f, stack)
    ensures forall x :: x in f.ps ==> SameMan(Records(f, stack)[x], f.ps[x])
    ensures forall x :: x in f.ps ==> (Records(f, stack)[x].paired <==> x in TakenBy(f, stack))
    ensures forall x :: x in f.ps && x !in TakenBy(f, stack) ==> Records(f, stack)[x] == f.ps[x]
    decreases |stack|
  {
    if stack != [] {
      RecordsAre(f, stack[..|stack| - 1]);
      PairOfKnown(f, stack[|stack| - 1]);
    }
  }

  lemma TakenByPush(f: Field, stack: seq<Frame>, fr: Frame)
    requires Ready(f) && StackOk(f, stack) && FrameOk(f, fr)
    ensures StackOk(f, stack + [fr])
    ensures TakenBy(f, stack + [fr]) == TakenBy(f, stack) + {PairOf(f, fr).chooser, PairOf(f, fr).chosen}
  {
  }

  lemma RecordsPush(f: Field, stack: seq<Frame>, fr: Frame)
    requires Ready(f) && StackOk(f, stack) && FrameOk(f, fr)
    ensures StackOk(f, stack + [fr])
    ensures PairOf(f, fr).chooser in f.ps && PairOf(f, fr).chosen in f.ps
    ensures Records(f, stack + [fr])
      == PairUp(Records(f, stack), PairOf(f, fr).chooser, PairOf(f, fr).chosen, fr.k)
  {
    PairOfKnown(f, fr);
    assert (stack + [fr])[..|stack + [fr]| - 1] == stack;
  }

  lemma ChainPush(f: Field, stack: seq<Frame>, fr: Frame)
    requires Ready(f) && Chain(f, stack) && FrameOk(f, fr)
    requires fr.taken == TakenBy(f, stack) && f.order[fr.i] !in fr.taken
    ensures Chain(f, stack + [fr])
  {
    var pushed := stack + [fr];
    forall t | 0 <= t < |pushed|
      ensures Grows(f, pushed, t)
    {
      assert pushed[..t] == stack[..t];
      if t < |stack| {
        assert Grows(f, stack, t);
      } else {
        assert pushed[..t] == stack;
      }
    }
  }

  lemma ChainPop(f: Field, stack: seq<Frame>)
    requires Ready(f) && Chain(f, stack) && stack != []
    ensures Chain(f, stack[..|stack| - 1])
  {
    var below := stack[..|stack| - 1];
    forall t | 0 <= t < |below|
      ensures Grows(f, below, t)
    {
      assert Grows(f, stack, t);
      assert below[..t] == stack[..t];
    }
  }

  /** The offers of an unpaired player depend on the records only through what pairing does not touch. */
  lemma {:induction false} OpenSame(f: Field, ps: Players, listing: seq<int>, x: int, taken: set<int>)
    requires Within(f.ps, listing) && Within(f.place, listing) && x in f.ps && x in f.place
    requires ps.Keys == f.ps.Keys && (forall y :: y in ps ==> SameMan(ps[y], f.ps[y]))
    requires ps[x].opponents == f.ps[x].opponents
    ensures Open(ps, f.place, listing, x, taken) == Open(f.ps, f.place, listing, x, taken)
    decreases |listing|
  {
    if listing != [] {
      OpenSame(f, ps, listing[1..], x, taken);
      var y := listing[0];
      assert SameMan(ps[y], f.ps[y]) && SameMan(ps[x], f.ps[x]);
    }
  }

  // ----- the records when everybody is paired -----

  /** No name occurs in two pairs or twice in one. */
  ghost predicate Apart(pairs: seq<Pair>) {
    && (forall s :: 0 <= s < |pairs| ==> pairs[s].chooser != pairs[s].chosen)
    && (forall s, t :: 0 <= s < t < |pairs| ==>
         {pairs[s].chooser, pairs[s].chosen} !! {pairs[t].chooser, pairs[t].chosen})
  }

  lemma {:induction false} InTakenBy(f: Field, stack: seq<Frame>, x: int)
    requires Ready(f) && StackOk(f, stack)
    ensures x in TakenBy(f, stack) <==>
      exists s :: 0 <= s < |stack| && x in {PairOf(f, stack[s]).chooser, PairOf(f, stack[s]).chosen}
    decreases |stack|
  {
    if stack != [] {
      hide Offer, Ready, FrameOk;
      var below := stack[..|stack| - 1];
      InTakenBy(f, below, x);
      if s :| 0 <= s < |stack| && x in {PairOf(f, stack[s]).chooser, PairOf(f, stack[s]).chosen} {
        assert s < |below| ==> below[s] == stack[s];
      }
      if s :| 0 <= s < |below| && x in {PairOf(f, below[s]).chooser, PairOf(f, below[s]).chosen} {
        assert below[s] == stack[s];
      }
    }
  }

  lemma ChainIsApart(f: Field, stack: seq<Frame>)
    requires Ready(f) && Chain(f, stack)
    ensures Apart(StackPairs(f, stack))
  {
    hide Ready, Offer, TakenBy;
    forall s | 0 <= s < |stack|
      ensures PairOf(f, stack[s]).chooser != PairOf(f, stack[s]).chosen
    {
      PairOfKnown(f, stack[s]);
    }
    forall s, t | 0 <= s < t < |stack|
      ensures {PairOf(f, stack[s]).chooser, PairOf(f, stack[s]).chosen}
        !! {PairOf(f, stack[t]).chooser, PairOf(f, stack[t]).chosen}
    {
      assert Grows(f, stack, t);
      PairOfKnown(f, stack[t]);
      assert stack[..t][s] == stack[s];
      InTakenBy(f, stack[..t], PairOf(f, stack[s]).chooser);
      InTakenBy(f, stack[..t], PairOf(f, stack[s]).chosen);
    }
  }

  lemma {:induction false} PairMapHas(pairs: seq<Pair>, s: nat)
    requires Apart(pairs) && s < |pairs|
    ensures pairs[s].chooser in PairMap(pairs) && PairMap(pairs)[pairs[s].chooser] == pairs[s].chosen
    ensures pairs[s].chosen in PairMap(pairs) && PairMap(pairs)[pairs[s].chosen] == pairs[s].chooser
    decreases |pairs|
  {
    if s > 0 {
      var rest := pairs[1..];
      forall i | 0 <= i < |rest|
        ensures rest[i] == pairs[i + 1]
      {
      }
      assert Apart(rest);
      PairMapHas(rest, s - 1);
      assert {pairs[0].chooser, pairs[0].chosen} !! {pairs[s].chooser, pairs[s].chosen};
    }
  }

  /** The record of somebody paired: the old one with the partner added. */
  ghost predicate PairedWith(f: Field, p: TourneyPlayer, x: int, y: int) {
    && x in f.ps && y in f.ps && p.paired && p.oppName == y
    && p.opponents == f.ps[x].opponents + [Opponent(y, NO_RESULT, false, f.ps[y].rating)]
  }

  lemma {:induction false} RecordsOfPair(f: Field, stack: seq<Frame>, s: nat)
    requires Ready(f) && Fresh(f) && Chain(f, stack) && s < |stack|
    ensures var p := PairOf(f, stack[s]);
      && p.chooser in f.ps && p.chosen in f.ps
      && PairedWith(f, Records(f, stack)[p.chooser], p.chooser, p.chosen)
      && PairedWith(f, Records(f, stack)[p.chosen], p.chosen, p.chooser)
    decreases |stack|
  {
    hide Offer, Ready;
    var top, below := stack[|stack| - 1], stack[..|stack| - 1];
    var p := PairOf(f, stack[s]);
    PairOfKnown(f, stack[s]);
    PairOfKnown(f, top);
    ChainPop(f, stack);
    assert Grows(f, stack, |stack| - 1);
    RecordsAre(f, below);
    if s < |stack| - 1 {
      RecordsOfPair(f, below, s);
      ChainIsApart(f, stack);
      assert {StackPairs(f, stack)[s].chooser, StackPairs(f, stack)[s].chosen}
        !! {StackPairs(f, stack)[|stack| - 1].chooser, StackPairs(f, stack)[|stack| - 1].chosen};
    }
  }

  /** When the pairs on the stack pair everybody, the records are exactly those of the pairing. */
  lemma RecordsOfPairing(f: Field, stack: seq<Frame>)
    requires Ready(f) && Fresh(f) && Chain(f, stack)
    requires PerfectPairing(f, {}, PairMap(StackPairs(f, stack)))
    requires forall x :: x in f.order ==> x in TakenBy(f, stack)
    ensures var m := PairMap(StackPairs(f, stack));
      forall x :: x in f.order ==> x in f.ps && x in m && PairedWith(f, Records(f, stack)[x], x, m[x])
  {
    var m := PairMap(StackPairs(f, stack));
    ChainIsApart(f, stack);
    forall x | x in f.order
      ensures x in f.ps && x in m && PairedWith(f, Records(f, stack)[x], x, m[x])
    {
      InTakenBy(f, stack, x);
      var s :| 0 <= s < |stack| && x in {PairOf(f, stack[s]).chooser, PairOf(f, stack[s]).chosen};
      PairMapHas(StackPairs(f, stack), s);
      RecordsOfPair(f, stack, s);
    }
  }
}
