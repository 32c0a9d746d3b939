/** The clocks of a timed game: what an accepted move takes off and credits, and when a flag has fallen. */
module Clocks {
  import opened ChessBoard

  const ONE_SECOND: int := 1000000000

  /** Remaining times in nanoseconds, moves made since the start or restart, and the time of the last one. */
  datatype Clock = Clock(white: int, black: int, turns: nat, last: int) {
    function Of(c: Color): int {
      if c == White then white else black
    }

    function Sum(): int {
      white + black
    }
  }

  function NewClock(white: int, black: int): Clock {
    Clock(white, black, 0, 0)
  }

  /** Time only counts from the third move on. */
  predicate Counting(k: Clock) {
    k.turns >= 2
  }

  /** The flag of `c` has fallen at `now` when `turn` is to move. */
  predicate Fallen(k: Clock, turn: Color, c: Color, now: int) {
    Counting(k) && k.Of(c) + (if turn == c then k.last - now else 0) <= 0
  }

  /** The clock after an accepted move of `c` at `now`. */
  function Tick(k: Clock, c: Color, inc: int, now: int): Clock {
    var spent := if Counting(k) then now - k.last - inc else 0;
    Clock(if c == White then k.white - spent else k.white, if c == Black then k.black - spent else k.black,
        k.turns + 1, now)
  }

  // ----- runs -----

  /** Accepted moves at the given times, the sides alternating, with the increments of the two sides. */
  function Run(k: Clock, turn: Color, incWhite: int, incBlack: int, stamps: seq<int>): Clock
    decreases |stamps|
  {
    if stamps == [] then k
    else
      var n := |stamps| - 1;
      var before := Run(k, turn, incWhite, incBlack, stamps[..n]);
      var c := if n % 2 == 0 then turn else Other(turn);
      Tick(before, c, if c == White then incWhite else incBlack, stamps[n])
  }

  /** The increments credited to the moves from the third on, of `n` moves. */
  function Credited(turn: Color, incWhite: int, incBlack: int, n: nat): int {
    if n <= 2 then 0
    else
      var c := if (n - 1) % 2 == 0 then turn else Other(turn);
      Credited(turn, incWhite, incBlack, n - 1) + if c == White then incWhite else incBlack
  }

  /** Both clocks together lose the time since the second move and gain the credited increments. */
  lemma {:induction false} ClocksConserve(k: Clock, turn: Color, incWhite: int, incBlack: int, stamps: seq<int>)
    requires k.turns == 0
    ensures var k' := Run(k, turn, incWhite, incBlack, stamps);
      && k'.turns == |stamps|
      && (stamps != [] ==> k'.last == stamps[|stamps| - 1])
      && k'.Sum() == k.Sum() + Credited(turn, incWhite, incBlack, |stamps|)
        - if |stamps| > 2 then stamps[|stamps| - 1] - stamps[1] else 0
    decreases |stamps|
  {
    if stamps != [] {
      ClocksConserve(k, turn, incWhite, incBlack, stamps[..|stamps| - 1]);
    }
  }

  /** The side that makes move number `n` of a run. */
  function Mover(turn: Color, n: nat): Color {
    if n % 2 == 0 then turn else Other(turn)
  }

  /** No flag had fallen at any of the moves: what the automatic flag demands of accepted moves. */
  ghost predicate NoFlagFell(k: Clock, turn: Color, incWhite: int, incBlack: int, stamps: seq<int>) {
    forall n :: 0 <= n < |stamps| ==> FlagsUp(k, turn, incWhite, incBlack, stamps, n)
  }

  ghost predicate FlagsUp(k: Clock, turn: Color, incWhite: int, incBlack: int, stamps: seq<int>, n: nat)
    requires n < |stamps|
  {
    var before := Run(k, turn, incWhite, incBlack, stamps[..n]);
    !Fallen(before, Mover(turn, n), White, stamps[n]) && !Fallen(before, Mover(turn, n), Black, stamps[n])
  }

  /** With the automatic flag, increments that are not negative and some time at the start, no clock runs out. */
  lemma {:induction false} ClocksStayPositive(k: Clock, turn: Color, incWhite: int, incBlack: int, stamps: seq<int>)
    requires k.turns == 0 && k.white > 0 && k.black > 0 && incWhite >= 0 && incBlack >= 0
    requires NoFlagFell(k, turn, incWhite, incBlack, stamps)
    ensures var k' := Run(k, turn, incWhite, incBlack, stamps); k'.white > 0 && k'.black > 0
    decreases |stamps|
  {
    if stamps != [] {
      var n := |stamps| - 1;
      forall i | 0 <= i < n
        ensures FlagsUp(k, turn, incWhite, incBlack, stamps[..n], i)
      {
        assert FlagsUp(k, turn, incWhite, incBlack, stamps, i);
        assert stamps[..n][..i] == stamps[..i];
      }
      ClocksStayPositive(k, turn, incWhite, incBlack, stamps[..n]);
      assert FlagsUp(k, turn, incWhite, incBlack, stamps, n);
    }
  }

  /** How the clock of a timed game came about: by accepted moves of the sides in turn, none of them made
      with a fallen flag if the flag is automatic. */
  ghost predicate Clocked(autoFlag: bool, start: Clock, first: Color, incWhite: int, incBlack: int, stamps: seq<int>,
      k: Clock, turn: Color) {
    && start.turns == 0 && k == Run(start, first, incWhite, incBlack, stamps) && turn == Mover(first, |stamps|)
    && (autoFlag ==> NoFlagFell(start, first, incWhite, incBlack, stamps))
  }

  lemma ClockedStart(autoFlag: bool, start: Clock, first: Color, incWhite: int, incBlack: int)
    requires start.turns == 0
    ensures Clocked(autoFlag, start, first, incWhite, incBlack, [], start, first)
  {
  }

  lemma ClockedMore(autoFlag: bool, start: Clock, first: Color, incWhite: int, incBlack: int, stamps: seq<int>,
      k: Clock, turn: Color, now: int)
    requires Clocked(autoFlag, start, first, incWhite, incBlack, stamps, k, turn)
    requires autoFlag ==> !Fallen(k, turn, White, now) && !Fallen(k, turn, Black, now)
    ensures Clocked(autoFlag, start, first, incWhite, incBlack, stamps + [now],
      Tick(k, turn, if turn == White then incWhite else incBlack, now), Other(turn))
  {
    hide Tick, Fallen;
    var more := stamps + [now];
    assert more[..|more| - 1] == stamps;
    forall n | autoFlag && 0 <= n < |more|
      ensures FlagsUp(start, first, incWhite, incBlack, more, n)
    {
      if n < |stamps| {
        assert FlagsUp(start, first, incWhite, incBlack, stamps, n);
        assert more[..n] == stamps[..n];
      } else {
        assert more[..n] == stamps;
      }
    }
  }

  // ----- seconds as they are shown -----

  /** Whole seconds, cut off towards zero. */
  function Seconds(ns: int): int {
    if ns >= 0 then ns / ONE_SECOND else -(-ns / ONE_SECOND)
  }

  /** A thousandth is added before the fraction is cut off again: that moves negative seconds up by one. */
  function ShownSeconds(ns: int): int {
    var s := Seconds(ns);
    if s < 0 then s + 1 else s
  }

  /** A clock five seconds below zero is shown, and handed on when the game is adjourned, as four. */
  lemma FiveBelowShowsFour()
    ensures ShownSeconds(-5 * ONE_SECOND) == -4
  {
  }

  /** The shown seconds are exact from zero on; below that they are the true ones only down to one second. */
  lemma ShownIsExactAboveZero(ns: int)
    ensures ShownSeconds(ns) == Seconds(ns) <==> ns > -ONE_SECOND
  {
  }

  // ----- flags and seconds -----

  /** The flag of the side to move has fallen when a move now would leave it no time, without its increment; that of
      the other side when it has none left; and none before two moves are made. */
  lemma FallenIsOutOfTime(k: Clock, turn: Color, now: int)
    ensures k.turns >= 2 ==> (Fallen(k, turn, turn, now) <==> Tick(k, turn, 0, now).Of(turn) <= 0)
    ensures k.turns >= 2 ==> (Fallen(k, turn, Other(turn), now) <==> k.Of(Other(turn)) <= 0)
    ensures k.turns < 2 ==> !Fallen(k, turn, White, now) && !Fallen(k, turn, Black, now)
  {
  }

  /** A move takes the time since the last one off the mover's clock and adds the increment; the other clock and the
      first two moves cost nothing. */
  lemma MoverPays(k: Clock, c: Color, inc: int, now: int)
    ensures Tick(k, c, inc, now).Of(Other(c)) == k.Of(Other(c))
    ensures Tick(k, c, inc, now).Of(c) == k.Of(c) + (if k.turns < 2 then 0 else inc - (now - k.last))
    ensures Tick(k, c, inc, now).last == now && Tick(k, c, inc, now).turns == k.turns + 1
  {
  }
}
