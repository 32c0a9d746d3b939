/** What it means that a position occurs again: board, rights and side to move are the same, and with them
    everything that can be played from there. */
module SamePositions {
  import opened Fen
  import opened Game
  import opened Invariant
  import opened Runs
  import opened Movetext
  import Repetition

  /** The same men on the same squares, the same castling text, en passant square and side to move. */
  predicate Alike(g: Game, h: Game) {
    g.board == h.board && g.state.castle == h.state.castle && g.state.enpassant == h.state.enpassant && g.turn == h.turn
  }

  /** The states compare equal exactly then, whatever the counters say. */
  lemma SameStateIff(g: Game, h: Game)
    requires Ok(g) && Ok(h)
    ensures SameState(g.state, h.state) <==> Alike(g, h)
  {
    hide Sound;
    if g.state.boardFen == h.state.boardFen {
      PlacementInjective(g.board, h.board);
    }
  }

  /** From two games with the same state the same texts are accepted, and the states stay the same. */
  lemma SameTextAccepted(g: Game, h: Game, s: string)
    requires Ok(g) && Ok(h) && SameState(g.state, h.state)
    ensures Accepts(g, s) <==> Accepts(h, s)
    ensures SameState(Step(g, s).state, Step(h, s).state)
    ensures Step(g, s).board == Step(h, s).board
  {
    SameStateIff(g, h);
    hide Sound, Legal, Apply, Placement, KeepRights, NextEnPassant, DigitSum, Parse, ValidText;
  }

  lemma {:induction false} SameFuture(g: Game, h: Game, texts: seq<string>)
    requires Ok(g) && Ok(h) && SameState(g.state, h.state)
    ensures SameState(Play(g, texts).state, Play(h, texts).state) && Play(g, texts).board == Play(h, texts).board
    decreases |texts|
  {
    hide Ok, Step, SameState;
    if texts == [] {
      SameBoard(g, h);
    } else {
      SameTextAccepted(g, h, texts[0]);
      StepOk(g, texts[0]);
      StepOk(h, texts[0]);
      SameFuture(Step(g, texts[0]), Step(h, texts[0]), texts[1..]);
    }
  }

  lemma SameBoard(g: Game, h: Game)
    requires Ok(g) && Ok(h) && SameState(g.state, h.state)
    ensures g.board == h.board
  {
    SameStateIff(g, h);
  }

  // ----- counting -----

  /** The places of a history where a state stands. */
  function PlacesOf(history: seq<State>, s: State): set<nat> {
    set i: nat | i < |history| && SameState(history[i], s)
  }

  lemma {:induction false} OccurrencesCounts(history: seq<State>, s: State)
    ensures Repetition.Occurrences(history, s) == |PlacesOf(history, s)|
    decreases |history|
  {
    hide SameState;
    if history != [] {
      var n := |history| - 1;
      OccurrencesCounts(history[..n], s);
      assert PlacesOf(history, s) == PlacesOf(history[..n], s) + if SameState(history[n], s) then {n} else {};
    } else {
      assert PlacesOf(history, s) == {};
    }
  }

  lemma {:induction false} PlayedIsOk(g: Game, moves: seq<string>)
    requires Ok(g) && Played(g, moves)
    ensures Ok(Replay(g, moves))
    decreases |moves|
  {
    hide Ok, Accepts, Legal;
    if moves != [] {
      var n := |moves| - 1;
      PlayedBefore(g, moves, n);
      PlayedIsOk(g, moves[..n]);
      assert Accepts(Replay(g, moves[..n]), moves[n]);
      StepOk(Replay(g, moves[..n]), moves[n]);
    }
  }

  lemma PlayedBefore(g: Game, moves: seq<string>, k: nat)
    requires Played(g, moves) && k <= |moves|
    ensures Played(g, moves[..k])
  {
    hide Accepts, Replay, ValidText;
    forall i | 0 <= i < k
      ensures Accepts(Replay(g, moves[..k][..i]), moves[..k][i])
    {
      assert moves[..k][..i] == moves[..i];
    }
  }

  /** The moments of a game, counted in moves made, at which it stood as it stands now. */
  ghost function Moments(g: Game, moves: seq<string>): set<nat>
    requires AllValid(moves)
  {
    set k: nat | k <= |moves| && Alike(Replay(g, moves[..k]), Replay(g, moves))
  }

  /** In a played game the state now has stood as often as there were moments, this one included, with the same
      board, rights and side to move. */
  lemma OccurrencesInPlay(g: Game, moves: seq<string>)
    requires Ok(g) && |g.history| == 1 && Played(g, moves)
    ensures var now := Replay(g, moves);
      Repetition.Occurrences(now.history, now.state) == |Moments(g, moves)|
  {
    hide Sound, Accepts, Alike, SameState, Replay, Placement;
    var now := Replay(g, moves);
    OccurrencesCounts(now.history, now.state);
    PlayedIsOk(g, moves);
    HistoryIsReplayed(g, moves, 0);
    forall k: nat | k <= |moves|
      ensures SameState(now.history[k], now.state) <==> Alike(Replay(g, moves[..k]), now)
    {
      HistoryIsReplayed(g, moves, k);
      PlayedBefore(g, moves, k);
      PlayedIsOk(g, moves[..k]);
      SameStateIff(Replay(g, moves[..k]), now);
    }
    assert PlacesOf(now.history, now.state) == Moments(g, moves);
  }
}
