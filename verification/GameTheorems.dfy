/** The main results about games, stated for every run of calls from the start. */
module GameTheorems {
  import opened ChessBoard
  import opened Game
  import opened Invariant
  import opened Reachable
  import opened Runs
  import opened Mate
  import opened DeadPosition
  import opened Movetext
  import Repetition

  /** In every reachable game no text is accepted iff the engine calls it mate or stalemate. */
  lemma EveryRunEndsInMateOrStalemate(texts: seq<string>)
    ensures var g := Play(Start(), texts);
      (forall s :: !Accepts(g, s))
      <==> CheckMate(g.board, RightsOf(g.state), g.turn) || StaleMate(g.board, RightsOf(g.state), g.turn)
  {
    StartOk();
    PlayOk(Start(), texts);
    NoMoveIffMateOrStalemate(Play(Start(), texts));
  }

  lemma FreshGameCanBeScanned(start: Game, texts: seq<string>) returns (boards: seq<Board>)
    requires Ok(start) && |start.history| == 1 && start.state.halfmoves == 0
    ensures var g := Play(start, texts);
      && Repetition.Behind(g.history, boards) && boards[|boards| - 1] == g.board
      && g.state == g.history[|g.history| - 1] && 0 <= g.state.halfmoves < |g.history|
  {
    PlayOk(start, texts);
    var g := Play(start, texts);
    boards := Repetition.PlayBehind(start, [start.board], texts);
    Repetition.CounterFits(g.history, boards, |g.history| - 1);
  }

  /** Every reachable history has boards behind it along which the counting argument runs, and the
      scan never looks before the first entry. */
  lemma EveryRunCanBeScanned(texts: seq<string>) returns (boards: seq<Board>)
    ensures var g := Play(Start(), texts);
      && Repetition.Behind(g.history, boards) && boards[|boards| - 1] == g.board
      && g.state == g.history[|g.history| - 1] && 0 <= g.state.halfmoves < |g.history|
  {
    StartOk();
    boards := FreshGameCanBeScanned(Start(), texts);
  }

  lemma {:induction false} DeadForGood(g: Game, texts: seq<string>)
    requires Ok(g) && Dead(g.board)
    ensures Dead(Play(g, texts).board)
    decreases |texts|
  {
    if texts != [] {
      var s := texts[0];
      StepOk(g, s);
      if Accepts(g, s) {
        ParseOk(g.turn, s);
        DeadStaysDead(g.board, RightsOf(g.state), Parse(g.turn, s));
      }
      DeadForGood(Step(g, s), texts[1..]);
    }
  }

  /** Once the impossible-mate test holds in a reachable game it holds whatever is sent afterwards. */
  lemma ImpossibleMateIsAbsorbing(texts: seq<string>, more: seq<string>)
    requires Dead(Play(Start(), texts).board)
    ensures Dead(Play(Play(Start(), texts), more).board)
  {
    StartOk();
    PlayOk(Start(), texts);
    DeadForGood(Play(Start(), texts), more);
  }

  /** The number of full moves counts the moves of Black, from one. */
  lemma {:induction false} MovesAreCounted(moves: seq<string>)
    requires AllValid(moves)
    ensures var g := Replay(Start(), moves);
      g.state.fullmoves == 1 + |moves| / 2 && g.turn == if |moves| % 2 == 0 then White else Black
    decreases |moves|
  {
    hide Apply, KeepRights, NextEnPassant;
    if moves != [] {
      MovesAreCounted(moves[..|moves| - 1]);
    }
  }
}
