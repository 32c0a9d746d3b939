/** What each way a game can end is scored, said of the event and not of the code it is given. */
module EventScores {
  import opened ChessBoard
  import opened Fen
  import opened Game
  import opened Mate
  import opened DeadPosition
  import opened Clocks
  import opened Movetext
  import opened ChessEngine
  import opened ChessGames
  import Repetition

  /** A full point for a side, nothing for the other. */
  function WonBy(c: Color): (Score, Score) {
    if c == White then (Win, Lose) else (Lose, Win)
  }

  lemma CodeAfterMove(g: Game, autoFlag: bool, player: Color)
    requires g.turn == Other(player)
    ensures CodeScores(AfterMove(g, autoFlag)) ==
      if CheckMate(g.board, RightsOf(g.state), g.turn) then WonBy(player)
      else if autoFlag && (Repetition.Occurrences(g.history, g.state) >= 3 || Dead(g.board)
        || g.state.halfmoves >= 50) then (Draw, Draw)
      else if autoFlag && StaleMate(g.board, RightsOf(g.state), g.turn) then WonBy(Black)
      else (NoResult, NoResult)
  {
    hide CheckMate, Repetition.Occurrences, Dead, StaleMate;
  }

  /** A move that mates wins for the mover. With the automatic flag a position that stands for the third time,
      cannot be mated in or comes fifty half moves after the last capture or pawn's move is a draw. */
  method ScoreOfMove(game: ChessGame, player: Color, movement: string, now: int)
      returns (r: MoveAnswer, white: Score, black: Score)
    requires game.Valid() && game.Fair() && game.done == NoReason
    modifies game, game.chess, game.chess.gameboard.cells
    ensures game.Valid() && game.Fair()
    ensures r.Moved? ==> game.Value().turn == Other(player)
    ensures r.Moved? ==>
      var g := game.Value();
      (white, black) ==
        if CheckMate(g.board, RightsOf(g.state), g.turn) then WonBy(player)
        else if game.autoFlag && (Repetition.Occurrences(g.history, g.state) >= 3 || Dead(g.board)
          || g.state.halfmoves >= 50) then (Draw, Draw)
        else if game.autoFlag && StaleMate(g.board, RightsOf(g.state), g.turn) then WonBy(Black)
        else (NoResult, NoResult)
  {
    hide ChessGame.Valid, ChessGame.Fair, AfterMove, CodeScores, Scores, Fallen, Tick, Apply, NextState, Accepts,
      Written,
      Placement, Start, WinnerOf, CheckMate, Repetition.Occurrences, Dead, StaleMate;
    r := game.Move(player, movement, now);
    white, black := game.Results();
    if r.Moved? {
      CodeAfterMove(game.Value(), game.autoFlag, player);
    }
  }

  /** Who resigns loses. */
  method ScoreOfResignation(game: ChessGame, player: Color) returns (white: Score, black: Score)
    requires game.Valid() && game.Fair() && game.done == NoReason
    modifies game`done, game`resigned, game.chess.gameboard.cells
    ensures (white, black) == WonBy(Other(player))
  {
    hide ChessGame.Valid, ChessGame.Fair;
    game.Resign(player);
    white, black := game.Results();
  }

  /** When the flags are called a side whose flag alone has fallen loses, and two fallen flags make a draw. */
  method ScoreOfFlags(game: ChessGame, now: int) returns (white: Score, black: Score)
    requires game.Valid() && game.Fair() && game.done == NoReason && game.timed
    modifies game`done, game`timeOver, game.chess.gameboard.cells
    ensures var turn := game.Value().turn;
      var fallen := (Fallen(game.clock, turn, White, now), Fallen(game.clock, turn, Black, now));
      && (fallen == (true, false) ==> (white, black) == WonBy(Black))
      && (fallen == (false, true) ==> (white, black) == WonBy(White))
      && (fallen == (true, true) ==> (white, black) == (Draw, Draw))
  {
    hide ChessGame.Valid, ChessGame.Fair, DrawCode, Fallen, WinnerOf;
    game.CallFlag(now);
    white, black := game.Results();
  }

  /** A player who does not come loses. */
  method ScoreOfWalkOver(game: ChessGame, absent: Color) returns (white: Score, black: Score)
    requires game.Valid() && game.Fair() && game.done == NoReason
    modifies game`done, game.chess.gameboard.cells
    ensures (white, black) == WonBy(Other(absent))
  {
    hide ChessGame.Valid, ChessGame.Fair;
    game.WalkOver(absent);
    white, black := game.Results();
  }

  method ScoreOfAgreement(game: ChessGame) returns (white: Score, black: Score)
    requires game.Valid()
    modifies game`done, game.chess.gameboard.cells
    ensures (white, black) == (Draw, Draw)
  {
    hide ChessGame.Valid, ChessGame.Fair;
    game.AgreeDraw();
    white, black := game.Results();
  }
}
