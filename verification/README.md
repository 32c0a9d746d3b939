# Chessd, modelled and verified

Chessd is a chess server. This project models the parts of it that carry its hardest promises and proves
properties of them in Dafny:

- **The rules engine.** An 8x8 board that is changed in place. Even the questions "is this move legal", "is this
  mate", "is this stalemate" try moves on the real board and take them back, either by putting two squares back or by
  reading the whole board from the text kept with the state. On top of it lie a mutually recursive attack and castling
  test, the generation of candidate squares, the bookkeeping of castling and en passant, a repetition test that looks
  only at part of the history, and a test for positions in which nobody can be mated.
- **Swiss pairing.** A round of a tournament is drawn by depth-first search with backtracking whose state is spread over
  the players' records and an explicit stack. Around it lie the offsets by rank within a score group, colours, the bye,
  the list of games under way and the scores.
- **SHA-1.** Bytes arrive in pieces of any size; blocks are processed with a schedule of sixteen words used in rotation.
- **Games, rooms and the server.** Clocks, the text of the moves that is written and read back, draws and adjournments
  by agreement, the one end of a room, and the count of games each user plays.
- **Match offers.** A table of offers, an index from players to offers, and numbers that are given out and taken back.

## How it is built

What the program changes step by step is a class or a method over mutable fields here too; each such method is proved
against a function or predicate on plain values, and the properties of whole runs are lemmas about those.

| files | content |
|---|---|
| `ChessBoard`, `Rules`, `Fen`, `Game` | boards as 64 cells, the piece rules, board texts, one call of the engine as a function |
| `Moves`, `SamePosition` | where each kind of man may go, said by steps and walks; what it means that a position occurs again |
| `GameBoard` | the mutable board with the piece, path and attack tests, the mutual recursion, candidate squares |
| `Chess` | the mutable engine: trial moves, mate, stalemate, draws, state update |
| `Invariant`, `Reachable`, `Runs`, `Repetition`, `Mate`, `DeadPosition`, `GameTheorems` | what holds over every run of the engine |
| `Marks` | the marks for check and mate in the short text of a move: what they say and when that is right |
| `Clocks`, `Movetext`, `ChessGame`, `EventScores` | clocks, move text, the game object, adjourning and resuming, what each way to end is scored |
| `Agreement`, `GameRoom`, `ServerCore`, `HostedGame`, `GameServer` | agreements, the room as an event machine, the counters of the server, a room on the server, the server with all its rooms |
| `IdSet`, `MatchDatabase`, `MatchManager` | offers |
| `Swiss`, `SwissSearch`, `SwissRecords`, `SwissMirror` | the search as a recursive function, as a stack, and as records |
| `SwissOffsets`, `SwissRounds`, `SwissDraw`, `SwissColours`, `SwissAssignments` | offsets, results, byes, draws and colours on values |
| `SwissOffers`, `SwissTallies`, `FirstRound` | what the offers mean, the counts of colours and the rule for them, the first round |
| `Tourney`, `ChessTourney` | the mutable pairing engine and the tournament the server runs |
| `Fips180`, `Sha1`, `Sha1Example` | the standard as a specification, the streaming code, the example of the standard worked out |
| `AsWritten`, `MateMark`, `PromotionMark`, `StalemateExample`, `FlagFall` | positions and a played game in which the code does not do what chess or its comments say, and exactly when it does |

Times are whole nanoseconds, scores whole half points and pairing values whole ten-thousandths. In the SHA-1 files
machine words are 32-bit vectors and the two counters of bytes wrap around at 2^32, as in the program.

## Where the code does not do what it says

The model follows the code. Each of these points is a lemma or a method: an input that shows it, and where the code
meets what is expected under a condition, that condition. The game of `FlagFall` is played from the start. The other
positions are sound in the sense of `Invariant.Ok`, which every played game is; they are not shown to be reached by play.

- A comment at `src/MatchManager.cc:342` says that the other offers are closed for users who do *not* play several games
  at a time. The code closes them for those who do. `MatchManagers.SurvivesIff` says exactly which offers survive;
  `MatchManagers.SingleGamePlayersKeepOffers` gives a table that may stand between events.
- A stalemate is not in the range of codes scored as a draw, so it is scored as a loss for White, whichever side cannot
  move. `ChessGames.DrawnIsScoredDrawUnlessStalemate` says that this is the only drawn position that is not scored as a
  draw; `StalemateExample.StalemateIsScoredAsALoss` is a sound game in which it happens.
- Seconds are shown by adding a thousandth and cutting off towards zero. Below zero that is not rounding down:
  `Clocks.FiveBelowShowsFour` is a case and `Clocks.ShownIsExactAboveZero` the exact condition.
- An adjourned game writes down White's increment for both sides: `ChessGames.AdjournAndResume` says that each side has
  its own increment back exactly when it is White's shown one; `ChessGames.UnevenIncrements` is a game in which Black's is not.
- A flag that is called decides a game that was decided already. `ChessGames.EndStaysIff` says when an end stays;
  `FlagFall.ResignedAndWon` plays a game in which White resigns and then wins on time. A room never asks a decided game.
- Castling tolerates an enemy man on the square where the rook arrives, and takes it. `AsWritten.CastlingTakesIff` says
  that it takes something exactly when the other side has a man there, and only that man;
  `AsWritten.CastlingTakesOnTheRooksSquare` is a position. The attack test of an empty square uses the moves of a pawn and
  not its captures, so the king may pass where it could be taken: `AsWritten.PassingIsTakenIff` says that this is so
  exactly when a pawn stands diagonally before that square, `AsWritten.CastlingPassesAPawnsCapture` is a position.
- A pawn's move starts the counter of half moves anew, except a promotion that takes nothing:
  `AsWritten.QuietPromotionCounts`, for every accepted pawn move.
- The marks for check and mate in the short text of a move are asked for before the move is made
  (`ChessEngine.Chess.CheckSuffix`). The question for check is put with the other colour, so a promoted pawn counts as a
  pawn: the mark for check is right unless only the piece promoted to gives check (`Marks.CheckMarkIsRightIff`), and
  `PromotionMark.PromotionMateIsUnmarked` is a mate without any mark. The question for mate is put with the rights from
  before the move. If no pawn could take on the square recorded before the move, that mark is wrong exactly when only the
  piece promoted to gives check to a king that is mated, or when captures en passant are the only legal replies
  (`Marks.MateMarkIsRightIff`); `MateMark.MarkCanBeWrong` is a case of the second kind. Both marks are right after a move
  that promotes nothing and leaves no pawn that could take on the square recorded before or after it
  (`Marks.PlainMarksAreRight`).
- Byes are counted on the bye and not on the player who had it. No real player ever has one counted, so the rule that
  pushes a second bye to the end never applies: `SwissRounds.NoByeIsCounted`. Only having met the bye prevents a second one.
- A tournament game that was called off or adjourned reports no scores and is recorded as a win for Black:
  `ChessTourneys.NoResultIsAWinForBlack`; `ChessTourneys.ReportedAsScoredIff` says which reports are recorded as scored.
- A tournament stops for good when a round cannot be drawn or consists of a bye only: results are waited for and none can
  come. `ChessTourneys.ChessTourney.NextRound` says exactly when.

## Model

| member | source | states |
|---|---|---|
| `Rules.NestedCastleFails` | src/libchess/ChessBasedGame.cc:314-342 | while a castling that passed its rook test is examined, an enemy castling onto the king's, the middle or the target square fails its own rook test: why the recursion ends |
| `Engine.CastleTests` | src/libchess/ChessBasedGame.cc:314-342 | the three attack tests of a castling attempt come down to plain attacks, on any board with at most one king a side and any castle text |
| `Engine.GameBoard.VerifyPieceMove` | src/libchess/ChessBasedGame.cc:43-69 | ends on every board with at most one king a side and any castle text, answers by the rules, and changes nothing |
| `Engine.GameBoard.VerifyKingMove` | src/libchess/ChessBasedGame.cc:314-342 | a king's step or castling is allowed exactly by the rules; the level of nesting drops with each castling attempt |
| `Engine.GameBoard.BeingAttacked` | src/libchess/ChessBasedGame.cc:116-123 | some enemy man has an allowed move to the square, castling included |
| `Engine.GameBoard.VerifyCheck` | src/libchess/ChessBasedGame.cc:134-136 | the king found by the scan is attacked |
| `Engine.GameBoard.VerifyPawnMove` | src/libchess/ChessBasedGame.cc:209-260 | steps, double steps, captures and en passant captures, and nothing else |
| `Engine.GameBoard.VerifyQueenMove` | src/libchess/ChessBasedGame.cc:293-312 | straight or diagonal along vacant squares to a square that is not its own |
| `Engine.GameBoard.VerifyBishopMove` | src/libchess/ChessBasedGame.cc:280-291 | diagonal along vacant squares to a square that is not its own |
| `Engine.GameBoard.VerifyDiagonal` | src/libchess/ChessBasedGame.cc:162-172 | the stepping loop answers whether every square strictly between is vacant |
| `Moves.KnightGoes` | src/libchess/ChessBasedGame.cc:197-207 | a knight's move is accepted exactly to the eight squares listed by name, on the board and not held by an own man |
| `Moves.KingGoes` | src/libchess/ChessBasedGame.cc:314-342 | a king's move is accepted exactly to its eight neighbours, not held by an own man, and in castling |
| `Moves.CastlingGoes` | src/libchess/ChessBasedGame.cc:314-342 | in a sound position castling is e1-g1, e1-c1, e8-g8 or e8-c8 with its letter, over vacant squares named one by one, and none of the king's three squares attacked |
| `Moves.RookGoes` | src/libchess/ChessBasedGame.cc:262-278 | a rook's move is accepted exactly when a walk in one of four directions over vacant squares leads there, the last square free for the mover |
| `Moves.BishopGoes` | src/libchess/ChessBasedGame.cc:280-291 | the same for a bishop and its four directions |
| `Moves.QueenGoes` | src/libchess/ChessBasedGame.cc:293-312 | the same for a queen and all eight |
| `Moves.PawnGoes` | src/libchess/ChessBasedGame.cc:209-260 | a pawn's move is accepted exactly in the cases listed on named squares: one step, two from the first row, taking to the side, en passant |
| `Moves.OnlyOwnMenGo` | src/libchess/ChessBasedGame.cc:43-69 | nothing moves from a square without an own man |
| `Engine.GameBoard.FindKingOf` | src/libchess/ChessBasedGame.cc:125-132 | the scan finds the first king of a colour |
| `Rules.FindKingIsTheKing` | src/libchess/ChessBasedGame.cc:125-132 | with at most one king, the scan finds it exactly when there is one |
| `Engine.GameBoard.GetPosForFEN` | src/libchess/ChessBasedGame.cc:92-114 | prints the placement text of the board |
| `Engine.GameBoard.SetState` | src/libchess/ChessBasedGame.cc:71-90 | the board becomes what reading the text over the old board gives |
| `Fen.ReadPlacement` | src/libchess/ChessBasedGame.cc:71-114 | reading the printed text of a board over any other board gives that board back |
| `Fen.PlacementInjective` | src/libchess/ChessBasedGame.cc:92-114 | two boards have the same text exactly when they are the same, so comparing texts compares boards |
| `Fen.PlacementDigits` | src/libchess/Chess.cc:115-121 | the digits of a board's text add up to its empty squares, so a change of that number is a capture |
| `Engine.GameBoard.CountPieces` | src/libchess/Chess.cc:115-121 | adds up the digits of a text |
| `Engine.GameBoard.GetPossiblePositions` | src/libchess/ChessBasedGame.cc:374-430 | every square to which any castling rights and en passant square allow the man to go is among the candidates |
| `Engine.OffsetsCover` | src/libchess/ChessBasedGame.cc:374-430 | the fixed offsets cover every knight, pawn and king move, castling included |
| `Engine.RayHits` | src/libchess/ChessBasedGame.cc:344-372 | every square seen along a clear line is on the walked ray |
| `Game.ApplyAt` | src/libchess/Chess.cc:198-229 | the board after a move square by square: arrival and promotion, castling rook, en passant victim, the rest untouched |
| `ChessEngine.Chess.MakeMove` | src/libchess/Chess.cc:198-229 | the board in place becomes that board |
| `ChessEngine.Chess.PromotePawn` | src/libchess/Chess.cc:216-228 | a pawn on its last row becomes the piece named, or a queen |
| `ChessEngine.PutBack` | src/libchess/Chess.cc:162-178 | a move that is neither castling nor en passant, promotions included, is undone by putting back its two squares |
| `ChessEngine.Chess.WillBeInCheck` | src/libchess/Chess.cc:162-178 | answers for the board after the trial; leaves the board as found, or as saved in the state's text when the trial was a special move |
| `ChessEngine.Chess.VerifyMove` | src/libchess/Chess.cc:155-160 | legality on the board as found, which stays unless a special trial puts back the saved one |
| `ChessEngine.Chess.GetPositions` | src/libchess/ChessBasedGame.cc:138-148 | exactly the squares to which the man has a legal move, on any board on which no trial is special |
| `ChessEngine.Chess.MadeCheckMate` | src/libchess/Chess.cc:180-196 | leaves the board as found although nested trials may restore a text older than the outer trial; without special replies the answer is mate on the board after the move under the rights before it |
| `ChessEngine.Chess.CheckSuffix` | src/libchess/Chess.cc:416-470 | the mark for check is set exactly when a man other than a pawn just promoted gives check; the mark for mate when moreover the trial finds mate; both are those of the game after the move unless it promotes or a pawn could take on the square recorded before or after it; board, state, history and turn stay |
| `Marks.GivenCheck` | src/libchess/Chess.cc:458-459 | the check test put with the other colour and the rights from before the move finds every man that gives check but a pawn just promoted, for every legal move |
| `Marks.ChecksAgree` | src/libchess/Chess.cc:458-464 | after a legal move the check test answers by the rights from before the move as by those after it, although a castling letter may still be there for a king that has moved |
| `Marks.ReplyByOldRights` | src/libchess/Chess.cc:180-196 | to a king in check the legal replies by the rights from before the move are those by the rights after it except captures en passant |
| `Marks.UndisturbedIff` | src/libchess/Chess.cc:180-196 | the search for mate of a king in check puts no older board back exactly when no pawn could take on the square recorded before the move |
| `Marks.CheckMarkIsRightIff` | src/libchess/Chess.cc:458-460 | the mark for check is right exactly when the check, if any, is not given only by the piece a pawn is promoted to |
| `Marks.MateMarkIsRightIff` | src/libchess/Chess.cc:461-463 | unless a pawn could take on the square recorded before, the mark for mate is wrong exactly when only a promoted piece mates or only captures en passant save the king |
| `Marks.PlainMarksAreRight` | src/libchess/Chess.cc:458-464 | both marks are those of the game after the move when it promotes nothing and no pawn could take on the square recorded before or after it |
| `PromotionMark.PromotionMateIsUnmarked` | src/libchess/Chess.cc:458-464 | a sound game and a legal promotion that mates and gets neither mark |
| `ChessEngine.Chess.VerifyCheckMate` | src/libchess/Chess.cc:91-153 | the side to move is in check and no man of it has a legal move; nothing changes |
| `ChessEngine.Chess.VerifyStaleMateOf` | src/libchess/Chess.cc:309-327 | the side is not in check and has no legal move, on the saved board or any other on which no trial is special |
| `ChessEngine.Chess.VerifyDraw` | src/libchess/Chess.cc:95-109 | the first of the four reasons that applies, repetition counted over the whole history; nothing changes |
| `ChessEngine.Chess.Winner` | src/libchess/Chess.cc:52-58 | the side that has mated the other, if any; nothing changes |
| `ChessEngine.Chess.UpdateState` | src/libchess/Chess.cc:247-299 | the next state as a function of the old state, the new board and the move |
| `GameTheorems.MovesAreCounted` | src/libchess/Chess.cc:252-253 | after any moves the number of full moves is one more than the moves of Black, and White is to move after an even number |
| `ChessEngine.Chess.UpdateMove` | src/libchess/Chess.cc:231-244 | board, state, history and turn after a legal move, and whether a pawn was promoted |
| `ChessEngine.Chess.VerifyAndMakeMove` | src/libchess/Chess.cc:64-85 | any text at all is accepted exactly when it is a legal move of the side to move; a refused one leaves the whole game as it was |
| `ChessEngine.Chess.constructor` | src/libchess/Chess.cc:26-36 | the start position, of which every invariant of a run holds |
| `Invariant.StartText` | src/libchess/State.cc:39-46 | the text the first state carries is the text of the board the pieces are put on |
| `Invariant.StartOk` | src/libchess/Chess.cc:26-36 | every invariant of a run holds at the start |
| `Reachable.CheckedIsInCheck` | src/libchess/ChessBasedGame.cc:116-136 | where castling letters vouch for kings on their file, the recursive check test is the plain one |
| `Reachable.ApplyKeepsOneKing` | src/libchess/Chess.cc:198-229 | no move makes a second king |
| `Reachable.NoKingTaken` | src/libchess/Chess.cc:155-160 | in a sound game no accepted move takes a king |
| `Reachable.KingsStay` | src/libchess/Chess.cc:155-229 | after any accepted move both kings are there and the other one stands where it stood |
| `Reachable.KeepRightsIs` | src/libchess/Chess.cc:271-298 | exactly the rights of a moved king and of a missing rook go |
| `Reachable.NoSelfCheck` | src/libchess/Chess.cc:155-178 | an accepted move never leaves the mover's own king in check |
| `Runs.SoundAfter` | src/libchess/Chess.cc:198-299 | every accepted move keeps the invariant, for the new board, castling rights and en passant square |
| `Runs.PlayOk` | src/libchess/Chess.cc:64-85 | the invariant is kept from any game on, over any texts, accepted or not |
| `Runs.EveryRunIsSound` | src/libchess/Chess.cc:155-299 | after any texts at all: one king a side, the side that just moved is not in check, castling letters vouch for king and rook at home, no pawn on a last row, the kept text is that of the board |
| `Runs.RightsNeverReturn` | src/libchess/Chess.cc:271-298 | a castling letter once gone never returns, whatever is sent |
| `Runs.EnPassantTakesOnePawn` | src/libchess/ChessBasedGame.cc:209-260 | an en passant capture goes to the recorded square and takes exactly one enemy pawn |
| `Runs.EnPassantAnswersDoubleStep` | src/libchess/Chess.cc:264-269 | that pawn made its double step with the move just before |
| `Runs.DoubleStepIsRecorded` | src/libchess/Chess.cc:264-269 | a square is recorded exactly after a double step, the one jumped over, for either side |
| `Mate.PromotionDoesNotMatter` | src/libchess/Chess.cc:155-178 | legality does not depend on the piece a pawn is promoted to |
| `AsWritten.QuietPromotionCounts` | src/libchess/Chess.cc:255-262 | an accepted pawn move sets the counter of half moves to zero, except a promotion that takes nothing, which counts one more |
| `AsWritten.CastlingTakesIff` | src/libchess/ChessBasedGame.cc:314-342 | accepted castling in a sound position takes a man exactly when the other side has one where the rook arrives, and only that one |
| `AsWritten.PassingIsTakenIff` | src/libchess/ChessBasedGame.cc:116-123 | a castling king passes a vacant square where it could be taken exactly when an enemy pawn stands diagonally before it |
| `AsWritten.CastlingTakesOnTheRooksSquare` | src/libchess/ChessBasedGame.cc:314-342 | a sound position with a legal castling whose rook takes an enemy knight |
| `AsWritten.CastlingPassesAPawnsCapture` | src/libchess/ChessBasedGame.cc:116-123 | a sound position with a legal castling over a vacant square on which an enemy pawn would take |
| `MateMark.MarkCanBeWrong` | src/libchess/Chess.cc:180-196 | a sound game and a legal move that gets both marks, though it allows a capture en passant and so does not mate |
| `Mate.AcceptedMeansCanMove` | src/libchess/Chess.cc:137-160 | a text that is accepted names a man that the search for a move finds |
| `Mate.TextsAreMoves` | src/libchess/Chess.cc:64-79 | the texts let through are exactly those of two squares, alone or with a letter for queen, knight, bishop or rook |
| `Mate.NoMoveIffMateOrStalemate` | src/libchess/Chess.cc:137-160 | no text of any length is accepted exactly when the engine reports mate or stalemate |
| `GameTheorems.EveryRunEndsInMateOrStalemate` | src/libchess/Chess.cc:309-327 | ... and that in every game reached from the start by any texts |
| `Repetition.MoveDrops` | src/libchess/Chess.cc:247-262 | a potential of men and pawn advancement never rises, and falls with every reset of the half move counter |
| `Repetition.PlayBehind` | src/libchess/Chess.cc:247-262 | in any run the entries of the history are the texts of a chain of boards that the argument needs |
| `Repetition.PotentialFalls` | src/libchess/Chess.cc:247-262 | along the history the potential never rises, and sides alternate |
| `Repetition.FarStatesDiffer` | src/libchess/Chess.cc:329-339 | a state from before the last reset, or at an odd distance, never equals the present one |
| `Repetition.CounterFits` | src/libchess/Chess.cc:329-339 | the counter never exceeds the moves made, so the scan stays inside the history |
| `Repetition.ThreefoldRepetition` | src/libchess/Chess.cc:329-339 | the scan of every second entry within the counter answers as counting equal states in the whole history |
| `SamePositions.SameStateIff` | src/libchess/State.cc:97-99 | the states of two sound games compare equal exactly when board, castling text, en passant square and side to move agree |
| `SamePositions.SameTextAccepted` | src/libchess/State.cc:97-99 | from games with equal states the same texts are accepted and lead to equal states |
| `SamePositions.SameFuture` | src/libchess/State.cc:97-99 | ... and so it goes on for any list of texts |
| `SamePositions.OccurrencesCounts` | src/libchess/Chess.cc:329-339 | the count of a state is the number of places of the history where it stands |
| `SamePositions.OccurrencesInPlay` | src/libchess/Chess.cc:329-339 | in a played game it is the number of moments at which the game stood as it stands now |
| `GameTheorems.EveryRunCanBeScanned` | src/libchess/Chess.cc:329-339 | its conditions hold in every game reached from the start |
| `DeadPosition.BishopKeepsShade` | src/libchess/ChessBasedGame.cc:280-291 | a bishop's move keeps the colour of its square |
| `DeadPosition.LikeBishopsStay` | src/libchess/Chess.cc:341-381 | a pair of bishops on squares of one colour stays such a pair |
| `DeadPosition.DeadStaysDead` | src/libchess/Chess.cc:341-381 | a legal move keeps an impossible mate impossible |
| `GameTheorems.DeadForGood` | src/libchess/Chess.cc:341-381 | ... and so over any texts from any sound game |
| `GameTheorems.ImpossibleMateIsAbsorbing` | src/libchess/Chess.cc:341-381 | once the test holds in a reachable game it holds after anything sent later |
| `ChessEngine.ImpossibleMate` | src/libchess/Chess.cc:341-381 | the listing of men, given up at the third of a side, decides exactly the positions of that test |
| `DeadPosition.DeadIff` | src/libchess/Chess.cc:341-381 | with a king a side the test holds exactly when there are only kings, one bishop or knight more, or a bishop each on squares of the same shade |
| `Movetext.NumberRoundTrip` | src/GameChess.cc:474-476 | a number written and read is the same, and is one word of the text |
| `Movetext.WordWritten` | src/GameChess.cc:341-342 | writing a word and a blank adds exactly that word to those the text is read as |
| `Movetext.WrittenIsPlayed` | src/GameChess.cc:336-342 | the text written for a move, with its queen made explicit, is accepted in the same game and leads to the same one |
| `Movetext.HistoryIsReplayed` | src/HistoryProcess.cc:71-82 | entry k of the history is the state after k moves |
| `Movetext.TellsMore` | src/GameChess.cc:341-342 | appending a move, and its seconds in a timed game, tells one entry more |
| `ChessGames.ChessGame.Move` | src/GameChess.cc:454-479 | the answer in order: fallen flag, decided game, wrong turn, illegal move; otherwise game, clock, text and end after the move; a refusal leaves game and clock alone |
| `ChessGames.ChessGame.UntimedMove` | src/GameChess.cc:320-350 | the same without clocks, with the text that is appended |
| `ChessGames.MovedIff` | src/GameChess.cc:318-335 | a move gets through exactly in an undecided game, from the side to move and if the rules allow it; the refusals say which of these failed first |
| `ChessGames.ChessGame.RealDone` | src/GameChess.cc:239-250 | mate ends the game; a draw does with the automatic flag; an end already there stays |
| `ChessGames.ChessGame.CheckTimeOver` | src/GameChess.cc:481-495 | both flags are looked at from the second move on; a fallen one decides whatever was decided before, two make a draw |
| `ChessGames.EndStaysIff` | src/GameChess.cc:481-495 | an end that was decided stays exactly when no flag has fallen or the same flags had decided it |
| `ChessGames.FlagCalledAfterResignation` | src/GameChess.cc:443-446 | in every timed game White resigns, then Black's flag, fallen alone, is called: the end is replaced and White wins |
| `FlagFall.ResignedAndWon` | src/GameChess.cc:443-446 | such a game, played from the start |
| `ChessGames.ChessGame.CallFlag` | src/GameChess.cc:443-446 | a fallen flag, else an end already there, else the reason the position is drawn |
| `ChessGames.ChessGame.Results` | src/GameChess.cc:291-307 | the scores from the code, the resignation, the mate and the fallen flag |
| `ChessGames.AfterMoveIsFair` | src/GameChess.cc:239-250 | right after a move the code given tells the scores, and an undecided game has no winner |
| `ChessGames.DrawIsCalled` | src/GameChess.cc:193-209 | which of the four reasons a draw is called by, and that a stalemate is always called |
| `EventScores.ScoreOfMove` | src/GameChess.cc:291-307 | a move that mates wins for the mover; with the automatic flag repetition, an impossible mate and fifty moves are draws and a stalemate is lost by White |
| `EventScores.ScoreOfResignation` | src/GameChess.cc:180-184 | who resigns an undecided game loses |
| `EventScores.ScoreOfFlags` | src/GameChess.cc:443-446 | called flags: one fallen flag loses, two make a draw |
| `EventScores.ScoreOfWalkOver` | src/GameChess.cc:186-191 | who stays away loses |
| `EventScores.ScoreOfAgreement` | src/GameChess.cc:211-214 | an agreed draw is one |
| `ChessGames.ChessGame.Adjourn` | src/GameChess.cc:497-515 | only an undecided game; its text has the words of the moves made, each side the seconds left at that time, and one increment, White's |
| `ChessGames.SecondsLeftIs` | src/GameChess.cc:496-512 | the seconds written down of an adjourned game are those a move now would leave |
| `ChessGames.ChessGame.Resume` | src/GameChess.cc:399-421 | a new game with the board, turn, rights, counters and history the text leads to, and the clocks and the increment written down |
| `ChessGames.InterpretHistoryMoves` | src/GameChess.cc:517-524 | makes every move of the text and passes over the times |
| `ChessGames.AdjournAndResume` | src/GameChess.cc:216-421 | adjourning and resuming, timed or not, gives back board, turn, rights, en passant square, counters and state history; the clocks go on at the seconds left, both sides with White's increment |
| `ChessGames.UnevenIncrements` | src/GameChess.cc:510 | a game with two different increments goes on with White's for both sides |
| `ChessGames.GenerateHistory` | src/HistoryProcess.cc:71-82 | prints the first state and one state with move and time for every move |
| `ChessGames.ShownIsKept` | src/HistoryProcess.cc:71-82 | the k-th state printed is the one the game itself kept after k moves |
| `ChessGames.ClocksOfGame` | src/GameChess.cc:454-495 | in any run both clocks sum to the initial times and credited increments less the time since the second move; with the automatic flag, increments of at least zero and time at the start, both are positive |
| `Clocks.ClocksConserve` | src/GameChess.cc:464-472 | the conservation law on lists of move times |
| `Clocks.ClocksStayPositive` | src/GameChess.cc:481-495 | no clock runs out while no flag fell at a move |
| `Clocks.ClockedMore` | src/GameChess.cc:464-472 | one more move keeps the clock the one its list of move times makes |
| `Clocks.MoverPays` | src/GameChess.cc:464-473 | a move takes the time since the last one off the mover's clock, adds the increment, and leaves the other clock; the first two moves cost nothing |
| `Clocks.FallenIsOutOfTime` | src/GameChess.cc:481-495 | the flag of the side to move has fallen exactly when a move now would leave it no time |
| `Clocks.FiveBelowShowsFour` | src/GameChess.cc:474-476 | five seconds below zero are written as four |
| `Clocks.ShownIsExactAboveZero` | src/GameChess.cc:474-476 | the seconds written are those of the clock exactly when it stands above minus one second |
| `ChessGames.DrawnIsScoredDrawUnlessStalemate` | src/GameChess.cc:291-307 | a position the engine calls drawn is scored as a draw exactly when it is not a stalemate, which is a loss for White |
| `StalemateExample.StalemateIsScoredAsALoss` | src/GameChess.cc:291-307 | a sound game in stalemate of Black, scored as a loss for White |
| `ChessGames.NoMateInStalemate` | src/GameChess.cc:291-307 | in a stalemate of a sound game no side has been mated |
| `Agreement.Agreements.Agreed` | src/Agreement.cc:31-43 | notes a known user under one topic and tells whether that is new |
| `Agreement.Agreements.LeftCount` | src/Agreement.cc:54-56 | none is left exactly when all users agreed |
| `Agreement.SinceMeans` | src/Agreement.cc:27-60 | a user counts as agreed exactly when an agreement of that user is not followed by a decline of that topic |
| `GameRooms.GameRoom.HandleGameIq` | src/GameRoom.cc:248-297 | for every query of anybody: the reply, the game afterwards, what is noted, and whether and why the room ended; an active room keeps an undecided game and a room ends at most once |
| `GameRooms.GameRoom.EndsByAgreement` | src/GameRoom.cc:339-415 | a query ends the room by draw, adjournment or cancellation exactly when everybody agreed since the last decline (a cancellation also while somebody has not moved yet) |
| `GameRooms.GameRoom.RepliesMean` | src/GameRoom.cc:248-297 | who gets an answer, and exactly when a move is carried out |
| `GameRooms.GameRoom.ResignerLoses` | src/GameRoom.cc:334-337 | a resignation ends the room with a loss for the sender, whatever the clock says |
| `GameRooms.GameRoom.MoveEnds` | src/GameRoom.cc:310-332 | a move that mates ends the room with a win for the sender, one that comes too late as the flags say |
| `GameRooms.GameRoom.ClockEnds` | src/GameRoom.cc:284-287 | a query that decides nothing ends the room exactly when a flag has fallen by then |
| `GameRooms.ConsentChanges` | src/GameRoom.cc:339-415 | only a query for a topic changes who agrees to it |
| `GameRooms.OnlyMovesPlay` | src/GameRoom.cc:310-332 | only a move that is carried out changes the position, by the rules |
| `GameRooms.GameRoom.ActiveMeansNothingAgreed` | src/GameRoom.cc:339-415 | in every active room, between events, the game is undecided and the players have agreed neither on a draw nor on an adjournment |
| `GameRooms.GameRoom.HandleMove` | src/GameRoom.cc:310-332 | the move of the sender's colour is made or refused, in the order clock, turn, rules; a move too late ends the room on time |
| `GameRooms.GameRoom.HandleDrawAccept` | src/GameRoom.cc:339-356 | the game is drawn exactly when both agreed since the last decline |
| `GameRooms.GameRoom.HandleCancelAccept` | src/GameRoom.cc:364-383 | the room ends exactly when the consent is new and completes the agreement or not everybody has moved |
| `GameRooms.GameRoom.HandleAdjournAccept` | src/GameRoom.cc:391-409 | the room ends adjourned exactly when both agreed since the last decline |
| `GameRooms.GameRoom.CheckTime` | src/GameRoom.cc:180-224 | an active room ends on the clock, else by the player away longest, cancelled if both are due at once, else goes on; an ended room is left alone |
| `GameRooms.FirstCheck` | src/GameRoom.cc:120-130 | both players have five minutes to come: a check in that time ends the room only for a fallen flag |
| `GameRooms.GameRoom.OnStop` | src/GameRoom.cc:171-178 | a game under way is adjourned; an ended room is left alone |
| `GameRooms.GameRoom.EndGame` | src/GameRoom.cc:506-554 | the one report of a room: the scores if the game came to its end, the moves and times left if it was adjourned |
| `GameRooms.GameRoom.NotifyUserStatus` | src/GameRoom.cc:562-580 | only the deadline of a player moves |
| `ServerCores.ServerCore.CreateGame` | src/ServerCore.cc:134-179 | a game is created exactly when all its players can play; each seat counts; a player already in a game wants several |
| `ServerCores.ServerCore.ProcessEnd` | src/ServerCore.cc:211-231 | the oldest end uncounts exactly the seats of its game |
| `ServerCores.ServerCore.CloseGame` | src/ServerCore.cc:237-242 | only a room that has ended goes; no count changes |
| `ServerCores.ServerCore.HandlePresence` | src/ServerCore.cc:244-272 | a user's presence changes and the counts stay, also for a user who leaves in the midst of games |
| `ServerCores.CreatedCounts` | src/ServerCore.cc:134-179 | creating a game keeps every user's count equal to the created games of that user whose end is not processed |
| `ServerCores.ProcessedCounts` | src/ServerCore.cc:211-231 | ... and so does processing an end |
| `ServerCores.PresenceCounts` | src/ServerCore.cc:244-272 | ... and so does any presence |
| `ServerCores.ProcessedTracked` | src/ServerCore.cc:211-231 | a game whose end is processed was created and not processed before |
| `ServerCores.FreeSeats` | src/UserStatus.hh:28-30 | a user who can play and wants one game at a time sits in none |
| `ServerCores.CanPlayIff` | src/UserStatus.hh:28-30 | a user can play exactly when available and wanting several games or sitting in none |
| `HostedGames.HostedGame.Query` | src/GameRoom.cc:248-297 | a query leaves the counts alone and queues an end exactly when it ends the room |
| `HostedGames.HostedGame.Tick` | src/GameRoom.cc:180-224 | so does the periodic check, which asks for an ended and empty room to be taken down |
| `HostedGames.HostedGame.Stop` | src/GameRoom.cc:171-178 | so does stopping the room, which ends it if it is active |
| `HostedGames.HostedGame.ActiveGameCounts` | src/ServerCore.cc:134-231 | while a room is active its game counts for both players |
| `GameServers.GameServer.OthersHold` | src/ServerCore.cc:180-242 | whatever happens in one room, every other room of the server stays as it was, with its entry |
| `GameServers.GameServer.RoomEvent` | src/GameRoom.cc:171-297 | so an event of one room keeps all rooms in order, with the counts equal to the seats of the games not yet processed |
| `GameServers.GameServer.Query` | src/GameRoom.cc:248-297 | a query to one of any number of rooms ends at most that room |
| `GameServers.GameServer.Tick` | src/GameRoom.cc:180-224 | so does a periodic check, and an ended and empty room is queued to be taken down |
| `GameServers.GameServer.OpenRoom` | src/ServerCore.cc:180-205 | a created game gets a room with its number, which no other room has |
| `GameServers.GameServer.CreateGame` | src/ServerCore.cc:134-179 | creating a game, with any rooms open, keeps everything in order; created exactly when all can play |
| `GameServers.GameServer.HandlePresence` | src/ServerCore.cc:244-272 | so does the presence of a user |
| `GameServers.GameServer.NotifyUserStatus` | src/GameRoom.cc:562-580 | so does a player who comes to a room or leaves it |
| `GameServers.GameServer.ProcessEnd` | src/ServerCore.cc:211-231 | processing the oldest end changes the counts of its players and no room |
| `GameServers.GameServer.ProcessClose` | src/ServerCore.cc:233-242 | the room that asked first goes, if it is still there, and no other |
| `GameServers.GameServer.Stop` | src/ServerCore.cc:107-113 | all rooms are stopped and gone; the counts wait for the ends that are queued |
| `GameServers.GameServer.ActiveGamesCount` | src/ServerCore.cc:134-231 | at any time an active room of the server counts for both its players |
| `IdSets.IdSet.AcquireId` | src/Util/IDSet.cc:29-37 | a number not in use, and in use from now on |
| `IdSets.IdSet.ReleaseId` | src/Util/IDSet.cc:39-41 | exactly that number is free again |
| `MatchDatabases.MatchDatabase.InsertMatch` | src/MatchDatabase.cc:32-42 | a new number; table, index and numbers in use agree; nobody has accepted |
| `MatchDatabases.MatchDatabase.ReplaceMatch` | src/MatchDatabase.cc:44-47 | the new match stands under the old number and waits for everybody; table, index and numbers still agree exactly when the players are the same |
| `MatchDatabases.MatchDatabase.AcceptMatch` | src/MatchDatabase.cc:56-69 | refused without such a match or player; the pending count is the number of those who have not accepted |
| `MatchDatabases.MatchDatabase.IsDone` | src/MatchDatabase.cc:71-73 | the pending count is zero exactly when nobody is waited for |
| `MatchDatabases.MatchDatabase.GetPlayerMatches` | src/MatchDatabase.cc:83-85 | exactly the matches with the player in them |
| `MatchDatabases.MatchDatabase.CloseMatch` | src/MatchDatabase.cc:87-100 | the match leaves table, index and numbers in use |
| `MatchDatabases.AskedIndexed` | src/MatchDatabase.cc:83-85 | the empty entry that asking leaves behind keeps the index right |
| `MatchDatabases.InsertIndexed` | src/MatchDatabase.cc:32-42 | listing a new match with its players keeps the index right: a number is with a player exactly when that player is in the match |
| `MatchDatabases.RemoveIndexed` | src/MatchDatabase.cc:87-100 | ... and so does taking one off |
| `MatchDatabases.ReplaceIndexed` | src/MatchDatabase.cc:44-47 | an index that is not touched stays right exactly when the players of the replaced match are the same |
| `MatchManagers.MatchManager.ProcessOffer` | src/MatchManager.cc:174-239 | the refusals in their order; otherwise the offer is in the table, accepted by its sender only, a rematch under its old number |
| `MatchManagers.OfferedIff` | src/MatchManager.cc:174-239 | an offer is taken exactly when all can play, the sender is among them, no account is named twice, and a match it replaces is known and has the same players |
| `MatchManagers.MatchManager.HandleAccept` | src/MatchManager.cc:298-317 | a game is asked for exactly when the last player accepts, and then the close cascade runs |
| `MatchManagers.MatchManager.HandleDecline` | src/MatchManager.cc:319-337 | only a player of the match can close it, and only it closes |
| `MatchManagers.MatchManager.CloseMatch` | src/MatchManager.cc:339-359 | the cascade ends, closes only live matches, and exactly those of players of several games |
| `MatchManagers.MatchManager.HandleUserStatus` | src/MatchManager.cc:470-478 | a user who leaves takes along exactly the own offers |
| `MatchManagers.SurvivesIff` | src/MatchManager.cc:339-359 | another offer survives an accepted one exactly when they share no player of several games |
| `MatchManagers.SingleGamePlayersKeepOffers` | src/MatchManager.cc:339-359 | two players of one game at a time with two offers waiting for the second player: when one is accepted the other stays, against the comment |
| `MatchManagers.AcceptedTable` | src/MatchManager.cc:298-317 | an acceptance takes one player off those waited for and does not change what would close |
| `Sha1Context.R` | src/sha1.cc:345-350 | one line of the unrolled code with the roles of the registers rotated is one round of the standard |
| `Sha1Context.RoundConstant` | src/sha1.cc:304-307 | the four constants of the code are those of the standard |
| `Sha1Context.Rotate5` | src/sha1.cc:339-339 | two shifts are the rotation of the standard |
| `Sha1Example.ConstantsAreRoots` | src/sha1.cc:304-307 | each constant is the whole part of 2^30 times the square root of 2, 3, 5 or 10 |
| `Sha1Example.RotationsMoveBits` | src/sha1.cc:339-339 | a rotation by n moves every bit n places around |
| `Sha1Example.DigestOfAbc` | src/sha1.cc:320-420 | the digest of the three bytes of Appendix A of FIPS 180-1 is the one given there |
| `Sha1Example.LongLength` | src/sha1.cc:100-116 | the number of bits of a message of 2^29 + 1 bytes needs the upper length word |
| `Sha1Context.M` | src/sha1.cc:341-343 | the word in the rotating schedule is the word of the eighty-word schedule |
| `Sha1Context.EightyRounds` | src/sha1.cc:362-441 | eighty lines compute the eighty rounds of section 7 of FIPS 180-1 |
| `Sha1Context.ChooseIsF1` | src/sha1.cc:310 | the shortened first round function is that of the standard |
| `Sha1Context.MajorityIsF3` | src/sha1.cc:312 | the shortened third one too |
| `Sha1Context.SwapReadsBigEndian` | src/sha1.cc:35-40 | swapping a little-endian word reads it big-endian |
| `Sha1Context.SwapStoresBigEndian` | src/sha1.cc:80-90 | swapping before storing writes it big-endian |
| `Sha1Context.CountedMore` | src/sha1.cc:332-337 | the two counters with their carry count bytes modulo 2^64, for steps below 2^32 |
| `Sha1Context.HoldsAfter` | src/sha1.cc:332-449 | processing blocks at the start of the tail keeps chaining value, counters and tail those of the whole message |
| `Sha1Context.Context.ProcessBlock` | src/sha1.cc:320-449 | any number of blocks gives the chaining value of the standard, and they are counted |
| `Sha1Context.Context.ProcessBytes` | src/sha1.cc:235-299 | aligned or not, at most 64 bytes stay behind and they are exactly the part of the message not processed |
| `Sha1Context.Context.TakeFull` | src/sha1.cc:247-256 | whole blocks leave the buffer and the rest moves to its start |
| `Sha1Context.Context.WholeBlocks` | src/sha1.cc:263-282 | from an address that is not aligned the last block is left for later, and nothing is lost |
| `Sha1Context.Context.PutPadding` | src/sha1.cc:95-111 | fill bytes and the length in bits as two big-endian words end the buffer |
| `Sha1Context.LastBlocksPad` | src/sha1.cc:95-111 | what is processed last completes the message padded as in section 4 of FIPS 180-1 |
| `Sha1Context.Context.Finish` | src/sha1.cc:95-116 | the digest of everything taken in, by the standard |
| `Sha1Context.DigestOfChunks` | src/sha1.cc:95-299 | for every way of cutting a message into pieces and every alignment the digest is that of the message |
| `Sha1Context.BufferDigest` | src/sha1.cc:189-201 | the digest of one buffer |
| `Sha1Context.TextDigest` | src/sha1.cc:217-232 | the hexadecimal text of the digest |
| `Sha1Context.HexAt` | src/sha1.cc:203-232 | every byte is written as its sixteens and its ones, in lower case digits |
| `Sha1Context.HexTells` | src/sha1.cc:203-232 | different digests have different texts |
| `Swiss.ByeSortsLast` | src/Pairing/Tourney.cc:162-220 | with scores and ratings of at least zero a bye at the end of the list sorts last, so it never chooses |
| `Swiss.ChoicesHas` | src/Pairing/Tourney.cc:645-724 | a player is offered exactly the others who are free and were not met before |
| `Tourney.Tourney.SortPlayers` | src/Pairing/Tourney.cc:162-220 | the stable order by value, and everybody's place in it |
| `SwissOffers.ByScoreThenRating` | src/Pairing/Tourney.cc:176-176 | the sort is by score and then by rating, as long as ratings differ by less than half a point is worth |
| `Tourney.Tourney.SetPairingScores` | src/Pairing/Tourney.cc:645-724 | the offers in the order of their pairing scores |
| `SwissOffers.ScoresCompare` | src/Pairing/Tourney.cc:696-697 | with records that compare, one pairing score is no larger than another exactly when that opponent is at least as well placed: nearer to the wanted place, then in points, then in the colour due, then in rating |
| `SwissOffers.PartsWeigh` | src/Pairing/Tourney.cc:696-697 | what a place, a half point, the colour due and rating weigh against each other |
| `SwissOffers.SecondByeComesLater` | src/Pairing/Tourney.cc:700-701 | a counted bye would make another one come after everybody fewer than ten places from the place wanted, and not after those further away |
| `SwissOffers.BestFirst` | src/Pairing/Tourney.cc:645-724 | of two opponents the one offered first is at least as well placed |
| `SwissOffers.LevelOffset` | src/Pairing/Tourney.cc:575-642 | among level players the offset is half the players down for the upper half, up for the lower half |
| `SwissOffers.FoundFolds` | src/Pairing/Tourney.cc:382-426 | the search pairs the upper half with the lower half and never turns back |
| `Tourney.Tourney.TryToPair` | src/Pairing/Tourney.cc:372-380 | the next offer is always free, so it is taken; there is none exactly when all were tried |
| `SwissSearch.SearchDecides` | src/Pairing/Tourney.cc:382-426 | the recursive search finds a pairing exactly when one without rematch exists, and what it finds is one |
| `SwissSearch.SearchMissesNone` | src/Pairing/Tourney.cc:382-426 | no pairing of everybody left is missed |
| `SwissSearch.SearchFinds` | src/Pairing/Tourney.cc:382-426 | what it finds pairs everybody left, mutually and without rematch |
| `SwissMirror.MirrorsPush` | src/Pairing/Tourney.cc:727-745 | pairing two free players is pushing a choice |
| `SwissMirror.MirrorsPop` | src/Pairing/Tourney.cc:413-418 | taking back the last pairing restores the records to the choices below, but for a stale name and one counter |
| `SwissMirror.PopKeepsSearch` | src/Pairing/Tourney.cc:399-419 | stepping back keeps the outcome of the whole search, with less work left |
| `SwissMirror.CompleteStackPairs` | src/Pairing/Tourney.cc:420-425 | when the end of the order is reached the records are those of a pairing of everybody |
| `Tourney.Tourney.PopLastPairedPlayer` | src/Pairing/Tourney.cc:322-332 | the position remembered last, or -1 |
| `Tourney.Tourney.FindOffer` | src/Pairing/Tourney.cc:399-419 | stepping back ends with an offer on the way of the search, or with every record restored |
| `Tourney.Tourney.SwissAssign2` | src/Pairing/Tourney.cc:382-426 | ends; 1 exactly when everybody can be paired without rematch, and then partners are mutual and records say so; on 0 every list of opponents is as before |
| `Tourney.Tourney.SetOffsets` | src/Pairing/Tourney.cc:575-642 | the sort and scan gives every player the offset of the quadratic definition, whatever the sort does with ties |
| `SwissOffsets.GroupOffset` | src/Pairing/Tourney.cc:575-642 | group size and place found by the scan give the offset of comparing with everybody |
| `SwissOffsets.HalfOfGroup` | src/Pairing/Tourney.cc:607-614 | the offset is half the players of the group, rounded down, down for its upper half and up for the rest |
| `SwissOffsets.CountPermuted` | src/Pairing/Tourney.cc:585 | counting does not depend on the order the sort picks |
| `Tourney.Tourney.UnpairAndCheckBye` | src/Pairing/Tourney.cc:339-370 | an old bye goes, an odd number of players gets a new one, everybody is free |
| `Tourney.Tourney.AddGame` | src/Pairing/Tourney.cc:823-837 | the game list stays in order |
| `Tourney.Tourney.AssignColors` | src/Pairing/Tourney.cc:754-820 | one game for the pair, coloured by what is due and by streaks and totals, and both records say so |
| `SwissTallies.DueColoursAreGiven` | src/Pairing/Tourney.cc:754-820 | of two players due different colours each gets the one due |
| `SwissTallies.DeniedLongerGetsIt` | src/Pairing/Tourney.cc:754-820 | both due white: white is for who had black longer in a row, then more often, then for the stronger |
| `SwissTallies.DeniedBlackLongerGetsIt` | src/Pairing/Tourney.cc:754-820 | both due black: the same with the colours exchanged |
| `SwissTallies.StrongerGetsItsColour` | src/Pairing/Tourney.cc:754-820 | before any game the stronger gets the colour due to it |
| `SwissTallies.ToneStep` | src/Pairing/Tourney.cc:754-820 | giving out a game keeps the counts of colours, in all and in a row, those of the games played |
| `SwissTallies.AllToned` | src/Pairing/Tourney.cc:487-501 | at the end of a draw all counts are right and all colours by the rule |
| `Tourney.Tourney.ColorizeTourney` | src/Pairing/Tourney.cc:487-501 | everybody gets a colour and one game with the partner |
| `SwissColours.ColouredIsDrawn` | src/Pairing/Tourney.cc:487-501 | then the games cover every name exactly once |
| `SwissRounds.OrderMattersOnlyInTies` | src/Pairing/Tourney.cc:754-820 | the order in which two partners are asked decides their colours exactly when nothing tells them apart |
| `SwissColours.OneOfEachColour` | src/Pairing/Tourney.cc:754-820 | of two partners one gets white and the other black, both records say so, and next time the other colour is due to both |
| `SwissRounds.NoByeIsCounted` | src/Pairing/Tourney.cc:503-521 | between calls no real player has a bye counted, so a second bye is scored like any opponent |
| `Tourney.Tourney.MakeAssignments` | src/Pairing/Tourney.cc:523-550 | a round is drawn exactly when it can be; its list is in order and covers everybody once; otherwise histories and scores are as before |
| `Tourney.Tourney.Start` | src/Pairing/Tourney.cc:307-320 | colours due alternate down the list, then the first round is drawn |
| `FirstRounds.DrawLevelRound` | src/Pairing/Tourney.cc:523-550 | a round of players with the same score, different ratings and no game before is drawn, the k-th by rating against the one half the players below, and the games stand in that order |
| `FirstRounds.StartLevelRound` | src/Pairing/Tourney.cc:307-320 | at the start, moreover, the upper of two opponents has the colour due to it, which alternates down the list |
| `SwissTallies.DueInTurnAt` | src/Pairing/Tourney.cc:307-314 | the k-th of the list is due the first colour for even k and the other one for odd k |
| `Tourney.Tourney.EnterResult` | src/Pairing/Tourney.cc:852-930 | a result goes into the last meeting on both sides and both scores are the sums of their results |
| `Tourney.Tourney.SetGameResult` | src/Pairing/Tourney.cc:852-930 | the game leaves the list, the books stay right, and 2 tells the end of the round |
| `Tourney.Tourney.SetByeResult` | src/Pairing/Tourney.cc:503-521 | the player drawn with the bye gets a win, and its game leaves the list |
| `SwissRounds.ReportKeepsBooks` | src/Pairing/Tourney.cc:852-930 | a result adds two half points to the real players and takes one game away |
| `SwissDraw.ByeKeepsBooks` | src/Pairing/Tourney.cc:339-370 | replacing the bye keeps the sum of the scores |
| `SwissDraw.DrawKeepsBooks` | src/Pairing/Tourney.cc:487-550 | drawing a round keeps it too, with a game to be reported for every pair |
| `SwissDraw.ByeEndsTheOrder` | src/Pairing/Tourney.cc:162-220 | the sorted order of a round has everybody once and ends with the bye |
| `SwissDraw.RoundIsFair` | src/Pairing/Tourney.cc:382-426 | so having met is mutual wherever the search asks |
| `SwissAssignments.AllDraws` | src/Pairing/Tourney.cc:523-550 | the pairings the search decides about are exactly the draws of the round |
| `SwissAssignments.PairedIsDrawn` | src/Pairing/Tourney.cc:523-550 | the records the search leaves are those of a draw: new partners appended, nothing else changed |
| `SwissDraw.DrawnRecords` | src/Pairing/Tourney.cc:727-745 | after a draw having met is still mutual, so the next search is fair |
| `Swiss.AlreadyPlayedIsMet` | src/Pairing/TourneyPlayers.cc:108-120 | the read-only loop finds an opponent exactly when the list has it |
| `Tourney.Tourney.CalculateScore` | src/Pairing/TourneyPlayers.cc:243-252 | the score is the sum of the results |
| `ChessTourneys.ChessTourney.AddPlayer` | src/ChessTourney.cc:37-41 | a newcomer gets the next number |
| `ChessTourneys.ChessTourney.NextRound` | src/ChessTourney.cc:43-62 | refused while results are missing or all rounds are played; otherwise a round with nobody's game open before it, seats for exactly its games, and one bye for an odd number; afterwards no result can ever come exactly when no round could be drawn or its only game was the bye |
| `ChessTourneys.ChessTourney.MakeGames` | src/ChessTourney.cc:78-98 | a seat with names and colours for every game but the bye, which is scored at once |
| `ChessTourneys.SeatFindsPlayers` | src/ChessTourney.cc:64-98 | looking up a seat finds the player of the game with that colour |
| `ChessTourneys.ByeLeaves` | src/ChessTourney.cc:78-98 | after the bye is scored the open games cover everybody but its player, once |
| `ChessTourneys.ChessTourney.AddResult` | src/ChessTourney.cc:64-76 | a result is taken once, as the score of the player named first says; both scores and the open games change by it and by nothing else |
| `ChessTourneys.RecordedIff` | src/ChessTourney.cc:64-76 | a report is taken exactly when both players are known and neither has a result in the round |
| `ChessTourneys.ReportedAsScoredIff` | src/ChessTourney.cc:73 | both players get the points reported exactly when the two scores share out one point |
| `ChessTourneys.NoResultIsAWinForBlack` | src/ChessTourney.cc:73 | a report without scores gives Black the point |
| `ChessTourneys.EndedGamesShareThePoint` | src/GameChess.cc:291-307 | the scores of a game share out one point exactly when the game came to its end |
| `ChessTourneys.ScoresOfTourney` | src/ChessTourney.cc:64-98 | at any time the entrants' scores add up to one point for every result recorded, byes included |

## Left out

- XMPP stanzas, streams, chat rooms, disco and XML trees: handlers are events with typed arguments; replies are values.
- SQL, the database manager, profiles and the store of adjourned games: results and adjourned games end as reports and texts.
- Glicko ratings and the performance of players: floating point arithmetic with logarithms.
- Building an engine or a state from a FEN string: the server never starts a game that way.
- The short algebraic text of a move: only its effect on the board is modelled (its test for other men of the kind
  compares a character with a number and never finds one).
- BugHouse classes, the pairing styles for knock-out, round robin and double round robin, the removal of players and the
  older search: not used by the tournaments of the server.
- The active and alive flags, the seed and the round counter of a pairing tournament: constant or only printed in this style.
- Threads: events of a room, of the server and of the match manager are atomic steps in any order.
- Real time, the random first colour and the alignment of addresses are arguments.
- The length limit of a memory block: every call takes less than 2^32 bytes, as the counters of the program assume.
- Reading a file block by block (`sha1_stream`): it is a loop around the two calls that are modelled.
- The unrolled eighty lines are a loop over groups of five lines, after which the registers are back in their places;
  masking with `~63` is arithmetic, and the two length words are numbers.
- Parts of one long function of the program are methods of their own here, and the timed and the untimed
  game class are one class with a flag.
- In the server counters a room is its players and a flag, which a room on the server keeps equal to its own.
- Ghost fields (entries, times of moves, what was agreed or declined, games counted, results recorded) stand for history
  that the program does not keep; no answer depends on them.
- A game that cannot be created when a match closes, the messages to the players, and wrapped matches that delete an
  adjourned game.
- The extended room information shown to other users.
- ChessEngine.Chess.MadeCheckMate: when a pawn could take on the square recorded before the move, a nested trial puts back
  the board from before the outer one in the midst of the search, and nothing is said about the answer; it is used only for
  the mark at the end of the short text.
- ChessEngine.Chess.CheckSuffix: says nothing about the mark for mate in that case either.
- Marks.MateMarkIsRightIff: leaves out that case too.
- Engine.GameBoard.SetState: takes only texts that stay on the board, as every printed text does.
- MatchManagers.MatchManager.ProcessOffer: an offer has at least two players, which the match factory checks before
  (`src/MatchFactory.cc:113`).
- ChessTourneys.ChessTourney.AddPlayer: asks for a newcomer before the start and a rating of at least zero, as the
  announcement of a tournament collects its players.
- ChessTourneys.ChessTourney.AddResult: a first report is about a game of the round, as only those games have rooms.
- Agreement.Agreements.AgreedCount: only decides who is told of a first request.
