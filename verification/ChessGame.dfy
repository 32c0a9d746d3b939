/** A game between two players: the engine, the clocks, the text of the moves and how it ended. */
module ChessGames {
  import opened ChessBoard
  import opened Rules
  import opened Fen
  import opened Game
  import opened Invariant
  import opened Reachable
  import opened Mate
  import opened DeadPosition
  import opened Clocks
  import opened Movetext
  import opened ChessEngine
  import Repetition

  datatype EndCode =
    | NoReason | WhiteMate | BlackMate | Stalemate | WhiteTimeOver | BlackTimeOver | WhiteResigned | BlackResigned
    | DrawAgreement | DrawRepetition | Draw50Moves | DrawImpossibleMate | DrawTimeOver | WhiteWo | BlackWo

  /** Answer to a move: the text written down, or why it was refused. */
  datatype MoveAnswer = Moved(written: string) | GameOver | WrongTurn | InvalidMove | TimeOver

  datatype Score = NoResult | Win | Lose | Draw

  /** What is written down of an adjourned game: its moves, the seconds left and one increment. */
  datatype Adjourned = Adjourned(movetext: string, white: int, black: int, inc: int)

  /** The code of a drawn position, by the first of the four reasons that applies. */
  ghost function DrawCode(g: Game): (code: EndCode)
    ensures code in {NoReason, DrawRepetition, DrawImpossibleMate, Draw50Moves, Stalemate}
  {
    if Repetition.Occurrences(g.history, g.state) >= 3 then DrawRepetition
    else if Dead(g.board) then DrawImpossibleMate
    else if g.state.halfmoves >= 50 then Draw50Moves
    else if StaleMate(g.board, RightsOf(g.state), g.turn) then Stalemate
    else NoReason
  }

  /** How a game stands right after a move: mate ends it, and with the automatic flag so does a draw. */
  ghost function AfterMove(g: Game, autoFlag: bool): EndCode {
    if CheckMate(g.board, RightsOf(g.state), g.turn) then if g.turn == White then BlackMate else WhiteMate
    else if autoFlag then DrawCode(g)
    else NoReason
  }

  /** The code of fallen flags: both sides are looked at, and two fallen flags make a draw. */
  function FlagCode(k: Clock, turn: Color, now: int): (code: EndCode)
    ensures code in {NoReason, WhiteTimeOver, BlackTimeOver, DrawTimeOver}
  {
    if Fallen(k, turn, White, now) && Fallen(k, turn, Black, now) then DrawTimeOver
    else if Fallen(k, turn, White, now) then WhiteTimeOver
    else if Fallen(k, turn, Black, now) then BlackTimeOver
    else NoReason
  }

  /** The end of a game after a look at both flags: a fallen one decides, whatever was decided before. */
  function AfterLook(done: EndCode, k: Clock, turn: Color, now: int): EndCode {
    var flag := FlagCode(k, turn, now);
    if flag != NoReason then flag else done
  }

  /** So an end stays exactly when no flag has fallen or the same flags had decided the game. */
  lemma EndStaysIff(done: EndCode, k: Clock, turn: Color, now: int)
    ensures var white, black := Fallen(k, turn, White, now), Fallen(k, turn, Black, now);
      AfterLook(done, k, turn, now) == done <==>
        || (!white && !black)
        || (done == WhiteTimeOver && white && !black)
        || (done == BlackTimeOver && black && !white)
        || (done == DrawTimeOver && white && black)
  {
    hide Fallen;
  }

  /** The codes scored as a draw. */
  predicate IsDraw(code: EndCode) {
    code in {DrawAgreement, DrawRepetition, Draw50Moves, DrawImpossibleMate, DrawTimeOver}
  }

  /** White's and Black's score. */
  function Scores(code: EndCode, resigned: Option<Color>, mated: Option<Color>, timeOver: Option<Color>)
    : (Score, Score)
  {
    if code == NoReason then (NoResult, NoResult)
    else if IsDraw(code) then (Draw, Draw)
    else if resigned == Some(Black) || mated == Some(White) || timeOver == Some(Black) || code == WhiteWo
        then (Win, Lose)
    else (Lose, Win)
  }

  /** The scores a code stands for: the side it names as having won wins, and a stalemate is lost by White. */
  function CodeScores(code: EndCode): (Score, Score) {
    match code
    case NoReason => (NoResult, NoResult)
    case WhiteMate => (Win, Lose)
    case BlackMate => (Lose, Win)
    case Stalemate => (Lose, Win)
    case WhiteTimeOver => (Lose, Win)
    case BlackTimeOver => (Win, Lose)
    case WhiteResigned => (Lose, Win)
    case BlackResigned => (Win, Lose)
    case WhiteWo => (Win, Lose)
    case BlackWo => (Lose, Win)
    case _ => (Draw, Draw)
  }

  class ChessGame {
    /** A timed game counts clocks; an untimed one does not. */
    const timed: bool
    const autoFlag: bool
    const incWhite: int
    const incBlack: int
    const chess: Chess
    var done: EndCode
    var resigned: Option<Color>
    var timeOver: Option<Color>
    var clock: Clock
    var history: string
    /** The accepted moves as they were written down. */
    ghost var entries: seq<Entry>
    /** The clock and the side to move at the start or restart, and the times of the accepted moves since. */
    ghost const startClock: Clock
    ghost const first: Color
    ghost var stamps: seq<int>

    /** What holds between calls: the text tells the moves, the engine stands where they lead, and the
        clock shows what the times of the moves make of the one at the start. */
    ghost predicate Valid()
      reads this, chess, chess.gameboard, chess.gameboard.cells
    {
      && chess.Valid() && Tells(history, timed, entries)
      && Played(Start(), Moves(entries)) && chess.Value() == Replay(Start(), Moves(entries))
      && (timed ==> Clocked(autoFlag, startClock, first, incWhite, incBlack, stamps, clock, chess.turn))
    }

    ghost function Value(): Game
      requires chess.gameboard.Valid()
      reads this, chess, chess.gameboard, chess.gameboard.cells
    {
      chess.Value()
    }

    /** The scores are those the code stands for, and as long as the game is undecided nobody has resigned, lost on
        time or been mated. Only a decision that replaces another one can break this. */
    ghost predicate Fair()
      reads this, chess, chess.gameboard, chess.gameboard.cells
    {
      chess.gameboard.Valid() && var winner := WinnerOf(Value().board, RightsOf(Value().state));
      && Scores(done, resigned, winner, timeOver) == CodeScores(done)
      && (done == NoReason ==> resigned == None && winner == None && timeOver == None)
    }

    constructor (timed: bool, autoFlag: bool, white: int, black: int, incWhite: int, incBlack: int)
      ensures Fair()
      ensures Valid() && Value() == Start() && entries == [] && done == NoReason
      ensures this.timed == timed && this.autoFlag == autoFlag && clock == startClock == NewClock(white, black)
        && stamps == []
      ensures this.incWhite == incWhite && this.incBlack == incBlack
      ensures fresh(chess) && fresh(chess.gameboard) && fresh(chess.gameboard.cells)
    {
      hide Start, Words, Tells, Played, Replay, Moves, TextWords, Consistent;
      this.timed, this.autoFlag, this.incWhite, this.incBlack := timed, autoFlag, incWhite, incBlack;
      done, resigned, timeOver := NoReason, None, None;
      clock, startClock, first, stamps := NewClock(white, black), NewClock(white, black), White, [];
      history := "";
      entries := [];
      chess := new Chess();
      new;
      ClockedStart(autoFlag, startClock, first, incWhite, incBlack);
      StartTurn();
      NothingTold(timed);
      StartHasNoWinner();
    }

    /** Asks the engine for a draw, unless the game is decided already. */
    method CheckDraw()
      requires chess.Valid()
      modifies this`done, chess.gameboard.cells
      ensures chess.Valid() && Value() == old(Value())
      ensures done == if old(done) != NoReason then old(done) else DrawCode(Value())
      ensures old(Fair()) ==> Fair()
    {
      hide StaleMate, Dead, Repetition.Occurrences, Consistent, WinnerOf;
      if done == NoReason {
        var aux := chess.VerifyDraw();
        if aux != 0 {
          if aux == 1 {
            done := DrawRepetition;
          }
          if aux == 2 {
            done := DrawImpossibleMate;
          }
          if aux == 3 {
            done := Draw50Moves;
          }
          if aux == 4 {
            done := Stalemate;
          }
        }
      }
    }

    method RealDone()
      requires chess.Valid()
      modifies this`done, chess.gameboard.cells
      ensures chess.Valid() && Value() == old(Value())
      ensures done == if old(done) != NoReason then old(done) else AfterMove(Value(), autoFlag)
    {
      hide DrawCode, Consistent;
      if done == NoReason {
        var mate := chess.VerifyCheckMate();
        if mate {
          done := if chess.turn == White then BlackMate else WhiteMate;
        } else if autoFlag {
          CheckDraw();
        }
      }
    }

    /** Looks at both flags; a fallen one decides the game, whatever was decided before. */
    method CheckTimeOver(now: int) returns (over: bool)
      modifies this`done, this`timeOver
      ensures over == (FlagCode(clock, chess.turn, now) != NoReason)
      ensures done == AfterLook(old(done), clock, chess.turn, now)
      ensures timeOver ==
        if Fallen(clock, chess.turn, Black, now) then Some(Black)
        else if Fallen(clock, chess.turn, White, now) then Some(White)
        else old(timeOver)
      ensures !over ==> timeOver == old(timeOver)
      ensures !over ==> !Fallen(clock, chess.turn, White, now) && !Fallen(clock, chess.turn, Black, now)
      ensures old(Fair() && done == NoReason) ==> Fair()
    {
      hide WinnerOf;
      var count := 0;
      if clock.turns >= 2 {
        if clock.white + (if chess.turn == White then clock.last - now else 0) <= 0 {
          timeOver := Some(White);
          done := WhiteTimeOver;
          count := count + 1;
        }
        if clock.black + (if chess.turn == Black then clock.last - now else 0) <= 0 {
          timeOver := Some(Black);
          done := BlackTimeOver;
          count := count + 1;
        }
      }
      if count == 2 {
        done := DrawTimeOver;
      }
      over := count > 0;
    }

    // ----- moves -----

    /** A move in a game without clocks. */
    method UntimedMove(player: Color, movement: string) returns (r: MoveAnswer)
      requires chess.Valid()
      modifies this`done, this`history, chess, chess.gameboard.cells
      ensures chess.Valid()
      ensures old(Fair() && done == NoReason) ==> Fair()
      ensures r == UntimedAnswer(old(done), old(Value()), player, movement)
      ensures !r.Moved? ==> Value() == old(Value()) && done == old(done) && history == old(history)
      ensures r.Moved? ==>
        && ValidText(movement) && Value() == MadeBy(old(Value()), movement)
        && history == old(history) + r.written + " " && done == AfterMove(Value(), autoFlag)
    {
      hide AfterMove, Promotes, ValidText, Make, Consistent, Accepts, WinnerOf, Scores, CodeScores;
      if done != NoReason {
        return GameOver;
      }
      if player != chess.turn {
        return WrongTurn;
      }
      ghost var g := Value();
      var ok := chess.VerifyAndMakeMove(movement);
      if !ok {
        return InvalidMove;
      }
      KnownOk(Value(), chess.boards);
      AfterMoveIsFair(Value(), autoFlag);
      RealDone();
      var realmove := movement;
      if chess.pawnPromoted && |movement| < 5 {
        realmove := realmove + "q";
      }
      history := history + realmove + " ";
      r := Moved(realmove);
    }

    /** A move at a given time: refused when a flag has fallen, otherwise made, and the clocks adjusted. */
    method Move(player: Color, movement: string, now: int) returns (r: MoveAnswer)
      requires Valid()
      modifies this, chess, chess.gameboard.cells
      ensures Valid()
      ensures r == if Flagged(old(clock), old(Value()).turn, now) then TimeOver
        else UntimedAnswer(old(done), old(Value()), player, movement)
      ensures r == TimeOver ==> done == FlagCode(old(clock), old(Value()).turn, now)
      ensures !r.Moved? && r != TimeOver ==> done == old(done) && timeOver == old(timeOver)
      ensures !r.Moved? ==> Value() == old(Value()) && clock == old(clock) && entries == old(entries)
      ensures r.Moved? ==>
        && ValidText(movement) && Value() == MadeBy(old(Value()), movement) && done == AfterMove(Value(), autoFlag)
        && clock == NextClock(old(clock), player, now)
        && entries == old(entries) + [Entry(r.written, ShownSeconds(clock.Of(player)))]
      ensures resigned == old(resigned)
      ensures old(Fair() && done == NoReason) ==> Fair()
    {
      hide AfterMove, Written, ValidText, Make, Tells, Played, Replay, Moves, Consistent, Accepts, Start, FlagCode;
      hide NextClock, Fallen;
      if timed && autoFlag {
        var over := CheckTimeOver(now);
        if over {
          return TimeOver;
        }
      }
      r := MakeTheMove(player, movement, now);
    }

    // ----- adjourning -----

    /** The seconds a side has left at `now`; the time of the side to move runs once the clocks count. */
    function SecondsLeft(c: Color, now: int): int
      reads this`clock, chess`turn
    {
      ShownSeconds(clock.Of(c) - if chess.turn == c && Counting(clock) then now - clock.last else 0)
    }

    /** The text of the moves without its last blank, the seconds left, and White's increment; only an
        undecided game can be adjourned. */
    method Adjourn(now: int) returns (adjourned: Option<Adjourned>)
      requires Valid()
      ensures adjourned.Some? <==> done == NoReason
      ensures adjourned.Some? ==>
        && Words(adjourned.value.movetext) == TextWords(timed, entries)
        && adjourned.value.white == SecondsLeft(White, now) && adjourned.value.black == SecondsLeft(Black, now)
        && adjourned.value.inc == ShownSeconds(incWhite)
    {
      hide Words, TextWords, Played, Replay, Moves, Start, Consistent, ShownSeconds;
      if done != NoReason {
        return None;
      }
      var movetext := history;
      if history != "" {
        LastBlank(history);
        movetext := history[..|history| - 1];
      }
      return Some(Adjourned(movetext, SecondsLeft(White, now), SecondsLeft(Black, now), ShownSeconds(incWhite)));
    }

    /** A game that goes on where its move text ends, with the clocks written down and one increment for both. */
    constructor Resume(timed: bool, adjourned: Adjourned, ghost told: seq<Entry>)
      requires Words(adjourned.movetext) == TextWords(timed, told) && Played(Start(), Moves(told))
      ensures Valid() && Value() == Replay(Start(), Moves(told)) && entries == told && done == NoReason
      ensures this.timed == timed && autoFlag && stamps == []
      ensures clock == startClock == NewClock(adjourned.white * ONE_SECOND, adjourned.black * ONE_SECOND)
      ensures incWhite == incBlack == adjourned.inc * ONE_SECOND
      ensures Fair() <==> WinnerOf(Value().board, RightsOf(Value().state)) == None
      ensures fresh(chess) && fresh(chess.gameboard) && fresh(chess.gameboard.cells)
    {
      hide Words, TextWords, Tells, Played, Replay, Moves, Start, Consistent, WinnerOf;
      this.timed, autoFlag := timed, true;
      incWhite, incBlack := adjourned.inc * ONE_SECOND, adjourned.inc * ONE_SECOND;
      done, resigned, timeOver := NoReason, None, None;
      clock := NewClock(adjourned.white * ONE_SECOND, adjourned.black * ONE_SECOND);
      startClock := NewClock(adjourned.white * ONE_SECOND, adjourned.black * ONE_SECOND);
      stamps := [];
      first := Replay(Start(), Moves(told)).turn;
      history := adjourned.movetext + " ";
      entries := told;
      chess := new Chess();
      new;
      ClockedStart(autoFlag, startClock, first, incWhite, incBlack);
      BlankAdded(adjourned.movetext, timed, told);
      InterpretHistoryMoves(chess, timed, history, told);
    }

    /** Calling the flag: both flags are looked at, then a draw is looked for. */
    method CallFlag(now: int)
      requires Valid()
      modifies this`done, this`timeOver, chess.gameboard.cells
      ensures Valid() && Value() == old(Value())
      ensures var seen := if timed then AfterLook(old(done), clock, Value().turn, now) else old(done);
        done == if seen != NoReason then seen else DrawCode(Value())
      ensures resigned == old(resigned) && clock == old(clock)
      ensures timed && Fallen(clock, Value().turn, Black, now) ==> timeOver == Some(Black)
      ensures old(Fair() && done == NoReason) ==> Fair()
    {
      hide Tells, Played, Replay, Moves, FlagCode, DrawCode, Start, Fair, Consistent, Clocked;
      if timed {
        var over := CheckTimeOver(now);
      }
      CheckDraw();
    }

    /** Whether the game is over; with the automatic flag the clocks are looked at first. */
    method Done(now: int) returns (over: bool)
      modifies this`done, this`timeOver
      ensures over == (done != NoReason)
      ensures done ==
        if old(done) == NoReason && timed && autoFlag then FlagCode(clock, chess.turn, now) else old(done)
      ensures old(Fair()) ==> Fair()
    {
      hide FlagCode;
      if timed && done == NoReason && autoFlag {
        var flag := CheckTimeOver(now);
      }
      over := done != NoReason;
    }

    method Resign(player: Color)
      modifies this`done, this`resigned
      ensures done == (if player == White then WhiteResigned else BlackResigned) && resigned == Some(player)
      ensures old(Valid()) ==> Valid()
      ensures old(Fair() && done == NoReason) ==> Fair()
    {
      hide Tells, Played, Replay, Moves, Start, Consistent, WinnerOf;
      resigned := Some(player);
      done := if player == White then WhiteResigned else BlackResigned;
    }

    method AgreeDraw()
      modifies this`done
      ensures done == DrawAgreement
      ensures old(Valid()) ==> Valid()
      ensures chess.gameboard.Valid() ==> Fair()
    {
      hide Tells, Played, Replay, Moves, Start, Consistent, WinnerOf;
      done := DrawAgreement;
    }

    /** The first of the absent players loses. */
    method WalkOver(absent: Color)
      modifies this`done
      ensures done == if absent == White then BlackWo else WhiteWo
      ensures old(Valid()) ==> Valid()
      ensures old(Fair() && done == NoReason) ==> Fair()
    {
      hide Tells, Played, Replay, Moves, Start, Consistent, WinnerOf;
      done := if absent == White then BlackWo else WhiteWo;
    }

    /** The scores of White and Black. */
    method Results() returns (white: Score, black: Score)
      requires Valid()
      modifies chess.gameboard.cells
      ensures Valid() && Value() == old(Value())
      ensures (white, black) == Scores(done, resigned, WinnerOf(Value().board, RightsOf(Value().state)), timeOver)
      ensures old(Fair()) ==> Fair() && (white, black) == CodeScores(done)
    {
      hide Tells, Played, Replay, Moves, Start;
      white, black := NoResult, NoResult;
      if done in {DrawAgreement, DrawRepetition, Draw50Moves, DrawImpossibleMate, DrawTimeOver} {
        white, black := Draw, Draw;
      } else if done != NoReason {
        var winner := chess.Winner();
        var aux := resigned == Some(Black) || winner == Some(White) || timeOver == Some(Black) || done == WhiteWo;
        white := if aux then Win else Lose;
        black := if aux then Lose else Win;
      }
    }

    /** The move itself, its text, and the clock of the player. */
    method MakeTheMove(player: Color, movement: string, now: int) returns (r: MoveAnswer)
      requires Valid()
      requires timed && autoFlag ==> !Fallen(clock, chess.turn, White, now) && !Fallen(clock, chess.turn, Black, now)
      modifies this`done, this`history, this`clock, this`entries, this`stamps, chess, chess.gameboard.cells
      ensures Valid() && r == UntimedAnswer(old(done), old(Value()), player, movement)
      ensures !r.Moved? ==>
        Value() == old(Value()) && clock == old(clock) && entries == old(entries) && done == old(done)
      ensures r.Moved? ==>
        && ValidText(movement) && Value() == MadeBy(old(Value()), movement) && done == AfterMove(Value(), autoFlag)
        && clock == NextClock(old(clock), player, now)
        && entries == old(entries) + [Entry(r.written, ShownSeconds(clock.Of(player)))]
      ensures old(Fair() && done == NoReason) ==> Fair()
    {
      hide AfterMove, Written, ValidText, Make, Tells, Played, Replay, Moves, Ok, Consistent, Accepts, Tick, ShowInt,
        Start, Clocked, Fallen;
      ghost var g, before := Value(), history;
      KnownOk(g, chess.boards);
      TurnPasses(g, movement);
      if timed {
        ClockedMore(autoFlag, startClock, first, incWhite, incBlack, stamps, clock, g.turn, now);
      }
      r := UntimedMove(player, movement);
      if r.Moved? {
        clock := NextClock(clock, player, now);
        var seconds := ShownSeconds(clock.Of(player));
        if timed {
          history := history + ShowInt(seconds) + " ";
        }
        EntryAdded(g, before, timed, entries, movement, seconds);
        entries := entries + [Entry(r.written, seconds)];
        stamps := stamps + [now];
      }
    }

    /** In a timed game the time of the player is counted and the move noted. */
    function NextClock(k: Clock, player: Color, now: int): Clock {
      if timed then Tick(k, player, if player == White then incWhite else incBlack, now) else k
    }

    /** With the automatic flag a fallen flag refuses moves. */
    ghost predicate Flagged(k: Clock, turn: Color, now: int) {
      timed && autoFlag && FlagCode(k, turn, now) != NoReason
    }
  }

  /** White resigns; then Black's flag is called, which has fallen while White's has not. The end is replaced,
      and White has won. */
  method FlagCalledAfterResignation(game: ChessGame, now: int) returns (white: Score, black: Score)
    requires game.Valid() && game.timed && game.done == NoReason
    requires Fallen(game.clock, game.Value().turn, Black, now) && !Fallen(game.clock, game.Value().turn, White, now)
    modifies game`done, game`resigned, game`timeOver, game.chess.gameboard.cells
    ensures game.Valid() && game.resigned == Some(White) && game.done == BlackTimeOver
    ensures (white, black) == (Win, Lose)
  {
    hide Tells, Played, Replay, Moves, Start, Consistent, DrawCode, Fallen, WinnerOf;
    game.Resign(White);
    game.CallFlag(now);
    white, black := game.Results();
  }

  /** Makes the moves of a text; in a timed game every second word is a time and is passed over. */
  method InterpretHistoryMoves(chess: Chess, timed: bool, text: string, ghost told: seq<Entry>)
    requires chess.Valid() && chess.Value() == Start()
    requires Words(text) == TextWords(timed, told) && Played(Start(), Moves(told))
    modifies chess, chess.gameboard.cells
    ensures chess.Valid() && chess.Value() == Replay(Start(), Moves(told))
  {
    hide *;
    var words := Words(text);
    ReachedStart(Moves(told));
    var i := 0;
    ghost var k := 0;
    TextAt(timed, told, k);
    while i < |words|
      invariant k <= |told| && i == (if timed then 2 * k else k)
      invariant chess.Valid() && Reached(chess.Value(), Moves(told), k)
    {
      TextAt(timed, told, k);
      ReachedNext(chess.Value(), Moves(told), k);
      var mv := words[i];
      chess.MakeTextMove(mv);
      i := i + 1;
      if timed {
        i := i + 1;
      }
      k := k + 1;
    }
    ReachedEnd(chess.Value(), Moves(told), k);
  }

  /** A game is where the first `k` moves of a list lead. */
  ghost predicate Reached(g: Game, moves: seq<string>, k: nat) {
    k <= |moves| && AllValid(moves[..k]) && g == Replay(Start(), moves[..k])
  }

  lemma ReachedStart(moves: seq<string>)
    ensures Reached(Start(), moves, 0)
  {
  }

  lemma ReachedNext(g: Game, moves: seq<string>, k: nat)
    requires Played(Start(), moves) && k < |moves| && Reached(g, moves, k)
    ensures Accepts(g, moves[k]) && Reached(Make(g, Parse(g.turn, moves[k])), moves, k + 1)
  {
    hide Accepts, Make, ValidText, Start;
    assert moves[..k + 1][..k] == moves[..k];
  }

  lemma ReachedEnd(g: Game, moves: seq<string>, k: nat)
    requires Reached(g, moves, k) && k >= |moves|
    ensures AllValid(moves) && g == Replay(Start(), moves)
  {
    hide Start, Replay, ValidText;
    assert moves[..k] == moves;
  }

  /** Where the words of entry `k` stand in the text. */
  lemma TextAt(timed: bool, entries: seq<Entry>, k: nat)
    ensures |Moves(entries)| == |entries|
    ensures |TextWords(timed, entries)| == if timed then 2 * |entries| else |entries|
    ensures k < |entries| ==>
      && TextWords(timed, entries)[if timed then 2 * k else k] == entries[k].move == Moves(entries)[k]
      && (timed ==> TextWords(timed, entries)[2 * k + 1] == ShowInt(entries[k].seconds))
  {
  }

  lemma BlankAdded(text: string, timed: bool, entries: seq<Entry>)
    requires Words(text) == TextWords(timed, entries)
    ensures Tells(text + " ", timed, entries) && Words(text + " ") == TextWords(timed, entries)
  {
  }

  /** Adjourning a game and resuming it from its move text gives the same board, turn, rights, counters and
      history; both clocks go on at the seconds shown, and both sides get the increment White had. Each side has its
      own increment back exactly when it is White's shown one. */
  method AdjournAndResume(game: ChessGame, now: int) returns (resumed: Option<ChessGame>)
    requires game.Valid()
    ensures resumed.Some? <==> game.done == NoReason
    ensures resumed.Some? ==>
      && resumed.value.Valid() && resumed.value.Value() == game.Value() && resumed.value.entries == game.entries
      && resumed.value.timed == game.timed
      && resumed.value.clock == NewClock(game.SecondsLeft(White, now) * ONE_SECOND,
        game.SecondsLeft(Black, now) * ONE_SECOND)
      && resumed.value.incWhite == resumed.value.incBlack == ShownSeconds(game.incWhite) * ONE_SECOND
      && (resumed.value.incWhite == game.incWhite <==> game.incWhite == ShownSeconds(game.incWhite) * ONE_SECOND)
      && (resumed.value.incBlack == game.incBlack <==> game.incBlack == ShownSeconds(game.incWhite) * ONE_SECOND)
      && (game.Fair() ==> resumed.value.Fair())
  {
    hide Words, TextWords, Played, Replay, Moves, Start, Tells, ShownSeconds, Consistent, WinnerOf, Scores, CodeScores;
    var adjourned := game.Adjourn(now);
    if adjourned.None? {
      return None;
    }
    var again := new ChessGame.Resume(game.timed, adjourned.value, game.entries);
    return Some(again);
  }

  /** A game with two seconds for each move of White and five for each of Black goes on with two for both. */
  method UnevenIncrements(now: int) returns (game: ChessGame, resumed: ChessGame)
    ensures game.Valid() && game.incWhite == 2 * ONE_SECOND && game.incBlack == 5 * ONE_SECOND
    ensures resumed.Valid() && resumed.incWhite == resumed.incBlack == 2 * ONE_SECOND
  {
    hide Words, TextWords, Played, Replay, Moves, Start, Tells, Consistent, NewClock;
    game := new ChessGame(true, true, 60 * ONE_SECOND, 60 * ONE_SECOND, 2 * ONE_SECOND, 5 * ONE_SECOND);
    var again := AdjournAndResume(game, now);
    resumed := again.value;
  }

  // ----- the history that is shown -----

  /** A state of the game as the history shows it. */
  datatype Shown = Shown(state: State, time: int, move: string)

  /** The states of a game from its move text: the first one, then one after every move. */
  method GenerateHistory(timed: bool, text: string, initialTime: int, ghost told: seq<Entry>)
      returns (shown: seq<Shown>)
    requires Words(text) == TextWords(timed, told) && Played(Start(), Moves(told))
    ensures ShowsAll(shown, timed, initialTime, told, |told|)
  {
    hide *;
    var words := Words(text);
    ReachedStart(Moves(told));
    var chess := new Chess();
    shown := [Shown(chess.state, initialTime, "")];
    StateOfValue(chess);
    ShowsFirst(chess.Value(), chess.state, timed, initialTime, told);
    var newTime := -1;
    var i := 0;
    ghost var k := 0;
    TextAt(timed, told, k);
    while i < |words|
      invariant fresh(chess) && fresh(chess.gameboard.cells)
      invariant k <= |told| && i == (if timed then 2 * k else k) && (!timed ==> newTime == -1)
      invariant chess.Valid() && Reached(chess.Value(), Moves(told), k)
      invariant ShowsAll(shown, timed, initialTime, told, k)
    {
      TextAt(timed, told, k);
      ReachedNext(chess.Value(), Moves(told), k);
      NumberRoundTrip(told[k].seconds);
      var move := words[i];
      chess.MakeTextMove(move);
      i := i + 1;
      if timed {
        newTime := ReadInt(words[i]);
        i := i + 1;
      }
      k := k + 1;
      StateOfValue(chess);
      ShowsNext(shown, chess.Value(), timed, initialTime, told, k);
      shown := shown + [Shown(chess.state, newTime, move)];
    }
  }

  lemma StateOfValue(chess: Chess)
    requires chess.Valid()
    ensures chess.gameboard.Valid() && chess.Value().state == chess.state
  {
  }

  /** State number `n` of the shown history: the one after `n` moves, with the seconds and the text of the last. */
  ghost function ShownAt(timed: bool, initialTime: int, told: seq<Entry>, n: nat): Shown
    requires n <= |told| && AllValid(Moves(told)[..n])
  {
    if n == 0 then Shown(Start().state, initialTime, "")
    else Shown(Replay(Start(), Moves(told)[..n]).state, if timed then told[n - 1].seconds else -1, told[n - 1].move)
  }

  ghost predicate ShowsAll(shown: seq<Shown>, timed: bool, initialTime: int, told: seq<Entry>, k: nat) {
    && k <= |told| && |shown| == k + 1
    && forall n :: 0 <= n <= k ==> AllValid(Moves(told)[..n]) && shown[n] == ShownAt(timed, initialTime, told, n)
  }

  lemma ShowsFirst(g: Game, state: State, timed: bool, initialTime: int, told: seq<Entry>)
    requires g == Start() && state == g.state
    ensures ShowsAll([Shown(state, initialTime, "")], timed, initialTime, told, 0)
  {
  }

  lemma ShowsNext(shown: seq<Shown>, g: Game, timed: bool, initialTime: int, told: seq<Entry>, k: nat)
    requires k > 0 && ShowsAll(shown, timed, initialTime, told, k - 1) && k <= |told| && Reached(g, Moves(told), k)
    ensures ShowsAll(shown + [Shown(g.state, if timed then told[k - 1].seconds else -1, told[k - 1].move)],
      timed, initialTime, told, k)
  {
  }

  /** The state shown after `k` moves is entry `k` of the history kept by the game itself. */
  lemma ShownIsKept(entries: seq<Entry>, k: nat)
    requires Played(Start(), Moves(entries)) && k <= |entries|
    ensures AllValid(Moves(entries)[..k])
    ensures var g := Replay(Start(), Moves(entries));
      |g.history| == |entries| + 1 && g.history[k] == Replay(Start(), Moves(entries)[..k]).state
  {
    StartHistory();
    hide Start, Replay, ValidText;
    HistoryIsReplayed(Start(), Moves(entries), k);
  }

  lemma StartHistory()
    ensures |Start().history| == 1 && Start().history[0] == Start().state
  {
  }

  /** Before the first move the text is empty. */
  lemma NothingTold(timed: bool)
    ensures Tells("", timed, []) && Played(Start(), Moves([])) && Replay(Start(), Moves([])) == Start()
  {
  }

  lemma StartTurn()
    ensures Start().turn == White
  {
  }

  lemma TurnPasses(g: Game, s: string)
    ensures ValidText(s) ==> MadeBy(g, s).turn == Other(g.turn)
  {
  }

  /** Increments that are not negative and some time to begin with. */
  ghost predicate TimeToPlay(game: ChessGame) {
    game.incWhite >= 0 && game.incBlack >= 0 && game.startClock.white > 0 && game.startClock.black > 0
  }

  /** The seconds left are those a move now would leave without its increment; for the other side, those it has. */
  lemma SecondsLeftIs(game: ChessGame, c: Color, now: int)
    requires game.chess.gameboard.Valid()
    ensures game.SecondsLeft(c, now) ==
      ShownSeconds(if c == game.Value().turn then Tick(game.clock, c, 0, now).Of(c) else game.clock.Of(c))
  {
    hide ShownSeconds;
  }

  /** In a timed game both clocks together show the initial times and the credited increments, less the time since
      the second move; with the automatic flag and time to play, both are positive. */
  lemma ClocksOfGame(game: ChessGame)
    requires game.Valid() && game.timed
    ensures game.clock.turns == |game.stamps|
    ensures game.clock.Sum() == game.startClock.Sum()
      + Credited(game.first, game.incWhite, game.incBlack, |game.stamps|)
      - if |game.stamps| > 2 then game.stamps[|game.stamps| - 1] - game.stamps[1] else 0
    ensures game.autoFlag && TimeToPlay(game) ==> game.clock.white > 0 && game.clock.black > 0
  {
    hide Tells, Played, Replay, Moves, Consistent, Start, NoFlagFell, Clocks.Run;
    ClocksConserve(game.startClock, game.first, game.incWhite, game.incBlack, game.stamps);
    if game.autoFlag && TimeToPlay(game) {
      ClocksStayPositive(game.startClock, game.first, game.incWhite, game.incBlack, game.stamps);
    }
  }

  lemma KnownOk(g: Game, boards: seq<Board>)
    requires Consistent(g, boards)
    ensures Ok(g)
  {
  }

  /** One more move is written down and played. */
  lemma EntryAdded(g: Game, text: string, timed: bool, entries: seq<Entry>, movement: string, seconds: int)
    requires Ok(g) && Accepts(g, movement)
    requires Tells(text, timed, entries) && Played(Start(), Moves(entries)) && g == Replay(Start(), Moves(entries))
    ensures ValidText(Written(g, movement))
    ensures var more := entries + [Entry(Written(g, movement), seconds)];
      var t := text + Written(g, movement) + " ";
      && Tells(if timed then t + ShowInt(seconds) + " " else t, timed, more)
      && Played(Start(), Moves(more)) && Replay(Start(), Moves(more)) == MadeBy(g, movement)
  {
    hide Ok, Accepts, Tells, Played, Replay, MadeBy, Written, Start, ShowInt;
    WrittenIsPlayed(g, movement);
    TellsMore(text, timed, entries, Written(g, movement), seconds);
    PlayedMore(Start(), Moves(entries), Written(g, movement));
    assert Moves(entries + [Entry(Written(g, movement), seconds)]) == Moves(entries) + [Written(g, movement)];
  }

  /** Who may move when, and what is written down for it. */
  ghost function UntimedAnswer(done: EndCode, g: Game, player: Color, movement: string): MoveAnswer {
    if done != NoReason then GameOver
    else if player != g.turn then WrongTurn
    else if !Accepts(g, movement) then InvalidMove
    else Moved(Written(g, movement))
  }

  /** A move gets through exactly in an undecided game, from the side to move and if the rules allow it; a decided
      game answers every move in the same way. */
  lemma MovedIff(done: EndCode, g: Game, player: Color, movement: string)
    ensures UntimedAnswer(done, g, player, movement).Moved? <==>
      done == NoReason && player == g.turn && Accepts(g, movement)
    ensures UntimedAnswer(done, g, player, movement) == GameOver <==> done != NoReason
    ensures UntimedAnswer(done, g, player, movement) == WrongTurn <==> done == NoReason && player == Other(g.turn)
  {
  }

  // ----- scores -----

  /** A position the engine calls drawn is scored as a draw unless it is a stalemate: that one is scored
      as a loss for White, whichever side cannot move. */
  lemma DrawnIsScoredDrawUnlessStalemate(g: Game)
    requires Ok(g) && DrawCode(g) != NoReason
    ensures var scores := Scores(DrawCode(g), None, WinnerOf(g.board, RightsOf(g.state)), None);
      && (scores == (Draw, Draw) <==> DrawCode(g) != Stalemate)
      && (DrawCode(g) == Stalemate ==> scores == (Lose, Win))
  {
    hide Sound, Stuck, Repetition.Occurrences, Dead, Placement;
    if DrawCode(g) == Stalemate {
      NoMateInStalemate(g);
    }
  }

  /** In a stalemate nobody is mated. */
  lemma NoMateInStalemate(g: Game)
    requires Ok(g) && StaleMate(g.board, RightsOf(g.state), g.turn)
    ensures WinnerOf(g.board, RightsOf(g.state)) == None
  {
    hide Stuck, Checked;
    OtherNotChecked(g);
    assert g.turn == White || Other(g.turn) == White;
  }

  /** A draw is called by the first of four reasons: three times the same position, mate impossible, fifty half moves
      without a capture or a pawn's move, no move to make. */
  lemma DrawIsCalled(g: Game)
    ensures var thrice := Repetition.Occurrences(g.history, g.state) >= 3;
      && (DrawCode(g) == DrawRepetition <==> thrice)
      && (DrawCode(g) == DrawImpossibleMate <==> !thrice && Dead(g.board))
      && (DrawCode(g) == Draw50Moves <==> !thrice && !Dead(g.board) && g.state.halfmoves >= 50)
      && (DrawCode(g) == NoReason ==> !StaleMate(g.board, RightsOf(g.state), g.turn))
  {
    hide Dead, StaleMate, Repetition.Occurrences;
  }

  /** Right after a move the code tells the scores: only the side to move can be mated, and then the code says so. */
  lemma AfterMoveIsFair(g: Game, autoFlag: bool)
    requires Ok(g)
    ensures var code, winner := AfterMove(g, autoFlag), WinnerOf(g.board, RightsOf(g.state));
      && Scores(code, None, winner, None) == CodeScores(code)
      && (code == NoReason ==> winner == None)
  {
    hide Sound, Stuck, Checked, Repetition.Occurrences, Dead, Placement;
    OtherNotChecked(g);
    if DrawCode(g) == Stalemate {
      NoMateInStalemate(g);
    }
  }

  lemma StartHasNoWinner()
    ensures WinnerOf(Start().board, RightsOf(Start().state)) == None
  {
    hide Sound, Stuck, StartBoard, StartState, StartPlacement;
    StartOk();
    StartIsStart();
    assert IsStart(Start().board);
    StartNobodyChecked(Start().board, RightsOf(Start().state));
  }

  lemma StartNobodyChecked(b: Board, r: Rights)
    requires IsStart(b) && Sound(b, r, White)
    ensures !Checked(b, r, White) && !Checked(b, r, Black)
  {
    StartNoCheck(b, White);
    StartNoCheck(b, Black);
    SoundKings(b, r, White);
    RightsOfSound(b, r, White);
    hide IsStart, Sound, InCheck, Checked, AtMostOneKing, RightsHome, HomeFile;
    HomeFileOfRights(b, r.castle, White);
    HomeFileOfRights(b, r.castle, Black);
    CheckedIsInCheck(b, r, White);
    CheckedIsInCheck(b, r, Black);
  }

  lemma RightsOfSound(b: Board, r: Rights, c: Color)
    requires Sound(b, r, c)
    ensures RightsHome(b, r.castle)
  {
    hide KingsOk, PawnsInside, RightsHome, NoRepeats, EnPassantOk, InCheck;
  }

  lemma OtherNotChecked(g: Game)
    requires Ok(g)
    ensures !Checked(g.board, RightsOf(g.state), Other(g.turn))
  {
    hide PawnsInside, EnPassantOk, NoRepeats;
    HomeFileOfRights(g.board, g.state.castle, g.turn);
    assert Other(Other(g.turn)) == g.turn;
    CheckedIsInCheck(g.board, RightsOf(g.state), Other(g.turn));
  }
}
