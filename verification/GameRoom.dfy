/** A game room: queries of the players, the clock and the server reach it one by one, and it ends once. */
module GameRooms {
  import opened ChessBoard
  import opened Game
  import opened Mate
  import opened Clocks
  import opened Movetext
  import opened ChessEngine
  import opened ChessGames
  import opened MatchDatabases
  import opened Agreement

  /** What a player can send; a move may come without its text. */
  datatype Query =
    | MoveQuery(text: Option<string>) | ResignQuery | StateQuery
    | DrawQuery | DrawDecline | CancelQuery | CancelDecline | AdjournQuery | AdjournDecline

  datatype Reply = Done | NotAcceptable | BadFormat | MoveRefused | GameIsOver

  datatype Reason =
    | ByGame(code: EndCode) | CanceledAgreement | CanceledTimedOut | AdjournedAgreement | AdjournedShutdown

  /** What a room reports when it ends: the scores if the game came to its end, the game if it was adjourned. */
  datatype Ending = Ending(reason: Reason, white: Score, black: Score, adjourned: Option<Adjourned>)

  const FIVE_MINUTES: int := 300 * ONE_SECOND

  /** Every report of an end by the game gives the scores its code stands for; no other report gives any. */
  predicate Reported(endings: seq<Ending>) {
    forall i :: 0 <= i < |endings| ==> (endings[i].white, endings[i].black) == ReasonScores(endings[i].reason)
  }

  function ReasonScores(reason: Reason): (Score, Score) {
    if reason.ByGame? then CodeScores(reason.code) else (NoResult, NoResult)
  }

  class GameRoom {
    const game: ChessGame
    const white: Jid
    const black: Jid
    const agreement: Agreements
    var active: bool
    var moveCount: nat
    var timeout: map<Jid, int>
    /** Everything reported by ending the game, in order. */
    var endings: seq<Ending>
    /** Everything the players have agreed to or declined. */
    ghost var log: seq<Said>

    function ColourOf(player: Jid): Color {
      if player == white then White else Black
    }

    /** What holds also in the midst of an event. */
    ghost predicate Running()
      reads this, game, game.chess, game.chess.gameboard, game.chess.gameboard.cells, agreement
    {
      && game.Valid() && game.Fair() && agreement.Valid() && Reported(endings)
      && white != black && agreement.users == {white, black} && timeout.Keys == {white, black}
      && |endings| == (if active then 0 else 1)
      && forall topic :: agreement.AgreedTo(topic) == Since(log, topic)
    }

    /** What a handler leaves to the look at the clock: no adjournment both want, and a draw both want is in
        the game. */
    ghost predicate Settled()
      reads this`active, this`log, game`done
    {
      active ==> !AllAgree(log, ToAdjourn) && (AllAgree(log, ToDraw) ==> game.done != NoReason)
    }

    /** What holds between events: a room that is active has an undecided game and neither a draw nor an
        adjournment that both want. */
    ghost predicate Valid()
      reads this, game, game.chess, game.chess.gameboard, game.chess.gameboard.cells, agreement
    {
      Running() && Settled() && (active ==> game.done == NoReason)
    }

    /** A room for a game that is about to begin or to go on; both players have five minutes to come. */
    constructor (game: ChessGame, white: Jid, black: Jid, now: int)
      requires game.Valid() && game.Fair() && game.done == NoReason && white != black
      ensures Valid() && active && this.game == game && this.white == white && this.black == black && log == []
      ensures timeout[white] == timeout[black] == now + FIVE_MINUTES
      ensures fresh(agreement)
    {
      hide ChessGame.Fair, CodeScores, Tells, Played, Replay, Moves, Consistent, Since;
      this.game, this.white, this.black := game, white, black;
      active, moveCount, endings, log := true, 0, [], [];
      timeout := map[white := now + FIVE_MINUTES, black := now + FIVE_MINUTES];
      agreement := new Agreements();
      new;
      NothingSaid();
      agreement.Insert(white);
      agreement.Insert(black);
    }

    /** Why the room ended, if it did. */
    ghost function Ended(): Option<Reason>
      reads this`active, this`endings
    {
      if !active && endings != [] then Some(endings[0].reason) else None
    }

    /** What a look at the clock makes of a game that is undecided. */
    ghost function OnTheClock(now: int): EndCode
      reads game, game.chess
    {
      if game.timed && game.autoFlag then FlagCode(game.clock, game.chess.turn, now) else NoReason
    }

    /** The scores the game gives. */
    ghost function GameScores(): (Score, Score)
      requires game.Valid()
      reads game, game.chess, game.chess.gameboard, game.chess.gameboard.cells
    {
      Scores(game.done, game.resigned, WinnerOf(game.Value().board, RightsOf(game.Value().state)), game.timeOver)
    }

    /** What is written down of an adjourned game tells its moves and the seconds left. */
    ghost predicate TellsGame(adjourned: Adjourned, now: int)
      reads game, game.chess
    {
      && Words(adjourned.movetext) == TextWords(game.timed, game.entries)
      && adjourned.white == game.SecondsLeft(White, now) && adjourned.black == game.SecondsLeft(Black, now)
      && adjourned.inc == ShownSeconds(game.incWhite)
    }

    /** Ends the game in this room. */
    method EndGame(reason: Reason, now: int)
      requires Running() && active
      requires reason in {AdjournedAgreement, AdjournedShutdown} ==> game.done == NoReason
      requires reason.ByGame? ==> reason.code == game.done
      modifies this`active, this`endings, game.chess.gameboard.cells
      ensures Running() && !active && game.done == old(game.done) && game.Value() == old(game.Value())
      ensures |endings| == 1 && Ended() == Some(reason)
      ensures (endings[0].white, endings[0].black) == if reason.ByGame? then GameScores() else (NoResult, NoResult)
      ensures reason.ByGame? ==> (endings[0].white, endings[0].black) == CodeScores(reason.code)
      ensures if reason in {AdjournedAgreement, AdjournedShutdown}
        then endings[0].adjourned.Some? && TellsGame(endings[0].adjourned.value, now) else endings[0].adjourned == None
    {
      hide ChessGame.Fair, CodeScores, Tells, Played, Replay, Moves, Consistent, Since;
      active := false;
      var white, black := NoResult, NoResult;
      var adjourned := None;
      if reason.ByGame? {
        white, black := game.Results();
      } else if reason == AdjournedAgreement || reason == AdjournedShutdown {
        adjourned := game.Adjourn(now);
      }
      endings := endings + [Ending(reason, white, black, adjourned)];
    }

    /** Ends the room if the game is over. */
    method CheckDone(now: int)
      requires Running() && Settled() && active
      modifies this`active, this`endings, game`done, game`timeOver, game.chess.gameboard.cells
      ensures Valid() && active == (game.done == NoReason) && game.Value() == old(game.Value())
      ensures !active ==> Ended() == Some(ByGame(game.done))
      ensures game.done == if old(game.done) != NoReason then old(game.done) else OnTheClock(now)
    {
      hide ChessGame.Fair, CodeScores, Tells, Played, Replay, Moves, Consistent, Since;
      var over := game.Done(now);
      if over {
        EndGame(ByGame(game.done), now);
      }
    }

    // ----- the handlers of the queries; only players of an active room get here -----

    /** Notes an agreement. */
    method Note(topic: Topic, sender: Jid) returns (isNew: bool)
      requires Running() && sender in agreement.users
      modifies this`log, agreement`agreements
      ensures Running() && log == old(log) + [Agrees(topic, sender)]
      ensures isNew == (sender !in Since(old(log), topic))
    {
      hide ChessGame.Fair, CodeScores, Tells, Played, Replay, Moves, Consistent, Since;
      SinceMoreAll(log, Agrees(topic, sender));
      isNew := agreement.Agreed(topic, sender);
      log := log + [Agrees(topic, sender)];
    }

    /** Starts over with an agreement. */
    method Forget(topic: Topic)
      requires Running()
      modifies this`log, agreement`agreements
      ensures Running() && log == old(log) + [Declines(topic)]
    {
      hide ChessGame.Fair, CodeScores, Tells, Played, Replay, Moves, Consistent, Since;
      SinceMoreAll(log, Declines(topic));
      agreement.Clear(topic);
      log := log + [Declines(topic)];
    }

    /** Everybody has agreed since the last decline. */
    ghost predicate AllAgree(log: seq<Said>, topic: Topic) {
      Since(log, topic) == {white, black}
    }

    /** The reply a move gets: a fallen flag comes first, then the turn, then the rules. */
    ghost function MoveReply(player: Color, text: Option<string>, now: int): Reply
      requires game.chess.gameboard.Valid()
      reads game, game.chess, game.chess.gameboard, game.chess.gameboard.cells
    {
      if text.None? then BadFormat
      else if OnTheClock(now) != NoReason then GameIsOver
      else if player == game.Value().turn && Accepts(game.Value(), text.value) then Done
      else MoveRefused
    }

    /** The move in the game: made, refused because a flag has fallen, or refused without a trace. */
    method TryMove(player: Color, text: string, now: int) returns (answer: MoveAnswer)
      requires game.Valid() && game.Fair() && game.done == NoReason
      modifies game, game.chess, game.chess.gameboard.cells
      ensures game.Valid() && game.Fair()
      ensures answer.Moved? <==> old(MoveReply(player, Some(text), now)) == Done
      ensures answer == TimeOver <==> old(MoveReply(player, Some(text), now)) == GameIsOver
      ensures answer == TimeOver ==> game.done == old(OnTheClock(now)) != NoReason
      ensures !answer.Moved? && answer != TimeOver ==> game.done == NoReason
      ensures game.Value() == if answer.Moved? then Step(old(game.Value()), text) else old(game.Value())
      ensures answer.Moved? ==> game.done == AfterMove(game.Value(), game.autoFlag)
      ensures !answer.Moved? ==> game.clock == old(game.clock)
    {
      hide ChessGame.Fair, CodeScores, Tells, Played, Replay, Moves, Consistent, Accepts, DrawCode, Written, FlagCode;
      answer := game.Move(player, text, now);
    }

    method HandleMove(sender: Jid, text: Option<string>, now: int) returns (r: Reply)
      requires Valid() && active && sender in agreement.users
      modifies this, game, game.chess, game.chess.gameboard.cells, agreement`agreements
      ensures Running() && r == old(MoveReply(ColourOf(sender), text, now))
      ensures game.Value() == if r == Done then Step(old(game.Value()), text.value) else old(game.Value())
      ensures Ended() == if r == GameIsOver then Some(ByGame(OnTheClock(now))) else None
      ensures r == Done ==> game.done == AfterMove(game.Value(), game.autoFlag)
      ensures r in {BadFormat, MoveRefused} ==> game.done == NoReason
      ensures log == old(log) + SaidBy(MoveQuery(text), sender, r)
      ensures moveCount == old(moveCount) + if r == Done then 1 else 0
    {
      hide ChessGame.Fair, CodeScores, Tells, Played, Replay, Moves, Consistent, Since, Accepts, Step, FlagCode,
        AfterMove, Clocked, GameScores;
      if text.None? {
        return BadFormat;
      }
      var answer := TryMove(ColourOf(sender), text.value, now);
      match answer {
        case Moved(_) =>
          moveCount := moveCount + 1;
          var isNew := Note(ToMove, sender);
          r := Done;
        case TimeOver =>
          EndGame(ByGame(game.done), now);
          r := GameIsOver;
        case _ =>
          r := MoveRefused;
      }
    }

    method HandleDrawAccept(sender: Jid)
      requires Valid() && active && sender in agreement.users
      modifies this`log, agreement`agreements, game`done
      ensures Running() && active && log == old(log) + [Agrees(ToDraw, sender)] && game.Value() == old(game.Value())
      ensures game.done == if AllAgree(log, ToDraw) then DrawAgreement else NoReason
    {
      hide ChessGame.Fair, CodeScores, Tells, Played, Replay, Moves, Consistent, Since, Clocked, GameScores, Accepts;
      var isNew := Note(ToDraw, sender);
      var left := agreement.LeftCount(ToDraw);
      if left == 0 {
        game.AgreeDraw();
      }
    }

    method HandleCancelAccept(sender: Jid, now: int)
      requires Valid() && active && sender in agreement.users
      modifies this`log, this`active, this`endings, agreement`agreements, game.chess.gameboard.cells
      ensures Running() && log == old(log) + [Agrees(ToCancel, sender)] && game.done == NoReason
      ensures game.Value() == old(game.Value())
      ensures Ended() == if sender !in Since(old(log), ToCancel) && (AllAgree(log, ToCancel) || !AllAgree(log, ToMove))
        then Some(CanceledAgreement) else None
    {
      hide ChessGame.Fair, CodeScores, Tells, Played, Replay, Moves, Consistent, Since, Clocked, GameScores, Accepts;
      var isNew := Note(ToCancel, sender);
      if isNew {
        var left := agreement.LeftCount(ToCancel);
        var unmoved := agreement.LeftCount(ToMove);
        if left == 0 || unmoved > 0 {
          EndGame(CanceledAgreement, now);
        }
      }
    }

    method HandleAdjournAccept(sender: Jid, now: int)
      requires Valid() && active && sender in agreement.users
      modifies this`log, this`active, this`endings, agreement`agreements, game.chess.gameboard.cells
      ensures Running() && log == old(log) + [Agrees(ToAdjourn, sender)] && game.done == NoReason
      ensures game.Value() == old(game.Value())
      ensures Ended() == if AllAgree(log, ToAdjourn) then Some(AdjournedAgreement) else None
    {
      hide ChessGame.Fair, CodeScores, Tells, Played, Replay, Moves, Consistent, Since, Clocked, GameScores, Accepts;
      var isNew := Note(ToAdjourn, sender);
      var left := agreement.LeftCount(ToAdjourn);
      if left == 0 {
        EndGame(AdjournedAgreement, now);
      }
    }

    // ----- the events of a room -----

    /** A query gets as far as its handler. */
    predicate Admits(sender: Jid, occupant: bool, q: Query)
      reads this`active
    {
      active && occupant && sender in {white, black} && q != StateQuery
    }

    /** The answer to a query: only moves are refused once a query got as far as its handler. */
    ghost function ReplyTo(sender: Jid, occupant: bool, q: Query, now: int): Reply
      requires game.chess.gameboard.Valid()
      reads this`active, game, game.chess, game.chess.gameboard, game.chess.gameboard.cells
    {
      if occupant && q == StateQuery then Done
      else if !Admits(sender, occupant, q) then NotAcceptable
      else if q.MoveQuery? then MoveReply(ColourOf(sender), q.text, now)
      else Done
    }

    /** An end that a handler brings about by itself: an agreement, or a move that comes too late. */
    ghost function AtOnce(sender: Jid, q: Query, r: Reply, before: seq<Said>, log: seq<Said>,
        onTheClock: EndCode): Option<Reason> {
      if r == GameIsOver then Some(ByGame(onTheClock))
      else if q == AdjournQuery && AllAgree(log, ToAdjourn) then Some(AdjournedAgreement)
      else if q == CancelQuery && sender !in Since(before, ToCancel)
          && (AllAgree(log, ToCancel) || !AllAgree(log, ToMove))
      then Some(CanceledAgreement)
      else None
    }

    /** What a query decides in the game: a resignation, a draw both agree to, or the end a move leads to. */
    ghost function Decided(sender: Jid, q: Query, r: Reply, log: seq<Said>, g: Game): EndCode {
      if q.MoveQuery? && r == Done then AfterMove(g, game.autoFlag)
      else if q == ResignQuery then if sender == white then WhiteResigned else BlackResigned
      else if q == DrawQuery && AllAgree(log, ToDraw) then DrawAgreement
      else NoReason
    }

    /** Whether and why the room has ended after a query that got to its handler. */
    ghost function EndOf(sender: Jid, q: Query, r: Reply, before: seq<Said>, log: seq<Said>, g: Game,
        onTheClock: EndCode): Option<Reason> {
      var end, code := AtOnce(sender, q, r, before, log, onTheClock), Decided(sender, q, r, log, g);
      if end.Some? || r != Done then end
      else if code != NoReason then Some(ByGame(code))
      else if onTheClock != NoReason then Some(ByGame(onTheClock))
      else None
    }

    /** A query ends the room by draw, adjournment or cancellation exactly when it completes the agreement. */
    lemma EndsByAgreement(sender: Jid, q: Query, r: Reply, before: seq<Said>, log: seq<Said>, g: Game,
        onTheClock: EndCode)
      requires onTheClock in {NoReason, WhiteTimeOver, BlackTimeOver, DrawTimeOver}
      requires r == Done || q.MoveQuery?
      ensures var end := EndOf(sender, q, r, before, log, g, onTheClock);
        && (end == Some(ByGame(DrawAgreement)) <==> q == DrawQuery && AllAgree(log, ToDraw))
        && (end == Some(AdjournedAgreement) <==> q == AdjournQuery && AllAgree(log, ToAdjourn))
        && (end == Some(CanceledAgreement) <==>
             q == CancelQuery && sender !in Since(before, ToCancel)
                 && (AllAgree(log, ToCancel) || !AllAgree(log, ToMove)))
    {
      hide Since, AfterMove;
      NoMoveAgrees(g, game.autoFlag);
    }

    /** Who resigns loses, whatever the clock says by then. */
    lemma ResignerLoses(sender: Jid, before: seq<Said>, log: seq<Said>, g: Game, onTheClock: EndCode)
      requires white != black && sender in {white, black}
      ensures var end := EndOf(sender, ResignQuery, Done, before, log, g, onTheClock);
        end.Some? && ReasonScores(end.value) == if sender == white then (Lose, Win) else (Win, Lose)
    {
    }

    /** A move that mates wins for the mover, and a move that comes after a flag has fallen ends the game as the
        flags say. */
    lemma MoveEnds(sender: Jid, text: Option<string>, before: seq<Said>, log: seq<Said>, g: Game, onTheClock: EndCode)
      requires white != black && sender in {white, black}
      ensures CheckMate(g.board, RightsOf(g.state), g.turn) && g.turn == Other(ColourOf(sender)) ==>
        var end := EndOf(sender, MoveQuery(text), Done, before, log, g, onTheClock);
        end.Some? && ReasonScores(end.value) == if sender == white then (Win, Lose) else (Lose, Win)
      ensures EndOf(sender, MoveQuery(text), GameIsOver, before, log, g, onTheClock) == Some(ByGame(onTheClock))
      ensures EndOf(sender, MoveQuery(text), MoveRefused, before, log, g, onTheClock) == None
      ensures EndOf(sender, MoveQuery(text), BadFormat, before, log, g, onTheClock) == None
    {
      hide CheckMate, DrawCode;
    }

    /** A query that decides nothing ends the room exactly when by then a flag has fallen. */
    lemma ClockEnds(sender: Jid, q: Query, before: seq<Said>, log: seq<Said>, g: Game, onTheClock: EndCode)
      requires q.MoveQuery? ==> AfterMove(g, game.autoFlag) == NoReason
      requires q != ResignQuery && (q == DrawQuery ==> !AllAgree(log, ToDraw))
      requires q == AdjournQuery ==> !AllAgree(log, ToAdjourn)
      requires q == CancelQuery ==>
        sender in Since(before, ToCancel) || (!AllAgree(log, ToCancel) && AllAgree(log, ToMove))
      ensures EndOf(sender, q, Done, before, log, g, onTheClock)
        == if onTheClock == NoReason then None else Some(ByGame(onTheClock))
    {
      hide Since, AfterMove;
    }

    /** Only occupants get an answer, and of a game under way only its players; a move is carried out exactly when no
        flag has fallen, it is the player's turn and the rules allow it. */
    lemma RepliesMean(sender: Jid, occupant: bool, q: Query, now: int)
      requires game.chess.gameboard.Valid() && white != black
      ensures ReplyTo(sender, occupant, q, now) == NotAcceptable <==>
        !occupant || (q != StateQuery && (!active || (sender != white && sender != black)))
      ensures q.MoveQuery? ==> (ReplyTo(sender, occupant, q, now) == Done <==>
        && occupant && active && q.text.Some? && OnTheClock(now) == NoReason && Accepts(game.Value(), q.text.value)
        && sender == if game.Value().turn == White then white else black)
      ensures !q.MoveQuery? ==> ReplyTo(sender, occupant, q, now) in {Done, NotAcceptable}
      ensures ReplyTo(sender, occupant, q, now) == BadFormat <==>
        occupant && active && sender in {white, black} && q == MoveQuery(None)
    {
      hide Accepts;
    }

    /** A query by anybody. Only players of a game under way get as far as the handlers. */
    method HandleGameIq(sender: Jid, occupant: bool, q: Query, now: int) returns (r: Reply)
      requires Valid()
      modifies this, game, game.chess, game.chess.gameboard.cells, agreement`agreements
      ensures Valid() && |endings| <= 1 && r == old(ReplyTo(sender, occupant, q, now))
      ensures active ==> old(active)
      ensures game.Value() == AfterQuery(old(game.Value()), q, r)
      ensures old(Admits(sender, occupant, q)) ==>
        && log == old(log) + SaidBy(q, sender, r)
        && Ended() == EndOf(sender, q, r, old(log), log, game.Value(), OnTheClock(now))
      ensures !old(Admits(sender, occupant, q)) ==>
        log == old(log) && active == old(active) && endings == old(endings) && game.done == old(game.done)
    {
      hide ChessGame.Fair, CodeScores, Tells, Played, Replay, Moves, Consistent, Since, Step, FlagCode, MoveReply,
        SaidBy, EndOf;
      if !occupant {
        return NotAcceptable;
      }
      if q == StateQuery {
        return Done;
      }
      if sender !in {white, black} {
        return NotAcceptable;
      }
      if !active {
        return NotAcceptable;
      }
      r := Treat(sender, q, now);
    }

    /** A query of a player. Moves that fail are answered at once; after any other query the clock is looked at. */
    method Treat(sender: Jid, q: Query, now: int) returns (r: Reply)
      requires Valid() && active && sender in {white, black} && q != StateQuery
      modifies this, game, game.chess, game.chess.gameboard.cells, agreement`agreements
      ensures Valid() && |endings| <= 1
      ensures r == if q.MoveQuery? then old(MoveReply(ColourOf(sender), q.text, now)) else Done
      ensures game.Value() == AfterQuery(old(game.Value()), q, r)
      ensures log == old(log) + SaidBy(q, sender, r)
      ensures Ended() == EndOf(sender, q, r, old(log), log, game.Value(), OnTheClock(now))
    {
      hide ChessGame.Fair, CodeScores, Tells, Played, Replay, Moves, Consistent, Since, Step, Accepts, FlagCode,
        MoveReply, AfterQuery, SaidBy,
        AtOnce, Decided;
      r := Dispatch(sender, q, now);
      if r == Done && active {
        CheckDone(now);
      }
    }

    /** Calls the handler of a query. */
    method Dispatch(sender: Jid, q: Query, now: int) returns (r: Reply)
      requires Valid() && active && sender in {white, black} && q != StateQuery
      modifies this, game, game.chess, game.chess.gameboard.cells, agreement`agreements
      ensures Running() && Settled() && (active && r != Done ==> game.done == NoReason)
      ensures r == if q.MoveQuery? then old(MoveReply(ColourOf(sender), q.text, now)) else Done
      ensures game.Value() == AfterQuery(old(game.Value()), q, r)
      ensures log == old(log) + SaidBy(q, sender, r)
      ensures Ended() == AtOnce(sender, q, r, old(log), log, OnTheClock(now))
      ensures active ==> game.done == Decided(sender, q, r, log, game.Value())
    {
      hide ChessGame.Fair, CodeScores, Tells, Played, Replay, Moves, Consistent, Since, Step, Accepts, FlagCode,
        AfterMove, Clocked, GameScores;
      r := Done;
      match q {
        case MoveQuery(text) => r := HandleMove(sender, text, now);
        case ResignQuery => game.Resign(ColourOf(sender));
        case DrawQuery => HandleDrawAccept(sender);
        case DrawDecline => Forget(ToDraw);
        case CancelQuery => HandleCancelAccept(sender, now);
        case CancelDecline => Forget(ToCancel);
        case AdjournQuery => HandleAdjournAccept(sender, now);
        case AdjournDecline => Forget(ToAdjourn);
      }
      StillOpen(old(log), q, sender, r);
    }

    /** A query completes no agreement but its own. */
    lemma StillOpen(before: seq<Said>, q: Query, sender: Jid, r: Reply)
      ensures var log := before + SaidBy(q, sender, r);
        && (AllAgree(log, ToDraw) ==> AllAgree(before, ToDraw) || q == DrawQuery)
        && (AllAgree(log, ToAdjourn) ==> AllAgree(before, ToAdjourn) || q == AdjournQuery)
    {
      hide Since;
      if SaidBy(q, sender, r) == [] {
        assert before + [] == before;
      } else {
        SinceMoreAll(before, SaidBy(q, sender, r)[0]);
        assert SaidBy(q, sender, r) == [SaidBy(q, sender, r)[0]];
      }
    }

    /** A room has reported its end exactly when it is not active. */
    lemma ReportedOnce()
      requires Valid()
      ensures |endings| == if active then 0 else 1
    {
    }

    /** So as long as a room is active the players have agreed neither on a draw nor on an adjournment. */
    lemma ActiveMeansNothingAgreed()
      requires Valid() && active
      ensures game.done == NoReason && !AllAgree(log, ToDraw) && !AllAgree(log, ToAdjourn)
    {
    }

    /** The periodic look at the clock and at players who are away. The answer says whether the room can go. */
    method CheckTime(gameTime: int, now: int, occupants: nat) returns (close: bool)
      requires Valid()
      modifies this`active, this`endings, game`done, game`timeOver, game.chess.gameboard.cells
      ensures Valid() && |endings| <= 1 && close == (!active && occupants == 0) && game.Value() == old(game.Value())
      ensures active ==> old(active)
      ensures !old(active) ==> endings == old(endings) && game.done == old(game.done)
      ensures old(active) ==>
        if old(OnTheClock(gameTime)) != NoReason then Ended() == Some(ByGame(old(OnTheClock(gameTime))))
        else if timeout[white] >= now && timeout[black] >= now then active
        else if timeout[white] == timeout[black] then Ended() == Some(CanceledTimedOut)
        else Ended() == Some(ByGame(if timeout[white] < timeout[black] then BlackWo else WhiteWo))
    {
      hide ChessGame.Fair, CodeScores, Tells, Played, Replay, Moves, Consistent, Since, FlagCode, Clocked, GameScores,
        TellsGame, Accepts;
      if active {
        CheckDone(gameTime);
      }
      if active {
        var first := if timeout[white] <= timeout[black] then timeout[white] else timeout[black];
        if first < now {
          if timeout[white] == timeout[black] {
            EndGame(CanceledTimedOut, gameTime);
          } else {
            game.WalkOver(if timeout[white] == first then White else Black);
            EndGame(ByGame(game.done), gameTime);
          }
        }
      }
      close := !active && occupants == 0;
    }

    /** The server shuts down: a game under way is adjourned. */
    method OnStop(now: int)
      requires Valid()
      modifies this`active, this`endings, game.chess.gameboard.cells
      ensures Valid() && !active && |endings| == 1
      ensures old(active) ==> Ended() == Some(AdjournedShutdown)
      ensures !old(active) ==> endings == old(endings)
    {
      hide ChessGame.Fair, CodeScores, Tells, Played, Replay, Moves, Consistent, Since;
      if active {
        EndGame(AdjournedShutdown, now);
      }
    }

    /** A player comes in or goes out. */
    method NotifyUserStatus(user: Jid, available: bool, now: int)
      requires Valid()
      modifies this`timeout
      ensures Valid() && active == old(active) && endings == old(endings)
      ensures timeout == if user in {white, black}
        then old(timeout)[user := now + if available then 3600000000 * ONE_SECOND else FIVE_MINUTES] else old(timeout)
    {
      hide ChessGame.Fair, CodeScores, Tells, Played, Replay, Moves, Consistent, Since;
      if user in {white, black} {
        timeout := timeout[user := now + if available then 3600000000 * ONE_SECOND else FIVE_MINUTES];
      }
    }
  }

  /** The game after a query: only a move that is answered with success changes it. */
  ghost function AfterQuery(g: Game, q: Query, r: Reply): Game {
    match q
    case MoveQuery(Some(text)) => if r == Done then Step(g, text) else g
    case _ => g
  }

  /** What a query adds to the log. */
  function SaidBy(q: Query, sender: Jid, r: Reply): seq<Said> {
    match q
    case MoveQuery(_) => if r == Done then [Agrees(ToMove, sender)] else []
    case DrawQuery => [Agrees(ToDraw, sender)]
    case DrawDecline => [Declines(ToDraw)]
    case CancelQuery => [Agrees(ToCancel, sender)]
    case CancelDecline => [Declines(ToCancel)]
    case AdjournQuery => [Agrees(ToAdjourn, sender)]
    case AdjournDecline => [Declines(ToAdjourn)]
    case _ => []
  }

  lemma NoMoveAgrees(g: Game, autoFlag: bool)
    ensures AfterMove(g, autoFlag) != DrawAgreement
  {
    hide DrawCode;
  }

  lemma NothingSaid()
    ensures forall topic :: Since([], topic) == {}
  {
  }

  lemma SinceMoreAll(log: seq<Said>, said: Said)
    ensures forall topic :: Since(log + [said], topic) == Next(Since(log, topic), said, topic)
  {
  }

  /** Only a query for a topic changes who agrees to it: asking adds the sender, declining starts over, and every move
      carried out agrees to having moved. */
  lemma ConsentChanges(log: seq<Said>, q: Query, sender: Jid, r: Reply)
    ensures var after := log + SaidBy(q, sender, r);
      && Since(after, ToDraw) ==
           (if q == DrawQuery then Since(log, ToDraw) + {sender} else if q == DrawDecline then {}
               else Since(log, ToDraw))
      && Since(after, ToCancel) == (if q == CancelQuery then Since(log, ToCancel) + {sender}
           else if q == CancelDecline then {} else Since(log, ToCancel))
      && Since(after, ToAdjourn) == (if q == AdjournQuery then Since(log, ToAdjourn) + {sender}
           else if q == AdjournDecline then {} else Since(log, ToAdjourn))
      && Since(after, ToMove) == (if q.MoveQuery? && r == Done then Since(log, ToMove) + {sender}
        else Since(log, ToMove))
  {
    hide Since;
    if SaidBy(q, sender, r) == [] {
      assert log + [] == log;
    } else {
      var said := SaidBy(q, sender, r)[0];
      assert SaidBy(q, sender, r) == [said];
      SinceMore(log, said, ToDraw);
      SinceMore(log, said, ToCancel);
      SinceMore(log, said, ToAdjourn);
      SinceMore(log, said, ToMove);
    }
  }

  /** Only a move that is carried out changes the position, and it does so by the rules. */
  lemma OnlyMovesPlay(g: Game, q: Query, r: Reply)
    ensures AfterQuery(g, q, r) != g ==> q.MoveQuery? && q.text.Some? && r == Done && Accepts(g, q.text.value)
    ensures q.MoveQuery? && q.text.Some? && r == Done && Accepts(g, q.text.value) ==>
      AfterQuery(g, q, r) == Make(g, Parse(g.turn, q.text.value))
  {
    hide Accepts, Make;
  }

  /** Both players have five minutes to come: as long as neither has come, a check ends the room for a fallen flag, or
      when that time is over. */
  method FirstCheck(game: ChessGame, white: Jid, black: Jid, start: int, gameTime: int, now: int, occupants: nat)
      returns (room: GameRoom, close: bool)
    requires game.Valid() && game.Fair() && game.done == NoReason && white != black
    modifies game`done, game`timeOver, game.chess.gameboard.cells
    ensures room.Valid() && room.game == game
    ensures old(game.timed && game.autoFlag && FlagCode(game.clock, game.chess.turn, gameTime) != NoReason)
      ==> !room.active
    ensures old(!game.timed || !game.autoFlag || FlagCode(game.clock, game.chess.turn, gameTime) == NoReason)
      ==> (room.active <==> now <= start + 300000000000)
  {
    hide ChessGame.Fair, ChessGame.Valid, CodeScores, Since, FlagCode, GameRoom.GameScores, GameRoom.TellsGame;
    room := new GameRoom(game, white, black, start);
    close := room.CheckTime(gameTime, now, occupants);
  }
}
