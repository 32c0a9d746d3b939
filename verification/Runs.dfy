/** Properties of every run of calls from the start position. */
module Runs {
  import opened ChessBoard
  import opened Rules
  import opened Fen
  import opened Game
  import opened Invariant
  import opened Reachable

  lemma SoundAfter(b: Board, r: Rights, mv: Move)
    requires Sound(b, r, mv.color) && OnBoard(mv.from) && PromoOk(mv) && Legal(b, r, mv)
    ensures OnBoard(mv.to)
    ensures var b' := Apply(b, mv);
      Sound(b', Rights(KeepRights(r.castle, b', mv), NextEnPassant(b', mv)), Other(mv.color))
  {
    KingsStay(b, r, mv);
    PawnsStay(b, r, mv);
    RightsStay(b, r, mv);
    KeepRightsIs(r.castle, Apply(b, mv), mv);
    EnPassantStays(b, r, mv);
    NoSelfCheck(b, r, mv);
  }

  lemma StepOk(g: Game, s: string)
    requires Ok(g)
    ensures Ok(Step(g, s))
  {
    if Accepts(g, s) {
      var mv := Parse(g.turn, s);
      ParseOk(g.turn, s);
      SoundAfter(g.board, RightsOf(g.state), mv);
    }
  }

  lemma {:induction false} PlayOk(g: Game, texts: seq<string>)
    requires Ok(g)
    ensures Ok(Play(g, texts))
    decreases |texts|
  {
    if texts != [] {
      StepOk(g, texts[0]);
      PlayOk(Step(g, texts[0]), texts[1..]);
    }
  }

  ghost predicate OneKing(b: Board, c: Color) {
    exists k :: KingAt(b, k, c) && forall q :: KingAt(b, q, c) ==> q == k
  }

  lemma SoundMeansOneKing(b: Board, c: Color)
    requires KingsOk(b)
    ensures OneKing(b, c)
  {
  }

  /** Every game reached from the start, by any texts: one king a side, the side that moved last is
      not in check, castling letters vouch for king and rook, no pawn on a last row, and the text
      kept with the state is the text of the board. */
  lemma EveryRunIsSound(texts: seq<string>)
    ensures var g := Play(Start(), texts);
      && Ok(g)
      && OneKing(g.board, White) && OneKing(g.board, Black)
      && !InCheck(g.board, Other(g.turn))
      && PawnsInside(g.board)
      && RightsHome(g.board, g.state.castle)
      && g.state.boardFen == Placement(g.board)
  {
    StartOk();
    PlayOk(Start(), texts);
    SoundMeansOneKing(Play(Start(), texts).board, White);
    SoundMeansOneKing(Play(Start(), texts).board, Black);
  }

  /** A castling right that is gone stays gone. */
  lemma {:induction false} RightsNeverReturn(g: Game, texts: seq<string>, c: Color, side: bool)
    requires Ok(g) && RightLetter(c, side) !in g.state.castle
    ensures RightLetter(c, side) !in Play(g, texts).state.castle
    decreases |texts|
  {
    if texts != [] {
      var s := texts[0];
      if Accepts(g, s) {
        var mv := Parse(g.turn, s);
        ParseOk(g.turn, s);
        KeepRightsIs(g.state.castle, Apply(g.board, mv), mv);
      }
      StepOk(g, s);
      RightsNeverReturn(Step(g, s), texts[1..], c, side);
    }
  }

  /** An accepted en passant capture goes to the recorded square and takes exactly the enemy pawn there. */
  lemma EnPassantTakesOnePawn(b: Board, r: Rights, mv: Move)
    requires Sound(b, r, mv.color) && OnBoard(mv.from) && PromoOk(mv) && Legal(b, r, mv)
    requires OnBoard(mv.to) && IsEnPassant(b, mv)
    ensures mv.to == r.enpassant
    ensures OnBoard(Victim(mv)) && At(b, Victim(mv)) == Man(Pawn, Other(mv.color))
    ensures Apply(b, mv) == Put(Put(Put(b, Victim(mv), NoPiece), mv.from, NoPiece), mv.to, Man(Pawn, mv.color))
  {
    hide KingsOk, PawnsInside, RightsHome, InCheck, Checked;
    NoKingTaken(b, r, mv);
    var b' := Put(Put(Put(b, Victim(mv), NoPiece), mv.from, NoPiece), mv.to, Man(Pawn, mv.color));
    forall i | 0 <= i < 64
      ensures Apply(b, mv)[i] == b'[i]
    {
      ApplyAt(b, mv, SquareOf(i));
      assert Index(SquareOf(i)) == i;
    }
  }

  /** ... and that pawn arrived there with the move before, by a step of two rows. */
  lemma EnPassantAnswersDoubleStep(b: Board, r: Rights, first: Move, reply: Move)
    requires Sound(b, r, first.color) && OnBoard(first.from) && PromoOk(first) && Legal(b, r, first)
    requires OnBoard(first.to) && OnBoard(reply.from) && OnBoard(reply.to)
    requires reply.color == Other(first.color) && PromoOk(reply)
    requires var b' := Apply(b, first);
      var r' := Rights(KeepRights(r.castle, b', first), NextEnPassant(b', first));
      Legal(b', r', reply) && IsEnPassant(b', reply)
    ensures At(b, first.from) == Man(Pawn, first.color) && first.from.x == first.to.x
    ensures Abs(first.to.y - first.from.y) == 2 && Victim(reply) == first.to
  {
    hide Sound, Checked, KeepRights;
    SoundAfter(b, r, first);
    NoKingTaken(b, r, first);
    var b' := Apply(b, first);
    var r' := Rights(KeepRights(r.castle, b', first), NextEnPassant(b', first));
    EnPassantTakesOnePawn(b', r', reply);
    ApplyAt(b, first, first.to);
  }

  /** The square a pawn jumps over is recorded exactly after a double step: the third row after White's, the sixth
      after Black's. Any other move records none. */
  lemma DoubleStepIsRecorded(b: Board, r: Rights, mv: Move)
    requires Sound(b, r, mv.color) && OnBoard(mv.from) && PromoOk(mv) && PieceMove(b, r, mv)
    ensures OnBoard(mv.to)
    ensures var ep := NextEnPassant(Apply(b, mv), mv);
      && (ep != NOWHERE <==> At(b, mv.from).kind == Pawn && Abs(mv.to.y - mv.from.y) == 2)
      && (ep != NOWHERE ==> ep == Position(mv.from.x, if mv.color == White then 2 else 5) && mv.to.x == mv.from.x)
  {
    hide KingsOk, RightsHome, EnPassantOk, InCheck, NoRepeats, Attacked, RookPath, Clear;
    NoKingTaken(b, r, mv);
    ApplyAt(b, mv, mv.to);
    hide Apply;
    if At(b, mv.from).kind == Pawn && Abs(mv.to.y - mv.from.y) == 2 {
      PromotedIsNoDoubleStep(b, r, mv);
    }
  }

  lemma PromotedIsNoDoubleStep(b: Board, r: Rights, mv: Move)
    requires OnBoard(mv.from) && OnBoard(mv.to) && PieceMove(b, r, mv) && At(b, mv.from).Man?
    requires At(b, mv.from).kind == Pawn && Abs(mv.to.y - mv.from.y) == 2
    ensures !Promotes(b, mv) && mv.from.y == (if mv.color == White then 1 else 6) && mv.to.x == mv.from.x
    ensures mv.to.y == if mv.color == White then 3 else 4
  {
    hide Attacked, RookPath, Clear;
  }
}
