/** The mark for mate in the short text of a move can be wrong: it is found with the en passant square there was
    before the move. White's pawn goes b2-b4 and checks the king on a5; Black can only take it en passant. */
module MateMark {
  import opened ChessBoard
  import opened Rules
  import opened Fen
  import opened Game
  import opened Invariant
  import opened Reachable
  import opened Runs
  import opened Mate
  import opened Marks
  import opened ChessEngine

  /** White: king a3, rooks b8 and h6, pawn on `pawn`. Black: king a5, pawn c4. */
  function NetPiece(pawn: Position, p: Position): Piece {
    if p.x == 0 && p.y == 2 then Man(King, White)
    else if p.x == 1 && p.y == 7 then Man(Rook, White)
    else if p.x == 7 && p.y == 5 then Man(Rook, White)
    else if p == pawn then Man(Pawn, White)
    else if p.x == 0 && p.y == 4 then Man(King, Black)
    else if p.x == 2 && p.y == 3 then Man(Pawn, Black)
    else NoPiece
  }

  /** The pawn is still on b2, or has come to b4. */
  ghost predicate Net(b: Board, pawn: Position) {
    && pawn.x == 1 && pawn.y in {1, 3}
    && forall p {:trigger At(b, p)} :: OnBoard(p) ==> At(b, p) == NetPiece(pawn, p)
  }

  function NetBoard(): Board {
    seq(64, i requires 0 <= i < 64 => NetPiece(Position(1, 1), SquareOf(i)))
  }

  function NetState(): State {
    State(Placement(NetBoard()), White, 1, "-", NOWHERE, 0)
  }

  function NetGame(): Game {
    Game(NetBoard(), NetState(), White, [NetState()])
  }

  lemma NetStands(pawn: Position)
    requires pawn == Position(1, 1)
    ensures Net(NetBoard(), pawn)
  {
    forall p | OnBoard(p)
      ensures At(NetBoard(), p) == NetPiece(pawn, p)
    {
      ColumnAndRow(p.x, p.y);
    }
  }

  predicate DoubleStep(mv: Move) {
    mv.from.x == 1 && mv.from.y == 1 && mv.to.x == 1 && mv.to.y == 3 && mv.color == White && mv.promo == None
  }

  lemma NetKings(b: Board, pawn: Position, w: Position, k: Position)
    requires Net(b, pawn) && w.x == 0 && w.y == 2 && k.x == 0 && k.y == 4
    ensures KingsOk(b)
    ensures forall p, c :: KingAt(b, p, c) ==> p == if c == White then w else k
  {
    assert At(b, w) == NetPiece(pawn, w) && At(b, k) == NetPiece(pawn, k);
    assert KingAt(b, w, White) && KingAt(b, k, Black);
    forall p, c | KingAt(b, p, c)
      ensures p == if c == White then w else k
    {
      assert At(b, p) == NetPiece(pawn, p);
    }
  }

  lemma WhiteIsSafe(b: Board, pawn: Position, w: Position, k: Position)
    requires Net(b, pawn) && w.x == 0 && w.y == 2 && k.x == 0 && k.y == 4
    ensures !InCheck(b, White)
  {
    NetKings(b, pawn, w, k);
    hide Clear;
    forall p, f | KingAt(b, p, White) && OnBoard(f)
      ensures !PlainMove(b, NOWHERE, Move(f, p, Black, None))
    {
      assert At(b, f) == NetPiece(pawn, f);
    }
  }

  lemma BlackIsSafeBefore(b: Board, pawn: Position, w: Position, k: Position)
    requires Net(b, pawn) && pawn.y == 1 && w.x == 0 && w.y == 2 && k.x == 0 && k.y == 4
    ensures !InCheck(b, Black)
  {
    NetKings(b, pawn, w, k);
    hide Clear;
    forall p, f | KingAt(b, p, Black) && OnBoard(f)
      ensures !PlainMove(b, NOWHERE, Move(f, p, White, None))
    {
      assert At(b, f) == NetPiece(pawn, f);
    }
  }

  lemma NetPawns(b: Board, pawn: Position)
    requires Net(b, pawn)
    ensures PawnsInside(b)
  {
  }

  lemma NetSound(b: Board, pawn: Position, r: Rights, turn: Color)
    requires Net(b, pawn) && r == Rights("-", NOWHERE) && (turn == White ==> pawn.y == 1)
    ensures Sound(b, r, turn)
  {
    var w, k := Position(0, 2), Position(0, 4);
    NetKings(b, pawn, w, k);
    NetPawns(b, pawn);
    if turn == White {
      BlackIsSafeBefore(b, pawn, w, k);
    } else {
      WhiteIsSafe(b, pawn, w, k);
    }
    hide InCheck, KingsOk, PawnsInside, Net;
  }

  // ----- the move -----

  lemma StepAt(b: Board, mv: Move, pawn: Position, to: Position)
    requires Net(b, pawn) && pawn.y == 1 && DoubleStep(mv) && to == mv.to
    ensures Net(Apply(b, mv), to) && PlainMove(b, NOWHERE, mv)
  {
    var jumped := Position(mv.from.x, mv.from.y + 1);
    assert At(b, mv.from) == NetPiece(pawn, mv.from) && At(b, mv.to) == NetPiece(pawn, mv.to);
    assert At(b, jumped) == NetPiece(pawn, jumped);
    forall p | OnBoard(p)
      ensures At(Apply(b, mv), p) == NetPiece(to, p)
    {
      ApplyAt(b, mv, p);
      assert At(b, p) == NetPiece(pawn, p);
    }
  }

  lemma StepIsLegal(b: Board, mv: Move, pawn: Position, r: Rights)
    requires Net(b, pawn) && pawn.y == 1 && DoubleStep(mv) && r == Rights("-", NOWHERE)
    ensures Sound(b, r, White) && Legal(b, r, mv)
  {
    NetSound(b, pawn, r, White);
    StepAt(b, mv, pawn, mv.to);
    WhiteIsSafe(Apply(b, mv), mv.to, Position(0, 2), Position(0, 4));
    hide Sound, PlainMove, Apply, InCheck, Net, Checked, Castling;
    CheckAfterMove(b, r, mv);
  }

  // ----- the replies -----

  /** Without an en passant square Black has king's steps and one step of the pawn. */
  lemma Replies(b: Board, pawn: Position, r: Rights, m: Move)
    requires Net(b, pawn) && pawn.y == 3 && r == Rights("-", NOWHERE)
    requires OnBoard(m.from) && m.color == Black && m.promo == None && PieceMove(b, r, m)
    ensures OnBoard(m.to) && m.to != m.from && !Special(b, m)
    ensures (m.from.x == 0 && m.from.y == 4 && KingStep(m.from, m.to))
      || (m.from.x == 2 && m.from.y == 3 && m.to.x == 2 && m.to.y == 2)
  {
    hide Attacked, RookPath;
    assert At(b, m.from) == NetPiece(pawn, m.from);
    assert OnBoard(m.to) && At(b, m.to) == NetPiece(pawn, m.to);
  }

  lemma NoSpecialReply(b: Board, pawn: Position, r: Rights, saved: Board)
    requires Net(b, pawn) && pawn.y == 3 && r == Rights("-", NOWHERE)
    ensures Undisturbed(b, saved, r, Black)
  {
    hide Net, PieceMove, Special;
    forall m: Move | OnBoard(m.from) && m.color == Black && m.promo == None && PieceMove(b, r, m)
      ensures OnBoard(m.to) && !Special(b, m)
    {
      Replies(b, pawn, r, m);
    }
  }

  /** The man of White that sees the king after a reply. */
  function Guard(m: Move): Position {
    if m.from.x == 2 then Position(1, 3)
    else if m.to.y == 3 then Position(0, 2)
    else if m.to.x == 1 then Position(1, 7)
    else Position(7, 5)
  }

  lemma ReplyAt(b: Board, pawn: Position, m: Move, q: Position)
    requires Net(b, pawn) && pawn.y == 3 && OnBoard(m.from) && OnBoard(m.to) && m.to != m.from && OnBoard(q)
    requires m.color == Black && m.promo == None && !Special(b, m)
    requires (m.from.x == 0 && m.from.y == 4) || (m.from.x == 2 && m.from.y == 3 && m.to.x == 2 && m.to.y == 2)
    ensures At(Apply(b, m), q) ==
      if q == m.to then NetPiece(pawn, m.from) else if q == m.from then NoPiece else NetPiece(pawn, q)
  {
    ApplyAt(b, m, q);
    assert At(b, q) == NetPiece(pawn, q) && At(b, m.from) == NetPiece(pawn, m.from);
  }

  lemma KingIsSeen(b: Board, pawn: Position, m: Move)
    requires Net(b, pawn) && pawn.y == 3 && OnBoard(m.from) && OnBoard(m.to) && m.to != m.from
    requires m.color == Black && m.promo == None && !Special(b, m)
    requires m.from.x == 0 && m.from.y == 4 && KingStep(m.from, m.to) && At(b, m.to) == NetPiece(pawn, m.to)
    ensures KingAt(Apply(b, m), m.to, Black) && PlainMove(Apply(b, m), NOWHERE, Move(Guard(m), m.to, White, None))
  {
    var b', g := Apply(b, m), Guard(m);
    forall q | OnBoard(q)
      ensures At(b', q) == if q == m.to then Man(King, Black) else if q == m.from then NoPiece else NetPiece(pawn, q)
    {
      ReplyAt(b, pawn, m, q);
    }
    hide Apply, Special, IsCastle, IsEnPassant;
    forall k | 1 <= k < Dist(g, m.to)
      ensures Vacant(b', Along(g, m.to, k))
    {
      assert At(b', Along(g, m.to, k)) == NoPiece;
    }
  }

  lemma PawnStillChecks(b: Board, pawn: Position, m: Move, king: Position)
    requires Net(b, pawn) && pawn.y == 3 && OnBoard(m.from) && OnBoard(m.to) && king.x == 0 && king.y == 4
    requires m.color == Black && m.promo == None && !Special(b, m)
    requires m.from.x == 2 && m.from.y == 3 && m.to.x == 2 && m.to.y == 2
    ensures KingAt(Apply(b, m), king, Black) && PlainMove(Apply(b, m), NOWHERE, Move(pawn, king, White, None))
  {
    ReplyAt(b, pawn, m, king);
    ReplyAt(b, pawn, m, pawn);
    hide Apply;
  }

  lemma SeenMeansCheck(b: Board, king: Position, f: Position)
    requires OnBoard(f) && KingAt(b, king, Black) && PlainMove(b, NOWHERE, Move(f, king, White, None))
    ensures InCheck(b, Black)
  {
    hide PlainMove, KingAt;
  }

  lemma ReplyFails(b: Board, pawn: Position, r: Rights, m: Move)
    requires Net(b, pawn) && pawn.y == 3 && r == Rights("-", NOWHERE) && Sound(b, r, Black)
    requires OnBoard(m.from) && m.color == Black && m.promo == None
    ensures !Legal(b, r, m)
  {
    hide Sound, PieceMove, Apply, Checked, InCheck, PlainMove, KingAt, Special;
    if PieceMove(b, r, m) {
      Replies(b, pawn, r, m);
      CheckAfterMove(b, r, m);
      if m.from.x == 0 {
        KingIsSeen(b, pawn, m);
        SeenMeansCheck(Apply(b, m), m.to, Guard(m));
      } else {
        var king := Position(0, 4);
        PawnStillChecks(b, pawn, m, king);
        SeenMeansCheck(Apply(b, m), king, pawn);
      }
    }
  }

  lemma PawnChecks(b: Board, pawn: Position, king: Position)
    requires Net(b, pawn) && pawn.y == 3 && king.x == 0 && king.y == 4
    ensures InCheck(b, Black)
  {
    assert At(b, pawn) == NetPiece(pawn, pawn) && At(b, king) == NetPiece(pawn, king);
    SeenMeansCheck(b, king, pawn);
  }

  /** Asked with the rights from before the move, Black is mated. */
  lemma MatedByOldRights(b: Board, pawn: Position, r: Rights)
    requires Net(b, pawn) && pawn.y == 3 && r == Rights("-", NOWHERE)
    ensures CheckMate(b, r, Black)
  {
    NetSound(b, pawn, r, Black);
    PawnChecks(b, pawn, Position(0, 4));
    hide Net, InCheck, Checked, Legal, Sound;
    assert AtMostOneKing(b) by {
      NetKings(b, pawn, Position(0, 2), Position(0, 4));
    }
    CheckedIsInCheck(b, r, Black);
    forall p, q | OnBoard(p) && Owned(At(b, p), Black)
      ensures !Legal(b, r, Move(p, q, Black, None))
    {
      ReplyFails(b, pawn, r, Move(p, q, Black, None));
    }
  }

  // ----- the capture en passant -----

  predicate Captures(m: Move) {
    m.from.x == 2 && m.from.y == 3 && m.to.x == 1 && m.to.y == 2 && m.color == Black && m.promo == None
  }

  lemma CaptureSaves(b: Board, pawn: Position, m: Move)
    requires Net(b, pawn) && pawn.y == 3 && Captures(m)
    ensures PlainMove(b, m.to, m) && !InCheck(Apply(b, m), Black)
  {
    assert At(b, m.from) == NetPiece(pawn, m.from) && At(b, m.to) == NetPiece(pawn, m.to);
    var b' := Apply(b, m);
    forall q | OnBoard(q)
      ensures At(b', q) == if q == m.to then Man(Pawn, Black) else if q == m.from || q == pawn then NoPiece
        else NetPiece(pawn, q)
    {
      ApplyAt(b, m, q);
      assert At(b, q) == NetPiece(pawn, q);
    }
    hide Apply, Clear;
    forall k, f | KingAt(b', k, Black) && OnBoard(f)
      ensures !PlainMove(b', NOWHERE, Move(f, k, White, None))
    {
    }
  }

  /** With the en passant square of the move itself Black has that capture. */
  lemma CaptureIsLegal(b: Board, pawn: Position, r: Rights, m: Move)
    requires Net(b, pawn) && pawn.y == 3 && Captures(m) && r.enpassant == m.to && Sound(b, r, Black)
    ensures !CheckMate(b, r, Black)
  {
    CaptureSaves(b, pawn, m);
    assert Owned(At(b, m.from), Black) by {
      assert At(b, m.from) == NetPiece(pawn, m.from);
    }
    hide Net, Sound, InCheck, Apply, PlainMove, Checked, Castling;
    CheckAfterMove(b, r, m);
    assert Legal(b, r, Move(m.from, m.to, At(b, m.from).color, None));
  }

  lemma NextRights(g: Game, mv: Move, pawn: Position)
    requires Net(g.board, pawn) && pawn.y == 1 && DoubleStep(mv) && g.state.castle == "-"
    ensures RightsOf(Make(g, mv).state).enpassant == Position(1, 2)
  {
    StepAt(g.board, mv, pawn, mv.to);
    assert At(Apply(g.board, mv), mv.to) == NetPiece(mv.to, mv.to);
    hide Apply, KeepRights, Placement;
  }

  /** The pawn that has come to b4 gives check and is promoted to nothing. */
  lemma StepShowsCheck(b: Board, mv: Move, king: Position)
    requires Net(b, mv.from) && DoubleStep(mv) && king.x == 0 && king.y == 4
    ensures ShownCheck(b, mv)
  {
    StepAt(b, mv, mv.from, mv.to);
    var b' := Apply(b, mv);
    hide Apply;
    assert At(b', mv.to) == NetPiece(mv.to, mv.to) && At(b', king) == NetPiece(mv.to, king);
    assert Attacks(b, mv, mv.to, king);
  }

  /** In a sound game the marks say check and mate after a legal move that does not mate: the search is not
      disturbed and the side to move has no reply with the rights from before the move, but one with those after. */
  lemma MarkCanBeWrong() returns (g: Game, mv: Move)
    ensures Ok(g) && LegalNow(g, mv) && OnBoard(mv.to) && ShownCheck(g.board, mv)
    ensures !TakesOn(Apply(g.board, mv), g.state.enpassant, Other(g.turn))
    ensures Undisturbed(Apply(g.board, mv), g.board, RightsOf(g.state), Other(g.turn))
    ensures CheckMate(Apply(g.board, mv), RightsOf(g.state), Other(g.turn))
    ensures !CheckMate(Make(g, mv).board, RightsOf(Make(g, mv).state), Make(g, mv).turn)
  {
    hide Net, Sound, Legal, Apply, CheckMate, Undisturbed, NetBoard, Placement, KeepRights, NextEnPassant, DigitSum,
      Captures, ShownCheck;
    g, mv := NetGame(), Move(Position(1, 1), Position(1, 3), White, None);
    var r := RightsOf(g.state);
    NetStands(mv.from);
    StepIsLegal(g.board, mv, mv.from, r);
    StepAt(g.board, mv, mv.from, mv.to);
    StepShowsCheck(g.board, mv, Position(0, 4));
    var b := Apply(g.board, mv);
    NoSpecialReply(b, mv.to, r, g.board);
    MatedByOldRights(b, mv.to, r);
    SoundAfter(g.board, r, mv);
    NextRights(g, mv, mv.from);
    TheCapture();
    CaptureIsLegal(b, mv.to, RightsOf(Make(g, mv).state), Move(Position(2, 3), Position(1, 2), Black, None));
  }

  lemma TheCapture()
    ensures Captures(Move(Position(2, 3), Position(1, 2), Black, None))
  {
  }
}
