/** A stalemate: White's king on h1 and queen on b6, Black's king on a8 and to move. It is scored as a loss for
    White, who has all the force. */
module StalemateExample {
  import opened ChessBoard
  import opened Rules
  import opened Fen
  import opened Game
  import opened Invariant
  import opened Reachable
  import opened Mate
  import opened DeadPosition
  import opened ChessEngine
  import opened ChessGames
  import Repetition

  function CornerPiece(p: Position): Piece {
    if p.x == 7 && p.y == 0 then Man(King, White)
    else if p.x == 1 && p.y == 5 then Man(Queen, White)
    else if p.x == 0 && p.y == 7 then Man(King, Black)
    else NoPiece
  }

  ghost predicate Cornered(b: Board) {
    forall p {:trigger At(b, p)} :: OnBoard(p) ==> At(b, p) == CornerPiece(p)
  }

  function CorneredBoard(): Board {
    seq(64, i requires 0 <= i < 64 => CornerPiece(SquareOf(i)))
  }

  function CorneredState(): State {
    State(Placement(CorneredBoard()), Black, 1, "-", NOWHERE, 0)
  }

  /** Black to move in the corner. */
  function CorneredGame(): Game {
    Game(CorneredBoard(), CorneredState(), Black, [CorneredState()])
  }

  lemma CorneredStands()
    ensures Cornered(CorneredBoard())
  {
    forall p | OnBoard(p)
      ensures At(CorneredBoard(), p) == CornerPiece(p)
    {
      ColumnAndRow(p.x, p.y);
    }
  }

  lemma OneKingEach(b: Board)
    requires Cornered(b)
    ensures AtMostOneKing(b)
    ensures forall p, c :: KingAt(b, p, c) ==> p == if c == White then Position(7, 0) else Position(0, 7)
  {
    forall p, c | KingAt(b, p, c)
      ensures p == if c == White then Position(7, 0) else Position(0, 7)
    {
      assert At(b, p) == CornerPiece(p);
    }
  }

  lemma BothKings(b: Board, w: Position, k: Position)
    requires Cornered(b) && w == Position(7, 0) && k == Position(0, 7)
    ensures KingAt(b, w, White) && KingAt(b, k, Black)
  {
    assert At(b, w) == CornerPiece(w) && At(b, k) == CornerPiece(k);
  }

  /** Nobody attacks a king. */
  lemma NoCheck(b: Board, c: Color)
    requires Cornered(b)
    ensures !InCheck(b, c)
  {
    hide Clear;
    OneKingEach(b);
    forall k, f | KingAt(b, k, c) && OnBoard(f)
      ensures !PlainMove(b, NOWHERE, Move(f, k, Other(c), None))
    {
      assert At(b, f) == CornerPiece(f);
    }
  }

  /** A black move steps to one of the three squares around the corner. */
  lemma StepsOut(b: Board, r: Rights, mv: Move)
    requires Cornered(b) && r.castle == "-" && OnBoard(mv.from) && mv.color == Black && PieceMove(b, r, mv)
    ensures mv.from == Position(0, 7) && OnBoard(mv.to) && mv.to != mv.from
    ensures mv.to.x <= 1 && mv.to.y >= 6
  {
    hide Attacked, RookPath;
    assert At(b, mv.from) == CornerPiece(mv.from);
  }

  /** Wherever it steps, the queen sees it. */
  lemma QueenSees(b: Board, mv: Move, queen: Position)
    requires Cornered(b) && mv.from == Position(0, 7) && mv.color == Black && mv.promo == None
    requires OnBoard(mv.to) && mv.to != mv.from && mv.to.x <= 1 && mv.to.y >= 6 && queen == Position(1, 5)
    ensures KingAt(Apply(b, mv), mv.to, Black)
    ensures PlainMove(Apply(b, mv), NOWHERE, Move(queen, mv.to, White, None))
  {
    var b' := Apply(b, mv);
    forall q | OnBoard(q)
      ensures At(b', q) == if q == mv.to then Man(King, Black) else if q == mv.from then NoPiece else CornerPiece(q)
    {
      ApplyAt(b, mv, q);
      assert At(b, q) == CornerPiece(q) && At(b, mv.from) == CornerPiece(mv.from);
    }
    hide Apply;
    forall k | 1 <= k < Dist(queen, mv.to)
      ensures Vacant(b', Along(queen, mv.to, k))
    {
      assert At(b', Along(queen, mv.to, k)) == NoPiece;
    }
  }

  lemma CorneredSound(b: Board, r: Rights)
    requires Cornered(b) && r == Rights("-", NOWHERE)
    ensures Sound(b, r, Black)
  {
    OneKingEach(b);
    BothKings(b, Position(7, 0), Position(0, 7));
    NoCheck(b, White);
    hide Attacked;
  }

  lemma CorneredStuck(b: Board, r: Rights)
    requires Cornered(b) && r == Rights("-", NOWHERE) && Sound(b, r, Black)
    ensures StaleMate(b, r, Black)
  {
    hide Sound, PieceMove, Apply, InCheck, Checked;
    OneKingEach(b);
    NoCheck(b, Black);
    CheckedIsInCheck(b, r, Black);
    forall p, q | OnBoard(p) && Owned(At(b, p), Black)
      ensures !Legal(b, r, Move(p, q, Black, None))
    {
      var mv := Move(p, q, Black, None);
      if PieceMove(b, r, mv) {
        StepsOut(b, r, mv);
        CheckAfterMove(b, r, mv);
        SeenIsCheck(b, mv, Position(1, 5));
      }
    }
  }

  lemma SeenIsCheck(b: Board, mv: Move, queen: Position)
    requires Cornered(b) && mv.from == Position(0, 7) && mv.color == Black && mv.promo == None
    requires OnBoard(mv.to) && mv.to != mv.from && mv.to.x <= 1 && mv.to.y >= 6 && queen == Position(1, 5)
    ensures InCheck(Apply(b, mv), Black)
  {
    hide Apply, Cornered, PlainMove, KingAt;
    QueenSees(b, mv, queen);
  }

  /** The queen is no minor piece, so mate is not impossible. */
  lemma NotDead(b: Board)
    requires Cornered(b) && Sound(b, Rights("-", NOWHERE), Black)
    ensures !Dead(b)
  {
    var queen := Position(1, 5);
    assert At(b, queen) == CornerPiece(queen);
    if Dead(b) {
      hide Dead, Sound;
      DeadIsBare(b);
    }
  }

  /** A sound game, drawn by stalemate of Black, is scored as a loss for White. */
  lemma StalemateIsScoredAsALoss()
    ensures var g := CorneredGame();
      && Ok(g) && g.turn == Black && DrawCode(g) == Stalemate
      && Scores(DrawCode(g), None, WinnerOf(g.board, RightsOf(g.state)), None) == (Lose, Win)
  {
    hide Sound, Dead, StaleMate, CorneredBoard, Placement, SameState, WinnerOf, Scores;
    var g := CorneredGame();
    CorneredStands();
    CorneredSound(g.board, RightsOf(g.state));
    CorneredStuck(g.board, RightsOf(g.state));
    NotDead(g.board);
    assert g.history[..0] == [];
    assert Repetition.Occurrences(g.history, g.state) <= 1;
    DrawnIsScoredDrawUnlessStalemate(g);
  }
}
