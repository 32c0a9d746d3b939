/** Where the engine's rules are not those of chess: what it does instead, shown at positions. */
module AsWritten {
  import opened ChessBoard
  import opened Rules
  import opened Fen
  import opened Game
  import opened Invariant
  import opened Reachable
  import opened Mate
  import Repetition

  // ----- the counter of half moves -----

  /** A pawn that is promoted goes straight or takes something, but never en passant. */
  lemma PromotionIsNotEnPassant(b: Board, r: Rights, mv: Move)
    requires EnPassantOk(b, mv.color, r.enpassant) && OnBoard(mv.from) && PieceMove(b, r, mv) && Promotes(b, mv)
    ensures OnBoard(mv.to) && !IsEnPassant(b, mv)
  {
    hide Attacked, RookPath;
  }

  lemma PromotionEmpties(b: Board, mv: Move)
    requires OnBoard(mv.from) && OnBoard(mv.to) && mv.from != mv.to && PromoOk(mv)
    requires Promotes(b, mv) && !IsEnPassant(b, mv)
    ensures Empties(Apply(b, mv)) == Empties(b) + if At(b, mv.to).Man? then 1 else 0
    ensures At(Apply(b, mv), mv.to) == Promotion(mv)
  {
    Repetition.ShiftCounts(b, mv.from, mv.to);
    Repetition.PutCounts(Shift(b, mv.from, mv.to), mv.to, Promotion(mv));
    ApplyAt(b, mv, mv.to);
  }

  lemma PawnArrived(b: Board, r: Rights, mv: Move)
    requires OnBoard(mv.from) && OnBoard(mv.to) && mv.from != mv.to && At(b, mv.from) == Man(Pawn, mv.color)
      && !Promotes(b, mv)
    ensures At(Apply(b, mv), mv.to) == Man(Pawn, mv.color)
  {
    ApplyAt(b, mv, mv.to);
  }

  /** A pawn's move starts the counter of half moves anew, except a promotion that takes nothing: that one counts
      like the move of any other man. */
  lemma QuietPromotionCounts(g: Game, s: string)
    requires Ok(g) && Accepts(g, s) && At(g.board, Parse(g.turn, s).from).kind == Pawn
    ensures var mv := Parse(g.turn, s);
      Step(g, s).state.halfmoves ==
        if Promotes(g.board, mv) && At(g.board, mv.to) == NoPiece then g.state.halfmoves + 1 else 0
  {
    var b, r, mv := g.board, RightsOf(g.state), Parse(g.turn, s);
    ParseOk(g.turn, s);
    MoveIsPlayable(b, r, mv);
    PlacementDigits(b);
    PlacementDigits(Apply(b, mv));
    hide Apply, Placement, PieceMove, Checked, PromoOk, KindOfChar;
    if Promotes(b, mv) {
      PromotionIsNotEnPassant(b, r, mv);
      PromotionEmpties(b, mv);
      PromotedIsNoPawn(mv);
    } else {
      PawnArrived(b, r, mv);
    }
  }

  lemma PromotedIsNoPawn(mv: Move)
    requires PromoOk(mv)
    ensures Promotion(mv).Man? && Promotion(mv).kind != Pawn
  {
  }

  // ----- castling: the rook's square -----

  lemma CastleChanges(b: Board, r: Rights, mv: Move, q: Position)
    requires Sound(b, r, mv.color) && OnBoard(mv.from) && PieceMove(b, r, mv) && IsCastle(b, mv) && OnBoard(q)
    ensures OnBoard(mv.to) && OnBoard(Middle(mv)) && At(Apply(b, mv), Middle(mv)) == Man(Rook, mv.color)
    ensures Owned(At(b, q), Other(mv.color)) ==> (At(Apply(b, mv), q) != At(b, q) <==> q == Middle(mv))
  {
    CastleFromHome(b, r, mv);
    hide Sound, Attacked, Apply;
    RookPathVacant(b, mv, mv.to.x);
    ApplyAt(b, mv, q);
    ApplyAt(b, mv, Middle(mv));
  }

  /** Castling takes a man exactly when the other side has one where the rook arrives, and takes that one only. */
  lemma CastlingTakesIff(b: Board, r: Rights, mv: Move)
    requires Sound(b, r, mv.color) && OnBoard(mv.from) && PieceMove(b, r, mv) && IsCastle(b, mv)
    ensures OnBoard(mv.to) && OnBoard(Middle(mv))
    ensures (exists q :: OnBoard(q) && Owned(At(b, q), Other(mv.color)) && At(Apply(b, mv), q) != At(b, q))
      <==> Owned(At(b, Middle(mv)), Other(mv.color))
    ensures forall q :: OnBoard(q) && Owned(At(b, q), Other(mv.color)) && At(Apply(b, mv), q) != At(b, q) ==>
      q == Middle(mv)
  {
    CastleChanges(b, r, mv, mv.from);
    hide Sound, PieceMove, IsCastle, Apply;
    forall q | OnBoard(q) && Owned(At(b, q), Other(mv.color))
      ensures At(Apply(b, mv), q) != At(b, q) <==> q == Middle(mv)
    {
      CastleChanges(b, r, mv, q);
    }
    assert Owned(At(b, Middle(mv)), Other(mv.color)) ==> At(Apply(b, mv), Middle(mv)) != At(b, Middle(mv));
  }

  // ----- castling: the king's way -----

  /** The board while the king passes the middle square. */
  function Passing(b: Board, mv: Move): Board
    requires OnBoard(mv.from) && OnBoard(Middle(mv))
  {
    Shift(b, mv.from, Middle(mv))
  }

  /** A pawn of the other side stands where it would take on `p`. */
  ghost predicate PawnBefore(b: Board, p: Position, c: Color) {
    exists f :: OnBoard(f) && At(b, f) == Man(Pawn, c) && Abs(f.x - p.x) == 1 && p.y == f.y + Ahead(c)
  }

  lemma TryShape(b: Board, r: Rights, mv: Move)
    requires OnBoard(mv.from) && CastleTry(b, r, mv)
    ensures OnBoard(mv.to) && OnBoard(Middle(mv)) && Middle(mv).y == mv.from.y && Abs(Middle(mv).x - mv.from.x) == 1
    ensures At(b, mv.from) == Man(King, mv.color)
  {
    hide RookPath;
  }

  lemma PassingAt(b: Board, mv: Move, q: Position)
    requires OnBoard(mv.from) && OnBoard(Middle(mv)) && Middle(mv) != mv.from && OnBoard(q)
    ensures At(Passing(b, mv), q) ==
      if q == Middle(mv) then At(b, mv.from) else if q == mv.from then NoPiece else At(b, q)
  {
    ShiftAt(b, mv.from, Middle(mv), q);
    hide Shift;
  }

  /** A clear line to the middle square either was clear before or runs over the king's square, which it then met. */
  lemma LineToMiddle(b: Board, mv: Move, f: Position)
    requires OnBoard(mv.from) && OnBoard(Middle(mv)) && OnBoard(f) && f != mv.from
    requires Middle(mv).y == mv.from.y && Abs(Middle(mv).x - mv.from.x) == 1
    requires (Straight(f, Middle(mv)) || Diagonal(f, Middle(mv))) && Clear(Passing(b, mv), f, Middle(mv))
    ensures Clear(b, f, Middle(mv)) || (Straight(f, mv.from) && Straight(f, Middle(mv)) && Clear(b, f, mv.from))
  {
    var middle := Middle(mv);
    hide Middle, Passing;
    if f.y == middle.y && (middle.x < mv.from.x < f.x || f.x < mv.from.x < middle.x) {
      forall k | 1 <= k < Dist(f, mv.from)
        ensures Vacant(b, Along(f, mv.from, k))
      {
        assert Along(f, mv.from, k) == Along(f, middle, k);
        assert Vacant(Passing(b, mv), Along(f, middle, k));
        PassingAt(b, mv, Along(f, middle, k));
      }
    } else {
      forall k | 1 <= k < Dist(f, middle)
        ensures Vacant(b, Along(f, middle, k))
      {
        assert Vacant(Passing(b, mv), Along(f, middle, k));
        OffTheRow(f, middle, mv.from, k);
        PassingAt(b, mv, Along(f, middle, k));
      }
    }
  }

  lemma OffTheRow(f: Position, t: Position, p: Position, k: nat)
    requires (Straight(f, t) || Diagonal(f, t)) && 1 <= k < Dist(f, t) && p.y == t.y && Abs(p.x - t.x) == 1
    requires !(f.y == t.y && (t.x < p.x < f.x || f.x < p.x < t.x))
    ensures Along(f, t, k) != p && Along(f, t, k) != t
  {
  }

  /** Who could take the passing king and is no pawn attacked one of the squares asked about. */
  lemma OnlyPawnsMissed(b: Board, r: Rights, mv: Move, f: Position)
    requires OnBoard(mv.from) && Castling(b, r, mv) && OnBoard(Middle(mv)) && Vacant(b, Middle(mv)) && OnBoard(f)
    requires PlainMove(Passing(b, mv), NOWHERE, Move(f, Middle(mv), Other(mv.color), None))
    ensures At(b, f) == Man(Pawn, Other(mv.color)) && Abs(f.x - Middle(mv).x) == 1
    ensures Middle(mv).y == f.y + Ahead(Other(mv.color))
  {
    var middle, c := Middle(mv), Other(mv.color);
    TryShape(b, r, mv);
    PassingAt(b, mv, f);
    PassingAt(b, mv, middle);
    hide Passing, CastleTry, Clear, Straight, Diagonal;
    assert !PlainMove(b, r.enpassant, Move(f, middle, c, None));
    assert !PlainMove(b, r.enpassant, Move(f, mv.from, c, None));
    if At(b, f).kind in {Rook, Bishop, Queen} {
      LineToMiddle(b, mv, f);
      StraightIsNotDiagonal(f, middle);
    }
  }

  lemma StraightIsNotDiagonal(f: Position, t: Position)
    ensures !(Straight(f, t) && Diagonal(f, t))
  {
  }

  lemma PawnTakesPassing(b: Board, r: Rights, mv: Move, f: Position)
    requires OnBoard(mv.from) && Castling(b, r, mv) && OnBoard(Middle(mv)) && OnBoard(f)
    requires At(b, f) == Man(Pawn, Other(mv.color)) && Abs(f.x - Middle(mv).x) == 1
    requires Middle(mv).y == f.y + Ahead(Other(mv.color))
    ensures PlainMove(Passing(b, mv), NOWHERE, Move(f, Middle(mv), Other(mv.color), None))
  {
    TryShape(b, r, mv);
    PassingAt(b, mv, f);
    PassingAt(b, mv, Middle(mv));
    hide Passing, CastleTry, Attacked;
  }

  /** The king passes a vacant square where it could be taken exactly when a pawn stands diagonally before it. */
  lemma PassingIsTakenIff(b: Board, r: Rights, mv: Move)
    requires OnBoard(mv.from) && Castling(b, r, mv) && OnBoard(Middle(mv)) && Vacant(b, Middle(mv))
    ensures Attacked(Passing(b, mv), NOWHERE, Middle(mv), Other(mv.color))
      <==> PawnBefore(b, Middle(mv), Other(mv.color))
  {
    hide Castling, PlainMove, Passing;
    var c := Other(mv.color);
    forall f | OnBoard(f) && PlainMove(Passing(b, mv), NOWHERE, Move(f, Middle(mv), c, None))
      ensures PawnBefore(b, Middle(mv), c)
    {
      OnlyPawnsMissed(b, r, mv, f);
    }
    forall f | OnBoard(f) && At(b, f) == Man(Pawn, c) && Abs(f.x - Middle(mv).x) == 1 && Middle(mv).y == f.y + Ahead(c)
      ensures Attacked(Passing(b, mv), NOWHERE, Middle(mv), c)
    {
      PawnTakesPassing(b, r, mv, f);
    }
  }

  // ----- castling: a position for each -----

  /** White's king and rook at home, Black's king far away, and one more black man. */
  function CastlePiece(man: Kind, at: Position, p: Position): Piece {
    if p.x == 4 && p.y == 0 then Man(King, White)
    else if p.x == 7 && p.y == 0 then Man(Rook, White)
    else if p.x == 0 && p.y == 7 then Man(King, Black)
    else if p == at then Man(man, Black)
    else NoPiece
  }

  ghost predicate ToCastle(b: Board, man: Kind, at: Position) {
    && ((man == Knight && at.x == 5 && at.y == 0) || (man == Pawn && at.x == 4 && at.y == 1))
    && forall p {:trigger At(b, p)} :: OnBoard(p) ==> At(b, p) == CastlePiece(man, at, p)
  }

  predicate Castles(mv: Move) {
    mv.from.x == 4 && mv.from.y == 0 && mv.to.x == 6 && mv.to.y == 0 && mv.color == White && mv.promo == None
  }

  lemma ToCastleExists(man: Kind, at: Position) returns (b: Board)
    requires (man == Knight && at.x == 5 && at.y == 0) || (man == Pawn && at.x == 4 && at.y == 1)
    ensures ToCastle(b, man, at)
  {
    b := seq(64, i requires 0 <= i < 64 => CastlePiece(man, at, SquareOf(i)));
    forall p | OnBoard(p)
      ensures At(b, p) == CastlePiece(man, at, p)
    {
      ColumnAndRow(p.x, p.y);
    }
  }

  lemma CastleKings(b: Board, man: Kind, at: Position, w: Position, k: Position)
    requires ToCastle(b, man, at) && w.x == 4 && w.y == 0 && k.x == 0 && k.y == 7
    ensures KingsOk(b)
    ensures forall p, c :: KingAt(b, p, c) ==> p == if c == White then w else k
  {
    assert At(b, w) == CastlePiece(man, at, w) && At(b, k) == CastlePiece(man, at, k);
    assert KingAt(b, w, White) && KingAt(b, k, Black);
    forall p, c | KingAt(b, p, c)
      ensures p == if c == White then w else k
    {
      assert At(b, p) == CastlePiece(man, at, p);
    }
  }

  /** Neither black man attacks the squares of the king's way. */
  lemma WayIsFree(b: Board, man: Kind, at: Position, p: Position)
    requires ToCastle(b, man, at) && p.y == 0 && 4 <= p.x <= 6
    ensures !Attacked(b, NOWHERE, p, Black)
  {
    hide Clear, Straight, Diagonal, ToCastle;
    forall f | OnBoard(f)
      ensures !PlainMove(b, NOWHERE, Move(f, p, Black, None))
    {
      BlackMen(b, man, at, f);
      if man == Pawn && f == at {
        PawnCannot(b, man, at, p);
      }
    }
  }

  /** Black has a king on a8 and the one man. */
  lemma BlackMen(b: Board, man: Kind, at: Position, f: Position)
    requires ToCastle(b, man, at) && OnBoard(f)
    ensures Owned(At(b, f), Black) ==>
      (f.x == 0 && f.y == 7 && At(b, f).kind == King) || (f == at && At(b, f).kind == man)
    ensures OnBoard(at) && man in {Knight, Pawn}
    ensures man == Knight ==> at.x == 5 && at.y == 0
    ensures man == Pawn ==> at.x == 4 && at.y == 1
  {
    assert At(b, f) == CastlePiece(man, at, f);
  }

  lemma PawnCannot(b: Board, man: Kind, at: Position, p: Position)
    requires ToCastle(b, man, at) && man == Pawn && p.y == 0 && 4 <= p.x <= 6
    ensures OnBoard(at) && OnBoard(p) && !PawnStep(b, NOWHERE, Move(at, p, Black, None))
  {
    assert At(b, p) == CastlePiece(man, at, p);
  }

  lemma FarKingIsSafe(b: Board, man: Kind, at: Position, w: Position, k: Position)
    requires ToCastle(b, man, at) && w.x == 4 && w.y == 0 && k.x == 0 && k.y == 7
    ensures !InCheck(b, Black)
  {
    CastleKings(b, man, at, w, k);
    hide Clear;
    forall p, f | KingAt(b, p, Black) && OnBoard(f)
      ensures !PlainMove(b, NOWHERE, Move(f, p, White, None))
    {
      assert At(b, f) == CastlePiece(man, at, f);
    }
  }

  lemma CastleSound(b: Board, man: Kind, at: Position, r: Rights, mv: Move)
    requires ToCastle(b, man, at) && r == Rights("K", NOWHERE) && Castles(mv)
    ensures Sound(b, r, White)
  {
    var k := Position(0, 7);
    CastleKings(b, man, at, mv.from, k);
    FarKingIsSafe(b, man, at, mv.from, k);
    HomeCells(b, man, at);
    OnlyPawn(b, man, at);
    OnlyOneLetter();
    hide KingsOk, InCheck, AtHome, PawnsInside, RightLetter, ToCastle;
  }

  lemma OnlyOneLetter()
    ensures forall c, side :: RightLetter(c, side) in "K" ==> c == White && side
  {
  }

  lemma OnlyPawn(b: Board, man: Kind, at: Position)
    requires ToCastle(b, man, at)
    ensures PawnsInside(b)
  {
  }

  lemma HomeCells(b: Board, man: Kind, at: Position)
    requires ToCastle(b, man, at)
    ensures AtHome(b, White, true)
  {
    CastleCell(b, man, at, 4);
    CastleCell(b, man, at, 7);
    hide ToCastle;
  }

  lemma CastleCell(b: Board, man: Kind, at: Position, i: nat)
    requires ToCastle(b, man, at) && i < 64
    ensures b[i] == CastlePiece(man, at, SquareOf(i))
  {
    hide CastlePiece;
    assert b[i] == At(b, SquareOf(i));
  }

  /** The black man stands where it was put; the square the rook goes to is its own or vacant. */
  lemma EnemyAt(b: Board, man: Kind, at: Position, middle: Position)
    requires ToCastle(b, man, at) && middle.x == 5 && middle.y == 0
    ensures OnBoard(at) && At(b, at) == Man(man, Black)
    ensures At(b, middle) == if man == Knight then Man(Knight, Black) else NoPiece
  {
    assert At(b, at) == CastlePiece(man, at, at) && At(b, middle) == CastlePiece(man, at, middle);
  }

  lemma PawnTakesOnlyMen(b: Board, pawn: Position, to: Position)
    requires OnBoard(pawn) && OnBoard(to) && At(b, pawn) == Man(Pawn, Black) && Vacant(b, to)
    requires to.x == pawn.x + 1 && to.y == pawn.y - 1
    ensures !PlainMove(b, NOWHERE, Move(pawn, to, Black, None))
    ensures PlainMove(Put(b, to, Man(King, White)), NOWHERE, Move(pawn, to, Black, None))
  {
    var b' := Put(b, to, Man(King, White));
    assert At(b', pawn) == At(b, pawn) && At(b', to) == Man(King, White);
    hide Put;
  }

  lemma CastleIsTried(b: Board, man: Kind, at: Position, r: Rights, mv: Move)
    requires ToCastle(b, man, at) && r == Rights("K", NOWHERE) && Castles(mv)
    ensures Middle(mv).x == 5 && Middle(mv).y == 0 && CastleTry(b, r, mv)
  {
    assert At(b, mv.from) == CastlePiece(man, at, mv.from) && At(b, mv.to) == CastlePiece(man, at, mv.to);
    RookIsFree(b, man, at, mv);
    hide RookPath, ToCastle;
  }

  lemma RookIsFree(b: Board, man: Kind, at: Position, mv: Move)
    requires ToCastle(b, man, at) && Castles(mv)
    ensures OnBoard(mv.from) && OnBoard(mv.to) && CastleShape(mv) && RookPath(b, mv)
  {
    var corner, middle := Corner(mv), Middle(mv);
    assert At(b, middle) == CastlePiece(man, at, middle) && At(b, mv.to) == CastlePiece(man, at, mv.to);
    assert Dist(corner, middle) == 2 && Along(corner, middle, 1) == mv.to;
    hide ToCastle, CastlePiece;
  }

  lemma CastledIsSafe(b: Board, man: Kind, at: Position, mv: Move)
    requires ToCastle(b, man, at) && Castles(mv)
    ensures !InCheck(Apply(b, mv), White)
    ensures At(Apply(b, mv), Middle(mv)) == Man(Rook, White)
  {
    var b' := Apply(b, mv);
    assert At(b, mv.from) == CastlePiece(man, at, mv.from);
    forall p | OnBoard(p)
      ensures At(b', p).Man? && At(b', p).color == Black ==> At(b', p) == CastlePiece(man, at, p) && p != Middle(mv)
      ensures KingAt(b', p, White) ==> p == mv.to
      ensures p == Middle(mv) ==> At(b', p) == Man(Rook, White)
    {
      ApplyAt(b, mv, p);
      assert At(b, p) == CastlePiece(man, at, p);
      assert At(b, Corner(mv)) == CastlePiece(man, at, Corner(mv));
    }
    hide Apply;
    forall k, f | KingAt(b', k, White) && OnBoard(f)
      ensures !PlainMove(b', NOWHERE, Move(f, k, Black, None))
    {
    }
  }

  /** Castling is accepted in both positions. */
  lemma CastlingAccepted(b: Board, man: Kind, at: Position, r: Rights, mv: Move)
    requires ToCastle(b, man, at) && r == Rights("K", NOWHERE) && Castles(mv)
    ensures Sound(b, r, White) && Legal(b, r, mv) && IsCastle(b, mv)
    ensures OnBoard(mv.to) && At(Apply(b, mv), Middle(mv)) == Man(Rook, White)
  {
    CastleSound(b, man, at, r, mv);
    CastleIsTried(b, man, at, r, mv);
    WayIsFree(b, man, at, mv.from);
    WayIsFree(b, man, at, Middle(mv));
    WayIsFree(b, man, at, mv.to);
    CastledIsSafe(b, man, at, mv);
    hide Sound, Attacked, CastleTry, Apply, InCheck, Checked;
    CheckAfterMove(b, r, mv);
    assert At(b, mv.from) == CastlePiece(man, at, mv.from);
  }

  /** The rook may arrive on an enemy man, which is taken. */
  lemma CastlingTakesOnTheRooksSquare() returns (b: Board, r: Rights, mv: Move)
    ensures OnBoard(mv.from) && OnBoard(mv.to) && Sound(b, r, White) && Legal(b, r, mv) && IsCastle(b, mv)
    ensures At(b, Middle(mv)) == Man(Knight, Black) && At(Apply(b, mv), Middle(mv)) == Man(Rook, White)
  {
    var at := Position(5, 0);
    b := ToCastleExists(Knight, at);
    r, mv := Rights("K", NOWHERE), Move(Position(4, 0), Position(6, 0), White, None);
    hide Sound, Legal, Apply, IsCastle, ToCastle, At;
    CastlingAccepted(b, Knight, at, r, mv);
    EnemyAt(b, Knight, at, Middle(mv));
  }

  lemma PassedByPawn(b: Board, r: Rights, mv: Move, pawn: Position)
    requires OnBoard(mv.from) && OnBoard(Middle(mv)) && Legal(b, r, mv) && IsCastle(b, mv) && mv.color == White
    requires OnBoard(pawn) && At(b, pawn) == Man(Pawn, Black) && Vacant(b, Middle(mv))
    requires Middle(mv).x == pawn.x + 1 && Middle(mv).y == pawn.y - 1
    ensures Attacked(Passing(b, mv), NOWHERE, Middle(mv), Black)
  {
    hide Legal, IsCastle, Passing, Castling, Attacked, Vacant, At;
    LegalIsMove(b, r, mv);
    MoveCastles(b, r, mv);
    PassingIsTakenIff(b, r, mv);
  }

  /** The king may pass a square that a pawn would take on: the pawn does not go there while nobody stands on it. */
  lemma CastlingPassesAPawnsCapture() returns (b: Board, r: Rights, mv: Move, pawn: Position)
    ensures OnBoard(mv.from) && Sound(b, r, White) && Legal(b, r, mv) && IsCastle(b, mv)
    ensures OnBoard(pawn) && At(b, pawn) == Man(Pawn, Black) && Vacant(b, Middle(mv))
    ensures !PlainMove(b, r.enpassant, Move(pawn, Middle(mv), Black, None))
    ensures PlainMove(Put(b, Middle(mv), Man(King, White)), r.enpassant, Move(pawn, Middle(mv), Black, None))
    ensures Attacked(Passing(b, mv), NOWHERE, Middle(mv), Black)
  {
    pawn := Position(4, 1);
    b := ToCastleExists(Pawn, pawn);
    r, mv := Rights("K", NOWHERE), Move(Position(4, 0), Position(6, 0), White, None);
    hide Sound, Legal, IsCastle, ToCastle, PlainMove, Apply, At, Passing, Castling, Attacked;
    CastlingAccepted(b, Pawn, pawn, r, mv);
    EnemyAt(b, Pawn, pawn, Middle(mv));
    PawnTakesOnlyMen(b, pawn, Middle(mv));
    PassedByPawn(b, r, mv, pawn);
  }
}
