/** Every accepted move keeps what Invariant.Ok says, so every run of calls does. */
module Reachable {
  import opened ChessBoard
  import opened Rules
  import opened Game
  import opened Invariant

  // ----- the engine's check test is the plain one -----

  /** Colour `c` may still castle only with its king on the home file. */
  ghost predicate HomeFile(b: Board, castle: string, c: Color) {
    forall p, side :: KingAt(b, p, c) && RightLetter(c, side) in castle ==> p.x == 4
  }

  lemma OntoKing(b: Board, r: Rights, k: Position, f: Position, c: Color)
    requires OnBoard(f) && KingAt(b, k, c) && HomeFile(b, r.castle, Other(c))
    ensures PieceMove(b, r, Move(f, k, Other(c), None)) <==> PlainMove(b, NOWHERE, Move(f, k, Other(c), None))
  {
    var mv := Move(f, k, Other(c), None);
    if Castling(b, r, mv) {
      assert KingAt(b, f, Other(c)) && RightLetter(Other(c), k.x > f.x) in r.castle;
      NoCastleOntoKing(b, r, mv);
    }
  }

  /** verifyCheck, castling attempts and en passant square included, says whether a plain move takes the king. */
  lemma CheckedIsInCheck(b: Board, r: Rights, c: Color)
    requires AtMostOneKing(b) && HomeFile(b, r.castle, Other(c))
    ensures Checked(b, r, c) <==> InCheck(b, c)
  {
    FindKingIsTheKing(b, c);
    var k := FindKing(b, c);
    if k != NOWHERE {
      forall f | OnBoard(f)
        ensures PieceMove(b, r, Move(f, k, Other(c), None)) <==> PlainMove(b, NOWHERE, Move(f, k, Other(c), None))
      {
        OntoKing(b, r, k, f, c);
      }
    }
  }

  lemma HomeFileOfRights(b: Board, castle: string, c: Color)
    requires AtMostOneKing(b) && RightsHome(b, castle)
    ensures HomeFile(b, castle, c)
  {
    forall p, side | KingAt(b, p, c) && RightLetter(c, side) in castle
      ensures p.x == 4
    {
      assert AtHome(b, c, side) && KingAt(b, SquareOf(8 * HomeRow(c) + 4), c);
    }
  }

  // ----- kings -----

  /** The fifth character, if any, names a queen, rook, bishop or knight. */
  predicate PromoOk(mv: Move) {
    mv.promo.Some? ==> KindOfChar(mv.promo.value) in {Some(Queen), Some(Rook), Some(Bishop), Some(Knight)}
  }

  lemma ParseOk(c: Color, s: string)
    requires ValidText(s)
    ensures OnBoard(Parse(c, s).from) && OnBoard(Parse(c, s).to) && PromoOk(Parse(c, s))
  {
  }

  function Origin(b: Board, mv: Move, q: Position): Position
    requires OnBoard(mv.from)
  {
    if q == mv.to then mv.from else if IsCastle(b, mv) && q == Middle(mv) then Corner(mv) else q
  }

  /** A king of the new board is a king of the old one that stayed or was moved there. */
  lemma KingOrigin(b: Board, mv: Move, q: Position, c: Color)
    requires OnBoard(mv.from) && OnBoard(mv.to) && mv.from != mv.to && PromoOk(mv)
    requires KingAt(Apply(b, mv), q, c)
    ensures KingAt(b, Origin(b, mv, q), c)
    ensures q != mv.from && (q == mv.to || !IsCastle(b, mv) || q != Corner(mv) || q == Middle(mv))
  {
    ApplyAt(b, mv, q);
  }

  /** No move makes a second king. */
  lemma ApplyKeepsOneKing(b: Board, mv: Move)
    requires OnBoard(mv.from) && OnBoard(mv.to) && mv.from != mv.to && PromoOk(mv) && AtMostOneKing(b)
    ensures AtMostOneKing(Apply(b, mv))
  {
    forall p, q, c | KingAt(Apply(b, mv), p, c) && KingAt(Apply(b, mv), q, c)
      ensures p == q
    {
      KingOrigin(b, mv, p, c);
      KingOrigin(b, mv, q, c);
    }
  }

  lemma PlainMoveIgnoresText(b: Board, enpassant: Position, mv: Move, mv': Move)
    requires OnBoard(mv.from) && mv'.from == mv.from && mv'.to == mv.to && mv'.color == mv.color
    requires PlainMove(b, enpassant, mv)
    ensures PlainMove(b, enpassant, mv')
  {
  }

  lemma CastlingIgnoresText(b: Board, r: Rights, mv: Move, mv': Move)
    requires OnBoard(mv.from) && mv'.from == mv.from && mv'.to == mv.to && mv'.color == mv.color
    requires Castling(b, r, mv)
    ensures Castling(b, r, mv')
  {
    assert Corner(mv') == Corner(mv) && Middle(mv') == Middle(mv);
    assert CastleTry(b, r, mv');
  }

  lemma PieceMoveIgnoresText(b: Board, r: Rights, mv: Move, mv': Move)
    requires OnBoard(mv.from) && mv'.from == mv.from && mv'.to == mv.to && mv'.color == mv.color
    requires PieceMove(b, r, mv)
    ensures PieceMove(b, r, mv')
  {
    if PlainMove(b, r.enpassant, mv) {
      PlainMoveIgnoresText(b, r.enpassant, mv, mv');
    } else {
      CastlingIgnoresText(b, r, mv, mv');
    }
  }

  /** Every accepted move goes from a man of the mover to a square it does not own. */
  lemma MoveIsPlayable(b: Board, r: Rights, mv: Move)
    requires OnBoard(mv.from) && PieceMove(b, r, mv)
    ensures Playable(b, mv) && mv.from != mv.to
  {
  }

  lemma LegalIsMove(b: Board, r: Rights, mv: Move)
    requires OnBoard(mv.from) && Legal(b, r, mv)
    ensures PieceMove(b, r, mv)
  {
  }

  predicate IsKing(p: Piece) {
    p.Man? && p.kind == King
  }

  /** A move in a sound game takes no king. */
  lemma NoKingTaken(b: Board, r: Rights, mv: Move)
    requires Sound(b, r, mv.color) && OnBoard(mv.from) && PieceMove(b, r, mv)
    ensures OnBoard(mv.to) && mv.from != mv.to && !IsKing(At(b, mv.to))
  {
    hide PlainMove, PieceMove, PawnsInside, NoRepeats, EnPassantOk;
    MoveIsPlayable(b, r, mv);
    PieceMoveIgnoresText(b, r, mv, Move(mv.from, mv.to, mv.color, None));
    assert PlainMove(b, NOWHERE, Move(mv.from, mv.to, mv.color, None)) ==> Attacked(b, NOWHERE, mv.to, mv.color);
    HomeFileOfRights(b, r.castle, mv.color);
    if KingAt(b, mv.to, Other(mv.color)) {
      OntoKing(b, r, mv.to, mv.from, Other(mv.color));
    }
  }

  /** A king next to the castling king would attack it. */
  lemma MiddleIsNoKing(b: Board, r: Rights, mv: Move)
    requires OnBoard(mv.from) && Castling(b, r, mv)
    ensures !IsKing(At(b, Middle(mv)))
  {
    var back := Move(Middle(mv), mv.from, Other(mv.color), None);
    assert !PlainMove(b, r.enpassant, back);
  }

  /** Castling starts from the home squares and takes no king either. */
  lemma CastleFromHome(b: Board, r: Rights, mv: Move)
    requires Sound(b, r, mv.color) && OnBoard(mv.from) && PieceMove(b, r, mv) && IsCastle(b, mv)
    ensures Castling(b, r, mv)
    ensures mv.from.x == 4 && mv.from.y == HomeRow(mv.color) && At(b, Corner(mv)) == Man(Rook, mv.color)
    ensures mv.to.x in {2, 6} && mv.to.y == mv.from.y
    ensures !IsKing(At(b, Middle(mv)))
  {
    hide Sound, Castling, CastleTry, RookPath, Attacked;
    MoveCastles(b, r, mv);
    HomeOfRight(b, r, mv);
    MiddleIsNoKing(b, r, mv);
  }

  /** A king's move over two columns is castling, with the right to it. */
  lemma MoveCastles(b: Board, r: Rights, mv: Move)
    requires OnBoard(mv.from) && PieceMove(b, r, mv) && IsCastle(b, mv)
    ensures Castling(b, r, mv) && OnBoard(mv.to) && mv.to.y == mv.from.y && KingAt(b, mv.from, mv.color)
    ensures RightLetter(mv.color, mv.to.x > mv.from.x) in r.castle
  {
    hide Attacked, RookPath;
  }

  /** A right vouches for the king and the rook at home. */
  lemma HomeOfRight(b: Board, r: Rights, mv: Move)
    requires Sound(b, r, mv.color) && KingAt(b, mv.from, mv.color) && mv.to.x != mv.from.x
    requires RightLetter(mv.color, mv.to.x > mv.from.x) in r.castle
    ensures mv.from.x == 4 && mv.from.y == HomeRow(mv.color) && At(b, Corner(mv)) == Man(Rook, mv.color)
  {
    hide PawnsInside, EnPassantOk, InCheck, NoRepeats, RightLetter;
    var side := mv.to.x > mv.from.x;
    assert AtHome(b, mv.color, side);
    assert KingAt(b, SquareOf(8 * HomeRow(mv.color) + 4), mv.color);
  }

  // ----- what a legal move keeps -----

  /** Both kings survive; the other side's king does not move. */
  lemma KingsStay(b: Board, r: Rights, mv: Move)
    requires Sound(b, r, mv.color) && OnBoard(mv.from) && PromoOk(mv) && PieceMove(b, r, mv)
    ensures OnBoard(mv.to) && KingsOk(Apply(b, mv))
    ensures forall q :: KingAt(b, q, Other(mv.color)) ==> KingAt(Apply(b, mv), q, Other(mv.color))
  {
    hide *;
    NoKingTaken(b, r, mv);
    SoundKings(b, r, mv.color);
    ApplyKeepsOneKing(b, mv);
    BetweenOnBoard(mv);
    if IsEnPassant(b, mv) {
      VictimIsNoKing(b, r, mv);
    }
    if IsCastle(b, mv) {
      CastleFromHome(b, r, mv);
    }
    forall q, c | KingAt(b, q, c) && q != mv.from
      ensures KingAt(Apply(b, mv), q, c)
    {
      KingWaits(b, mv, q, c);
    }
    forall c, k | KingAt(b, k, c)
      ensures HasKing(Apply(b, mv), c)
    {
      if k == mv.from {
        KingArrives(b, mv, c);
        HasKingAt(Apply(b, mv), mv.to, c);
      } else {
        HasKingAt(Apply(b, mv), k, c);
      }
    }
    OtherKingWaits(b, r, mv);
    BothKings(b, Apply(b, mv));
  }

  lemma HasKingAt(b: Board, p: Position, c: Color)
    requires KingAt(b, p, c)
    ensures HasKing(b, c)
  {
  }

  /** Kings of both sides that each have a successor. */
  lemma BothKings(b: Board, b': Board)
    requires KingsOk(b) && AtMostOneKing(b') && forall c, k :: KingAt(b, k, c) ==> HasKing(b', c)
    ensures KingsOk(b')
  {
    hide KingAt, AtMostOneKing;
    var w :| KingAt(b, w, White);
    var k :| KingAt(b, k, Black);
  }

  /** The mover's man is its own, so the other king does not move. */
  lemma OtherKingWaits(b: Board, r: Rights, mv: Move)
    requires OnBoard(mv.from) && PieceMove(b, r, mv)
    ensures forall q :: KingAt(b, q, Other(mv.color)) ==> q != mv.from
  {
    MoveIsPlayable(b, r, mv);
    hide PieceMove;
  }

  lemma VictimIsNoKing(b: Board, r: Rights, mv: Move)
    requires Sound(b, r, mv.color) && OnBoard(mv.from) && OnBoard(mv.to) && PieceMove(b, r, mv) && IsEnPassant(b, mv)
    ensures !IsKing(At(b, Victim(mv)))
  {
    hide KingsOk, PawnsInside, RightsHome, InCheck, NoRepeats, Attacked, RookPath, Clear;
  }

  lemma KingWaits(b: Board, mv: Move, q: Position, c: Color)
    requires OnBoard(mv.from) && OnBoard(mv.to) && mv.from != mv.to && !IsKing(At(b, mv.to))
    requires KingAt(b, q, c) && q != mv.from
    requires IsCastle(b, mv) ==>
      At(b, Corner(mv)) == Man(Rook, mv.color) && OnBoard(Middle(mv)) && !IsKing(At(b, Middle(mv)))
    requires IsEnPassant(b, mv) ==> !IsKing(At(b, Victim(mv)))
    ensures KingAt(Apply(b, mv), q, c)
  {
    ApplyAt(b, mv, q);
    hide Apply, IsCastle, IsEnPassant, Arrived;
  }

  lemma KingArrives(b: Board, mv: Move, c: Color)
    requires OnBoard(mv.from) && OnBoard(mv.to) && mv.from != mv.to && KingAt(b, mv.from, c)
    ensures KingAt(Apply(b, mv), mv.to, c)
  {
    ApplyAt(b, mv, mv.to);
    hide Apply;
  }

  lemma SoundKings(b: Board, r: Rights, c: Color)
    requires Sound(b, r, c)
    ensures KingsOk(b) && AtMostOneKing(b)
  {
    hide PawnsInside, AtMostOneKing, RightsHome, EnPassantOk, InCheck, NoRepeats;
  }

  ghost predicate IsPawn(p: Piece) {
    p.Man? && p.kind == Pawn
  }

  /** A pawn that arrives without being promoted stands between the outer rows. */
  lemma PawnArrives(b: Board, r: Rights, mv: Move)
    requires PawnsInside(b) && OnBoard(mv.from) && OnBoard(mv.to) && PromoOk(mv) && PieceMove(b, r, mv)
    requires IsPawn(Arrived(b, mv))
    ensures 1 <= mv.to.y <= 6
  {
    hide Attacked, RookPath, Clear, CastleShape, CastleRight;
    assert PlainMove(b, r.enpassant, mv) && IsPawn(At(b, mv.from));
    assert 1 <= mv.from.y <= 6;
  }

  /** Every other pawn stood there before. */
  lemma PawnWaits(b: Board, mv: Move, q: Position)
    requires PawnsInside(b) && OnBoard(mv.from) && OnBoard(mv.to) && mv.from != mv.to && OnBoard(q) && q != mv.to
    requires IsCastle(b, mv) ==> At(b, Corner(mv)) == Man(Rook, mv.color)
    requires IsPawn(At(Apply(b, mv), q))
    ensures 1 <= q.y <= 6
  {
    ApplyAt(b, mv, q);
    hide Apply, IsCastle, IsEnPassant, Arrived, Middle, Corner, Victim;
  }

  lemma SoundPawns(b: Board, r: Rights, c: Color)
    requires Sound(b, r, c)
    ensures PawnsInside(b)
  {
    hide PawnsInside, KingsOk, RightsHome, EnPassantOk, InCheck, NoRepeats;
  }

  lemma PawnsFrom(b: Board)
    requires forall q {:trigger At(b, q)} :: OnBoard(q) && IsPawn(At(b, q)) ==> 1 <= q.y <= 6
    ensures PawnsInside(b)
  {
  }

  lemma PawnsStay(b: Board, r: Rights, mv: Move)
    requires Sound(b, r, mv.color) && OnBoard(mv.from) && PromoOk(mv) && PieceMove(b, r, mv)
    ensures OnBoard(mv.to) && PawnsInside(Apply(b, mv))
  {
    hide *;
    SoundPawns(b, r, mv.color);
    NoKingTaken(b, r, mv);
    if IsCastle(b, mv) {
      CastleFromHome(b, r, mv);
    }
    forall q {:trigger At(Apply(b, mv), q)} | OnBoard(q) && IsPawn(At(Apply(b, mv), q))
      ensures 1 <= q.y <= 6
    {
      if q == mv.to {
        ApplyAt(b, mv, q);
        PawnArrives(b, r, mv);
      } else {
        PawnWaits(b, mv, q);
      }
    }
    PawnsFrom(Apply(b, mv));
  }

  lemma {:induction false} EraseIs(s: string, c: char)
    requires NoRepeats(s)
    ensures NoRepeats(Erase(s, c))
    ensures forall d :: d in Erase(s, c) <==> d in s && d != c
  {
    if s != "" {
      var t := s[1..];
      assert s == [s[0]] + t;
      assert s[0] !in t;
      if s[0] != c {
        EraseIs(t, c);
        assert Erase(s, c) == [s[0]] + Erase(t, c);
      } else {
        assert Erase(s, c) == t;
      }
    }
  }

  lemma EraseIfIs(s: string, c: char, cond: bool)
    requires NoRepeats(s)
    ensures NoRepeats(EraseIf(s, c, cond))
    ensures forall d :: d in EraseIf(s, c, cond) <==> d in s && !(cond && d == c)
  {
    EraseIs(s, c);
  }

  function CornerCell(c: Color, kingside: bool): nat {
    8 * HomeRow(c) + (if kingside then 7 else 0)
  }

  /** Exactly the rights of a side whose king moved, or whose rook is missing, are lost. */
  lemma KeepRightsIs(castle: string, b: Board, mv: Move)
    requires OnBoard(mv.to) && NoRepeats(castle)
    ensures NoRepeats(KeepRights(castle, b, mv))
    ensures forall c, side :: RightLetter(c, side) in KeepRights(castle, b, mv) <==>
      && RightLetter(c, side) in castle
      && !(IsKing(At(b, mv.to)) && c == mv.color)
      && b[CornerCell(c, side)] == Man(Rook, c)
  {
    hide EraseIf, NoRepeats, At;
    var king := IsKing(At(b, mv.to));
    EraseIfIs(castle, KingSide(mv.color), king);
    var s0 := EraseIf(EraseIf(castle, KingSide(mv.color), king), QueenSide(mv.color), king);
    EraseIfIs(EraseIf(castle, KingSide(mv.color), king), QueenSide(mv.color), king);
    var s1 := EraseIf(s0, 'Q', b[0] != Man(Rook, White));
    EraseIfIs(s0, 'Q', b[0] != Man(Rook, White));
    var s2 := EraseIf(s1, 'K', b[7] != Man(Rook, White));
    EraseIfIs(s1, 'K', b[7] != Man(Rook, White));
    var s3 := EraseIf(s2, 'q', b[56] != Man(Rook, Black));
    EraseIfIs(s2, 'q', b[56] != Man(Rook, Black));
    var s4 := EraseIf(s3, 'k', b[63] != Man(Rook, Black));
    EraseIfIs(s3, 'k', b[63] != Man(Rook, Black));
    assert KeepRights(castle, b, mv) == if s4 == "" then "-" else s4;
    NoLetters();
    hide KeepRights;
  }

  lemma NoLetters()
    ensures NoRepeats("-") && forall c, side :: RightLetter(c, side) !in "-"
  {
  }

  lemma RightsStay(b: Board, r: Rights, mv: Move)
    requires Sound(b, r, mv.color) && OnBoard(mv.from) && PromoOk(mv) && PieceMove(b, r, mv)
    ensures OnBoard(mv.to)
    ensures RightsHome(Apply(b, mv), KeepRights(r.castle, Apply(b, mv), mv))
  {
    KingsStay(b, r, mv);
    NoKingTaken(b, r, mv);
    var b' := Apply(b, mv);
    KeepRightsIs(r.castle, b', mv);
    ApplyAt(b, mv, mv.to);
    forall c, side | RightLetter(c, side) in KeepRights(r.castle, b', mv)
      ensures AtHome(b', c, side)
    {
      var k := SquareOf(8 * HomeRow(c) + 4);
      assert AtHome(b, c, side) && KingAt(b, k, c);
      if c == mv.color {
        assert At(b, mv.from) != Man(King, c);
        ApplyAt(b, mv, k);
      }
      assert KingAt(b', k, c);
    }
  }

  lemma EnPassantStays(b: Board, r: Rights, mv: Move)
    requires Sound(b, r, mv.color) && OnBoard(mv.from) && PromoOk(mv) && PieceMove(b, r, mv)
    ensures OnBoard(mv.to)
    ensures EnPassantOk(Apply(b, mv), Other(mv.color), NextEnPassant(Apply(b, mv), mv))
  {
    NoKingTaken(b, r, mv);
    ApplyAt(b, mv, mv.to);
    var ep := NextEnPassant(Apply(b, mv), mv);
    if ep != NOWHERE {
      ApplyAt(b, mv, ep);
      ApplyAt(b, mv, mv.from);
    }
  }

  lemma NoSelfCheck(b: Board, r: Rights, mv: Move)
    requires Sound(b, r, mv.color) && OnBoard(mv.from) && PromoOk(mv) && Legal(b, r, mv)
    ensures OnBoard(mv.to) && !InCheck(Apply(b, mv), mv.color)
  {
    KingsStay(b, r, mv);
    var b' := Apply(b, mv);
    HomeFileOfRights(b, r.castle, Other(mv.color));
    forall p | KingAt(b', p, Other(mv.color))
      ensures KingAt(b, p, Other(mv.color))
    {
      var q :| KingAt(b, q, Other(mv.color));
      assert KingAt(b', q, Other(mv.color));
    }
    CheckedIsInCheck(b', r, mv.color);
  }
}
