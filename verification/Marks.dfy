/** The marks for check and mate in the short text of a move: what they say, and when that is right. They are asked
    for before the move is made, with the rights there are then. */
module Marks {
  import opened ChessBoard
  import opened Rules
  import opened Game
  import opened Invariant
  import opened Reachable
  import opened Runs
  import opened Mate

  /** A move after which the queries restore the whole board from the text of the current state. */
  predicate Special(b: Board, mv: Move)
    requires OnBoard(mv.from) && OnBoard(mv.to)
  {
    IsCastle(b, mv) || IsEnPassant(b, mv)
  }

  /** Trying the moves of `c` on `b` never puts back another board than `b`: either that is the one saved, or no
      move to be tried is castling or an en passant capture. */
  ghost predicate Undisturbed(b: Board, saved: Board, r: Rights, c: Color) {
    b == saved || forall mv: Move {:trigger PieceMove(b, r, mv)} ::
      OnBoard(mv.from) && mv.color == c && mv.promo == None && PieceMove(b, r, mv) ==> OnBoard(mv.to) && !Special(b, mv)
  }

  /** The move as the question whether it gives check asks it: with the colour of the side that would be in check. */
  function Given(mv: Move): Move {
    Move(mv.from, mv.to, Other(mv.color), None)
  }

  /** A legal move in a sound position. */
  ghost predicate LegalIn(b: Board, r: Rights, mv: Move)
    ensures LegalIn(b, r, mv) ==> OnBoard(mv.from) && OnBoard(mv.to)
  {
    OnBoard(mv.from) && PromoOk(mv) && Sound(b, r, mv.color) && Legal(b, r, mv)
  }

  /** The rights after a move that has led to board `b`. */
  function RightsAfter(r: Rights, b: Board, mv: Move): Rights
    requires OnBoard(mv.to)
  {
    Rights(KeepRights(r.castle, b, mv), NextEnPassant(b, mv))
  }

  /** Some pawn of `c` stands where it takes on the vacant square `ep`, if that is the square recorded. */
  ghost predicate TakesOn(b: Board, ep: Position, c: Color) {
    OnBoard(ep) && Vacant(b, ep)
    && (exists f :: OnBoard(f) && At(b, f) == Man(Pawn, c) && Abs(f.x - ep.x) == 1 && ep.y == f.y + Ahead(c))
  }

  /** A man on `f` attacks the king on `k` after the move. */
  predicate Attacks(b: Board, mv: Move, f: Position, k: Position)
    requires OnBoard(mv.from) && OnBoard(mv.to)
  {
    OnBoard(f) && KingAt(Apply(b, mv), k, Other(mv.color))
    && PlainMove(Apply(b, mv), NOWHERE, Move(f, k, mv.color, None))
  }

  /** After the move some man other than a pawn just promoted attacks the king. */
  ghost predicate ShownCheck(b: Board, mv: Move)
    requires OnBoard(mv.from) && OnBoard(mv.to)
  {
    exists f, k :: Attacks(b, mv, f, k) && !(Promotes(b, mv) && f == mv.to)
  }

  /** The piece a pawn is promoted to is the only man that gives check. */
  ghost predicate OnlyPromotedChecks(b: Board, mv: Move)
    requires OnBoard(mv.from) && OnBoard(mv.to)
  {
    Promotes(b, mv) && (exists k :: Attacks(b, mv, mv.to, k)) && forall f, k :: Attacks(b, mv, f, k) ==> f == mv.to
  }

  ghost predicate Reply(b: Board, r: Rights, c: Color, m: Move) {
    OnBoard(m.from) && OnBoard(m.to) && m.color == c && m.promo == None && Legal(b, r, m)
  }

  /** There is a legal move, and every one is a capture en passant. */
  ghost predicate OnlyEnPassant(b: Board, r: Rights, c: Color) {
    (exists m :: Reply(b, r, c, m)) && forall m :: Reply(b, r, c, m) ==> IsEnPassant(b, m)
  }

  // ----- check with the rights from before the move -----

  lemma PlainOntoMan(b: Board, ep: Position, mv: Move)
    requires OnBoard(mv.from) && OnBoard(mv.to) && At(b, mv.to).Man?
    ensures PlainMove(b, ep, mv) <==> PlainMove(b, NOWHERE, mv)
  {
    hide Clear;
  }

  /** The king on `k` stands in the corner of a castling of the king on `w`. */
  predicate InTheCorner(castle: string, w: Position, k: Position, c: Color) {
    && w.y == k.y && ((w.x == 2 && k.x == 0) || (w.x == 5 && k.x == 7))
    && RightLetter(c, k.x > w.x) in castle
  }

  /** Only there castling comes to the other king: elsewhere that king is in the way of the rook. */
  lemma CastleOntoCorner(b: Board, r: Rights, mv: Move)
    requires OnBoard(mv.from) && Castling(b, r, mv) && KingAt(b, mv.to, Other(mv.color))
    ensures KingAt(b, mv.from, mv.color) && InTheCorner(r.castle, mv.from, mv.to, mv.color)
  {
    hide Attacked, Clear;
    if !(mv.from.x in {2, 5} && mv.to.x in {0, 7}) {
      RookPathVacant(b, mv, mv.to.x);
    }
  }

  /** The engine's check test is the plain one with any rights, but for a king in such a corner. */
  lemma CheckedButCorner(b: Board, r: Rights, c: Color)
    requires AtMostOneKing(b)
    requires forall w, k :: KingAt(b, w, Other(c)) && KingAt(b, k, c) && InTheCorner(r.castle, w, k, Other(c)) ==>
      InCheck(b, c)
    ensures Checked(b, r, c) <==> InCheck(b, c)
  {
    hide PlainMove, Castling, InTheCorner, AtMostOneKing, KingFrom;
    FindKingIsTheKing(b, c);
    var k := FindKing(b, c);
    forall f | OnBoard(f) && PieceMove(b, r, Move(f, k, Other(c), None))
      ensures InCheck(b, c)
    {
      var mv := Move(f, k, Other(c), None);
      MoveIsPlayable(b, r, mv);
      if Castling(b, r, mv) {
        CastleOntoCorner(b, r, mv);
      } else {
        PlainOntoMan(b, r.enpassant, mv);
      }
    }
    forall p, f | KingAt(b, p, c) && OnBoard(f) && PlainMove(b, NOWHERE, Move(f, p, Other(c), None))
      ensures Checked(b, r, c)
    {
      PlainOntoMan(b, r.enpassant, Move(f, p, Other(c), None));
    }
  }

  lemma RookBeside(b: Board, rook: Position, k: Position, c: Color)
    requires OnBoard(rook) && At(b, rook) == Man(Rook, Other(c)) && KingAt(b, k, c)
    requires Straight(rook, k) && Dist(rook, k) == 1
    ensures InCheck(b, c)
  {
    assert PlainMove(b, NOWHERE, Move(rook, k, Other(c), None));
  }

  lemma KingBeside(b: Board, w: Position, k: Position, c: Color)
    requires KingAt(b, w, c) && KingAt(b, k, Other(c)) && KingStep(k, w)
    ensures InCheck(b, c)
  {
    assert PlainMove(b, NOWHERE, Move(k, w, Other(c), None));
  }

  /** Where the mover's king stands after a move, if it can still castle by the old rights onto a corner. */
  lemma KingHasMoved(b: Board, r: Rights, mv: Move, w: Position, k: Position)
    requires LegalIn(b, r, mv) && KingAt(Apply(b, mv), w, mv.color) && InTheCorner(r.castle, w, k, mv.color)
    ensures w == mv.to && mv.from.x == 4 && mv.from.y == HomeRow(mv.color)
    ensures OnBoard(Position(k.x, HomeRow(mv.color)))
    ensures At(b, Position(k.x, HomeRow(mv.color))) == Man(Rook, mv.color)
    ensures w.x == 5 ==> KingStep(mv.from, w) && !IsCastle(b, mv) && At(b, mv.from) == Man(King, mv.color)
    ensures w.x == 2 ==> w.y == HomeRow(mv.color)
  {
    hide Attacked, Clear, PawnsInside, EnPassantOk, InCheck, NoRepeats, RookPath, Checked, Apply, RightLetter;
    NoKingTaken(b, r, mv);
    KingOrigin(b, mv, w, mv.color);
    if IsCastle(b, mv) {
      CastleFromHome(b, r, mv);
    }
    var side := k.x > w.x;
    assert AtHome(b, mv.color, side);
    var home := Position(4, HomeRow(mv.color));
    assert KingAt(b, home, mv.color);
    assert Origin(b, mv, w) == home;
  }

  /** So no king of the other side is in that corner yet, */
  lemma NoKingInCorner(b: Board, r: Rights, mv: Move, w: Position, k: Position)
    requires LegalIn(b, r, mv) && KingAt(Apply(b, mv), w, mv.color) && KingAt(b, k, Other(mv.color))
    ensures !InTheCorner(r.castle, w, k, mv.color)
  {
    if InTheCorner(r.castle, w, k, mv.color) {
      KingHasMoved(b, r, mv, w, k);
      hide Legal, InCheck, Apply;
      var rook := Position(k.x, HomeRow(mv.color));
      if k != rook {
        RookBeside(b, rook, k, Other(mv.color));
      }
    }
  }

  /** and the only way into it is along its file, past the rook. */
  lemma IntoCorner(b: Board, r: Rights, mv: Move, k: Position, to: Position, w: Position, rook: Position)
    requires LegalIn(b, r, mv) && KingAt(b, k, Other(mv.color)) && !InCheck(Apply(b, mv), mv.color)
    requires KingAt(Apply(b, mv), w, mv.color) && KingAt(Apply(b, mv), k, Other(mv.color))
    requires OnBoard(to) && KingStep(k, to) && to != k && InTheCorner(r.castle, w, to, mv.color)
    requires rook.x == to.x && rook.y == HomeRow(mv.color)
    ensures OnBoard(rook) && At(b, rook) == Man(Rook, mv.color) && rook != to && rook != mv.from && rook != mv.to
    ensures Straight(rook, to) && Dist(rook, to) == 1 && !IsCastle(b, mv) && !IsEnPassant(b, mv) && mv.from != mv.to
  {
    hide *;
    OtherSideIsSafe(b, r, mv);
    CornerKing(b, r, mv, w, to, rook);
    RookIsNoKing(b, rook, k, mv.color);
    if KingStep(k, w) {
      KingBeside(Apply(b, mv), w, k, mv.color);
    }
    if Straight(rook, k) && Dist(rook, k) == 1 {
      RookBeside(b, rook, k, Other(mv.color));
    }
    PastTheRook(k, to, w, rook);
  }

  lemma RookIsNoKing(b: Board, rook: Position, k: Position, c: Color)
    requires OnBoard(rook) && At(b, rook) == Man(Rook, c) && KingAt(b, k, Other(c))
    ensures OnBoard(k) && k != rook && Other(Other(c)) == c
  {
  }

  lemma OtherSideIsSafe(b: Board, r: Rights, mv: Move)
    requires LegalIn(b, r, mv)
    ensures !InCheck(b, Other(mv.color))
  {
    hide InCheck, KingsOk, PawnsInside, RightsHome, NoRepeats, EnPassantOk, Legal;
  }

  /** A king that is next to neither steps beside the rook only along its file. */
  lemma PastTheRook(k: Position, to: Position, w: Position, rook: Position)
    requires OnBoard(k) && OnBoard(to) && OnBoard(w) && OnBoard(rook) && KingStep(k, to) && k != to
    requires !KingStep(k, w) && !(Straight(rook, k) && Dist(rook, k) == 1) && k != rook
    requires rook.x == to.x && w.y == to.y && -1 <= w.y - rook.y <= 1
    requires (w.x == 5 && to.x == 7) || (w.x == 2 && to.x == 0 && w.y == rook.y)
    ensures rook != to && Straight(rook, to) && Dist(rook, to) == 1 && w.x == 5
  {
  }

  lemma CornerKing(b: Board, r: Rights, mv: Move, w: Position, to: Position, rook: Position)
    requires LegalIn(b, r, mv) && KingAt(Apply(b, mv), w, mv.color) && InTheCorner(r.castle, w, to, mv.color)
    requires OnBoard(to) && rook.x == to.x && rook.y == HomeRow(mv.color)
    ensures w == mv.to && OnBoard(rook) && At(b, rook) == Man(Rook, mv.color) && rook != mv.from && rook != mv.to
    ensures mv.from != mv.to && (w.x == 5 ==> !IsCastle(b, mv) && !IsEnPassant(b, mv))
    ensures w.y == to.y && -1 <= w.y - rook.y <= 1 && OnBoard(w)
    ensures (w.x == 5 && to.x == 7) || (w.x == 2 && to.x == 0 && w.y == rook.y)
  {
    KingHasMoved(b, r, mv, w, to);
    hide LegalIn, Apply, RightLetter;
    assert rook == Position(to.x, HomeRow(mv.color));
  }

  lemma NoCastleNorPawn(b: Board, m: Move)
    requires OnBoard(m.from) && OnBoard(m.to) && KingAt(b, m.from, m.color) && KingStep(m.from, m.to)
    ensures !IsCastle(b, m) && !IsEnPassant(b, m)
  {
  }

  /** There it is in check. */
  lemma IntoCornerIsCheck(b: Board, r: Rights, mv: Move, m: Move, w: Position)
    requires LegalIn(b, r, mv) && KingAt(b, m.from, Other(mv.color)) && !InCheck(Apply(b, mv), mv.color)
    requires KingAt(Apply(b, mv), w, mv.color) && KingAt(Apply(b, mv), m.from, Other(mv.color))
    requires OnBoard(m.to) && KingStep(m.from, m.to) && m.to != m.from && m.color == Other(mv.color)
    requires InTheCorner(r.castle, w, m.to, mv.color)
    ensures InCheck(Apply(Apply(b, mv), m), m.color)
  {
    hide LegalIn, Apply, InCheck, Straight, Dist, KingStep, IsCastle, IsEnPassant, InTheCorner;
    var b', rook := Apply(b, mv), Position(m.to.x, HomeRow(mv.color));
    IntoCorner(b, r, mv, m.from, m.to, w, rook);
    ApplyAt(b, mv, rook);
    ApplyAt(b', m, rook);
    NoCastleNorPawn(b', m);
    KingArrives(b', m, m.color);
    RookBeside(Apply(b', m), rook, m.to, m.color);
  }

  // ----- replies -----

  /** What is known after a legal move, apart from the move. */
  lemma AfterLegal(b: Board, r: Rights, mv: Move)
    requires LegalIn(b, r, mv)
    ensures var b' := Apply(b, mv); Sound(b', RightsAfter(r, b', mv), Other(mv.color)) && !InCheck(b', mv.color)
    ensures forall q :: KingAt(Apply(b, mv), q, Other(mv.color)) <==> KingAt(b, q, Other(mv.color))
    ensures AtMostOneKing(b) && AtMostOneKing(Apply(b, mv)) && HasKing(b, Other(mv.color))
  {
    hide PieceMove, Apply, PawnsInside, RightsHome, EnPassantOk, InCheck, Checked, NoRepeats, KeepRights, NextEnPassant;
    SoundAfter(b, r, mv);
    NoSelfCheck(b, r, mv);
    LegalIsMove(b, r, mv);
    KingsStay(b, r, mv);
  }

  lemma PlainIsNoCastle(b: Board, ep: Position, m: Move)
    requires OnBoard(m.from) && PlainMove(b, ep, m)
    ensures OnBoard(m.to) && m.from != m.to && Owned(At(b, m.from), m.color) && !IsCastle(b, m)
    ensures KingAt(b, m.from, m.color) ==> KingStep(m.from, m.to)
  {
    hide Clear, Straight, Diagonal, PawnStep, KnightStep;
  }

  /** After a reply that is not castling the mover's king still cannot come to the other one in a corner, unless
      that one is attacked anyway. */
  lemma AfterPlainReply(b: Board, r: Rights, mv: Move, m: Move, w: Position, k: Position)
    requires LegalIn(b, r, mv) && m.color == Other(mv.color) && m.promo == None && OnBoard(m.from)
    requires var b' := Apply(b, mv); PlainMove(b', RightsAfter(r, b', mv).enpassant, m)
    requires OnBoard(m.to) && KingAt(Apply(Apply(b, mv), m), w, mv.color) && KingAt(Apply(Apply(b, mv), m), k, m.color)
    requires InTheCorner(r.castle, w, k, mv.color)
    ensures InCheck(Apply(Apply(b, mv), m), m.color)
  {
    AfterLegal(b, r, mv);
    var b' := Apply(b, mv);
    var r' := RightsAfter(r, b', mv);
    hide LegalIn, InTheCorner, Apply, InCheck, KeepRights, NextEnPassant, RightsAfter;
    PlainIsNoCastle(b', r'.enpassant, m);
    hide PlainMove, IsCastle;
    KingOrigin(b', m, w, mv.color);
    KingOrigin(b', m, k, m.color);
    assert KingAt(b', w, mv.color);
    if k == m.to {
      IntoCornerIsCheck(b, r, mv, m, w);
    } else {
      NoKingInCorner(b, r, mv, w, k);
    }
  }

  /** After the move, and after any plain reply to it, the old rights answer the question for check as the new ones. */
  lemma ChecksAgree(b: Board, r: Rights, mv: Move)
    requires LegalIn(b, r, mv)
    ensures var b', c := Apply(b, mv), Other(mv.color);
      && (Checked(b', r, c) <==> InCheck(b', c))
      && (Checked(b', RightsAfter(r, b', mv), c) <==> InCheck(b', c))
  {
    AfterLegal(b, r, mv);
    var b', c := Apply(b, mv), Other(mv.color);
    hide LegalIn, Apply, InCheck, Checked, InTheCorner, KeepRights, NextEnPassant, PawnsInside, EnPassantOk, NoRepeats,
      KingAt, AtMostOneKing, HasKing;
    forall w, k | KingAt(b', w, mv.color) && KingAt(b', k, c)
      ensures !InTheCorner(r.castle, w, k, mv.color)
    {
      NoKingInCorner(b, r, mv, w, k);
    }
    CheckedButCorner(b', r, c);
    HomeFileOfRights(b', RightsAfter(r, b', mv).castle, mv.color);
    CheckedIsInCheck(b', RightsAfter(r, b', mv), c);
  }

  lemma ReplyChecksAgree(b: Board, r: Rights, mv: Move, m: Move)
    requires LegalIn(b, r, mv) && m.color == Other(mv.color) && m.promo == None && OnBoard(m.from)
    requires var b' := Apply(b, mv); PlainMove(b', RightsAfter(r, b', mv).enpassant, m)
    ensures OnBoard(m.to)
    ensures var b', c := Apply(b, mv), Other(mv.color);
      && (Checked(Apply(b', m), r, c) <==> InCheck(Apply(b', m), c))
      && (Checked(Apply(b', m), RightsAfter(r, b', mv), c) <==> InCheck(Apply(b', m), c))
  {
    AfterLegal(b, r, mv);
    var b', c := Apply(b, mv), Other(mv.color);
    var r' := RightsAfter(r, b', mv);
    PlainIsNoCastle(b', r'.enpassant, m);
    hide LegalIn, Apply, InCheck, Checked, InTheCorner, RightsAfter, Sound, PlainMove, KingAt, AtMostOneKing, IsCastle;
    ApplyKeepsOneKing(b', m);
    forall w, k | KingAt(Apply(b', m), w, mv.color) && KingAt(Apply(b', m), k, c)
        && InTheCorner(r.castle, w, k, mv.color)
      ensures InCheck(Apply(b', m), c)
    {
      AfterPlainReply(b, r, mv, m, w, k);
    }
    CheckedButCorner(Apply(b', m), r, c);
    CheckAfterMove(b', r', m);
  }

  /** A king in check does not castle. */
  lemma NoCastleInCheck(b: Board, r: Rights, m: Move)
    requires AtMostOneKing(b) && InCheck(b, m.color) && OnBoard(m.from)
    ensures !Castling(b, r, m)
  {
    hide PlainMove, RookPath, CastleRight, CastleShape;
    if Castling(b, r, m) {
      var k :| KingAt(b, k, m.color) && Attacked(b, NOWHERE, k, Other(m.color));
      assert KingAt(b, m.from, m.color);
      var f :| OnBoard(f) && PlainMove(b, NOWHERE, Move(f, k, Other(m.color), None));
      PlainOntoMan(b, r.enpassant, Move(f, k, Other(m.color), None));
    }
  }

  /** What a recorded square adds to the moves without one. */
  lemma SquareAdds(b: Board, ep: Position, m: Move)
    requires OnBoard(m.from)
    ensures PlainMove(b, NOWHERE, m) ==> PlainMove(b, ep, m) && OnBoard(m.to) && !IsEnPassant(b, m)
    ensures PlainMove(b, ep, m) && !PlainMove(b, NOWHERE, m) ==>
      OnBoard(m.to) && IsEnPassant(b, m) && m.to == ep && TakesOn(b, ep, m.color)
  {
    hide Clear, Straight, Diagonal;
  }

  /** A reply by the old rights is one by the new rights that is not en passant. */
  lemma ReplyByOldRights(b: Board, r: Rights, mv: Move, m: Move)
    requires LegalIn(b, r, mv) && InCheck(Apply(b, mv), Other(mv.color))
    requires !TakesOn(Apply(b, mv), r.enpassant, Other(mv.color))
    ensures var b', c := Apply(b, mv), Other(mv.color);
      Reply(b', r, c, m) <==> Reply(b', RightsAfter(r, b', mv), c, m) && !IsEnPassant(b', m)
  {
    AfterLegal(b, r, mv);
    var b', c := Apply(b, mv), Other(mv.color);
    var r' := RightsAfter(r, b', mv);
    hide LegalIn, Apply, InCheck, Checked, RightsAfter, Sound, PlainMove, Castling, TakesOn, IsEnPassant;
    if OnBoard(m.from) && OnBoard(m.to) && m.color == c && m.promo == None {
      NoCastleInCheck(b', r, m);
      NoCastleInCheck(b', r', m);
      SquareAdds(b', r.enpassant, m);
      SquareAdds(b', r'.enpassant, m);
      if PlainMove(b', r'.enpassant, m) {
        ReplyChecksAgree(b, r, mv, m);
      }
    }
  }

  lemma StuckIsNoReply(b: Board, r: Rights, c: Color)
    ensures Stuck(b, r, c) <==> forall m :: !Reply(b, r, c, m)
  {
    hide PieceMove, Checked, Apply;
    forall m | Reply(b, r, c, m)
      ensures !Stuck(b, r, c)
    {
      MoveIsPlayable(b, r, m);
      assert Legal(b, r, Move(m.from, m.to, At(b, m.from).color, None));
    }
    forall p, q | OnBoard(p) && Owned(At(b, p), c) && Legal(b, r, Move(p, q, At(b, p).color, None))
      ensures exists m :: Reply(b, r, c, m)
    {
      MoveIsPlayable(b, r, Move(p, q, c, None));
      assert Reply(b, r, c, Move(p, q, c, None));
    }
  }

  lemma StuckBut(b: Board, r: Rights, r': Rights, c: Color)
    requires forall m :: Reply(b, r, c, m) <==> Reply(b, r', c, m) && !IsEnPassant(b, m)
    ensures Stuck(b, r, c) <==> Stuck(b, r', c) || OnlyEnPassant(b, r', c)
  {
    hide Stuck, Reply, IsEnPassant;
    StuckIsNoReply(b, r, c);
    StuckIsNoReply(b, r', c);
  }

  /** What the search for mate finds by the old rights. */
  lemma MateByOldRights(b: Board, r: Rights, mv: Move)
    requires LegalIn(b, r, mv) && InCheck(Apply(b, mv), Other(mv.color))
    requires !TakesOn(Apply(b, mv), r.enpassant, Other(mv.color))
    ensures var b', c := Apply(b, mv), Other(mv.color);
      var r' := RightsAfter(r, b', mv);
      CheckMate(b', r, c) <==> CheckMate(b', r', c) || OnlyEnPassant(b', r', c)
  {
    var b', c := Apply(b, mv), Other(mv.color);
    var r' := RightsAfter(r, b', mv);
    hide LegalIn, Apply, InCheck, Checked, RightsAfter, TakesOn, Reply, IsEnPassant, Stuck, OnlyEnPassant;
    ChecksAgree(b, r, mv);
    forall m
      ensures Reply(b', r, c, m) <==> Reply(b', r', c, m) && !IsEnPassant(b', m)
    {
      ReplyByOldRights(b, r, mv, m);
    }
    StuckBut(b', r, r', c);
  }

  /** A search in check is disturbed exactly by a pawn that could take on the square recorded before the move. */
  lemma UndisturbedIff(b: Board, r: Rights, mv: Move)
    requires LegalIn(b, r, mv) && InCheck(Apply(b, mv), Other(mv.color))
    ensures Undisturbed(Apply(b, mv), b, r, Other(mv.color)) <==> !TakesOn(Apply(b, mv), r.enpassant, Other(mv.color))
  {
    AfterLegal(b, r, mv);
    BoardChanges(b, r, mv);
    var b', c := Apply(b, mv), Other(mv.color);
    hide LegalIn, Apply, InCheck, Sound, PlainMove, Castling, TakesOn, Special, RightsAfter;
    forall m: Move | OnBoard(m.from) && m.color == c && PieceMove(b', r, m) && !TakesOn(b', r.enpassant, c)
      ensures OnBoard(m.to) && !Special(b', m)
    {
      NoCastleInCheck(b', r, m);
      QuietIsNotSpecial(b', r.enpassant, m);
    }
    if TakesOn(b', r.enpassant, c) {
      var m := TakingMove(b', r.enpassant, c);
      assert PieceMove(b', r, m);
    }
  }

  lemma BoardChanges(b: Board, r: Rights, mv: Move)
    requires LegalIn(b, r, mv)
    ensures Apply(b, mv) != b
  {
    hide Sound, Checked, Apply, Castling;
    MoveIsPlayable(b, r, mv);
    ApplyAt(b, mv, mv.from);
  }

  lemma QuietIsNotSpecial(b: Board, ep: Position, m: Move)
    requires OnBoard(m.from) && PlainMove(b, ep, m) && !TakesOn(b, ep, m.color)
    ensures OnBoard(m.to) && !Special(b, m)
  {
    PlainIsNoCastle(b, ep, m);
    SquareAdds(b, ep, m);
    hide PlainMove, TakesOn, IsEnPassant, IsCastle;
  }

  lemma TakingMove(b: Board, ep: Position, c: Color) returns (m: Move)
    requires TakesOn(b, ep, c)
    ensures OnBoard(m.from) && OnBoard(m.to) && m.color == c && m.promo == None && PlainMove(b, ep, m) && Special(b, m)
  {
    var f :| OnBoard(f) && At(b, f) == Man(Pawn, c) && Abs(f.x - ep.x) == 1 && ep.y == f.y + Ahead(c);
    m := Move(f, ep, c, None);
  }

  // ----- the question for check -----

  /** Asked with the other colour, a pawn that arrives on its last row stays a pawn. */
  lemma GivenAt(b: Board, r: Rights, mv: Move, q: Position)
    requires LegalIn(b, r, mv) && OnBoard(q)
    ensures At(Apply(b, Given(mv)), q) ==
      if Promotes(b, mv) && q == mv.to then Man(Pawn, mv.color) else At(Apply(b, mv), q)
    ensures Promotes(b, mv) ==> Owned(At(Apply(b, mv), mv.to), mv.color) && !IsKing(At(Apply(b, mv), mv.to))
  {
    PawnGoesAhead(b, r, mv);
    hide LegalIn, Apply, IsEnPassant, Middle, Corner, Victim, At;
    ApplyAt(b, mv, q);
    ApplyAt(b, mv, mv.to);
    ApplyAt(b, Given(mv), q);
  }

  lemma PawnGoesAhead(b: Board, r: Rights, mv: Move)
    requires LegalIn(b, r, mv)
    ensures mv.from != mv.to && Owned(At(b, mv.from), mv.color)
    ensures At(b, mv.from).kind == Pawn ==> mv.to.y != LastRow(Other(mv.color))
  {
    hide KingsOk, RightsHome, EnPassantOk, InCheck, NoRepeats, Checked, Apply, Attacked, RookPath, Clear;
  }

  lemma AlikeMove(a: Board, b: Board, c: Color, m: Move)
    requires AlikeFor(a, b, c) && OnBoard(m.from) && At(a, m.from) == At(b, m.from) && m.color == c
    requires PlainMove(a, NOWHERE, m)
    ensures PlainMove(b, NOWHERE, m)
  {
  }

  lemma LastRowPawn(b: Board, m: Move)
    requires OnBoard(m.from) && At(b, m.from) == Man(Pawn, m.color) && m.from.y == LastRow(m.color)
    ensures !PlainMove(b, NOWHERE, m)
  {
  }

  /** `a` is the board after the move with a pawn in place of the piece it is promoted to. */
  ghost predicate Unpromoted(a: Board, b: Board, mv: Move, promotes: bool) {
    && (promotes ==> OnBoard(mv.to) && mv.to.y == LastRow(mv.color))
    && (promotes ==> Owned(At(b, mv.to), mv.color) && !IsKing(At(b, mv.to)))
    && forall q {:trigger At(a, q)} {:trigger At(b, q)} :: OnBoard(q) ==>
      At(a, q) == if promotes && q == mv.to then Man(Pawn, mv.color) else At(b, q)
  }

  lemma GivenIsUnpromoted(b: Board, r: Rights, mv: Move)
    requires LegalIn(b, r, mv)
    ensures Unpromoted(Apply(b, Given(mv)), Apply(b, mv), mv, Promotes(b, mv))
  {
    hide LegalIn, Apply;
    forall q | OnBoard(q)
      ensures At(Apply(b, Given(mv)), q) ==
        if Promotes(b, mv) && q == mv.to then Man(Pawn, mv.color) else At(Apply(b, mv), q)
    {
      GivenAt(b, r, mv, q);
    }
    GivenAt(b, r, mv, mv.to);
  }

  lemma UnpromotedKings(a: Board, b: Board, mv: Move, promotes: bool)
    requires Unpromoted(a, b, mv, promotes)
    ensures forall p, c {:trigger KingAt(a, p, c)} {:trigger KingAt(b, p, c)} :: KingAt(a, p, c) <==> KingAt(b, p, c)
  {
  }

  lemma UnpromotedAttack(a: Board, b: Board, mv: Move, promotes: bool, f: Position, k: Position)
    requires Unpromoted(a, b, mv, promotes) && OnBoard(f) && KingAt(a, k, Other(mv.color))
    ensures PlainMove(a, NOWHERE, Move(f, k, mv.color, None)) <==>
      PlainMove(b, NOWHERE, Move(f, k, mv.color, None)) && !(promotes && f == mv.to)
  {
    var m := Move(f, k, mv.color, None);
    assert AlikeFor(a, b, mv.color) && AlikeFor(b, a, mv.color);
    hide PlainMove;
    if promotes && f == mv.to {
      LastRowPawn(a, m);
    } else if PlainMove(a, NOWHERE, m) {
      AlikeMove(a, b, mv.color, m);
    } else if PlainMove(b, NOWHERE, m) {
      AlikeMove(b, a, mv.color, m);
    }
  }

  /** The question for check finds every man that gives it but a pawn just promoted. */
  lemma GivenCheck(b: Board, r: Rights, mv: Move)
    requires LegalIn(b, r, mv)
    ensures Checked(Apply(b, Given(mv)), r, Other(mv.color)) <==> ShownCheck(b, mv)
  {
    var a, b', c := Apply(b, Given(mv)), Apply(b, mv), Other(mv.color);
    AfterLegal(b, r, mv);
    GivenIsUnpromoted(b, r, mv);
    UnpromotedKings(a, b', mv, Promotes(b, mv));
    hide LegalIn, Apply, Sound, InTheCorner, Checked, PlainMove, RightsAfter, Unpromoted, KingAt, Promotes;
    forall w, k | KingAt(a, w, mv.color) && KingAt(a, k, c)
      ensures !InTheCorner(r.castle, w, k, mv.color)
    {
      NoKingInCorner(b, r, mv, w, k);
    }
    CheckedButCorner(a, r, c);
    forall f, k | OnBoard(f) && KingAt(a, k, c)
      ensures PlainMove(a, NOWHERE, Move(f, k, mv.color, None)) <==>
        Attacks(b, mv, f, k) && !(Promotes(b, mv) && f == mv.to)
    {
      UnpromotedAttack(a, b', mv, Promotes(b, mv), f, k);
    }
    assert forall f, k :: Attacks(b, mv, f, k) ==> OnBoard(f) && KingAt(a, k, c);
  }

  lemma ShownIsCheck(b: Board, r: Rights, mv: Move)
    requires LegalIn(b, r, mv) && ShownCheck(b, mv)
    ensures InCheck(Apply(b, mv), Other(mv.color))
  {
    hide LegalIn, Apply, PlainMove, KingAt, Promotes;
  }

  // ----- when the marks are right -----

  /** Check is marked as it is, unless only the piece a pawn is promoted to gives it; then it is not marked. */
  lemma CheckMarkIsRightIff(b: Board, r: Rights, mv: Move)
    requires LegalIn(b, r, mv)
    ensures var b', c := Apply(b, mv), Other(mv.color);
      (ShownCheck(b, mv) <==> Checked(b', RightsAfter(r, b', mv), c)) <==> !OnlyPromotedChecks(b, mv)
  {
    ChecksAgree(b, r, mv);
    hide LegalIn, Apply, PlainMove, Checked, RightsAfter, KingAt, Promotes;
    var b', c := Apply(b, mv), Other(mv.color);
    assert InCheck(b', c) <==> exists f, k :: Attacks(b, mv, f, k) by {
      forall k, f | KingAt(b', k, c) && OnBoard(f) && PlainMove(b', NOWHERE, Move(f, k, mv.color, None))
        ensures Attacks(b, mv, f, k)
      {
      }
    }
    hide Attacks, InCheck;
  }

  /** Mate is marked as it is, unless only a promoted piece checks or only captures en passant save the king. */
  lemma MateMarkIsRightIff(b: Board, r: Rights, mv: Move)
    requires LegalIn(b, r, mv) && !TakesOn(Apply(b, mv), r.enpassant, Other(mv.color))
    ensures var b', c := Apply(b, mv), Other(mv.color);
      var r' := RightsAfter(r, b', mv);
      (ShownCheck(b, mv) && CheckMate(b', r, c) <==> CheckMate(b', r', c))
        <==> !(OnlyPromotedChecks(b, mv) && CheckMate(b', r', c)) && !(ShownCheck(b, mv) && OnlyEnPassant(b', r', c))
  {
    ChecksAgree(b, r, mv);
    CheckMarkIsRightIff(b, r, mv);
    hide LegalIn, Apply, PlainMove, Checked, RightsAfter, Attacks, OnlyPromotedChecks, ShownCheck, OnlyEnPassant, Stuck,
      InCheck, TakesOn, Reply;
    if InCheck(Apply(b, mv), Other(mv.color)) {
      MateByOldRights(b, r, mv);
      NotBoth(b, r, mv);
    }
  }

  /** A side that is mated has no reply. */
  lemma NotBoth(b: Board, r: Rights, mv: Move)
    requires LegalIn(b, r, mv)
    ensures var b', c := Apply(b, mv), Other(mv.color);
      var r' := RightsAfter(r, b', mv);
      !(CheckMate(b', r', c) && OnlyEnPassant(b', r', c))
  {
    hide LegalIn, Apply, RightsAfter, Checked, Stuck, IsEnPassant, Reply;
    StuckIsNoReply(Apply(b, mv), RightsAfter(r, Apply(b, mv), mv), Other(mv.color));
  }

  lemma OnlyEnPassantTakes(b: Board, r: Rights, c: Color)
    requires AtMostOneKing(b) && InCheck(b, c) && OnlyEnPassant(b, r, c)
    ensures TakesOn(b, r.enpassant, c)
  {
    hide PlainMove, Apply, Castling, TakesOn, InCheck, AtMostOneKing, Checked, IsEnPassant;
    var m :| Reply(b, r, c, m);
    NoCastleInCheck(b, r, m);
    SquareAdds(b, r.enpassant, m);
  }

  /** Both marks are right when nothing is promoted and no pawn could take on the old or the new square. */
  lemma PlainMarksAreRight(b: Board, r: Rights, mv: Move)
    requires LegalIn(b, r, mv) && !Promotes(b, mv) && !TakesOn(Apply(b, mv), r.enpassant, Other(mv.color))
    requires !TakesOn(Apply(b, mv), RightsAfter(r, Apply(b, mv), mv).enpassant, Other(mv.color))
    ensures var b', c := Apply(b, mv), Other(mv.color);
      var r' := RightsAfter(r, b', mv);
      && (ShownCheck(b, mv) <==> Checked(b', r', c))
      && (ShownCheck(b, mv) && CheckMate(b', r, c) <==> CheckMate(b', r', c))
  {
    var b', c := Apply(b, mv), Other(mv.color);
    AfterLegal(b, r, mv);
    CheckMarkIsRightIff(b, r, mv);
    MateMarkIsRightIff(b, r, mv);
    ChecksAgree(b, r, mv);
    hide LegalIn, Apply, PlainMove, Checked, RightsAfter, Attacks, ShownCheck, OnlyEnPassant, Stuck, InCheck, TakesOn,
      Reply, AtMostOneKing, Sound;
    if InCheck(b', c) && OnlyEnPassant(b', RightsAfter(r, b', mv), c) {
      OnlyEnPassantTakes(b', RightsAfter(r, b', mv), c);
    }
  }
}
