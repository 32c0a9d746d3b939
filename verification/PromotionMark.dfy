/** A promotion that mates gets no mark at all: White's pawn goes a7-a8 and the new queen mates the king on h8, with
    White's king on g6. The question for check is asked with the pawn still a pawn. */
module PromotionMark {
  import opened ChessBoard
  import opened Rules
  import opened Fen
  import opened Game
  import opened Invariant
  import opened Reachable
  import opened Mate
  import opened Marks
  import opened ChessEngine

  function MatingPiece(man: Kind, at: Position, p: Position): Piece {
    if p.x == 6 && p.y == 5 then Man(King, White)
    else if p.x == 7 && p.y == 7 then Man(King, Black)
    else if p == at then Man(man, White)
    else NoPiece
  }

  /** The pawn is still on a7, or a queen is on a8. */
  ghost predicate Mating(b: Board, man: Kind, at: Position) {
    && at.x == 0 && ((man == Pawn && at.y == 6) || (man == Queen && at.y == 7))
    && forall p {:trigger At(b, p)} :: OnBoard(p) ==> At(b, p) == MatingPiece(man, at, p)
  }

  function PawnBoard(): Board {
    seq(64, i requires 0 <= i < 64 => MatingPiece(Pawn, Position(0, 6), SquareOf(i)))
  }

  function PawnState(): State {
    State(Placement(PawnBoard()), White, 1, "-", NOWHERE, 0)
  }

  function PawnGame(): Game {
    Game(PawnBoard(), PawnState(), White, [PawnState()])
  }

  lemma PawnStands(at: Position)
    requires at == Position(0, 6)
    ensures Mating(PawnBoard(), Pawn, at)
  {
    forall p | OnBoard(p)
      ensures At(PawnBoard(), p) == MatingPiece(Pawn, at, p)
    {
      ColumnAndRow(p.x, p.y);
    }
  }

  lemma MatingKings(b: Board, man: Kind, at: Position, w: Position, k: Position)
    requires Mating(b, man, at) && w.x == 6 && w.y == 5 && k.x == 7 && k.y == 7
    ensures KingsOk(b) && KingAt(b, w, White) && KingAt(b, k, Black)
    ensures forall p, c :: KingAt(b, p, c) ==> p == if c == White then w else k
  {
    assert At(b, w) == MatingPiece(man, at, w) && At(b, k) == MatingPiece(man, at, k);
    assert KingAt(b, w, White) && KingAt(b, k, Black);
    forall p, c | KingAt(b, p, c)
      ensures p == if c == White then w else k
    {
      assert At(b, p) == MatingPiece(man, at, p);
    }
  }

  /** Nothing but the queen attacks a king. */
  lemma OnlyQueenAttacks(b: Board, man: Kind, at: Position, k: Position, f: Position, c: Color)
    requires Mating(b, man, at) && KingAt(b, k, c) && OnBoard(f)
    requires PlainMove(b, NOWHERE, Move(f, k, Other(c), None))
    ensures man == Queen && f == at && c == Black
  {
    hide Clear;
    assert At(b, f) == MatingPiece(man, at, f) && At(b, k) == MatingPiece(man, at, k);
  }

  lemma NoCheckYet(b: Board, man: Kind, at: Position, c: Color)
    requires Mating(b, man, at) && (man == Pawn || c == White)
    ensures !InCheck(b, c)
  {
    hide Mating, PlainMove, KingAt;
    forall k, f | KingAt(b, k, c) && OnBoard(f) && PlainMove(b, NOWHERE, Move(f, k, Other(c), None))
      ensures false
    {
      OnlyQueenAttacks(b, man, at, k, f, c);
    }
  }

  lemma PawnSound(b: Board, at: Position, r: Rights)
    requires Mating(b, Pawn, at) && r == Rights("-", NOWHERE)
    ensures Sound(b, r, White)
  {
    MatingKings(b, Pawn, at, Position(6, 5), Position(7, 7));
    NoCheckYet(b, Pawn, at, Black);
    assert PawnsInside(b);
    hide KingsOk, InCheck, PawnsInside, Mating;
  }

  predicate Arrives(mv: Move) {
    mv.from.x == 0 && mv.from.y == 6 && mv.to.x == 0 && mv.to.y == 7 && mv.color == White && mv.promo == None
  }

  lemma QueenStands(b: Board, mv: Move)
    requires Mating(b, Pawn, mv.from) && Arrives(mv)
    ensures PlainMove(b, NOWHERE, mv) && Promotes(b, mv) && Mating(Apply(b, mv), Queen, mv.to)
  {
    assert At(b, mv.from) == MatingPiece(Pawn, mv.from, mv.from) && At(b, mv.to) == MatingPiece(Pawn, mv.from, mv.to);
    forall p | OnBoard(p)
      ensures At(Apply(b, mv), p) == MatingPiece(Queen, mv.to, p)
    {
      ApplyAt(b, mv, p);
      assert At(b, p) == MatingPiece(Pawn, mv.from, p);
    }
  }

  lemma ArrivalIsLegal(b: Board, mv: Move, r: Rights)
    requires Mating(b, Pawn, mv.from) && Arrives(mv) && r == Rights("-", NOWHERE)
    ensures LegalIn(b, r, mv)
  {
    PawnSound(b, mv.from, r);
    QueenStands(b, mv);
    NoCheckYet(Apply(b, mv), Queen, mv.to, White);
    hide Sound, PlainMove, Apply, InCheck, Mating, Checked, Castling;
    CheckAfterMove(b, r, mv);
  }

  lemma NoShownCheck(b: Board, mv: Move)
    requires Mating(b, Pawn, mv.from) && Arrives(mv)
    ensures !ShownCheck(b, mv)
  {
    QueenStands(b, mv);
    hide Mating, Apply, PlainMove, KingAt, Promotes;
    forall f, k | Attacks(b, mv, f, k)
      ensures f == mv.to
    {
      OnlyQueenAttacks(Apply(b, mv), Queen, mv.to, k, f, Black);
    }
  }

  // ----- mate -----

  /** The queen sees along the last row. */
  lemma QueenSees(b: Board, at: Position, k: Position)
    requires at.x == 0 && at.y == 7 && k.y == 7 && k.x in {6, 7} && KingAt(b, k, Black)
    requires At(b, at) == Man(Queen, White) && forall x :: 0 < x < k.x ==> Vacant(b, Position(x, 7))
    ensures InCheck(b, Black)
  {
    forall i | 1 <= i < Dist(at, k)
      ensures Vacant(b, Along(at, k, i))
    {
      assert Along(at, k, i) == Position(i, 7);
    }
    assert PlainMove(b, NOWHERE, Move(at, k, White, None));
  }

  lemma QueenChecks(b: Board, at: Position, k: Position)
    requires Mating(b, Queen, at) && k.x == 7 && k.y == 7
    ensures InCheck(b, Black)
  {
    MatingKings(b, Queen, at, Position(6, 5), k);
    assert At(b, at) == MatingPiece(Queen, at, at);
    forall x | 0 < x < 7
      ensures Vacant(b, Position(x, 7))
    {
      assert At(b, Position(x, 7)) == MatingPiece(Queen, at, Position(x, 7));
    }
    QueenSees(b, at, k);
  }

  /** A plain reply is a step of the king. */
  lemma KingSteps(b: Board, at: Position, ep: Position, m: Move)
    requires Mating(b, Queen, at) && OnBoard(m.from) && m.color == Black && PlainMove(b, ep, m)
    ensures OnBoard(m.to) && m.from.x == 7 && m.from.y == 7 && m.to != m.from && KingStep(m.from, m.to)
    ensures KingAt(b, m.from, Black)
  {
    assert At(b, m.from) == MatingPiece(Queen, at, m.from);
  }

  lemma StepAt(b: Board, at: Position, m: Move, q: Position)
    requires Mating(b, Queen, at) && OnBoard(m.from) && OnBoard(m.to) && OnBoard(q) && m.color == Black
    requires m.from.x == 7 && m.from.y == 7 && m.to != m.from && KingStep(m.from, m.to)
    ensures At(Apply(b, m), q) ==
      if q == m.to then Man(King, Black) else if q == m.from then NoPiece else MatingPiece(Queen, at, q)
  {
    ApplyAt(b, m, q);
    assert At(b, q) == MatingPiece(Queen, at, q) && At(b, m.from) == MatingPiece(Queen, at, m.from);
  }

  /** On g8 the queen sees it, on g7 and h7 the other king. */
  lemma StepIsSeen(b: Board, at: Position, m: Move, w: Position)
    requires Mating(b, Queen, at) && OnBoard(m.from) && OnBoard(m.to) && m.color == Black && w.x == 6 && w.y == 5
    requires m.from.x == 7 && m.from.y == 7 && m.to != m.from && KingStep(m.from, m.to)
    ensures InCheck(Apply(b, m), Black)
  {
    var b' := Apply(b, m);
    forall q | OnBoard(q)
      ensures At(b', q) ==
        if q == m.to then Man(King, Black) else if q == m.from then NoPiece else MatingPiece(Queen, at, q)
    {
      StepAt(b, at, m, q);
    }
    hide Apply;
    if m.to.y == 7 {
      assert At(b', at) == Man(Queen, White);
      forall x | 0 < x < 6
        ensures Vacant(b', Position(x, 7))
      {
        assert At(b', Position(x, 7)) == NoPiece;
      }
      QueenSees(b', at, m.to);
    } else {
      assert At(b', w) == Man(King, White);
      KingBeside(b', m.to, w, Black);
    }
  }

  /** No reply is legal by any rights the position is sound with. */
  lemma NoReply(b: Board, at: Position, r: Rights, m: Move)
    requires Mating(b, Queen, at) && Sound(b, r, Black) && InCheck(b, Black)
    ensures !Reply(b, r, Black, m)
  {
    SoundKings(b, r, Black);
    hide Sound, PlainMove, Castling, Apply, InCheck, Checked, Mating;
    if Reply(b, r, Black, m) {
      NoCastleInCheck(b, r, m);
      KingSteps(b, at, r.enpassant, m);
      CheckAfterMove(b, r, m);
      StepIsSeen(b, at, m, Position(6, 5));
    }
  }

  lemma ArrivalMates(b: Board, r: Rights, mv: Move)
    requires Mating(b, Pawn, mv.from) && Arrives(mv) && LegalIn(b, r, mv)
    ensures CheckMate(Apply(b, mv), RightsAfter(r, Apply(b, mv), mv), Black)
  {
    hide Mating, LegalIn, Sound, Apply, InCheck, Checked, Reply, Stuck, RightsAfter, Promotes, PlainMove;
    var b' := Apply(b, mv);
    var r' := RightsAfter(r, b', mv);
    QueenStands(b, mv);
    AfterLegal(b, r, mv);
    ChecksAgree(b, r, mv);
    QueenChecks(b', mv.to, Position(7, 7));
    forall m
      ensures !Reply(b', r', Black, m)
    {
      NoReply(b', mv.to, r', m);
    }
    StuckIsNoReply(b', r', Black);
  }

  /** In a sound game neither mark is set after a legal promotion that mates. */
  lemma PromotionMateIsUnmarked() returns (g: Game, mv: Move)
    ensures Ok(g) && LegalNow(g, mv) && OnBoard(mv.to) && Promotes(g.board, mv)
    ensures !ShownCheck(g.board, mv)
    ensures !TakesOn(Apply(g.board, mv), g.state.enpassant, Other(g.turn))
    ensures CheckMate(Make(g, mv).board, RightsOf(Make(g, mv).state), Make(g, mv).turn)
  {
    hide Mating, Sound, Legal, Apply, Placement, KeepRights, NextEnPassant, DigitSum, ShownCheck, Promotes, PawnBoard,
      CheckMate;
    g, mv := PawnGame(), Move(Position(0, 6), Position(0, 7), White, None);
    PawnStands(mv.from);
    ArrivalIsLegal(g.board, mv, RightsOf(g.state));
    QueenStands(g.board, mv);
    NoShownCheck(g.board, mv);
    ArrivalMates(g.board, RightsOf(g.state), mv);
  }
}
