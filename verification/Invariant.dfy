/** What every reachable game satisfies. */
module Invariant {
  import opened ChessBoard
  import opened Rules
  import opened Fen
  import opened Game

  ghost predicate HasKing(b: Board, c: Color) {
    exists p :: KingAt(b, p, c)
  }

  ghost predicate KingsOk(b: Board) {
    AtMostOneKing(b) && HasKing(b, White) && HasKing(b, Black)
  }

  /** No pawn stands on a first or last row. */
  ghost predicate PawnsInside(b: Board) {
    forall p {:trigger At(b, p)} :: OnBoard(p) && At(b, p).Man? && At(b, p).kind == Pawn ==> 1 <= p.y <= 6
  }

  function HomeRow(c: Color): int {
    if c == White then 0 else 7
  }

  function RightLetter(c: Color, kingside: bool): char {
    if kingside then KingSide(c) else QueenSide(c)
  }

  /** The king of `c` and the rook of that side stand on their first squares. */
  predicate AtHome(b: Board, c: Color, kingside: bool) {
    && b[8 * HomeRow(c) + 4] == Man(King, c)
    && b[8 * HomeRow(c) + (if kingside then 7 else 0)] == Man(Rook, c)
  }

  /** A castling letter vouches for its king and rook. */
  ghost predicate RightsHome(b: Board, castle: string) {
    forall c, side :: RightLetter(c, side) in castle ==> AtHome(b, c, side)
  }

  predicate NoRepeats(s: string) {
    forall i, j :: 0 <= i < j < |s| ==> s[i] != s[j]
  }

  /** The en passant square, if any, lies just behind a pawn of the side that moved last, which
      came from the vacant square on the other side of it. */
  ghost predicate EnPassantOk(b: Board, turn: Color, ep: Position) {
    ep == NOWHERE ||
    (&& OnBoard(ep) && ep.y == PawnRow(Other(turn)) + Ahead(Other(turn))
     && Vacant(b, ep)
     && At(b, Position(ep.x, ep.y + Ahead(Other(turn)))) == Man(Pawn, Other(turn))
     && Vacant(b, Position(ep.x, PawnRow(Other(turn)))))
  }

  /** The king of `c` stands where a man of the other side can take it. */
  ghost predicate InCheck(b: Board, c: Color) {
    exists k :: KingAt(b, k, c) && Attacked(b, NOWHERE, k, Other(c))
  }

  /** What the board, the rights and the side to move have to do with each other. */
  ghost predicate Sound(b: Board, r: Rights, turn: Color) {
    && KingsOk(b)
    && PawnsInside(b)
    && RightsHome(b, r.castle) && NoRepeats(r.castle)
    && EnPassantOk(b, turn, r.enpassant)
    && !InCheck(b, Other(turn))
  }

  ghost predicate Ok(g: Game) {
    && Sound(g.board, RightsOf(g.state), g.turn)
    && g.state.boardFen == Placement(g.board)
    && g.state.turn == g.turn
    && |g.history| >= 1 && g.history[|g.history| - 1] == g.state
  }

  // ----- the start -----

  lemma {:induction false} FullRow(b: Board, y: nat, x: nat)
    requires y < 8 && x <= 8 && forall i :: 8 * y + x <= i < 8 * y + 8 ==> b[i] != NoPiece
    ensures |RowText(b, y, x, 0)| == 8 - x
    ensures forall i :: 0 <= i < 8 - x ==> RowText(b, y, x, 0)[i] == PieceChar(b[8 * y + x + i])
    decreases 8 - x
  {
    if x < 8 {
      FullRow(b, y, x + 1);
      assert RowText(b, y, x, 0) == [PieceChar(b[8 * y + x])] + RowText(b, y, x + 1, 0);
    }
  }

  lemma {:induction false} EmptyRow(b: Board, y: nat, x: nat)
    requires y < 8 && x <= 8 && forall i :: 8 * y + x <= i < 8 * y + 8 ==> b[i] == NoPiece
    ensures RowText(b, y, x, x) == "8"
    decreases 8 - x
  {
    if x < 8 {
      EmptyRow(b, y, x + 1);
    }
  }

  /** `b` is the board the pieces are put on at the start. */
  ghost predicate IsStart(b: Board) {
    forall p {:trigger At(b, p)} :: OnBoard(p) ==> At(b, p) == StartPiece(p)
  }

  lemma StartRow(b: Board, y: nat, text: string)
    requires IsStart(b) && y in {0, 1, 6, 7}
    requires |text| == 8 && forall x :: 0 <= x < 8 ==> text[x] == PieceChar(StartPiece(Position(x, y)))
    ensures RowText(b, y, 0, 0) == text
  {
    forall i | 8 * y <= i < 8 * y + 8
      ensures b[i] == StartPiece(Position(i - 8 * y, y))
    {
      assert b[i] == At(b, Position(i - 8 * y, y));
    }
    FullRow(b, y, 0);
  }

  lemma StartEmptyRow(b: Board, y: nat)
    requires IsStart(b) && 2 <= y <= 5
    ensures RowText(b, y, 0, 0) == "8"
  {
    forall i | 8 * y <= i < 8 * y + 8
      ensures b[i] == NoPiece
    {
      assert b[i] == At(b, Position(i - 8 * y, y));
    }
    EmptyRow(b, y, 0);
  }

  lemma StartBottom(b: Board)
    requires IsStart(b)
    ensures RowsFrom(b, 1) == "PPPPPPPP" + ("/" + "RNBQKBNR")
  {
    StartRow(b, 0, "RNBQKBNR");
    StartRow(b, 1, "PPPPPPPP");
    assert RowsFrom(b, 0) == "RNBQKBNR" + "" == "RNBQKBNR";
  }

  lemma StartCentre(b: Board)
    requires IsStart(b)
    ensures RowsFrom(b, 5) == StartMiddle()
  {
    StartBottom(b);
    StartEmptyRow(b, 2);
    StartEmptyRow(b, 3);
    StartEmptyRow(b, 4);
    StartEmptyRow(b, 5);
    var t1 := "PPPPPPPP" + ("/" + "RNBQKBNR");
    assert RowsFrom(b, 2) == "8" + ("/" + t1);
    assert RowsFrom(b, 3) == "8" + ("/" + ("8" + ("/" + t1)));
    assert RowsFrom(b, 4) == "8" + ("/" + ("8" + ("/" + ("8" + ("/" + t1)))));
  }

  /** The text the first state carries is the text of the board the pieces are put on. */
  lemma StartText(b: Board)
    requires IsStart(b)
    ensures Placement(b) == StartPlacement()
  {
    StartCentre(b);
    StartRow(b, 6, "pppppppp");
    StartRow(b, 7, "rnbqkbnr");
    assert RowsFrom(b, 6) == "pppppppp" + ("/" + StartMiddle());
    assert RowsFrom(b, 7) == "rnbqkbnr" + ("/" + RowsFrom(b, 6));
  }

  lemma StartCell(b: Board, i: nat)
    requires IsStart(b) && i < 64
    ensures b[i] == StartPiece(SquareOf(i))
  {
    assert b[i] == At(b, SquareOf(i));
  }

  lemma StartKing(b: Board, p: Position, c: Color)
    requires IsStart(b) && KingAt(b, p, c)
    ensures p == Position(4, HomeRow(c))
  {
    assert At(b, p) == StartPiece(p);
  }

  lemma StartHasKing(b: Board, c: Color, p: Position)
    requires IsStart(b) && p.x == 4 && p.y == HomeRow(c)
    ensures KingAt(b, p, c)
  {
    assert At(b, p) == StartPiece(p);
  }

  lemma StartKings(b: Board)
    requires IsStart(b)
    ensures KingsOk(b)
    ensures forall p, c :: KingAt(b, p, c) ==> p.x == 4 && p.y == HomeRow(c)
  {
    hide IsStart, KingAt;
    forall p, c | KingAt(b, p, c)
      ensures p.x == 4 && p.y == HomeRow(c)
    {
      StartKing(b, p, c);
    }
    var white, black := Position(4, HomeRow(White)), Position(4, HomeRow(Black));
    StartHasKing(b, White, white);
    StartHasKing(b, Black, black);
  }

  lemma StartNoCheck(b: Board, c: Color)
    requires IsStart(b)
    ensures !InCheck(b, c)
  {
    StartKings(b);
    hide KingAt, Clear, IsStart;
    forall k, f | KingAt(b, k, c) && OnBoard(f)
      ensures !PlainMove(b, NOWHERE, Move(f, k, Other(c), None))
    {
      StartReachesNoKing(b, k, f, c);
    }
  }

  /** No man on its first square is in line with the other king. */
  lemma StartReachesNoKing(b: Board, k: Position, f: Position, c: Color)
    requires IsStart(b) && OnBoard(f) && k.x == 4 && k.y == HomeRow(c)
    ensures !PlainMove(b, NOWHERE, Move(f, k, Other(c), None))
  {
    hide Clear;
    assert At(b, f) == StartPiece(f);
  }

  lemma StartPawns(b: Board)
    requires IsStart(b)
    ensures PawnsInside(b)
  {
  }

  lemma StartHome(b: Board, c: Color, side: bool)
    requires IsStart(b)
    ensures AtHome(b, c, side)
  {
    StartCell(b, 8 * HomeRow(c) + 4);
    StartCell(b, 8 * HomeRow(c) + (if side then 7 else 0));
  }

  lemma FourLettersDiffer(s: string)
    requires |s| == 4 && s[0] == 'K' && s[1] == 'Q' && s[2] == 'k' && s[3] == 'q'
    ensures NoRepeats(s)
  {
  }

  lemma StartRights(b: Board, castle: string)
    requires IsStart(b)
    ensures RightsHome(b, castle)
  {
    forall c, side | RightLetter(c, side) in castle
      ensures AtHome(b, c, side)
    {
      StartHome(b, c, side);
    }
  }

  lemma StartIsStart()
    ensures IsStart(StartBoard())
  {
  }

  lemma StartOk()
    ensures Ok(Start())
  {
    hide IsStart, PawnsInside, RightsHome, StartPlacement, Placement, NoRepeats, KingsOk, InCheck, StartBoard;
    var b := StartBoard();
    StartIsStart();
    StartText(b);
    StartKings(b);
    StartNoCheck(b, Black);
    StartPawns(b);
    StartRights(b, "KQkq");
    FourLettersDiffer("KQkq");
  }
}
