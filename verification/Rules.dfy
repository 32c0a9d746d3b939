/** How the men move, as pure predicates over a board value: the specification the
    in-place tests of the engine are proved against. */
module Rules {
  import opened ChessBoard

  /** A move: two squares, the side that makes it and the optional fifth character of its text. */
  datatype Move = Move(from: Position, to: Position, color: Color, promo: Option<char>)

  /** The part of a game state that the movement rules read. */
  datatype Rights = Rights(castle: string, enpassant: Position)

  // ----- lines -----

  function Toward(a: int, z: int, t: nat): int {
    if z > a then a + t else if z < a then a - t else a
  }

  /** The t-th square on the way from `f` to `t0` along a row, a column or a diagonal. */
  function Along(f: Position, t0: Position, t: nat): Position {
    Position(Toward(f.x, t0.x, t), Toward(f.y, t0.y, t))
  }

  function Dist(f: Position, t: Position): nat {
    var dx, dy := Abs(f.x - t.x), Abs(f.y - t.y);
    if dx > dy then dx else dy
  }

  predicate Straight(f: Position, t: Position) {
    f != t && (f.x == t.x || f.y == t.y)
  }

  predicate Diagonal(f: Position, t: Position) {
    f != t && Abs(f.x - t.x) == Abs(f.y - t.y)
  }

  predicate Vacant(b: Board, p: Position) {
    OnBoard(p) && At(b, p) == NoPiece
  }

  /** Every square strictly between the two ends is vacant. */
  predicate Clear(b: Board, f: Position, t: Position) {
    forall k {:trigger Along(f, t, k)} :: 1 <= k < Dist(f, t) ==> Vacant(b, Along(f, t, k))
  }

  // ----- one man -----

  predicate KnightStep(f: Position, t: Position) {
    var dx, dy := Abs(f.x - t.x), Abs(f.y - t.y);
    (dx == 2 && dy == 1) || (dx == 1 && dy == 2)
  }

  predicate KingStep(f: Position, t: Position) {
    Abs(f.x - t.x) <= 1 && Abs(f.y - t.y) <= 1
  }

  function Ahead(c: Color): int {
    if c == White then 1 else -1
  }

  function PawnRow(c: Color): int {
    if c == White then 1 else 6
  }

  /** Row on which a pawn of colour `c` is promoted. */
  function LastRow(c: Color): int {
    if c == White then 7 else 0
  }

  predicate PawnStep(b: Board, enpassant: Position, mv: Move)
    requires OnBoard(mv.from) && OnBoard(mv.to)
  {
    var dx, dy := Abs(mv.from.x - mv.to.x), mv.to.y - mv.from.y;
    || (dx == 0 && dy == Ahead(mv.color) && Vacant(b, mv.to))
    || (dx == 0 && dy == 2 * Ahead(mv.color) && mv.from.y == PawnRow(mv.color) && Vacant(b, mv.to)
        && Vacant(b, Position(mv.from.x, mv.from.y + Ahead(mv.color))))
    || (dx == 1 && dy == Ahead(mv.color) && (!Vacant(b, mv.to) || enpassant == mv.to))
  }

  /** The mover owns the man on the first square and does not own the man, if any, on the second. */
  predicate Playable(b: Board, mv: Move)
    requires OnBoard(mv.from)
  {
    OnBoard(mv.to) && Owned(At(b, mv.from), mv.color) && !Owned(At(b, mv.to), mv.color)
  }

  /** Everything a man may do except castling. */
  predicate PlainMove(b: Board, enpassant: Position, mv: Move)
    requires OnBoard(mv.from)
  {
    Playable(b, mv) &&
    match At(b, mv.from).kind
    case Knight => KnightStep(mv.from, mv.to)
    case Pawn => PawnStep(b, enpassant, mv)
    case Rook => Straight(mv.from, mv.to) && Clear(b, mv.from, mv.to)
    case Bishop => Diagonal(mv.from, mv.to) && Clear(b, mv.from, mv.to)
    case Queen => (Straight(mv.from, mv.to) || Diagonal(mv.from, mv.to)) && Clear(b, mv.from, mv.to)
    case King => KingStep(mv.from, mv.to)
  }

  /** Some man of `foe` could go to `p` without castling. */
  ghost predicate Attacked(b: Board, enpassant: Position, p: Position, foe: Color) {
    exists f :: OnBoard(f) && PlainMove(b, enpassant, Move(f, p, foe, None))
  }

  // ----- castling -----

  function KingSide(c: Color): char {
    if c == White then 'K' else 'k'
  }

  function QueenSide(c: Color): char {
    if c == White then 'Q' else 'q'
  }

  /** The corner the rook of a castling move comes from. */
  function Corner(mv: Move): Position {
    Position(if mv.to.x < mv.from.x then 0 else 7, mv.from.y)
  }

  /** The square between the two squares of a castling king. */
  function Middle(mv: Move): Position {
    Position((mv.from.x + mv.to.x) / 2, mv.from.y)
  }

  predicate CastleShape(mv: Move) {
    Abs(mv.to.x - mv.from.x) == 2 && mv.to.y == mv.from.y
  }

  predicate CastleRight(r: Rights, mv: Move) {
    (if mv.to.x < mv.from.x then QueenSide(mv.color) else KingSide(mv.color)) in r.castle
  }

  /** What the engine asks of the rook: the line from the corner to the king's neighbour square. */
  predicate RookPath(b: Board, mv: Move)
    requires OnBoard(mv.from) && OnBoard(mv.to) && CastleShape(mv)
  {
    !Owned(At(b, Middle(mv)), mv.color) && Straight(Corner(mv), Middle(mv)) && Clear(b, Corner(mv), Middle(mv))
  }

  /** A castling attempt that gets as far as asking whether squares are attacked. */
  predicate CastleTry(b: Board, r: Rights, mv: Move)
    requires OnBoard(mv.from)
  {
    Playable(b, mv) && At(b, mv.from).kind == King && CastleShape(mv) && CastleRight(r, mv) && RookPath(b, mv)
  }

  ghost predicate Castling(b: Board, r: Rights, mv: Move)
    requires OnBoard(mv.from)
  {
    && CastleTry(b, r, mv)
    && !Attacked(b, r.enpassant, mv.from, Other(mv.color))
    && !Attacked(b, r.enpassant, Middle(mv), Other(mv.color))
    && !Attacked(b, r.enpassant, mv.to, Other(mv.color))
  }

  /** What verifyPieceMove accepts. */
  ghost predicate PieceMove(b: Board, r: Rights, mv: Move)
    requires OnBoard(mv.from)
  {
    PlainMove(b, r.enpassant, mv) || Castling(b, r, mv)
  }

  /** What beingAttacked answers: castling moves of the attacker count too. */
  ghost predicate Reached(b: Board, r: Rights, p: Position, foe: Color) {
    exists f :: OnBoard(f) && PieceMove(b, r, Move(f, p, foe, None))
  }

  // ----- kings -----

  predicate KingAt(b: Board, p: Position, c: Color) {
    OnBoard(p) && At(b, p) == Man(King, c)
  }

  ghost predicate AtMostOneKing(b: Board) {
    forall p, q, c :: KingAt(b, p, c) && KingAt(b, q, c) ==> p == q
  }

  const NOWHERE: Position := Position(-1, -1)

  /** First king of colour `c` in scan order from cell `i`, or no square at all. */
  function KingFrom(b: Board, c: Color, i: nat): Position
    requires i <= 64
    decreases 64 - i
  {
    if i == 64 then NOWHERE
    else if b[i] == Man(King, c) then SquareOf(i)
    else KingFrom(b, c, i + 1)
  }

  function FindKing(b: Board, c: Color): Position {
    KingFrom(b, c, 0)
  }

  lemma {:induction false} KingFromFinds(b: Board, c: Color, i: nat)
    requires i <= 64
    ensures var k := KingFrom(b, c, i);
      if k == NOWHERE then forall j :: i <= j < 64 ==> b[j] != Man(King, c) else KingAt(b, k, c)
    decreases 64 - i
  {
    if i < 64 && b[i] != Man(King, c) {
      KingFromFinds(b, c, i + 1);
    }
  }

  /** With one king the scan finds it; without one it finds nothing. */
  lemma FindKingIsTheKing(b: Board, c: Color)
    requires AtMostOneKing(b)
    ensures FindKing(b, c) == NOWHERE ==> forall p :: !KingAt(b, p, c)
    ensures forall p :: KingAt(b, p, c) ==> FindKing(b, c) == p
    ensures FindKing(b, c) != NOWHERE ==> KingAt(b, FindKing(b, c), c)
  {
    KingFromFinds(b, c, 0);
    forall p | KingAt(b, p, c)
      ensures FindKing(b, c) == p
    {
      assert b[Index(p)] == Man(King, c);
    }
  }

  /** What verifyCheck answers. */
  ghost predicate Checked(b: Board, r: Rights, c: Color) {
    Reached(b, r, FindKing(b, c), Other(c))
  }

  // ----- castling never attacks a square the engine asks about -----

  lemma AlongRow(f: Position, t: Position, x: int)
    requires f.y == t.y && (f.x < x < t.x || t.x < x < f.x)
    ensures 1 <= Abs(x - f.x) < Dist(f, t) && Along(f, t, Abs(x - f.x)) == Position(x, f.y)
  {
  }

  /** A square strictly between the corner and the middle square of a clear rook path is vacant. */
  lemma RookPathVacant(b: Board, mv: Move, x: int)
    requires OnBoard(mv.from) && OnBoard(mv.to) && CastleShape(mv) && RookPath(b, mv)
    requires Corner(mv).x < x < Middle(mv).x || Middle(mv).x < x < Corner(mv).x
    ensures Vacant(b, Position(x, mv.from.y))
  {
    AlongRow(Corner(mv), Middle(mv), x);
  }

  /** A king on its home file never castles onto the other king: that king blocks the rook. */
  lemma NoCastleOntoKing(b: Board, r: Rights, mv: Move)
    requires OnBoard(mv.from) && mv.from.x == 4
    requires KingAt(b, mv.to, Other(mv.color))
    ensures !Castling(b, r, mv)
  {
    if CastleTry(b, r, mv) {
      RookPathVacant(b, mv, mv.to.x);
    }
  }

  /** Nested attempts: while a castling of `mv.color` is being examined, a castling of the other
      side onto the king's square, the middle square or the target square fails its rook test. */
  lemma NestedCastleFails(b: Board, r: Rights, mv: Move, nested: Move)
    requires OnBoard(mv.from) && OnBoard(nested.from)
    requires AtMostOneKing(b) && CastleTry(b, r, mv)
    requires nested.color == Other(mv.color)
    requires nested.to == mv.from
          || (nested.to in {Middle(mv), mv.to} && !KingStep(nested.from, mv.from))
    ensures !CastleTry(b, r, nested)
  {
    if CastleTry(b, r, nested) {
      var n, k := nested.from, mv.from;
      assert n != k && n.y == k.y;
      // the other king is not between the corner and this king, unless it stands in the corner
      if mv.to.x < k.x < n.x || n.x < k.x < mv.to.x {
        // it comes from behind this king, and at least two files away
        assert Abs(n.x - k.x) >= 2 || nested.to == k;
        RookPathVacant(b, nested, k.x);
      } else {
        if n.x != Corner(mv).x && n.x != Middle(mv).x {
          RookPathVacant(b, mv, n.x);
        }
        RookPathVacant(b, nested, k.x);
      }
    }
  }
}
