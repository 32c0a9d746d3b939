/** The 8x8 board as a value, the pieces on it, and the squares it is addressed by. */
module ChessBoard {

  datatype Color = White | Black

  function Other(c: Color): Color {
    if c == White then Black else White
  }

  datatype Kind = King | Queen | Rook | Bishop | Knight | Pawn

  /** A cell of the board: nothing, or a man of one of the two colours. */
  datatype Piece = NoPiece | Man(kind: Kind, color: Color)

  predicate Owned(p: Piece, c: Color) {
    p.Man? && p.color == c
  }

  /** Upper case letter of a kind of man, as in the FEN alphabet. */
  function KindLetter(k: Kind): char {
    match k
    case King => 'K'
    case Queen => 'Q'
    case Rook => 'R'
    case Bishop => 'B'
    case Knight => 'N'
    case Pawn => 'P'
  }

  function ToUpper(c: char): char {
    if 'a' <= c <= 'z' then (c as int - 32) as char else c
  }

  function ToLower(c: char): char {
    if 'A' <= c <= 'Z' then (c as int + 32) as char else c
  }

  /** The letter that stands for a piece: upper case for White, lower case for Black, '.' for no piece. */
  function PieceChar(p: Piece): char {
    match p
    case NoPiece => '.'
    case Man(k, White) => KindLetter(k)
    case Man(k, Black) => ToLower(KindLetter(k))
  }

  datatype Option<+T> = None | Some(value: T)

  function KindOfChar(c: char): Option<Kind> {
    match ToUpper(c)
    case 'K' => Some(King)
    case 'Q' => Some(Queen)
    case 'R' => Some(Rook)
    case 'B' => Some(Bishop)
    case 'N' => Some(Knight)
    case 'P' => Some(Pawn)
    case _ => None
  }

  /** The piece a letter stands for. A letter outside the alphabet gives a cell without a type. */
  function PieceOfChar(c: char): Piece {
    match KindOfChar(c)
    case None => NoPiece
    case Some(k) => Man(k, if 'a' <= c <= 'z' then Black else White)
  }

  lemma PieceCharRoundTrip(p: Piece)
    ensures PieceOfChar(PieceChar(p)) == p
    ensures PieceChar(p) != '/' && !('0' <= PieceChar(p) <= '9')
  {
  }

  datatype Position = Position(x: int, y: int)

  predicate OnBoard(p: Position) {
    0 <= p.x < 8 && 0 <= p.y < 8
  }

  /** A board is its 64 cells, rank by rank from White's side. */
  type Board = b: seq<Piece> | |b| == 64 witness seq(64, _ => NoPiece)

  function Index(p: Position): nat
    requires OnBoard(p)
  {
    p.y * 8 + p.x
  }

  function SquareOf(i: nat): Position {
    Position(i % 8, i / 8)
  }

  lemma ColumnAndRow(x: int, y: int)
    requires 0 <= x < 8
    ensures (y * 8 + x) % 8 == x && (y * 8 + x) / 8 == y
  {
    hide *;
  }

  function At(b: Board, p: Position): Piece
    requires OnBoard(p)
  {
    b[Index(p)]
  }

  function Put(b: Board, p: Position, piece: Piece): Board
    requires OnBoard(p)
  {
    b[Index(p) := piece]
  }

  /** The piece on `f` goes to `t`; whatever stood on `t` is gone and `f` is left empty. */
  function Shift(b: Board, f: Position, t: Position): Board
    requires OnBoard(f) && OnBoard(t)
  {
    Put(Put(b, t, At(b, f)), f, NoPiece)
  }

  function Abs(i: int): nat {
    if i < 0 then -i else i
  }

  /** Sum of a weight over the cells lo..hi of a board. */
  function Weigh(b: Board, w: (nat, Piece) -> int, lo: nat, hi: nat): int
    requires lo <= hi <= 64
    decreases |b| + hi - lo
  {
    if lo == hi then 0 else w(lo, b[lo]) + Weigh(b, w, lo + 1, hi)
  }

  lemma {:induction false} WeighSplit(b: Board, w: (nat, Piece) -> int, lo: nat, mid: nat, hi: nat)
    requires lo <= mid <= hi <= 64
    ensures Weigh(b, w, lo, hi) == Weigh(b, w, lo, mid) + Weigh(b, w, mid, hi)
    decreases mid - lo
  {
    if lo < mid {
      WeighSplit(b, w, lo + 1, mid, hi);
    }
  }

  /** Replacing one cell changes a weighed sum by the difference of the two weights. */
  lemma {:induction false} WeighUpdate(b: Board, w: (nat, Piece) -> int, i: nat, p: Piece, lo: nat, hi: nat)
    requires lo <= hi <= 64 && i < 64
    ensures Weigh(b[i := p], w, lo, hi)
         == Weigh(b, w, lo, hi) + (if lo <= i < hi then w(i, p) - w(i, b[i]) else 0)
    decreases hi - lo
  {
    if lo < hi {
      WeighUpdate(b, w, i, p, lo + 1, hi);
    }
  }
}
