/** The impossible-mate test, and why it never turns false again. */
module DeadPosition {
  import opened ChessBoard
  import opened Rules
  import opened Game
  import opened Invariant
  import opened Reachable

  function WhiteWeight(i: nat, p: Piece): int {
    if Owned(p, White) then 1 else 0
  }

  function BlackWeight(i: nat, p: Piece): int {
    if Owned(p, Black) then 1 else 0
  }

  function WeightOf(c: Color): (nat, Piece) -> int {
    if c == White then WhiteWeight else BlackWeight
  }

  /** Number of men of a colour. */
  function Count(b: Board, c: Color): int {
    Weigh(b, WeightOf(c), 0, 64)
  }

  predicate Minor(p: Piece) {
    p.Man? && p.kind in {Bishop, Knight}
  }

  ghost predicate HasMinor(b: Board, c: Color) {
    exists i :: 0 <= i < 64 && Owned(b[i], c) && Minor(b[i])
  }

  /** Colour of a square, 0 or 1. */
  function Shade(i: nat): nat {
    (i % 8 + i / 8) % 2
  }

  ghost predicate LikeBishops(b: Board) {
    exists i, j :: 0 <= i < 64 && 0 <= j < 64
      && b[i] == Man(Bishop, White) && b[j] == Man(Bishop, Black) && Shade(i) == Shade(j)
  }

  /** Lone kings, a lone king against king and minor piece, or one bishop each on squares of one shade. */
  ghost predicate Dead(b: Board) {
    || (Count(b, White) == 1 && Count(b, Black) == 1)
    || (Count(b, White) == 1 && Count(b, Black) == 2 && HasMinor(b, Black))
    || (Count(b, White) == 2 && Count(b, Black) == 1 && HasMinor(b, White))
    || (Count(b, White) == 2 && Count(b, Black) == 2 && LikeBishops(b))
  }

  // ----- counting -----

  lemma {:induction false} WeighNonNegative(b: Board, c: Color, lo: nat, hi: nat)
    requires lo <= hi <= 64
    ensures Weigh(b, WeightOf(c), lo, hi) >= 0
    ensures Weigh(b, WeightOf(c), lo, hi) == 0 ==> forall i :: lo <= i < hi ==> !Owned(b[i], c)
    decreases hi - lo
  {
    if lo < hi {
      WeighNonNegative(b, c, lo + 1, hi);
    }
  }

  lemma PutCount(b: Board, i: nat, p: Piece, c: Color)
    requires i < 64
    ensures Count(b[i := p], c) == Count(b, c) + (if Owned(p, c) then 1 else 0) - (if Owned(b[i], c) then 1 else 0)
  {
    WeighUpdate(b, WeightOf(c), i, p, 0, 64);
  }

  lemma OnlyOne(b: Board, c: Color, k: nat)
    requires k < 64 && Owned(b[k], c) && Count(b, c) == 1
    ensures forall i :: 0 <= i < 64 && Owned(b[i], c) ==> i == k
  {
    PutCount(b, k, NoPiece, c);
    WeighNonNegative(b[k := NoPiece], c, 0, 64);
    forall i | 0 <= i < 64 && i != k
      ensures !Owned(b[i], c)
    {
      assert !Owned(b[k := NoPiece][i], c);
    }
  }

  lemma OnlyTwo(b: Board, c: Color, k: nat, m: nat)
    requires k < 64 && m < 64 && k != m && Owned(b[k], c) && Owned(b[m], c) && Count(b, c) == 2
    ensures forall i :: 0 <= i < 64 && Owned(b[i], c) ==> i in {k, m}
  {
    var b1: Board := b[k := NoPiece];
    PutCount(b, k, NoPiece, c);
    OnlyOne(b1, c, m);
    forall i | 0 <= i < 64 && i != k && i != m
      ensures !Owned(b[i], c)
    {
      assert !Owned(b1[i], c);
    }
  }

  // ----- a dead board has kings and minor pieces only -----

  lemma SideIsBare(b: Board, c: Color)
    requires HasKing(b, c) && (Count(b, c) == 1 || (Count(b, c) == 2 && HasMinor(b, c)))
    ensures forall i :: 0 <= i < 64 && Owned(b[i], c) ==> IsKing(b[i]) || Minor(b[i])
  {
    var p :| KingAt(b, p, c);
    var k := Index(p);
    if Count(b, c) == 1 {
      OnlyOne(b, c, k);
    } else {
      var m :| 0 <= m < 64 && Owned(b[m], c) && Minor(b[m]);
      OnlyTwo(b, c, k, m);
    }
  }

  lemma DeadIsBare(b: Board)
    requires KingsOk(b) && Dead(b)
    ensures forall i :: 0 <= i < 64 && b[i].Man? ==> IsKing(b[i]) || Minor(b[i])
  {
    if Count(b, White) == 2 && Count(b, Black) == 2 {
      assert HasMinor(b, White) && HasMinor(b, Black);
    }
    SideIsBare(b, White);
    SideIsBare(b, Black);
  }

  /** Without pawns and rooks a move only shifts one man. */
  lemma DeadMoveShifts(b: Board, r: Rights, mv: Move)
    requires Sound(b, r, mv.color) && Dead(b) && OnBoard(mv.from) && PieceMove(b, r, mv)
    ensures OnBoard(mv.to) && mv.from != mv.to && Apply(b, mv) == Shift(b, mv.from, mv.to)
    ensures !IsKing(At(b, mv.to))
    ensures Minor(At(b, mv.from)) || IsKing(At(b, mv.from))
    ensures PlainMove(b, r.enpassant, mv)
  {
    hide Sound, Dead, PieceMove, Apply, IsCastle, PlainMove, KingsOk, Castling, Minor, IsKing;
    NoKingTaken(b, r, mv);
    MoveIsPlayable(b, r, mv);
    SoundKings(b, r, mv.color);
    DeadIsBare(b);
    var from := At(b, mv.from);
    assert from == b[Index(mv.from)];
    NoRookOrPawn(from);
    if IsCastle(b, mv) {
      CastleFromHome(b, r, mv);
      NoRookOrPawn(b[Index(Corner(mv))]);
      assert false;
    }
    OfficerShifts(b, mv);
    NotCastling(b, r, mv);
  }

  lemma NoRookOrPawn(p: Piece)
    requires p.Man? ==> IsKing(p) || Minor(p)
    ensures p.Man? ==> p.kind != Rook && p.kind != Pawn && (Minor(p) || IsKing(p))
  {
  }

  /** A move that is neither castling nor a pawn's shifts one man. */
  lemma OfficerShifts(b: Board, mv: Move)
    requires OnBoard(mv.from) && OnBoard(mv.to) && mv.from != mv.to && !IsCastle(b, mv)
    requires At(b, mv.from).Man? && At(b, mv.from).kind != Pawn
    ensures Apply(b, mv) == Shift(b, mv.from, mv.to)
  {
    hide Promotion;
  }

  lemma NotCastling(b: Board, r: Rights, mv: Move)
    requires OnBoard(mv.from) && PieceMove(b, r, mv) && !IsCastle(b, mv)
    ensures PlainMove(b, r.enpassant, mv)
  {
    hide PlainMove, Attacked, RookPath;
  }

  lemma ShiftCount(b: Board, f: Position, t: Position, c: Color)
    requires OnBoard(f) && OnBoard(t) && f != t
    ensures Count(Shift(b, f, t), c) == Count(b, c) - if Owned(At(b, t), c) then 1 else 0
  {
    PutCount(b, Index(t), At(b, f), c);
    PutCount(Put(b, t, At(b, f)), Index(f), NoPiece, c);
  }

  /** Where the man on cell `i` stands after the shift. */
  function Moved(i: nat, f: Position, t: Position): nat
    requires OnBoard(f) && OnBoard(t)
  {
    if i == Index(f) then Index(t) else i
  }

  lemma MinorStays(b: Board, f: Position, t: Position, c: Color)
    requires OnBoard(f) && OnBoard(t) && f != t && HasMinor(b, c) && !Owned(At(b, t), c)
    ensures HasMinor(Shift(b, f, t), c)
  {
    var i :| 0 <= i < 64 && Owned(b[i], c) && Minor(b[i]);
    var j := Moved(i, f, t);
    assert Shift(b, f, t)[j] == b[i];
  }

  lemma SameParity(a: int, b: int, k: int)
    requires b == a + 2 * k
    ensures a % 2 == b % 2
  {
    hide *;
  }

  lemma ShadeAt(p: Position)
    requires OnBoard(p)
    ensures Shade(Index(p)) == (p.x + p.y) % 2
  {
    ColumnAndRow(p.x, p.y);
  }

  lemma DiagonalParity(f: Position, t: Position)
    requires Abs(f.x - t.x) == Abs(f.y - t.y)
    ensures (f.x + f.y) % 2 == (t.x + t.y) % 2
  {
    var dx := t.x - f.x;
    SameParity(f.x + f.y, t.x + t.y, if t.y - f.y == dx then dx else 0);
  }

  /** A bishop's squares all have one shade. */
  lemma BishopKeepsShade(b: Board, enpassant: Position, mv: Move)
    requires OnBoard(mv.from) && PlainMove(b, enpassant, mv) && At(b, mv.from).kind == Bishop
    ensures Shade(Index(mv.from)) == Shade(Index(mv.to))
  {
    hide Clear, Shade;
    ShadeAt(mv.from);
    ShadeAt(mv.to);
    DiagonalParity(mv.from, mv.to);
  }

  lemma LikeBishopsStay(b: Board, enpassant: Position, mv: Move)
    requires OnBoard(mv.from) && PlainMove(b, enpassant, mv) && mv.from != mv.to
    requires LikeBishops(b) && At(b, mv.to) == NoPiece
    ensures LikeBishops(Shift(b, mv.from, mv.to))
  {
    var i, j :| 0 <= i < 64 && 0 <= j < 64
      && b[i] == Man(Bishop, White) && b[j] == Man(Bishop, Black) && Shade(i) == Shade(j);
    if At(b, mv.from).kind == Bishop {
      BishopKeepsShade(b, enpassant, mv);
    }
    var b' := Shift(b, mv.from, mv.to);
    var i', j' := Moved(i, mv.from, mv.to), Moved(j, mv.from, mv.to);
    assert b'[i'] == Man(Bishop, White) && b'[j'] == Man(Bishop, Black);
  }

  /** Once mate is impossible, it stays impossible after every legal move. */
  lemma DeadStaysDead(b: Board, r: Rights, mv: Move)
    requires Sound(b, r, mv.color) && Dead(b) && OnBoard(mv.from) && PieceMove(b, r, mv)
    ensures OnBoard(mv.to) && Dead(Apply(b, mv))
  {
    DeadMoveShifts(b, r, mv);
    var c, o := mv.color, Other(mv.color);
    ShiftCount(b, mv.from, mv.to, White);
    ShiftCount(b, mv.from, mv.to, Black);
    DeadIsBare(b);
    if At(b, mv.to).Man? {
      assert b[Index(mv.to)].color == o && Minor(b[Index(mv.to)]);
      var k :| KingAt(b, k, o);
      if Count(b, o) == 1 {
        OnlyOne(b, o, Index(k));
        assert false;
      }
      if Count(b, c) == 2 {
        assert HasMinor(b, c);
        MinorStays(b, mv.from, mv.to, c);
      }
    } else {
      if HasMinor(b, White) {
        MinorStays(b, mv.from, mv.to, White);
      }
      if HasMinor(b, Black) {
        MinorStays(b, mv.from, mv.to, Black);
      }
      if LikeBishops(b) {
        LikeBishopsStay(b, r.enpassant, mv);
      }
    }
  }

  // ----- the test said by squares -----

  lemma {:induction false} WeighNone(b: Board, c: Color, lo: nat, hi: nat)
    requires lo <= hi <= 64 && forall i :: lo <= i < hi ==> !Owned(b[i], c)
    ensures Weigh(b, WeightOf(c), lo, hi) == 0
    decreases hi - lo
  {
    if lo < hi {
      WeighNone(b, c, lo + 1, hi);
    }
  }

  lemma CountsOne(b: Board, c: Color, k: nat)
    requires k < 64 && Owned(b[k], c) && forall i :: 0 <= i < 64 && Owned(b[i], c) ==> i == k
    ensures Count(b, c) == 1
  {
    PutCount(b, k, NoPiece, c);
    WeighNone(b[k := NoPiece], c, 0, 64);
  }

  lemma CountsTwo(b: Board, c: Color, k: nat, m: nat)
    requires k < 64 && m < 64 && k != m && Owned(b[k], c) && Owned(b[m], c)
    requires forall i :: 0 <= i < 64 && Owned(b[i], c) ==> i in {k, m}
    ensures Count(b, c) == 2
  {
    PutCount(b, k, NoPiece, c);
    CountsOne(b[k := NoPiece], c, m);
  }

  /** Every man but those on some cells is a king. */
  predicate OnlyKings(b: Board, but: set<nat>) {
    forall i: nat :: i < 64 && b[i].Man? && i !in but ==> b[i].kind == King
  }

  predicate BishopOrKnight(p: Piece) {
    p.Man? && (p.kind == Bishop || p.kind == Knight)
  }

  /** Bishops of the two sides on squares of the same shade, and otherwise kings only. */
  ghost predicate TwoBishops(b: Board, i: nat, j: nat) {
    && i < 64 && j < 64 && b[i] == Man(Bishop, White) && b[j] == Man(Bishop, Black)
    && (i % 8 + i / 8) % 2 == (j % 8 + j / 8) % 2 && OnlyKings(b, {i, j})
  }

  lemma KingCells(b: Board) returns (w: nat, k: nat)
    requires KingsOk(b)
    ensures KingsOn(b, w, k)
  {
    var p :| KingAt(b, p, White);
    var q :| KingAt(b, q, Black);
    w, k := Index(p), Index(q);
    forall i | 0 <= i < 64
      ensures b[i] == Man(King, White) ==> i == w
      ensures b[i] == Man(King, Black) ==> i == k
    {
      assert At(b, SquareOf(i)) == b[i];
      assert b[i] == Man(King, White) ==> KingAt(b, SquareOf(i), White);
      assert b[i] == Man(King, Black) ==> KingAt(b, SquareOf(i), Black);
    }
  }

  /** With a king a side the test holds exactly when there are only kings, or one bishop or knight more, or a bishop
      each on squares of the same shade. */
  lemma DeadIff(b: Board)
    requires KingsOk(b)
    ensures Dead(b) <==>
      || OnlyKings(b, {})
      || (exists i: nat :: i < 64 && BishopOrKnight(b[i]) && OnlyKings(b, {i}))
      || (exists i, j :: TwoBishops(b, i, j))
  {
    hide Dead, KingsOk, Count, OnlyKings, BishopOrKnight, TwoBishops;
    var w, k := KingCells(b);
    if Dead(b) {
      DeadHasFew(b, w, k);
    }
    if OnlyKings(b, {}) {
      KingsAreDead(b, w, k);
    }
    if i: nat :| i < 64 && BishopOrKnight(b[i]) && OnlyKings(b, {i}) {
      OneMoreIsDead(b, w, k, i);
    }
    if i, j :| TwoBishops(b, i, j) {
      BishopsAreDead(b, w, k, i, j);
    }
  }

  /** The kings stand on two cells and nowhere else. */
  ghost predicate KingsOn(b: Board, w: nat, k: nat) {
    && w < 64 && k < 64 && b[w] == Man(King, White) && b[k] == Man(King, Black)
    && (forall i :: 0 <= i < 64 && b[i] == Man(King, White) ==> i == w)
    && forall i :: 0 <= i < 64 && b[i] == Man(King, Black) ==> i == k
  }

  lemma KingsAreDead(b: Board, w: nat, k: nat)
    requires KingsOn(b, w, k) && OnlyKings(b, {})
    ensures Dead(b)
  {
    hide Count;
    CountsOne(b, White, w);
    CountsOne(b, Black, k);
  }

  lemma OneMoreIsDead(b: Board, w: nat, k: nat, i: nat)
    requires KingsOn(b, w, k) && i < 64 && BishopOrKnight(b[i]) && OnlyKings(b, {i})
    ensures Dead(b)
  {
    hide Count, LikeBishops;
    if b[i].color == White {
      CountsTwo(b, White, w, i);
      CountsOne(b, Black, k);
    } else {
      CountsOne(b, White, w);
      CountsTwo(b, Black, k, i);
    }
  }

  lemma BishopsAreDead(b: Board, w: nat, k: nat, i: nat, j: nat)
    requires KingsOn(b, w, k) && TwoBishops(b, i, j)
    ensures Dead(b)
  {
    hide Count;
    CountsTwo(b, White, w, i);
    CountsTwo(b, Black, k, j);
  }

  lemma DeadHasFew(b: Board, w: nat, k: nat)
    requires KingsOn(b, w, k) && Dead(b)
    ensures
      || OnlyKings(b, {})
      || (exists i: nat :: i < 64 && BishopOrKnight(b[i]) && OnlyKings(b, {i}))
      || (exists i, j :: TwoBishops(b, i, j))
  {
    hide Count;
    if Count(b, White) == 1 {
      OnlyOne(b, White, w);
      if Count(b, Black) == 1 {
        OnlyOne(b, Black, k);
      } else {
        var i :| 0 <= i < 64 && Owned(b[i], Black) && Minor(b[i]);
        OnlyTwo(b, Black, k, i);
        assert OnlyKings(b, {i});
      }
    } else if Count(b, Black) == 1 {
      OnlyOne(b, Black, k);
      var i :| 0 <= i < 64 && Owned(b[i], White) && Minor(b[i]);
      OnlyTwo(b, White, w, i);
      assert OnlyKings(b, {i});
    } else {
      var i, j :| 0 <= i < 64 && 0 <= j < 64
        && b[i] == Man(Bishop, White) && b[j] == Man(Bishop, Black) && Shade(i) == Shade(j);
      OnlyTwo(b, White, w, i);
      OnlyTwo(b, Black, k, j);
      assert TwoBishops(b, i, j);
    }
  }
}
