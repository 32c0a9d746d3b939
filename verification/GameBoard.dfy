/** The mutable board of the engine and the tests that read it. The tests call each other
    the way the engine's do: piece move, king move, attack test, piece move again. */
module Engine {
  import opened ChessBoard
  import opened Rules
  import opened Fen

  /** 1 for a castling attempt that goes on to ask about attacked squares, 0 for any other move. */
  ghost function Level(b: Board, r: Rights, mv: Move): nat
    requires OnBoard(mv.from)
  {
    if CastleTry(b, r, mv) then 1 else 0
  }

  ghost predicate CastleTowards(b: Board, r: Rights, p: Position, foe: Color) {
    exists f :: OnBoard(f) && CastleTry(b, r, Move(f, p, foe, None))
  }

  ghost function AttackLevel(b: Board, r: Rights, p: Position, foe: Color): nat {
    if CastleTowards(b, r, p, foe) then 1 else 0
  }

  /** Without a castling attempt towards `p`, being attacked there is a matter of plain moves. */
  lemma ReachedPlainly(b: Board, r: Rights, p: Position, foe: Color)
    requires !CastleTowards(b, r, p, foe)
    ensures Reached(b, r, p, foe) <==> Attacked(b, r.enpassant, p, foe)
  {
  }

  /** While a castling is examined, no enemy castling is tried onto the king's square; and when the
      king is not attacked, none is tried onto the other two squares either. */
  lemma NoNestedCastle(b: Board, r: Rights, mv: Move)
    requires OnBoard(mv.from) && AtMostOneKing(b) && CastleTry(b, r, mv)
    ensures !CastleTowards(b, r, mv.from, Other(mv.color))
    ensures !Attacked(b, r.enpassant, mv.from, Other(mv.color)) ==>
      !CastleTowards(b, r, Middle(mv), Other(mv.color)) && !CastleTowards(b, r, mv.to, Other(mv.color))
  {
    var foe := Other(mv.color);
    forall f | OnBoard(f)
      ensures !CastleTry(b, r, Move(f, mv.from, foe, None))
    {
      NestedCastleFails(b, r, mv, Move(f, mv.from, foe, None));
    }
    if !Attacked(b, r.enpassant, mv.from, foe) {
      forall f, p | OnBoard(f) && p in {Middle(mv), mv.to}
        ensures !CastleTry(b, r, Move(f, p, foe, None))
      {
        if CastleTry(b, r, Move(f, p, foe, None)) {
          assert !PlainMove(b, r.enpassant, Move(f, mv.from, foe, None));
          NestedCastleFails(b, r, mv, Move(f, p, foe, None));
        }
      }
    }
  }

  /** What the three attack tests of a castling attempt amount to, and why they need no further level. */
  lemma CastleTests(b: Board, r: Rights, mv: Move)
    requires OnBoard(mv.from) && AtMostOneKing(b) && CastleTry(b, r, mv)
    ensures FindKing(b, mv.color) == mv.from
    ensures AttackLevel(b, r, mv.from, Other(mv.color)) == 0
    ensures Checked(b, r, mv.color) == Attacked(b, r.enpassant, mv.from, Other(mv.color))
    ensures !Checked(b, r, mv.color) ==> forall p :: p in {Middle(mv), mv.to} ==>
      AttackLevel(b, r, p, Other(mv.color)) == 0
      && Reached(b, r, p, Other(mv.color)) == Attacked(b, r.enpassant, p, Other(mv.color))
    ensures PieceMove(b, r, mv) <==>
      !Checked(b, r, mv.color) && !Reached(b, r, Middle(mv), Other(mv.color)) && !Reached(b, r, mv.to, Other(mv.color))
  {
    NoNestedCastle(b, r, mv);
    FindKingIsTheKing(b, mv.color);
    assert KingAt(b, mv.from, mv.color);
    ReachedPlainly(b, r, mv.from, Other(mv.color));
    if !Checked(b, r, mv.color) {
      ReachedPlainly(b, r, Middle(mv), Other(mv.color));
      ReachedPlainly(b, r, mv.to, Other(mv.color));
    }
  }

  // ----- rays and offsets of the candidate generator -----

  function Steps(n: int, d: int): int {
    if d == 0 then 0 else if d > 0 then n else -n
  }

  /** The n-th square from `p` in a direction. */
  function RayAt(p: Position, dx: int, dy: int, n: nat): Position {
    Position(p.x + Steps(n, dx), p.y + Steps(n, dy))
  }

  /** All squares from `p` in one direction up to the first man or the edge. */
  ghost predicate IsRay(b: Board, p: Position, dx: int, dy: int, ray: seq<Position>) {
    && (forall k :: 0 <= k < |ray| ==> ray[k] == RayAt(p, dx, dy, k + 1))
    && (OnBoard(RayAt(p, dx, dy, |ray| + 1)) ==> ray != [] && !Vacant(b, ray[|ray| - 1]))
  }

  lemma RayBound(p: Position, dx: int, dy: int, n: nat)
    requires OnBoard(p) && (dx != 0 || dy != 0) && OnBoard(RayAt(p, dx, dy, n))
    ensures n <= 7
  {
  }

  function Sign(i: int): int {
    if i > 0 then 1 else if i < 0 then -1 else 0
  }

  /** A square seen along a clear line is on the ray in its direction. */
  lemma RayHits(b: Board, p: Position, q: Position, ray: seq<Position>)
    requires OnBoard(p) && OnBoard(q) && (Straight(p, q) || Diagonal(p, q)) && Clear(b, p, q)
    requires IsRay(b, p, Sign(q.x - p.x), Sign(q.y - p.y), ray)
    ensures q in ray
  {
    var n := Dist(p, q);
    assert RayAt(p, Sign(q.x - p.x), Sign(q.y - p.y), n) == q;
    assert |ray| <= n ==> Along(p, q, |ray|) == RayAt(p, Sign(q.x - p.x), Sign(q.y - p.y), |ray|);
    if n <= |ray| {
      assert ray[n - 1] == q;
    }
  }

  function KnightOffsets(): seq<(int, int)> {
    [(1, 2), (2, 1), (2, -1), (1, -2), (-1, -2), (-2, -1), (-2, 1), (-1, 2)]
  }

  function PawnOffsets(): seq<(int, int)> {
    [(0, 1), (0, 2), (1, 1), (-1, 1), (0, -1), (0, -2), (1, -1), (-1, -1)]
  }

  function KingOffsets(): seq<(int, int)> {
    [(0, 1), (1, 1), (1, 0), (1, -1), (0, -1), (-1, -1), (-1, 0), (-1, 1), (2, 0), (-2, 0)]
  }

  /** The squares at given offsets from `p`, on the board or not. */
  function Offsets(p: Position, ds: seq<(int, int)>): seq<Position> {
    seq(|ds|, k requires 0 <= k < |ds| => Position(p.x + ds[k].0, p.y + ds[k].1))
  }

  lemma OffsetHit(p: Position, q: Position, ds: seq<(int, int)>, k: nat)
    requires k < |ds| && ds[k] == (q.x - p.x, q.y - p.y)
    ensures q in Offsets(p, ds)
  {
    assert Offsets(p, ds)[k] == q;
  }

  lemma KnightOffset(p: Position, q: Position)
    requires KnightStep(p, q)
    ensures q in Offsets(p, KnightOffsets())
  {
    var dx, dy := q.x - p.x, q.y - p.y;
    var k := if dx == 1 then (if dy == 2 then 0 else 3) else if dx == 2 then (if dy == 1 then 1 else 2)
      else if dx == -1 then (if dy == -2 then 4 else 7) else (if dy == -1 then 5 else 6);
    OffsetHit(p, q, KnightOffsets(), k);
  }

  lemma PawnOffset(p: Position, q: Position)
    requires Abs(p.x - q.x) <= 1 && (Abs(q.y - p.y) == 1 || (p.x == q.x && Abs(q.y - p.y) == 2))
    ensures q in Offsets(p, PawnOffsets())
  {
    var dx, dy := q.x - p.x, q.y - p.y;
    var k := if dy == 2 then 1 else if dy == -2 then 5
      else if dy == 1 then (if dx == 0 then 0 else if dx == 1 then 2 else 3)
      else (if dx == 0 then 4 else if dx == 1 then 6 else 7);
    OffsetHit(p, q, PawnOffsets(), k);
  }

  lemma KingOffset(p: Position, q: Position)
    requires p != q && (KingStep(p, q) || (Abs(q.x - p.x) == 2 && q.y == p.y))
    ensures q in Offsets(p, KingOffsets())
  {
    var dx, dy := q.x - p.x, q.y - p.y;
    var k := if dx == 2 then 8 else if dx == -2 then 9
      else if dx == 0 then (if dy == 1 then 0 else 4)
      else if dx == 1 then 2 - dy
      else 6 + dy;
    OffsetHit(p, q, KingOffsets(), k);
  }

  /** The fixed offsets cover every move of a knight, a pawn and a king, castling included. */
  lemma OffsetsCover(b: Board, r: Rights, mv: Move)
    requires OnBoard(mv.from) && PieceMove(b, r, mv)
    ensures At(b, mv.from).kind == Knight ==> mv.to in Offsets(mv.from, KnightOffsets())
    ensures At(b, mv.from).kind == Pawn ==> mv.to in Offsets(mv.from, PawnOffsets())
    ensures At(b, mv.from).kind == King ==> mv.to in Offsets(mv.from, KingOffsets())
  {
    hide Attacked, RookPath, CastleRight, Vacant, Offsets, KnightOffsets, PawnOffsets, KingOffsets;
    match At(b, mv.from).kind {
      case Knight => KnightOffset(mv.from, mv.to);
      case Pawn => PawnOffset(mv.from, mv.to);
      case King => KingOffset(mv.from, mv.to);
      case _ =>
    }
  }

  /** A king's move is a step or a castling. */
  lemma KingMoveIs(b: Board, r: Rights, mv: Move)
    requires OnBoard(mv.from) && Playable(b, mv) && At(b, mv.from).kind == King
    ensures KingStep(mv.from, mv.to) ==> PieceMove(b, r, mv)
    ensures !KingStep(mv.from, mv.to) && !CastleTry(b, r, mv) ==> !PieceMove(b, r, mv)
  {
  }

  lemma Glue(fen: string, row: string, rest: string)
    ensures fen + (row + ("/" + rest)) == ((fen + row) + "/") + rest
  {
  }

  lemma NextRow(b: Board, i: nat, rest: string)
    requires i < 8 && rest == if i > 0 then RowsFrom(b, i - 1) + "/" else ""
    ensures RowsFrom(b, i) + "/" == RowText(b, i, 0, 0) + ("/" + rest)
  {
  }

  lemma RowStep(b: Board, y: nat, x: nat, count: nat)
    requires y < 8 && x < 8 && count <= x
    ensures RowText(b, y, x, count) == if b[8 * y + x] == NoPiece then RowText(b, y, x + 1, count + 1)
      else Run(count) + [PieceChar(b[8 * y + x])] + RowText(b, y, x + 1, 0)
  {
  }

  lemma Joined(fen: string, run: string, man: string, rest: string)
    ensures ((fen + run) + man) + rest == fen + (run + man + rest)
  {
  }

  lemma RowEnd(b: Board, y: nat, count: nat)
    requires y < 8 && count <= 8
    ensures RowText(b, y, 8, count) == Run(count)
  {
  }

  lemma RunOfNone(fen: string, count: nat)
    requires count <= 9
    ensures count == 0 ==> fen + Run(count) == fen
  {
  }

  /** The tests that come before the attack tests, with the rook's line as the engine asks for it. */
  lemma TryIs(b: Board, r: Rights, mv: Move)
    requires OnBoard(mv.from) && Playable(b, mv) && At(b, mv.from).kind == King
    ensures CastleTry(b, r, mv) <==> CastleShape(mv) && CastleRight(r, mv) && RookPath(b, mv)
    ensures CastleTry(b, r, mv) ==> Level(b, r, mv) == 1
    ensures CastleShape(mv) ==>
      var corner := if mv.from.x - mv.to.x > 0 then Position(0, mv.to.y) else Position(7, mv.to.y);
      var middle := Position(mv.from.x - (if mv.from.x - mv.to.x > 0 then 1 else -1), mv.to.y);
      && OnBoard(corner) && OnBoard(middle)
      && (RookPath(b, mv) <==>
            !Owned(At(b, middle), mv.color) && Straight(corner, middle) && Clear(b, corner, middle))
  {
    hide Straight, Clear;
    if CastleShape(mv) {
      assert Middle(mv).x == mv.from.x - (if mv.from.x - mv.to.x > 0 then 1 else -1);
    }
  }

  /** A castling king stays on its row. */
  lemma SameRow(b: Board, r: Rights, mv: Move)
    requires OnBoard(mv.from) && CastleTry(b, r, mv)
    ensures mv.to.y == mv.from.y && OnBoard(mv.to) && Level(b, r, mv) == 1
  {
    hide RookPath;
  }

  lemma LevelBelow(b: Board, r: Rights, p: Position, foe: Color, f: Position)
    requires OnBoard(f)
    ensures Level(b, r, Move(f, p, foe, None)) <= AttackLevel(b, r, p, foe)
  {
    hide CastleTry;
  }

  /** No man of `foe` before cell `n` in scan order reaches the square. */
  ghost predicate NobodyBefore(b: Board, r: Rights, p: Position, foe: Color, n: nat) {
    forall f :: OnBoard(f) && Index(f) < n ==> !PieceMove(b, r, Move(f, p, foe, None))
  }

  lemma NobodyYet(b: Board, r: Rights, p: Position, foe: Color)
    ensures NobodyBefore(b, r, p, foe, 0)
  {
    hide PieceMove;
  }

  lemma NorTheNext(b: Board, r: Rights, p: Position, foe: Color, f: Position)
    requires OnBoard(f) && NobodyBefore(b, r, p, foe, Index(f)) && !PieceMove(b, r, Move(f, p, foe, None))
    ensures NobodyBefore(b, r, p, foe, Index(f) + 1)
  {
    hide PieceMove;
    forall g | OnBoard(g) && Index(g) < Index(f) + 1
      ensures !PieceMove(b, r, Move(g, p, foe, None))
    {
      if Index(g) == Index(f) {
        assert g.y == f.y && g.x == f.x;
      }
    }
  }

  /** Nobody on the board reaches the square. */
  lemma NobodyReaches(b: Board, r: Rights, p: Position, foe: Color)
    requires NobodyBefore(b, r, p, foe, 64)
    ensures !Reached(b, r, p, foe)
  {
    hide PieceMove;
  }

  lemma SomebodyReaches(b: Board, r: Rights, p: Position, foe: Color, f: Position)
    requires OnBoard(f) && PieceMove(b, r, Move(f, p, foe, None))
    ensures Reached(b, r, p, foe)
  {
    hide PieceMove;
  }

  lemma NotOwned(b: Board, r: Rights, mv: Move)
    requires OnBoard(mv.from)
    ensures PieceMove(b, r, mv) ==> Owned(At(b, mv.from), mv.color)
  {
  }

  class GameBoard {
    const cells: array<Piece>

    ghost predicate Valid() {
      cells.Length == 64
    }

    ghost function Contents(): Board
      requires Valid()
      reads cells
    {
      cells[..]
    }

    constructor ()
      ensures Valid() && fresh(cells)
      ensures forall i :: 0 <= i < 64 ==> Contents()[i] == NoPiece
    {
      cells := new Piece[64](_ => NoPiece);
    }

    method CreatePiece(p: Position, piece: Piece)
      requires Valid() && OnBoard(p)
      modifies cells
      ensures Contents() == Put(old(Contents()), p, piece)
    {
      cells[Index(p)] := piece;
    }

    method MakeMove(f: Position, t: Position)
      requires Valid() && OnBoard(f) && OnBoard(t)
      modifies cells
      ensures Contents() == Shift(old(Contents()), f, t)
    {
      cells[Index(t)] := cells[Index(f)];
      cells[Index(f)] := NoPiece;
    }

    method VerifyDiagonal(mv: Move) returns (ok: bool)
      requires Valid() && OnBoard(mv.from) && OnBoard(mv.to) && Diagonal(mv.from, mv.to)
      ensures ok == Clear(Contents(), mv.from, mv.to)
    {
      var k, l := if mv.to.x - mv.from.x > 0 then 1 else -1, if mv.to.y - mv.from.y > 0 then 1 else -1;
      var i, j := mv.from.x + k, mv.from.y + l;
      ghost var n := 1;
      while Position(i, j) != mv.to
        invariant 1 <= n <= Dist(mv.from, mv.to) && Position(i, j) == Along(mv.from, mv.to, n)
        invariant forall t {:trigger Along(mv.from, mv.to, t)} ::
          1 <= t < n ==> Vacant(Contents(), Along(mv.from, mv.to, t))
        decreases Dist(mv.from, mv.to) - n
      {
        if cells[Index(Position(i, j))] != NoPiece {
          assert !Vacant(Contents(), Along(mv.from, mv.to, n));
          return false;
        }
        i, j, n := i + k, j + l, n + 1;
      }
      return true;
    }

    method VerifyHorizontal(mv: Move) returns (ok: bool)
      requires Valid() && OnBoard(mv.from) && OnBoard(mv.to)
      requires mv.from.x != mv.to.x && mv.from.y == mv.to.y
      ensures ok == Clear(Contents(), mv.from, mv.to)
    {
      var k := if mv.to.x - mv.from.x > 0 then 1 else -1;
      var i := mv.from.x + k;
      ghost var n := 1;
      while i != mv.to.x
        invariant 1 <= n <= Dist(mv.from, mv.to) && Position(i, mv.from.y) == Along(mv.from, mv.to, n)
        invariant forall t {:trigger Along(mv.from, mv.to, t)} ::
          1 <= t < n ==> Vacant(Contents(), Along(mv.from, mv.to, t))
        decreases Dist(mv.from, mv.to) - n
      {
        if cells[Index(Position(i, mv.from.y))] != NoPiece {
          assert !Vacant(Contents(), Along(mv.from, mv.to, n));
          return false;
        }
        i, n := i + k, n + 1;
      }
      return true;
    }

    method VerifyVertical(mv: Move) returns (ok: bool)
      requires Valid() && OnBoard(mv.from) && OnBoard(mv.to)
      requires mv.from.x == mv.to.x && mv.from.y != mv.to.y
      ensures ok == Clear(Contents(), mv.from, mv.to)
    {
      var l := if mv.to.y - mv.from.y > 0 then 1 else -1;
      var j := mv.from.y + l;
      ghost var n := 1;
      while j != mv.to.y
        invariant 1 <= n <= Dist(mv.from, mv.to) && Position(mv.from.x, j) == Along(mv.from, mv.to, n)
        invariant forall t {:trigger Along(mv.from, mv.to, t)} ::
          1 <= t < n ==> Vacant(Contents(), Along(mv.from, mv.to, t))
        decreases Dist(mv.from, mv.to) - n
      {
        if cells[Index(Position(mv.from.x, j))] != NoPiece {
          assert !Vacant(Contents(), Along(mv.from, mv.to, n));
          return false;
        }
        j, n := j + l, n + 1;
      }
      return true;
    }

    method VerifyRookMove(mv: Move) returns (ok: bool)
      requires Valid() && OnBoard(mv.from) && OnBoard(mv.to)
      ensures ok == (!Owned(At(Contents(), mv.to), mv.color)
                     && Straight(mv.from, mv.to) && Clear(Contents(), mv.from, mv.to))
    {
      var distx, disty := Abs(mv.from.x - mv.to.x), Abs(mv.from.y - mv.to.y);
      if !Owned(cells[Index(mv.to)], mv.color) {
        if distx == 0 && disty > 0 {
          ok := VerifyVertical(mv);
          return;
        } else if distx > 0 && disty == 0 {
          ok := VerifyHorizontal(mv);
          return;
        }
      }
      return false;
    }

    method VerifyBishopMove(mv: Move) returns (ok: bool)
      requires Valid() && OnBoard(mv.from) && OnBoard(mv.to)
      ensures ok == (!Owned(At(Contents(), mv.to), mv.color)
                     && Diagonal(mv.from, mv.to) && Clear(Contents(), mv.from, mv.to))
    {
      var distx, disty := Abs(mv.from.x - mv.to.x), Abs(mv.from.y - mv.to.y);
      if !Owned(cells[Index(mv.to)], mv.color) && distx == disty && distx != 0 {
        ok := VerifyDiagonal(mv);
        return;
      }
      return false;
    }

    method VerifyQueenMove(mv: Move) returns (ok: bool)
      requires Valid() && OnBoard(mv.from) && OnBoard(mv.to)
      ensures ok == (!Owned(At(Contents(), mv.to), mv.color)
                     && (Straight(mv.from, mv.to) || Diagonal(mv.from, mv.to)) && Clear(Contents(), mv.from, mv.to))
    {
      var distx, disty := Abs(mv.from.x - mv.to.x), Abs(mv.from.y - mv.to.y);
      if !Owned(cells[Index(mv.to)], mv.color) && (distx > 0 || disty > 0) {
        if distx == disty {
          ok := VerifyDiagonal(mv);
          return;
        } else if distx > 0 && disty == 0 {
          ok := VerifyHorizontal(mv);
          return;
        } else if disty > 0 && distx == 0 {
          ok := VerifyVertical(mv);
          return;
        }
      }
      return false;
    }

    method VerifyHorseMove(mv: Move) returns (ok: bool)
      requires Valid() && OnBoard(mv.from) && OnBoard(mv.to)
      ensures ok == (!Owned(At(Contents(), mv.to), mv.color) && KnightStep(mv.from, mv.to))
    {
      var distx, disty := Abs(mv.from.x - mv.to.x), Abs(mv.from.y - mv.to.y);
      if Owned(cells[Index(mv.to)], mv.color) {
        return false;
      }
      if distx + disty == 3 {
        if (distx == 2 && disty == 1) || (distx == 1 && disty == 2) {
          return true;
        }
      }
      return false;
    }

    method VerifyPawnMove(enpassant: Position, mv: Move) returns (ok: bool)
      requires Valid() && OnBoard(mv.from) && OnBoard(mv.to) && Owned(At(Contents(), mv.from), mv.color)
      ensures ok == (!Owned(At(Contents(), mv.to), mv.color) && PawnStep(Contents(), enpassant, mv))
    {
      var distx, disty: int := Abs(mv.from.x - mv.to.x), mv.to.y - mv.from.y;
      if mv.color == White && disty < 0 {
        return false;
      } else if mv.color == Black && disty > 0 {
        return false;
      }
      if Owned(cells[Index(mv.to)], mv.color) {
        return false;
      }
      disty := Abs(disty);
      if disty == 1 && distx == 0 {
        return cells[Index(mv.to)] == NoPiece;
      } else if disty == 2 && distx == 0 {
        var meio := (mv.from.y + mv.to.y) / 2;
        if cells[Index(Position(mv.from.x, meio))] != NoPiece {
          return false;
        }
        if cells[Index(mv.to)] != NoPiece {
          return false;
        }
        if Owned(cells[Index(mv.from)], White) {
          if mv.from.y != 1 {
            return false;
          }
        } else if mv.from.y != 8 - 2 {
          return false;
        }
        return true;
      } else if disty == 1 && distx == 1 {
        if cells[Index(mv.to)] != NoPiece {
          return true;
        } else if enpassant == mv.to {
          return true;
        }
        return false;
      }
      return false;
    }

    method FindKingOf(c: Color) returns (p: Position)
      requires Valid()
      ensures p == FindKing(Contents(), c)
    {
      for i := 0 to 8
        invariant FindKing(Contents(), c) == KingFrom(Contents(), c, 8 * i)
      {
        for j := 0 to 8
          invariant FindKing(Contents(), c) == KingFrom(Contents(), c, 8 * i + j)
        {
          if cells[Index(Position(j, i))] == Man(King, c) {
            return Position(j, i);
          }
        }
      }
      return NOWHERE;
    }

    /** The mutual recursion below ends: the measure is 1 only for a castling attempt that passed its
        rook test, and the attack tests such an attempt makes never meet another one. */
    method VerifyPieceMove(r: Rights, mv: Move) returns (ok: bool)
      requires Valid() && OnBoard(mv.from) && AtMostOneKing(Contents())
      ensures ok == PieceMove(Contents(), r, mv)
      decreases Level(Contents(), r, mv), 2
    {
      if 0 <= mv.to.x < 8 && 0 <= mv.to.y < 8 {
        if !Owned(cells[Index(mv.from)], mv.color) || Owned(cells[Index(mv.to)], mv.color) {
          return false;
        }
        match cells[Index(mv.from)].kind {
          case Knight => ok := VerifyHorseMove(mv);
          case Pawn => ok := VerifyPawnMove(r.enpassant, mv);
          case Rook => ok := VerifyRookMove(mv);
          case Bishop => ok := VerifyBishopMove(mv);
          case Queen => ok := VerifyQueenMove(mv);
          case King => ok := VerifyKingMove(r, mv);
        }
        return;
      }
      return false;
    }

    method VerifyKingMove(r: Rights, mv: Move) returns (ok: bool)
      requires Valid() && OnBoard(mv.from) && AtMostOneKing(Contents())
      requires Playable(Contents(), mv) && At(Contents(), mv.from).kind == King
      ensures ok == PieceMove(Contents(), r, mv)
      decreases Level(Contents(), r, mv), 1
    {
      hide PieceMove, AtMostOneKing, Attacked, Reached, Checked, CastleTry, RookPath, Straight, Clear;
      hide Corner, Middle, Level;
      KingMoveIs(Contents(), r, mv);
      TryIs(Contents(), r, mv);
      var distx, disty := mv.from.x - mv.to.x, mv.from.y - mv.to.y;
      if Abs(distx) <= 1 && Abs(disty) <= 1 {
        return true;
      }
      if Abs(distx) == 2 && Abs(disty) == 0 {
        var queen, king := QueenSide(mv.color), KingSide(mv.color);
        if (distx > 0 && queen in r.castle) || (distx < 0 && king in r.castle) {
          var corner := if distx > 0 then Position(0, mv.to.y) else Position(7, mv.to.y);
          var path := VerifyRookMove(Move(corner, Position(mv.from.x - (if distx > 0 then 1 else -1), mv.to.y),
              mv.color, None));
          if !path {
            return false;
          }
          ok := CastleSquaresSafe(r, mv);
          return;
        }
      }
      return false;
    }

    /** The king is not attacked where it stands, passes and arrives. */
    method CastleSquaresSafe(r: Rights, mv: Move) returns (ok: bool)
      requires Valid() && OnBoard(mv.from) && AtMostOneKing(Contents()) && CastleTry(Contents(), r, mv)
      ensures ok == PieceMove(Contents(), r, mv)
      decreases Level(Contents(), r, mv), 0
    {
      hide PieceMove, AtMostOneKing, Attacked, Reached, Checked, CastleTowards, FindKing, RookPath, CastleTry;
      hide AttackLevel;
      CastleTests(Contents(), r, mv);
      SameRow(Contents(), r, mv);
      var checked := VerifyCheck(r, mv.color);
      if checked {
        return false;
      }
      var attacked := BeingAttacked(r, Position((mv.from.x + mv.to.x) / 2, mv.to.y), Other(mv.color));
      if attacked {
        return false;
      }
      attacked := BeingAttacked(r, mv.to, Other(mv.color));
      return !attacked;
    }

    method BeingAttacked(r: Rights, p: Position, foe: Color) returns (yes: bool)
      requires Valid() && AtMostOneKing(Contents())
      ensures yes == Reached(Contents(), r, p, foe)
      decreases AttackLevel(Contents(), r, p, foe), 3
    {
      hide PieceMove, CastleTry, AtMostOneKing, Reached, Level, AttackLevel, CastleTowards, NobodyBefore;
      NobodyYet(Contents(), r, p, foe);
      for i := 0 to 8
        invariant NobodyBefore(Contents(), r, p, foe, 8 * i)
      {
        for j := 0 to 8
          invariant NobodyBefore(Contents(), r, p, foe, 8 * i + j)
        {
          var f := Position(j, i);
          NotOwned(Contents(), r, Move(f, p, foe, None));
          LevelBelow(Contents(), r, p, foe, f);
          if Owned(cells[Index(f)], foe) {
            var ok := VerifyPieceMove(r, Move(f, p, foe, None));
            if ok {
              SomebodyReaches(Contents(), r, p, foe, f);
              return true;
            }
          }
          NorTheNext(Contents(), r, p, foe, f);
        }
      }
      NobodyReaches(Contents(), r, p, foe);
      return false;
    }

    method VerifyCheck(r: Rights, c: Color) returns (yes: bool)
      requires Valid() && AtMostOneKing(Contents())
      ensures yes == Checked(Contents(), r, c)
      decreases AttackLevel(Contents(), r, FindKing(Contents(), c), Other(c)), 4
    {
      var k := FindKingOf(c);
      yes := BeingAttacked(r, k, Other(c));
    }

    // ----- the board as text -----

    /** One row of the text. */
    method RowForFEN(i: nat) returns (fen: string)
      requires Valid() && i < 8
      ensures fen == RowText(Contents(), i, 0, 0)
    {
      hide PieceChar, Run, RowText;
      fen := "";
      var count := 0;
      for j := 0 to 8
        invariant 0 <= count <= j
        invariant fen + RowText(Contents(), i, j, count) == RowText(Contents(), i, 0, 0)
      {
        var p := cells[Index(Position(j, i))];
        ghost var before := fen;
        RowStep(Contents(), i, j, count);
        if p == NoPiece {
          count := count + 1;
        } else {
          if count > 0 {
            fen := fen + Run(count);
          }
          RunOfNone(before, count);
          fen := fen + [PieceChar(p)];
          ghost var rest := RowText(Contents(), i, j + 1, 0);
          Joined(before, Run(count), [PieceChar(p)], rest);
          count := 0;
        }
      }
      RowEnd(Contents(), i, count);
      RunOfNone(fen, count);
      if count > 0 {
        fen := fen + Run(count);
      }
    }

    method GetPosForFEN() returns (fen: string)
      requires Valid()
      ensures fen == Placement(Contents())
    {
      hide RowText;
      fen := "";
      var i := 7;
      ghost var whole := Placement(Contents());
      while i >= 0
        invariant -1 <= i <= 7
        invariant fen + (if i >= 0 then RowsFrom(Contents(), i) + "/" else "") == whole + "/"
      {
        var row := RowForFEN(i);
        ghost var rest := if i > 0 then RowsFrom(Contents(), i - 1) + "/" else "";
        NextRow(Contents(), i, rest);
        Glue(fen, row, rest);
        fen := fen + row;
        fen := fen + "/";
        i := i - 1;
      }
      assert fen == whole + "/";
      fen := fen[..|fen| - 1];
    }

    /** Reads a text that stays on the board, as the text of any board does. */
    method SetState(text: string)
      requires Valid() && Read(Contents(), 7, 0, text).Some?
      modifies cells
      ensures Some(Contents()) == Read(old(Contents()), 7, 0, text)
    {
      var line, column := 7, 0;
      for i := 0 to |text|
        invariant column >= 0
        invariant Read(Contents(), line, column, text[i..]) == Read(old(Contents()), 7, 0, text)
      {
        ghost var rest := text[i..];
        assert rest[1..] == text[i + 1..] && rest[0] == text[i];
        if text[i] == '/' {
          column := 0;
          line := line - 1;
        } else if Digit(text[i]) {
          ghost var b, from := Contents(), column;
          for k := 0 to DigitValue(text[i])
            invariant column == from + k && column <= 8
            invariant Contents() == Blank(b, line, from, k)
          {
            CreatePiece(Position(column, line), NoPiece);
            column := column + 1;
          }
        } else {
          CreatePiece(Position(column, line), PieceOfChar(text[i]));
          column := column + 1;
        }
      }
    }

    static method CountPieces(fen: string) returns (count: nat)
      ensures count == DigitSum(fen)
    {
      count := 0;
      for i := 0 to |fen|
        invariant DigitSum(fen) == count + DigitSum(fen[i..])
      {
        assert fen[i..][1..] == fen[i + 1..];
        if '0' <= fen[i] <= '9' {
          count := count + (fen[i] as int - '0' as int);
        }
      }
    }

    // ----- candidate squares -----

    /** The squares from `p` in one direction up to and including the first man. */
    method WalkRay(p: Position, dx: int, dy: int) returns (ray: seq<Position>)
      requires Valid() && OnBoard(p) && -1 <= dx <= 1 && -1 <= dy <= 1 && (dx != 0 || dy != 0)
      ensures IsRay(Contents(), p, dx, dy, ray)
    {
      ray := [];
      var i, j := p.y + dy, p.x + dx;
      while 0 <= i < 8 && 0 <= j < 8
        invariant |ray| <= 7 && Position(j, i) == RayAt(p, dx, dy, |ray| + 1)
        invariant forall k :: 0 <= k < |ray| ==> ray[k] == RayAt(p, dx, dy, k + 1)
        decreases 8 - |ray|
      {
        RayBound(p, dx, dy, |ray| + 1);
        var aux := Position(j, i);
        ray := ray + [aux];
        if cells[Index(aux)] != NoPiece {
          return;
        }
        i, j := i + dy, j + dx;
      }
    }

    method GetVerticalAndHorizontal(p: Position) returns (ans: seq<Position>)
      requires Valid() && OnBoard(p)
      ensures forall q :: OnBoard(q) && Straight(p, q) && Clear(Contents(), p, q) ==> q in ans
    {
      var up := WalkRay(p, 0, 1);
      var down := WalkRay(p, 0, -1);
      var right := WalkRay(p, 1, 0);
      var left := WalkRay(p, -1, 0);
      ans := up + down + right + left;
      forall q | OnBoard(q) && Straight(p, q) && Clear(Contents(), p, q)
        ensures q in ans
      {
        RayHits(Contents(), p, q, if q.y > p.y then up else if q.y < p.y then down else if q.x > p.x then right
            else left);
      }
    }

    method GetDiagonals(p: Position) returns (ans: seq<Position>)
      requires Valid() && OnBoard(p)
      ensures forall q :: OnBoard(q) && Diagonal(p, q) && Clear(Contents(), p, q) ==> q in ans
    {
      var ne := WalkRay(p, 1, 1);
      var nw := WalkRay(p, -1, 1);
      var se := WalkRay(p, 1, -1);
      var sw := WalkRay(p, -1, -1);
      ans := ne + nw + se + sw;
      forall q | OnBoard(q) && Diagonal(p, q) && Clear(Contents(), p, q)
        ensures q in ans
      {
        RayHits(Contents(), p, q, if q.y > p.y then (if q.x > p.x then ne else nw) else (if q.x > p.x then se else sw));
      }
    }

    method GetPossiblePositions(p: Position) returns (ans: seq<Position>)
      requires Valid() && OnBoard(p)
      ensures At(Contents(), p) == NoPiece ==> ans == []
      ensures forall r: Rights, mv: Move {:trigger PieceMove(Contents(), r, mv)} ::
        mv.from == p && PieceMove(Contents(), r, mv) ==> mv.to in ans
    {
      ans := [];
      match cells[Index(p)] {
        case NoPiece =>
        case Man(Knight, _) => ans := Offsets(p, KnightOffsets());
        case Man(Pawn, _) => ans := Offsets(p, PawnOffsets());
        case Man(Rook, _) => ans := GetVerticalAndHorizontal(p);
        case Man(Bishop, _) => ans := GetDiagonals(p);
        case Man(Queen, _) =>
          ans := GetVerticalAndHorizontal(p);
          var diagonals := GetDiagonals(p);
          ans := ans + diagonals;
        case Man(King, _) => ans := Offsets(p, KingOffsets());
      }
      forall r: Rights, mv: Move | mv.from == p && PieceMove(Contents(), r, mv)
        ensures mv.to in ans
      {
        OffsetsCover(Contents(), r, mv);
      }
    }
  }
}
