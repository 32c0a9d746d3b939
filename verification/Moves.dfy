/** Where each man may go, said once more by steps and walks and not by distances: every kind of move is accepted
    exactly when one of these leads there. */
module Moves {
  import opened ChessBoard
  import opened Rules
  import opened Invariant
  import opened Reachable
  import opened Engine

  /** The square `n` steps of a direction away. */
  function Walk(p: Position, d: (int, int), n: nat): Position {
    Position(p.x + n * d.0, p.y + n * d.1)
  }

  const ROOK_WAYS: set<(int, int)> := {(1, 0), (-1, 0), (0, 1), (0, -1)}
  const BISHOP_WAYS: set<(int, int)> := {(1, 1), (1, -1), (-1, 1), (-1, -1)}
  const KNIGHT_JUMPS: set<(int, int)> := {(1, 2), (2, 1), (2, -1), (1, -2), (-1, -2), (-2, -1), (-2, 1), (-1, 2)}

  /** The target is a square of the board and no man of the mover stands on it. */
  predicate FreeFor(b: Board, mv: Move) {
    OnBoard(mv.to) && (At(b, mv.to).Man? ==> At(b, mv.to).color != mv.color)
  }

  /** Walking from the man in one of the directions, over vacant squares only, comes to the target. */
  ghost predicate WalksTo(b: Board, mv: Move, ways: set<(int, int)>) {
    exists d, n: nat {:trigger Walk(mv.from, d, n)} ::
      d in ways && n >= 1 && mv.to == Walk(mv.from, d, n) && WayFree(b, mv.from, d, n)
  }

  ghost predicate WayFree(b: Board, p: Position, d: (int, int), n: nat) {
    forall k: nat {:trigger Walk(p, d, k)} :: 1 <= k < n ==> OnBoard(Walk(p, d, k)) && At(b, Walk(p, d, k)) == NoPiece
  }

  /** The man on the first square belongs to the mover and is of this kind. */
  predicate Moves(b: Board, mv: Move, kind: Kind)
    requires OnBoard(mv.from)
  {
    At(b, mv.from) == Man(kind, mv.color)
  }

  // ----- jumps -----

  lemma KnightGoes(b: Board, r: Rights, mv: Move)
    requires OnBoard(mv.from) && Moves(b, mv, Knight)
    ensures PieceMove(b, r, mv) <==> FreeFor(b, mv) && (mv.to.x - mv.from.x, mv.to.y - mv.from.y) in KNIGHT_JUMPS
  {
  }

  /** Between castling and the eight neighbours a king's move is one or the other. */
  lemma KingGoes(b: Board, r: Rights, mv: Move)
    requires OnBoard(mv.from) && Moves(b, mv, King)
    ensures PieceMove(b, r, mv) <==>
      || (FreeFor(b, mv) && (mv.to.x - mv.from.x, mv.to.y - mv.from.y) in ROOK_WAYS + BISHOP_WAYS)
      || Castling(b, r, mv)
  {
    hide Attacked, RookPath;
  }

  // ----- castling -----

  /** From the king's first square towards a side there is a right to, over vacant squares; only where the rook
      arrives may an enemy man stand. */
  predicate ShortWay(b: Board, castle: string, mv: Move, y: int)
    requires 0 <= y < 8
  {
    && mv.from == Position(4, y) && mv.to == Position(6, y) && (if mv.color == White then 'K' else 'k') in castle
    && At(b, Position(6, y)) == NoPiece && !Owned(At(b, Position(5, y)), mv.color)
  }

  predicate LongWay(b: Board, castle: string, mv: Move, y: int)
    requires 0 <= y < 8
  {
    && mv.from == Position(4, y) && mv.to == Position(2, y) && (if mv.color == White then 'Q' else 'q') in castle
    && At(b, Position(1, y)) == NoPiece && At(b, Position(2, y)) == NoPiece
    && !Owned(At(b, Position(3, y)), mv.color)
  }

  lemma ShortTry(b: Board, r: Rights, mv: Move, y: int)
    requires OnBoard(mv.from) && Moves(b, mv, King) && 0 <= y < 8 && ShortWay(b, r.castle, mv, y)
    ensures CastleTry(b, r, mv)
  {
    assert Along(Corner(mv), Middle(mv), 1) == mv.to;
  }

  lemma LongTry(b: Board, r: Rights, mv: Move, y: int)
    requires OnBoard(mv.from) && Moves(b, mv, King) && 0 <= y < 8 && LongWay(b, r.castle, mv, y)
    ensures CastleTry(b, r, mv)
  {
    assert Along(Corner(mv), Middle(mv), 1) == Position(1, y) && Along(Corner(mv), Middle(mv), 2) == mv.to;
  }

  /** What an attempt says of the squares, apart from the vacant ones. */
  lemma TryParts(b: Board, r: Rights, mv: Move)
    requires OnBoard(mv.from) && Moves(b, mv, King) && CastleTry(b, r, mv)
    ensures OnBoard(mv.to) && CastleShape(mv) && RookPath(b, mv) && !Owned(At(b, Middle(mv)), mv.color)
    ensures KingAt(b, mv.from, mv.color) && mv.to.x != mv.from.x && mv.to.y == mv.from.y
    ensures RightLetter(mv.color, mv.to.x > mv.from.x) in r.castle
  {
    hide Clear, Straight;
  }

  lemma TryGoes(b: Board, r: Rights, mv: Move, y: int)
    requires Sound(b, r, mv.color) && OnBoard(mv.from) && Moves(b, mv, King) && CastleTry(b, r, mv)
    requires y == if mv.color == White then 0 else 7
    ensures ShortWay(b, r.castle, mv, y) || LongWay(b, r.castle, mv, y)
  {
    hide Sound, CastleTry, RookPath, Moves, At;
    TryParts(b, r, mv);
    HomeOfRight(b, r, mv);
    RookPathVacant(b, mv, mv.to.x);
    if mv.to.x < mv.from.x {
      RookPathVacant(b, mv, 1);
    }
  }

  /** In a sound position castling is one of the two ways, when the other side attacks none of the king's squares. */
  lemma CastlingGoes(b: Board, r: Rights, mv: Move)
    requires Sound(b, r, mv.color) && OnBoard(mv.from) && Moves(b, mv, King)
    ensures var y := if mv.color == White then 0 else 7;
      Castling(b, r, mv) <==>
        || (ShortWay(b, r.castle, mv, y) && forall x :: x in {4, 5, 6} ==>
              !Attacked(b, r.enpassant, Position(x, y), Other(mv.color)))
        || (LongWay(b, r.castle, mv, y) && forall x :: x in {4, 3, 2} ==>
              !Attacked(b, r.enpassant, Position(x, y), Other(mv.color)))
  {
    hide Sound, Attacked, CastleTry, RookPath;
    var y := if mv.color == White then 0 else 7;
    if CastleTry(b, r, mv) {
      TryGoes(b, r, mv, y);
    }
    if ShortWay(b, r.castle, mv, y) {
      ShortTry(b, r, mv, y);
    }
    if LongWay(b, r.castle, mv, y) {
      LongTry(b, r, mv, y);
    }
  }

  // ----- walks -----

  lemma WalkIsAlong(f: Position, t: Position, d: (int, int), n: nat, k: nat)
    requires d in ROOK_WAYS + BISHOP_WAYS && n >= 1 && t == Walk(f, d, n) && k <= n
    ensures Along(f, t, k) == Walk(f, d, k) && Dist(f, t) == n
    ensures Straight(f, t) <==> d in ROOK_WAYS
    ensures Diagonal(f, t) <==> d in BISHOP_WAYS
  {
  }

  /** Every straight or diagonal line is a walk. */
  lemma LineIsWalk(f: Position, t: Position) returns (d: (int, int))
    requires Straight(f, t) || Diagonal(f, t)
    ensures d in (if Straight(f, t) then ROOK_WAYS else BISHOP_WAYS) && Dist(f, t) >= 1 && t == Walk(f, d, Dist(f, t))
  {
    d := (Sign(t.x - f.x), Sign(t.y - f.y));
  }

  lemma WalkWhenClear(b: Board, mv: Move, straight: bool, diagonal: bool)
    requires OnBoard(mv.from) && OnBoard(mv.to)
    ensures var ways := (if straight then ROOK_WAYS else {}) + (if diagonal then BISHOP_WAYS else {});
      WalksTo(b, mv, ways) <==>
        ((straight && Straight(mv.from, mv.to)) || (diagonal && Diagonal(mv.from, mv.to))) && Clear(b, mv.from, mv.to)
  {
    var ways := (if straight then ROOK_WAYS else {}) + (if diagonal then BISHOP_WAYS else {});
    var f, t := mv.from, mv.to;
    if ((straight && Straight(f, t)) || (diagonal && Diagonal(f, t))) && Clear(b, f, t) {
      var d := LineIsWalk(f, t);
      var n := Dist(f, t);
      WalkIsAlong(f, t, d, n, 0);
      forall k: nat | 1 <= k < n
        ensures OnBoard(Walk(f, d, k)) && At(b, Walk(f, d, k)) == NoPiece
      {
        WalkIsAlong(f, t, d, n, k);
        assert Vacant(b, Along(f, t, k));
      }
      assert WayFree(b, f, d, n);
      assert t == Walk(f, d, n);
    }
    if d, n: nat :| d in ways && n >= 1 && t == Walk(f, d, n) && WayFree(b, f, d, n) {
      WalkIsAlong(f, t, d, n, 0);
      forall k | 1 <= k < Dist(f, t)
        ensures Vacant(b, Along(f, t, k))
      {
        WalkIsAlong(f, t, d, n, k);
        assert OnBoard(Walk(f, d, k));
      }
    }
  }

  lemma RookGoes(b: Board, r: Rights, mv: Move)
    requires OnBoard(mv.from) && Moves(b, mv, Rook)
    ensures PieceMove(b, r, mv) <==> FreeFor(b, mv) && WalksTo(b, mv, ROOK_WAYS)
  {
    hide Clear, Straight, WalksTo, Diagonal;
    if OnBoard(mv.to) {
      WalkWhenClear(b, mv, true, false);
      assert ROOK_WAYS + {} == ROOK_WAYS;
    }
  }

  lemma BishopGoes(b: Board, r: Rights, mv: Move)
    requires OnBoard(mv.from) && Moves(b, mv, Bishop)
    ensures PieceMove(b, r, mv) <==> FreeFor(b, mv) && WalksTo(b, mv, BISHOP_WAYS)
  {
    hide Clear, Straight, WalksTo, Diagonal;
    if OnBoard(mv.to) {
      WalkWhenClear(b, mv, false, true);
      assert {} + BISHOP_WAYS == BISHOP_WAYS;
    }
  }

  lemma QueenGoes(b: Board, r: Rights, mv: Move)
    requires OnBoard(mv.from) && Moves(b, mv, Queen)
    ensures PieceMove(b, r, mv) <==> FreeFor(b, mv) && WalksTo(b, mv, ROOK_WAYS + BISHOP_WAYS)
  {
    hide Clear, Straight, WalksTo, Diagonal;
    if OnBoard(mv.to) {
      WalkWhenClear(b, mv, true, true);
    }
  }

  // ----- pawns -----

  /** One square up, two from the second row, or one up and to the side onto a man or the square recorded. */
  predicate WhitePawnTo(b: Board, enpassant: Position, x: int, y: int, to: Position)
    requires OnBoard(Position(x, y))
  {
    OnBoard(to) &&
    (|| (to == Position(x, y + 1) && At(b, to) == NoPiece)
     || (to == Position(x, 3) && y == 1 && At(b, Position(x, 2)) == NoPiece && At(b, to) == NoPiece)
     || (to in {Position(x - 1, y + 1), Position(x + 1, y + 1)}
         && (Owned(At(b, to), Black) || (At(b, to) == NoPiece && to == enpassant))))
  }

  predicate BlackPawnTo(b: Board, enpassant: Position, x: int, y: int, to: Position)
    requires OnBoard(Position(x, y))
  {
    OnBoard(to) &&
    (|| (to == Position(x, y - 1) && At(b, to) == NoPiece)
     || (to == Position(x, 4) && y == 6 && At(b, Position(x, 5)) == NoPiece && At(b, to) == NoPiece)
     || (to in {Position(x - 1, y - 1), Position(x + 1, y - 1)}
         && (Owned(At(b, to), White) || (At(b, to) == NoPiece && to == enpassant))))
  }

  lemma PawnGoes(b: Board, r: Rights, mv: Move)
    requires OnBoard(mv.from) && Moves(b, mv, Pawn)
    ensures PieceMove(b, r, mv) <==>
      if mv.color == White then WhitePawnTo(b, r.enpassant, mv.from.x, mv.from.y, mv.to)
      else BlackPawnTo(b, r.enpassant, mv.from.x, mv.from.y, mv.to)
  {
  }

  /** Nothing moves from a square that the mover has no man on. */
  lemma OnlyOwnMenGo(b: Board, r: Rights, mv: Move)
    requires OnBoard(mv.from) && PieceMove(b, r, mv)
    ensures At(b, mv.from).Man? && At(b, mv.from).color == mv.color
  {
  }
}
