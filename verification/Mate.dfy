/** No text at all is accepted exactly when the side to move is mated or stalemated. */
module Mate {
  import opened ChessBoard
  import opened Rules
  import opened Game
  import opened Invariant
  import opened Reachable

  /** Some four-character move of the man on `p` is legal. */
  ghost predicate CanMove(b: Board, r: Rights, p: Position)
    requires OnBoard(p) && At(b, p).Man?
  {
    exists q :: Legal(b, r, Move(p, q, At(b, p).color, None))
  }

  ghost predicate Stuck(b: Board, r: Rights, c: Color) {
    forall p :: OnBoard(p) && Owned(At(b, p), c) ==> !CanMove(b, r, p)
  }

  /** What verifyCheckMate answers for a side. */
  ghost predicate CheckMate(b: Board, r: Rights, c: Color) {
    Checked(b, r, c) && Stuck(b, r, c)
  }

  /** What verifyStaleMate answers for a side. */
  ghost predicate StaleMate(b: Board, r: Rights, c: Color) {
    !Checked(b, r, c) && Stuck(b, r, c)
  }

  // ----- the promoted piece does not matter for the mover's own king -----

  /** The boards differ at most in which officer of `c` stands on a square. */
  ghost predicate AlikeFor(a: Board, b: Board, c: Color) {
    forall q {:trigger At(a, q)} {:trigger At(b, q)} :: OnBoard(q) ==>
      || At(a, q) == At(b, q)
      || (Owned(At(a, q), c) && Owned(At(b, q), c) && !IsKing(At(a, q)) && !IsKing(At(b, q)))
  }

  lemma AlikeAttack(a: Board, b: Board, c: Color, f: Position, k: Position)
    requires AlikeFor(a, b, c) && OnBoard(f) && KingAt(a, k, c)
    requires PlainMove(a, NOWHERE, Move(f, k, Other(c), None))
    ensures PlainMove(b, NOWHERE, Move(f, k, Other(c), None))
  {
  }

  lemma AlikeCheck(a: Board, b: Board, c: Color)
    requires AlikeFor(a, b, c) && InCheck(a, c)
    ensures InCheck(b, c)
  {
    var k :| KingAt(a, k, c) && Attacked(a, NOWHERE, k, Other(c));
    var f :| OnBoard(f) && PlainMove(a, NOWHERE, Move(f, k, Other(c), None));
    AlikeAttack(a, b, c, f, k);
    assert At(a, k) == At(b, k);
    assert KingAt(b, k, c);
  }

  lemma AlikeApply(b: Board, mv: Move, mv': Move)
    requires OnBoard(mv.from) && OnBoard(mv.to) && mv.from != mv.to && PromoOk(mv) && PromoOk(mv')
    requires mv' == mv.(promo := mv'.promo) && Owned(At(b, mv.from), mv.color)
    ensures AlikeFor(Apply(b, mv), Apply(b, mv'), mv.color)
  {
    hide Apply;
    forall q | OnBoard(q)
      ensures
        || At(Apply(b, mv), q) == At(Apply(b, mv'), q)
        || (&& Owned(At(Apply(b, mv), q), mv.color) && Owned(At(Apply(b, mv'), q), mv.color)
            && !IsKing(At(Apply(b, mv), q)) && !IsKing(At(Apply(b, mv'), q)))
    {
      ApplyAt(b, mv, q);
      ApplyAt(b, mv', q);
    }
  }

  lemma AlikeNoCheck(a: Board, b: Board, c: Color)
    requires AlikeFor(a, b, c) && !InCheck(b, c)
    ensures !InCheck(a, c)
  {
    if InCheck(a, c) {
      AlikeCheck(a, b, c);
    }
  }

  /** The mover's king is left in check or not whatever the pawn is promoted to. */
  lemma PromotionDoesNotMatter(b: Board, r: Rights, mv: Move, mv': Move)
    requires Sound(b, r, mv.color) && OnBoard(mv.from) && PromoOk(mv) && PromoOk(mv')
    requires mv' == mv.(promo := mv'.promo) && Legal(b, r, mv)
    ensures Legal(b, r, mv')
  {
    PieceMoveIgnoresText(b, r, mv, mv');
    NoKingTaken(b, r, mv);
    AlikeApply(b, mv', mv);
    CheckAfterMove(b, r, mv);
    AlikeNoCheck(Apply(b, mv'), Apply(b, mv), mv.color);
    CheckAfterMove(b, r, mv');
  }

  /** After a move of a sound board the engine's check test is the plain one. */
  lemma CheckAfterMove(b: Board, r: Rights, mv: Move)
    requires Sound(b, r, mv.color) && OnBoard(mv.from) && PromoOk(mv) && PieceMove(b, r, mv)
    ensures OnBoard(mv.to) && (Checked(Apply(b, mv), r, mv.color) <==> InCheck(Apply(b, mv), mv.color))
  {
    KingsStay(b, r, mv);
    var b' := Apply(b, mv);
    HomeFileOfRights(b, r.castle, Other(mv.color));
    var k :| KingAt(b, k, Other(mv.color));
    assert KingAt(b', k, Other(mv.color));
    forall p | KingAt(b', p, Other(mv.color))
      ensures KingAt(b, p, Other(mv.color))
    {
    }
    CheckedIsInCheck(b', r, mv.color);
  }

  // ----- texts -----

  /** Four-character text of a move between two squares. */
  function TextOf(p: Position, q: Position): string
    requires OnBoard(p) && OnBoard(q)
  {
    [(p.x + 'a' as int) as char, (p.y + '1' as int) as char, (q.x + 'a' as int) as char, (q.y + '1' as int) as char]
  }

  lemma ParseText(c: Color, p: Position, q: Position)
    requires OnBoard(p) && OnBoard(q)
    ensures ValidText(TextOf(p, q)) && Parse(c, TextOf(p, q)) == Move(p, q, c, None)
  {
  }

  predicate Names(s: string, p: Position, q: Position) {
    && OnBoard(p) && OnBoard(q)
    && (s == TextOf(p, q) || (|s| == 5 && s[..4] == TextOf(p, q) && s[4] in "QNBRqnbr"))
  }

  /** Move texts are those of two squares, or of two squares and a letter for a queen, knight, bishop or rook in
      either case. */
  lemma TextsAreMoves(s: string)
    ensures ValidText(s) <==> exists p, q :: Names(s, p, q)
  {
    if ValidText(s) {
      var mv := Parse(White, s);
      assert s[..4] == TextOf(mv.from, mv.to);
      assert |s| == 4 ==> s == s[..4];
      PromotionLetter(if |s| == 5 then s[4] else 'q');
      assert Names(s, mv.from, mv.to);
    }
    if p, q :| Names(s, p, q) {
      assert s[0] == s[..4][0] && s[1] == s[..4][1] && s[2] == s[..4][2] && s[3] == s[..4][3];
      PromotionLetter(if |s| == 5 then s[4] else 'q');
    }
  }

  lemma PromotionLetter(c: char)
    ensures ToUpper(c) in {'Q', 'N', 'B', 'R'} <==> c in "QNBRqnbr"
  {
  }

  lemma AcceptedMeansCanMove(g: Game, s: string)
    requires Ok(g) && Accepts(g, s)
    ensures var p := Parse(g.turn, s).from;
      OnBoard(p) && Owned(At(g.board, p), g.turn) && CanMove(g.board, RightsOf(g.state), p)
  {
    var mv := Parse(g.turn, s);
    ParseOk(g.turn, s);
    PromotionDoesNotMatter(g.board, RightsOf(g.state), mv, mv.(promo := None));
    assert Legal(g.board, RightsOf(g.state), Move(mv.from, mv.to, g.turn, None));
  }

  lemma CanMoveMeansAccepted(g: Game, p: Position) returns (s: string)
    requires Ok(g) && OnBoard(p) && Owned(At(g.board, p), g.turn) && CanMove(g.board, RightsOf(g.state), p)
    ensures Accepts(g, s)
  {
    var q :| Legal(g.board, RightsOf(g.state), Move(p, q, g.turn, None));
    s := TextOf(p, q);
    ParseText(g.turn, p, q);
  }

  /** In a reachable game the engine rejects every text iff it calls the game mate or stalemate. */
  lemma NoMoveIffMateOrStalemate(g: Game)
    requires Ok(g)
    ensures (forall s :: !Accepts(g, s))
      <==> CheckMate(g.board, RightsOf(g.state), g.turn) || StaleMate(g.board, RightsOf(g.state), g.turn)
  {
    var b, r := g.board, RightsOf(g.state);
    if Stuck(b, r, g.turn) {
      forall s
        ensures !Accepts(g, s)
      {
        if Accepts(g, s) {
          AcceptedMeansCanMove(g, s);
        }
      }
    } else {
      var p :| OnBoard(p) && Owned(At(b, p), g.turn) && CanMove(b, r, p);
      var s := CanMoveMeansAccepted(g, p);
    }
  }
}
