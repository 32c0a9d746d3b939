/** A timed game in which White has resigned and yet wins, because Black's flag is called afterwards. */
module FlagFall {
  import opened ChessBoard
  import opened Rules
  import opened Game
  import opened Invariant
  import opened Reachable
  import opened Runs
  import opened Mate
  import opened Clocks
  import opened Movetext
  import opened ChessEngine
  import opened ChessGames

  /** Both kings at home behind three men, and the two sides far apart. */
  ghost predicate Sheltered(b: Board) {
    forall p {:trigger At(b, p)} :: OnBoard(p) ==>
      && (3 <= p.x <= 5 && p.y in {1, 6} ==> At(b, p).Man?)
      && (Owned(At(b, p), White) ==> p.y <= 2) && (Owned(At(b, p), Black) ==> p.y >= 5)
      && (IsKing(At(b, p)) ==> p.x == 4 && p.y in {0, 7})
  }

  lemma ShelteredIsSafe(b: Board, c: Color)
    requires Sheltered(b)
    ensures !InCheck(b, c)
  {
    forall k, f | KingAt(b, k, c) && OnBoard(f)
      ensures !PlainMove(b, NOWHERE, Move(f, k, Other(c), None))
    {
      assert At(b, k) == Man(King, c);
      if Owned(At(b, f), Other(c)) && Clear(b, f, k) && (Straight(f, k) || Diagonal(f, k)) {
        LastStep(b, c, k, f);
      }
    }
  }

  /** A line to the king passes one of the three men in front of it. */
  lemma LastStep(b: Board, c: Color, k: Position, f: Position)
    requires Sheltered(b) && KingAt(b, k, c) && OnBoard(f) && Owned(At(b, f), Other(c))
    requires Straight(f, k) || Diagonal(f, k)
    ensures !Clear(b, f, k)
  {
    hide Clear;
    assert At(b, k) == Man(King, c) && At(b, f).Man?;
    BeforeTheEnd(f, k);
    var q := Along(f, k, Dist(f, k) - 1);
    hide Along, Dist;
    assert 3 <= q.x <= 5 && q.y in {1, 6};
    assert At(b, q).Man?;
    NotClear(b, f, k);
  }

  lemma NotClear(b: Board, f: Position, k: Position)
    requires Dist(f, k) >= 2 && OnBoard(Along(f, k, Dist(f, k) - 1)) && At(b, Along(f, k, Dist(f, k) - 1)).Man?
    ensures !Clear(b, f, k)
  {
    hide Dist, Along;
  }

  /** The last square of a line from another row lies one row before its end. */
  lemma BeforeTheEnd(f: Position, k: Position)
    requires (Straight(f, k) || Diagonal(f, k)) && Abs(f.y - k.y) >= 2
    ensures Dist(f, k) >= 2
    ensures var q := Along(f, k, Dist(f, k) - 1);
      Abs(q.x - k.x) <= 1 && q.y == if f.y > k.y then k.y + 1 else k.y - 1
  {
  }

  /** A knight stays on its side of the board. */
  predicate KnightHop(b: Board, mv: Move) {
    && OnBoard(mv.from) && OnBoard(mv.to) && mv.promo == None
    && At(b, mv.from) == Man(Knight, mv.color) && Vacant(b, mv.to) && KnightStep(mv.from, mv.to)
    && (if mv.color == White then mv.to.y <= 2 else mv.to.y >= 5) && !(3 <= mv.from.x <= 5)
  }

  lemma HopAt(b: Board, mv: Move, q: Position)
    requires KnightHop(b, mv) && OnBoard(q)
    ensures At(Apply(b, mv), q) == if q == mv.to then Man(Knight, mv.color) else if q == mv.from then NoPiece
      else At(b, q)
  {
    ApplyAt(b, mv, q);
  }

  lemma HopStaysSheltered(b: Board, mv: Move)
    requires Sheltered(b) && KnightHop(b, mv)
    ensures Sheltered(Apply(b, mv))
  {
    forall q | OnBoard(q)
      ensures At(Apply(b, mv), q) == if q == mv.to then Man(Knight, mv.color) else if q == mv.from then NoPiece
        else At(b, q)
    {
      HopAt(b, mv, q);
    }
    hide Apply;
  }

  lemma HopIsLegal(b: Board, r: Rights, mv: Move)
    requires Sheltered(b) && KnightHop(b, mv) && Sound(b, r, mv.color)
    ensures Legal(b, r, mv)
  {
    HopStaysSheltered(b, mv);
    ShelteredIsSafe(Apply(b, mv), mv.color);
    hide Sound, Apply, InCheck, Checked, Castling;
    CheckAfterMove(b, r, mv);
  }

  /** A game, sheltered and sound. */
  ghost predicate Quiet(g: Game) {
    Ok(g) && Sheltered(g.board)
  }

  lemma HopGame(g: Game, s: string)
    requires Quiet(g) && ValidText(s) && KnightHop(g.board, Parse(g.turn, s))
    ensures Accepts(g, s) && Quiet(MadeBy(g, s)) && MadeBy(g, s).turn == Other(g.turn)
    ensures MadeBy(g, s).board == Apply(g.board, Parse(g.turn, s))
    ensures !CheckMate(MadeBy(g, s).board, RightsOf(MadeBy(g, s).state), MadeBy(g, s).turn)
  {
    var mv := Parse(g.turn, s);
    HopIsLegal(g.board, RightsOf(g.state), mv);
    HopStaysSheltered(g.board, mv);
    assert Accepts(g, s) && MadeBy(g, s) == Step(g, s);
    StepOk(g, s);
    NobodyChecked(MadeBy(g, s));
  }

  lemma NobodyChecked(g: Game)
    requires Quiet(g)
    ensures !CheckMate(g.board, RightsOf(g.state), g.turn)
  {
    ShelteredIsSafe(g.board, g.turn);
    HomeFileOfRights(g.board, g.state.castle, Other(g.turn));
    hide Sheltered, InCheck, Checked, Stuck, RightsHome, HomeFile;
    CheckedIsInCheck(g.board, RightsOf(g.state), g.turn);
  }

  lemma StartIsQuiet()
    ensures Quiet(Start()) && Start().turn == White && IsStart(Start().board)
  {
    StartOk();
    StartIsStart();
    ShelteredStart(Start().board);
  }

  lemma ShelteredStart(b: Board)
    requires IsStart(b)
    ensures Sheltered(b)
  {
    forall p | OnBoard(p)
      ensures At(b, p) == StartPiece(p)
    {
    }
  }

  const OUT: string := "b1c3"
  const REPLY: string := "b8c6"
  const BACK: string := "c3b1"

  /** The three texts name hops of knights from the start. */
  lemma TheHops(b: Board)
    requires IsStart(b)
    ensures KnightHop(b, Parse(White, OUT))
    ensures var b1 := Apply(b, Parse(White, OUT));
      KnightHop(b1, Parse(Black, REPLY)) && KnightHop(Apply(b1, Parse(Black, REPLY)), Parse(White, BACK))
  {
    var out, reply, back := Parse(White, OUT), Parse(Black, REPLY), Parse(White, BACK);
    assert At(b, out.from) == StartPiece(out.from) && At(b, out.to) == StartPiece(out.to);
    assert At(b, reply.from) == StartPiece(reply.from) && At(b, reply.to) == StartPiece(reply.to);
    var b1 := Apply(b, out);
    HopAt(b, out, reply.from);
    HopAt(b, out, reply.to);
    HopAt(b, out, back.from);
    HopAt(b, out, back.to);
    hide Apply;
    HopAt(b1, reply, back.from);
    HopAt(b1, reply, back.to);
  }

  /** One second for each side, no increments: two seconds after the third move Black's flag has fallen. */
  method ResignedAndWon() returns (game: ChessGame, white: Score, black: Score)
    ensures game.Valid() && game.resigned == Some(White) && game.done == BlackTimeOver && (white, black) == (Win, Lose)
  {
    hide Tells, Played, Replay, Moves, Consistent, Start, MadeBy, Accepts, Quiet, KnightHop, Apply, CheckMate, Parse,
      ValidText, IsStart, Written, DrawCode;
    ghost var g := Start();
    StartIsQuiet();
    TheHops(g.board);
    TextsAreValid();
    game := new ChessGame(true, false, ONE_SECOND, ONE_SECOND, 0, 0);
    HopGame(g, OUT);
    var r := game.Move(White, OUT, 0);
    g := MadeBy(g, OUT);
    HopGame(g, REPLY);
    r := game.Move(Black, REPLY, 0);
    g := MadeBy(g, REPLY);
    HopGame(g, BACK);
    r := game.Move(White, BACK, 0);
    assert game.clock == Clock(ONE_SECOND, ONE_SECOND, 3, 0);
    white, black := FlagCalledAfterResignation(game, 2 * ONE_SECOND);
  }

  lemma TextsAreValid()
    ensures ValidText(OUT) && ValidText(REPLY) && ValidText(BACK)
  {
  }
}
