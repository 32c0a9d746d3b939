/** A game as a value: board, current state and history, and what one accepted move does to them. */
module Game {
  import opened ChessBoard
  import opened Rules
  import opened Fen

  datatype State = State(
    boardFen: string,
    turn: Color,
    fullmoves: int,
    castle: string,
    enpassant: Position,
    halfmoves: int)

  function RightsOf(s: State): Rights {
    Rights(s.castle, s.enpassant)
  }

  /** Two states repeat each other when everything but the counters agrees. */
  predicate SameState(s: State, t: State) {
    s.boardFen == t.boardFen && s.castle == t.castle && s.enpassant == t.enpassant && s.turn == t.turn
  }

  datatype Game = Game(board: Board, state: State, turn: Color, history: seq<State>)

  // ----- the start -----

  function BackRank(x: nat): Kind
    requires x < 8
  {
    match x
    case 0 => Rook
    case 1 => Knight
    case 2 => Bishop
    case 3 => Queen
    case 4 => King
    case 5 => Bishop
    case 6 => Knight
    case 7 => Rook
  }

  function StartPiece(p: Position): Piece
    requires OnBoard(p)
  {
    if p.y == 0 then Man(BackRank(p.x), White)
    else if p.y == 1 then Man(Pawn, White)
    else if p.y == 6 then Man(Pawn, Black)
    else if p.y == 7 then Man(BackRank(p.x), Black)
    else NoPiece
  }

  function StartBoard(): Board {
    seq(64, i requires 0 <= i < 64 => StartPiece(SquareOf(i)))
  }

  /** rnbqkbnr/pppppppp/8/8/8/8/PPPPPPPP/RNBQKBNR */
  function StartPlacement(): string {
    "rnbqkbnr" + ("/" + ("pppppppp" + ("/" + StartMiddle())))
  }

  function StartMiddle(): string {
    "8" + ("/" + ("8" + ("/" + ("8" + ("/" + ("8" + ("/" + ("PPPPPPPP" + ("/" + "RNBQKBNR")))))))))
  }

  function StartState(): State {
    State(StartPlacement(), White, 1, "KQkq", NOWHERE, 0)
  }

  function Start(): Game {
    Game(StartBoard(), StartState(), White, [StartState()])
  }

  // ----- move texts -----

  predicate ValidText(s: string) {
    && |s| in {4, 5}
    && 'a' <= s[0] <= 'h' && '1' <= s[1] <= '8'
    && 'a' <= s[2] <= 'h' && '1' <= s[3] <= '8'
    && (|s| == 5 ==> ToUpper(s[4]) in {'Q', 'N', 'B', 'R'})
  }

  function Parse(c: Color, s: string): Move
    requires |s| >= 4
  {
    Move(Position(s[0] as int - 'a' as int, s[1] as int - '1' as int),
         Position(s[2] as int - 'a' as int, s[3] as int - '1' as int),
         c,
         if |s| == 5 then Some(s[4]) else None)
  }

  // ----- one move on the board -----

  predicate IsCastle(b: Board, mv: Move)
    requires OnBoard(mv.from)
  {
    At(b, mv.from).Man? && At(b, mv.from).kind == King && Abs(mv.to.x - mv.from.x) == 2
  }

  lemma BetweenOnBoard(mv: Move)
    requires OnBoard(mv.from) && OnBoard(mv.to)
    ensures OnBoard(Middle(mv)) && OnBoard(Corner(mv)) && OnBoard(Victim(mv))
  {
  }

  predicate IsEnPassant(b: Board, mv: Move)
    requires OnBoard(mv.from) && OnBoard(mv.to)
  {
    && At(b, mv.from).Man? && At(b, mv.from).kind == Pawn
    && Abs(mv.to.x - mv.from.x) == 1 && Abs(mv.to.y - mv.from.y) == 1
    && At(b, mv.to) == NoPiece
  }

  /** Square of the pawn an en passant capture takes. */
  function Victim(mv: Move): Position {
    Position(mv.to.x, mv.from.y)
  }

  /** A pawn is about to reach its last row. */
  predicate Promotes(b: Board, mv: Move)
    requires OnBoard(mv.from)
  {
    At(b, mv.from).Man? && At(b, mv.from).kind == Pawn && mv.to.y == LastRow(mv.color)
  }

  function Promotion(mv: Move): Piece {
    match mv.promo
    case None => Man(Queen, mv.color)
    case Some(c) =>
      match KindOfChar(c)
      case None => NoPiece
      case Some(k) => Man(k, mv.color)
  }

  function Promote(b: Board, mv: Move): Board
    requires OnBoard(mv.to)
  {
    if At(b, mv.to).Man? && At(b, mv.to).kind == Pawn && mv.to.y == LastRow(mv.color)
    then Put(b, mv.to, Promotion(mv)) else b
  }

  /** The board after a move that nobody checks again. */
  function Apply(b: Board, mv: Move): Board
    requires OnBoard(mv.from) && OnBoard(mv.to)
  {
    var b1 := if IsCastle(b, mv) then Shift(b, Corner(mv), Middle(mv)) else b;
    var b2 := if IsEnPassant(b1, mv) then Put(b1, Victim(mv), NoPiece) else b1;
    Promote(Shift(b2, mv.from, mv.to), mv)
  }

  /** The man that stands on the target square afterwards. */
  function Arrived(b: Board, mv: Move): Piece
    requires OnBoard(mv.from)
  {
    if At(b, mv.from).Man? && At(b, mv.from).kind == Pawn && mv.to.y == LastRow(mv.color)
    then Promotion(mv) else At(b, mv.from)
  }

  /** The board after a move, square by square. */
  lemma ApplyAt(b: Board, mv: Move, q: Position)
    requires OnBoard(mv.from) && OnBoard(mv.to) && mv.from != mv.to && OnBoard(q)
    ensures At(Apply(b, mv), q) ==
      if q == mv.to then Arrived(b, mv)
      else if q == mv.from then NoPiece
      else if IsCastle(b, mv) && q == Middle(mv) then At(b, Corner(mv))
      else if IsCastle(b, mv) && q == Corner(mv) then NoPiece
      else if IsEnPassant(b, mv) && q == Victim(mv) then NoPiece
      else At(b, q)
  {
    BetweenOnBoard(mv);
    hide Promotion, Put, Shift, At, Corner, Middle, Victim;
    var b1 := if IsCastle(b, mv) then Shift(b, Corner(mv), Middle(mv)) else b;
    FromStays(b, mv);
    ShiftAt(b, Corner(mv), Middle(mv), q);
    var b2 := if IsEnPassant(b1, mv) then Put(b1, Victim(mv), NoPiece) else b1;
    PutAt(b1, Victim(mv), NoPiece, q);
    var b3 := Shift(b2, mv.from, mv.to);
    ShiftAt(b2, mv.from, mv.to, q);
    ShiftAt(b2, mv.from, mv.to, mv.to);
    PutAt(b3, mv.to, Promotion(mv), q);
  }

  lemma PutAt(b: Board, p: Position, piece: Piece, q: Position)
    requires OnBoard(p) && OnBoard(q)
    ensures At(Put(b, p, piece), q) == if q == p then piece else At(b, q)
  {
  }

  lemma ShiftAt(b: Board, f: Position, t: Position, q: Position)
    requires OnBoard(f) && OnBoard(t) && OnBoard(q)
    ensures f != t ==>
      At(Shift(b, f, t), q) == if q == t then At(b, f) else if q == f then NoPiece else At(b, q)
  {
  }

  /** What castling and an en passant capture do first leaves the moving man and its target alone. */
  lemma FromStays(b: Board, mv: Move)
    requires OnBoard(mv.from) && OnBoard(mv.to) && mv.from != mv.to
    ensures IsCastle(b, mv) ==> Corner(mv) != Middle(mv)
    ensures var b1 := if IsCastle(b, mv) then Shift(b, Corner(mv), Middle(mv)) else b;
      && At(b1, mv.from) == At(b, mv.from) && IsEnPassant(b1, mv) == IsEnPassant(b, mv)
      && var b2 := if IsEnPassant(b1, mv) then Put(b1, Victim(mv), NoPiece) else b1;
      At(b2, mv.from) == At(b, mv.from)
  {
  }

  // ----- the state after a move -----

  /** Removes the first occurrence of a letter. */
  function Erase(s: string, c: char): string {
    if s == "" then "" else if s[0] == c then s[1..] else [s[0]] + Erase(s[1..], c)
  }

  function EraseIf(s: string, c: char, cond: bool): string {
    if cond then Erase(s, c) else s
  }

  /** The rights left after a move; cells 0, 7, 56 and 63 are the four corners. */
  function KeepRights(castle: string, b: Board, mv: Move): string
    requires OnBoard(mv.to)
  {
    var king := At(b, mv.to).Man? && At(b, mv.to).kind == King;
    var s0 := EraseIf(EraseIf(castle, KingSide(mv.color), king), QueenSide(mv.color), king);
    var s1 := EraseIf(s0, 'Q', b[0] != Man(Rook, White));
    var s2 := EraseIf(s1, 'K', b[7] != Man(Rook, White));
    var s3 := EraseIf(s2, 'q', b[56] != Man(Rook, Black));
    var s4 := EraseIf(s3, 'k', b[63] != Man(Rook, Black));
    if s4 == "" then "-" else s4
  }

  /** The square a pawn that has just gone two rows leaves behind it, if that was the move. */
  function NextEnPassant(b: Board, mv: Move): Position
    requires OnBoard(mv.to)
  {
    if At(b, mv.to).Man? && At(b, mv.to).kind == Pawn && Abs(mv.to.y - mv.from.y) == 2
    then Position(mv.to.x, mv.to.y - Ahead(mv.color)) else NOWHERE
  }

  /** `b` is the board after the move. */
  function NextState(s: State, b: Board, mv: Move): State
    requires OnBoard(mv.to)
  {
    var pawn := At(b, mv.to).Man? && At(b, mv.to).kind == Pawn;
    var captured := DigitSum(s.boardFen) != DigitSum(Placement(b));
    State(
      Placement(b),
      Other(s.turn),
      if mv.color == Black then s.fullmoves + 1 else s.fullmoves,
      KeepRights(s.castle, b, mv),
      NextEnPassant(b, mv),
      if pawn || captured then 0 else s.halfmoves + 1)
  }

  function Make(g: Game, mv: Move): Game
    requires OnBoard(mv.from) && OnBoard(mv.to)
  {
    var b := Apply(g.board, mv);
    var s := NextState(g.state, b, mv);
    Game(b, s, Other(g.turn), g.history + [s])
  }

  /** What verifyMove accepts: the man may go there and its own king is not attacked afterwards. */
  ghost predicate Legal(b: Board, r: Rights, mv: Move)
    requires OnBoard(mv.from)
  {
    PieceMove(b, r, mv) && !Checked(Apply(b, mv), r, mv.color)
  }

  ghost predicate Accepts(g: Game, s: string)
    ensures Accepts(g, s) ==> ValidText(s)
  {
    ValidText(s) && Legal(g.board, RightsOf(g.state), Parse(g.turn, s))
  }

  /** One call of verifyAndMakeMove: a rejected text leaves the game alone. */
  ghost function Step(g: Game, s: string): Game {
    if Accepts(g, s) then Make(g, Parse(g.turn, s)) else g
  }

  /** A run of calls with arbitrary texts. */
  ghost function Play(g: Game, texts: seq<string>): Game
    decreases |texts|
  {
    if texts == [] then g else Play(Step(g, texts[0]), texts[1..])
  }
}
