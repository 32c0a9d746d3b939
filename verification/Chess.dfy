/** The chess engine object: its legality queries make a move on the real board and take it back. */
module ChessEngine {
  import opened ChessBoard
  import opened Rules
  import opened Fen
  import opened Game
  import opened Engine
  import opened Invariant
  import opened Reachable
  import opened Runs
  import opened Mate
  import opened Marks
  import Repetition
  import opened DeadPosition

  /** A move of the other kind changes its two squares only, so putting those back undoes it. */
  lemma PutBack(b: Board, mv: Move, x: Board)
    requires OnBoard(mv.from) && OnBoard(mv.to) && mv.from != mv.to && !Special(b, mv)
    requires x == Apply(b, mv) || x == b
    ensures Put(Put(x, mv.from, At(b, mv.from)), mv.to, At(b, mv.to)) == b
  {
  }

  /** A sound game together with the boards its history was printed from. */
  ghost predicate Consistent(g: Game, boards: seq<Board>) {
    Ok(g) && Repetition.Behind(g.history, boards) && boards[|boards| - 1] == g.board
  }

  /** A legal move of the side to move, from a text the engine lets through. */
  ghost predicate LegalNow(g: Game, mv: Move)
    ensures LegalNow(g, mv) ==> OnBoard(mv.from) && At(g.board, mv.from).Man?
  {
    OnBoard(mv.from) && PromoOk(mv) && mv.color == g.turn && Legal(g.board, RightsOf(g.state), mv)
  }

  lemma LegalInGame(g: Game, boards: seq<Board>, mv: Move)
    requires Consistent(g, boards) && LegalNow(g, mv)
    ensures LegalIn(g.board, RightsOf(g.state), mv) && mv.from != mv.to && mv.color == g.turn && PromoOk(mv)
    ensures AtMostOneKing(g.board) && g.state.boardFen == Placement(g.board)
  {
    hide PawnsInside, RightsHome, EnPassantOk, NoRepeats, InCheck, Checked, Castling, AtMostOneKing;
    MoveIsPlayable(g.board, RightsOf(g.state), mv);
  }

  /** A move that promotes nothing and leaves no pawn that could take on the square recorded before or after it. */
  ghost predicate Calm(g: Game, mv: Move) {
    && OnBoard(mv.from) && OnBoard(mv.to) && !Promotes(g.board, mv)
    && !TakesOn(Apply(g.board, mv), g.state.enpassant, Other(mv.color))
    && !TakesOn(Apply(g.board, mv), Make(g, mv).state.enpassant, Other(mv.color))
  }

  lemma CalmMarks(g: Game, mv: Move)
    requires LegalIn(g.board, RightsOf(g.state), mv) && mv.color == g.turn && Calm(g, mv)
    ensures !TakesOn(Apply(g.board, mv), g.state.enpassant, Other(mv.color))
    ensures var after := Make(g, mv);
      && (ShownCheck(g.board, mv) <==> Checked(after.board, RightsOf(after.state), after.turn))
      && (ShownCheck(g.board, mv) && CheckMate(Apply(g.board, mv), RightsOf(g.state), Other(mv.color)) <==>
          CheckMate(after.board, RightsOf(after.state), after.turn))
  {
    hide LegalIn, Apply, TakesOn, Checked, CheckMate, ShownCheck, KeepRights, NextEnPassant, Promotes;
    PlainMarksAreRight(g.board, RightsOf(g.state), mv);
  }

  lemma OneEntryConsistent(g: Game)
    requires Ok(g) && |g.history| == 1 && g.state.halfmoves == 0
    ensures Consistent(g, [g.board])
  {
  }

  lemma StartConsistent()
    ensures Consistent(Start(), [Start().board])
  {
    StartOk();
    OneEntryConsistent(Start());
  }

  lemma MakeConsistent(g: Game, mv: Move, boards: seq<Board>) returns (boards': seq<Board>)
    requires Consistent(g, boards) && LegalNow(g, mv)
    ensures OnBoard(mv.to) && Consistent(Make(g, mv), boards')
  {
    SoundAfter(g.board, RightsOf(g.state), mv);
    boards' := Repetition.MakeBehind(g, boards, mv);
  }

  /** No man of `c` on the first `n` cells can move. */
  ghost predicate NoneMoves(b: Board, r: Rights, c: Color, n: nat)
    requires n <= 64
  {
    forall i :: 0 <= i < n && Owned(b[i], c) ==> !CanMove(b, r, SquareOf(i))
  }

  lemma NoneMovesYet(b: Board, r: Rights, c: Color)
    ensures NoneMoves(b, r, c, 0)
  {
  }

  lemma SquareIndex(p: Position)
    requires OnBoard(p)
    ensures Index(p) < 64 && SquareOf(Index(p)) == p
  {
  }

  lemma NobodyMoves(b: Board, r: Rights, c: Color)
    requires NoneMoves(b, r, c, 64)
    ensures Stuck(b, r, c)
  {
    hide CanMove, SquareOf, Index;
    forall p | OnBoard(p) && Owned(At(b, p), c)
      ensures !CanMove(b, r, p)
    {
      SquareIndex(p);
    }
  }

  lemma NextMoves(b: Board, r: Rights, c: Color, p: Position)
    requires OnBoard(p)
    ensures NoneMoves(b, r, c, Index(p)) && !(Owned(At(b, p), c) && CanMove(b, r, p)) ==>
      NoneMoves(b, r, c, Index(p) + 1)
    ensures Owned(At(b, p), c) && CanMove(b, r, p) ==> !Stuck(b, r, c)
  {
    hide CanMove, SquareOf, Index;
    SquareIndex(p);
  }

  /** A list of exactly the squares a man may go to is empty when it cannot move. */
  lemma SomeMove(b: Board, r: Rights, p: Position, squares: seq<Position>)
    requires OnBoard(p) && At(b, p).Man?
    requires forall q :: q in squares <==> Legal(b, r, Move(p, q, At(b, p).color, None))
    ensures CanMove(b, r, p) <==> |squares| > 0
  {
    hide Legal;
    if |squares| > 0 {
      assert squares[0] in squares;
    }
  }

  /** Of a list of squares, exactly those to which the move, sent there, would be legal. */
  ghost predicate Chosen(b: Board, r: Rights, mv: Move, squares: seq<Position>, ans: seq<Position>)
    requires OnBoard(mv.from)
  {
    forall q :: q in ans <==> q in squares && Legal(b, r, mv.(to := q))
  }

  lemma NoneChosen(b: Board, r: Rights, mv: Move, squares: seq<Position>)
    requires OnBoard(mv.from)
    ensures Chosen(b, r, mv, squares[..0], [])
  {
  }

  lemma ChooseNext(b: Board, r: Rights, mv: Move, squares: seq<Position>, i: nat, ans: seq<Position>, ok: bool)
    requires OnBoard(mv.from) && i < |squares| && Chosen(b, r, mv, squares[..i], ans)
    requires ok == Legal(b, r, mv.(to := squares[i]))
    ensures Chosen(b, r, mv, squares[..i + 1], if ok then ans + [squares[i]] else ans)
  {
  }

  lemma ChosenAll(b: Board, r: Rights, mv: Move, squares: seq<Position>, ans: seq<Position>)
    requires OnBoard(mv.from) && Chosen(b, r, mv, squares, ans)
    requires forall m: Move {:trigger PieceMove(b, r, m)} :: m.from == mv.from && PieceMove(b, r, m) ==> m.to in squares
    ensures forall q :: q in ans <==> Legal(b, r, mv.(to := q))
  {
  }

  /** The first `x` columns have their men, the others are empty. */
  ghost predicate ColumnsPut(b: Board, x: nat) {
    forall i {:trigger b[i]} :: 0 <= i < 64 ==> b[i] == if i % 8 < x then StartPiece(SquareOf(i)) else NoPiece
  }

  lemma NoColumnPut(b: Board)
    requires forall i :: 0 <= i < 64 ==> b[i] == NoPiece
    ensures ColumnsPut(b, 0)
  {
    hide StartPiece;
  }

  lemma AllColumnsPut(b: Board)
    requires ColumnsPut(b, 8)
    ensures b == StartBoard()
  {
    hide StartPiece;
  }

  /** The men of one more column. */
  function WithColumn(b: Board, x: nat): Board
    requires x < 8
  {
    Put(Put(Put(Put(b, Position(x, 0), Man(BackRank(x), White)), Position(x, 1), Man(Pawn, White)),
      Position(x, 6), Man(Pawn, Black)), Position(x, 7), Man(BackRank(x), Black))
  }

  lemma ColumnPut(b: Board, x: nat)
    requires x < 8 && ColumnsPut(b, x)
    ensures ColumnsPut(WithColumn(b, x), x + 1)
  {
    var b' := WithColumn(b, x);
    forall i | 0 <= i < 64
      ensures b'[i] == if i % 8 < x + 1 then StartPiece(SquareOf(i)) else NoPiece
    {
      WithColumnAt(b, x, i);
    }
  }

  lemma WithColumnAt(b: Board, x: nat, i: nat)
    requires x < 8 && i < 64
    ensures WithColumn(b, x)[i] ==
      if i % 8 == x && i / 8 in {0, 7} then Man(BackRank(x), if i / 8 == 0 then White else Black)
      else if i % 8 == x && i / 8 in {1, 6} then Man(Pawn, if i / 8 == 1 then White else Black)
      else b[i]
  {
    hide BackRank;
  }

  lemma AcceptedIsLegalNow(g: Game, s: string)
    requires Accepts(g, s)
    ensures LegalNow(g, Parse(g.turn, s))
  {
  }

  ghost function WinnerOf(b: Board, r: Rights): Option<Color> {
    if CheckMate(b, r, White) then Some(Black) else if CheckMate(b, r, Black) then Some(White) else None
  }

  class Chess {
    const gameboard: GameBoard
    var state: State
    var turn: Color
    var pawnPromoted: bool
    var history: seq<State>
    /** The boards the history was printed from. */
    ghost var boards: seq<Board>

    ghost function Value(): Game
      requires gameboard.Valid()
      reads this, gameboard.cells
    {
      Game(gameboard.Contents(), state, turn, history)
    }

    /** What holds between calls. */
    ghost predicate Valid()
      reads this, gameboard.cells
      ensures Valid() ==> gameboard.Valid()
    {
      gameboard.Valid() && Consistent(Value(), boards)
    }

    /** The board text kept with the state is that of `saved`: what the queries restore. */
    ghost predicate Saved(saved: Board)
      reads this, gameboard.cells
    {
      gameboard.Valid() && AtMostOneKing(gameboard.Contents()) && AtMostOneKing(saved)
      && state.boardFen == Placement(saved)
    }

    constructor ()
      ensures Valid() && fresh(gameboard) && fresh(gameboard.cells)
      ensures Value() == Start()
    {
      gameboard := new GameBoard();
      state := StartState();
      turn := White;
      pawnPromoted := false;
      history := [StartState()];
      new;
      PutPieces();
      boards := [Start().board];
      assert Value() == Start();
      StartConsistent();
    }

    method PutPieces()
      requires gameboard.Valid() && forall i :: 0 <= i < 64 ==> gameboard.Contents()[i] == NoPiece
      modifies gameboard.cells
      ensures gameboard.Contents() == StartBoard()
    {
      hide ColumnsPut, StartPiece, BackRank, Put;
      NoColumnPut(gameboard.Contents());
      for x := 0 to 8
        invariant ColumnsPut(gameboard.Contents(), x)
      {
        ColumnPut(gameboard.Contents(), x);
        gameboard.CreatePiece(Position(x, 0), Man(BackRank(x), White));
        gameboard.CreatePiece(Position(x, 1), Man(Pawn, White));
        gameboard.CreatePiece(Position(x, 6), Man(Pawn, Black));
        gameboard.CreatePiece(Position(x, 7), Man(BackRank(x), Black));
      }
      AllColumnsPut(gameboard.Contents());
    }

    // ----- making a move without looking -----

    method VerifyCastle(mv: Move) returns (yes: bool)
      requires gameboard.Valid() && OnBoard(mv.from)
      ensures yes == IsCastle(gameboard.Contents(), mv)
    {
      if gameboard.cells[Index(mv.from)].Man? && gameboard.cells[Index(mv.from)].kind == King {
        if Abs(mv.to.x - mv.from.x) == 2 {
          return true;
        }
      }
      return false;
    }

    method VerifyEnPassant(mv: Move) returns (yes: bool)
      requires gameboard.Valid() && OnBoard(mv.from) && OnBoard(mv.to)
      ensures yes == IsEnPassant(gameboard.Contents(), mv)
    {
      if gameboard.cells[Index(mv.from)].Man? && gameboard.cells[Index(mv.from)].kind == Pawn {
        var distx, disty := Abs(mv.to.x - mv.from.x), Abs(mv.to.y - mv.from.y);
        if distx == 1 && disty == 1 && gameboard.cells[Index(mv.to)] == NoPiece {
          return true;
        }
      }
      return false;
    }

    method MakeMove(mv: Move)
      requires gameboard.Valid() && OnBoard(mv.from) && OnBoard(mv.to)
      modifies gameboard.cells
      ensures gameboard.Contents() == Apply(old(gameboard.Contents()), mv)
    {
      hide Promote, Shift, Put, IsCastle, IsEnPassant;
      ghost var b := gameboard.Contents();
      var castle := VerifyCastle(mv);
      if castle {
        var distx := mv.to.x - mv.from.x;
        var aux := if distx < 0 then Position(0, mv.from.y) else Position(7, mv.from.y);
        BetweenOnBoard(mv);
        gameboard.MakeMove(aux, Position((mv.from.x + mv.to.x) / 2, mv.from.y));
      }
      ghost var b1 := if IsCastle(b, mv) then Shift(b, Corner(mv), Middle(mv)) else b;
      assert gameboard.Contents() == b1;
      var enPassant := VerifyEnPassant(mv);
      if enPassant {
        gameboard.CreatePiece(Position(mv.to.x, mv.from.y), NoPiece);
      }
      assert gameboard.Contents() == if IsEnPassant(b1, mv) then Put(b1, Victim(mv), NoPiece) else b1;
      gameboard.MakeMove(mv.from, mv.to);
      PromotePawn(mv);
    }

    /** A pawn on its last row becomes the piece the move names, or a queen. */
    method PromotePawn(mv: Move)
      requires gameboard.Valid() && OnBoard(mv.to)
      modifies gameboard.cells
      ensures gameboard.Contents() == Promote(old(gameboard.Contents()), mv)
    {
      var arrived := gameboard.cells[Index(mv.to)];
      if arrived.Man? && arrived.kind == Pawn {
        var final := if mv.color == White then 7 else 0;
        if mv.to.y == final {
          if mv.promo.Some? {
            var kind := KindOfChar(mv.promo.value);
            gameboard.CreatePiece(mv.to, if kind.Some? then Man(kind.value, mv.color) else NoPiece);
          } else {
            gameboard.CreatePiece(mv.to, Man(Queen, mv.color));
          }
        }
      }
    }

    // ----- queries that move and take back -----

    /** Takes back the trial of `mv` on `b`: two squares, or everything from the saved text. */
    method TakeBack(mv: Move, special: bool, a: char, c: char, ghost b: Board, ghost saved: Board)
      requires gameboard.Valid() && OnBoard(mv.from) && OnBoard(mv.to) && mv.from != mv.to
      requires special == Special(b, mv) && state.boardFen == Placement(saved)
      requires a == PieceChar(At(b, mv.from)) && c == PieceChar(At(b, mv.to))
      requires special || gameboard.Contents() in {Apply(b, mv), b}
      modifies gameboard.cells
      ensures gameboard.Contents() == if special then saved else b
    {
      if special {
        ReadPlacement(gameboard.Contents(), saved);
        gameboard.SetState(state.boardFen);
      } else {
        PutBack(b, mv, gameboard.Contents());
        PieceCharRoundTrip(At(b, mv.from));
        PieceCharRoundTrip(At(b, mv.to));
        gameboard.CreatePiece(mv.from, PieceOfChar(a));
        gameboard.CreatePiece(mv.to, PieceOfChar(c));
      }
    }

    method WillBeInCheck(mv: Move, ghost saved: Board) returns (ans: bool)
      requires Saved(saved) && OnBoard(mv.from) && OnBoard(mv.to) && mv.from != mv.to && PromoOk(mv)
      modifies gameboard.cells
      ensures Saved(saved)
      ensures gameboard.Contents() ==
        if Special(old(gameboard.Contents()), mv) then saved else old(gameboard.Contents())
      ensures ans == Checked(Apply(old(gameboard.Contents()), mv), RightsOf(state), mv.color)
    {
      ghost var b := gameboard.Contents();
      var a := PieceChar(gameboard.cells[Index(mv.from)]);
      var c := PieceChar(gameboard.cells[Index(mv.to)]);
      var castle := VerifyCastle(mv);
      var enPassant := VerifyEnPassant(mv);
      ApplyKeepsOneKing(b, mv);
      MakeMove(mv);
      ans := gameboard.VerifyCheck(RightsOf(state), mv.color);
      TakeBack(mv, castle || enPassant, a, c, b, saved);
    }

    method VerifyMove(mv: Move, ghost saved: Board) returns (ok: bool)
      requires Saved(saved) && OnBoard(mv.from) && PromoOk(mv)
      modifies gameboard.cells
      ensures Saved(saved)
      ensures OnBoard(mv.to) || !PieceMove(old(gameboard.Contents()), RightsOf(state), mv)
      ensures gameboard.Contents() ==
        if PieceMove(old(gameboard.Contents()), RightsOf(state), mv) && Special(old(gameboard.Contents()), mv)
        then saved else old(gameboard.Contents())
      ensures ok == Legal(old(gameboard.Contents()), RightsOf(state), mv)
    {
      ok := gameboard.VerifyPieceMove(RightsOf(state), mv);
      if ok {
        var check := WillBeInCheck(mv, saved);
        ok := !check;
      }
    }

    /** The squares the man on `p` may go to; exact unless a trial puts back another board in between. */
    method GetPositions(p: Position, ghost saved: Board) returns (ans: seq<Position>)
      requires Saved(saved) && OnBoard(p) && At(gameboard.Contents(), p).Man?
      modifies gameboard.cells
      ensures Saved(saved)
      ensures gameboard.Contents() in {old(gameboard.Contents()), saved}
      ensures Undisturbed(old(gameboard.Contents()), saved, RightsOf(state), At(old(gameboard.Contents()), p).color) ==>
        && gameboard.Contents() == old(gameboard.Contents())
        && forall q :: q in ans <==>
             Legal(old(gameboard.Contents()), RightsOf(state), Move(p, q, At(old(gameboard.Contents()), p).color, None))
    {
      hide AtMostOneKing, Placement, Checked, Apply, Legal, Chosen, PieceMove, Special;
      ghost var b, calm := gameboard.Contents(), Undisturbed(gameboard.Contents(), saved, RightsOf(state),
          At(gameboard.Contents(), p).color);
      var player := gameboard.cells[Index(p)].color;
      var pos := gameboard.GetPossiblePositions(p);
      ans := [];
      ghost var mv := Move(p, p, player, None);
      NoneChosen(b, RightsOf(state), mv, pos);
      for i := 0 to |pos|
        invariant Saved(saved) && gameboard.Contents() in {b, saved}
        invariant calm ==> gameboard.Contents() == b && Chosen(b, RightsOf(state), mv, pos[..i], ans)
      {
        var ok := VerifyMove(Move(p, pos[i], player, None), saved);
        if calm {
          ChooseNext(b, RightsOf(state), mv, pos, i, ans, ok);
        }
        if ok {
          ans := ans + [pos[i]];
        }
      }
      if calm {
        assert pos[..|pos|] == pos;
        ChosenAll(b, RightsOf(state), mv, pos, ans);
      }
    }

    /** Looks for a man of `player` that can move, as mate and stalemate do. */
    method NobodyCanMove(player: Color, ghost saved: Board) returns (stuck: bool)
      requires Saved(saved)
      modifies gameboard.cells
      ensures Saved(saved)
      ensures gameboard.Contents() in {old(gameboard.Contents()), saved}
      ensures Undisturbed(old(gameboard.Contents()), saved, RightsOf(state), player) ==>
        && gameboard.Contents() == old(gameboard.Contents())
        && stuck == Stuck(old(gameboard.Contents()), RightsOf(state), player)
    {
      hide NoneMoves, CanMove, Stuck, AtMostOneKing, Placement, Undisturbed, Legal, SquareOf;
      ghost var b, r := gameboard.Contents(), RightsOf(state);
      ghost var calm := Undisturbed(b, saved, r, player);
      NoneMovesYet(b, r, player);
      for i := 0 to 8
        invariant Saved(saved) && gameboard.Contents() in {b, saved}
        invariant calm ==> gameboard.Contents() == b && NoneMoves(b, r, player, 8 * i)
      {
        for j := 0 to 8
          invariant Saved(saved) && gameboard.Contents() in {b, saved}
          invariant calm ==> gameboard.Contents() == b && NoneMoves(b, r, player, 8 * i + j)
        {
          var pos := Position(j, i);
          if calm {
            NextMoves(b, r, player, pos);
          }
          if Owned(gameboard.cells[Index(pos)], player) {
            var p := GetPositions(pos, saved);
            if calm {
              SomeMove(b, r, pos, p);
            }
            if |p| > 0 {
              return false;
            }
          }
        }
      }
      if calm {
        NobodyMoves(b, r, player);
      }
      return true;
    }

    method VerifyCheckMateOf(player: Color, ghost saved: Board) returns (mate: bool)
      requires Saved(saved)
      modifies gameboard.cells
      ensures Saved(saved)
      ensures gameboard.Contents() in {old(gameboard.Contents()), saved}
      ensures Undisturbed(old(gameboard.Contents()), saved, RightsOf(state), player) ==>
        && gameboard.Contents() == old(gameboard.Contents())
        && mate == CheckMate(old(gameboard.Contents()), RightsOf(state), player)
    {
      hide Undisturbed, Stuck;
      var check := gameboard.VerifyCheck(RightsOf(state), player);
      if !check {
        return false;
      }
      mate := NobodyCanMove(player, saved);
    }

    method VerifyStaleMateOf(player: Color, ghost saved: Board) returns (stale: bool)
      requires Saved(saved)
      modifies gameboard.cells
      ensures Saved(saved)
      ensures gameboard.Contents() in {old(gameboard.Contents()), saved}
      ensures Undisturbed(old(gameboard.Contents()), saved, RightsOf(state), player) ==>
        && gameboard.Contents() == old(gameboard.Contents())
        && stale == StaleMate(old(gameboard.Contents()), RightsOf(state), player)
    {
      hide Undisturbed, Stuck;
      var check := gameboard.VerifyCheck(RightsOf(state), player);
      if check {
        return false;
      }
      stale := NobodyCanMove(player, saved);
    }

    /** Tries a move and asks for mate, with the rights there were before it. The nested queries may already put
        the whole board back from a text older than the trial; taking the trial back leaves the board as found all
        the same, but only without such replies is the answer the one for the board after the move. */
    method MadeCheckMate(mv: Move, ghost saved: Board) returns (ans: bool)
      requires Saved(saved) && gameboard.Contents() == saved
      requires OnBoard(mv.from) && OnBoard(mv.to) && mv.from != mv.to && PromoOk(mv)
      modifies gameboard.cells
      ensures gameboard.Contents() == saved
      ensures Undisturbed(Apply(saved, mv), saved, RightsOf(state), Other(mv.color)) ==>
        ans == CheckMate(Apply(saved, mv), RightsOf(state), Other(mv.color))
    {
      hide Undisturbed, CheckMate;
      var a := PieceChar(gameboard.cells[Index(mv.from)]);
      var c := PieceChar(gameboard.cells[Index(mv.to)]);
      var castle := VerifyCastle(mv);
      var enPassant := VerifyEnPassant(mv);
      ApplyKeepsOneKing(saved, mv);
      MakeMove(mv);
      ans := VerifyCheckMateOf(Other(mv.color), saved);
      TakeBack(mv, castle || enPassant, a, c, saved, saved);
    }

    /** The check and mate queries the short text of a legal move makes before the move is made. Check given only by
        the piece a pawn is promoted to is not found, and mate is looked for with the old rights. */
    method CheckSuffix(mv: Move) returns (check: bool, mate: bool)
      requires Valid() && LegalNow(Value(), mv)
      modifies gameboard.cells
      ensures Valid() && Value() == old(Value()) && OnBoard(mv.to)
      ensures check <==> ShownCheck(gameboard.Contents(), mv)
      ensures !check ==> !mate
      ensures !TakesOn(Apply(gameboard.Contents(), mv), state.enpassant, Other(mv.color)) ==>
        (mate <==> check && CheckMate(Apply(gameboard.Contents(), mv), RightsOf(state), Other(mv.color)))
      ensures Calm(Value(), mv) ==>
        var after := Make(Value(), mv);
        && check == Checked(after.board, RightsOf(after.state), after.turn)
        && mate == CheckMate(after.board, RightsOf(after.state), after.turn)
    {
      hide Undisturbed, CheckMate, Apply, Checked, TakesOn, Consistent, Make, ShownCheck, Calm, LegalIn, LegalNow,
        AtMostOneKing, Placement, Special, InCheck, PromoOk;
      ghost var b := gameboard.Contents();
      LegalInGame(Value(), boards, mv);
      GivenCheck(b, RightsOf(state), mv);
      if Calm(Value(), mv) {
        CalmMarks(Value(), mv);
      }
      check := WillBeInCheck(Given(mv), b);
      mate := false;
      if check {
        mate := MadeCheckMate(mv, b);
        ShownIsCheck(b, RightsOf(state), mv);
        UndisturbedIff(b, RightsOf(state), mv);
      }
    }

    // ----- making an accepted move -----

    method EraseRight(letter: char)
      modifies this`state
      ensures state == old(state).(castle := Erase(old(state.castle), letter))
    {
      state := state.(castle := Erase(state.castle, letter));
    }

    /** Board text, turn, counters and en passant square. */
    method UpdateCounters(mv: Move)
      requires gameboard.Valid() && OnBoard(mv.to)
      modifies this`state
      ensures state == NextState(old(state), gameboard.Contents(), mv).(castle := old(state.castle))
    {
      hide Placement, DigitSum, KeepRights;
      state := state.(enpassant := NOWHERE);
      if mv.color == Black {
        state := state.(fullmoves := state.fullmoves + 1);
      }
      var fen := gameboard.GetPosForFEN();
      var before := GameBoard.CountPieces(state.boardFen);
      var after := GameBoard.CountPieces(fen);
      var captured := before != after;
      state := state.(boardFen := fen);
      state := state.(turn := if state.turn == White then Black else White);
      state := state.(halfmoves := state.halfmoves + 1);
      var arrived := gameboard.cells[Index(mv.to)];
      if (arrived.Man? && arrived.kind == Pawn) || captured {
        state := state.(halfmoves := 0);
      }
      if arrived.Man? && arrived.kind == Pawn {
        if Abs(mv.to.y - mv.from.y) == 2 {
          state := state.(enpassant := Position(mv.to.x, if mv.color == White then mv.to.y - 1 else mv.to.y + 1));
        }
      }
    }

    method UpdateRights(mv: Move)
      requires gameboard.Valid() && OnBoard(mv.to)
      modifies this`state
      ensures state == old(state).(castle := KeepRights(old(state.castle), gameboard.Contents(), mv))
    {
      hide Erase;
      var arrived := gameboard.cells[Index(mv.to)];
      if arrived.Man? && arrived.kind == King {
        EraseRight(KingSide(mv.color));
        EraseRight(QueenSide(mv.color));
      }
      if gameboard.cells[0] != Man(Rook, White) {
        EraseRight('Q');
      }
      if gameboard.cells[7] != Man(Rook, White) {
        EraseRight('K');
      }
      if gameboard.cells[56] != Man(Rook, Black) {
        EraseRight('q');
      }
      if gameboard.cells[63] != Man(Rook, Black) {
        EraseRight('k');
      }
      if |state.castle| == 0 {
        state := state.(castle := "-");
      }
    }

    method UpdateState(mv: Move)
      requires gameboard.Valid() && OnBoard(mv.to)
      modifies this`state
      ensures state == NextState(old(state), gameboard.Contents(), mv)
    {
      UpdateCounters(mv);
      UpdateRights(mv);
    }

    /** Board, state, history and turn after a move that was found legal. */
    method CarryOut(mv: Move)
      requires gameboard.Valid() && OnBoard(mv.from) && OnBoard(mv.to)
      modifies this`state, this`history, this`turn, gameboard.cells
      ensures Value() == Make(old(Value()), mv)
    {
      MakeMove(mv);
      UpdateState(mv);
      history := history + [state];
      turn := if turn == White then Black else White;
    }

    method UpdateMove(mv: Move)
      requires Valid() && LegalNow(Value(), mv)
      modifies this, gameboard.cells
      ensures OnBoard(mv.to) && Valid() && Value() == Make(old(Value()), mv)
      ensures pawnPromoted == Promotes(old(gameboard.Contents()), mv)
    {
      hide LegalNow, Consistent, Apply, Make;
      ghost var g := Value();
      var man := gameboard.cells[Index(mv.from)];
      pawnPromoted := false;
      if man.Man? && man.kind == Pawn {
        if mv.to.y == (if mv.color == White then 7 else 0) {
          pawnPromoted := true;
        }
      }
      var check, mate := CheckSuffix(mv);
      ghost var boards' := MakeConsistent(g, mv, boards);
      CarryOut(mv);
      boards := boards';
    }

    method VerifyAndMakeMove(move: string) returns (ok: bool)
      requires Valid()
      modifies this, gameboard.cells
      ensures Valid()
      ensures ok == Accepts(old(Value()), move)
      ensures Value() == Step(old(Value()), move)
      ensures ok ==> pawnPromoted == Promotes(old(gameboard.Contents()), Parse(old(turn), move))
    {
      if |move| != 4 && |move| != 5 {
        return false;
      }
      if move[0] < 'a' || move[0] > 'h' {
        return false;
      }
      if move[1] < '1' || move[1] > '8' {
        return false;
      }
      if move[2] < 'a' || move[2] > 'h' {
        return false;
      }
      if move[3] < '1' || move[3] > '8' {
        return false;
      }
      if |move| == 5 {
        if ToUpper(move[4]) != 'Q' && ToUpper(move[4]) != 'N' && ToUpper(move[4]) != 'B' && ToUpper(move[4]) != 'R' {
          return false;
        }
      }
      ParseOk(turn, move);
      ok := VerifyMove(Parse(turn, move), gameboard.Contents());
      if ok {
        UpdateMove(Parse(turn, move));
      }
    }

    /** Makes a move that is known to be legal, as a replay does. */
    method MakeTextMove(move: string)
      requires Valid() && Accepts(Value(), move)
      modifies this, gameboard.cells
      ensures Valid() && Value() == Make(old(Value()), Parse(old(Value()).turn, move))
      ensures pawnPromoted == Promotes(old(gameboard.Contents()), Parse(old(turn), move))
    {
      AcceptedIsLegalNow(Value(), move);
      UpdateMove(Parse(turn, move));
    }

    /** The side that has mated the other, if any. */
    method Winner() returns (w: Option<Color>)
      requires Valid()
      modifies gameboard.cells
      ensures Valid() && Value() == old(Value())
      ensures w == WinnerOf(gameboard.Contents(), RightsOf(state))
    {
      var white := VerifyCheckMateOf(White, gameboard.Contents());
      if white {
        return Some(Black);
      }
      var black := VerifyCheckMateOf(Black, gameboard.Contents());
      if black {
        return Some(White);
      }
      return None;
    }

    // ----- the end of the game -----

    method VerifyCheckMate() returns (mate: bool)
      requires Valid()
      modifies gameboard.cells
      ensures Valid() && Value() == old(Value())
      ensures mate == CheckMate(gameboard.Contents(), RightsOf(state), turn)
    {
      mate := VerifyCheckMateOf(turn, gameboard.Contents());
    }

    /** The windowed scan answers as a scan of the whole history would. */
    method VerifyThreefoldRepetition() returns (yes: bool)
      requires Valid()
      ensures yes <==> Repetition.Occurrences(history, state) >= 3
    {
      yes := Repetition.ThreefoldRepetition(history, boards);
    }

    method VerifyImpossibilityOfCheckmate() returns (yes: bool)
      requires Valid()
      ensures yes == Dead(gameboard.Contents())
    {
      yes := ImpossibleMate(gameboard);
    }

    /** Why the game is drawn: 1 repetition, 2 impossible mate, 3 fifty moves, 4 stalemate, 0 not at all. */
    method VerifyDraw() returns (why: int)
      requires Valid()
      modifies gameboard.cells
      ensures Valid() && Value() == old(Value())
      ensures why ==
        if Repetition.Occurrences(history, state) >= 3 then 1
        else if Dead(gameboard.Contents()) then 2
        else if state.halfmoves >= 50 then 3
        else if StaleMate(gameboard.Contents(), RightsOf(state), turn) then 4
        else 0
    {
      var repeated := VerifyThreefoldRepetition();
      if repeated {
        return 1;
      }
      var impossible := VerifyImpossibilityOfCheckmate();
      if impossible {
        return 2;
      }
      if state.halfmoves >= 50 {
        return 3;
      }
      var stale := VerifyStaleMateOf(turn, gameboard.Contents());
      if stale {
        return 4;
      }
      return 0;
    }
  }

  ghost predicate AllOwned(b: Board, c: Color, cells: seq<nat>, n: nat)
    requires n <= 64
  {
    forall k :: 0 <= k < |cells| ==> cells[k] < n && Owned(b[cells[k]], c)
  }

  ghost predicate NoneMissed(b: Board, c: Color, cells: seq<nat>, n: nat)
    requires n <= 64
  {
    forall i {:trigger b[i]} :: 0 <= i < n && Owned(b[i], c) ==> i in cells
  }

  /** Men of one colour met so far, in scan order. */
  ghost predicate Listed(b: Board, c: Color, cells: seq<nat>, n: nat)
    requires n <= 64
  {
    AllOwned(b, c, cells, n) && NoneMissed(b, c, cells, n) && |cells| == Weigh(b, WeightOf(c), 0, n)
  }

  lemma NoneListed(b: Board)
    ensures Listed(b, White, [], 0) && Listed(b, Black, [], 0)
  {
  }

  lemma ListOne(b: Board, c: Color, cells: seq<nat>, n: nat)
    requires n < 64 && Listed(b, c, cells, n)
    ensures Listed(b, c, if Owned(b[n], c) then cells + [n] else cells, n + 1)
  {
    hide Weigh, WeightOf, Owned, AllOwned, NoneMissed;
    CountOne(b, c, n);
    OwnedMore(b, c, cells, n);
    MissedMore(b, c, cells, n);
  }

  lemma OwnedMore(b: Board, c: Color, cells: seq<nat>, n: nat)
    requires n < 64 && AllOwned(b, c, cells, n)
    ensures AllOwned(b, c, if Owned(b[n], c) then cells + [n] else cells, n + 1)
  {
    hide Owned;
  }

  lemma MissedMore(b: Board, c: Color, cells: seq<nat>, n: nat)
    requires n < 64 && NoneMissed(b, c, cells, n)
    ensures NoneMissed(b, c, if Owned(b[n], c) then cells + [n] else cells, n + 1)
  {
    hide Owned;
    forall i | 0 <= i < n + 1 && Owned(b[i], c)
      ensures i in (if Owned(b[n], c) then cells + [n] else cells)
    {
      assert i < n ==> i in cells;
    }
  }

  lemma CountOne(b: Board, c: Color, n: nat)
    requires n < 64
    ensures Weigh(b, WeightOf(c), 0, n + 1) == Weigh(b, WeightOf(c), 0, n) + if Owned(b[n], c) then 1 else 0
  {
    WeighSplit(b, WeightOf(c), 0, n, n + 1);
  }

  method AnyMinor(board: GameBoard, cells: seq<nat>) returns (yes: bool)
    requires board.Valid() && forall k :: 0 <= k < |cells| ==> cells[k] < 64
    ensures yes <==> exists k :: 0 <= k < |cells| && Minor(board.Contents()[cells[k]])
  {
    for i := 0 to |cells|
      invariant forall k :: 0 <= k < i ==> !Minor(board.Contents()[cells[k]])
    {
      if Minor(board.cells[cells[i]]) {
        return true;
      }
    }
    return false;
  }

  method AnyLikePair(board: GameBoard, white: seq<nat>, black: seq<nat>) returns (yes: bool)
    requires board.Valid()
    requires forall k :: 0 <= k < |white| ==> white[k] < 64 && Owned(board.Contents()[white[k]], White)
    requires forall k :: 0 <= k < |black| ==> black[k] < 64 && Owned(board.Contents()[black[k]], Black)
    ensures yes <==> exists k, l ::
      0 <= k < |white| && 0 <= l < |black| && LikePair(board.Contents(), white[k], black[l])
  {
    for i := 0 to |white|
      invariant forall k, l :: 0 <= k < i && 0 <= l < |black| ==> !LikePair(board.Contents(), white[k], black[l])
    {
      if board.cells[white[i]].kind == Bishop {
        for j := 0 to |black|
          invariant forall l :: 0 <= l < j ==> !LikePair(board.Contents(), white[i], black[l])
        {
          if board.cells[black[j]].kind == Bishop {
            if (white[i] % 8 + white[i] / 8) % 2 == (black[j] % 8 + black[j] / 8) % 2 {
              assert LikePair(board.Contents(), white[i], black[j]);
              return true;
            }
          }
        }
      }
    }
    return false;
  }

  /** Lists the men of both sides; None when a side has a third man. */
  method ListMen(board: GameBoard) returns (few: bool, white: seq<nat>, black: seq<nat>)
    requires board.Valid()
    ensures few ==> Listed(board.Contents(), White, white, 64) && Listed(board.Contents(), Black, black, 64)
    ensures few ==> |white| <= 2 && |black| <= 2
    ensures !few ==> Count(board.Contents(), White) > 2 || Count(board.Contents(), Black) > 2
  {
    hide Weigh, Listed, Count;
    ghost var b := board.Contents();
    white, black := [], [];
    NoneListed(b);
    for i := 0 to 64
      invariant Listed(b, White, white, i) && Listed(b, Black, black, i)
      invariant |white| <= 2 && |black| <= 2
    {
      ListOne(b, White, white, i);
      ListOne(b, Black, black, i);
      if board.cells[i].Man? {
        if board.cells[i].color == White {
          white := white + [i];
        } else {
          black := black + [i];
        }
        if |white| > 2 || |black| > 2 {
          TooMany(b, White, white, i + 1);
          TooMany(b, Black, black, i + 1);
          return false, white, black;
        }
      }
    }
    return true, white, black;
  }

  lemma ListedMinor(b: Board, c: Color, cells: seq<nat>)
    requires Listed(b, c, cells, 64)
    ensures HasMinor(b, c) <==> exists k :: 0 <= k < |cells| && Minor(b[cells[k]])
  {
  }

  lemma ListedPair(b: Board, white: seq<nat>, black: seq<nat>)
    requires Listed(b, White, white, 64) && Listed(b, Black, black, 64)
    ensures LikeBishops(b) <==>
      exists k, l :: 0 <= k < |white| && 0 <= l < |black| && LikePair(b, white[k], black[l])
  {
  }

  /** verifyImpossibilityOfCheckmate: lists the men of both sides and gives up at the third of one side. */
  method ImpossibleMate(board: GameBoard) returns (yes: bool)
    requires board.Valid()
    ensures yes == Dead(board.Contents())
  {
    ghost var b := board.Contents();
    var few, white, black := ListMen(board);
    if !few {
      return false;
    }
    if |white| == 1 && |black| == 1 {
      return true;
    } else if |white| == 1 && |black| == 2 {
      yes := AnyMinor(board, black);
      ListedMinor(b, Black, black);
      return;
    } else if |white| == 2 && |black| == 1 {
      yes := AnyMinor(board, white);
      ListedMinor(b, White, white);
      return;
    } else if |white| == 2 && |black| == 2 {
      yes := AnyLikePair(board, white, black);
      ListedPair(b, white, black);
      return;
    }
    return false;
  }

  predicate LikePair(b: Board, i: nat, j: nat) {
    i < 64 && j < 64 && b[i] == Man(Bishop, White) && b[j] == Man(Bishop, Black) && Shade(i) == Shade(j)
  }

  lemma TooMany(b: Board, c: Color, cells: seq<nat>, n: nat)
    requires n <= 64 && Listed(b, c, cells, n)
    ensures Count(b, c) >= |cells|
  {
    WeighSplit(b, WeightOf(c), 0, n, 64);
    WeighNonNegative(b, c, n, 64);
  }
}
