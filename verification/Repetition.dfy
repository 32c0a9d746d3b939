/** Counting repeated states only inside the last `halfmoves` entries, at even distance, loses none. */
module Repetition {
  import opened ChessBoard
  import opened Rules
  import opened Fen
  import opened Game
  import opened Invariant
  import opened Reachable
  import opened Runs

  // ----- a quantity that never grows and drops at every reset of the counter -----

  /** A man counts one; a pawn counts the rows it still has to go as well. */
  function Worth(i: nat, p: Piece): int {
    if p == NoPiece then 0
    else if p.kind != Pawn then 1
    else if p.color == White then 9 - i / 8
    else 2 + i / 8
  }

  function Potential(b: Board): int {
    Weigh(b, Worth, 0, 64)
  }

  lemma PutCounts(b: Board, p: Position, piece: Piece)
    requires OnBoard(p)
    ensures Potential(Put(b, p, piece)) == Potential(b) + Worth(Index(p), piece) - Worth(Index(p), At(b, p))
    ensures Empties(Put(b, p, piece)) == Empties(b) + EmptyWeight(Index(p), piece) - EmptyWeight(Index(p), At(b, p))
  {
    WeighUpdate(b, Worth, Index(p), piece, 0, 64);
    WeighUpdate(b, EmptyWeight, Index(p), piece, 0, 64);
  }

  lemma ShiftCounts(b: Board, f: Position, t: Position)
    requires OnBoard(f) && OnBoard(t) && f != t && At(b, f).Man?
    ensures Potential(Shift(b, f, t)) == Potential(b) - Worth(Index(t), At(b, t))
      + Worth(Index(t), At(b, f)) - Worth(Index(f), At(b, f))
    ensures Empties(Shift(b, f, t)) == Empties(b) + if At(b, t).Man? then 1 else 0
  {
    PutCounts(b, t, At(b, f));
    PutCounts(Put(b, t, At(b, f)), f, NoPiece);
  }

  /** What the counter looks at: a pawn on the target square, or a changed number of men. */
  predicate Resets(b: Board, mv: Move)
    requires OnBoard(mv.from) && OnBoard(mv.to)
  {
    (At(Apply(b, mv), mv.to).Man? && At(Apply(b, mv), mv.to).kind == Pawn) || Empties(b) != Empties(Apply(b, mv))
  }

  lemma OfficerDrops(b: Board, mv: Move)
    requires OnBoard(mv.from) && OnBoard(mv.to) && mv.from != mv.to
    requires At(b, mv.from).Man? && At(b, mv.from).kind != Pawn && !IsCastle(b, mv)
    ensures Potential(Apply(b, mv)) <= Potential(b)
    ensures Resets(b, mv) ==> Potential(Apply(b, mv)) < Potential(b)
  {
    ShiftCounts(b, mv.from, mv.to);
    assert Apply(b, mv) == Shift(b, mv.from, mv.to);
  }

  lemma WorthAt(p: Position, piece: Piece)
    requires OnBoard(p)
    ensures Worth(Index(p), piece) ==
      if piece == NoPiece then 0
      else if piece.kind != Pawn then 1
      else if piece.color == White then 9 - p.y
      else 2 + p.y
  {
  }

  lemma VictimDrops(b: Board, mv: Move)
    requires OnBoard(mv.from) && OnBoard(mv.to)
    ensures var b2 := if IsEnPassant(b, mv) then Put(b, Victim(mv), NoPiece) else b;
      Potential(b2) <= Potential(b) && At(b2, mv.from) == At(b, mv.from)
  {
    PutCounts(b, Victim(mv), NoPiece);
    WorthAt(Victim(mv), At(b, Victim(mv)));
  }

  lemma PromoteDrops(b: Board, mv: Move)
    requires OnBoard(mv.to) && PromoOk(mv) && At(b, mv.to) == Man(Pawn, mv.color)
    ensures Potential(Promote(b, mv)) <= Potential(b)
  {
    PutCounts(b, mv.to, Promotion(mv));
    WorthAt(mv.to, At(b, mv.to));
    WorthAt(mv.to, Promotion(mv));
  }

  lemma PawnDrops(b: Board, enpassant: Position, mv: Move)
    requires OnBoard(mv.from) && OnBoard(mv.to) && PlainMove(b, enpassant, mv) && PromoOk(mv)
    requires At(b, mv.from).kind == Pawn
    ensures Potential(Apply(b, mv)) < Potential(b)
  {
    VictimDrops(b, mv);
    var b2 := if IsEnPassant(b, mv) then Put(b, Victim(mv), NoPiece) else b;
    ShiftCounts(b2, mv.from, mv.to);
    WorthAt(mv.from, At(b, mv.from));
    WorthAt(mv.to, At(b, mv.from));
    WorthAt(mv.to, At(b2, mv.to));
    PromoteDrops(Shift(b2, mv.from, mv.to), mv);
  }

  /** Two shifts in a row: the potential falls by the worth of what stood on the two targets. */
  lemma TwoShiftsDrop(b: Board, c: Position, m: Position, f: Position, t: Position)
    requires OnBoard(c) && OnBoard(m) && OnBoard(f) && OnBoard(t) && f != t && c != m && f != c && f != m
    requires At(b, c).Man? && At(b, c).kind != Pawn && At(b, f).Man? && At(b, f).kind != Pawn
    ensures var b' := Shift(Shift(b, c, m), f, t);
      Potential(b') <= Potential(b) && (Empties(b) != Empties(b') ==> Potential(b') < Potential(b))
  {
    var b1 := Shift(b, c, m);
    ShiftCounts(b, c, m);
    ShiftCounts(b1, f, t);
    WorthAt(m, At(b, m));
    WorthAt(t, At(b1, t));
  }

  lemma CastleDrops(b: Board, r: Rights, mv: Move)
    requires Sound(b, r, mv.color) && OnBoard(mv.from) && PieceMove(b, r, mv) && IsCastle(b, mv)
    ensures OnBoard(mv.to) && Potential(Apply(b, mv)) <= Potential(b)
    ensures Resets(b, mv) ==> Potential(Apply(b, mv)) < Potential(b)
  {
    CastleFromHome(b, r, mv);
    TwoShiftsDrop(b, Corner(mv), Middle(mv), mv.from, mv.to);
    assert At(Apply(b, mv), mv.to) == At(b, mv.from) by {
      ApplyAt(b, mv, mv.to);
    }
  }

  lemma MoveDrops(b: Board, r: Rights, mv: Move)
    requires Sound(b, r, mv.color) && OnBoard(mv.from) && PieceMove(b, r, mv) && PromoOk(mv)
    ensures OnBoard(mv.to) && Potential(Apply(b, mv)) <= Potential(b)
    ensures Resets(b, mv) ==> Potential(Apply(b, mv)) < Potential(b)
  {
    NoKingTaken(b, r, mv);
    if IsCastle(b, mv) {
      CastleDrops(b, r, mv);
    } else if At(b, mv.from).kind == Pawn {
      PawnDrops(b, r.enpassant, mv);
    } else {
      OfficerDrops(b, mv);
    }
  }

  // ----- the history of a game and the boards behind it -----

  ghost predicate Follows(s: State, b: Board, s': State, b': Board) {
    && s'.turn == Other(s.turn)
    && Potential(b') <= Potential(b)
    && (s'.halfmoves == s.halfmoves + 1 || (s'.halfmoves == 0 && Potential(b') < Potential(b)))
  }

  ghost predicate Linked(history: seq<State>, boards: seq<Board>, k: nat)
    requires 1 <= k < |history| == |boards|
  {
    Follows(history[k - 1], boards[k - 1], history[k], boards[k])
  }

  /** `boards` are the boards the entries of the history were printed from. */
  ghost predicate Behind(history: seq<State>, boards: seq<Board>)
    ensures Behind(history, boards) ==> |history| == |boards| >= 1
  {
    && |history| == |boards| >= 1
    && history[0].halfmoves == 0
    && (forall k :: 0 <= k < |history| ==> history[k].boardFen == Placement(boards[k]) && history[k].halfmoves >= 0)
    && (forall k :: 1 <= k < |history| ==> Linked(history, boards, k))
  }

  lemma MakeFollows(g: Game, mv: Move)
    requires Ok(g) && OnBoard(mv.from) && mv.color == g.turn && PromoOk(mv)
    requires PieceMove(g.board, RightsOf(g.state), mv) && g.state.halfmoves >= 0
    ensures OnBoard(mv.to) && Make(g, mv).state.boardFen == Placement(Make(g, mv).board)
    ensures Make(g, mv).state.halfmoves >= 0
    ensures Follows(g.state, g.board, Make(g, mv).state, Make(g, mv).board)
  {
    MoveDrops(g.board, RightsOf(g.state), mv);
    PlacementDigits(g.board);
    PlacementDigits(Apply(g.board, mv));
  }

  lemma MakeBehind(g: Game, boards: seq<Board>, mv: Move) returns (boards': seq<Board>)
    requires Ok(g) && Behind(g.history, boards) && boards[|boards| - 1] == g.board
    requires OnBoard(mv.from) && mv.color == g.turn && PromoOk(mv)
    requires PieceMove(g.board, RightsOf(g.state), mv)
    ensures OnBoard(mv.to)
    ensures Behind(Make(g, mv).history, boards') && boards'[|boards'| - 1] == Make(g, mv).board
  {
    MakeFollows(g, mv);
    boards' := boards + [Apply(g.board, mv)];
    var h := Make(g, mv).history;
    forall k | 1 <= k < |h|
      ensures Linked(h, boards', k)
    {
      if k < |h| - 1 {
        assert Linked(g.history, boards, k);
      }
    }
  }

  lemma StepBehind(g: Game, boards: seq<Board>, s: string) returns (boards': seq<Board>)
    requires Ok(g) && Behind(g.history, boards) && boards[|boards| - 1] == g.board
    ensures Behind(Step(g, s).history, boards') && boards'[|boards'| - 1] == Step(g, s).board
  {
    hide Behind, Ok, Make, Legal;
    if Accepts(g, s) {
      ParseOk(g.turn, s);
      LegalIsMove(g.board, RightsOf(g.state), Parse(g.turn, s));
      boards' := MakeBehind(g, boards, Parse(g.turn, s));
    } else {
      boards' := boards;
    }
  }

  lemma {:induction false} PlayBehind(g: Game, boards: seq<Board>, texts: seq<string>) returns (boards': seq<Board>)
    requires Ok(g) && Behind(g.history, boards) && boards[|boards| - 1] == g.board
    ensures Behind(Play(g, texts).history, boards') && boards'[|boards'| - 1] == Play(g, texts).board
    decreases |texts|
  {
    hide Behind, Ok, Step;
    if texts == [] {
      boards' := boards;
    } else {
      var boards1 := StepBehind(g, boards, texts[0]);
      StepOk(g, texts[0]);
      boards' := PlayBehind(Step(g, texts[0]), boards1, texts[1..]);
    }
  }

  // ----- states outside the window differ from the last one -----

  lemma {:induction false} PotentialFalls(history: seq<State>, boards: seq<Board>, j: nat, k: nat)
    requires Behind(history, boards) && j <= k < |history|
    ensures Potential(boards[k]) <= Potential(boards[j])
    ensures (k - j) % 2 == 1 ==> history[k].turn == Other(history[j].turn)
    ensures (k - j) % 2 == 0 ==> history[k].turn == history[j].turn
    decreases k - j
  {
    if j < k {
      PotentialFalls(history, boards, j, k - 1);
      assert Linked(history, boards, k);
    }
  }

  /** The counter never exceeds the number of moves, and it was zero that many moves ago. */
  lemma {:induction false} CounterFits(history: seq<State>, boards: seq<Board>, k: nat)
    requires Behind(history, boards) && k < |history|
    ensures history[k].halfmoves <= k
    ensures history[k - history[k].halfmoves].halfmoves == 0
  {
    if k > 0 {
      CounterFits(history, boards, k - 1);
      assert Linked(history, boards, k);
    }
  }

  lemma FarStatesDiffer(history: seq<State>, boards: seq<Board>, j: nat)
    requires Behind(history, boards) && j < |history|
    requires j < |history| - 1 - history[|history| - 1].halfmoves || (|history| - 1 - j) % 2 == 1
    ensures !SameState(history[j], history[|history| - 1])
  {
    var n := |history| - 1;
    PotentialFalls(history, boards, j, n);
    var z := n - history[n].halfmoves;
    if j < z {
      CounterFits(history, boards, n);
      assert Linked(history, boards, z);
      PotentialFalls(history, boards, j, z - 1);
      PotentialFalls(history, boards, z, n);
      PlacementInjective(boards[j], boards[n]);
    }
  }

  // ----- the two ways of counting -----

  /** How often a state occurs in a history. */
  function Occurrences(history: seq<State>, s: State): nat {
    if history == [] then 0
    else Occurrences(history[..|history| - 1], s) + if SameState(history[|history| - 1], s) then 1 else 0
  }

  lemma {:induction false} NoOccurrences(history: seq<State>, s: State)
    requires forall j :: 0 <= j < |history| ==> !SameState(history[j], s)
    ensures Occurrences(history, s) == 0
    decreases |history|
  {
    if history != [] {
      NoOccurrences(history[..|history| - 1], s);
    }
  }

  /** One step of the scan: entries `i` and `i + 1` back from the end. */
  lemma TwoStepsBack(history: seq<State>, boards: seq<Board>, i: nat)
    requires Behind(history, boards) && i < |history| && i % 2 == 0
    ensures var last := history[|history| - 1];
      Occurrences(history[..|history| - i], last)
      == Occurrences(history[..if |history| - i >= 2 then |history| - i - 2 else 0], last)
         + if SameState(history[|history| - 1 - i], last) then 1 else 0
  {
    var h := history[..|history| - i];
    assert h[..|h| - 1] == history[..|history| - i - 1];
    if |h| >= 2 {
      FarStatesDiffer(history, boards, |h| - 2);
      assert h[..|h| - 1][..|h| - 2] == history[..|h| - 2];
    }
  }

  /** The scan of the engine: it looks at every second entry, at most `halfmoves` back. */
  method ThreefoldRepetition(history: seq<State>, ghost boards: seq<Board>) returns (yes: bool)
    requires Behind(history, boards)
    ensures yes <==> Occurrences(history, history[|history| - 1]) >= 3
  {
    hide Placement, Follows, Potential, Behind, Occurrences;
    var n := |history|;
    ghost var last := history[n - 1];
    CounterFits(history, boards, n - 1);
    TwoStepsBack(history, boards, 0);
    assert history[..n] == history;
    var count := 1;
    var i := 2;
    while i <= history[n - 1].halfmoves
      invariant i % 2 == 0 && 2 <= i
      invariant i <= history[n - 1].halfmoves ==> i < n
      invariant Occurrences(history, last) == count + Occurrences(history[..if n >= i then n - i else 0], last)
      decreases n - i
    {
      TwoStepsBack(history, boards, i);
      if SameState(history[n - 1 - i], history[n - 1]) {
        count := count + 1;
      }
      i := i + 2;
    }
    var rest := if n >= i then n - i else 0;
    forall j | 0 <= j < rest
      ensures !SameState(history[..rest][j], last)
    {
      FarStatesDiffer(history, boards, j);
    }
    NoOccurrences(history[..rest], last);
    return count >= 3;
  }
}
