/** The placement field of a FEN record: the text of a board, the reading of such a text, and
    what the text says about the board (section 16.1.3.1 of the PGN specification). */
module Fen {
  import opened ChessBoard

  /** The digit of a run of empty cells; a run of length zero is not printed. */
  function Run(count: nat): string
    requires count <= 9
  {
    if count == 0 then "" else [('0' as int + count) as char]
  }

  /** Text of row `y` from column `x` on, when `count` empty cells before `x` are still to be printed. */
  function RowText(b: Board, y: nat, x: nat, count: nat): string
    requires y < 8 && x <= 8 && count <= x
    decreases |b| - x
  {
    if x == 8 then Run(count)
    else if b[8 * y + x] == NoPiece then RowText(b, y, x + 1, count + 1)
    else Run(count) + [PieceChar(b[8 * y + x])] + RowText(b, y, x + 1, 0)
  }

  /** Text of the rows y, ..., 0, separated by slashes. */
  function RowsFrom(b: Board, y: nat): string
    requires y < 8
    decreases |b| + y, 1
  {
    RowText(b, y, 0, 0) + RowsBelow(b, y)
  }

  function RowsBelow(b: Board, y: nat): string
    requires y < 8
    decreases |b| + y, 0
  {
    if y == 0 then "" else "/" + RowsFrom(b, y - 1)
  }

  /** What getPosForFEN prints: the rows from the last to the first. */
  function Placement(b: Board): string {
    RowsFrom(b, 7)
  }

  predicate Digit(c: char) {
    '0' <= c <= '9'
  }

  function DigitValue(c: char): nat
    requires Digit(c)
  {
    c as int - '0' as int
  }

  /** `k` empty cells on row `y` from column `x` on. */
  function Blank(b: Board, y: nat, x: nat, k: nat): Board
    requires y < 8 && x + k <= 8
  {
    seq(64, i requires 0 <= i < 64 => if 8 * y + x <= i < 8 * y + x + k then NoPiece else b[i])
  }

  /** What setState does with a text, cell by cell from (column, line) on; None when it leaves the board. */
  function Read(b: Board, line: int, column: nat, text: string): Option<Board>
    decreases |text|
  {
    if text == "" then Some(b)
    else if text[0] == '/' then Read(b, line - 1, 0, text[1..])
    else if !(0 <= line < 8) then None
    else if Digit(text[0]) then
      var k := DigitValue(text[0]);
      if column + k > 8 then None else Read(Blank(b, line, column, k), line, column + k, text[1..])
    else if column >= 8 then None
    else Read(b[8 * line + column := PieceOfChar(text[0])], line, column + 1, text[1..])
  }

  /** The cells of `a` before row `y`, column `x` in reading order (rows downwards) come from `b`. */
  predicate ReadSoFar(a: Board, b: Board, y: nat, x: nat) {
    forall i :: 0 <= i < 64 && (i >= 8 * y + 8 || 8 * y <= i < 8 * y + x) ==> a[i] == b[i]
  }

  lemma ReadRun(a: Board, y: nat, c: nat, count: nat, tail: string)
    requires y < 8 && c + count <= 8
    ensures Read(a, y, c, Run(count) + tail) == Read(Blank(a, y, c, count), y, c + count, tail)
  {
    if count == 0 {
      assert Run(count) + tail == tail;
      assert Blank(a, y, c, 0) == a;
    } else {
      assert (Run(count) + tail)[1..] == tail;
    }
  }

  /** One man is read: the cell is put and the reading goes on behind it. */
  lemma ReadMan(a: Board, y: nat, x: nat, p: Piece, tail: string)
    requires y < 8 && x < 8
    ensures Read(a, y, x, [PieceChar(p)] + tail) == Read(a[8 * y + x := p], y, x + 1, tail)
  {
    PieceCharRoundTrip(p);
    hide PieceChar, PieceOfChar;
    assert ([PieceChar(p)] + tail)[1..] == tail;
  }

  lemma BlankSoFar(a: Board, b: Board, y: nat, c: nat, count: nat)
    requires y < 8 && c + count <= 8 && ReadSoFar(a, b, y, c)
    requires forall i :: 8 * y + c <= i < 8 * y + c + count ==> b[i] == NoPiece
    ensures ReadSoFar(Blank(a, y, c, count), b, y, c + count)
  {
  }

  lemma ManSoFar(a: Board, b: Board, y: nat, x: nat)
    requires y < 8 && x < 8 && ReadSoFar(a, b, y, x)
    ensures ReadSoFar(a[8 * y + x := b[8 * y + x]], b, y, x + 1)
  {
  }

  /** The text of a row whose next cell holds a man. */
  lemma RowHead(b: Board, y: nat, x: nat, count: nat, rest: string)
    requires y < 8 && x < 8 && count <= x && b[8 * y + x] != NoPiece
    ensures RowText(b, y, x, count) + rest
      == Run(count) + ([PieceChar(b[8 * y + x])] + (RowText(b, y, x + 1, 0) + rest))
  {
    hide PieceChar, Run;
  }

  lemma {:induction false} ReadRow(a: Board, b: Board, y: nat, x: nat, count: nat, rest: string) returns (a': Board)
    requires y < 8 && x <= 8 && count <= x
    requires ReadSoFar(a, b, y, x - count)
    requires forall i :: 8 * y + x - count <= i < 8 * y + x ==> b[i] == NoPiece
    ensures ReadSoFar(a', b, y, 8)
    ensures Read(a, y, x - count, RowText(b, y, x, count) + rest) == Read(a', y, 8, rest)
    decreases 8 - x
  {
    hide PieceChar, PieceOfChar, Read, ReadSoFar, Blank, Run;
    var c := x - count;
    if x < 8 && b[8 * y + x] == NoPiece {
      a' := ReadRow(a, b, y, x + 1, count + 1, rest);
      return;
    }
    var a1: Board := Blank(a, y, c, count);
    BlankSoFar(a, b, y, c, count);
    if x == 8 {
      ReadRun(a, y, c, count, rest);
      a' := a1;
    } else {
      RowHead(b, y, x, count, rest);
      var tail := RowText(b, y, x + 1, 0) + rest;
      ReadRun(a, y, c, count, [PieceChar(b[8 * y + x])] + tail);
      ReadMan(a1, y, x, b[8 * y + x], tail);
      ManSoFar(a1, b, y, x);
      a' := ReadRow(a1[8 * y + x := b[8 * y + x]], b, y, x + 1, 0, rest);
    }
  }

  lemma ReadSlash(a: Board, y: nat, rest: string)
    ensures Read(a, y, 8, "/" + rest) == Read(a, y - 1, 0, rest)
  {
  }

  lemma {:induction false} ReadRows(a: Board, b: Board, y: nat)
    requires y < 8 && ReadSoFar(a, b, y, 0)
    ensures Read(a, y, 0, RowsFrom(b, y)) == Some(b)
    decreases y
  {
    var below := RowsBelow(b, y);
    var a' := ReadRow(a, b, y, 0, 0, below);
    if y == 0 {
      assert a' == b;
    } else {
      ReadSlash(a', y, RowsFrom(b, y - 1));
      ReadRows(a', b, y - 1);
    }
  }

  /** Whatever stood on the board before, reading the text of `b` makes it `b`. */
  lemma ReadPlacement(a: Board, b: Board)
    ensures Read(a, 7, 0, Placement(b)) == Some(b)
  {
    ReadRows(a, b, 7);
  }

  /** Equality of placement texts is equality of boards. */
  lemma PlacementInjective(a: Board, b: Board)
    ensures Placement(a) == Placement(b) <==> a == b
  {
    if Placement(a) == Placement(b) {
      ReadPlacement(a, a);
      ReadPlacement(a, b);
    }
  }

  // ----- counting -----

  function DigitSum(text: string): nat {
    if text == "" then 0
    else (if Digit(text[0]) then DigitValue(text[0]) else 0) + DigitSum(text[1..])
  }

  function EmptyWeight(i: nat, p: Piece): int {
    if p == NoPiece then 1 else 0
  }

  /** Number of empty cells of a board. */
  function Empties(b: Board): int {
    Weigh(b, EmptyWeight, 0, 64)
  }

  lemma {:induction false} DigitSumConcat(s: string, t: string)
    ensures DigitSum(s + t) == DigitSum(s) + DigitSum(t)
  {
    if s == "" {
      assert s + t == t;
    } else {
      DigitSumConcat(s[1..], t);
      assert (s + t)[1..] == s[1..] + t;
    }
  }

  lemma {:induction false} RowDigits(b: Board, y: nat, x: nat, count: nat)
    requires y < 8 && x <= 8 && count <= x
    ensures DigitSum(RowText(b, y, x, count)) == count + Weigh(b, EmptyWeight, 8 * y + x, 8 * y + 8)
    decreases 8 - x
  {
    assert DigitSum(Run(count)) == count;
    if x < 8 {
      if b[8 * y + x] == NoPiece {
        RowDigits(b, y, x + 1, count + 1);
      } else {
        RowDigits(b, y, x + 1, 0);
        PieceCharRoundTrip(b[8 * y + x]);
        DigitSumConcat(Run(count), [PieceChar(b[8 * y + x])] + RowText(b, y, x + 1, 0));
        DigitSumConcat([PieceChar(b[8 * y + x])], RowText(b, y, x + 1, 0));
        assert RowText(b, y, x, count) == Run(count) + ([PieceChar(b[8 * y + x])] + RowText(b, y, x + 1, 0));
      }
    }
  }

  lemma {:induction false} RowsDigits(b: Board, y: nat)
    requires y < 8
    ensures DigitSum(RowsFrom(b, y)) == Weigh(b, EmptyWeight, 0, 8 * y + 8)
    decreases y
  {
    RowDigits(b, y, 0, 0);
    DigitSumConcat(RowText(b, y, 0, 0), RowsBelow(b, y));
    WeighSplit(b, EmptyWeight, 0, 8 * y, 8 * y + 8);
    if y > 0 {
      RowsDigits(b, y - 1);
      DigitSumConcat("/", RowsFrom(b, y - 1));
    }
  }

  /** The digits of a placement text add up to the number of empty cells. */
  lemma PlacementDigits(b: Board)
    ensures DigitSum(Placement(b)) == Empties(b)
  {
    RowsDigits(b, 7);
  }
}
