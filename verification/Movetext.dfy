/** The move text of a game: how it is written word by word and read back, and replaying it. */
module Movetext {
  import opened ChessBoard
  import opened Rules
  import opened Game
  import opened Invariant
  import opened Reachable
  import opened Mate

  // ----- words of a text -----

  predicate IsSpace(c: char) {
    c in {' ', '\t', '\n', '\r'}
  }

  /** The words of a text, separated by white space, as a stream extracts them. */
  function Words(s: string): seq<string> {
    if s == "" then []
    else
      var n := |s| - 1;
      if IsSpace(s[n]) then Words(s[..n])
      else if n == 0 || IsSpace(s[n - 1]) then Words(s[..n]) + [[s[n]]]
      else
        var before := Words(s[..n]);
        if before == [] then [[s[n]]] else before[..|before| - 1] + [before[|before| - 1] + [s[n]]]
  }

  predicate IsWord(w: string) {
    w != "" && forall i :: 0 <= i < |w| ==> !IsSpace(w[i])
  }

  /** A text that is empty or ends in white space: the next word starts afresh. */
  predicate Open(s: string) {
    s == "" || IsSpace(s[|s| - 1])
  }

  lemma FirstLetter(s: string, c: char)
    requires Open(s) && !IsSpace(c)
    ensures Words(s + [c]) == Words(s) + [[c]]
  {
  }

  lemma NextLetter(s: string, w: string, c: char)
    requires w != "" && !IsSpace(w[|w| - 1]) && !IsSpace(c) && exists ws :: Words(s + w) == ws + [w]
    ensures forall ws :: Words(s + w) == ws + [w] ==> Words(s + (w + [c])) == ws + [w + [c]]
  {
    var t := s + (w + [c]);
    assert t[..|t| - 1] == s + w && t[|t| - 2] == w[|w| - 1];
  }

  lemma {:induction false} WordGrows(s: string, w: string)
    requires Open(s) && IsWord(w)
    ensures Words(s + w) == Words(s) + [w]
    decreases |w|
  {
    hide Words, IsSpace, Open;
    var n := |w| - 1;
    if n == 0 {
      assert w == [w[0]];
      FirstOfWord(s, w);
    } else {
      ShorterWord(w);
      WordGrows(s, w[..n]);
      assert w == w[..n] + [w[n]];
      NextLetter(s, w[..n], w[n]);
    }
  }

  lemma FirstOfWord(s: string, w: string)
    requires Open(s) && IsWord(w) && |w| == 1
    ensures Words(s + w) == Words(s) + [w]
  {
    assert w == [w[0]];
    FirstLetter(s, w[0]);
    hide Words, IsSpace, Open;
  }

  lemma ShorterWord(w: string)
    requires IsWord(w) && |w| >= 2
    ensures IsWord(w[..|w| - 1]) && !IsSpace(w[|w| - 2]) && !IsSpace(w[|w| - 1])
  {
    hide IsSpace;
  }

  /** Writing a word and a blank after it adds that word. */
  lemma WordWritten(s: string, w: string)
    requires Open(s) && IsWord(w)
    ensures Words(s + w + " ") == Words(s) + [w] && Open(s + w + " ")
  {
    WordGrows(s, w);
    var t := s + w + " ";
    assert t[..|t| - 1] == s + w;
  }

  /** The last blank of a text does not count. */
  lemma LastBlank(s: string)
    requires s != "" && IsSpace(s[|s| - 1])
    ensures Words(s[..|s| - 1]) == Words(s)
  {
  }

  // ----- numbers -----

  function Digit(n: nat): char
    requires n < 10
  {
    '0' + (n as char)
  }

  function Digits(n: nat): (s: string)
    ensures |s| > 0
  {
    if n < 10 then [Digit(n)] else Digits(n / 10) + [Digit(n % 10)]
  }

  function ShowInt(n: int): string {
    if n < 0 then "-" + Digits(-n) else Digits(n)
  }

  function ReadDigits(s: string): nat
    requires forall i :: 0 <= i < |s| ==> '0' <= s[i] <= '9'
  {
    if s == "" then 0 else 10 * ReadDigits(s[..|s| - 1]) + (s[|s| - 1] as int - '0' as int)
  }

  lemma {:induction false} DigitsRead(n: nat)
    ensures forall i :: 0 <= i < |Digits(n)| ==> '0' <= Digits(n)[i] <= '9'
    ensures ReadDigits(Digits(n)) == n
    decreases n
  {
    if n < 10 {
      assert [Digit(n)][..0] == "";
    } else {
      DigitsRead(n / 10);
      var s := Digits(n / 10);
      assert (s + [Digit(n % 10)])[..|s|] == s;
    }
  }

  predicate AllDigits(s: string) {
    s != "" && forall i :: 0 <= i < |s| ==> '0' <= s[i] <= '9'
  }

  predicate IsNumber(s: string) {
    AllDigits(s) || (s != "" && s[0] == '-' && AllDigits(s[1..]))
  }

  function ReadInt(s: string): int
    requires IsNumber(s)
  {
    if AllDigits(s) then ReadDigits(s) else -(ReadDigits(s[1..]) as int)
  }

  /** A number that is written and read again is the same, and it is a single word. */
  lemma NumberRoundTrip(n: int)
    ensures IsNumber(ShowInt(n)) && ReadInt(ShowInt(n)) == n && IsWord(ShowInt(n))
  {
    DigitsRead(if n < 0 then -n else n);
    var s := ShowInt(n);
    assert n < 0 ==> s[1..] == Digits(-n);
  }

  // ----- replaying -----

  /** The game after a move text that nobody checks. */
  function MadeBy(g: Game, s: string): Game
    requires ValidText(s)
  {
    Make(g, Parse(g.turn, s))
  }

  ghost predicate AllValid(moves: seq<string>) {
    forall k :: 0 <= k < |moves| ==> ValidText(moves[k])
  }

  /** The game after a list of move texts. */
  function Replay(g: Game, moves: seq<string>): Game
    requires AllValid(moves)
    decreases |moves|
  {
    if moves == [] then g else MadeBy(Replay(g, moves[..|moves| - 1]), moves[|moves| - 1])
  }

  /** Every move of the list would be accepted when it comes. */
  ghost predicate Played(g: Game, moves: seq<string>)
    ensures Played(g, moves) ==> AllValid(moves)
  {
    AllValid(moves) && forall k :: 0 <= k < |moves| ==> Accepts(Replay(g, moves[..k]), moves[k])
  }

  lemma PlayedMore(g: Game, moves: seq<string>, s: string)
    requires Played(g, moves) && Accepts(Replay(g, moves), s)
    ensures Played(g, moves + [s]) && Replay(g, moves + [s]) == MadeBy(Replay(g, moves), s)
  {
    hide Accepts, MadeBy;
    var more := moves + [s];
    assert more[..|more| - 1] == moves;
    forall k | 0 <= k < |more|
      ensures Accepts(Replay(g, more[..k]), more[k])
    {
      assert more[..k] == if k < |moves| then moves[..k] else moves;
    }
  }

  /** Entry `k` of the history is the state after `k` moves. */
  lemma {:induction false} HistoryIsReplayed(g: Game, moves: seq<string>, k: nat)
    requires AllValid(moves) && k <= |moves| && |g.history| >= 1 && g.history[|g.history| - 1] == g.state
    ensures |Replay(g, moves).history| == |g.history| + |moves|
    ensures Replay(g, moves).history[|g.history| - 1 + k] == Replay(g, moves[..k]).state
    decreases |moves|
  {
    hide Apply, NextState;
    if moves == [] {
      assert moves[..k] == moves;
    } else {
      var n := |moves| - 1;
      if k <= n {
        HistoryIsReplayed(g, moves[..n], k);
        assert moves[..n][..k] == moves[..k];
      } else {
        HistoryIsReplayed(g, moves[..n], 0);
        assert moves[..k] == moves;
      }
    }
  }

  // ----- promotions that are not spelled out -----

  /** The text that is written down: a promotion without a piece gets the letter of the queen. */
  function Written(g: Game, s: string): string
    requires ValidText(s)
  {
    if Promotes(g.board, Parse(g.turn, s)) && |s| < 5 then s + "q" else s
  }

  lemma QueenIsValid(c: Color, s: string)
    requires ValidText(s) && |s| == 4
    ensures ValidText(s + "q") && Parse(c, s + "q") == Parse(c, s).(promo := Some('q'))
  {
  }

  lemma QueenOnBoard(b: Board, mv: Move)
    requires OnBoard(mv.from) && OnBoard(mv.to) && mv.promo == None
    ensures Apply(b, mv.(promo := Some('q'))) == Apply(b, mv)
  {
    QueenIsNamed(mv);
    hide Promotion, Put, At, KindOfChar, Shift, IsCastle, IsEnPassant, Corner, Middle, Victim;
    var mv' := mv.(promo := Some('q'));
    assert Corner(mv') == Corner(mv) && Middle(mv') == Middle(mv) && Victim(mv') == Victim(mv) by {
      SameSquares(mv, mv');
    }
    SameKinds(b, mv, mv');
    assert forall x: Board :: IsEnPassant(x, mv') == IsEnPassant(x, mv) by {
      forall x: Board
        ensures IsEnPassant(x, mv') == IsEnPassant(x, mv)
      {
        SameKinds(x, mv, mv');
      }
    }
  }

  lemma QueenIsNamed(mv: Move)
    requires mv.promo == None
    ensures Promotion(mv.(promo := Some('q'))) == Promotion(mv)
  {
    assert KindOfChar('q') == Some(Queen);
  }

  lemma SameSquares(mv: Move, mv': Move)
    requires mv' == mv.(promo := mv'.promo)
    ensures Corner(mv') == Corner(mv) && Middle(mv') == Middle(mv) && Victim(mv') == Victim(mv)
  {
  }

  lemma SameKinds(b: Board, mv: Move, mv': Move)
    requires OnBoard(mv.from) && OnBoard(mv.to) && mv' == mv.(promo := mv'.promo)
    ensures IsCastle(b, mv') == IsCastle(b, mv) && IsEnPassant(b, mv') == IsEnPassant(b, mv)
  {
  }

  lemma QueenIsImplied(g: Game, s: string)
    requires ValidText(s) && |s| == 4
    ensures ValidText(s + "q") && MadeBy(g, s + "q") == MadeBy(g, s)
  {
    var mv := Parse(g.turn, s);
    QueenIsValid(g.turn, s);
    QueenOnBoard(g.board, mv);
    hide Apply, ValidText, Parse, NextState;
    StateIgnoresText(g.state, Apply(g.board, mv), mv, mv.(promo := Some('q')));
  }

  lemma StateIgnoresText(s: State, b: Board, mv: Move, mv': Move)
    requires OnBoard(mv.to) && mv' == mv.(promo := mv'.promo)
    ensures NextState(s, b, mv) == NextState(s, b, mv')
  {
  }

  /** What is written down makes the same game, and would be accepted just as well. */
  lemma WrittenIsPlayed(g: Game, s: string)
    requires Ok(g) && Accepts(g, s)
    ensures Accepts(g, Written(g, s)) && MadeBy(g, Written(g, s)) == MadeBy(g, s)
  {
    hide Ok, MadeBy, Legal;
    if |s| == 4 {
      var mv := Parse(g.turn, s);
      QueenIsImplied(g, s);
      QueenIsValid(g.turn, s);
      ParseOk(g.turn, s);
      ParseOk(g.turn, s + "q");
      OkIsSound(g);
      PromotionDoesNotMatter(g.board, RightsOf(g.state), mv, mv.(promo := Some('q')));
    }
  }

  lemma OkIsSound(g: Game)
    requires Ok(g)
    ensures Sound(g.board, RightsOf(g.state), g.turn)
  {
  }

  // ----- the text of a game -----

  /** An accepted move: the text written down and the seconds shown after it. */
  datatype Entry = Entry(move: string, seconds: int)

  function Moves(entries: seq<Entry>): seq<string> {
    seq(|entries|, i requires 0 <= i < |entries| => entries[i].move)
  }

  /** The words of the text: every move, in a timed game followed by the seconds. */
  function TextWords(timed: bool, entries: seq<Entry>): seq<string> {
    if entries == [] then []
    else
      var last := entries[|entries| - 1];
      TextWords(timed, entries[..|entries| - 1]) + if timed then [last.move, ShowInt(last.seconds)] else [last.move]
  }

  ghost predicate Tells(text: string, timed: bool, entries: seq<Entry>) {
    Open(text) && Words(text) == TextWords(timed, entries)
  }

  lemma MoveIsWord(s: string)
    requires ValidText(s)
    ensures IsWord(s)
  {
  }

  /** Writing down one more move. */
  lemma TellsMore(text: string, timed: bool, entries: seq<Entry>, move: string, seconds: int)
    requires Tells(text, timed, entries) && ValidText(move)
    ensures var t := text + move + " ";
      Tells(if timed then t + ShowInt(seconds) + " " else t, timed, entries + [Entry(move, seconds)])
  {
    hide Words, ValidText;
    MoveIsWord(move);
    WordWritten(text, move);
    NumberRoundTrip(seconds);
    WordWritten(text + move + " ", ShowInt(seconds));
    var more := entries + [Entry(move, seconds)];
    assert more[..|more| - 1] == entries;
  }
}
