/** Boards as text: one line a row, one word a square. */
module BoardText {
  import opened Chess
  import opened Text
  import opened Wrappers

  datatype Man = Man(color: Color, kind: Kind)

  /** A board of men; unlike in play, the ids of the pieces do not matter here. */
  datatype Board = Board(width: nat, height: nat, squares: map<Position, Man>)

  datatype ParseError = EmptyBoard | RowWidthMismatch | UnknownToken

  datatype Outcome = Parsed(board: Board) | Failed(error: ParseError)

  /** The text of the exception. */
  function What(e: ParseError): string {
    match e
    case EmptyBoard => "Cannot parse an empty board"
    case RowWidthMismatch => "ERROR ROW_WIDTH_MISMATCH"
    case UnknownToken => "ERROR UNKNOWN_TOKEN"
  }

  predicate InBounds(b: Board, pos: Position) {
    0 <= pos.row < b.height && 0 <= pos.col < b.width
  }

  /** Nothing stands off the board. */
  ghost predicate Valid(b: Board) {
    forall pos :: pos in b.squares ==> InBounds(b, pos)
  }

  function At(b: Board, pos: Position): Option<Man> {
    if pos in b.squares then Some(b.squares[pos]) else None
  }

  /** `add_piece`: refused when the square is off the board or taken. */
  function AddMan(b: Board, pos: Position, man: Man): (Board, bool) {
    if InBounds(b, pos) && pos !in b.squares then (b.(squares := b.squares[pos := man]), true) else (b, false)
  }

  // ---------- words ----------

  function TakeWord(s: string): (w: string)
    ensures w <= s
  {
    if s != "" && !IsSpace(s[0]) then [s[0]] + TakeWord(s[1..]) else ""
  }

  lemma {:induction false} SkipShrinks(s: string)
    ensures |SkipSpaces(s)| <= |s| && (SkipSpaces(s) != "" ==> !IsSpace(SkipSpaces(s)[0]))
  {
    if s != "" && IsSpace(s[0]) { SkipShrinks(s[1..]); }
  }

  /** The words of a line. */
  function Words(s: string): seq<string>
    decreases |s|
  {
    SkipShrinks(s);
    var t := SkipSpaces(s);
    if t == "" then [] else [TakeWord(t)] + Words(t[|TakeWord(t)|..])
  }

  function KindChar(k: Kind): char {
    match k
    case King => 'K' case Queen => 'Q' case Rook => 'R' case Bishop => 'B' case Knight => 'N' case Pawn => 'P'
  }

  function CharKind(c: char): Option<Kind> {
    match c
    case 'K' => Some(King) case 'Q' => Some(Queen) case 'R' => Some(Rook)
    case 'B' => Some(Bishop) case 'N' => Some(Knight) case 'P' => Some(Pawn)
    case _ => None
  }

  /** What a word says about its square; nothing when the parser does not know it. */
  function Meaning(w: string): Option<Option<Man>> {
    if w == "." then Some(None)
    else if |w| != 2 || (w[0] != 'w' && w[0] != 'b') || CharKind(w[1]).None? then None
    else Some(Some(Man(if w[0] == 'w' then White else Black, CharKind(w[1]).value)))
  }

  function WordFor(man: Option<Man>): string {
    match man
    case None => "."
    case Some(m) => [if m.color.White? then 'w' else 'b', KindChar(m.kind)]
  }

  predicate Blank(c: char) {
    c in {' ', '\t', '\n', '\r', '\U{0B}', '\U{0C}'}
  }

  /** Words are what stands between blanks, however many there are. */
  lemma WordsAre(x: string, w: string, r: string)
    requires (forall c :: c in x ==> Blank(c)) && w != "" && (forall c :: c in w ==> !Blank(c))
    requires r != "" ==> Blank(r[0])
    ensures Words(x + w + r) == [w] + Words(r)
  {
    var t := w + r;
    assert w[0] in w && t[0] == w[0];
    assert x + w + r == x + t;
    SkipAll(x, t);
    TakeWordIs(w, r);
    assert t[|w|..] == r;
  }

  lemma NoWords(x: string)
    requires forall c :: c in x ==> Blank(c)
    ensures Words(x) == []
  {
    SkipAll(x, "");
    assert x + "" == x;
  }

  // ---------- what parsing means ----------

  /** The table of words has `width` columns. */
  predicate Rectangular(table: seq<seq<string>>, width: nat) {
    forall r :: 0 <= r < |table| ==> |table[r]| == width
  }

  function Table(lines: seq<string>): (table: seq<seq<string>>)
    ensures |table| == |lines| && forall r :: 0 <= r < |lines| ==> table[r] == Words(lines[r])
  {
    seq(|lines|, r requires 0 <= r < |lines| => Words(lines[r]))
  }

  ghost predicate AllKnown(table: seq<seq<string>>, width: nat)
    requires Rectangular(table, width)
  {
    forall r, c :: 0 <= r < |table| && 0 <= c < width ==> Meaning(table[r][c]).Some?
  }

  /** The board says of every square what its word means. */
  ghost predicate Matches(b: Board, table: seq<seq<string>>)
    requires Rectangular(table, b.width)
  {
    && b.height == |table| && Valid(b)
    && (forall r, c :: 0 <= r < |table| && 0 <= c < b.width ==> Meaning(table[r][c]) == Some(At(b, Position(r, c))))
  }

  /** What the parser has to return. */
  ghost predicate Means(lines: seq<string>, o: Outcome) {
    if lines == [] then o == Failed(EmptyBoard)
    else
      var table := Table(lines);
      var width := |table[0]|;
      if !Rectangular(table, width) then o == Failed(RowWidthMismatch)
      else if !AllKnown(table, width) then o == Failed(UnknownToken)
      else o.Parsed? && o.board.width == width && Matches(o.board, table)
  }

  const WORDS := {".", "wK", "wQ", "wR", "wB", "wN", "wP", "bK", "bQ", "bR", "bB", "bN", "bP"}

  /** The words the parser knows, and what they stand for. */
  lemma KnownWords(w: string)
    ensures Meaning(w).Some? <==> w in WORDS
    ensures w == "." ==> Meaning(w) == Some(None)
    ensures |w| == 2 && Meaning(w).Some? ==>
      && Meaning(w).value.Some?
      && var man := Meaning(w).value.value;
      && (w[0] == 'w' <==> man.color == White) && (w[0] == 'b' <==> man.color == Black)
      && (w[1] == 'K' <==> man.kind == King) && (w[1] == 'Q' <==> man.kind == Queen)
      && (w[1] == 'R' <==> man.kind == Rook) && (w[1] == 'B' <==> man.kind == Bishop)
      && (w[1] == 'N' <==> man.kind == Knight) && (w[1] == 'P' <==> man.kind == Pawn)
  {
    if |w| == 2 {
      assert w == [w[0], w[1]];
    }
  }

  predicate Uneven(lines: seq<string>) {
    exists i :: 0 <= i < |lines| && |Words(lines[i])| != |Words(lines[0])|
  }

  predicate HasUnknown(lines: seq<string>) {
    exists i, j :: 0 <= i < |lines| && 0 <= j < |Words(lines[i])| && Words(lines[i])[j] !in WORDS
  }

  /** Which texts are refused, and with which message. */
  lemma Refused(lines: seq<string>, o: Outcome)
    requires Means(lines, o)
    ensures lines == [] ==> o.Failed? && What(o.error) == "Cannot parse an empty board"
    ensures lines != [] && Uneven(lines) ==> o.Failed? && What(o.error) == "ERROR ROW_WIDTH_MISMATCH"
    ensures lines != [] && !Uneven(lines) && HasUnknown(lines) ==> o.Failed? && What(o.error) == "ERROR UNKNOWN_TOKEN"
    ensures lines != [] && !Uneven(lines) && !HasUnknown(lines) ==> o.Parsed?
  {
    if lines != [] {
      var table := Table(lines);
      assert Rectangular(table, |table[0]|) <==> !Uneven(lines);
      if !Uneven(lines) {
        forall w ensures Meaning(w).Some? <==> w in WORDS { KnownWords(w); }
        assert AllKnown(table, |table[0]|) <==> !HasUnknown(lines);
      }
    }
  }

  lemma SameBoard(b: Board, d: Board, table: seq<seq<string>>)
    requires b.width == d.width && Rectangular(table, b.width) && Matches(b, table) && Matches(d, table)
    ensures b == d
  {
    forall pos ensures At(b, pos) == At(d, pos) {
      if InBounds(b, pos) {
        assert Position(pos.row, pos.col) == pos;
        assert Meaning(table[pos.row][pos.col]) == Some(At(b, pos));
      }
    }
    forall pos ensures pos in b.squares <==> pos in d.squares { assert At(b, pos) == At(d, pos); }
    forall pos | pos in b.squares ensures b.squares[pos] == d.squares[pos] { assert At(b, pos) == At(d, pos); }
    assert b.squares == d.squares;
  }

  /** Every text has one outcome. */
  lemma OneOutcome(lines: seq<string>, o: Outcome, p: Outcome)
    requires Means(lines, o) && Means(lines, p)
    ensures o == p
  {
    if o.Parsed? {
      SameBoard(o.board, p.board, Table(lines));
    }
  }

  // ---------- parsing ----------

  /** `while (ss >> token)` */
  method Tokenise(line: string) returns (words: seq<string>)
    ensures words == Words(line)
  {
    words := [];
    var rest := line;
    SkipShrinks(rest);
    while SkipSpaces(rest) != ""
      invariant words + Words(rest) == Words(line)
      invariant |SkipSpaces(rest)| <= |rest| && (SkipSpaces(rest) != "" ==> !IsSpace(SkipSpaces(rest)[0]))
      decreases |rest|
    {
      var t := SkipSpaces(rest);
      var w := TakeWord(t);
      words := words + [w];
      rest := t[|w|..];
      SkipShrinks(rest);
    }
  }

  /** The first loop: a line whose number of words is not that of the first line ends it. */
  method ReadTable(lines: seq<string>) returns (table: seq<seq<string>>, width: nat, even: bool)
    requires lines != []
    ensures width == |Words(lines[0])| && even == Rectangular(Table(lines), width)
    ensures even ==> table == Table(lines)
  {
    table, width := [], 0;
    for i := 0 to |lines|
      invariant |table| == i && forall r :: 0 <= r < i ==> table[r] == Words(lines[r])
      invariant i > 0 ==> width == |Words(lines[0])|
      invariant forall r :: 0 <= r < i ==> |table[r]| == width
    {
      var words := Tokenise(lines[i]);
      if i == 0 {
        width := |words|;
      } else if width != |words| {
        assert |Table(lines)[i]| != |Words(lines[0])|;
        return table, |Words(lines[0])|, false;
      }
      table := table + [words];
    }
    return table, width, true;
  }

  /** The board so far: what the words before row `r`, column `c` say. */
  ghost predicate Filled(b: Board, table: seq<seq<string>>, r: nat, c: nat)
    requires Rectangular(table, b.width) && r <= |table| == b.height && c <= b.width
  {
    && (forall pos :: pos in b.squares ==> InBounds(b, pos) && Before(pos, r, c))
    && (forall i, j :: 0 <= i < |table| && 0 <= j < b.width && Before(Position(i, j), r, c) ==>
          Meaning(table[i][j]) == Some(At(b, Position(i, j))))
  }

  predicate Before(pos: Position, r: int, c: int) {
    pos.row < r || (pos.row == r && pos.col < c)
  }

  /** One square: fails on an unknown word; adding the piece never fails. */
  method FillSquare(b: Board, table: seq<seq<string>>, r: nat, c: nat) returns (next: Option<Board>)
    requires Rectangular(table, b.width) && r < |table| == b.height && c < b.width && Filled(b, table, r, c)
    ensures next.None? <==> Meaning(table[r][c]).None?
    ensures next.Some? ==>
      next.value.width == b.width && next.value.height == b.height && Filled(next.value, table, r, c + 1)
  {
    var pos, m := Position(r, c), Meaning(table[r][c]);
    if m.None? {
      return None;
    }
    var d := b;
    if m.value.Some? {
      var added := AddMan(b, pos, m.value.value);
      assert added.1;
      d := added.0;
    }
    assert forall q :: q != pos ==> At(d, q) == At(b, q);
    assert At(d, pos) == m.value;
    return Some(d);
  }

  method FillRow(b: Board, table: seq<seq<string>>, r: nat) returns (next: Option<Board>)
    requires Rectangular(table, b.width) && r < |table| == b.height && Filled(b, table, r, 0)
    ensures next.None? ==> exists c :: 0 <= c < b.width && Meaning(table[r][c]).None?
    ensures next.Some? ==>
      next.value.width == b.width && next.value.height == b.height && Filled(next.value, table, r, b.width)
  {
    var d := b;
    for c := 0 to b.width
      invariant d.width == b.width && d.height == b.height && Filled(d, table, r, c)
    {
      var filled := FillSquare(d, table, r, c);
      if filled.None? {
        return None;
      }
      d := filled.value;
    }
    return Some(d);
  }

  method Parse(lines: seq<string>) returns (o: Outcome)
    ensures Means(lines, o)
  {
    if lines == [] {
      return Failed(EmptyBoard);
    }
    var table, width, even := ReadTable(lines);
    if !even {
      return Failed(RowWidthMismatch);
    }
    var b := Board(width, |lines|, map[]);
    for r := 0 to |lines|
      invariant b.width == width && b.height == |lines| && Filled(b, table, r, 0)
    {
      var filled := FillRow(b, table, r);
      if filled.None? {
        return Failed(UnknownToken);
      }
      b := filled.value;
      NextRow(b, table, r);
    }
    return Parsed(b);
  }

  lemma NextRow(b: Board, table: seq<seq<string>>, r: nat)
    requires Rectangular(table, b.width) && r < |table| == b.height && Filled(b, table, r, b.width)
    ensures Filled(b, table, r + 1, 0)
  {
  }

  // ---------- printing ----------

  function RowWords(b: Board, r: nat): (ws: seq<string>)
    ensures |ws| == b.width && forall c :: 0 <= c < b.width ==> ws[c] == WordFor(At(b, Position(r, c)))
  {
    seq(b.width, c requires 0 <= c < b.width => WordFor(At(b, Position(r, c))))
  }

  /** The words of each row, with one space between them. */
  function Printed(b: Board): (lines: seq<string>)
    ensures |lines| == b.height && forall r :: 0 <= r < b.height ==> lines[r] == Joined(RowWords(b, r), " ")
  {
    seq(b.height, r requires 0 <= r < b.height => Joined(RowWords(b, r), " "))
  }

  method PrintRow(b: Board, r: nat) returns (line: string)
    ensures line == Joined(RowWords(b, r), " ")
  {
    ghost var ws := RowWords(b, r);
    line := "";
    for c := 0 to b.width
      invariant line == Joined(ws[..c], " ") + (if 0 < c < b.width then " " else "")
    {
      JoinedSnoc(ws, " ", c);
      var here := WordFor(At(b, Position(r, c)));
      line := line + here;
      if c < b.width - 1 {
        line := line + " ";
      }
    }
    assert ws[..b.width] == ws;
  }

  method Print(b: Board) returns (lines: seq<string>)
    ensures lines == Printed(b)
  {
    lines := [];
    for r := 0 to b.height
      invariant |lines| == r && forall k :: 0 <= k < r ==> lines[k] == Joined(RowWords(b, k), " ")
    {
      var line := PrintRow(b, r);
      lines := lines + [line];
    }
  }

  // ---------- round trips ----------

  lemma WordMeans(man: Option<Man>)
    ensures Meaning(WordFor(man)) == Some(man)
  {
  }

  lemma MeaningWord(w: string)
    requires Meaning(w).Some?
    ensures WordFor(Meaning(w).value) == w
  {
  }

  predicate IsWord(w: string) {
    w != "" && forall c :: c in w ==> !IsSpace(c)
  }

  lemma {:induction false} TakeWordIs(w: string, r: string)
    requires (forall c :: c in w ==> !IsSpace(c)) && (r == "" || IsSpace(r[0]))
    ensures TakeWord(w + r) == w
  {
    if w == "" {
      assert w + r == r;
    } else {
      assert w[0] in w && (w + r)[1..] == w[1..] + r;
      TakeWordIs(w[1..], r);
    }
  }

  /** Words with single spaces between them are told apart again. */
  lemma {:induction false} WordsJoined(x: string, ws: seq<string>)
    requires (x == "" || x == " ") && forall w :: w in ws ==> IsWord(w)
    ensures Words(x + Joined(ws, " ")) == ws
    decreases |ws|
  {
    if ws == [] {
      assert x + Joined(ws, " ") == x;
      NoWords(x);
    } else {
      assert ws[0] in ws && forall w :: w in ws[1..] ==> w in ws;
      var y := if |ws| == 1 then "" else " ";
      var r := y + Joined(ws[1..], " ");
      Prefixed(x, ws[0], y, Joined(ws[1..], " "));
      assert Joined(ws, " ") == ws[0] + y + Joined(ws[1..], " ");
      WordsAre(x, ws[0], r);
      WordsJoined(y, ws[1..]);
      assert ws == [ws[0]] + ws[1..];
    }
  }

  lemma Prefixed(x: string, w: string, y: string, more: string)
    ensures x + (w + y + more) == x + w + (y + more)
  {
  }

  lemma RowReads(b: Board, r: nat)
    ensures Words(Joined(RowWords(b, r), " ")) == RowWords(b, r)
  {
    var ws := RowWords(b, r);
    WordsJoined("", ws);
    assert "" + Joined(ws, " ") == Joined(ws, " ");
  }

  /** Parsing what was printed gives the board back. */
  lemma ParsePrinted(b: Board, o: Outcome)
    requires Valid(b) && b.height > 0 && Means(Printed(b), o)
    ensures o == Parsed(b)
  {
    var lines := Printed(b);
    var table := Table(lines);
    forall r | 0 <= r < b.height ensures table[r] == RowWords(b, r) {
      RowReads(b, r);
    }
    forall r, c | 0 <= r < b.height && 0 <= c < b.width ensures Meaning(table[r][c]) == Some(At(b, Position(r, c))) {
      WordMeans(At(b, Position(r, c)));
    }
    assert Matches(b, table);
    SameBoard(o.board, b, table);
  }

  /** Printing what was parsed gives the same words, with one space between them. */
  lemma PrintParsed(lines: seq<string>, b: Board)
    requires Means(lines, Parsed(b))
    ensures |Printed(b)| == |lines|
    ensures forall r :: 0 <= r < |lines| ==> Printed(b)[r] == Joined(Words(lines[r]), " ")
  {
    var table := Table(lines);
    forall r | 0 <= r < |lines| ensures RowWords(b, r) == Words(lines[r]) {
      forall c | 0 <= c < b.width ensures RowWords(b, r)[c] == table[r][c] {
        MeaningWord(table[r][c]);
        assert Meaning(table[r][c]) == Some(At(b, Position(r, c)));
      }
    }
  }

  /** A board of height zero prints as no lines at all, and that is no board. */
  lemma NoRows(b: Board, o: Outcome)
    requires b.height == 0 && Means(Printed(b), o)
    ensures o == Failed(EmptyBoard)
  {
  }
}
