/**
 One piece of a snapshot: printed by the server, read by the client.  The piece read is described for every id without
 quotes; it is the piece printed exactly when the id is not the name of a field it hides.
 */
module PieceRecords {
  import opened Chess
  import opened Extract
  import opened Fields
  import opened Records
  import opened Text
  import opened Wrappers

  /** An element of the array "pieces". */
  datatype Entry = Entry(id: Id, kind: int, color: int, row: int, col: int, state: int,
                         resting: bool, remaining: int, total: int, longRest: bool)

  function KindCode(k: Kind): nat {
    match k
    case King => 0 case Queen => 1 case Rook => 2 case Bishop => 3 case Knight => 4 case Pawn => 5
  }

  function ColorCode(c: Color): nat {
    if c.White? then 0 else 1
  }

  function StatusCode(s: Status): nat {
    match s
    case Idle => 0 case Moving => 1 case Captured => 2
  }

  /** What the client's casts make of the numbers. */
  function KindNumbered(n: int): Option<Kind> {
    match n
    case 0 => Some(King) case 1 => Some(Queen) case 2 => Some(Rook)
    case 3 => Some(Bishop) case 4 => Some(Knight) case 5 => Some(Pawn)
    case _ => None
  }

  function ColorNumbered(n: int): Option<Color> {
    match n case 0 => Some(White) case 1 => Some(Black) case _ => None
  }

  function StatusNumbered(n: int): Option<Status> {
    match n case 0 => Some(Idle) case 1 => Some(Moving) case 2 => Some(Captured) case _ => None
  }

  function PieceFields(e: Entry): seq<Field> {
    [Word("id", e.id), Bare("kind", Decimal(e.kind)), Bare("color", Decimal(e.color)),
     Bare("row", Decimal(e.row)), Bare("col", Decimal(e.col)), Bare("state", Decimal(e.state)),
     Bare("on_cooldown", Flag(e.resting)), Bare("cooldown_remaining", Decimal(e.remaining)),
     Bare("cooldown_total", Decimal(e.total)), Bare("is_long_rest", Flag(e.longRest))]
  }

  function PieceText(e: Entry): string {
    ObjectText(PieceFields(e))
  }

  /** What the client keeps of a piece besides its id. */
  datatype Token = Token(kind: int, color: int, row: int, col: int, state: int)

  datatype Parsed = Parsed(id: string, token: Token, rest: Option<Cooldown>)

  function ReadPiece(obj: string): Option<Parsed> {
    var id := ExtractString(obj, "id");
    var kind :- ExtractInt(obj, "kind");
    var color :- ExtractInt(obj, "color");
    var row :- ExtractInt(obj, "row");
    var col :- ExtractInt(obj, "col");
    var state :- ExtractInt(obj, "state");
    var token := Token(kind, color, row, col, state);
    if ExtractBool(obj, "on_cooldown") then
      var remaining :- ExtractInt(obj, "cooldown_remaining");
      var total :- ExtractInt(obj, "cooldown_total");
      Some(Parsed(id, token, Some(Cooldown(id, remaining, total, ExtractBool(obj, "is_long_rest")))))
    else
      Some(Parsed(id, token, None))
  }

  predicate Printable(e: Entry) {
    && Clean(e.id) && IsInt(e.kind) && IsInt(e.color) && IsInt(e.row) && IsInt(e.col) && IsInt(e.state)
    && IsInt(e.remaining) && IsInt(e.total)
  }

  const PIECE_KEYS: seq<string> := ["id", "kind", "color", "row", "col", "state",
                                    "on_cooldown", "cooldown_remaining", "cooldown_total", "is_long_rest"]

  lemma PieceKeys()
    ensures forall m, n :: 0 <= m < n < 10 ==> PIECE_KEYS[m] != PIECE_KEYS[n]
  {
    assert PIECE_KEYS[3][0] != PIECE_KEYS[4][0];
    assert PIECE_KEYS[2][0] != PIECE_KEYS[5][0];
  }

  lemma PieceKeyIsName(n: nat)
    requires n < 10
    ensures IsName(PIECE_KEYS[n])
  {
  }

  lemma PieceKey(e: Entry, n: nat)
    requires n < 10
    ensures PieceFields(e)[n].key == PIECE_KEYS[n]
  {
  }

  lemma PieceProper(e: Entry, n: nat)
    requires Clean(e.id) && n < 10
    ensures Proper(PieceFields(e)[n]) && (n > 0 ==> PieceFields(e)[n].Bare?)
  {
    var f := PieceFields(e)[n];
    PieceKeyIsName(n);
    PieceKey(e, n);
    if n == 6 || n == 9 {
      FlagProper(f.key, if n == 6 then e.resting else e.longRest);
    } else if n > 0 {
      NumberProper(f.key, if n == 1 then e.kind else if n == 2 then e.color else if n == 3 then e.row
                            else if n == 4 then e.col else if n == 5 then e.state
                            else if n == 7 then e.remaining else e.total);
    }
  }

  lemma PieceRegular(e: Entry)
    requires Clean(e.id)
    ensures Regular(PieceFields(e))
  {
    var fs := PieceFields(e);
    forall n | 0 <= n < 10
      ensures fs[n].key == PIECE_KEYS[n] && Proper(fs[n]) && (n > 0 ==> fs[n].Bare?)
    {
      PieceKey(e, n);
      PieceProper(e, n);
    }
    PieceKeys();
    RegularFrom(fs, PIECE_KEYS);
  }

  /** What the client takes an entry for: a field whose name is the id itself shows the kind. */
  function Seen(e: Entry): Entry {
    Entry(e.id, e.kind,
          if e.id == "color" then e.kind else e.color,
          if e.id == "row" then e.kind else e.row,
          if e.id == "col" then e.kind else e.col,
          if e.id == "state" then e.kind else e.state,
          e.resting && e.id != "on_cooldown",
          if e.id == "cooldown_remaining" then e.kind else e.remaining,
          if e.id == "cooldown_total" then e.kind else e.total,
          e.longRest && e.id != "is_long_rest")
  }

  function Kept(e: Entry): Parsed {
    Parsed(e.id, Token(e.kind, e.color, e.row, e.col, e.state),
           if e.resting then Some(Cooldown(e.id, e.remaining, e.total, e.longRest)) else None)
  }

  lemma PieceHead(e: Entry, fs: seq<Field>, t: string)
    requires Printable(e) && fs == PieceFields(e) && t == ObjectText(fs) && Regular(fs)
    ensures ExtractString(t, "id") == e.id && ExtractInt(t, "kind") == Some(e.kind)
  {
    WordReads(fs, t, 0, "id", e.id, e.id);
    IntReads(fs, t, 1, "kind", e.kind, e.kind, e.kind);
  }

  lemma PieceToken(e: Entry, s: Entry, fs: seq<Field>, t: string)
    requires Printable(e) && s == Seen(e) && fs == PieceFields(e) && t == ObjectText(fs) && Regular(fs)
    ensures ExtractInt(t, "color") == Some(s.color) && ExtractInt(t, "row") == Some(s.row)
    ensures ExtractInt(t, "col") == Some(s.col) && ExtractInt(t, "state") == Some(s.state)
  {
    IntReads(fs, t, 2, "color", e.kind, e.color, s.color);
    IntReads(fs, t, 3, "row", e.kind, e.row, s.row);
    IntReads(fs, t, 4, "col", e.kind, e.col, s.col);
    IntReads(fs, t, 5, "state", e.kind, e.state, s.state);
  }

  lemma PieceRest(e: Entry, s: Entry, fs: seq<Field>, t: string)
    requires Printable(e) && s == Seen(e) && fs == PieceFields(e) && t == ObjectText(fs) && Regular(fs)
    ensures ExtractBool(t, "on_cooldown") == s.resting && ExtractBool(t, "is_long_rest") == s.longRest
    ensures ExtractInt(t, "cooldown_remaining") == Some(s.remaining) && ExtractInt(t, "cooldown_total") == Some(s.total)
  {
    FlagReads(fs, t, 6, "on_cooldown", e.kind, e.resting, s.resting);
    IntReads(fs, t, 7, "cooldown_remaining", e.kind, e.remaining, s.remaining);
    IntReads(fs, t, 8, "cooldown_total", e.kind, e.total, s.total);
    FlagReads(fs, t, 9, "is_long_rest", e.kind, e.longRest, s.longRest);
  }

  /** Reading one printed piece, whatever its id. */
  lemma ReadPrinted(e: Entry)
    requires Printable(e)
    ensures ReadPiece(PieceText(e)) == Some(Kept(Seen(e)))
  {
    var fs, t := PieceFields(e), PieceText(e);
    PieceRegular(e);
    PieceHead(e, fs, t);
    PieceToken(e, Seen(e), fs, t);
    PieceRest(e, Seen(e), fs, t);
  }

  /** An id that is the name of a field other than "id" and "kind" hides what that field holds. */
  predicate Hides(e: Entry, key: string, x: int) {
    e.id == key && x != e.kind
  }

  /** No field that matters is hidden by the id. */
  predicate Unhidden(e: Entry) {
    && !Hides(e, "color", e.color) && !Hides(e, "row", e.row) && !Hides(e, "col", e.col)
    && !Hides(e, "state", e.state)
    && (e.resting ==>
          && e.id != "on_cooldown" && !Hides(e, "cooldown_remaining", e.remaining)
          && !Hides(e, "cooldown_total", e.total) && !(e.id == "is_long_rest" && e.longRest))
  }

  lemma SeenExactly(e: Entry)
    ensures Kept(Seen(e)) == Kept(e) <==> Unhidden(e)
  {
  }

  /** What is read back is what was printed, except where the id hides a field. */
  lemma ReadExactly(e: Entry)
    requires Printable(e)
    ensures ReadPiece(PieceText(e)) == Some(Kept(e)) <==> Unhidden(e)
  {
    ReadPrinted(e);
    SeenExactly(e);
  }

  /** A white pawn called "color" comes back with a color that does not exist. */
  lemma NamedLikeAField()
    ensures var e := Entry("color", 5, 0, 6, 0, 0, false, 0, 0, false);
      ReadPiece(PieceText(e)) == Some(Kept(e.(color := 5))) && ReadPiece(PieceText(e)) != Some(Kept(e))
  {
    ReadPrinted(Entry("color", 5, 0, 6, 0, 0, false, 0, 0, false));
  }
}
