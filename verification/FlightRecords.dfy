/**
 One motion or one jump of a snapshot: printed by the server, read by the client.  A motion or jump of an unknown piece
 is dropped, an unknown victim is forgotten, and the two times of a jump come back exchanged.
 */
module FlightRecords {
  import opened Chess
  import opened Extract
  import opened Fields
  import opened Records
  import opened Text
  import opened Wrappers

  // ---------- motions ----------

  function VictimWord(m: Motion): string {
    if m.victim.Some? then m.victim.value else ""
  }

  function MotionFields(m: Motion): seq<Field> {
    [Word("piece_id", m.piece), Bare("src_row", Decimal(m.source.row)), Bare("src_col", Decimal(m.source.col)),
     Bare("dest_row", Decimal(m.dest.row)), Bare("dest_col", Decimal(m.dest.col)),
     Bare("total_ms", Decimal(m.total)), Bare("remaining_ms", Decimal(m.remaining)),
     Word("victim_id", VictimWord(m))]
  }

  function MotionText(m: Motion): string {
    ObjectText(MotionFields(m))
  }

  /** Reads one element of "motions"; one whose piece is not `known` is dropped, and so is such a victim. */
  function ReadMotion(obj: string, known: set<string>): Option<Option<Motion>> {
    var piece := ExtractString(obj, "piece_id");
    var srcRow :- ExtractInt(obj, "src_row");
    var srcCol :- ExtractInt(obj, "src_col");
    var destRow :- ExtractInt(obj, "dest_row");
    var destCol :- ExtractInt(obj, "dest_col");
    var total :- ExtractInt(obj, "total_ms");
    var remaining :- ExtractInt(obj, "remaining_ms");
    var victim := ExtractString(obj, "victim_id");
    Some(
      if piece !in known then None
      else Some(Motion(piece, Position(srcRow, srcCol), Position(destRow, destCol), remaining, total,
                       if victim != "" && victim in known then Some(victim) else None)))
  }

  predicate PrintableMotion(m: Motion) {
    && Clean(m.piece) && Clean(VictimWord(m)) && IsInt(m.source.row) && IsInt(m.source.col)
    && IsInt(m.dest.row) && IsInt(m.dest.col) && IsInt(m.total) && IsInt(m.remaining)
  }

  /** What a motion is taken for: a number named like the piece's id shows the source row. */
  function SeenMotion(m: Motion): Motion {
    var r := m.source.row;
    Motion(m.piece,
           Position(r, if m.piece == "src_col" then r else m.source.col),
           Position(if m.piece == "dest_row" then r else m.dest.row, if m.piece == "dest_col" then r else m.dest.col),
           if m.piece == "remaining_ms" then r else m.remaining,
           if m.piece == "total_ms" then r else m.total,
           if m.piece == "victim_id" then Some("src_col") else m.victim)
  }

  /** Without a victim who is not known. */
  function KnownVictim(m: Motion, known: set<string>): Motion {
    m.(victim := if m.victim.Some? && m.victim.value != "" && m.victim.value in known then m.victim else None)
  }

  const MOTION_KEYS: seq<string> := ["piece_id", "src_row", "src_col", "dest_row", "dest_col",
                                     "total_ms", "remaining_ms", "victim_id"]

  lemma MotionKeys()
    ensures forall m, n :: 0 <= m < n < 8 ==> MOTION_KEYS[m] != MOTION_KEYS[n]
  {
    assert MOTION_KEYS[0][0] == 'p' && MOTION_KEYS[3][0] == MOTION_KEYS[4][0] == 'd';
    assert MOTION_KEYS[5][0] == 't' && MOTION_KEYS[6][0] == 'r' && MOTION_KEYS[7][0] == 'v';
    assert MOTION_KEYS[1][4] != MOTION_KEYS[2][4] && MOTION_KEYS[3][5] != MOTION_KEYS[4][5];
  }

  lemma MotionKeyIsName(n: nat)
    requires n < 8
    ensures IsName(MOTION_KEYS[n])
  {
  }

  lemma MotionKey(m: Motion, n: nat)
    requires n < 8
    ensures MotionFields(m)[n].key == MOTION_KEYS[n]
  {
  }

  lemma MotionProper(m: Motion, n: nat)
    requires Clean(m.piece) && Clean(VictimWord(m)) && n < 8
    ensures Proper(MotionFields(m)[n]) && (0 < n < 7 ==> MotionFields(m)[n].Bare?)
  {
    var f := MotionFields(m)[n];
    MotionKeyIsName(n);
    MotionKey(m, n);
    if n == 0 || n == 7 {
      WordProper(f.key, if n == 0 then m.piece else VictimWord(m));
    } else {
      NumberProper(f.key, if n == 1 then m.source.row else if n == 2 then m.source.col
                          else if n == 3 then m.dest.row else if n == 4 then m.dest.col
                          else if n == 5 then m.total else m.remaining);
    }
  }

  lemma MotionRegular(m: Motion)
    requires Clean(m.piece) && Clean(VictimWord(m))
    ensures Regular(MotionFields(m))
  {
    var fs := MotionFields(m);
    forall n | 0 <= n < 8
      ensures fs[n].key == MOTION_KEYS[n] && Proper(fs[n]) && (0 < n < 7 ==> fs[n].Bare?)
    {
      MotionKey(m, n);
      MotionProper(m, n);
    }
    MotionKeys();
    RegularFrom(fs, MOTION_KEYS);
  }

  lemma MotionPiece(m: Motion, fs: seq<Field>, t: string)
    requires fs == MotionFields(m) && t == ObjectText(fs) && Regular(fs)
    ensures ExtractString(t, "piece_id") == m.piece
  {
    WordReads(fs, t, 0, "piece_id", m.piece, m.piece);
  }

  lemma MotionVictim(m: Motion, s: Motion, fs: seq<Field>, t: string)
    requires s == SeenMotion(m) && fs == MotionFields(m) && t == ObjectText(fs) && Regular(fs)
    ensures ExtractString(t, "victim_id") == VictimWord(s)
  {
    WordReads(fs, t, 7, "victim_id", VictimWord(m), VictimWord(s));
  }

  lemma MotionSources(m: Motion, s: Motion, fs: seq<Field>, t: string)
    requires PrintableMotion(m) && s == SeenMotion(m) && fs == MotionFields(m) && t == ObjectText(fs) && Regular(fs)
    ensures ExtractInt(t, "src_row") == Some(s.source.row) && ExtractInt(t, "src_col") == Some(s.source.col)
  {
    IntReads(fs, t, 1, "src_row", m.source.row, m.source.row, s.source.row);
    IntReads(fs, t, 2, "src_col", m.source.row, m.source.col, s.source.col);
  }

  lemma MotionGoals(m: Motion, s: Motion, fs: seq<Field>, t: string)
    requires PrintableMotion(m) && s == SeenMotion(m) && fs == MotionFields(m) && t == ObjectText(fs) && Regular(fs)
    ensures ExtractInt(t, "dest_row") == Some(s.dest.row) && ExtractInt(t, "dest_col") == Some(s.dest.col)
  {
    IntReads(fs, t, 3, "dest_row", m.source.row, m.dest.row, s.dest.row);
    IntReads(fs, t, 4, "dest_col", m.source.row, m.dest.col, s.dest.col);
  }

  lemma MotionTimes(m: Motion, s: Motion, fs: seq<Field>, t: string)
    requires PrintableMotion(m) && s == SeenMotion(m) && fs == MotionFields(m) && t == ObjectText(fs) && Regular(fs)
    ensures ExtractInt(t, "total_ms") == Some(s.total) && ExtractInt(t, "remaining_ms") == Some(s.remaining)
  {
    IntReads(fs, t, 5, "total_ms", m.source.row, m.total, s.total);
    IntReads(fs, t, 6, "remaining_ms", m.source.row, m.remaining, s.remaining);
  }

  /** Reading one printed motion, whatever its piece is called. */
  lemma ReadPrintedMotion(m: Motion, known: set<string>)
    requires PrintableMotion(m)
    ensures ReadMotion(MotionText(m), known)
         == Some(if m.piece in known then Some(KnownVictim(SeenMotion(m), known)) else None)
  {
    var fs, t, s := MotionFields(m), MotionText(m), SeenMotion(m);
    MotionRegular(m);
    MotionPiece(m, fs, t);
    MotionVictim(m, s, fs, t);
    MotionSources(m, s, fs, t);
    MotionGoals(m, s, fs, t);
    MotionTimes(m, s, fs, t);
  }

  /** No field of the motion is hidden by the id of its piece. */
  predicate MotionUnhidden(m: Motion, known: set<string>) {
    var r := m.source.row;
    && (m.piece == "src_col" ==> m.source.col == r)
    && (m.piece == "dest_row" ==> m.dest.row == r)
    && (m.piece == "dest_col" ==> m.dest.col == r)
    && (m.piece == "total_ms" ==> m.total == r)
    && (m.piece == "remaining_ms" ==> m.remaining == r)
    && (m.piece == "victim_id" ==>
          if "src_col" in known then m.victim == Some("src_col")
          else m.victim.None? || m.victim.value == "" || m.victim.value !in known)
  }

  lemma SeenMotionExactly(m: Motion, known: set<string>)
    ensures KnownVictim(SeenMotion(m), known) == KnownVictim(m, known) <==> MotionUnhidden(m, known)
  {
  }

  /** A motion of a known piece is read back, without an unknown victim, exactly when its piece's id hides no field. */
  lemma MotionExactly(m: Motion, known: set<string>)
    requires PrintableMotion(m) && m.piece in known
    ensures ReadMotion(MotionText(m), known) == Some(Some(KnownVictim(m, known))) <==> MotionUnhidden(m, known)
  {
    ReadPrintedMotion(m, known);
    SeenMotionExactly(m, known);
  }

  // ---------- jumps ----------

  function JumpFields(j: Jump): seq<Field> {
    [Word("piece_id", j.piece), Bare("row", Decimal(j.pos.row)), Bare("col", Decimal(j.pos.col)),
     Bare("total_ms", Decimal(j.total)), Bare("remaining_ms", Decimal(j.remaining))]
  }

  function JumpText(j: Jump): string {
    ObjectText(JumpFields(j))
  }

  /** Reads one element of "jumps".  The source fills the two times in the order of the text, not of the struct. */
  function ReadJump(obj: string, known: set<string>): Option<Option<Jump>> {
    var piece := ExtractString(obj, "piece_id");
    var row :- ExtractInt(obj, "row");
    var col :- ExtractInt(obj, "col");
    var total :- ExtractInt(obj, "total_ms");
    var remaining :- ExtractInt(obj, "remaining_ms");
    Some(if piece in known then Some(Jump(piece, Position(row, col), total, remaining)) else None)
  }

  predicate PrintableJump(j: Jump) {
    && Clean(j.piece) && IsInt(j.pos.row) && IsInt(j.pos.col) && IsInt(j.total) && IsInt(j.remaining)
  }

  /** What a jump is taken for: its two times change places. */
  function SeenJump(j: Jump): Jump {
    var r := j.pos.row;
    Jump(j.piece, Position(r, if j.piece == "col" then r else j.pos.col),
         if j.piece == "total_ms" then r else j.total,
         if j.piece == "remaining_ms" then r else j.remaining)
  }

  const JUMP_KEYS: seq<string> := ["piece_id", "row", "col", "total_ms", "remaining_ms"]

  lemma JumpKeys()
    ensures forall m, n :: 0 <= m < n < 5 ==> JUMP_KEYS[m] != JUMP_KEYS[n]
  {
    assert JUMP_KEYS[1][0] != JUMP_KEYS[2][0] && JUMP_KEYS[0][0] != JUMP_KEYS[3][0];
  }

  lemma JumpKeyIsName(n: nat)
    requires n < 5
    ensures IsName(JUMP_KEYS[n])
  {
  }

  lemma JumpProper(j: Jump, n: nat)
    requires Clean(j.piece) && n < 5
    ensures JumpFields(j)[n].key == JUMP_KEYS[n]
    ensures Proper(JumpFields(j)[n]) && (0 < n ==> JumpFields(j)[n].Bare?)
  {
    JumpKeyIsName(n);
    var f := JumpFields(j)[n];
    assert f.key == JUMP_KEYS[n];
    if n == 0 {
      WordProper(f.key, j.piece);
    } else {
      NumberProper(f.key, if n == 1 then j.pos.row else if n == 2 then j.pos.col
                          else if n == 3 then j.total else j.remaining);
    }
  }

  lemma JumpRegular(j: Jump)
    requires Clean(j.piece)
    ensures Regular(JumpFields(j))
  {
    var fs := JumpFields(j);
    forall n | 0 <= n < 5 ensures fs[n].key == JUMP_KEYS[n] && Proper(fs[n]) && (0 < n ==> fs[n].Bare?) {
      JumpProper(j, n);
    }
    JumpKeys();
    RegularFrom(fs, JUMP_KEYS);
  }

  lemma ReadPrintedJump(j: Jump, known: set<string>)
    requires PrintableJump(j)
    ensures ReadJump(JumpText(j), known) == Some(if j.piece in known then Some(SeenJump(j)) else None)
  {
    var fs, t, s := JumpFields(j), JumpText(j), SeenJump(j);
    JumpRegular(j);
    WordReads(fs, t, 0, "piece_id", j.piece, j.piece);
    IntReads(fs, t, 1, "row", j.pos.row, j.pos.row, s.pos.row);
    IntReads(fs, t, 2, "col", j.pos.row, j.pos.col, s.pos.col);
    IntReads(fs, t, 3, "total_ms", j.pos.row, j.total, s.remaining);
    IntReads(fs, t, 4, "remaining_ms", j.pos.row, j.remaining, s.total);
  }

  /** The two times agree, or what stands in their place by the id of the piece does; and the column is not hidden. */
  predicate JumpIntact(j: Jump) {
    && (j.piece == "col" ==> j.pos.col == j.pos.row)
    && j.remaining == (if j.piece == "total_ms" then j.pos.row else j.total)
    && j.total == (if j.piece == "remaining_ms" then j.pos.row else j.remaining)
  }

  /** A jump is read back exactly in this case; for an ordinary id, only while none of it has been flown. */
  lemma JumpExactly(j: Jump, known: set<string>)
    requires PrintableJump(j) && j.piece in known
    ensures ReadJump(JumpText(j), known) == Some(Some(j)) <==> JumpIntact(j)
  {
    ReadPrintedJump(j, known);
  }

  /** The id hides neither the column nor a time. */
  predicate JumpUnhidden(j: Jump) {
    && (j.piece == "col" ==> j.pos.col == j.pos.row)
    && (j.piece == "total_ms" ==> j.total == j.pos.row)
    && (j.piece == "remaining_ms" ==> j.remaining == j.pos.row)
  }

  /** A jump 400 ms before its end comes back as one with 1000 ms to go out of 400. */
  lemma ExchangedTimes()
    ensures var j := Jump("q", Position(0, 0), 400, 1000);
      && ReadJump(JumpText(j), {"q"}) == Some(Some(Jump("q", Position(0, 0), 1000, 400)))
      && ReadJump(JumpText(j), {"q"}) != Some(Some(j))
  {
    ReadPrintedJump(Jump("q", Position(0, 0), 400, 1000), {"q"});
  }
}
