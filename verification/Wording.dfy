/** The texts that are written, word for word. */
module Wording {
  import opened Chess
  import opened Extract
  import opened Fields
  import opened FlightRecords
  import opened Game
  import opened Listing
  import opened PieceRecords
  import opened Snapshot
  import opened Text
  import opened UserTable

  function Parts(fs: seq<Field>, l: Layout): (ts: seq<string>)
    ensures |ts| == |fs| && forall i :: 0 <= i < |fs| ==> ts[i] == FieldText(fs[i], l)
  {
    seq(|fs|, i requires 0 <= i < |fs| => FieldText(fs[i], l))
  }

  lemma {:induction false} FieldsJoined(fs: seq<Field>, l: Layout)
    ensures FieldsText(fs, l) == Joined(Parts(fs, l), l.comma)
  {
    if |fs| > 1 {
      FieldsJoined(fs[1..], l);
      assert Parts(fs, l)[1..] == Parts(fs[1..], l);
    }
  }

  /** The number of a kind, colour or state as it is written. */
  predicate Numbered(b: Body, kind: string, color: string, state: string) {
    && (b.kind, kind) in {(King, "0"), (Queen, "1"), (Rook, "2"), (Bishop, "3"), (Knight, "4"), (Pawn, "5")}
    && (b.color, color) in {(White, "0"), (Black, "1")}
    && (b.status, state) in {(Idle, "0"), (Moving, "1"), (Captured, "2")}
  }

  lemma DigitIs(n: nat)
    requires n < 10
    ensures Decimal(n) == ["0123456789"[n]]
  {
  }

  lemma CodesAreNumbered(b: Body)
    ensures Numbered(b, Decimal(KindCode(b.kind)), Decimal(ColorCode(b.color)), Decimal(StatusCode(b.status)))
  {
    DigitIs(KindCode(b.kind));
    DigitIs(ColorCode(b.color));
    DigitIs(StatusCode(b.status));
  }

  /** A member whose value is in quotes, and one whose value is not. */
  function Name(k: string, v: string): string {
    "\"" + k + "\":\"" + v + "\""
  }

  function Plain(k: string, v: string): string {
    "\"" + k + "\":" + v
  }

  function Truth(b: bool): string {
    if b then "true" else "false"
  }

  lemma MemberWords(f: Field)
    ensures FieldText(f, WIRE) == if f.Word? then Name(f.key, f.value) else Plain(f.key, f.raw)
  {
  }

  lemma ObjectWords(fs: seq<Field>, ts: seq<string>)
    requires |ts| == |fs|
    requires forall i :: 0 <= i < |fs| ==>
      ts[i] == if fs[i].Word? then Name(fs[i].key, fs[i].value) else Plain(fs[i].key, fs[i].raw)
    ensures ObjectText(fs) == "{" + Joined(ts, ",") + "}" && FieldsText(fs, WIRE) == Joined(ts, ",")
  {
    FieldsJoined(fs, WIRE);
    forall i | 0 <= i < |fs| ensures Parts(fs, WIRE)[i] == ts[i] { MemberWords(fs[i]); }
    assert Parts(fs, WIRE) == ts;
  }

  lemma EntryWords(e: Entry)
    ensures PieceText(e) == "{" + Joined([
      Name("id", e.id), Plain("kind", Decimal(e.kind)), Plain("color", Decimal(e.color)),
      Plain("row", Decimal(e.row)), Plain("col", Decimal(e.col)), Plain("state", Decimal(e.state)),
      Plain("on_cooldown", Truth(e.resting)), Plain("cooldown_remaining", Decimal(e.remaining)),
      Plain("cooldown_total", Decimal(e.total)), Plain("is_long_rest", Truth(e.longRest))], ",") + "}"
  {
    ObjectWords(PieceFields(e), [
      Name("id", e.id), Plain("kind", Decimal(e.kind)), Plain("color", Decimal(e.color)),
      Plain("row", Decimal(e.row)), Plain("col", Decimal(e.col)), Plain("state", Decimal(e.state)),
      Plain("on_cooldown", Truth(e.resting)), Plain("cooldown_remaining", Decimal(e.remaining)),
      Plain("cooldown_total", Decimal(e.total)), Plain("is_long_rest", Truth(e.longRest))]);
  }

  /** A piece of a snapshot, with the first cooldown that it has. */
  lemma PieceWords(a: Arena, p: Id, pos: Position, kind: string, color: string, state: string)
    requires p in a.pieces && Numbered(a.pieces[p], kind, color, state)
    ensures var c := FirstCooldown(a.cooldowns, p);
      PieceText(EntryOf(a, p, pos)) == "{" + Joined([
        Name("id", p), Plain("kind", kind), Plain("color", color),
        Plain("row", Decimal(pos.row)), Plain("col", Decimal(pos.col)), Plain("state", state),
        Plain("on_cooldown", Truth(c.Some?)),
        Plain("cooldown_remaining", Decimal(if c.Some? then c.value.remaining else 0)),
        Plain("cooldown_total", Decimal(if c.Some? then c.value.total else 0)),
        Plain("is_long_rest", Truth(c.Some? && c.value.longRest))], ",") + "}"
  {
    CodesAreNumbered(a.pieces[p]);
    EntryWords(EntryOf(a, p, pos));
  }

  lemma MotionWords(m: Motion)
    ensures MotionText(m) == "{" + Joined([
      Name("piece_id", m.piece), Plain("src_row", Decimal(m.source.row)), Plain("src_col", Decimal(m.source.col)),
      Plain("dest_row", Decimal(m.dest.row)), Plain("dest_col", Decimal(m.dest.col)),
      Plain("total_ms", Decimal(m.total)), Plain("remaining_ms", Decimal(m.remaining)),
      Name("victim_id", if m.victim.Some? then m.victim.value else "")], ",") + "}"
  {
    ObjectWords(MotionFields(m), [
      Name("piece_id", m.piece), Plain("src_row", Decimal(m.source.row)), Plain("src_col", Decimal(m.source.col)),
      Plain("dest_row", Decimal(m.dest.row)), Plain("dest_col", Decimal(m.dest.col)),
      Plain("total_ms", Decimal(m.total)), Plain("remaining_ms", Decimal(m.remaining)),
      Name("victim_id", if m.victim.Some? then m.victim.value else "")]);
  }

  lemma JumpWords(j: Jump)
    ensures JumpText(j) == "{" + Joined([
      Name("piece_id", j.piece), Plain("row", Decimal(j.pos.row)), Plain("col", Decimal(j.pos.col)),
      Plain("total_ms", Decimal(j.total)), Plain("remaining_ms", Decimal(j.remaining))], ",") + "}"
  {
    ObjectWords(JumpFields(j), [
      Name("piece_id", j.piece), Plain("row", Decimal(j.pos.row)), Plain("col", Decimal(j.pos.col)),
      Plain("total_ms", Decimal(j.total)), Plain("remaining_ms", Decimal(j.remaining))]);
  }

  lemma HeaderWords(h: Header, a: Arena)
    ensures FieldsText(HeaderFields(h, a), WIRE) == Joined([
      Plain("game_over", Truth(a.gameOver)), Plain("white_score", Decimal(a.whiteScore)),
      Plain("black_score", Decimal(a.blackScore)), Name("white_user", h.whiteUser),
      Plain("white_elo", Decimal(h.whiteElo)), Name("black_user", h.blackUser), Plain("black_elo", Decimal(h.blackElo)),
      Name("room_id", h.roomId), Name("room_name", h.roomName), Name("disconnect_user", h.disconnectUser),
      Plain("disconnect_countdown", Decimal(h.countdown))], ",")
  {
    ObjectWords(HeaderFields(h, a), [
      Plain("game_over", Truth(a.gameOver)), Plain("white_score", Decimal(a.whiteScore)),
      Plain("black_score", Decimal(a.blackScore)), Name("white_user", h.whiteUser),
      Plain("white_elo", Decimal(h.whiteElo)), Name("black_user", h.blackUser), Plain("black_elo", Decimal(h.blackElo)),
      Name("room_id", h.roomId), Name("room_name", h.roomName), Name("disconnect_user", h.disconnectUser),
      Plain("disconnect_countdown", Decimal(h.countdown))]);
  }

  lemma JoinFive(a: string, b: string, c: string, d: string, e: string)
    ensures Joined([a, b, c, d, e], ",") == a + "," + b + "," + c + "," + d + "," + e
  {
    assert [a, b, c, d, e][1..] == [b, c, d, e] && [b, c, d, e][1..] == [c, d, e];
    assert [c, d, e][1..] == [d, e] && [d, e][1..] == [e];
    assert Joined([d, e], ",") == d + "," + e;
    assert Joined([c, d, e], ",") == c + "," + (d + "," + e);
    assert Joined([b, c, d, e], ",") == b + "," + (c + "," + (d + "," + e));
  }

  /** The whole message of a room. */
  lemma RoomWords(h: Header, sounds: seq<string>, w: World, played: seq<string>)
    requires |played| == |sounds| && forall i :: 0 <= i < |sounds| ==> played[i] == "\"" + sounds[i] + "\""
    ensures RoomText(h, sounds, w) == "{" + Joined([
      FieldsText(HeaderFields(h, w.arena), WIRE),
      "\"sounds\":[" + Joined(played, ",") + "]",
      "\"pieces\":[" + Joined(PieceTexts(Entries(w.arena, Serialised(w))), ",") + "]",
      "\"motions\":[" + Joined(MotionTexts(w.motions), ",") + "]",
      "\"jumps\":[" + Joined(JumpTexts(w.jumps), ",") + "]"], ",") + "}"
  {
    assert SoundTexts(sounds) == played;
    MessageWords(FieldsText(HeaderFields(h, w.arena), WIRE), Join(played),
                 Join(PieceTexts(Entries(w.arena, Serialised(w)))), Join(MotionTexts(w.motions)),
                 Join(JumpTexts(w.jumps)));
  }

  lemma MessageWords(header: string, sounds: string, pieces: string, motions: string, jumps: string)
    ensures Message(header, sounds, pieces, motions, jumps) == "{" + Joined([
      header, "\"sounds\":[" + sounds + "]", "\"pieces\":[" + pieces + "]",
      "\"motions\":[" + motions + "]", "\"jumps\":[" + jumps + "]"], ",") + "}"
  {
    ArrayWords("sounds", "\"sounds\":[", sounds);
    ArrayWords("pieces", "\"pieces\":[", pieces);
    ArrayWords("motions", "\"motions\":[", motions);
    ArrayWords("jumps", "\"jumps\":[", jumps);
    JoinFive(header, ArrayText("sounds", sounds), ArrayText("pieces", pieces), ArrayText("motions", motions),
             ArrayText("jumps", jumps));
    Brace(header, ArrayText("sounds", sounds), ArrayText("pieces", pieces), ArrayText("motions", motions),
          ArrayText("jumps", jumps));
  }

  lemma Brace(a: string, b: string, c: string, d: string, e: string)
    ensures "{" + a + "," + b + "," + c + "," + d + "," + e + "}"
         == "{" + (a + "," + b + "," + c + "," + d + "," + e) + "}"
  {
    BraceTwo(a, b);
    BraceTwo(a + "," + b, c);
    BraceTwo(a + "," + b + "," + c, d);
    BraceTwo(a + "," + b + "," + c + "," + d, e);
  }

  lemma BraceTwo(x: string, y: string)
    ensures "{" + (x + "," + y) == "{" + x + "," + y
  {
  }

  lemma ArrayWords(name: string, open: string, body: string)
    requires open == "\"" + name + "\":["
    ensures ArrayText(name, body) == open + body + "]"
  {
    assert "\"" + ":[" == "\":[";
    assert ArrayText(name, body) == "\"" + name + ("\"" + ":[") + body + "]";
  }

  // ---------- the file of users ----------

  function NameLine(k: string, v: string): string {
    "\"" + k + "\": \"" + v + "\""
  }

  function PlainLine(k: string, v: string): string {
    "\"" + k + "\": " + v
  }

  lemma LineWords(f: Field)
    ensures FieldText(f, TABLE) == if f.Word? then NameLine(f.key, f.value) else PlainLine(f.key, f.raw)
  {
  }

  lemma LinesWords(fs: seq<Field>, ts: seq<string>)
    requires |ts| == |fs|
    requires forall i :: 0 <= i < |fs| ==>
      ts[i] == if fs[i].Word? then NameLine(fs[i].key, fs[i].value) else PlainLine(fs[i].key, fs[i].raw)
    ensures FieldsText(fs, TABLE) == Joined(ts, ",\n    ")
  {
    FieldsJoined(fs, TABLE);
    forall i | 0 <= i < |fs| ensures Parts(fs, TABLE)[i] == ts[i] { LineWords(fs[i]); }
    assert Parts(fs, TABLE) == ts;
  }

  /** One user of the file. */
  lemma UserWords(u: User)
    ensures UserText(u) == "  {\n    " + Joined([
      NameLine("username", u.username), NameLine("password", u.password), PlainLine("elo", Decimal(u.elo)),
      PlainLine("wins", Decimal(u.wins)), PlainLine("losses", Decimal(u.losses))], ",\n    ") + "\n  }"
  {
    LinesWords(UserFields(u), [
      NameLine("username", u.username), NameLine("password", u.password), PlainLine("elo", Decimal(u.elo)),
      PlainLine("wins", Decimal(u.wins)), PlainLine("losses", Decimal(u.losses))]);
  }

  /** The whole file. */
  lemma FileWords(us: seq<User>, ts: seq<string>)
    requires |ts| == |us| && forall i :: 0 <= i < |us| ==> ts[i] == UserText(us[i])
    ensures FileText(us) == "[\n" + Joined(ts, ",\n") + "\n]\n"
  {
    assert UserTexts(us) == ts;
  }
}
