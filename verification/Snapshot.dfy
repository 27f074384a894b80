/** The snapshot of a room: the server's printing loops and the client's reading loops. */
module Snapshot {
  import opened Chess
  import opened Extract
  import opened Fields
  import opened FlightRecords
  import opened Game
  import opened Listing
  import opened PieceRecords
  import opened Records
  import opened Text
  import opened Wrappers

  // ---------- printing ----------

  /** What the server knows of a room besides its game. */
  datatype Header = Header(whiteUser: string, whiteElo: int, blackUser: string, blackElo: int,
                           roomId: string, roomName: string, disconnectUser: string, countdown: int)

  function HeaderFields(h: Header, a: Arena): seq<Field> {
    [Bare("game_over", Flag(a.gameOver)), Bare("white_score", Decimal(a.whiteScore)),
     Bare("black_score", Decimal(a.blackScore)),
     Word("white_user", h.whiteUser), Bare("white_elo", Decimal(h.whiteElo)),
     Word("black_user", h.blackUser), Bare("black_elo", Decimal(h.blackElo)),
     Word("room_id", h.roomId), Word("room_name", h.roomName),
     Word("disconnect_user", h.disconnectUser), Bare("disconnect_countdown", Decimal(h.countdown))]
  }

  /** The first cooldown of `p` is the one the getters of the arbiter report. */
  function FirstCooldown(cooldowns: seq<Cooldown>, p: Id): Option<Cooldown> {
    if cooldowns == [] then None
    else if cooldowns[0].piece == p then Some(cooldowns[0])
    else FirstCooldown(cooldowns[1..], p)
  }

  lemma {:induction false} FirstCooldownIs(cooldowns: seq<Cooldown>, p: Id)
    ensures match FirstCooldown(cooldowns, p)
            case None => forall c :: c in cooldowns ==> c.piece != p
            case Some(c) =>
              exists i :: 0 <= i < |cooldowns| && cooldowns[i] == c && c.piece == p
                          && forall k :: 0 <= k < i ==> cooldowns[k].piece != p
  {
    if cooldowns != [] && cooldowns[0].piece != p {
      var rest := cooldowns[1..];
      FirstCooldownIs(rest, p);
      assert forall i :: 0 < i < |cooldowns| ==> cooldowns[i] == rest[i - 1];
      if FirstCooldown(rest, p).Some? {
        var i :| 0 <= i < |rest| && rest[i] == FirstCooldown(rest, p).value
                 && forall k :: 0 <= k < i ==> rest[k].piece != p;
        assert cooldowns[i + 1] == rest[i];
      }
    }
  }

  function EntryOf(a: Arena, p: Id, pos: Position): Entry
    requires p in a.pieces
  {
    var b, c := a.pieces[p], FirstCooldown(a.cooldowns, p);
    Entry(p, KindCode(b.kind), ColorCode(b.color), pos.row, pos.col, StatusCode(b.status), c.Some?,
          if c.Some? then c.value.remaining else 0, if c.Some? then c.value.total else 0,
          c.Some? && c.value.longRest)
  }

  function Entries(a: Arena, lines: Lines): (es: seq<Entry>)
    requires Real(a, lines)
    ensures |es| == |lines| && forall i :: 0 <= i < |lines| ==>
      lines[i].0 in a.pieces && es[i] == EntryOf(a, lines[i].0, lines[i].1)
  {
    if lines == [] then []
    else
      assert lines[0] in lines && forall x :: x in lines[1..] ==> x in lines;
      [EntryOf(a, lines[0].0, lines[0].1)] + Entries(a, lines[1..])
  }

  function PieceTexts(es: seq<Entry>): (r: seq<string>)
    ensures |r| == |es| && forall i :: 0 <= i < |es| ==> r[i] == PieceText(es[i])
  {
    seq(|es|, i requires 0 <= i < |es| => PieceText(es[i]))
  }

  function MotionTexts(ms: seq<Motion>): (r: seq<string>)
    ensures |r| == |ms| && forall i :: 0 <= i < |ms| ==> r[i] == MotionText(ms[i])
  {
    seq(|ms|, i requires 0 <= i < |ms| => MotionText(ms[i]))
  }

  function JumpTexts(js: seq<Jump>): (r: seq<string>)
    ensures |r| == |js| && forall i :: 0 <= i < |js| ==> r[i] == JumpText(js[i])
  {
    seq(|js|, i requires 0 <= i < |js| => JumpText(js[i]))
  }

  function SoundTexts(sounds: seq<string>): (r: seq<string>)
    ensures |r| == |sounds| && forall i :: 0 <= i < |sounds| ==> r[i] == Quoted(sounds[i])
  {
    seq(|sounds|, i requires 0 <= i < |sounds| => Quoted(sounds[i]))
  }

  function ArrayText(name: string, body: string): string {
    Quoted(name) + ":[" + body + "]"
  }

  /** The message for a room whose arrays have these bodies. */
  function Message(header: string, sounds: string, pieces: string, motions: string, jumps: string): string {
    "{" + header + "," + ArrayText("sounds", sounds) + "," + ArrayText("pieces", pieces) + ","
    + ArrayText("motions", motions) + "," + ArrayText("jumps", jumps) + "}"
  }

  /** Every piece that a motion or a jump names exists; otherwise printing it would follow a null pointer. */
  predicate Concrete(w: World) {
    && (forall m :: m in w.motions ==> m.piece in w.arena.pieces)
    && (forall j :: j in w.jumps ==> j.piece in w.arena.pieces)
  }

  function RoomText(h: Header, sounds: seq<string>, w: World): string {
    Message(FieldsText(HeaderFields(h, w.arena), WIRE), Join(SoundTexts(sounds)),
            Join(PieceTexts(Entries(w.arena, Serialised(w)))), Join(MotionTexts(w.motions)), Join(JumpTexts(w.jumps)))
  }

  /** Each array is printed by a loop that puts a comma before every element but the first. */
  method PrintPieces(a: Arena, lines: Lines) returns (text: string)
    requires Real(a, lines)
    ensures text == Join(PieceTexts(Entries(a, lines)))
  {
    ghost var ts := PieceTexts(Entries(a, lines));
    text := "";
    for i := 0 to |lines|
      invariant text == Join(ts[..i])
    {
      JoinedSnoc(ts, ",", i);
      if i > 0 {
        text := text + ",";
      }
      assert lines[i] in lines;
      text := text + PieceText(EntryOf(a, lines[i].0, lines[i].1));
    }
    assert ts[..|lines|] == ts;
  }

  method PrintMotions(motions: seq<Motion>) returns (text: string)
    ensures text == Join(MotionTexts(motions))
  {
    ghost var ts := MotionTexts(motions);
    text := "";
    for i := 0 to |motions|
      invariant text == Join(ts[..i])
    {
      JoinedSnoc(ts, ",", i);
      if i > 0 {
        text := text + ",";
      }
      text := text + MotionText(motions[i]);
    }
    assert ts[..|motions|] == ts;
  }

  method PrintJumps(jumps: seq<Jump>) returns (text: string)
    ensures text == Join(JumpTexts(jumps))
  {
    ghost var ts := JumpTexts(jumps);
    text := "";
    for i := 0 to |jumps|
      invariant text == Join(ts[..i])
    {
      JoinedSnoc(ts, ",", i);
      if i > 0 {
        text := text + ",";
      }
      text := text + JumpText(jumps[i]);
    }
    assert ts[..|jumps|] == ts;
  }

  method PrintSounds(sounds: seq<string>) returns (text: string)
    ensures text == Join(SoundTexts(sounds))
  {
    ghost var ts := SoundTexts(sounds);
    text := "";
    for i := 0 to |sounds|
      invariant text == if 0 < i < |sounds| then Join(ts[..i]) + "," else Join(ts[..i])
    {
      JoinedSnoc(ts, ",", i);
      text := text + Quoted(sounds[i]);
      if i + 1 < |sounds| {
        text := text + ",";
      }
    }
    assert ts[..|sounds|] == ts;
  }

  method SerializeRoomState(h: Header, sounds: seq<string>, w: World) returns (text: string)
    requires Concrete(w)
    ensures text == RoomText(h, sounds, w)
  {
    var lines := ListPieces(w);
    text := "{" + FieldsText(HeaderFields(h, w.arena), WIRE) + ",";
    var part := PrintSounds(sounds);
    text := text + ArrayText("sounds", part) + ",";
    part := PrintPieces(w.arena, lines);
    text := text + ArrayText("pieces", part) + ",";
    part := PrintMotions(w.motions);
    text := text + ArrayText("motions", part) + ",";
    part := PrintJumps(w.jumps);
    text := text + ArrayText("jumps", part) + "}";
  }

  // ---------- reading ----------

  /** What `parse_pieces` fills: the pieces by id, and the cooldowns. */
  type Tokens = map<string, Token>

  /** All pieces in turn; nothing as soon as one cannot be read. */
  function AddPieces(objs: seq<string>, read: string -> Option<Parsed>, tokens: Tokens, rests: seq<Cooldown>)
    : Option<(Tokens, seq<Cooldown>)>
    decreases |objs|
  {
    if objs == [] then Some((tokens, rests))
    else
      var p :- read(objs[0]);
      AddPieces(objs[1..], read, tokens[p.id := p.token], if p.rest.Some? then rests + [p.rest.value] else rests)
  }

  /** All motions or all jumps in turn, without those that are dropped. */
  function Collect<T>(objs: seq<string>, read: string -> Option<Option<T>>, got: seq<T>): Option<seq<T>>
    decreases |objs|
  {
    if objs == [] then Some(got)
    else
      var x :- read(objs[0]);
      Collect(objs[1..], read, if x.Some? then got + [x.value] else got)
  }

  function MotionReader(known: set<string>): string -> Option<Option<Motion>> {
    obj => ReadMotion(obj, known)
  }

  function JumpReader(known: set<string>): string -> Option<Option<Jump>> {
    obj => ReadJump(obj, known)
  }

  function PiecesIn(json: string): Option<(Tokens, seq<Cooldown>)> {
    AddPieces(SectionObjects(json, PIECES_OPEN, PIECES_CLOSE), ReadPiece, map[], [])
  }

  function MotionsIn(json: string, known: set<string>): Option<seq<Motion>> {
    Collect(SectionObjects(json, MOTIONS_OPEN, MOTIONS_CLOSE), MotionReader(known), [])
  }

  function JumpsIn(json: string, known: set<string>): Option<seq<Jump>> {
    Collect(SectionObjects(json, JUMPS_OPEN, JUMPS_CLOSE), JumpReader(known), [])
  }

  const PIECES_OPEN := "\"pieces\":["
  const PIECES_CLOSE := "],\"motions\":"
  const MOTIONS_OPEN := "\"motions\":["
  const MOTIONS_CLOSE := "],\"jumps\":"
  const JUMPS_OPEN := "\"jumps\":["
  const JUMPS_CLOSE := "]"

  /** The records of a section; none if the section is missing. */
  function SectionObjects(json: string, open: string, close: string): seq<string> {
    var body := Section(json, open, close);
    if body.None? then [] else Objects(body.value, 0)
  }

  /** The next record from `pos` on, and the place after it. */
  method NextObject(s: string, pos: nat) returns (r: Option<(string, nat)>)
    requires pos <= |s|
    ensures r.None? ==> Objects(s, pos) == []
    ensures r.Some? ==> pos < r.value.1 <= |s| && Objects(s, pos) == [r.value.0] + Objects(s, r.value.1)
  {
    var start := FindFrom(s, "{", pos);
    if start.None? {
      ObjectsEnd(s, pos);
      return None;
    }
    var end := FindFrom(s, "}", start.value);
    if end.None? {
      ObjectsEnd(s, pos);
      return None;
    }
    var obj, after := s[start.value..end.value + 1], end.value + 1;
    ObjectsStep(s, pos, start.value, end.value, obj, after);
    return Some((obj, after));
  }

  method ParsePieces(json: string) returns (r: Option<(Tokens, seq<Cooldown>)>)
    ensures r == PiecesIn(json)
  {
    var section := Section(json, PIECES_OPEN, PIECES_CLOSE);
    if section.None? {
      return Some((map[], []));
    }
    r := ReadPieces(section.value);
  }

  method ReadPieces(s: string) returns (r: Option<(Tokens, seq<Cooldown>)>)
    ensures r == AddPieces(Objects(s, 0), ReadPiece, map[], [])
  {
    var tokens: Tokens, rests: seq<Cooldown> := map[], [];
    var pos := 0;
    while true
      invariant pos <= |s|
      invariant AddPieces(Objects(s, pos), ReadPiece, tokens, rests) == AddPieces(Objects(s, 0), ReadPiece, map[], [])
      decreases |s| - pos
    {
      var next := NextObject(s, pos);
      if next.None? {
        return Some((tokens, rests));
      }
      AddPiecesCons(next.value.0, Objects(s, next.value.1), ReadPiece, tokens, rests);
      var p :- ReadPiece(next.value.0);
      tokens := tokens[p.id := p.token];
      if p.rest.Some? {
        rests := rests + [p.rest.value];
      }
      pos := next.value.1;
    }
  }

  lemma AddPiecesCons(obj: string, objs: seq<string>, read: string -> Option<Parsed>, tokens: Tokens,
                      rests: seq<Cooldown>)
    ensures AddPieces([obj] + objs, read, tokens, rests) ==
      match read(obj)
      case None => None
      case Some(p) =>
        AddPieces(objs, read, tokens[p.id := p.token], if p.rest.Some? then rests + [p.rest.value] else rests)
  {
    assert ([obj] + objs)[1..] == objs;
  }

  lemma CollectCons<T>(obj: string, objs: seq<string>, read: string -> Option<Option<T>>, got: seq<T>)
    ensures Collect([obj] + objs, read, got) ==
      match read(obj)
      case None => None
      case Some(x) => Collect(objs, read, if x.Some? then got + [x.value] else got)
  {
    assert ([obj] + objs)[1..] == objs;
  }

  method ParseMotions(json: string, tokens: Tokens) returns (r: Option<seq<Motion>>)
    ensures r == MotionsIn(json, tokens.Keys)
  {
    var section := Section(json, MOTIONS_OPEN, MOTIONS_CLOSE);
    if section.None? {
      return Some([]);
    }
    r := ReadMotions(section.value, tokens.Keys);
  }

  method ReadMotions(s: string, known: set<string>) returns (r: Option<seq<Motion>>)
    ensures r == Collect(Objects(s, 0), MotionReader(known), [])
  {
    var motions: seq<Motion> := [];
    var pos := 0;
    while true
      invariant pos <= |s|
      invariant Collect(Objects(s, pos), MotionReader(known), motions)
             == Collect(Objects(s, 0), MotionReader(known), [])
      decreases |s| - pos
    {
      var next := NextObject(s, pos);
      if next.None? {
        return Some(motions);
      }
      CollectCons(next.value.0, Objects(s, next.value.1), MotionReader(known), motions);
      var m :- ReadMotion(next.value.0, known);
      if m.Some? {
        motions := motions + [m.value];
      }
      pos := next.value.1;
    }
  }

  method ParseJumps(json: string, tokens: Tokens) returns (r: Option<seq<Jump>>)
    ensures r == JumpsIn(json, tokens.Keys)
  {
    var section := Section(json, JUMPS_OPEN, JUMPS_CLOSE);
    if section.None? {
      return Some([]);
    }
    r := ReadJumps(section.value, tokens.Keys);
  }

  method ReadJumps(s: string, known: set<string>) returns (r: Option<seq<Jump>>)
    ensures r == Collect(Objects(s, 0), JumpReader(known), [])
  {
    var jumps: seq<Jump> := [];
    var pos := 0;
    while true
      invariant pos <= |s|
      invariant Collect(Objects(s, pos), JumpReader(known), jumps) == Collect(Objects(s, 0), JumpReader(known), [])
      decreases |s| - pos
    {
      var next := NextObject(s, pos);
      if next.None? {
        return Some(jumps);
      }
      CollectCons(next.value.0, Objects(s, next.value.1), JumpReader(known), jumps);
      var j :- ReadJump(next.value.0, known);
      if j.Some? {
        jumps := jumps + [j.value];
      }
      pos := next.value.1;
    }
  }
}
