/**
 What the client makes of the snapshot of any room.  The arrays of the message are found by their names and brackets
 and cut into their records, and what each record is taken for is collected.
 */
module RoomRoundTrip {
  import opened Chess
  import opened Extract
  import opened Fields
  import opened FlightRecords
  import opened Game
  import opened Listing
  import opened Marks
  import opened PieceRecords
  import opened Records
  import opened Snapshot
  import opened Text
  import opened Wrappers

  // ---------- finding the arrays ----------

  const ARRAYS := {"pieces", "motions", "jumps"}

  predicate Sought(m: Mark) {
    m.name in ARRAYS
  }

  lemma SoughtIsName(m: Mark)
    requires Sought(m)
    ensures IsName(m.name)
  {
  }

  lemma Marked()
    ensures PIECES_OPEN == MarkText(Opening("pieces")) && PIECES_CLOSE == MarkText(Closing("motions"))
    ensures MOTIONS_OPEN == MarkText(Opening("motions")) && MOTIONS_CLOSE == MarkText(Closing("jumps"))
    ensures JUMPS_OPEN == MarkText(Opening("jumps"))
  {
  }

  /** The opening of an array is passed over with its name, and the array with its body. */
  lemma PassArray(name: string, body: string, m: Mark)
    requires m.Opening? && Sought(m) && '"' !in name && ']' !in name && name != m.name
    requires Passes(body + "]", MarkText(m))
    ensures Passes(ArrayText(name, body), MarkText(m))
  {
    var p := MarkText(m);
    SoughtIsName(m);
    PassKey(name, m);
    PassPlain("[", p);
    PassBoth("[", body + "]", p);
    PassBoth(Quoted(name) + ":", "[" + (body + "]"), p);
    assert ArrayText(name, body) == Quoted(name) + ":" + ("[" + (body + "]"));
  }

  /** What stands before the arrays, one by one. */
  function BeforePieces(header: string, sounds: string): string {
    "{" + header + "," + ArrayText("sounds", sounds) + ","
  }

  function BeforeMotions(header: string, sounds: string, pieces: string): string {
    BeforePieces(header, sounds) + ArrayText("pieces", pieces) + ","
  }

  function BeforeJumps(header: string, sounds: string, pieces: string, motions: string): string {
    BeforeMotions(header, sounds, pieces) + ArrayText("motions", motions) + ","
  }

  /** The marks around the body of an array. */
  lemma Unroll(before: string, name: string, body: string, next: string, rest: string)
    ensures before + ArrayText(name, body) + "," + (MarkText(Opening(next)) + rest)
         == before + (MarkText(Opening(name)) + (body + (MarkText(Closing(next)) + ("[" + rest))))
  {
    Ending(body, next, rest);
    var tail := "]" + ("," + (MarkText(Opening(next)) + rest));
    assert before + ArrayText(name, body) + "," + (MarkText(Opening(next)) + rest)
        == before + (MarkText(Opening(name)) + (body + tail));
  }

  lemma Ending(body: string, next: string, rest: string)
    ensures "]" + ("," + (MarkText(Opening(next)) + rest)) == MarkText(Closing(next)) + ("[" + rest)
  {
  }

  lemma UnrollPieces(header: string, sounds: string, pieces: string, motions: string, jumps: string, rest: string)
    requires rest == "[" + (motions + ("]," + ArrayText("jumps", jumps) + "}"))
    ensures Message(header, sounds, pieces, motions, jumps)
         == BeforePieces(header, sounds) + (PIECES_OPEN + (pieces + (PIECES_CLOSE + rest)))
  {
    Marked();
    var more := motions + ("]," + ArrayText("jumps", jumps) + "}");
    Unroll(BeforePieces(header, sounds), "pieces", pieces, "motions", more);
    Spread(BeforeMotions(header, sounds, pieces), "motions", motions, ArrayText("jumps", jumps));
  }

  lemma Spread(before: string, name: string, body: string, last: string)
    ensures before + ArrayText(name, body) + "," + last + "}"
         == before + (MarkText(Opening(name)) + (body + ("]," + last + "}")))
  {
  }

  lemma UnrollMotions(header: string, sounds: string, pieces: string, motions: string, jumps: string)
    ensures Message(header, sounds, pieces, motions, jumps)
         == BeforeMotions(header, sounds, pieces)
            + (MOTIONS_OPEN + (motions + (MOTIONS_CLOSE + ("[" + (jumps + "]}")))))
  {
    Marked();
    Unroll(BeforeMotions(header, sounds, pieces), "motions", motions, "jumps", jumps + "]}");
    LastSpread(BeforeJumps(header, sounds, pieces, motions), "jumps", jumps);
  }

  lemma LastSpread(before: string, name: string, body: string)
    ensures before + ArrayText(name, body) + "}" == before + (MarkText(Opening(name)) + (body + "]}"))
  {
  }

  lemma UnrollJumps(header: string, sounds: string, pieces: string, motions: string, jumps: string)
    ensures Message(header, sounds, pieces, motions, jumps)
         == BeforeJumps(header, sounds, pieces, motions) + (JUMPS_OPEN + (jumps + (JUMPS_CLOSE + "}")))
  {
    Marked();
    LastSpread(BeforeJumps(header, sounds, pieces, motions), "jumps", jumps);
    assert JUMPS_CLOSE + "}" == "]}";
  }

  /** No sought mark is met in a text. */
  ghost predicate Markless(t: string) {
    forall m :: Sought(m) ==> Passes(t, MarkText(m))
  }

  /** No sought mark is met in the header with the sounds, and none in the bodies of pieces and motions. */
  ghost predicate Hidden(header: string, sounds: string, pieces: string, motions: string) {
    && Markless(pieces) && Markless(motions)
    && forall m :: Sought(m) && m.Opening? ==> Passes(header + ",", MarkText(m)) && Passes(sounds + "]", MarkText(m))
  }

  lemma PassBefore(header: string, sounds: string, pieces: string, motions: string, m: Mark)
    requires Hidden(header, sounds, pieces, motions) && Sought(m) && m.Opening?
    ensures Passes(BeforePieces(header, sounds), MarkText(m))
  {
    var p := MarkText(m);
    PassPlain("{", p);
    PassPlain(",", p);
    PassArray("sounds", sounds, m);
    PassBoth("{", header + ",", p);
    Associate("{", header, ",");
    PassBoth("{" + header + ",", ArrayText("sounds", sounds), p);
    PassBoth("{" + header + "," + ArrayText("sounds", sounds), ",", p);
  }

  lemma PassOneMore(before: string, name: string, body: string, m: Mark)
    requires m.Opening? && Sought(m) && '"' !in name && ']' !in name && name != m.name
    requires Passes(before, MarkText(m)) && Passes(body, MarkText(m))
    ensures Passes(before + ArrayText(name, body) + ",", MarkText(m))
  {
    var p := MarkText(m);
    PassPlain(",", p);
    PassPlain("]", p);
    PassBoth(body, "]", p);
    PassArray(name, body, m);
    PassBoth(before, ArrayText(name, body), p);
    PassBoth(before + ArrayText(name, body), ",", p);
  }

  lemma PassPieces(header: string, sounds: string, pieces: string, motions: string, m: Mark)
    requires Hidden(header, sounds, pieces, motions) && Sought(m) && m.Opening? && m.name != "pieces"
    ensures Passes(BeforeMotions(header, sounds, pieces), MarkText(m))
  {
    PassBefore(header, sounds, pieces, motions, m);
    PassOneMore(BeforePieces(header, sounds), "pieces", pieces, m);
  }

  /** The opening of an array holds no closing mark. */
  lemma PassOpen(open: string, body: string, close: string)
    requires close != "" && close[0] == ']' && ']' !in open && Passes(body, close)
    ensures Passes(open + body, close)
  {
    PassPlain(open, close);
    PassBoth(open, body, close);
  }

  lemma PiecesFound(message: string, header: string, sounds: string, pieces: string, motions: string, jumps: string)
    requires message == Message(header, sounds, pieces, motions, jumps) && Hidden(header, sounds, pieces, motions)
    ensures Section(message, PIECES_OPEN, PIECES_CLOSE) == Some(pieces)
  {
    Marked();
    var rest := "[" + (motions + ("]," + ArrayText("jumps", jumps) + "}"));
    UnrollPieces(header, sounds, pieces, motions, jumps, rest);
    PassBefore(header, sounds, pieces, motions, Opening("pieces"));
    assert Sought(Closing("motions"));
    PassOpen(PIECES_OPEN, pieces, PIECES_CLOSE);
    SectionIs(message, BeforePieces(header, sounds), PIECES_OPEN, pieces, PIECES_CLOSE, rest);
  }

  lemma MotionsFound(message: string, header: string, sounds: string, pieces: string, motions: string, jumps: string)
    requires message == Message(header, sounds, pieces, motions, jumps) && Hidden(header, sounds, pieces, motions)
    ensures Section(message, MOTIONS_OPEN, MOTIONS_CLOSE) == Some(motions)
  {
    Marked();
    UnrollMotions(header, sounds, pieces, motions, jumps);
    PassPieces(header, sounds, pieces, motions, Opening("motions"));
    assert Sought(Closing("jumps"));
    PassOpen(MOTIONS_OPEN, motions, MOTIONS_CLOSE);
    SectionIs(message, BeforeMotions(header, sounds, pieces), MOTIONS_OPEN, motions, MOTIONS_CLOSE,
              "[" + (jumps + "]}"));
  }

  /** The last array is taken to end at the first closing bracket. */
  lemma JumpsFound(message: string, header: string, sounds: string, pieces: string, motions: string, jumps: string)
    requires message == Message(header, sounds, pieces, motions, jumps) && Hidden(header, sounds, pieces, motions)
    requires ']' !in jumps
    ensures Section(message, JUMPS_OPEN, JUMPS_CLOSE) == Some(jumps)
  {
    Marked();
    UnrollJumps(header, sounds, pieces, motions, jumps);
    PassPieces(header, sounds, pieces, motions, Opening("jumps"));
    PassOneMore(BeforeMotions(header, sounds, pieces), "motions", motions, Opening("jumps"));
    PassPlain(jumps, JUMPS_CLOSE);
    PassOpen(JUMPS_OPEN, jumps, JUMPS_CLOSE);
    SectionIs(message, BeforeJumps(header, sounds, pieces, motions), JUMPS_OPEN, jumps, JUMPS_CLOSE, "}");
  }

  // ---------- the bodies of the arrays ----------

  /** The body is cut into the records it was joined from exactly when each of them ends at its first closing brace. */
  lemma RecordsExactly(ts: seq<string>)
    ensures Objects(Join(ts), 0) == ts <==> forall t :: t in ts ==> IsObject(t)
  {
    forall t | t in Objects(Join(ts), 0) ensures IsObject(t) { ObjectsAre(Join(ts), 0, t); }
    if forall t :: t in ts ==> IsObject(t) {
      assert Join(ts) == "" + "" + Join(ts);
      ObjectsJoin(Join(ts), "", "", ts);
    }
  }

  lemma BodyMarkless(ts: seq<string>)
    requires forall t :: t in ts ==> Markless(t)
    ensures Markless(Join(ts))
  {
    forall m | Sought(m) ensures Passes(Join(ts), MarkText(m)) {
      forall t | t in ts ensures Passes(t, MarkText(m)) { assert Markless(t); }
      PassPlain(",", MarkText(m));
      PassJoined(ts, MarkText(m));
    }
  }

  lemma RecordMarkless(fs: seq<Field>, keys: seq<string>)
    requires Regular(fs) && |fs| == |keys|
    requires forall n :: 0 <= n < |fs| ==> fs[n].key == keys[n] && keys[n] !in ARRAYS
    ensures Markless(ObjectText(fs))
  {
    forall m | Sought(m) ensures Passes(ObjectText(fs), MarkText(m)) { RecordPasses(fs, keys, m); }
  }

  lemma RecordPasses(fs: seq<Field>, keys: seq<string>, m: Mark)
    requires Regular(fs) && |fs| == |keys| && Sought(m)
    requires forall n :: 0 <= n < |fs| ==> fs[n].key == keys[n] && keys[n] !in ARRAYS
    ensures Passes(ObjectText(fs), MarkText(m))
  {
    SoughtIsName(m);
    forall f | f in fs ensures Harmless(f, m) {
      var n :| 0 <= n < |fs| && fs[n] == f;
      assert Proper(f);
      NameClean(f.key);
    }
    PassObject(fs, m);
  }

  lemma NoArrayIsAKey()
    ensures forall n :: 0 <= n < |PIECE_KEYS| ==> PIECE_KEYS[n] !in ARRAYS
    ensures forall n :: 0 <= n < |MOTION_KEYS| ==> MOTION_KEYS[n] !in ARRAYS
  {
  }

  predicate AllPrintable(es: seq<Entry>) {
    forall e :: e in es ==> Printable(e)
  }

  lemma PieceTextsRecords(es: seq<Entry>)
    requires AllPrintable(es)
    ensures Markless(Join(PieceTexts(es)))
    ensures Objects(Join(PieceTexts(es)), 0) == PieceTexts(es) <==> forall e :: e in es ==> '}' !in e.id
  {
    var ts := PieceTexts(es);
    forall i | 0 <= i < |es|
      ensures ts[i] in ts && es[i] in es && Markless(ts[i]) && (IsObject(ts[i]) <==> '}' !in es[i].id)
    {
      assert es[i] in es;
      PieceMarkless(es[i]);
    }
    BodyMarkless(ts);
    RecordsExactly(ts);
  }

  lemma PieceMarkless(e: Entry)
    requires Printable(e)
    ensures Markless(PieceText(e)) && (IsObject(PieceText(e)) <==> '}' !in e.id)
  {
    var fs := PieceFields(e);
    NoArrayIsAKey();
    PieceRegular(e);
    forall n | 0 <= n < |fs| ensures fs[n].key == PIECE_KEYS[n] { PieceKey(e, n); }
    RecordMarkless(fs, PIECE_KEYS);
    RecordIsObject(fs);
    assert fs[0] in fs;
  }

  /** No closing brace in the ids that a motion is printed with. */
  predicate WholeMotion(m: Motion) {
    '}' !in m.piece && '}' !in VictimWord(m)
  }

  lemma MotionTextsRecords(ms: seq<Motion>)
    requires forall m :: m in ms ==> PrintableMotion(m)
    ensures Markless(Join(MotionTexts(ms)))
    ensures Objects(Join(MotionTexts(ms)), 0) == MotionTexts(ms) <==> forall m :: m in ms ==> WholeMotion(m)
  {
    var ts := MotionTexts(ms);
    forall i | 0 <= i < |ms|
      ensures ts[i] in ts && ms[i] in ms && Markless(ts[i]) && (IsObject(ts[i]) <==> WholeMotion(ms[i]))
    {
      assert ms[i] in ms;
      MotionMarkless(ms[i]);
    }
    BodyMarkless(ts);
    RecordsExactly(ts);
  }

  lemma MotionMarkless(m: Motion)
    requires PrintableMotion(m)
    ensures Markless(MotionText(m)) && (IsObject(MotionText(m)) <==> WholeMotion(m))
  {
    var fs := MotionFields(m);
    NoArrayIsAKey();
    MotionRegular(m);
    forall n | 0 <= n < |fs| ensures fs[n].key == MOTION_KEYS[n] { MotionKey(m, n); }
    RecordMarkless(fs, MOTION_KEYS);
    RecordIsObject(fs);
    assert fs[0] in fs && fs[7] in fs;
  }

  /** Nothing in the id of a jump that ends its record or the array of jumps. */
  predicate WholeJump(j: Jump) {
    '}' !in j.piece && ']' !in j.piece
  }

  lemma {:induction false} JoinWithout(ts: seq<string>, c: char)
    requires c != ',' && forall t :: t in ts ==> c !in t
    ensures c !in Join(ts)
  {
    if ts != [] {
      assert ts[0] in ts && forall t :: t in ts[1..] ==> t in ts;
      JoinWithout(ts[1..], c);
    }
  }

  lemma JumpTextsRecords(js: seq<Jump>)
    requires forall j :: j in js ==> PrintableJump(j) && WholeJump(j)
    ensures Objects(Join(JumpTexts(js)), 0) == JumpTexts(js) && ']' !in Join(JumpTexts(js))
  {
    var ts := JumpTexts(js);
    forall t | t in ts ensures IsObject(t) && ']' !in t {
      var i :| 0 <= i < |js| && t == ts[i];
      assert js[i] in js;
      JumpWhole(js[i]);
    }
    JoinWithout(ts, ']');
    RecordsExactly(ts);
  }

  lemma JumpWhole(j: Jump)
    requires PrintableJump(j)
    ensures IsObject(JumpText(j)) && ']' !in JumpText(j) <==> WholeJump(j)
  {
    var fs := JumpFields(j);
    JumpRegular(j);
    RecordIsObject(fs);
    assert fs[0] in fs && fs[0].value == j.piece;
    if ']' in j.piece {
      FieldsWith(fs, fs[0], WIRE, ']');
    } else {
      forall f | f in fs ensures ']' !in f.key && ']' !in (if f.Word? then f.value else f.raw) {
        var n :| 0 <= n < |fs| && fs[n] == f;
        assert Proper(fs[n]);
        NameClean(f.key);
      }
      FieldsWithout(fs, WIRE, ']');
    }
  }

  /** Whatever is read as the jumps ends its records at braces and has no closing bracket. */
  lemma OnlyWholeJumps(text: string, js: seq<Jump>)
    requires forall j :: j in js ==> PrintableJump(j)
    requires SectionObjects(text, JUMPS_OPEN, JUMPS_CLOSE) == JumpTexts(js)
    ensures forall j :: j in js ==> WholeJump(j)
  {
    var body := Section(text, JUMPS_OPEN, JUMPS_CLOSE);
    if body.Some? {
      SectionWithout(text, JUMPS_OPEN, ']');
      forall i | 0 <= i < |js| ensures js[i] in js && WholeJump(js[i]) {
        assert JumpTexts(js)[i] in Objects(body.value, 0);
        ObjectsAre(body.value, 0, JumpTexts(js)[i]);
        JumpWhole(js[i]);
      }
    } else {
      assert |JumpTexts(js)| == 0;
    }
  }

  // ---------- what is read ----------

  function Told(ps: seq<Parsed>, tokens: Tokens): Tokens
    decreases |ps|
  {
    if ps == [] then tokens else Told(ps[1..], tokens[ps[0].id := ps[0].token])
  }

  function Rests(ps: seq<Parsed>): seq<Cooldown> {
    if ps == [] then []
    else if ps[0].rest.Some? then [ps[0].rest.value] + Rests(ps[1..])
    else Rests(ps[1..])
  }

  function Somes<T>(xs: seq<Option<T>>): seq<T> {
    if xs == [] then []
    else if xs[0].Some? then [xs[0].value] + Somes(xs[1..])
    else Somes(xs[1..])
  }

  lemma {:induction false} AddAll(texts: seq<string>, read: string -> Option<Parsed>, ps: seq<Parsed>, tokens: Tokens,
                                  rests: seq<Cooldown>)
    requires |texts| == |ps| && forall i :: 0 <= i < |ps| ==> read(texts[i]) == Some(ps[i])
    ensures AddPieces(texts, read, tokens, rests) == Some((Told(ps, tokens), rests + Rests(ps)))
    decreases |ps|
  {
    if ps != [] {
      var p := ps[0];
      var next := if p.rest.Some? then rests + [p.rest.value] else rests;
      AddAll(texts[1..], read, ps[1..], tokens[p.id := p.token], next);
      assert next + Rests(ps[1..]) == rests + Rests(ps);
    } else {
      assert texts == [] && rests + [] == rests;
    }
  }

  lemma {:induction false} CollectAll<T>(texts: seq<string>, read: string -> Option<Option<T>>, xs: seq<Option<T>>,
                                         got: seq<T>)
    requires |texts| == |xs| && forall i :: 0 <= i < |xs| ==> read(texts[i]) == Some(xs[i])
    ensures Collect(texts, read, got) == Some(got + Somes(xs))
    decreases |xs|
  {
    if xs != [] {
      var next := if xs[0].Some? then got + [xs[0].value] else got;
      CollectAll(texts[1..], read, xs[1..], next);
      assert next + Somes(xs[1..]) == got + Somes(xs);
    } else {
      assert texts == [] && got + [] == got;
    }
  }

  lemma {:induction false} ToldKeys(ps: seq<Parsed>, tokens: Tokens, p: string)
    ensures p in Told(ps, tokens) <==> p in tokens || exists i :: 0 <= i < |ps| && ps[i].id == p
    ensures (forall i :: 0 <= i < |ps| ==> ps[i].id != p) && p in tokens ==>
      p in Told(ps, tokens) && Told(ps, tokens)[p] == tokens[p]
    decreases |ps|
  {
    if ps != [] {
      ToldKeys(ps[1..], tokens[ps[0].id := ps[0].token], p);
      assert forall i :: 0 <= i < |ps[1..]| ==> ps[1..][i] == ps[i + 1];
      if i :| 0 <= i < |ps| && ps[i].id == p {
        assert i == 0 || ps[1..][i - 1].id == p;
      }
    }
  }

  lemma {:induction false} ToldIs(ps: seq<Parsed>, tokens: Tokens, n: nat)
    requires n < |ps| && forall i, j :: 0 <= i < j < |ps| ==> ps[i].id != ps[j].id
    ensures ps[n].id in Told(ps, tokens) && Told(ps, tokens)[ps[n].id] == ps[n].token
    decreases |ps|
  {
    var next := tokens[ps[0].id := ps[0].token];
    assert forall i :: 0 <= i < |ps[1..]| ==> ps[1..][i] == ps[i + 1];
    if n == 0 {
      ToldKeys(ps[1..], next, ps[0].id);
    } else {
      ToldIs(ps[1..], next, n - 1);
    }
  }

  /** What the client takes the entries, the motions and the jumps for. */
  function SeenPieces(es: seq<Entry>): (ps: seq<Parsed>)
    ensures |ps| == |es| && forall i :: 0 <= i < |es| ==> ps[i] == Kept(Seen(es[i]))
  {
    seq(|es|, i requires 0 <= i < |es| => Kept(Seen(es[i])))
  }

  function SeenMotions(ms: seq<Motion>, known: set<string>): (xs: seq<Option<Motion>>)
    ensures |xs| == |ms|
    ensures forall i :: 0 <= i < |ms| ==>
      xs[i] == if ms[i].piece in known then Some(KnownVictim(SeenMotion(ms[i]), known)) else None
  {
    seq(|ms|, i requires 0 <= i < |ms| =>
      if ms[i].piece in known then Some(KnownVictim(SeenMotion(ms[i]), known)) else None)
  }

  function SeenJumps(js: seq<Jump>, known: set<string>): (xs: seq<Option<Jump>>)
    ensures |xs| == |js|
    ensures forall i :: 0 <= i < |js| ==> xs[i] == if js[i].piece in known then Some(SeenJump(js[i])) else None
  {
    seq(|js|, i requires 0 <= i < |js| => if js[i].piece in known then Some(SeenJump(js[i])) else None)
  }

  // ---------- the whole message ----------

  /** No quote in any of the names that the server puts before the arrays. */
  predicate CleanHeader(h: Header) {
    Clean(h.whiteUser) && Clean(h.blackUser) && Clean(h.roomId) && Clean(h.roomName) && Clean(h.disconnectUser)
  }

  predicate CleanSounds(sounds: seq<string>) {
    forall s :: s in sounds ==> Clean(s)
  }

  /** No name or id with a quote, and no number that an `int` does not hold. */
  predicate CleanRoom(h: Header, sounds: seq<string>, w: World) {
    && CleanHeader(h) && CleanSounds(sounds)
    && AllPrintable(Entries(w.arena, Serialised(w)))
    && (forall m :: m in w.motions ==> PrintableMotion(m))
    && (forall j :: j in w.jumps ==> PrintableJump(j))
  }

  /** A clean room in which no id ends a record, and none of a jump ends the array of jumps. */
  predicate PrintableRoom(h: Header, sounds: seq<string>, w: World) {
    && CleanRoom(h, sounds, w)
    && (forall x :: x in Serialised(w) ==> '}' !in x.0)
    && (forall m :: m in w.motions ==> WholeMotion(m))
    && (forall j :: j in w.jumps ==> WholeJump(j))
  }

  const HEADER_KEYS: seq<string> :=
    ["game_over", "white_score", "black_score", "white_user", "white_elo", "black_user", "black_elo",
     "room_id", "room_name", "disconnect_user", "disconnect_countdown"]

  lemma HeaderKey(h: Header, a: Arena, n: nat)
    requires n < 11
    ensures HeaderFields(h, a)[n].key == HEADER_KEYS[n]
  {
  }

  lemma HeaderKeyIsName(n: nat)
    requires n < 11
    ensures IsName(HEADER_KEYS[n])
  {
  }

  lemma NoArrayIsInTheHeader()
    ensures forall n :: 0 <= n < |HEADER_KEYS| ==> HEADER_KEYS[n] !in ARRAYS
  {
  }

  lemma HeaderValue(h: Header, a: Arena, n: nat)
    requires CleanHeader(h) && n < 11
    ensures var f := HeaderFields(h, a)[n]; if f.Word? then '"' !in f.value else '"' !in f.raw && ']' !in f.raw
  {
  }

  lemma HeaderPasses(h: Header, a: Arena, m: Mark)
    requires CleanHeader(h) && Sought(m)
    ensures Passes(FieldsText(HeaderFields(h, a), WIRE) + ",", MarkText(m))
  {
    var fs := HeaderFields(h, a);
    SoughtIsName(m);
    NoArrayIsInTheHeader();
    forall f | f in fs ensures Harmless(f, m) {
      var n :| 0 <= n < |fs| && fs[n] == f;
      HeaderKey(h, a, n);
      HeaderKeyIsName(n);
      NameClean(f.key);
      HeaderValue(h, a, n);
    }
    PassFieldsOf(fs, ',', m);
  }

  lemma SoundsPass(sounds: seq<string>, m: Mark)
    requires CleanSounds(sounds) && Sought(m) && m.Opening?
    ensures Passes(Join(SoundTexts(sounds)) + "]", MarkText(m))
  {
    var ts, p := SoundTexts(sounds), MarkText(m);
    SoughtIsName(m);
    forall t | t in ts ensures Passes(t + ",", p) && Passes(t + "]", p) {
      var i :| 0 <= i < |sounds| && t == ts[i];
      assert sounds[i] in sounds;
      PassWord(sounds[i], ',', m);
      PassWord(sounds[i], ']', m);
    }
    PassPlain("]", p);
    PassListed(ts, p);
  }

  /**
   Each array of the message is taken apart into the records it was put together from exactly when no id in it holds a
   closing brace, nor, in the last array, a closing bracket.
   */
  lemma RoomSections(h: Header, sounds: seq<string>, w: World)
    requires CleanRoom(h, sounds, w)
    ensures var text, es := RoomText(h, sounds, w), Entries(w.arena, Serialised(w));
      && (SectionObjects(text, PIECES_OPEN, PIECES_CLOSE) == PieceTexts(es) <==>
            forall x :: x in Serialised(w) ==> '}' !in x.0)
      && (SectionObjects(text, MOTIONS_OPEN, MOTIONS_CLOSE) == MotionTexts(w.motions) <==>
            forall m :: m in w.motions ==> WholeMotion(m))
      && (SectionObjects(text, JUMPS_OPEN, JUMPS_CLOSE) == JumpTexts(w.jumps) <==>
            forall j :: j in w.jumps ==> WholeJump(j))
  {
    var text, es := RoomText(h, sounds, w), Entries(w.arena, Serialised(w));
    var header, played := FieldsText(HeaderFields(h, w.arena), WIRE), Join(SoundTexts(sounds));
    var pieces, motions, jumps := Join(PieceTexts(es)), Join(MotionTexts(w.motions)), Join(JumpTexts(w.jumps));
    PieceTextsRecords(es);
    MotionTextsRecords(w.motions);
    NothingHidden(h, sounds, w.arena, pieces, motions);
    PiecesFound(text, header, played, pieces, motions, jumps);
    MotionsFound(text, header, played, pieces, motions, jumps);
    EntryIds(w.arena, Serialised(w));
    JumpSection(text, header, played, pieces, motions, w.jumps);
  }

  lemma NothingHidden(h: Header, sounds: seq<string>, a: Arena, pieces: string, motions: string)
    requires CleanHeader(h) && CleanSounds(sounds) && Markless(pieces) && Markless(motions)
    ensures Hidden(FieldsText(HeaderFields(h, a), WIRE), Join(SoundTexts(sounds)), pieces, motions)
  {
    var header, played := FieldsText(HeaderFields(h, a), WIRE), Join(SoundTexts(sounds));
    forall m | Sought(m) && m.Opening? ensures Passes(header + ",", MarkText(m)) && Passes(played + "]", MarkText(m)) {
      HeaderPasses(h, a, m);
      SoundsPass(sounds, m);
    }
  }

  lemma EntryIds(a: Arena, lines: Lines)
    requires Real(a, lines)
    ensures (forall e :: e in Entries(a, lines) ==> '}' !in e.id) <==> forall x :: x in lines ==> '}' !in x.0
  {
    var es := Entries(a, lines);
    assert forall i :: 0 <= i < |lines| ==> es[i].id == lines[i].0 && es[i] in es && lines[i] in lines;
  }

  lemma JumpSection(text: string, header: string, played: string, pieces: string, motions: string, js: seq<Jump>)
    requires text == Message(header, played, pieces, motions, Join(JumpTexts(js)))
    requires Hidden(header, played, pieces, motions) && forall j :: j in js ==> PrintableJump(j)
    ensures SectionObjects(text, JUMPS_OPEN, JUMPS_CLOSE) == JumpTexts(js) <==> forall j :: j in js ==> WholeJump(j)
  {
    if forall j :: j in js ==> WholeJump(j) {
      JumpTextsRecords(js);
      JumpsFound(text, header, played, pieces, motions, Join(JumpTexts(js)));
    } else if SectionObjects(text, JUMPS_OPEN, JUMPS_CLOSE) == JumpTexts(js) {
      OnlyWholeJumps(text, js);
    }
  }

  /** What the client reads, whatever the ids are. */
  lemma RoomAsSeen(h: Header, sounds: seq<string>, w: World, known: set<string>)
    requires PrintableRoom(h, sounds, w)
    ensures var text, ps := RoomText(h, sounds, w), SeenPieces(Entries(w.arena, Serialised(w)));
      && PiecesIn(text) == Some((Told(ps, map[]), Rests(ps)))
      && MotionsIn(text, known) == Some(Somes(SeenMotions(w.motions, known)))
      && JumpsIn(text, known) == Some(Somes(SeenJumps(w.jumps, known)))
  {
    RoomSections(h, sounds, w);
    PiecesAsSeen(Entries(w.arena, Serialised(w)));
    MotionsAsSeen(w.motions, known);
    JumpsAsSeen(w.jumps, known);
  }

  lemma PiecesAsSeen(es: seq<Entry>)
    requires AllPrintable(es)
    ensures AddPieces(PieceTexts(es), ReadPiece, map[], [])
         == Some((Told(SeenPieces(es), map[]), Rests(SeenPieces(es))))
  {
    var texts, ps := PieceTexts(es), SeenPieces(es);
    forall i | 0 <= i < |es| ensures ReadPiece(texts[i]) == Some(ps[i]) {
      assert es[i] in es;
      ReadPrinted(es[i]);
    }
    AddAll(texts, ReadPiece, ps, map[], []);
    assert [] + Rests(ps) == Rests(ps);
  }

  lemma MotionsAsSeen(ms: seq<Motion>, known: set<string>)
    requires forall m :: m in ms ==> PrintableMotion(m)
    ensures Collect(MotionTexts(ms), MotionReader(known), []) == Some(Somes(SeenMotions(ms, known)))
  {
    var texts, read, xs := MotionTexts(ms), MotionReader(known), SeenMotions(ms, known);
    forall i | 0 <= i < |ms| ensures read(texts[i]) == Some(xs[i]) {
      assert ms[i] in ms;
      ReadPrintedMotion(ms[i], known);
    }
    CollectAll(texts, read, xs, []);
    assert [] + Somes(xs) == Somes(xs);
  }

  lemma JumpsAsSeen(js: seq<Jump>, known: set<string>)
    requires forall j :: j in js ==> PrintableJump(j)
    ensures Collect(JumpTexts(js), JumpReader(known), []) == Some(Somes(SeenJumps(js, known)))
  {
    var texts, read, xs := JumpTexts(js), JumpReader(known), SeenJumps(js, known);
    forall i | 0 <= i < |js| ensures read(texts[i]) == Some(xs[i]) {
      assert js[i] in js;
      ReadPrintedJump(js[i], known);
    }
    CollectAll(texts, read, xs, []);
    assert [] + Somes(xs) == Somes(xs);
  }
}
