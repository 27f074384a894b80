/**
 When a snapshot is read back as it was printed.  The conditions speak of ids and of the numbers printed with them, so
 that the server could check them before it sends.
 */
module RoomExactly {
  import opened Chess
  import opened Conservation
  import opened FlightRecords
  import opened Game
  import opened Listing
  import opened PieceRecords
  import opened RoomRoundTrip
  import opened Snapshot
  import opened Wrappers

  // ---------- pieces and cooldowns ----------

  function TokenOf(b: Body, pos: Position): Token {
    Token(KindCode(b.kind), ColorCode(b.color), pos.row, pos.col, StatusCode(b.status))
  }

  /** What the client has read is a piece of this kind, colour and state on this square. */
  predicate Pictures(t: Token, b: Body, pos: Position) {
    && KindNumbered(t.kind) == Some(b.kind) && ColorNumbered(t.color) == Some(b.color)
    && StatusNumbered(t.state) == Some(b.status) && t.row == pos.row && t.col == pos.col
  }

  /** No two kinds, colours or states are told by the same number. */
  lemma PicturesOne(t: Token, b: Body, pos: Position)
    ensures Pictures(t, b, pos) <==> t == TokenOf(b, pos)
  {
  }

  /** The cooldown the arbiter reports for each listed piece that has one. */
  function Reported(cooldowns: seq<Cooldown>, lines: Lines): seq<Cooldown> {
    if lines == [] then []
    else
      var c := FirstCooldown(cooldowns, lines[0].0);
      if c.Some? then [c.value] + Reported(cooldowns, lines[1..]) else Reported(cooldowns, lines[1..])
  }

  /** The pieces named in a listing. */
  function Named(lines: Lines): set<Id> {
    set x | x in lines :: x.0
  }

  /** The client has every listed piece as it is and where it is listed, and every cooldown the arbiter reports. */
  predicate RightPieces(a: Arena, lines: Lines, read: Option<(Tokens, seq<Cooldown>)>)
    requires Real(a, lines)
  {
    && read.Some? && read.value.0.Keys == Named(lines)
    && (forall x :: x in lines ==> x.0 in read.value.0 && Pictures(read.value.0[x.0], a.pieces[x.0], x.1))
    && read.value.1 == Reported(a.cooldowns, lines)
  }

  lemma {:induction false} FirstCooldownOwn(cooldowns: seq<Cooldown>, p: Id)
    ensures var c := FirstCooldown(cooldowns, p);
      && (c.Some? ==> c.value.piece == p && c.value in cooldowns)
      && (c.Some? <==> p in Resting(cooldowns))
  {
    if cooldowns != [] {
      FirstCooldownOwn(cooldowns[1..], p);
      assert cooldowns[0].piece in Resting(cooldowns);
      assert Resting(cooldowns) == {cooldowns[0].piece} + Resting(cooldowns[1..]);
    }
  }

  /** The cooldowns that come with the pieces, piece by piece. */
  function RestsOf(ps: seq<Parsed>): (xs: seq<Option<Cooldown>>)
    ensures |xs| == |ps| && forall i :: 0 <= i < |ps| ==> xs[i] == ps[i].rest
  {
    seq(|ps|, i requires 0 <= i < |ps| => ps[i].rest)
  }

  function CooldownsOf(cooldowns: seq<Cooldown>, lines: Lines): (xs: seq<Option<Cooldown>>)
    ensures |xs| == |lines| && forall i :: 0 <= i < |lines| ==> xs[i] == FirstCooldown(cooldowns, lines[i].0)
  {
    seq(|lines|, i requires 0 <= i < |lines| => FirstCooldown(cooldowns, lines[i].0))
  }

  lemma {:induction false} RestsAreSomes(ps: seq<Parsed>)
    ensures Rests(ps) == Somes(RestsOf(ps))
  {
    if ps != [] {
      RestsAreSomes(ps[1..]);
      assert RestsOf(ps)[1..] == RestsOf(ps[1..]);
    }
  }

  lemma {:induction false} ReportedAreSomes(cooldowns: seq<Cooldown>, lines: Lines)
    ensures Reported(cooldowns, lines) == Somes(CooldownsOf(cooldowns, lines))
  {
    if lines != [] {
      ReportedAreSomes(cooldowns, lines[1..]);
      assert CooldownsOf(cooldowns, lines)[1..] == CooldownsOf(cooldowns, lines[1..]);
    }
  }

  /** Where one list has nothing that the other has not, they yield the same values only if they are the same. */
  lemma {:induction false} SomesExactly<T>(xs: seq<Option<T>>, ys: seq<Option<T>>)
    requires |xs| == |ys| && forall i :: 0 <= i < |xs| && xs[i].Some? ==> ys[i].Some?
    ensures |Somes(xs)| <= |Somes(ys)|
    ensures Somes(xs) == Somes(ys) <==> xs == ys
  {
    if xs != [] {
      SomesExactly(xs[1..], ys[1..]);
      assert xs == ys <==> xs[0] == ys[0] && xs[1..] == ys[1..];
      if xs[0].Some? {
        assert Somes(xs)[0] == xs[0].value && Somes(xs)[1..] == Somes(xs[1..]);
        assert Somes(ys)[0] == ys[0].value && Somes(ys)[1..] == Somes(ys[1..]);
      }
    }
  }

  lemma EntryKept(a: Arena, p: Id, pos: Position)
    requires p in a.pieces
    ensures Kept(EntryOf(a, p, pos)) == Parsed(p, TokenOf(a.pieces[p], pos), FirstCooldown(a.cooldowns, p))
  {
    FirstCooldownOwn(a.cooldowns, p);
  }

  /** The ids are read right whatever they are, so the client knows exactly the listed pieces. */
  lemma KnownPieces(a: Arena, lines: Lines)
    requires Real(a, lines)
    ensures Told(SeenPieces(Entries(a, lines)), map[]).Keys == Named(lines)
  {
    var ps := SeenPieces(Entries(a, lines));
    var tokens := Told(ps, map[]);
    assert forall i :: 0 <= i < |lines| ==> ps[i].id == lines[i].0 && lines[i] in lines;
    forall p ensures p in tokens <==> p in Named(lines) {
      ToldKeys(ps, map[], p);
      if p in Named(lines) {
        var x :| x in lines && x.0 == p;
        var i :| 0 <= i < |lines| && lines[i] == x;
        assert ps[i].id == p;
      }
    }
  }

  lemma TokensExactly(a: Arena, lines: Lines, ps: seq<Parsed>, tokens: Tokens)
    requires Real(a, lines) && NoRepeats(lines) && ps == SeenPieces(Entries(a, lines)) && tokens == Told(ps, map[])
    ensures (forall x :: x in lines ==> x.0 in tokens && Pictures(tokens[x.0], a.pieces[x.0], x.1)) <==>
      forall i :: 0 <= i < |lines| ==> lines[i] in lines && ps[i].token == TokenOf(a.pieces[lines[i].0], lines[i].1)
  {
    forall i | 0 <= i < |lines| ensures lines[i] in lines && lines[i].0 in tokens && tokens[lines[i].0] == ps[i].token {
      ToldIs(ps, map[], i);
    }
    forall i | 0 <= i < |lines|
      ensures Pictures(ps[i].token, a.pieces[lines[i].0], lines[i].1) <==>
        ps[i].token == TokenOf(a.pieces[lines[i].0], lines[i].1)
    {
      PicturesOne(ps[i].token, a.pieces[lines[i].0], lines[i].1);
    }
  }

  lemma RestsExactly(a: Arena, lines: Lines, ps: seq<Parsed>)
    requires Real(a, lines) && ps == SeenPieces(Entries(a, lines))
    ensures Rests(ps) == Reported(a.cooldowns, lines) <==>
      forall i :: 0 <= i < |lines| ==> ps[i].rest == FirstCooldown(a.cooldowns, lines[i].0)
  {
    var xs, ys := RestsOf(ps), CooldownsOf(a.cooldowns, lines);
    RestsAreSomes(ps);
    ReportedAreSomes(a.cooldowns, lines);
    forall i | 0 <= i < |lines| && xs[i].Some? ensures ys[i].Some? {
      assert lines[i] in lines;
      EntryKept(a, lines[i].0, lines[i].1);
    }
    SomesExactly(xs, ys);
  }

  /** What is read of the pieces is right exactly when no listed piece hides a field of its own. */
  lemma PiecesExactly(a: Arena, lines: Lines)
    requires Real(a, lines) && NoRepeats(lines)
    ensures var ps := SeenPieces(Entries(a, lines));
      RightPieces(a, lines, Some((Told(ps, map[]), Rests(ps)))) <==>
        forall x :: x in lines ==> Unhidden(EntryOf(a, x.0, x.1))
  {
    var es := Entries(a, lines);
    var ps := SeenPieces(es);
    KnownPieces(a, lines);
    TokensExactly(a, lines, ps, Told(ps, map[]));
    RestsExactly(a, lines, ps);
    EntriesExactly(a, lines, ps);
  }

  lemma EntriesExactly(a: Arena, lines: Lines, ps: seq<Parsed>)
    requires Real(a, lines) && ps == SeenPieces(Entries(a, lines))
    ensures (forall x :: x in lines ==> Unhidden(EntryOf(a, x.0, x.1))) <==>
      forall i :: 0 <= i < |lines| ==>
        && lines[i] in lines && ps[i].token == TokenOf(a.pieces[lines[i].0], lines[i].1)
        && ps[i].rest == FirstCooldown(a.cooldowns, lines[i].0)
  {
    forall i | 0 <= i < |lines|
      ensures lines[i] in lines
      ensures ps[i].token == TokenOf(a.pieces[lines[i].0], lines[i].1) &&
              ps[i].rest == FirstCooldown(a.cooldowns, lines[i].0)
         <==> Unhidden(EntryOf(a, lines[i].0, lines[i].1))
    {
      EntryExactly(a, lines[i].0, lines[i].1, ps[i]);
    }
  }

  lemma EntryExactly(a: Arena, p: Id, pos: Position, seen: Parsed)
    requires p in a.pieces && seen == Kept(Seen(EntryOf(a, p, pos)))
    ensures seen.token == TokenOf(a.pieces[p], pos) && seen.rest == FirstCooldown(a.cooldowns, p)
       <==> Unhidden(EntryOf(a, p, pos))
  {
    EntryKept(a, p, pos);
    SeenExactly(EntryOf(a, p, pos));
  }

  // ---------- motions and jumps ----------

  /** In flight, the client sees what the server has, except victims that the snapshot does not list. */
  function Shown(ms: seq<Motion>, known: set<Id>): (r: seq<Motion>)
    ensures |r| == |ms|
    ensures forall i :: 0 <= i < |ms| ==>
      var v := ms[i].victim;
      r[i] == ms[i].(victim := if v.Some? && v.value != "" && v.value in known then v else None)
  {
    seq(|ms|, i requires 0 <= i < |ms| => KnownVictim(ms[i], known))
  }

  /** The two times of every jump change places. */
  function Swapped(js: seq<Jump>): (r: seq<Jump>)
    ensures |r| == |js|
    ensures forall i :: 0 <= i < |js| ==> r[i] == js[i].(remaining := js[i].total, total := js[i].remaining)
  {
    seq(|js|, i requires 0 <= i < |js| => js[i].(remaining := js[i].total, total := js[i].remaining))
  }

  /** A list of things that are all there yields them in order, and only them. */
  lemma {:induction false} AllSomes<T>(xs: seq<Option<T>>, ys: seq<T>)
    requires |xs| == |ys| && forall i :: 0 <= i < |xs| ==> xs[i].Some?
    ensures Somes(xs) == ys <==> forall i :: 0 <= i < |xs| ==> xs[i] == Some(ys[i])
  {
    if xs != [] {
      AllSomes(xs[1..], ys[1..]);
      assert Somes(xs)[0] == xs[0].value && Somes(xs)[1..] == Somes(xs[1..]);
      assert forall i :: 0 < i < |xs| ==> xs[i] == xs[1..][i - 1] && ys[i] == ys[1..][i - 1];
      assert forall i :: 0 <= i < |xs| - 1 ==> xs[1..][i] == xs[i + 1] && ys[1..][i] == ys[i + 1];
      assert Somes(xs) == ys <==> xs[0].value == ys[0] && Somes(xs[1..]) == ys[1..];
    }
  }

  lemma MotionsExactly(ms: seq<Motion>, known: set<Id>)
    requires forall m :: m in ms ==> m.piece in known
    ensures Somes(SeenMotions(ms, known)) == Shown(ms, known) <==> forall m :: m in ms ==> MotionUnhidden(m, known)
  {
    var xs, ys := SeenMotions(ms, known), Shown(ms, known);
    forall i | 0 <= i < |ms|
      ensures ms[i] in ms && xs[i].Some? && (xs[i] == Some(ys[i]) <==> MotionUnhidden(ms[i], known))
    {
      SeenMotionExactly(ms[i], known);
    }
    AllSomes(xs, ys);
  }

  lemma JumpsExactly(js: seq<Jump>, known: set<Id>)
    requires forall j :: j in js ==> j.piece in known
    ensures Somes(SeenJumps(js, known)) == js <==> forall j :: j in js ==> JumpIntact(j)
    ensures Somes(SeenJumps(js, known)) == Swapped(js) <==> forall j :: j in js ==> JumpUnhidden(j)
  {
    var xs := SeenJumps(js, known);
    assert forall i :: 0 <= i < |js| ==> js[i] in js;
    AllSomes(xs, js);
    AllSomes(xs, Swapped(js));
  }

  // ---------- the room ----------

  /**
   What the client reads in `text` of the room `w`.  It knows exactly the listed pieces.  It has them and their
   cooldowns right exactly when no listed piece hides a field of its own; it has the motions right, with their victims
   if listed, exactly when no flying piece hides a field of its motion; and it has a jump right exactly in the case
   `JumpIntact` describes, the times of jumps being exchanged whenever the id hides nothing.
   */
  predicate ReadBack(text: string, w: World) {
    var lines, known := Serialised(w), Named(Serialised(w));
    && PiecesIn(text).Some? && PiecesIn(text).value.0.Keys == known
    && (RightPieces(w.arena, lines, PiecesIn(text)) <==>
         forall x :: x in lines ==> Unhidden(EntryOf(w.arena, x.0, x.1)))
    && (MotionsIn(text, known) == Some(Shown(w.motions, known)) <==>
         forall m :: m in w.motions ==> MotionUnhidden(m, known))
    && (JumpsIn(text, known) == Some(w.jumps) <==> forall j :: j in w.jumps ==> JumpIntact(j))
    && (JumpsIn(text, known) == Some(Swapped(w.jumps)) <==> forall j :: j in w.jumps ==> JumpUnhidden(j))
  }

  lemma SnapshotRoundTrip(h: Header, sounds: seq<string>, w: World)
    requires Inv(w) && Concrete(w) && PrintableRoom(h, sounds, w)
    ensures ReadBack(RoomText(h, sounds, w), w)
  {
    var lines, known := Serialised(w), Named(Serialised(w));
    EveryPieceOnce(w);
    RoomAsSeen(h, sounds, w, known);
    KnownPieces(w.arena, lines);
    PiecesExactly(w.arena, lines);
    AllKnown(w, lines, known);
    MotionsExactly(w.motions, known);
    JumpsExactly(w.jumps, known);
  }

  lemma AllKnown(w: World, lines: Lines, known: set<Id>)
    requires Inv(w) && Concrete(w) && lines == Serialised(w) && known == Named(lines)
    ensures forall m :: m in w.motions ==> m.piece in known
    ensures forall j :: j in w.jumps ==> j.piece in known
  {
    EveryPieceOnce(w);
    forall m | m in w.motions ensures m.piece in known {
      assert (m.piece, m.source) in lines;
    }
    forall j | j in w.jumps ensures j.piece in known {
      var k :| 0 <= k < |lines| && lines[k].0 == j.piece;
      assert lines[k] in lines;
    }
  }

  /** The names of fields that a piece of the same name may hide. */
  const FIELD_NAMES: set<string> :=
    {"color", "row", "col", "state", "on_cooldown", "cooldown_remaining", "cooldown_total", "is_long_rest",
     "src_col", "dest_row", "dest_col", "total_ms", "remaining_ms", "victim_id"}

  /** Pieces that are not called like a field come back right, and their motions; the times of their jumps exchanged. */
  lemma PlainSnapshot(h: Header, sounds: seq<string>, w: World)
    requires Inv(w) && Concrete(w) && PrintableRoom(h, sounds, w)
    requires forall x :: x in Serialised(w) ==> x.0 !in FIELD_NAMES
    ensures var text, lines, known := RoomText(h, sounds, w), Serialised(w), Named(Serialised(w));
      && RightPieces(w.arena, lines, PiecesIn(text))
      && MotionsIn(text, known) == Some(Shown(w.motions, known))
      && JumpsIn(text, known) == Some(Swapped(w.jumps))
  {
    var lines, known := Serialised(w), Named(Serialised(w));
    SnapshotRoundTrip(h, sounds, w);
    AllKnown(w, lines, known);
    forall p | p in known ensures p !in FIELD_NAMES {
      var x :| x in lines && x.0 == p;
    }
    forall x | x in lines ensures Unhidden(EntryOf(w.arena, x.0, x.1)) { PlainEntry(EntryOf(w.arena, x.0, x.1)); }
    forall m | m in w.motions ensures MotionUnhidden(m, known) { PlainMotion(m, known); }
    forall j | j in w.jumps ensures JumpUnhidden(j) { PlainJump(j); }
  }

  lemma PlainEntry(e: Entry)
    requires e.id !in FIELD_NAMES
    ensures Unhidden(e)
  {
  }

  lemma PlainMotion(m: Motion, known: set<Id>)
    requires m.piece !in FIELD_NAMES
    ensures MotionUnhidden(m, known)
  {
  }

  lemma PlainJump(j: Jump)
    requires j.piece !in FIELD_NAMES
    ensures JumpUnhidden(j)
  {
  }
}
