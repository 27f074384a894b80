/**
 Closed forms: the whole effect of each way in which a motion can end, on the records of the pieces, the squares, the
 cooldowns, the flag and the scores.  Proofs about arrivals go through `Ends` and never unfold an arrival.
 */
module Effects {
  import opened Chess
  import opened Game
  import opened Wrappers

  function RestFor(p: Id, longRest: bool): Cooldown {
    Cooldown(p, REST_MS, REST_MS, longRest)
  }

  /** The record of a piece that has landed on `dest`: there, idle, and a queen if it was a pawn on its last row. */
  function Landed(a: Arena, b: Body, dest: Position): Body {
    Body(b.color, if b.kind.Pawn? && LastRow(a.height, b.color, dest) then Queen else b.kind, dest, Idle)
  }

  /** The board with `p` on `pos`, if that square exists and is free. */
  function Placed(a: Arena, p: Id, pos: Position): map<Position, Id> {
    if InBounds(a, pos) && pos !in a.grid then a.grid[pos := p] else a.grid
  }

  lemma PutDownForm(a: Arena, p: Id, pos: Position)
    requires p in a.pieces
    ensures PutDown(a, p, pos) ==
      a.(pieces := a.pieces[p := a.pieces[p].(cell := pos, status := Idle)],
         grid := Placed(a, p, pos),
         cooldowns := a.cooldowns + [RestFor(p, false)])
  {
  }

  lemma SettleForm(a: Arena, p: Id, dest: Position)
    requires p in a.pieces
    ensures Promote(PutDown(a, p, dest), p, dest) ==
      a.(pieces := a.pieces[p := Landed(a, a.pieces[p], dest)],
         grid := Placed(a, p, dest),
         cooldowns := a.cooldowns + [RestFor(p, false)])
  {
    PutDownForm(a, p, dest);
  }

  lemma RemoveForm(a: Arena, pos: Position, q: Id)
    requires PieceAt(a, pos) == Some(q)
    ensures RemovePiece(a, pos) ==
      a.(pieces := a.pieces[q := a.pieces[q].(status := Captured)], grid := a.grid - {pos})
  {
  }

  lemma CaptureForm(a: Arena, p: Id, dest: Position, q: Id)
    requires p in a.pieces && PieceAt(a, dest) == Some(q) && q != p && InBounds(a, dest)
    ensures Capture(a, p, dest, q) ==
      Award(a.(pieces := a.pieces[q := a.pieces[q].(status := Captured)][p := Landed(a, a.pieces[p], dest)],
               grid := a.grid[dest := p],
               cooldowns := a.cooldowns + [RestFor(p, false)],
               gameOver := a.gameOver || a.pieces[q].kind.King?),
            a.pieces[p].color, Value(a.pieces[q].kind))
  {
    var b, taken := a.pieces[p], a.pieces[q];
    var removed := RemovePiece(a, dest);
    RemoveForm(a, dest, q);
    assert removed.pieces[p] == b;
    var landed := PutDown(removed, p, dest);
    PutDownForm(removed, p, dest);
    assert landed.grid == a.grid[dest := p];
    var judged := if taken.kind.King? then landed.(gameOver := true) else landed;
    var awarded := Award(judged, b.color, Value(taken.kind));
    assert awarded.pieces == removed.pieces[p := b.(cell := dest, status := Idle)];
    PromoteForm(awarded, p, b, dest);
    assert awarded.pieces[p := Landed(a, b, dest)] == removed.pieces[p := Landed(a, b, dest)];
  }

  lemma PromoteForm(a: Arena, p: Id, b: Body, dest: Position)
    requires p in a.pieces && a.pieces[p] == b.(cell := dest, status := Idle)
    ensures Promote(a, p, dest) == a.(pieces := a.pieces[p := Landed(a, b, dest)])
  {
    assert a.pieces[p := a.pieces[p]] == a.pieces;
  }

  /** The closed forms, side by side: `r` is `a` after motion `m` has ended with `verdict`. */
  ghost predicate Ends(a: Arena, r: Arena, m: Motion, verdict: Outcome) {
    var p := m.piece;
    && r.width == a.width && r.height == a.height
    && (verdict.Void? ==> r == a)
    && (!verdict.Void? ==> p in a.pieces)
    && (verdict.Bounce? ==>
          && r.pieces == a.pieces[p := a.pieces[p].(cell := m.source, status := Idle)]
          && r.grid == Placed(a, p, m.source))
    && (verdict.Caught? ==>
          && r.pieces == a.pieces[p := a.pieces[p].(status := Captured)]
          && r.grid == a.grid)
    && (verdict.Takes? ==>
          && PieceAt(a, m.dest) == Some(verdict.prey) && verdict.prey != p
          && r.pieces == a.pieces[verdict.prey := a.pieces[verdict.prey].(status := Captured)]
                                 [p := Landed(a, a.pieces[p], m.dest)]
          && r.grid == a.grid[m.dest := p])
    && (verdict.Settles? ==>
          && r.pieces == a.pieces[p := Landed(a, a.pieces[p], m.dest)]
          && r.grid == Placed(a, p, m.dest))
    && r.cooldowns == a.cooldowns + (if verdict.Void? || verdict.Caught? then [] else [RestFor(p, false)])
    && r.gameOver == (a.gameOver || (verdict.Takes? && a.pieces[verdict.prey].kind.King?))
    && r.whiteScore == a.whiteScore + Gain(a, m, verdict, White)
    && r.blackScore == a.blackScore + Gain(a, m, verdict, Black)
  }

  /** What the end of `m` is worth to `color`. */
  function Gain(a: Arena, m: Motion, verdict: Outcome, color: Color): nat {
    match verdict
    case Caught(catcher) => if catcher == color && m.piece in a.pieces then Value(a.pieces[m.piece].kind) else 0
    case Takes(q) =>
      if q in a.pieces && m.piece in a.pieces && a.pieces[m.piece].color == color then Value(a.pieces[q].kind) else 0
    case _ => 0
  }

  lemma ArriveForm(a: Arena, jumps: seq<Jump>, m: Motion, pending: set<Id>)
    requires m.dest in a.grid ==> InBounds(a, m.dest)
    ensures Ends(a, Arrive(a, jumps, m, pending), m, Judge(a, jumps, m, pending))
  {
    match Judge(a, jumps, m, pending)
    case Void =>
    case Bounce => PutDownForm(a, m.piece, m.source);
    case Caught(catcher) =>
    case Takes(q) => CaptureForm(a, m.piece, m.dest, q);
    case Settles => SettleForm(a, m.piece, m.dest);
  }
}
