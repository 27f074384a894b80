/** What a piece may become and where it may be, over whole runs. */
module Squares {
  import opened Chess
  import opened Conservation
  import opened Effects
  import opened Game
  import opened Orders
  import opened Timers

  /** No pawn stays a pawn on its last row. */
  ghost predicate PawnsSound(a: Arena) {
    forall p :: p in a.pieces && a.pieces[p].kind.Pawn? ==>
      a.pieces[p].cell.row != if a.pieces[p].color.White? then 0 else a.height - 1
  }

  predicate SameShade(x: Position, y: Position) {
    (x.row + x.col) % 2 == (y.row + y.col) % 2
  }

  /** `y` is no further back than `x` for a pawn of `color`. */
  predicate NotBehind(color: Color, x: Position, y: Position) {
    if color.White? then y.row <= x.row else x.row <= y.row
  }

  /**
   From `b` to `later`: same side, same kind unless a pawn became a queen, bishops keep their shade, pawns do not
   retreat.
   */
  predicate Advances(b: Body, later: Body) {
    && later.color == b.color
    && (later.kind == b.kind || (b.kind.Pawn? && later.kind.Queen?))
    && (b.kind.Bishop? ==> SameShade(b.cell, later.cell))
    && (b.kind.Pawn? && later.kind.Pawn? ==> NotBehind(b.color, b.cell, later.cell))
  }

  ghost predicate AllAdvance(a: Arena, r: Arena) {
    && r.height == a.height && r.pieces.Keys == a.pieces.Keys
    && (forall p :: p in a.pieces ==> Advances(a.pieces[p], r.pieces[p]))
  }

  lemma AllAdvanceTrans(a: Arena, b: Arena, c: Arena)
    requires AllAdvance(a, b) && AllAdvance(b, c)
    ensures AllAdvance(a, c)
  {
    forall p | p in a.pieces ensures Advances(a.pieces[p], c.pieces[p]) {
      assert Advances(a.pieces[p], b.pieces[p]) && Advances(b.pieces[p], c.pieces[p]);
    }
  }

  lemma Parity(x: int, y: int)
    requires Abs(x) == Abs(y)
    ensures (x + y) % 2 == 0
  {
    assert x + y == 2 * x || x + y == 0;
  }

  /** A move a piece may make keeps a bishop's shade and takes a pawn forward. */
  lemma MoveAdvances(height: int, kind: Kind, color: Color, src: Position, dest: Position, capturing: bool)
    requires Geometry(height, kind, color, src, dest, capturing)
    ensures kind.Bishop? ==> SameShade(src, dest)
    ensures kind.Pawn? ==> NotBehind(color, src, dest)
  {
    if kind.Bishop? {
      Parity(dest.row - src.row, dest.col - src.col);
      assert dest.row + dest.col == src.row + src.col + ((dest.row - src.row) + (dest.col - src.col));
    }
  }

  lemma EndsAdvances(a: Arena, r: Arena, m: Motion, verdict: Outcome, pending: set<Id>, hops: set<(Id, Position)>)
    requires Sound(a, pending + {m.piece}, hops) && m.piece !in pending && Ends(a, r, m, verdict)
    requires Plan(a, m) && PawnsSound(a)
    ensures AllAdvance(a, r) && PawnsSound(r)
  {
    var b := a.pieces[m.piece];
    var capturing :| Geometry(a.height, b.kind, b.color, m.source, m.dest, capturing);
    MoveAdvances(a.height, b.kind, b.color, m.source, m.dest, capturing);
  }

  ghost predicate Planned(a: Arena, events: seq<Event>) {
    forall e :: e in events && e.Arrival? ==> Plan(a, e.motion)
  }

  lemma PlannedKept(a: Arena, r: Arena, events: seq<Event>, pending: set<Id>)
    requires Planned(a, events) && Keeps(a, r, pending) && Movers(events) <= pending
    ensures Planned(r, events)
  {
    forall e | e in events && e.Arrival? ensures Plan(r, e.motion) {
      assert e.motion.piece in Movers(events);
      var b := a.pieces[e.motion.piece];
      var c :| Geometry(a.height, b.kind, b.color, e.motion.source, e.motion.dest, c);
      assert Geometry(r.height, b.kind, b.color, e.motion.source, e.motion.dest, c);
    }
  }

  lemma {:induction false} PlayAdvances(a: Arena, jumps: seq<Jump>, aloft: set<Id>, events: seq<Event>,
                                        hops: set<(Id, Position)>)
    requires Playable(a, aloft, events, hops) && Planned(a, events) && PawnsSound(a)
    ensures AllAdvance(a, Play(a, jumps, aloft, events)) && PawnsSound(Play(a, jumps, aloft, events))
    decreases |events|
  {
    if events != [] {
      var rest := events[1..];
      var pending := aloft + Movers(rest);
      var next := Resolve(a, jumps, events[0], pending);
      Peel(a, jumps, aloft, events, hops);
      PeelMovers(aloft, events, hops);
      if events[0].Arrival? {
        ArriveForm(a, jumps, events[0].motion, pending);
        EndsAdvances(a, next, events[0].motion, Judge(a, jumps, events[0].motion, pending), pending, hops + Hops(rest));
      }
      ResolveKeeps(a, jumps, aloft, events, hops);
      PlannedKept(a, next, rest, pending);
      PlayAdvances(next, jumps, aloft, rest, hops);
      AllAdvanceTrans(a, next, Play(next, jumps, aloft, rest));
    }
  }

  lemma OrderPlanned(w: World, ms: nat, order: seq<Event>)
    requires Timed(w) && ValidOrder(w, ms, order)
    ensures Planned(Rest(w, ms), order)
  {
    forall e | e in order && e.Arrival? ensures Plan(Rest(w, ms), e.motion) {
      OrderMembers(w, ms, order, e);
      assert Plan(w.arena, e.motion);
      var b := w.arena.pieces[e.motion.piece];
      var c :| Geometry(w.arena.height, b.kind, b.color, e.motion.source, e.motion.dest, c);
      assert Geometry(Rest(w, ms).height, b.kind, b.color, e.motion.source, e.motion.dest, c);
    }
  }

  lemma StepAdvances(w: World, op: Op)
    requires Inv(w) && Timed(w) && Enabled(w, op) && PawnsSound(w.arena)
    ensures AllAdvance(w.arena, Step(w, op).arena) && PawnsSound(Step(w, op).arena)
  {
    match op
    case Wait(ms, order) =>
      OrderPlanned(w, ms, order);
      TickPlayable(w, ms, order);
      PlayAdvances(Rest(w, ms), w.jumps, Aloft(w.motions, ms), order, Sites(JumpsAfter(w.jumps, ms)));
    case _ => RequestAdvances(w, op);
  }

  lemma RequestAdvances(w: World, op: Op)
    requires !op.Wait? && PawnsSound(w.arena)
    ensures AllAdvance(w.arena, Step(w, op).arena) && PawnsSound(Step(w, op).arena)
  {
    var a, r := w.arena, Step(w, op).arena;
    forall p | p in a.pieces ensures p in r.pieces && r.pieces[p].(status := Idle) == a.pieces[p].(status := Idle) {
    }
  }

  /**
   Over any run: only pawns change kind, and only to queens; bishops keep the shade of their square, bounces
   included; a pawn that is still a pawn has not retreated; and no pawn rests on its last row if none did.
   */
  lemma {:induction false} RunAdvances(w: World, ops: seq<Op>)
    requires Inv(w) && Timed(w) && IsRun(w, ops) && PawnsSound(w.arena)
    ensures AllAdvance(w.arena, Run(w, ops).arena) && PawnsSound(Run(w, ops).arena)
    decreases |ops|
  {
    if ops != [] {
      var next := Step(w, ops[0]);
      StepSound(w, ops[0]);
      StepTimed(w, ops[0]);
      StepAdvances(w, ops[0]);
      RunAdvances(next, ops[1..]);
      AllAdvanceTrans(w.arena, next.arena, Run(next, ops[1..]).arena);
    }
  }
}
