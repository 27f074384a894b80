/** The colour mirror: every run has a run with the sides exchanged. */
module Mirror {
  import opened Chess
  import opened Effects
  import opened Game

  function Flip(h: int, pos: Position): Position {
    Position(h - 1 - pos.row, pos.col)
  }

  function FlipBody(h: int, b: Body): Body {
    Body(Opponent(b.color), b.kind, Flip(h, b.cell), b.status)
  }

  function FlipMotion(h: int, m: Motion): Motion {
    m.(source := Flip(h, m.source), dest := Flip(h, m.dest))
  }

  function FlipJump(h: int, j: Jump): Jump {
    j.(pos := Flip(h, j.pos))
  }

  function FlipMotions(h: int, motions: seq<Motion>): seq<Motion> {
    if motions == [] then [] else [FlipMotion(h, motions[0])] + FlipMotions(h, motions[1..])
  }

  function FlipJumps(h: int, jumps: seq<Jump>): seq<Jump> {
    if jumps == [] then [] else [FlipJump(h, jumps[0])] + FlipJumps(h, jumps[1..])
  }

  function FlipEvent(h: int, e: Event): Event {
    match e
    case Arrival(m) => Arrival(FlipMotion(h, m))
    case Touchdown(j) => Touchdown(FlipJump(h, j))
  }

  function FlipEvents(h: int, events: seq<Event>): seq<Event> {
    if events == [] then [] else [FlipEvent(h, events[0])] + FlipEvents(h, events[1..])
  }

  function FlipOutcome(verdict: Outcome): Outcome {
    if verdict.Caught? then Caught(Opponent(verdict.catcher)) else verdict
  }

  /** `b` is `a` with the rows flipped, the colours and the scores exchanged. */
  ghost predicate Mirrors(a: Arena, b: Arena) {
    && b.width == a.width && b.height == a.height && b.cooldowns == a.cooldowns && b.gameOver == a.gameOver
    && b.whiteScore == a.blackScore && b.blackScore == a.whiteScore
    && MirrorsPieces(a, b) && MirrorsGrid(a.height, a.grid, b.grid)
  }

  ghost predicate MirrorsPieces(a: Arena, b: Arena) {
    && b.pieces.Keys == a.pieces.Keys
    && (forall p :: p in a.pieces ==> b.pieces[p] == FlipBody(a.height, a.pieces[p]))
  }

  ghost predicate MirrorsGrid(h: int, g: map<Position, Id>, f: map<Position, Id>) {
    && (forall pos :: pos in g ==> Flip(h, pos) in f && f[Flip(h, pos)] == g[pos])
    && (forall pos :: pos in f ==> exists q :: q in g && pos == Flip(h, q))
  }

  ghost predicate MirrorsWorld(w: World, v: World) {
    && Mirrors(w.arena, v.arena)
    && v.motions == FlipMotions(w.arena.height, w.motions) && v.jumps == FlipJumps(w.arena.height, w.jumps)
    && v.whiteKings == w.blackKings && v.blackKings == w.whiteKings
  }

  /** The grid has only squares of the board; the array behind it has no others. */
  ghost predicate Bounded(a: Arena) {
    forall pos :: pos in a.grid ==> InBounds(a, pos)
  }

  // ---------- the mirror of a world ----------

  function FlipGrid(h: int, grid: map<Position, Id>): map<Position, Id> {
    map pos | pos in (set q | q in grid.Keys :: Flip(h, q)) :: grid[Flip(h, pos)]
  }

  function FlipArena(a: Arena): Arena {
    a.(pieces := map p | p in a.pieces :: FlipBody(a.height, a.pieces[p]), grid := FlipGrid(a.height, a.grid),
       whiteScore := a.blackScore, blackScore := a.whiteScore)
  }

  function FlipWorld(w: World): World {
    World(FlipArena(w.arena), FlipMotions(w.arena.height, w.motions), FlipJumps(w.arena.height, w.jumps),
          w.blackKings, w.whiteKings)
  }

  lemma FlipTwice(h: int, pos: Position)
    ensures Flip(h, Flip(h, pos)) == pos
  {
  }

  /** Every world has a mirror image. */
  lemma HasMirror(w: World)
    ensures MirrorsWorld(w, FlipWorld(w))
  {
    var a, b, h := w.arena, FlipArena(w.arena), w.arena.height;
    forall pos | pos in a.grid ensures Flip(h, pos) in b.grid && b.grid[Flip(h, pos)] == a.grid[pos] {
      FlipTwice(h, pos);
    }
    forall pos | pos in b.grid ensures Flip(h, pos) in a.grid {
      var q :| q in a.grid.Keys && pos == Flip(h, q);
      FlipTwice(h, q);
    }
  }

  /** And only one. */
  lemma OneMirror(w: World, v: World, u: World)
    requires MirrorsWorld(w, v) && MirrorsWorld(w, u)
    ensures v == u
  {
    SameGrid(w.arena.height, w.arena.grid, v.arena.grid, u.arena.grid);
    assert v.arena.pieces == u.arena.pieces;
  }

  lemma SameGrid(h: int, g: map<Position, Id>, f: map<Position, Id>, e: map<Position, Id>)
    requires MirrorsGrid(h, g, f) && MirrorsGrid(h, g, e)
    ensures f == e
  {
    forall pos ensures pos in f <==> pos in e ensures pos in f && pos in e ==> f[pos] == e[pos] {
      FlipTwice(h, pos);
    }
  }

  lemma GridSetFlip(h: int, g: map<Position, Id>, f: map<Position, Id>, pos: Position, p: Id)
    requires MirrorsGrid(h, g, f)
    ensures MirrorsGrid(h, g[pos := p], f[Flip(h, pos) := p])
  {
    FlipTwice(h, pos);
  }

  lemma GridClearFlip(h: int, g: map<Position, Id>, f: map<Position, Id>, pos: Position)
    requires MirrorsGrid(h, g, f)
    ensures MirrorsGrid(h, g - {pos}, f - {Flip(h, pos)})
  {
    FlipTwice(h, pos);
  }

  // ---------- the rules ----------

  lemma PieceAtFlip(a: Arena, b: Arena, pos: Position)
    requires Mirrors(a, b)
    ensures PieceAt(b, Flip(a.height, pos)) == PieceAt(a, pos)
  {
    FlipTwice(a.height, pos);
  }

  lemma GeometryFlip(h: int, kind: Kind, color: Color, src: Position, dest: Position, capturing: bool)
    ensures Geometry(h, kind, Opponent(color), Flip(h, src), Flip(h, dest), capturing)
        <==> Geometry(h, kind, color, src, dest, capturing)
  {
  }

  lemma PathClearFlip(a: Arena, b: Arena, src: Position, dest: Position)
    requires Mirrors(a, b)
    ensures PathClear(b, Flip(a.height, src), Flip(a.height, dest)) <==> PathClear(a, src, dest)
  {
    var h := a.height;
    forall k ensures PieceAt(b, Along(Flip(h, src), Flip(h, dest), k)) == PieceAt(a, Along(src, dest, k)) {
      assert Along(Flip(h, src), Flip(h, dest), k) == Flip(h, Along(src, dest, k));
      PieceAtFlip(a, b, Along(src, dest, k));
    }
  }

  lemma ValidMoveFlip(a: Arena, b: Arena, src: Position, dest: Position)
    requires Mirrors(a, b)
    ensures ValidMove(b, Flip(a.height, src), Flip(a.height, dest)) <==> ValidMove(a, src, dest)
  {
    PieceAtFlip(a, b, src);
    PieceAtFlip(a, b, dest);
    PathClearFlip(a, b, src, dest);
    if PieceAt(a, src).Some? {
      var body := a.pieces[PieceAt(a, src).value];
      GeometryFlip(a.height, body.kind, body.color, src, dest, PieceAt(a, dest).Some?);
    }
  }

  // ---------- requests ----------

  lemma {:induction false} FlipMotionsConcat(h: int, xs: seq<Motion>, ys: seq<Motion>)
    ensures FlipMotions(h, xs + ys) == FlipMotions(h, xs) + FlipMotions(h, ys)
  {
    if xs == [] {
      assert xs + ys == ys;
    } else {
      assert (xs + ys)[0] == xs[0] && (xs + ys)[1..] == xs[1..] + ys;
      FlipMotionsConcat(h, xs[1..], ys);
    }
  }

  lemma {:induction false} FlipJumpsConcat(h: int, xs: seq<Jump>, ys: seq<Jump>)
    ensures FlipJumps(h, xs + ys) == FlipJumps(h, xs) + FlipJumps(h, ys)
  {
    if xs == [] {
      assert xs + ys == ys;
    } else {
      assert (xs + ys)[0] == xs[0] && (xs + ys)[1..] == xs[1..] + ys;
      FlipJumpsConcat(h, xs[1..], ys);
    }
  }

  lemma {:induction false} FlyersFlip(h: int, motions: seq<Motion>)
    ensures Flyers(FlipMotions(h, motions)) == Flyers(motions)
  {
    if motions != [] {
      FlyersFlip(h, motions[1..]);
      assert motions == [motions[0]] + motions[1..];
      assert Flyers(motions) == {motions[0].piece} + Flyers(motions[1..]);
      assert Flyers(FlipMotions(h, motions)) == {motions[0].piece} + Flyers(FlipMotions(h, motions[1..]));
    }
  }

  lemma ReadyFlip(w: World, v: World, src: Position)
    requires MirrorsWorld(w, v)
    ensures Ready(v, Flip(w.arena.height, src)) <==> Ready(w, src)
  {
    PieceAtFlip(w.arena, v.arena, src);
    FlyersFlip(w.arena.height, w.motions);
  }

  lemma AcceptedFlip(w: World, v: World, src: Position, dest: Position)
    requires MirrorsWorld(w, v)
    ensures MoveAccepted(v, Flip(w.arena.height, src), Flip(w.arena.height, dest)) <==> MoveAccepted(w, src, dest)
  {
    ReadyFlip(w, v, src);
    ValidMoveFlip(w.arena, v.arena, src, dest);
  }

  lemma TakeOffFlip(a: Arena, b: Arena, p: Id, src: Position)
    requires Mirrors(a, b) && p in a.pieces
    ensures Mirrors(ClearCell(SetBody(a, p, a.pieces[p].(status := Moving)), src),
                    ClearCell(SetBody(b, p, b.pieces[p].(status := Moving)), Flip(a.height, src)))
  {
    GridClearFlip(a.height, a.grid, b.grid, src);
  }

  lemma StartMotionFlip(w: World, v: World, p: Id, src: Position, dest: Position, total: int)
    requires MirrorsWorld(w, v) && p in w.arena.pieces
    ensures MirrorsWorld(StartMotion(w, p, src, dest, total),
                         StartMotion(v, p, Flip(w.arena.height, src), Flip(w.arena.height, dest), total))
  {
    var h := w.arena.height;
    var r, s := StartMotion(w, p, src, dest, total), StartMotion(v, p, Flip(h, src), Flip(h, dest), total);
    TakeOffFlip(w.arena, v.arena, p, src);
    PieceAtFlip(w.arena, v.arena, dest);
    var m := r.motions[|w.motions|];
    FlipMotionsConcat(h, w.motions, [m]);
    assert FlipMotions(h, [m]) == [FlipMotion(h, m)];
    assert s.motions == v.motions + [FlipMotion(h, m)];
  }

  lemma RequestMoveFlip(w: World, v: World, src: Position, dest: Position)
    requires MirrorsWorld(w, v)
    ensures MirrorsWorld(RequestMove(w, src, dest),
                         RequestMove(v, Flip(w.arena.height, src), Flip(w.arena.height, dest)))
  {
    var h, total := w.arena.height, Distance(src, dest) * BASE_MOVE_TIME_MS;
    AcceptedFlip(w, v, src, dest);
    PieceAtFlip(w.arena, v.arena, src);
    assert Distance(Flip(h, src), Flip(h, dest)) == Distance(src, dest);
    if MoveAccepted(w, src, dest) {
      StartMotionFlip(w, v, PieceAt(w.arena, src).value, src, dest, total);
    }
  }

  lemma RequestJumpFlip(w: World, v: World, pos: Position)
    requires MirrorsWorld(w, v)
    ensures MirrorsWorld(RequestJump(w, pos), RequestJump(v, Flip(w.arena.height, pos)))
  {
    ReadyFlip(w, v, pos);
    if Ready(w, pos) {
      PieceAtFlip(w.arena, v.arena, pos);
      var j := Jump(PieceAt(w.arena, pos).value, pos, JUMP_TIME_MS, JUMP_TIME_MS);
      FlipJumpsConcat(w.arena.height, w.jumps, [j]);
      assert FlipJumps(w.arena.height, [j]) == [FlipJump(w.arena.height, j)];
    }
  }

  // ---------- the end of a motion ----------

  lemma {:induction false} AirborneFlip(h: int, jumps: seq<Jump>, pos: Position, t: int)
    ensures Airborne(FlipJumps(h, jumps), Flip(h, pos), t) == Airborne(jumps, pos, t)
  {
    if jumps != [] { AirborneFlip(h, jumps[1..], pos, t); }
  }

  lemma JudgeFlip(a: Arena, b: Arena, jumps: seq<Jump>, m: Motion, pending: set<Id>)
    requires Mirrors(a, b)
    ensures Judge(b, FlipJumps(a.height, jumps), FlipMotion(a.height, m), pending)
         == FlipOutcome(Judge(a, jumps, m, pending))
  {
    PieceAtFlip(a, b, m.dest);
    AirborneFlip(a.height, jumps, m.dest, m.remaining);
  }

  /** Closed forms of mirrored endings are mirror images. */
  lemma PlacedFlip(a: Arena, b: Arena, p: Id, pos: Position)
    requires Mirrors(a, b)
    ensures MirrorsGrid(a.height, Placed(a, p, pos), Placed(b, p, Flip(a.height, pos)))
  {
    FlipTwice(a.height, pos);
    GridSetFlip(a.height, a.grid, b.grid, pos, p);
  }

  lemma EndsGrid(a: Arena, b: Arena, r: Arena, s: Arena, m: Motion, verdict: Outcome)
    requires Mirrors(a, b) && Ends(a, r, m, verdict) && Ends(b, s, FlipMotion(a.height, m), FlipOutcome(verdict))
    ensures MirrorsGrid(a.height, r.grid, s.grid)
  {
    PlacedFlip(a, b, m.piece, m.source);
    PlacedFlip(a, b, m.piece, m.dest);
    GridSetFlip(a.height, a.grid, b.grid, m.dest, m.piece);
  }

  lemma EndsPieces(a: Arena, b: Arena, r: Arena, s: Arena, m: Motion, verdict: Outcome)
    requires Mirrors(a, b) && Ends(a, r, m, verdict) && Ends(b, s, FlipMotion(a.height, m), FlipOutcome(verdict))
    ensures MirrorsPieces(r, s)
  {
    PieceAtFlip(a, b, m.dest);
  }

  lemma EndsFlip(a: Arena, b: Arena, r: Arena, s: Arena, m: Motion, verdict: Outcome)
    requires Mirrors(a, b) && Ends(a, r, m, verdict) && Ends(b, s, FlipMotion(a.height, m), FlipOutcome(verdict))
    ensures Mirrors(r, s)
  {
    EndsGrid(a, b, r, s, m, verdict);
    EndsPieces(a, b, r, s, m, verdict);
  }

  lemma ArriveFlip(a: Arena, b: Arena, jumps: seq<Jump>, m: Motion, pending: set<Id>)
    requires Mirrors(a, b) && Bounded(a) && Bounded(b)
    ensures Mirrors(Arrive(a, jumps, m, pending),
                    Arrive(b, FlipJumps(a.height, jumps), FlipMotion(a.height, m), pending))
  {
    JudgeFlip(a, b, jumps, m, pending);
    ArriveForm(a, jumps, m, pending);
    ArriveForm(b, FlipJumps(a.height, jumps), FlipMotion(a.height, m), pending);
    EndsFlip(a, b, Arrive(a, jumps, m, pending),
             Arrive(b, FlipJumps(a.height, jumps), FlipMotion(a.height, m), pending), m, Judge(a, jumps, m, pending));
  }

  lemma LandFlip(a: Arena, b: Arena, j: Jump)
    requires Mirrors(a, b)
    ensures Mirrors(Land(a, j), Land(b, FlipJump(a.height, j)))
  {
    PieceAtFlip(a, b, j.pos);
  }

  lemma EndsBounded(a: Arena, r: Arena, m: Motion, verdict: Outcome)
    requires Bounded(a) && Ends(a, r, m, verdict)
    ensures Bounded(r)
  {
  }

  lemma ResolveBounded(a: Arena, jumps: seq<Jump>, e: Event, pending: set<Id>)
    requires Bounded(a)
    ensures Bounded(Resolve(a, jumps, e, pending)) && Resolve(a, jumps, e, pending).height == a.height
  {
    if e.Arrival? {
      ArriveForm(a, jumps, e.motion, pending);
      EndsBounded(a, Arrive(a, jumps, e.motion, pending), e.motion, Judge(a, jumps, e.motion, pending));
    }
  }

  lemma ResolveFlip(a: Arena, b: Arena, jumps: seq<Jump>, e: Event, pending: set<Id>)
    requires Mirrors(a, b) && Bounded(a) && Bounded(b)
    ensures Mirrors(Resolve(a, jumps, e, pending),
                    Resolve(b, FlipJumps(a.height, jumps), FlipEvent(a.height, e), pending))
  {
    match e
    case Arrival(m) => ArriveFlip(a, b, jumps, m, pending);
    case Touchdown(j) => LandFlip(a, b, j);
  }

  // ---------- time ----------

  lemma {:induction false} FlipEventsAt(h: int, events: seq<Event>)
    ensures |FlipEvents(h, events)| == |events|
    ensures forall i :: 0 <= i < |events| ==> FlipEvents(h, events)[i] == FlipEvent(h, events[i])
  {
    if events != [] { FlipEventsAt(h, events[1..]); }
  }

  lemma {:induction false} MoversFlip(h: int, events: seq<Event>)
    ensures Movers(FlipEvents(h, events)) == Movers(events)
  {
    if events != [] {
      MoversFlip(h, events[1..]);
      var e, rest, later := events[0], events[1..], FlipEvents(h, events[1..]);
      var head := if e.Arrival? then {e.motion.piece} else {};
      assert events == [e] + rest && FlipEvents(h, events) == [FlipEvent(h, e)] + later;
      assert Movers([e] + rest) == head + Movers(rest);
      assert Movers([FlipEvent(h, e)] + later) == head + Movers(later);
    }
  }

  lemma {:induction false} PlayFlip(a: Arena, b: Arena, jumps: seq<Jump>, aloft: set<Id>, events: seq<Event>)
    requires Mirrors(a, b) && Bounded(a) && Bounded(b)
    ensures Mirrors(Play(a, jumps, aloft, events),
                    Play(b, FlipJumps(a.height, jumps), aloft, FlipEvents(a.height, events)))
    ensures Play(a, jumps, aloft, events).height == a.height && Bounded(Play(a, jumps, aloft, events))
    decreases |events|
  {
    if events != [] {
      var h, pending, later := a.height, aloft + Movers(events[1..]), FlipEvents(a.height, events);
      assert later[0] == FlipEvent(h, events[0]) && later[1..] == FlipEvents(h, events[1..]);
      MoversFlip(h, events[1..]);
      var r, s := Resolve(a, jumps, events[0], pending), Resolve(b, FlipJumps(h, jumps), later[0], pending);
      ResolveFlip(a, b, jumps, events[0], pending);
      ResolveBounded(a, jumps, events[0], pending);
      ResolveBounded(b, FlipJumps(h, jumps), later[0], pending);
      PlayFlip(r, s, jumps, aloft, events[1..]);
    }
  }

  lemma {:induction false} MotionListsFlip(h: int, motions: seq<Motion>, ms: int)
    ensures DueMotions(FlipMotions(h, motions), ms) == FlipEvents(h, DueMotions(motions, ms))
    ensures MotionsAfter(FlipMotions(h, motions), ms) == FlipMotions(h, MotionsAfter(motions, ms))
  {
    if motions != [] { MotionListsFlip(h, motions[1..], ms); }
  }

  lemma {:induction false} JumpListsFlip(h: int, jumps: seq<Jump>, ms: int)
    ensures DueJumps(FlipJumps(h, jumps), ms) == FlipEvents(h, DueJumps(jumps, ms))
    ensures JumpsAfter(FlipJumps(h, jumps), ms) == FlipJumps(h, JumpsAfter(jumps, ms))
  {
    if jumps != [] { JumpListsFlip(h, jumps[1..], ms); }
  }

  lemma {:induction false} AloftFlip(h: int, motions: seq<Motion>, ms: int)
    ensures Aloft(FlipMotions(h, motions), ms) == Aloft(motions, ms)
  {
    if motions != [] {
      AloftFlip(h, motions[1..], ms);
      var m, rest, later := motions[0], motions[1..], FlipMotions(h, motions[1..]);
      var head := if m.remaining > ms then {m.piece} else {};
      assert motions == [m] + rest && FlipMotions(h, motions) == [FlipMotion(h, m)] + later;
      assert Aloft([m] + rest, ms) == head + Aloft(rest, ms);
      assert Aloft([FlipMotion(h, m)] + later, ms) == head + Aloft(later, ms);
    }
  }

  lemma AdvanceFlip(w: World, v: World, ms: int, order: seq<Event>)
    requires MirrorsWorld(w, v) && Bounded(w.arena) && Bounded(v.arena)
    ensures var r := AdvanceTime(w, ms, order);
      MirrorsWorld(r, AdvanceTime(v, ms, FlipEvents(w.arena.height, order))) && Bounded(r.arena) &&
      r.arena.height == w.arena.height
  {
    var h := w.arena.height;
    MotionListsFlip(h, w.motions, ms);
    JumpListsFlip(h, w.jumps, ms);
    AloftFlip(h, w.motions, ms);
    assert Mirrors(Rest(w, ms), Rest(v, ms));
    PlayFlip(Rest(w, ms), Rest(v, ms), w.jumps, Aloft(w.motions, ms), order);
  }

  lemma {:induction false} FlipEventsConcat(h: int, xs: seq<Event>, ys: seq<Event>)
    ensures FlipEvents(h, xs + ys) == FlipEvents(h, xs) + FlipEvents(h, ys)
  {
    if xs == [] {
      assert xs + ys == ys;
    } else {
      assert (xs + ys)[0] == xs[0] && (xs + ys)[1..] == xs[1..] + ys;
      FlipEventsConcat(h, xs[1..], ys);
    }
  }

  lemma {:induction false} FlipEventsCount(h: int, events: seq<Event>, e: Event)
    ensures multiset(FlipEvents(h, events))[e] == multiset(events)[FlipEvent(h, e)]
  {
    if events != [] {
      FlipEventsCount(h, events[1..], e);
      assert events == [events[0]] + events[1..];
      assert FlipEvent(h, events[0]) == e <==> events[0] == FlipEvent(h, e);
    }
  }

  lemma OrderFlip(w: World, v: World, ms: int, order: seq<Event>)
    requires MirrorsWorld(w, v) && ValidOrder(w, ms, order)
    ensures ValidOrder(v, ms, FlipEvents(w.arena.height, order))
  {
    var h := w.arena.height;
    var due := DueMotions(w.motions, ms) + DueJumps(w.jumps, ms);
    MotionListsFlip(h, w.motions, ms);
    JumpListsFlip(h, w.jumps, ms);
    FlipEventsConcat(h, DueMotions(w.motions, ms), DueJumps(w.jumps, ms));
    SortedFlip(h, order);
    SameFlip(h, order, due);
  }

  lemma SortedFlip(h: int, order: seq<Event>)
    requires SortedByTime(order)
    ensures SortedByTime(FlipEvents(h, order))
  {
    FlipEventsAt(h, order);
  }

  lemma SameFlip(h: int, xs: seq<Event>, ys: seq<Event>)
    requires multiset(xs) == multiset(ys)
    ensures multiset(FlipEvents(h, xs)) == multiset(FlipEvents(h, ys))
  {
    forall e ensures multiset(FlipEvents(h, xs))[e] == multiset(FlipEvents(h, ys))[e] {
      FlipEventsCount(h, xs, e);
      FlipEventsCount(h, ys, e);
    }
  }

  // ---------- the status check ----------

  lemma {:induction false} FlipMotionsMember(h: int, motions: seq<Motion>, m: Motion)
    ensures FlipMotion(h, m) in FlipMotions(h, motions) <==> m in motions
  {
    if motions != [] {
      FlipMotionsMember(h, motions[1..], m);
      assert FlipMotion(h, m) == FlipMotion(h, motions[0]) <==> m == motions[0];
    }
  }

  lemma {:induction false} FlipJumpsMember(h: int, jumps: seq<Jump>, j: Jump)
    ensures FlipJump(h, j) in FlipJumps(h, jumps) <==> j in jumps
  {
    if jumps != [] {
      FlipJumpsMember(h, jumps[1..], j);
      assert FlipJump(h, j) == FlipJump(h, jumps[0]) <==> j == jumps[0];
    }
  }

  lemma FlipBack(w: World, v: World)
    requires MirrorsWorld(w, v)
    ensures MirrorsWorld(v, w)
  {
    var a, b, h := w.arena, v.arena, w.arena.height;
    MotionsBack(h, w.motions);
    JumpsBack(h, w.jumps);
    forall pos | pos in b.grid ensures Flip(h, pos) in a.grid && a.grid[Flip(h, pos)] == b.grid[pos] {
      FlipTwice(h, pos);
    }
  }

  lemma {:induction false} MotionsBack(h: int, motions: seq<Motion>)
    ensures FlipMotions(h, FlipMotions(h, motions)) == motions
  {
    if motions != [] { MotionsBack(h, motions[1..]); }
  }

  lemma {:induction false} JumpsBack(h: int, jumps: seq<Jump>)
    ensures FlipJumps(h, FlipJumps(h, jumps)) == jumps
  {
    if jumps != [] { JumpsBack(h, jumps[1..]); }
  }

  lemma KingFlips(w: World, v: World, color: Color)
    requires MirrorsWorld(w, v) && KingInPlay(w, color)
    ensures KingInPlay(v, Opponent(color))
  {
    var h := w.arena.height;
    assert forall p :: IsKing(w.arena, p, color) ==> IsKing(v.arena, p, Opponent(color));
    if pos :| pos in w.arena.grid && IsKing(w.arena, w.arena.grid[pos], color) {
      assert Flip(h, pos) in v.arena.grid;
    } else if m :| m in w.motions && IsKing(w.arena, m.piece, color) && !w.arena.pieces[m.piece].status.Captured? {
      FlipMotionsMember(h, w.motions, m);
      assert FlipMotion(h, m) in v.motions && FlipMotion(h, m).piece == m.piece;
    } else {
      var j :| j in w.jumps && IsKing(w.arena, j.piece, color) && !w.arena.pieces[j.piece].status.Captured?;
      FlipJumpsMember(h, w.jumps, j);
      assert FlipJump(h, j) in v.jumps && FlipJump(h, j).piece == j.piece;
    }
  }

  lemma KingInPlayFlip(w: World, v: World, color: Color)
    requires MirrorsWorld(w, v)
    ensures KingInPlay(v, Opponent(color)) <==> KingInPlay(w, color)
  {
    if KingInPlay(w, color) { KingFlips(w, v, color); }
    if KingInPlay(v, Opponent(color)) {
      FlipBack(w, v);
      KingFlips(v, w, Opponent(color));
    }
  }

  lemma CheckFlip(w: World, v: World)
    requires MirrorsWorld(w, v)
    ensures MirrorsWorld(CheckStatus(w), CheckStatus(v))
  {
    KingInPlayFlip(w, v, White);
    KingInPlayFlip(w, v, Black);
  }

  // ---------- runs ----------

  function FlipOp(h: int, op: Op): Op {
    match op
    case Move(src, dest) => Move(Flip(h, src), Flip(h, dest))
    case Leap(pos) => Leap(Flip(h, pos))
    case Wait(ms, order) => Wait(ms, FlipEvents(h, order))
  }

  function FlipOps(h: int, ops: seq<Op>): seq<Op> {
    if ops == [] then [] else [FlipOp(h, ops[0])] + FlipOps(h, ops[1..])
  }

  lemma RequestBounded(w: World, op: Op)
    requires !op.Wait? && Bounded(w.arena)
    ensures Bounded(Step(w, op).arena) && Step(w, op).arena.height == w.arena.height
  {
  }

  lemma StepFlip(w: World, v: World, op: Op)
    requires MirrorsWorld(w, v) && Bounded(w.arena) && Bounded(v.arena)
    ensures MirrorsWorld(Step(w, op), Step(v, FlipOp(w.arena.height, op)))
    ensures Bounded(Step(w, op).arena) && Step(w, op).arena.height == w.arena.height
  {
    match op
    case Move(src, dest) =>
      RequestMoveFlip(w, v, src, dest);
      RequestBounded(w, op);
    case Leap(pos) =>
      RequestJumpFlip(w, v, pos);
      RequestBounded(w, op);
    case Wait(ms, order) =>
      AdvanceFlip(w, v, ms, order);
      CheckFlip(AdvanceTime(w, ms, order), AdvanceTime(v, ms, FlipEvents(w.arena.height, order)));
  }

  lemma MirrorBounded(a: Arena, b: Arena)
    requires Mirrors(a, b) && Bounded(a)
    ensures Bounded(b)
  {
  }

  lemma EnabledFlip(w: World, v: World, op: Op)
    requires MirrorsWorld(w, v) && Enabled(w, op)
    ensures Enabled(v, FlipOp(w.arena.height, op))
  {
    if op.Wait? { OrderFlip(w, v, op.ms, op.order); }
  }

  /** From a mirrored position the mirrored requests and updates lead, step for step, to the mirrored result. */
  lemma {:induction false} RunFlip(w: World, v: World, ops: seq<Op>)
    requires MirrorsWorld(w, v) && Bounded(w.arena) && IsRun(w, ops)
    ensures IsRun(v, FlipOps(w.arena.height, ops))
    ensures MirrorsWorld(Run(w, ops), Run(v, FlipOps(w.arena.height, ops)))
    decreases |ops|
  {
    if ops != [] {
      var h := w.arena.height;
      MirrorBounded(w.arena, v.arena);
      StepFlip(w, v, ops[0]);
      EnabledFlip(w, v, ops[0]);
      var flipped := FlipOps(h, ops);
      assert flipped[0] == FlipOp(h, ops[0]) && flipped[1..] == FlipOps(h, ops[1..]);
      RunFlip(Step(w, ops[0]), Step(v, flipped[0]), ops[1..]);
    }
  }

  /** Every run has its mirror image. */
  lemma MirroredRun(w: World, ops: seq<Op>)
    requires Bounded(w.arena) && IsRun(w, ops)
    ensures IsRun(FlipWorld(w), FlipOps(w.arena.height, ops))
    ensures Run(FlipWorld(w), FlipOps(w.arena.height, ops)) == FlipWorld(Run(w, ops))
  {
    HasMirror(w);
    RunFlip(w, FlipWorld(w), ops);
    HasMirror(Run(w, ops));
    OneMirror(Run(w, ops), Run(FlipWorld(w), FlipOps(w.arena.height, ops)), FlipWorld(Run(w, ops)));
  }
}
