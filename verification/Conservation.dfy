/** Every piece is in exactly one place. */
module Conservation {
  import opened Chess
  import opened Effects
  import opened Game
  import opened Orders
  import opened Wrappers

  /** `p` stands on the square that its own `cell` names. */
  predicate OnBoard(a: Arena, p: Id) {
    p in a.pieces && a.pieces[p].cell in a.grid && a.grid[a.pieces[p].cell] == p
  }

  ghost predicate BoardSound(a: Arena) {
    forall pos :: pos in a.grid ==>
      && InBounds(a, pos)
      && a.grid[pos] in a.pieces
      && a.pieces[a.grid[pos]].cell == pos
      && !a.pieces[a.grid[pos]].status.Captured?
  }

  ghost predicate FlightSound(a: Arena, flying: set<Id>) {
    forall p :: p in flying ==> p in a.pieces && a.pieces[p].status.Moving? && !OnBoard(a, p)
  }

  /** Nothing is left in the moving state without a motion or a jump that will end it. */
  ghost predicate MovingSound(a: Arena, flying: set<Id>, hops: set<(Id, Position)>) {
    forall p :: p in a.pieces && a.pieces[p].status.Moving? && p !in flying ==>
      OnBoard(a, p) && (p, a.pieces[p].cell) in hops
  }

  ghost predicate Sound(a: Arena, flying: set<Id>, hops: set<(Id, Position)>) {
    BoardSound(a) && FlightSound(a, flying) && MovingSound(a, flying, hops)
  }

  ghost predicate Inv(w: World) {
    Sound(w.arena, Flyers(w.motions), Sites(w.jumps)) && DistinctFlyers(w.motions)
  }

  // ---------- one event ----------

  lemma PutDownSound(a: Arena, p: Id, pos: Position, flying: set<Id>, hops: set<(Id, Position)>)
    requires Sound(a, flying + {p}, hops) && p !in flying
    ensures Sound(PutDown(a, p, pos), flying, hops)
  {
    var r := PutDown(a, p, pos);
    forall c | c in r.grid
      ensures InBounds(r, c) && r.grid[c] in r.pieces && r.pieces[r.grid[c]].cell == c &&
              !r.pieces[r.grid[c]].status.Captured?
    {
      if c in a.grid { assert a.grid[c] != p; }
    }
  }

  lemma PromoteSound(a: Arena, p: Id, pos: Position, flying: set<Id>, hops: set<(Id, Position)>)
    requires Sound(a, flying, hops) && p in a.pieces
    ensures Sound(Promote(a, p, pos), flying, hops)
  {
  }

  lemma RemoveSound(a: Arena, pos: Position, flying: set<Id>, hops: set<(Id, Position)>)
    requires Sound(a, flying, hops)
    ensures Sound(RemovePiece(a, pos), flying, hops)
    ensures pos !in RemovePiece(a, pos).grid
  {
  }

  /** Soundness does not look at cooldowns, scores or the game-over flag. */
  lemma SoundFrame(a: Arena, b: Arena, flying: set<Id>, hops: set<(Id, Position)>)
    requires Sound(a, flying, hops)
    requires b.pieces == a.pieces && b.grid == a.grid && b.width == a.width && b.height == a.height
    ensures Sound(b, flying, hops)
  {
  }

  lemma CaptureSound(a: Arena, p: Id, dest: Position, q: Id, flying: set<Id>, hops: set<(Id, Position)>)
    requires Sound(a, flying + {p}, hops) && p !in flying
    requires PieceAt(a, dest) == Some(q)
    ensures Sound(Capture(a, p, dest, q), flying, hops)
  {
    RemoveSound(a, dest, flying + {p}, hops);
    PutDownSound(RemovePiece(a, dest), p, dest, flying, hops);
    var landed := PutDown(RemovePiece(a, dest), p, dest);
    var judged := if a.pieces[q].kind.King? then landed.(gameOver := true) else landed;
    AwardSound(landed, judged, a.pieces[p].color, Value(a.pieces[q].kind), flying, hops);
    PromoteSound(Award(judged, a.pieces[p].color, Value(a.pieces[q].kind)), p, dest, flying, hops);
  }

  lemma AwardSound(a: Arena, judged: Arena, side: Color, points: nat, flying: set<Id>, hops: set<(Id, Position)>)
    requires Sound(a, flying, hops) && (judged == a || judged == a.(gameOver := true))
    ensures Sound(Award(judged, side, points), flying, hops)
    ensures Award(judged, side, points).pieces == a.pieces
  {
    SoundFrame(a, Award(judged, side, points), flying, hops);
  }

  lemma SettleSound(a: Arena, p: Id, dest: Position, flying: set<Id>, hops: set<(Id, Position)>)
    requires Sound(a, flying + {p}, hops) && p !in flying
    ensures Sound(Promote(PutDown(a, p, dest), p, dest), flying, hops)
  {
    PutDownSound(a, p, dest, flying, hops);
    PromoteSound(PutDown(a, p, dest), p, dest, flying, hops);
  }

  lemma CaughtSound(a: Arena, p: Id, catcher: Color, flying: set<Id>, hops: set<(Id, Position)>)
    requires Sound(a, flying + {p}, hops) && p !in flying
    ensures Sound(CaughtMidAir(a, p, catcher), flying, hops)
  {
  }

  lemma ArriveSound(a: Arena, jumps: seq<Jump>, m: Motion, pending: set<Id>, hops: set<(Id, Position)>)
    requires Sound(a, pending + {m.piece}, hops) && m.piece !in pending
    ensures Sound(Arrive(a, jumps, m, pending), pending, hops)
  {
    match Judge(a, jumps, m, pending)
    case Void =>
    case Bounce => PutDownSound(a, m.piece, m.source, pending, hops);
    case Caught(catcher) => CaughtSound(a, m.piece, catcher, pending, hops);
    case Takes(prey) => CaptureSound(a, m.piece, m.dest, prey, pending, hops);
    case Settles => SettleSound(a, m.piece, m.dest, pending, hops);
  }

  lemma LandSound(a: Arena, j: Jump, flying: set<Id>, hops: set<(Id, Position)>)
    requires Sound(a, flying, hops + {(j.piece, j.pos)})
    ensures Sound(Land(a, j), flying, hops)
  {
  }

  // ---------- one tick ----------

  /** A tick in progress: `events` are still to come, `aloft` and `hops` outlast the tick. */
  ghost predicate Playable(a: Arena, aloft: set<Id>, events: seq<Event>, hops: set<(Id, Position)>) {
    && Sound(a, aloft + Movers(events), hops + Hops(events))
    && DistinctMovers(events)
    && Movers(events) !! aloft
  }

  lemma PeelMovers(aloft: set<Id>, events: seq<Event>, hops: set<(Id, Position)>)
    requires events != [] && DistinctMovers(events) && Movers(events) !! aloft
    ensures DistinctMovers(events[1..]) && Movers(events[1..]) !! aloft
    ensures events[0].Arrival? ==>
      && events[0].motion.piece !in aloft + Movers(events[1..])
      && aloft + Movers(events) == aloft + Movers(events[1..]) + {events[0].motion.piece}
      && hops + Hops(events) == hops + Hops(events[1..])
    ensures events[0].Touchdown? ==>
      && aloft + Movers(events) == aloft + Movers(events[1..])
      && hops + Hops(events) == hops + Hops(events[1..]) + {(events[0].jump.piece, events[0].jump.pos)}
  {
    var e, rest := events[0], events[1..];
    assert events == [e] + rest;
    if e.Arrival? {
      assert Movers(events) == Movers(rest) + {e.motion.piece};
      assert Hops(events) == Hops(rest);
      assert e.motion.piece !in Movers(rest);
    } else {
      assert Movers(events) == Movers(rest);
      assert Hops(events) == Hops(rest) + {(e.jump.piece, e.jump.pos)};
    }
  }

  /** Resolving the first event leaves a tick in progress with one event less. */
  lemma Peel(a: Arena, jumps: seq<Jump>, aloft: set<Id>, events: seq<Event>, hops: set<(Id, Position)>)
    requires Playable(a, aloft, events, hops) && events != []
    ensures Playable(Resolve(a, jumps, events[0], aloft + Movers(events[1..])), aloft, events[1..], hops)
  {
    PeelMovers(aloft, events, hops);
    var pending := aloft + Movers(events[1..]);
    match events[0] {
      case Arrival(m) => ArriveSound(a, jumps, m, pending, hops + Hops(events[1..]));
      case Touchdown(j) => LandSound(a, j, pending, hops + Hops(events[1..]));
    }
  }

  lemma {:induction false} PlaySound(a: Arena, jumps: seq<Jump>, aloft: set<Id>, events: seq<Event>,
                                     hops: set<(Id, Position)>)
    requires Playable(a, aloft, events, hops)
    ensures Sound(Play(a, jumps, aloft, events), aloft, hops)
    decreases |events|
  {
    if events == [] {
      assert aloft + Movers(events) == aloft && hops + Hops(events) == hops;
    } else {
      Peel(a, jumps, aloft, events, hops);
      PlaySound(Resolve(a, jumps, events[0], aloft + Movers(events[1..])), jumps, aloft, events[1..], hops);
    }
  }

  /** Every admissible order of a reachable state can be played. */
  lemma TickPlayable(w: World, ms: int, order: seq<Event>)
    requires Inv(w) && ValidOrder(w, ms, order)
    ensures Playable(Rest(w, ms), Aloft(w.motions, ms), order, Sites(JumpsAfter(w.jumps, ms)))
  {
    OrderCoversFlight(w, ms, order);
    OrderCoversJumps(w, ms, order);
    assert Aloft(w.motions, ms) + Movers(order) == Flyers(w.motions);
    assert Sites(JumpsAfter(w.jumps, ms)) + Hops(order) == Sites(w.jumps);
    SoundFrame(w.arena, Rest(w, ms), Flyers(w.motions), Sites(w.jumps));
  }

  lemma AdvanceSound(w: World, ms: int, order: seq<Event>)
    requires Inv(w) && ValidOrder(w, ms, order)
    ensures Inv(AdvanceTime(w, ms, order))
  {
    TickPlayable(w, ms, order);
    OrderCoversFlight(w, ms, order);
    PlaySound(Rest(w, ms), w.jumps, Aloft(w.motions, ms), order, Sites(JumpsAfter(w.jumps, ms)));
  }

  // ---------- requests and runs ----------

  lemma RequestMoveSound(w: World, src: Position, dest: Position)
    requires Inv(w)
    ensures Inv(RequestMove(w, src, dest))
  {
    if MoveAccepted(w, src, dest) {
      var p := PieceAt(w.arena, src).value;
      var r := RequestMove(w, src, dest);
      assert Flyers(r.motions) == Flyers(w.motions) + {p};
    }
  }

  lemma RequestJumpSound(w: World, pos: Position)
    requires Inv(w)
    ensures Inv(RequestJump(w, pos))
  {
    if Ready(w, pos) {
      var p := PieceAt(w.arena, pos).value;
      var r := RequestJump(w, pos);
      assert Sites(r.jumps) == Sites(w.jumps) + {(p, pos)};
    }
  }

  lemma StepSound(w: World, op: Op)
    requires Inv(w) && Enabled(w, op)
    ensures Inv(Step(w, op))
  {
    match op
    case Move(src, dest) => RequestMoveSound(w, src, dest);
    case Leap(pos) => RequestJumpSound(w, pos);
    case Wait(ms, order) =>
      AdvanceSound(w, ms, order);
      var t := AdvanceTime(w, ms, order);
      SoundFrame(t.arena, CheckStatus(t).arena, Flyers(t.motions), Sites(t.jumps));
  }

  lemma {:induction false} RunSound(w: World, ops: seq<Op>)
    requires Inv(w) && IsRun(w, ops)
    ensures Inv(Run(w, ops))
    decreases |ops|
  {
    if ops != [] {
      StepSound(w, ops[0]);
      RunSound(Step(w, ops[0]), ops[1..]);
    }
  }

  // ---------- what one event does to the board ----------

  lemma EndsMoves(a: Arena, r: Arena, m: Motion, verdict: Outcome, pending: set<Id>, hops: set<(Id, Position)>)
    requires Sound(a, pending + {m.piece}, hops) && m.piece !in pending
    requires Ends(a, r, m, verdict) && !verdict.Void?
    requires verdict.Settles? ==> m.dest !in a.grid
    ensures r.pieces.Keys == a.pieces.Keys
    ensures r.pieces[m.piece].status.Captured? <==> verdict.Caught?
    ensures !OnBoard(r, m.piece) && !r.pieces[m.piece].status.Captured? <==>
      if verdict.Bounce? then m.source in a.grid || !InBounds(a, m.source)
      else verdict.Settles? && !InBounds(a, m.dest)
    ensures OnBoard(r, m.piece) ==> r.pieces[m.piece].cell == if verdict.Bounce? then m.source else m.dest
    ensures forall q :: q in a.pieces && q != m.piece ==> (OnBoard(r, q) <==> OnBoard(a, q) && verdict != Takes(q))
  {
  }

  /**
   A motion that ends strands its piece exactly when it bounces back to a square that has been taken
   meanwhile, or when its destination is off the board.  Nobody else comes or goes but the prey.
   */
  lemma ArriveMoves(a: Arena, jumps: seq<Jump>, m: Motion, pending: set<Id>, hops: set<(Id, Position)>)
    requires Sound(a, pending + {m.piece}, hops) && m.piece !in pending
    ensures var r, verdict := Arrive(a, jumps, m, pending), Judge(a, jumps, m, pending);
      && !verdict.Void?
      && (r.pieces[m.piece].status.Captured? <==> verdict.Caught?)
      && (!OnBoard(r, m.piece) && !r.pieces[m.piece].status.Captured? <==>
            if verdict.Bounce? then m.source in a.grid || !InBounds(a, m.source)
            else verdict.Settles? && !InBounds(a, m.dest))
      && (OnBoard(r, m.piece) ==> r.pieces[m.piece].cell == if verdict.Bounce? then m.source else m.dest)
      && (forall q :: q in a.pieces && q != m.piece ==>
            (OnBoard(r, q) <==> OnBoard(a, q) && verdict != Takes(q)))
  {
    ArriveForm(a, jumps, m, pending);
    EndsMoves(a, Arrive(a, jumps, m, pending), m, Judge(a, jumps, m, pending), pending, hops);
  }

  /** In a reachable state the piece on the target square is never one that is still in flight. */
  lemma NeverEscaping(a: Arena, jumps: seq<Jump>, m: Motion, pending: set<Id>, hops: set<(Id, Position)>)
    requires Sound(a, pending + {m.piece}, hops)
    ensures Judge(a, jumps, m, pending) == Judge(a, jumps, m, {})
  {
    var standing := PieceAt(a, m.dest);
    if standing.Some? { assert OnBoard(a, standing.value); }
  }

  // ---------- gone for good ----------

  predicate Gone(a: Arena, flying: set<Id>, p: Id) {
    p in a.pieces && !OnBoard(a, p) && p !in flying
  }

  /**
   From `a` to `b` no piece appears, changes sides or changes kind except by promotion, and what is gone stays gone.
   */
  ghost predicate Descends(a: Arena, flyingA: set<Id>, b: Arena, flyingB: set<Id>) {
    && b.width == a.width && b.height == a.height && b.pieces.Keys == a.pieces.Keys
    && (a.gameOver ==> b.gameOver)
    && (forall p :: p in a.pieces ==>
          && b.pieces[p].color == a.pieces[p].color
          && (b.pieces[p].kind == a.pieces[p].kind || (a.pieces[p].kind.Pawn? && b.pieces[p].kind.Queen?)))
    && (forall p :: p in a.pieces && Gone(a, flyingA, p) ==>
          Gone(b, flyingB, p) && b.pieces[p] == a.pieces[p])
  }

  lemma DescendsTrans(a: Arena, fa: set<Id>, b: Arena, fb: set<Id>, c: Arena, fc: set<Id>)
    requires Descends(a, fa, b, fb) && Descends(b, fb, c, fc)
    ensures Descends(a, fa, c, fc)
  {
  }

  lemma EndsDescends(a: Arena, r: Arena, m: Motion, verdict: Outcome, pending: set<Id>, hops: set<(Id, Position)>)
    requires Sound(a, pending + {m.piece}, hops) && m.piece !in pending
    requires Ends(a, r, m, verdict) && !verdict.Void?
    requires verdict.Settles? ==> m.dest !in a.grid
    ensures Descends(a, pending + {m.piece}, r, pending)
  {
  }

  lemma ArriveDescends(a: Arena, jumps: seq<Jump>, m: Motion, pending: set<Id>, hops: set<(Id, Position)>)
    requires Sound(a, pending + {m.piece}, hops) && m.piece !in pending
    ensures Descends(a, pending + {m.piece}, Arrive(a, jumps, m, pending), pending)
  {
    ArriveForm(a, jumps, m, pending);
    EndsDescends(a, Arrive(a, jumps, m, pending), m, Judge(a, jumps, m, pending), pending, hops);
  }

  lemma ResolveDescends(a: Arena, jumps: seq<Jump>, aloft: set<Id>, events: seq<Event>, hops: set<(Id, Position)>)
    requires Playable(a, aloft, events, hops) && events != []
    ensures var pending := aloft + Movers(events[1..]);
      Descends(a, aloft + Movers(events), Resolve(a, jumps, events[0], pending), pending)
  {
    PeelMovers(aloft, events, hops);
    if events[0].Arrival? {
      ArriveDescends(a, jumps, events[0].motion, aloft + Movers(events[1..]), hops + Hops(events[1..]));
    }
  }

  lemma {:induction false} PlayDescends(a: Arena, jumps: seq<Jump>, aloft: set<Id>, events: seq<Event>,
                                        hops: set<(Id, Position)>)
    requires Playable(a, aloft, events, hops)
    ensures Descends(a, aloft + Movers(events), Play(a, jumps, aloft, events), aloft)
    decreases |events|
  {
    if events == [] {
      assert aloft + Movers(events) == aloft;
    } else {
      var pending := aloft + Movers(events[1..]);
      var next := Resolve(a, jumps, events[0], pending);
      Peel(a, jumps, aloft, events, hops);
      ResolveDescends(a, jumps, aloft, events, hops);
      PlayDescends(next, jumps, aloft, events[1..], hops);
      DescendsTrans(a, aloft + Movers(events), next, pending, Play(next, jumps, aloft, events[1..]), aloft);
    }
  }

  ghost predicate WorldDescends(w: World, v: World) {
    Descends(w.arena, Flyers(w.motions), v.arena, Flyers(v.motions))
  }

  lemma AdvanceDescends(w: World, ms: int, order: seq<Event>)
    requires Inv(w) && ValidOrder(w, ms, order)
    ensures WorldDescends(w, AdvanceTime(w, ms, order))
  {
    TickPlayable(w, ms, order);
    OrderCoversFlight(w, ms, order);
    assert Aloft(w.motions, ms) + Movers(order) == Flyers(w.motions);
    PlayDescends(Rest(w, ms), w.jumps, Aloft(w.motions, ms), order, Sites(JumpsAfter(w.jumps, ms)));
  }

  lemma RequestMoveDescends(w: World, src: Position, dest: Position)
    requires Inv(w)
    ensures WorldDescends(w, RequestMove(w, src, dest))
  {
    if MoveAccepted(w, src, dest) {
      assert Flyers(RequestMove(w, src, dest).motions) == Flyers(w.motions) + {PieceAt(w.arena, src).value};
    }
  }

  lemma StepDescends(w: World, op: Op)
    requires Inv(w) && Enabled(w, op)
    ensures WorldDescends(w, Step(w, op))
  {
    match op
    case Move(src, dest) => RequestMoveDescends(w, src, dest);
    case Leap(pos) =>
    case Wait(ms, order) => AdvanceDescends(w, ms, order);
  }

  lemma {:induction false} RunDescends(w: World, ops: seq<Op>)
    requires Inv(w) && IsRun(w, ops)
    ensures WorldDescends(w, Run(w, ops))
    decreases |ops|
  {
    if ops != [] {
      var next := Step(w, ops[0]);
      StepSound(w, ops[0]);
      StepDescends(w, ops[0]);
      RunDescends(next, ops[1..]);
      DescendsTrans(w.arena, Flyers(w.motions), next.arena, Flyers(next.motions),
                    Run(next, ops[1..]).arena, Flyers(Run(next, ops[1..]).motions));
    }
  }

  // ---------- main results ----------

  /** The squares on which `p` stands. */
  ghost function Squares(a: Arena, p: Id): set<Position> {
    set pos | pos in a.grid && a.grid[pos] == p
  }

  /** The motions that carry `p`, by index. */
  ghost function Flights(w: World, p: Id): set<nat> {
    set i | 0 <= i < |w.motions| && w.motions[i].piece == p
  }

  predicate Stranded(w: World, p: Id) {
    && p in w.arena.pieces && w.arena.pieces[p].status.Idle?
    && p !in w.arena.grid.Values && p !in Flyers(w.motions)
  }

  /** How many times a piece is accounted for: squares it stands on, motions that carry it, captured, stranded. */
  ghost function Accounted(w: World, p: Id): nat
    requires p in w.arena.pieces
  {
    |Squares(w.arena, p)| + |Flights(w, p)|
    + (if w.arena.pieces[p].status.Captured? then 1 else 0)
    + (if Stranded(w, p) then 1 else 0)
  }

  lemma InvAccounts(w: World, p: Id)
    requires Inv(w) && p in w.arena.pieces
    ensures Accounted(w, p) == 1
    ensures Squares(w.arena, p) <= {w.arena.pieces[p].cell}
  {
    var cell := w.arena.pieces[p].cell;
    if OnBoard(w.arena, p) {
      assert Squares(w.arena, p) == {cell};
      assert p in w.arena.grid.Values;
    } else {
      assert Squares(w.arena, p) == {};
      assert p !in w.arena.grid.Values;
    }
    if p in Flyers(w.motions) {
      var m :| m in w.motions && m.piece == p;
      var i :| 0 <= i < |w.motions| && w.motions[i] == m;
      assert Flights(w, p) == {i};
    } else {
      assert Flights(w, p) == {};
    }
  }

  lemma InitialSound(w: World)
    requires Initial(w)
    ensures Inv(w)
  {
  }

  /** Conservation: whatever is requested and however ties fall, every piece is in exactly one place. */
  lemma Conservation(w: World, ops: seq<Op>, p: Id)
    requires Initial(w) && IsRun(w, ops)
    ensures Run(w, ops).arena.pieces.Keys == w.arena.pieces.Keys
    ensures p in w.arena.pieces ==>
      Accounted(Run(w, ops), p) == 1 && Squares(Run(w, ops).arena, p) <= {Run(w, ops).arena.pieces[p].cell}
  {
    InitialSound(w);
    RunSound(w, ops);
    RunDescends(w, ops);
    if p in w.arena.pieces { InvAccounts(Run(w, ops), p); }
  }

  /** Captured and stranded pieces never come back, and their record never changes again. */
  lemma GoneForGood(w: World, ops: seq<Op>, p: Id)
    requires Inv(w) && IsRun(w, ops) && p in w.arena.pieces
    requires w.arena.pieces[p].status.Captured? || Stranded(w, p)
    ensures Run(w, ops).arena.pieces.Keys == w.arena.pieces.Keys
    ensures Run(w, ops).arena.pieces[p] == w.arena.pieces[p]
    ensures Squares(Run(w, ops).arena, p) == {} && Flights(Run(w, ops), p) == {}
  {
    RunDescends(w, ops);
    RunSound(w, ops);
    assert Gone(w.arena, Flyers(w.motions), p) by {
      assert OnBoard(w.arena, p) ==> p in w.arena.grid.Values;
    }
    InvAccounts(Run(w, ops), p);
  }
}
