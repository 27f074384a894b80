/** A piece is stranded by a bounce onto an occupied square, and by nothing else. */
module Stranding {
  import opened Chess
  import opened Conservation
  import opened Effects
  import opened Game
  import opened Orders
  import opened Ticks

  /** Every motion leads from a square of the board to a square of the board. */
  ghost predicate Charted(w: World) {
    forall m :: m in w.motions ==> InBounds(w.arena, m.source) && InBounds(w.arena, m.dest)
  }

  /** What the user interface guarantees of its move requests. */
  predicate OnBoardMoves(a: Arena, ops: seq<Op>) {
    forall op :: op in ops && op.Move? ==> InBounds(a, op.dest)
  }

  // ---------- one event ----------

  /** Event `i` of the tick is an arrival of `p` that bounces although the square it left has been filled. */
  ghost predicate StrandsAt(w: World, ms: int, order: seq<Event>, i: nat, p: Id) {
    && i < |order| && order[i].Arrival? && order[i].motion.piece == p
    && var m, here := order[i].motion, Partway(w, ms, order[..i], order[i..]);
    && Judge(here, w.jumps, m, Aloft(w.motions, ms) + Movers(order[i + 1..])).Bounce?
    && m.source in here.grid
  }

  /** The only event after which a piece is gone uncaptured is its own bounce onto an occupied square. */
  lemma EventStrands(a: Arena, jumps: seq<Jump>, aloft: set<Id>, events: seq<Event>, hops: set<(Id, Position)>, p: Id)
    requires Playable(a, aloft, events, hops) && events != [] && p in a.pieces
    requires !Gone(a, aloft + Movers(events), p)
    requires events[0].Arrival? ==> InBounds(a, events[0].motion.source) && InBounds(a, events[0].motion.dest)
    ensures var e, pending := events[0], aloft + Movers(events[1..]);
      var r := Resolve(a, jumps, e, pending);
      && p in r.pieces
      && (Gone(r, pending, p) && !r.pieces[p].status.Captured? <==>
            e.Arrival? && e.motion.piece == p && Judge(a, jumps, e.motion, pending).Bounce? &&
            e.motion.source in a.grid)
  {
    var e, pending := events[0], aloft + Movers(events[1..]);
    PeelMovers(aloft, events, hops);
    ResolveDescends(a, jumps, aloft, events, hops);
    if e.Arrival? {
      ArriveMoves(a, jumps, e.motion, pending, hops + Hops(events[1..]));
      ArriveForm(a, jumps, e.motion, pending);
      if e.motion.piece != p && OnBoard(a, p) {
        TakenIsCaptured(a, Arrive(a, jumps, e.motion, pending), e.motion, Judge(a, jumps, e.motion, pending), p);
      }
    }
  }

  lemma TakenIsCaptured(a: Arena, r: Arena, m: Motion, verdict: Outcome, p: Id)
    requires Ends(a, r, m, verdict) && p != m.piece && p in a.pieces
    ensures verdict == Takes(p) ==> p in r.pieces && r.pieces[p].status.Captured?
  {
  }

  // ---------- one tick ----------

  /** `p` is gone before event `k` of the tick. */
  ghost predicate GoneBefore(w: World, ms: int, order: seq<Event>, k: nat, p: Id)
    requires k <= |order|
  {
    Gone(Partway(w, ms, order[..k], order[k..]), Aloft(w.motions, ms) + Movers(order[k..]), p)
  }

  lemma PartwayPieces(w: World, ms: int, order: seq<Event>, k: nat)
    requires Inv(w) && ValidOrder(w, ms, order) && k <= |order|
    ensures var here := Partway(w, ms, order[..k], order[k..]);
      && Playable(here, Aloft(w.motions, ms), order[k..], Sites(JumpsAfter(w.jumps, ms)))
      && here.pieces.Keys == w.arena.pieces.Keys && here.width == w.arena.width && here.height == w.arena.height
  {
    assert order[..k] + order[k..] == order;
    PartwaySound(w, ms, order[..k], order[k..]);
    TickPlayable(w, ms, order);
    PartwayPlayable(Rest(w, ms), Aloft(w.motions, ms), order[..k], order[k..], Sites(JumpsAfter(w.jumps, ms)));
    PlayDescends(Rest(w, ms), w.jumps, Aloft(w.motions, ms) + Movers(order[k..]), order[..k],
                 Sites(JumpsAfter(w.jumps, ms)) + Hops(order[k..]));
  }

  lemma NextPoint(w: World, ms: int, order: seq<Event>, k: nat)
    requires k < |order|
    ensures Partway(w, ms, order[..k + 1], order[k + 1..])
         == Resolve(Partway(w, ms, order[..k], order[k..]), w.jumps, order[k],
                    Aloft(w.motions, ms) + Movers(order[k + 1..]))
  {
    assert order[..k + 1] == order[..k] + [order[k]] && order[k..] == [order[k]] + order[k + 1..];
    PartwayOn(w, ms, order[..k], order[k], order[k + 1..]);
  }

  lemma EventAt(w: World, ms: int, order: seq<Event>, k: nat, p: Id)
    requires Inv(w) && Charted(w) && ValidOrder(w, ms, order) && p in w.arena.pieces
    requires k < |order| && !GoneBefore(w, ms, order, k, p)
    ensures var r := Partway(w, ms, order[..k + 1], order[k + 1..]);
      p in r.pieces &&
      (GoneBefore(w, ms, order, k + 1, p) && !r.pieces[p].status.Captured? <==> StrandsAt(w, ms, order, k, p))
  {
    var here, aloft := Partway(w, ms, order[..k], order[k..]), Aloft(w.motions, ms);
    PartwayPieces(w, ms, order, k);
    NextPoint(w, ms, order, k);
    assert order[k..][0] == order[k] && order[k..][1..] == order[k + 1..];
    if order[k].Arrival? {
      OrderMembers(w, ms, order, order[k]);
      assert order[k].motion in w.motions;
    }
    EventStrands(here, w.jumps, aloft, order[k..], Sites(JumpsAfter(w.jumps, ms)), p);
  }

  /** What is gone in mid-tick is gone at its end, with the same record, and no later event is its arrival. */
  lemma GoneOn(w: World, ms: int, order: seq<Event>, k: nat, p: Id)
    requires Inv(w) && ValidOrder(w, ms, order) && k <= |order| && GoneBefore(w, ms, order, k, p)
    ensures var v, here := AdvanceTime(w, ms, order), Partway(w, ms, order[..k], order[k..]);
      Gone(v.arena, Aloft(w.motions, ms), p) && v.arena.pieces[p] == here.pieces[p]
    ensures forall i: nat :: k <= i ==> !StrandsAt(w, ms, order, i, p)
  {
    var here, aloft := Partway(w, ms, order[..k], order[k..]), Aloft(w.motions, ms);
    PartwayPieces(w, ms, order, k);
    PlayDescends(here, w.jumps, aloft, order[k..], Sites(JumpsAfter(w.jumps, ms)));
    PlayConcat(Rest(w, ms), w.jumps, aloft, order[..k], order[k..]);
    assert order[..k] + order[k..] == order;
    forall i: nat | k <= i ensures !StrandsAt(w, ms, order, i, p) {
      if i < |order| {
        assert order[k..][i - k] == order[i] && order[i] in order[k..];
      }
    }
  }

  lemma SkipOne(w: World, ms: int, order: seq<Event>, k: nat, p: Id)
    requires !StrandsAt(w, ms, order, k, p)
    ensures (exists i: nat :: k <= i && StrandsAt(w, ms, order, i, p)) <==>
      exists i: nat :: k + 1 <= i && StrandsAt(w, ms, order, i, p)
  {
  }

  lemma TickEnds(w: World, ms: int, order: seq<Event>, p: Id)
    requires Inv(w) && ValidOrder(w, ms, order) && p in w.arena.pieces && !GoneBefore(w, ms, order, |order|, p)
    ensures var v := AdvanceTime(w, ms, order); p in v.arena.pieces && !Gone(v.arena, Aloft(w.motions, ms), p)
  {
    var aloft := Aloft(w.motions, ms);
    assert order[..|order|] == order && order[|order|..] == [];
    PartwayPieces(w, ms, order, |order|);
    PartwayEnd(w, ms, order);
    assert aloft + Movers([]) == aloft;
  }

  lemma {:induction false} TickFrom(w: World, ms: int, order: seq<Event>, k: nat, p: Id)
    requires Inv(w) && Charted(w) && ValidOrder(w, ms, order) && p in w.arena.pieces
    requires k <= |order| && !GoneBefore(w, ms, order, k, p)
    ensures var v := AdvanceTime(w, ms, order);
      p in v.arena.pieces &&
      (Gone(v.arena, Aloft(w.motions, ms), p) && !v.arena.pieces[p].status.Captured? <==>
        exists i: nat :: k <= i && StrandsAt(w, ms, order, i, p))
    decreases |order| - k
  {
    if k == |order| {
      TickEnds(w, ms, order, p);
    } else {
      EventAt(w, ms, order, k, p);
      if GoneBefore(w, ms, order, k + 1, p) {
        GoneOn(w, ms, order, k + 1, p);
      } else {
        TickFrom(w, ms, order, k + 1, p);
        SkipOne(w, ms, order, k, p);
      }
    }
  }

  /** A tick strands a piece exactly when one of its events is a bounce of that piece onto an occupied square. */
  lemma TickStrands(w: World, ms: int, order: seq<Event>, p: Id)
    requires Inv(w) && Charted(w) && ValidOrder(w, ms, order) && p in w.arena.pieces
    requires !Gone(w.arena, Flyers(w.motions), p)
    ensures Stranded(Update(w, ms, order), p) <==> exists i :: StrandsAt(w, ms, order, i, p)
  {
    var v := AdvanceTime(w, ms, order);
    assert order[..0] == [] && order[0..] == order;
    PartwayEnd(w, ms, order);
    OrderCoversFlight(w, ms, order);
    assert Aloft(w.motions, ms) + Movers(order) == Flyers(w.motions);
    TickFrom(w, ms, order, 0, p);
    AdvanceSound(w, ms, order);
    StrandedIs(v, p);
  }

  /** A stranded piece is one that is gone but not captured. */
  lemma StrandedIs(w: World, p: Id)
    requires Inv(w)
    ensures Stranded(w, p) <==> Gone(w.arena, Flyers(w.motions), p) && !w.arena.pieces[p].status.Captured?
  {
    if OnBoard(w.arena, p) { assert p in w.arena.grid.Values; }
  }

  // ---------- whole runs ----------

  lemma StepCharted(w: World, op: Op)
    requires Inv(w) && Charted(w) && Enabled(w, op) && (op.Move? ==> InBounds(w.arena, op.dest))
    ensures Charted(Step(w, op))
  {
    StepDescends(w, op);
    var v := Step(w, op);
    if op.Wait? {
      forall m | m in v.motions ensures InBounds(w.arena, m.source) && InBounds(w.arena, m.dest) {
        MotionsAfterMembers(w.motions, op.ms, m);
      }
    }
  }

  lemma {:induction false} RunCharted(w: World, ops: seq<Op>)
    requires Inv(w) && Charted(w) && IsRun(w, ops) && OnBoardMoves(w.arena, ops)
    ensures Charted(Run(w, ops))
    decreases |ops|
  {
    if ops != [] {
      assert ops[0] in ops && forall op :: op in ops[1..] ==> op in ops;
      StepSound(w, ops[0]);
      StepDescends(w, ops[0]);
      StepCharted(w, ops[0]);
      RunCharted(Step(w, ops[0]), ops[1..]);
    }
  }

  /** A request takes no piece off the board for good. */
  lemma RequestKeeps(w: World, op: Op, p: Id)
    requires Inv(w) && !op.Wait? && p in w.arena.pieces && !Gone(w.arena, Flyers(w.motions), p)
    ensures !Gone(Step(w, op).arena, Flyers(Step(w, op).motions), p)
  {
    var v := Step(w, op);
    if op.Move? && MoveAccepted(w, op.src, op.dest) {
      assert Flyers(v.motions) == Flyers(w.motions) + {PieceAt(w.arena, op.src).value};
    }
  }

  /** Update `k` of the run has an arrival of `p` that bounces onto an occupied square. */
  ghost predicate StrandedBy(w: World, ops: seq<Op>, k: nat, p: Id) {
    k < |ops| && ops[k].Wait? && exists i :: StrandsAt(Run(w, ops[..k]), ops[k].ms, ops[k].order, i, p)
  }

  lemma StrandedByNext(w: World, ops: seq<Op>, k: nat, p: Id)
    requires ops != []
    ensures StrandedBy(w, ops, k + 1, p) <==> StrandedBy(Step(w, ops[0]), ops[1..], k, p)
  {
    if k + 1 < |ops| {
      var front, v := ops[..k + 1], Step(w, ops[0]);
      assert front[0] == ops[0] && front[1..] == ops[1..][..k];
      assert Run(w, front) == Run(v, ops[1..][..k]);
      assert ops[k + 1] == ops[1..][k];
    }
  }

  /** What is gone is not stranded once more. */
  lemma {:induction false} NeverAgain(w: World, ops: seq<Op>, k: nat, p: Id)
    requires Inv(w) && IsRun(w, ops) && Gone(w.arena, Flyers(w.motions), p)
    ensures !StrandedBy(w, ops, k, p)
    decreases k
  {
    if ops != [] {
      if k > 0 {
        StepSound(w, ops[0]);
        StepDescends(w, ops[0]);
        NeverAgain(Step(w, ops[0]), ops[1..], k - 1, p);
        StrandedByNext(w, ops, k - 1, p);
      } else if ops[0].Wait? {
        var ms, order := ops[0].ms, ops[0].order;
        OrderCoversFlight(w, ms, order);
        assert order[..0] == [] && order[0..] == order && Movers(order) + Aloft(w.motions, ms) == Flyers(w.motions);
        TickPlayable(w, ms, order);
        PartwayEnd(w, ms, order);
        GoneOn(w, ms, order, 0, p);
        assert ops[..0] == [];
      }
    }
  }

  lemma {:induction false} StrandsOverRun(w: World, ops: seq<Op>, p: Id)
    requires Inv(w) && Charted(w) && IsRun(w, ops) && OnBoardMoves(w.arena, ops)
    requires p in w.arena.pieces && !Gone(w.arena, Flyers(w.motions), p)
    ensures Stranded(Run(w, ops), p) <==> exists k :: StrandedBy(w, ops, k, p)
    decreases |ops|
  {
    if ops == [] {
      StrandedIs(w, p);
    } else {
      assert ops[0] in ops && forall op :: op in ops[1..] ==> op in ops;
      var v := Step(w, ops[0]);
      StepSound(w, ops[0]);
      StepDescends(w, ops[0]);
      StepCharted(w, ops[0]);
      FirstStrands(w, ops, v, p);
      if Gone(v.arena, Flyers(v.motions), p) {
        LaterStrands(w, ops, v, p);
      } else {
        StrandedIs(v, p);
        StrandsOverRun(v, ops[1..], p);
        Shifted(w, ops, v, p);
      }
    }
  }

  lemma FirstStrands(w: World, ops: seq<Op>, v: World, p: Id)
    requires Inv(w) && Charted(w) && ops != [] && Enabled(w, ops[0]) && v == Step(w, ops[0])
    requires p in w.arena.pieces && !Gone(w.arena, Flyers(w.motions), p)
    ensures Stranded(v, p) <==> StrandedBy(w, ops, 0, p)
  {
    assert ops[..0] == [] && Run(w, ops[..0]) == w;
    if ops[0].Wait? {
      TickStrands(w, ops[0].ms, ops[0].order, p);
      assert v == Update(w, ops[0].ms, ops[0].order);
    } else {
      RequestKeeps(w, ops[0], p);
      StepSound(w, ops[0]);
      StrandedIs(v, p);
    }
  }

  /** Once the piece is gone, the rest of the run neither strands nor captures it. */
  lemma LaterStrands(w: World, ops: seq<Op>, v: World, p: Id)
    requires ops != [] && v == Step(w, ops[0]) && Inv(v) && IsRun(v, ops[1..]) && Gone(v.arena, Flyers(v.motions), p)
    requires Stranded(v, p) <==> StrandedBy(w, ops, 0, p)
    ensures Stranded(Run(w, ops), p) <==> exists k :: StrandedBy(w, ops, k, p)
  {
    RunSound(v, ops[1..]);
    RunDescends(v, ops[1..]);
    StrandedIs(v, p);
    StrandedIs(Run(v, ops[1..]), p);
    forall k: nat | k > 0 ensures !StrandedBy(w, ops, k, p) { NotLater(w, ops, v, k - 1, p); }
  }

  lemma NotLater(w: World, ops: seq<Op>, v: World, k: nat, p: Id)
    requires ops != [] && v == Step(w, ops[0]) && Inv(v) && IsRun(v, ops[1..]) && Gone(v.arena, Flyers(v.motions), p)
    ensures !StrandedBy(w, ops, k + 1, p)
  {
    NeverAgain(v, ops[1..], k, p);
    StrandedByNext(w, ops, k, p);
  }

  lemma Shifted(w: World, ops: seq<Op>, v: World, p: Id)
    requires ops != [] && v == Step(w, ops[0]) && !StrandedBy(w, ops, 0, p)
    ensures (exists k :: StrandedBy(w, ops, k, p)) <==> exists k :: StrandedBy(v, ops[1..], k, p)
  {
    if k: nat :| StrandedBy(w, ops, k, p) {
      StrandedByNext(w, ops, k - 1, p);
    }
    if k: nat :| StrandedBy(v, ops[1..], k, p) {
      StrandedByNext(w, ops, k, p);
    }
  }

  /**
   With moves that stay on the board, a piece is stranded at the end of a run exactly when some update of the run has
   an arrival of that piece that bounces although the square it left has been filled.
   */
  lemma StrandedByBounce(w: World, ops: seq<Op>, p: Id)
    requires Initial(w) && IsRun(w, ops) && OnBoardMoves(w.arena, ops)
    ensures Stranded(Run(w, ops), p) <==> p in w.arena.pieces && exists k :: StrandedBy(w, ops, k, p)
  {
    InitialSound(w);
    RunDescends(w, ops);
    if p in w.arena.pieces {
      StrandsOverRun(w, ops, p);
    }
  }

  /**
   Every piece is on the one square its cell names, or in one motion, or captured, or stranded by a bounce onto an
   occupied square, and only one of these.
   */
  lemma FourFates(w: World, ops: seq<Op>, p: Id)
    requires Initial(w) && IsRun(w, ops) && OnBoardMoves(w.arena, ops) && p in w.arena.pieces
    ensures var v := Run(w, ops);
      && p in v.arena.pieces && Squares(v.arena, p) <= {v.arena.pieces[p].cell}
      && |Squares(v.arena, p)| + |Flights(v, p)| + (if v.arena.pieces[p].status.Captured? then 1 else 0)
         + (if exists k :: StrandedBy(w, ops, k, p) then 1 else 0) == 1
  {
    Conservation.Conservation(w, ops, p);
    StrandedByBounce(w, ops, p);
  }
}
