/** How long a move binds its piece, however the time is cut into updates. */
module Spacing {
  import opened Chess
  import opened Conservation
  import opened Effects
  import opened Game
  import opened Orders
  import opened Timers
  import opened Wrappers

  ghost predicate RestsFor(cooldowns: seq<Cooldown>, p: Id, n: int) {
    exists c :: c in cooldowns && c.piece == p && c.remaining >= n
  }

  ghost predicate FliesFor(motions: seq<Motion>, p: Id, n: int) {
    exists m :: m in motions && m.piece == p && m.remaining + REST_MS >= n
  }

  /** `p` cannot act for another `n` milliseconds. */
  ghost predicate Bound(w: World, p: Id, n: int) {
    || n <= 0
    || FliesFor(w.motions, p, n)
    || RestsFor(w.arena.cooldowns, p, n)
    || Gone(w.arena, Flyers(w.motions), p)
  }

  lemma BoundNotReady(w: World, p: Id, n: int, src: Position)
    requires Inv(w) && Bound(w, p, n) && n > 0
    requires Ready(w, src)
    ensures PieceAt(w.arena, src) != Some(p)
  {
    if PieceAt(w.arena, src) == Some(p) {
      assert OnBoard(w.arena, p);
    }
  }

  /** A motion that ends leaves its piece captured or with a full rest. */
  lemma {:induction false} LandedRests(a: Arena, jumps: seq<Jump>, aloft: set<Id>, events: seq<Event>,
                                       hops: set<(Id, Position)>, m: Motion)
    requires Playable(a, aloft, events, hops) && Arrival(m) in events
    ensures var r := Play(a, jumps, aloft, events);
      Gone(r, aloft, m.piece) || RestsFor(r.cooldowns, m.piece, 3000)
    decreases |events|
  {
    var rest := events[1..];
    var pending := aloft + Movers(rest);
    var next := Resolve(a, jumps, events[0], pending);
    var r := Play(next, jumps, aloft, rest);
    Peel(a, jumps, aloft, events, hops);
    PlayGrants(next, jumps, aloft, rest, hops);
    if events[0] == Arrival(m) {
      PeelMovers(aloft, events, hops);
      ArriveForm(a, jumps, m, pending);
      PlayDescends(next, jumps, aloft, rest, hops);
      LandsOrDies(a, next, m, Judge(a, jumps, m, pending), pending, hops + Hops(rest));
      if !Gone(next, pending, m.piece) {
        var n := |next.cooldowns| - 1;
        assert r.cooldowns[n] == next.cooldowns[n];
      }
    } else {
      assert Arrival(m) in rest;
      LandedRests(next, jumps, aloft, rest, hops, m);
    }
  }

  lemma LandsOrDies(a: Arena, r: Arena, m: Motion, verdict: Outcome, pending: set<Id>, hops: set<(Id, Position)>)
    requires Sound(a, pending + {m.piece}, hops) && m.piece !in pending
    requires Ends(a, r, m, verdict) && !verdict.Void?
    ensures Gone(r, pending, m.piece) ||
            (r.cooldowns != [] && r.cooldowns[|r.cooldowns| - 1] == RestFor(m.piece, false))
  {
    assert m.piece in pending + {m.piece};
  }

  lemma AdvanceBound(w: World, ms: nat, order: seq<Event>, p: Id, n: int)
    requires Inv(w) && ValidOrder(w, ms, order) && Bound(w, p, n)
    ensures Bound(AdvanceTime(w, ms, order), p, n - ms)
  {
    var v := AdvanceTime(w, ms, order);
    var aloft, hops := Aloft(w.motions, ms), Sites(JumpsAfter(w.jumps, ms));
    TickPlayable(w, ms, order);
    OrderCoversFlight(w, ms, order);
    if n <= ms {
    } else if FliesFor(w.motions, p, n) {
      var m :| m in w.motions && m.piece == p && m.remaining + REST_MS >= n;
      OrderMembers(w, ms, order, Arrival(m));
      if m.remaining > ms {
        var later := m.(remaining := m.remaining - ms);
        MotionsAfterMembers(w.motions, ms, later);
        assert later.(remaining := later.remaining + ms) == m;
      } else {
        LandedRests(Rest(w, ms), w.jumps, aloft, order, hops, m);
      }
    } else if RestsFor(w.arena.cooldowns, p, n) {
      var c :| c in w.arena.cooldowns && c.piece == p && c.remaining >= n;
      var later := c.(remaining := c.remaining - ms);
      AgedMembers(w.arena.cooldowns, ms, later);
      assert later.(remaining := later.remaining + ms) == c;
      PlayGrants(Rest(w, ms), w.jumps, aloft, order, hops);
      assert later in v.arena.cooldowns[..|Rest(w, ms).cooldowns|];
    } else {
      AdvanceDescends(w, ms, order);
    }
  }

  lemma StepBound(w: World, op: Op, p: Id, n: int)
    requires Inv(w) && Enabled(w, op) && Bound(w, p, n)
    ensures Bound(Step(w, op), p, n - op.Elapsed())
  {
    var v := Step(w, op);
    match op
    case Wait(ms, order) => AdvanceBound(w, ms, order, p, n);
    case _ =>
      if FliesFor(w.motions, p, n) {
        var m :| m in w.motions && m.piece == p && m.remaining + REST_MS >= n;
        assert m in v.motions;
      } else if Gone(w.arena, Flyers(w.motions), p) {
        StepDescends(w, op);
      }
  }

  lemma {:induction false} RunBound(w: World, ops: seq<Op>, p: Id, n: int)
    requires Inv(w) && IsRun(w, ops) && Bound(w, p, n)
    ensures Bound(Run(w, ops), p, n - Elapsed(ops))
    decreases |ops|
  {
    if ops != [] {
      StepSound(w, ops[0]);
      StepBound(w, ops[0], p, n);
      RunBound(Step(w, ops[0]), ops[1..], p, n - ops[0].Elapsed());
    }
  }

  /**
   After an accepted move over `d` squares, a later request for the same piece finds it ready only once
   the updates in between add up to its flight of 500 ms a square and a rest of 3000 ms.
   */
  lemma RequestSpacing(w: World, src: Position, dest: Position, ops: seq<Op>, again: Position)
    requires Inv(w) && MoveAccepted(w, src, dest)
    requires IsRun(RequestMove(w, src, dest), ops)
    requires Ready(Run(RequestMove(w, src, dest), ops), again)
    requires PieceAt(Run(RequestMove(w, src, dest), ops).arena, again) == PieceAt(w.arena, src)
    ensures Elapsed(ops) >= 500 * Abs(dest.row - src.row) + 3000 && Elapsed(ops) >= 500 * Abs(dest.col - src.col) + 3000
  {
    var p, v := PieceAt(w.arena, src).value, RequestMove(w, src, dest);
    var n := Distance(src, dest) * BASE_MOVE_TIME_MS + REST_MS;
    assert v.motions[|v.motions| - 1].piece == p && v.motions[|v.motions| - 1] in v.motions;
    RequestMoveSound(w, src, dest);
    RunSound(v, ops);
    RunBound(v, ops, p, n);
    if Elapsed(ops) < n { BoundNotReady(Run(v, ops), p, n - Elapsed(ops), again); }
  }
}
