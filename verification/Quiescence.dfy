/** When flights end, and how the board comes to rest after the game is over. */
module Quiescence {
  import opened Chess
  import opened Conservation
  import opened Effects
  import opened Game
  import opened Orders
  import opened Ticks
  import opened Timers
  import opened Wrappers

  lemma StepLasts(w: World, op: Op, m: Motion)
    requires m in w.motions && op.Elapsed() < m.remaining
    ensures LaterMotion(m, op.Elapsed()) in Step(w, op).motions
  {
    match op
    case Wait(ms, order) =>
      var later := LaterMotion(m, ms);
      MotionsAfterMembers(w.motions, ms, later);
      assert later.(remaining := later.remaining + ms) == m;
    case _ =>
      assert LaterMotion(m, 0) == m;
  }

  /** Until its time is up a motion stays in the list, with the time elapsed taken off. */
  lemma {:induction false} MotionLasts(w: World, ops: seq<Op>, m: Motion)
    requires IsRun(w, ops) && m in w.motions && Elapsed(ops) < m.remaining
    ensures LaterMotion(m, Elapsed(ops)) in Run(w, ops).motions
    decreases |ops|
  {
    if ops == [] {
      assert LaterMotion(m, 0) == m;
    } else {
      var later := LaterMotion(m, ops[0].Elapsed());
      StepLasts(w, ops[0], m);
      MotionLasts(Step(w, ops[0]), ops[1..], later);
      assert LaterMotion(later, Elapsed(ops[1..])) == LaterMotion(m, Elapsed(ops));
    }
  }

  /** An update ends a motion exactly when it lasts at least as long as the motion does. */
  lemma FlightEnds(w: World, m: Motion, ms: nat, order: seq<Event>)
    requires Inv(w) && m in w.motions && ValidOrder(w, ms, order)
    ensures m.piece in Flyers(Update(w, ms, order).motions) <==> ms < m.remaining
  {
    OrderCoversFlight(w, ms, order);
    if m.piece in Aloft(w.motions, ms) {
      var n :| n in w.motions && n.remaining > ms && n.piece == m.piece;
      SameFlight(w, n, m);
    }
  }

  /** The update that brings the elapsed time to the remaining time of a motion, and no earlier one, ends it. */
  lemma FlightTime(w: World, ops: seq<Op>, m: Motion, ms: nat, order: seq<Event>)
    requires Inv(w) && IsRun(w, ops) && m in w.motions && Elapsed(ops) < m.remaining
    requires ValidOrder(Run(w, ops), ms, order)
    ensures m.piece in Flyers(Update(Run(w, ops), ms, order).motions) <==> Elapsed(ops) + ms < m.remaining
  {
    var v, later := Run(w, ops), LaterMotion(m, Elapsed(ops));
    MotionLasts(w, ops, m);
    RunSound(w, ops);
    FlightEnds(v, later, ms, order);
    assert later.piece == m.piece && (ms < later.remaining <==> Elapsed(ops) + ms < m.remaining);
  }

  lemma SameFlight(w: World, m: Motion, n: Motion)
    requires DistinctFlyers(w.motions) && m in w.motions && n in w.motions && m.piece == n.piece
    ensures m == n
  {
    var i :| 0 <= i < |w.motions| && w.motions[i] == m;
    var j :| 0 <= j < |w.motions| && w.motions[j] == n;
    assert i == j;
  }

  // ---------- when jumps end ----------

  lemma StepHopLasts(w: World, op: Op, j: Jump)
    requires j in w.jumps && op.Elapsed() < j.remaining
    ensures LaterJump(j, op.Elapsed()) in Step(w, op).jumps
  {
    match op
    case Wait(ms, order) =>
      var later := LaterJump(j, ms);
      JumpsAfterMembers(w.jumps, ms, later);
      assert later.(remaining := later.remaining + ms) == j;
    case _ =>
      assert LaterJump(j, 0) == j;
  }

  /** Until its time is up a jump stays in the list, with the time elapsed taken off. */
  lemma {:induction false} JumpLasts(w: World, ops: seq<Op>, j: Jump)
    requires IsRun(w, ops) && j in w.jumps && Elapsed(ops) < j.remaining
    ensures LaterJump(j, Elapsed(ops)) in Run(w, ops).jumps
    decreases |ops|
  {
    if ops == [] {
      assert LaterJump(j, 0) == j;
    } else {
      var later := LaterJump(j, ops[0].Elapsed());
      StepHopLasts(w, ops[0], j);
      JumpLasts(Step(w, ops[0]), ops[1..], later);
      assert LaterJump(later, Elapsed(ops[1..])) == LaterJump(j, Elapsed(ops));
    }
  }

  /**
   The update that brings the elapsed time to the remaining time of a jump, and no earlier one, plays its touchdown and
   drops it from the list.
   */
  lemma HopTime(w: World, ops: seq<Op>, j: Jump, ms: nat, order: seq<Event>)
    requires IsRun(w, ops) && j in w.jumps && Elapsed(ops) < j.remaining
    requires ValidOrder(Run(w, ops), ms, order)
    ensures var v, later := Run(w, ops), LaterJump(j, Elapsed(ops));
      && (Touchdown(later) in order <==> Elapsed(ops) + ms >= j.remaining)
      && (LaterJump(later, ms) in Update(v, ms, order).jumps <==> Elapsed(ops) + ms < j.remaining)
  {
    var v, later := Run(w, ops), LaterJump(j, Elapsed(ops));
    JumpLasts(w, ops, j);
    OneHop(v, later, ms, order);
  }

  lemma OneHop(v: World, j: Jump, ms: nat, order: seq<Event>)
    requires j in v.jumps && ValidOrder(v, ms, order)
    ensures Touchdown(j) in order <==> ms >= j.remaining
    ensures LaterJump(j, ms) in Update(v, ms, order).jumps <==> ms < j.remaining
  {
    OrderMembers(v, ms, order, Touchdown(j));
    JumpsAfterMembers(v.jumps, ms, LaterJump(j, ms));
    assert LaterJump(j, ms).(remaining := LaterJump(j, ms).remaining + ms) == j;
  }

  /** What a touchdown does: idle and a full long rest for a piece that stands on its jump square, else nothing. */
  lemma TouchdownEffect(w: World, ms: nat, done: seq<Event>, j: Jump, todo: seq<Event>)
    ensures var here, next := Partway(w, ms, done, [Touchdown(j)] + todo), Partway(w, ms, done + [Touchdown(j)], todo);
      if PieceAt(here, j.pos) == Some(j.piece)
      then j.piece in here.pieces
           && next == here.(pieces := here.pieces[j.piece := here.pieces[j.piece].(status := Idle)],
                            cooldowns := here.cooldowns + [Cooldown(j.piece, 3000, 3000, true)])
      else next == here
  {
    PartwayOn(w, ms, done, Touchdown(j), todo);
  }

  /** The piece with record `b` has stayed as it was on its square, or one of the events has captured it there. */
  predicate RestsOrFalls(r: Arena, events: seq<Event>, p: Id, b: Body) {
    && p in r.pieces
    && if r.pieces[p].status.Captured? then
         r.pieces[p] == b.(status := Captured) && exists e :: e in events && e.Arrival? && e.motion.dest == b.cell
       else
         r.pieces[p] == b && OnBoard(r, p)
  }

  /** One event leaves a piece at rest alone, or captures it. */
  lemma OneEvent(a: Arena, jumps: seq<Jump>, aloft: set<Id>, events: seq<Event>, hops: set<(Id, Position)>, p: Id)
    requires Playable(a, aloft, events, hops) && events != [] && OnBoard(a, p) && a.pieces[p].status.Idle?
    ensures var pending := aloft + Movers(events[1..]);
      var next := Resolve(a, jumps, events[0], pending);
      RestsOrFalls(next, [events[0]], p, a.pieces[p]) && (next.pieces[p].status.Captured? ==> Gone(next, pending, p))
  {
    var pending := aloft + Movers(events[1..]);
    PeelMovers(aloft, events, hops);
    if events[0].Arrival? {
      var m := events[0].motion;
      assert m.piece != p && p !in pending;
      ArriveForm(a, jumps, m, pending);
      EndsIdle(a, Arrive(a, jumps, m, pending), m, Judge(a, jumps, m, pending), pending, hops + Hops(events[1..]), p);
    }
  }

  lemma EndsIdle(a: Arena, r: Arena, m: Motion, verdict: Outcome, pending: set<Id>, hops: set<(Id, Position)>, p: Id)
    requires Sound(a, pending + {m.piece}, hops) && m.piece !in pending && Ends(a, r, m, verdict)
    requires OnBoard(a, p) && a.pieces[p].status.Idle? && p != m.piece && p !in pending
    ensures RestsOrFalls(r, [Arrival(m)], p, a.pieces[p]) && (r.pieces[p].status.Captured? ==> Gone(r, pending, p))
  {
    if verdict.Takes? && verdict.prey == p {
      assert Arrival(m) in [Arrival(m)];
    }
  }

  /**
   A piece at rest on its square stays there as it is through the rest of the tick, unless an arrival there captures
   it.
   */
  lemma {:induction false} StaysIdle(a: Arena, jumps: seq<Jump>, aloft: set<Id>, events: seq<Event>,
                                     hops: set<(Id, Position)>, p: Id)
    requires Playable(a, aloft, events, hops) && OnBoard(a, p) && a.pieces[p].status.Idle?
    ensures RestsOrFalls(Play(a, jumps, aloft, events), events, p, a.pieces[p])
    decreases |events|
  {
    if events != [] {
      var rest := events[1..];
      var next := Resolve(a, jumps, events[0], aloft + Movers(rest));
      OneEvent(a, jumps, aloft, events, hops, p);
      Peel(a, jumps, aloft, events, hops);
      if next.pieces[p].status.Captured? {
        PlayDescends(next, jumps, aloft, rest, hops);
        assert events[0] in events;
      } else {
        StaysIdle(next, jumps, aloft, rest, hops, p);
        assert forall e :: e in rest ==> e in events;
      }
    }
  }

  lemma AtTouchdown(w: World, ms: nat, done: seq<Event>, j: Jump, todo: seq<Event>)
    requires Inv(w) && ValidOrder(w, ms, done + ([Touchdown(j)] + todo))
    requires PieceAt(Partway(w, ms, done, [Touchdown(j)] + todo), j.pos) == Some(j.piece)
    ensures var here, next := Partway(w, ms, done, [Touchdown(j)] + todo), Partway(w, ms, done + [Touchdown(j)], todo);
      && Playable(next, Aloft(w.motions, ms), todo, Sites(JumpsAfter(w.jumps, ms)))
      && j.piece in here.pieces && here.pieces[j.piece].cell == j.pos
      && OnBoard(next, j.piece) && next.pieces[j.piece] == here.pieces[j.piece].(status := Idle)
      && next.cooldowns == here.cooldowns + [RestFor(j.piece, true)]
  {
    assert done + [Touchdown(j)] + todo == done + ([Touchdown(j)] + todo);
    PartwaySound(w, ms, done, [Touchdown(j)] + todo);
    PartwaySound(w, ms, done + [Touchdown(j)], todo);
    TouchdownEffect(w, ms, done, j, todo);
  }

  /**
   At the end of the update that ends a jump, a piece that stood on its jump square at the touchdown has its full long
   rest and is there, idle and otherwise unchanged, unless a later arrival on that square has captured it.
   */
  lemma TouchdownRests(w: World, ms: nat, done: seq<Event>, j: Jump, todo: seq<Event>)
    requires Inv(w) && ValidOrder(w, ms, done + ([Touchdown(j)] + todo))
    requires PieceAt(Partway(w, ms, done, [Touchdown(j)] + todo), j.pos) == Some(j.piece)
    ensures var here := Partway(w, ms, done, [Touchdown(j)] + todo);
      var v := Update(w, ms, done + ([Touchdown(j)] + todo)).arena;
      && j.piece in here.pieces && here.pieces[j.piece].cell == j.pos
      && Cooldown(j.piece, 3000, 3000, true) in v.cooldowns
      && RestsOrFalls(v, todo, j.piece, here.pieces[j.piece].(status := Idle))
  {
    var aloft, hops, front := Aloft(w.motions, ms), Sites(JumpsAfter(w.jumps, ms)), done + [Touchdown(j)];
    var here, next := Partway(w, ms, done, [Touchdown(j)] + todo), Partway(w, ms, front, todo);
    assert front + todo == done + ([Touchdown(j)] + todo);
    AtTouchdown(w, ms, done, j, todo);
    StaysIdle(next, w.jumps, aloft, todo, hops, j.piece);
    PlayConcat(Rest(w, ms), w.jumps, aloft, front, todo);
    RestGranted(here, next, w.jumps, aloft, todo, hops, RestFor(j.piece, true));
  }

  lemma RestGranted(here: Arena, next: Arena, jumps: seq<Jump>, aloft: set<Id>, todo: seq<Event>,
                    hops: set<(Id, Position)>, c: Cooldown)
    requires Playable(next, aloft, todo, hops) && next.cooldowns == here.cooldowns + [c]
    ensures c in Play(next, jumps, aloft, todo).cooldowns
  {
    PlayGrants(next, jumps, aloft, todo, hops);
    var n, end := |here.cooldowns|, Play(next, jumps, aloft, todo);
    assert next.cooldowns[n] == c && end.cooldowns[..n + 1][n] == next.cooldowns[n];
  }

  // ---------- after the game is over ----------

  lemma {:induction false} NothingDue(motions: seq<Motion>, jumps: seq<Jump>)
    requires forall m :: m in motions ==> m.remaining > 0
    requires forall j :: j in jumps ==> j.remaining > 0
    ensures MotionsAfter(motions, 0) == motions && JumpsAfter(jumps, 0) == jumps
    decreases |motions| + |jumps|
  {
    if motions != [] {
      NothingDue(motions[1..], jumps);
    } else if jumps != [] {
      NothingDue(motions, jumps[1..]);
    }
  }

  lemma NothingDueYet(w: World)
    requires Timed(w)
    ensures MotionsAfter(w.motions, 0) == w.motions && JumpsAfter(w.jumps, 0) == w.jumps
  {
    assert forall m :: m in w.motions ==> Plan(w.arena, m);
    assert forall j :: j in w.jumps ==> Hop(w.arena, j);
    NothingDue(w.motions, w.jumps);
  }

  /** Once the game is over requests are void, so the lists only run down. */
  lemma {:induction false} ListsRunDown(w: World, ops: seq<Op>, total: nat)
    requires Inv(w) && Timed(w) && w.arena.gameOver && IsRun(w, ops) && total == Elapsed(ops)
    ensures Run(w, ops).arena.gameOver
    ensures Run(w, ops).motions == MotionsAfter(w.motions, total)
    ensures Run(w, ops).jumps == JumpsAfter(w.jumps, total)
    decreases |ops|
  {
    if ops == [] {
      NothingDueYet(w);
    } else {
      var v, rest := Step(w, ops[0]), Elapsed(ops[1..]);
      StepSound(w, ops[0]);
      StepTimed(w, ops[0]);
      StepDescends(w, ops[0]);
      ListsRunDown(v, ops[1..], rest);
      if ops[0].Wait? {
        MotionsAfterTwice(w.motions, ops[0].ms, rest, total);
        JumpsAfterTwice(w.jumps, ops[0].ms, rest, total);
      }
    }
  }

  lemma {:induction false} AllLanded(motions: seq<Motion>, jumps: seq<Jump>, ms: nat)
    ensures MotionsAfter(motions, ms) == [] <==> forall m :: m in motions ==> m.remaining <= ms
    ensures JumpsAfter(jumps, ms) == [] <==> forall j :: j in jumps ==> j.remaining <= ms
    decreases |motions| + |jumps|
  {
    if motions != [] {
      AllLanded(motions[1..], jumps, ms);
      assert motions == [motions[0]] + motions[1..];
    } else if jumps != [] {
      AllLanded(motions, jumps[1..], ms);
      assert jumps == [jumps[0]] + jumps[1..];
    }
  }

  /** After game over everything has landed exactly when the time elapsed covers every remaining time. */
  lemma ComesToRest(w: World, ops: seq<Op>)
    requires Inv(w) && Timed(w) && w.arena.gameOver && IsRun(w, ops)
    ensures Run(w, ops).motions == [] && Run(w, ops).jumps == [] <==>
      (forall m :: m in w.motions ==> m.remaining <= Elapsed(ops)) &&
      (forall j :: j in w.jumps ==> j.remaining <= Elapsed(ops))
  {
    ListsRunDown(w, ops, Elapsed(ops));
    AllLanded(w.motions, w.jumps, Elapsed(ops));
  }

  /** Once nothing is in the air after game over, the board is frozen for good. */
  lemma {:induction false} Frozen(w: World, ops: seq<Op>)
    requires w.arena.gameOver && w.motions == [] && w.jumps == [] && IsRun(w, ops)
    ensures SameButCooldowns(Run(w, ops), w)
    decreases |ops|
  {
    if ops != [] {
      var v := Step(w, ops[0]);
      if ops[0].Wait? {
        assert multiset(ops[0].order) == multiset{} && ops[0].order == [];
      }
      assert SameButCooldowns(v, w) && v.arena.gameOver;
      Frozen(v, ops[1..]);
    }
  }

  /** And every piece that is not captured is then idle: nothing is left hanging in the moving state. */
  lemma AllIdle(w: World, p: Id)
    requires Inv(w) && w.motions == [] && w.jumps == [] && p in w.arena.pieces
    ensures w.arena.pieces[p].status.Idle? || w.arena.pieces[p].status.Captured?
  {
  }
}
