/** A piece in mid-jump cannot be taken on the square it jumped from. */
module JumpImmunity {
  import opened Chess
  import opened Conservation
  import opened Effects
  import opened Game
  import opened Orders
  import opened Ticks
  import opened Timers
  import opened Wrappers

  /** `j` is a jump in the list whose piece still stands on the square it jumped from. */
  predicate Hovers(a: Arena, jumps: seq<Jump>, j: Jump) {
    j in jumps && PieceAt(a, j.pos) == Some(j.piece) && (forall k :: k in jumps ==> k.piece in a.pieces)
  }

  lemma {:induction false} Guarded(jumps: seq<Jump>, j: Jump, t: int)
    requires j in jumps && t <= j.remaining
    ensures Airborne(jumps, j.pos, t).Some?
    ensures exists k :: k in jumps && Airborne(jumps, j.pos, t) == Some(k.piece)
  {
    if jumps[0].pos == j.pos && jumps[0].remaining >= t {
      assert jumps[0] in jumps;
    } else {
      assert j in jumps[1..];
      Guarded(jumps[1..], j, t);
      var k :| k in jumps[1..] && Airborne(jumps[1..], j.pos, t) == Some(k.piece);
      assert k in jumps;
    }
  }

  lemma EndsAround(a: Arena, r: Arena, m: Motion, verdict: Outcome, pos: Position, p: Id)
    requires Ends(a, r, m, verdict) && PieceAt(a, pos) == Some(p)
    requires verdict.Takes? ==> m.dest != pos
    ensures PieceAt(r, pos) == Some(p)
  {
  }

  lemma ResolveGuarded(a: Arena, jumps: seq<Jump>, aloft: set<Id>, events: seq<Event>, hops: set<(Id, Position)>,
                       j: Jump)
    requires Playable(a, aloft, events, hops) && events != []
    requires Hovers(a, jumps, j) && events[0].Time() <= j.remaining
    ensures var r := Resolve(a, jumps, events[0], aloft + Movers(events[1..]));
      r.pieces.Keys == a.pieces.Keys && PieceAt(r, j.pos) == Some(j.piece)
  {
    var pending := aloft + Movers(events[1..]);
    PeelMovers(aloft, events, hops);
    ResolveKeeps(a, jumps, aloft, events, hops);
    if events[0].Arrival? {
      var m := events[0].motion;
      ArriveForm(a, jumps, m, pending);
      if m.dest == j.pos { Guarded(jumps, j, m.remaining); }
      EndsAround(a, Arrive(a, jumps, m, pending), m, Judge(a, jumps, m, pending), j.pos, j.piece);
    }
  }

  lemma {:induction false} PlayGuarded(a: Arena, jumps: seq<Jump>, aloft: set<Id>, events: seq<Event>,
                                       hops: set<(Id, Position)>, j: Jump)
    requires Playable(a, aloft, events, hops) && Hovers(a, jumps, j)
    requires forall e :: e in events ==> e.Time() <= j.remaining
    ensures PieceAt(Play(a, jumps, aloft, events), j.pos) == Some(j.piece)
    decreases |events|
  {
    if events != [] {
      ResolveGuarded(a, jumps, aloft, events, hops, j);
      Peel(a, jumps, aloft, events, hops);
      PlayGuarded(Resolve(a, jumps, events[0], aloft + Movers(events[1..])), jumps, aloft, events[1..], hops, j);
    }
  }

  /**
   From any point of a tick at which a piece stands on the square of a jump of its own (from the start of the tick on,
   say, or after a bounce back onto it) up to the end of that jump, ties included, it stands there uncaptured.
   */
  lemma SafeInTick(w: World, ms: nat, first: seq<Event>, second: seq<Event>, todo: seq<Event>, j: Jump)
    requires Inv(w) && Timed(w) && ValidOrder(w, ms, first + second + todo)
    requires j in w.jumps && PieceAt(Partway(w, ms, first, second + todo), j.pos) == Some(j.piece)
    requires forall e :: e in second ==> e.Time() <= j.remaining
    ensures PieceAt(Partway(w, ms, first + second, todo), j.pos) == Some(j.piece)
    ensures !Partway(w, ms, first + second, todo).pieces[j.piece].status.Captured?
  {
    var aloft, hops := Aloft(w.motions, ms), Sites(JumpsAfter(w.jumps, ms));
    var here := Partway(w, ms, first, second + todo);
    assert first + second + todo == first + (second + todo);
    PartwaySound(w, ms, first, second + todo);
    StillKnown(w, ms, first, second + todo);
    PartwayPlayable(here, aloft, second, todo, hops);
    PlayGuarded(here, w.jumps, aloft + Movers(todo), second, hops + Hops(todo), j);
    PartwayFurther(w, ms, first, second, todo);
    PartwaySound(w, ms, first + second, todo);
  }

  lemma StillKnown(w: World, ms: nat, done: seq<Event>, todo: seq<Event>)
    requires Inv(w) && Timed(w) && ValidOrder(w, ms, done + todo)
    ensures forall k :: k in w.jumps ==> k.piece in Partway(w, ms, done, todo).pieces
  {
    var aloft, hops := Aloft(w.motions, ms), Sites(JumpsAfter(w.jumps, ms));
    TickPlayable(w, ms, done + todo);
    PartwayPlayable(Rest(w, ms), aloft, done, todo, hops);
    PlayKeeps(Rest(w, ms), w.jumps, aloft + Movers(todo), done, hops + Hops(todo));
    assert forall k :: k in w.jumps ==> Hop(w.arena, k);
  }

  /** Every request for the piece on `pos` to move is refused. */
  ghost predicate StaysPut(w: World, ops: seq<Op>, pos: Position)
    decreases |ops|
  {
    ops == [] || (!MovesFrom(w, ops[0], pos) && StaysPut(Step(w, ops[0]), ops[1..], pos))
  }

  predicate MovesFrom(w: World, op: Op, pos: Position) {
    op.Move? && op.src == pos && MoveAccepted(w, pos, op.dest)
  }

  lemma UpdateHovers(w: World, ms: nat, order: seq<Event>, j: Jump)
    requires Inv(w) && ValidOrder(w, ms, order) && Hovers(w.arena, w.jumps, j) && ms < j.remaining
    ensures var v := Update(w, ms, order);
      LaterJump(j, ms) in v.jumps && PieceAt(v.arena, j.pos) == Some(j.piece)
  {
    var later := LaterJump(j, ms);
    JumpsAfterMembers(w.jumps, ms, later);
    assert later.(remaining := later.remaining + ms) == j;
    forall e | e in order ensures e.Time() <= j.remaining { OrderMembers(w, ms, order, e); }
    TickPlayable(w, ms, order);
    PlayGuarded(Rest(w, ms), w.jumps, Aloft(w.motions, ms), order, Sites(JumpsAfter(w.jumps, ms)), j);
  }

  lemma RequestHovers(w: World, op: Op, j: Jump)
    requires Inv(w) && Hovers(w.arena, w.jumps, j) && !op.Wait? && !MovesFrom(w, op, j.pos)
    ensures j in Step(w, op).jumps && PieceAt(Step(w, op).arena, j.pos) == Some(j.piece)
  {
  }

  lemma StepHovers(w: World, op: Op, j: Jump)
    requires Inv(w) && Timed(w) && Enabled(w, op) && Hovers(w.arena, w.jumps, j)
    requires op.Elapsed() < j.remaining && !MovesFrom(w, op, j.pos)
    ensures Hovers(Step(w, op).arena, Step(w, op).jumps, LaterJump(j, op.Elapsed()))
  {
    var v := Step(w, op);
    StepTimed(w, op);
    assert forall k :: k in v.jumps ==> Hop(v.arena, k);
    if op.Wait? {
      UpdateHovers(w, op.ms, op.order, j);
    } else {
      RequestHovers(w, op, j);
      assert LaterJump(j, 0) == j;
    }
  }

  lemma {:induction false} RunHovers(w: World, ops: seq<Op>, j: Jump)
    requires Inv(w) && Timed(w) && IsRun(w, ops) && Hovers(w.arena, w.jumps, j)
    requires Elapsed(ops) < j.remaining && StaysPut(w, ops, j.pos)
    ensures Hovers(Run(w, ops).arena, Run(w, ops).jumps, LaterJump(j, Elapsed(ops)))
    decreases |ops|
  {
    if ops == [] {
      assert LaterJump(j, 0) == j;
    } else {
      var later := LaterJump(j, ops[0].Elapsed());
      StepSound(w, ops[0]);
      StepTimed(w, ops[0]);
      StepHovers(w, ops[0], j);
      RunHovers(Step(w, ops[0]), ops[1..], later);
      assert LaterJump(later, Elapsed(ops[1..])) == LaterJump(j, Elapsed(ops));
    }
  }

  /**
   From an accepted jump on, through any requests that leave the piece where it is and any updates,
   and up to the very end of the jump within the last update, the piece stands on its square uncaptured.
   */
  lemma JumpProtects(w: World, pos: Position, ops: seq<Op>, ms: nat, done: seq<Event>, todo: seq<Event>)
    requires Inv(w) && Timed(w) && Ready(w, pos)
    requires IsRun(RequestJump(w, pos), ops) && StaysPut(RequestJump(w, pos), ops, pos) && Elapsed(ops) < 1000
    requires ValidOrder(Run(RequestJump(w, pos), ops), ms, done + todo)
    requires forall e :: e in done ==> Elapsed(ops) + e.Time() <= 1000
    ensures var r, p := Partway(Run(RequestJump(w, pos), ops), ms, done, todo), PieceAt(w.arena, pos);
      PieceAt(r, pos) == p && !r.pieces[p.value].status.Captured?
  {
    var p, v := PieceAt(w.arena, pos).value, RequestJump(w, pos);
    var j := Jump(p, pos, JUMP_TIME_MS, JUMP_TIME_MS);
    RequestJumpSound(w, pos);
    RequestJumpTimed(w, pos);
    assert v.jumps[|v.jumps| - 1] == j;
    assert forall k :: k in v.jumps ==> Hop(v.arena, k);
    RunHovers(v, ops, j);
    RunSound(v, ops);
    RunTimed(v, ops);
    var r := Run(v, ops);
    assert [] + done + todo == done + todo && [] + done == done;
    PartwayEnd(r, ms, done + todo);
    SafeInTick(r, ms, [], done, todo, LaterJump(j, Elapsed(ops)));
  }
}
