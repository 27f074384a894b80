/** What a request does, and what a move or jump comes to when nothing else happens. */
module Requests {
  import opened Chess
  import opened Conservation
  import opened Effects
  import opened Game
  import opened Landings
  import opened Orders
  import opened Rays
  import opened Ticks
  import opened Timers
  import opened Wrappers

  // ---------- what is accepted ----------

  predicate Occupied(a: Arena, pos: Position) {
    pos in a.grid && a.grid[pos] in a.pieces
  }

  /** The game is on, and on `src` stands a piece that neither flies nor rests. */
  predicate FreeToAct(w: World, src: Position) {
    && !w.arena.gameOver && Occupied(w.arena, src)
    && (forall m :: m in w.motions ==> m.piece != w.arena.grid[src])
    && (forall c :: c in w.arena.cooldowns ==> c.piece != w.arena.grid[src])
  }

  /** The rules let the piece on `src` go to `dest`. */
  ghost predicate Permitted(a: Arena, src: Position, dest: Position)
    requires Occupied(a, src)
  {
    var b := a.pieces[a.grid[src]];
    && (Occupied(a, dest) ==> a.pieces[a.grid[dest]].color != b.color)
    && Reaches(a.height, b.kind, b.color, src, dest, Occupied(a, dest))
    && (b.kind.Knight? || forall q :: Between(src, dest, q) ==> !Occupied(a, q))
  }

  /** `n` is the larger of the distances in rows and in columns. */
  predicate Longer(src: Position, dest: Position, n: int) {
    && -n <= dest.row - src.row <= n && -n <= dest.col - src.col <= n
    && (dest.row - src.row == n || src.row - dest.row == n || dest.col - src.col == n || src.col - dest.col == n)
  }

  /** What the state becomes when the piece on `src` sets out. */
  ghost predicate SetsOut(w: World, v: World, src: Position, dest: Position)
    requires Occupied(w.arena, src)
  {
    var a, p := w.arena, w.arena.grid[src];
    var enemy := Occupied(a, dest) && a.pieces[a.grid[dest]].color != a.pieces[p].color;
    var victim := if enemy then Some(a.grid[dest]) else None;
    exists n: nat :: Longer(src, dest, n) &&
      v == w.(arena := a.(pieces := a.pieces[p := a.pieces[p].(status := Moving)], grid := a.grid - {src}),
              motions := w.motions + [Motion(p, src, dest, 500 * n, 500 * n, victim)])
  }

  lemma ReadyIsFree(w: World, src: Position)
    ensures Ready(w, src) <==> FreeToAct(w, src)
  {
  }

  lemma AcceptedIsPermitted(w: World, src: Position, dest: Position)
    ensures MoveAccepted(w, src, dest) <==> FreeToAct(w, src) && Permitted(w.arena, src, dest)
  {
    ReadyIsFree(w, src);
    if FreeToAct(w, src) {
      ValidMoveMeaning(w.arena, src, dest);
      assert forall q :: PieceAt(w.arena, q).None? <==> !Occupied(w.arena, q);
    }
  }

  lemma DistanceIsLonger(src: Position, dest: Position)
    ensures Longer(src, dest, Distance(src, dest))
  {
  }

  /** A move is begun exactly when the piece is free to act and the rules permit it, and otherwise nothing happens. */
  lemma MoveRequest(w: World, src: Position, dest: Position)
    ensures FreeToAct(w, src) && Permitted(w.arena, src, dest) ==> SetsOut(w, RequestMove(w, src, dest), src, dest)
    ensures !(FreeToAct(w, src) && Permitted(w.arena, src, dest)) ==> RequestMove(w, src, dest) == w
  {
    AcceptedIsPermitted(w, src, dest);
    DistanceIsLonger(src, dest);
  }

  /** A jump of 1000 ms is begun exactly when the piece is free to act, and otherwise nothing happens. */
  lemma JumpRequest(w: World, pos: Position)
    ensures FreeToAct(w, pos) ==>
      var a, p := w.arena, w.arena.grid[pos];
      RequestJump(w, pos) == w.(arena := a.(pieces := a.pieces[p := a.pieces[p].(status := Moving)]),
                                jumps := w.jumps + [Jump(p, pos, 1000, 1000)])
    ensures !FreeToAct(w, pos) ==> RequestJump(w, pos) == w
  {
    ReadyIsFree(w, pos);
  }

  // ---------- one move, one jump ----------

  lemma OnlyEvent(w: World, ms: nat, order: seq<Event>, e: Event)
    requires ValidOrder(w, ms, order) && DueMotions(w.motions, ms) + DueJumps(w.jumps, ms) == [e]
    ensures order == [e]
  {
    assert |multiset(order)| == |multiset([e])| == 1;
    assert order[0] in multiset(order);
  }

  /** With a single motion in the air, an update that is long enough ends it and does nothing else. */
  lemma LoneFlight(w: World, m: Motion, ms: nat, order: seq<Event>)
    requires w.motions == [m] && w.jumps == [] && m.remaining <= ms && ValidOrder(w, ms, order)
    ensures order == [Arrival(m)]
    ensures Just(w, ms, [], m, []) == Rest(w, ms)
    ensures AdvanceTime(w, ms, order) == World(Then(w, ms, [], m, []), [], [], w.whiteKings, w.blackKings)
  {
    assert w.motions[1..] == [];
    OnlyEvent(w, ms, order, Arrival(m));
    assert [Arrival(m)] + [] == order && [] + [Arrival(m)] == order;
    assert MotionsAfter([], ms) == [] && MotionsAfter(w.motions, ms) == [];
    PartwayEnd(w, ms, order);
  }

  /** The board just before a lone flight from `src` ends. */
  function Underway(a: Arena, src: Position, ms: int): Arena
    requires Occupied(a, src)
  {
    a.(pieces := a.pieces[a.grid[src] := a.pieces[a.grid[src]].(status := Moving)],
       grid := a.grid - {src}, cooldowns := Aged(a.cooldowns, ms))
  }

  /** The motion of a permitted move over `n` squares. */
  function Flight(a: Arena, src: Position, dest: Position, n: int): Motion
    requires Occupied(a, src)
  {
    Motion(a.grid[src], src, dest, 500 * n, 500 * n, if Occupied(a, dest) then Some(a.grid[dest]) else None)
  }

  /**
   A move that the rules permit, made while nothing is in the air, is finished by any update of at least 500 ms a
   square: the piece is on its target, with any enemy that stood there captured, and rests.
   */
  lemma OneMove(w: World, src: Position, dest: Position, n: nat, ms: nat, order: seq<Event>)
    requires Inv(w) && Timed(w) && w.motions == [] && w.jumps == []
    requires FreeToAct(w, src) && Permitted(w.arena, src, dest) && Longer(src, dest, n) && ms >= 500 * n
    requires ValidOrder(RequestMove(w, src, dest), ms, order)
    ensures var v := AdvanceTime(RequestMove(w, src, dest), ms, order);
      && v == World(v.arena, [], [], w.whiteKings, w.blackKings)
      && var here, m := Underway(w.arena, src, ms), Flight(w.arena, src, dest, n);
         if Occupied(w.arena, dest) then Taken(here, v.arena, m, w.arena.grid[dest]) else Settled(here, v.arena, m)
  {
    var v, m := RequestMove(w, src, dest), Flight(w.arena, src, dest, n);
    MoveRequest(w, src, dest);
    RequestMoveSound(w, src, dest);
    RequestMoveTimed(w, src, dest);
    OneFlight(w, v, src, dest, n);
    LoneFlight(v, m, ms, order);
    Lands(v, m, ms, Underway(w.arena, src, ms), Occupied(w.arena, dest)) by {
      assert src != dest;
    }
  }

  lemma OneFlight(w: World, v: World, src: Position, dest: Position, n: nat)
    requires w.motions == [] && Occupied(w.arena, src) && SetsOut(w, v, src, dest) && Longer(src, dest, n)
    requires Permitted(w.arena, src, dest)
    ensures src != dest && v.jumps == w.jumps && v.motions == [Flight(w.arena, src, dest, n)]
    ensures v.whiteKings == w.whiteKings && v.blackKings == w.blackKings
    ensures forall ms :: Rest(v, ms) == Underway(w.arena, src, ms)
  {
    assert forall k: nat :: Longer(src, dest, k) ==> k == n;
  }

  lemma Lands(v: World, m: Motion, ms: nat, here: Arena, taking: bool)
    requires Inv(v) && Timed(v) && v.jumps == [] && ValidOrder(v, ms, [Arrival(m)])
    requires here == Rest(v, ms) == Just(v, ms, [], m, []) && m.piece in here.pieces
    requires if taking then m.dest in here.grid && here.grid[m.dest] in here.pieces
                            && here.pieces[here.grid[m.dest]].color != here.pieces[m.piece].color
             else m.dest !in here.grid
    ensures if taking then Taken(here, Then(v, ms, [], m, []), m, here.grid[m.dest])
            else Settled(here, Then(v, ms, [], m, []), m)
  {
    assert [] + ([Arrival(m)] + []) == [Arrival(m)];
    if taking {
      TakesEnemy(v, ms, [], m, [], here.grid[m.dest]);
    } else {
      FindsRoom(v, ms, [], m, []);
    }
  }

  /** A jump made while nothing is in the air leaves the piece idle and at rest after any update of at least 1000 ms. */
  lemma OneJump(w: World, pos: Position, ms: nat, order: seq<Event>)
    requires w.motions == [] && w.jumps == [] && FreeToAct(w, pos) && ms >= 1000
    requires ValidOrder(RequestJump(w, pos), ms, order)
    ensures var a, p := w.arena, w.arena.grid[pos];
      AdvanceTime(RequestJump(w, pos), ms, order) ==
        w.(arena := a.(pieces := a.pieces[p := a.pieces[p].(status := Idle)],
                       cooldowns := Aged(a.cooldowns, ms) + [Cooldown(p, 3000, 3000, true)]))
  {
    var v, p := RequestJump(w, pos), w.arena.grid[pos];
    JumpRequest(w, pos);
    var j := Jump(p, pos, 1000, 1000);
    assert v.jumps == [j] && v.jumps[1..] == [] && v.motions == [];
    OnlyEvent(v, ms, order, Touchdown(j));
    PlayOne(Rest(v, ms), v.jumps, Aloft(v.motions, ms), Touchdown(j));
    var r := AdvanceTime(v, ms, order);
    assert r.arena == Land(Rest(v, ms), j);
    assert JumpsAfter([], ms) == [] && JumpsAfter(v.jumps, ms) == [];
    assert PieceAt(Rest(v, ms), pos) == Some(p);
    assert r.arena.pieces == w.arena.pieces[p := w.arena.pieces[p].(status := Idle)];
  }

  // ---------- how long a piece rests ----------

  predicate Concerns(e: Event, p: Id) {
    if e.Arrival? then e.motion.piece == p else e.jump.piece == p
  }

  lemma ResolveRests(a: Arena, jumps: seq<Jump>, e: Event, pending: set<Id>, c: Cooldown)
    requires !Concerns(e, c.piece) && BoardSound(a)
    ensures c in Resolve(a, jumps, e, pending).cooldowns <==> c in a.cooldowns
  {
    if e.Arrival? {
      ArriveForm(a, jumps, e.motion, pending);
    }
  }

  lemma {:induction false} PlayRests(a: Arena, jumps: seq<Jump>, aloft: set<Id>, events: seq<Event>,
                                     hops: set<(Id, Position)>, c: Cooldown)
    requires Playable(a, aloft, events, hops) && forall e :: e in events ==> !Concerns(e, c.piece)
    ensures c in Play(a, jumps, aloft, events).cooldowns <==> c in a.cooldowns
    decreases |events|
  {
    if events != [] {
      Peel(a, jumps, aloft, events, hops);
      ResolveRests(a, jumps, events[0], aloft + Movers(events[1..]), c);
      PlayRests(Resolve(a, jumps, events[0], aloft + Movers(events[1..])), jumps, aloft, events[1..], hops, c);
    }
  }

  /** `p` is neither in flight nor in a jump. */
  predicate Grounded(w: World, p: Id) {
    (forall m :: m in w.motions ==> m.piece != p) && (forall j :: j in w.jumps ==> j.piece != p)
  }

  predicate Asks(w: World, op: Op, p: Id) {
    match op
    case Move(src, _) => Occupied(w.arena, src) && w.arena.grid[src] == p
    case Leap(pos) => Occupied(w.arena, pos) && w.arena.grid[pos] == p
    case Wait(_, _) => false
  }

  /** None of the requests is for `p`. */
  ghost predicate LeftAlone(w: World, ops: seq<Op>, p: Id)
    decreases |ops|
  {
    ops == [] || (!Asks(w, ops[0], p) && LeftAlone(Step(w, ops[0]), ops[1..], p))
  }

  lemma TickRests(w: World, ms: nat, order: seq<Event>, c: Cooldown)
    requires Inv(w) && ValidOrder(w, ms, order) && Grounded(w, c.piece)
    ensures Grounded(Update(w, ms, order), c.piece)
    ensures c in Update(w, ms, order).arena.cooldowns <==>
      c.remaining > 0 && c.(remaining := c.remaining + ms) in w.arena.cooldowns
  {
    TickPlayable(w, ms, order);
    forall e | e in order ensures !Concerns(e, c.piece) { OrderMembers(w, ms, order, e); }
    PlayRests(Rest(w, ms), w.jumps, Aloft(w.motions, ms), order, Sites(JumpsAfter(w.jumps, ms)), c);
    AgedMembers(w.arena.cooldowns, ms, c);
    var v := Update(w, ms, order);
    forall m | m in v.motions ensures m.piece != c.piece { MotionsAfterMembers(w.motions, ms, m); }
    forall j | j in v.jumps ensures j.piece != c.piece { JumpsAfterMembers(w.jumps, ms, j); }
  }

  lemma StepRests(w: World, op: Op, c: Cooldown)
    requires Inv(w) && Timed(w) && Enabled(w, op) && Grounded(w, c.piece) && !Asks(w, op, c.piece)
    ensures Grounded(Step(w, op), c.piece)
    ensures c in Step(w, op).arena.cooldowns <==>
      c.remaining > 0 && c.(remaining := c.remaining + op.Elapsed()) in w.arena.cooldowns
  {
    if op.Wait? {
      TickRests(w, op.ms, op.order, c);
    } else {
      AskedRests(w, op, c);
    }
  }

  lemma AskedRests(w: World, op: Op, c: Cooldown)
    requires Timed(w) && !op.Wait? && Grounded(w, c.piece) && !Asks(w, op, c.piece)
    ensures Grounded(Step(w, op), c.piece)
    ensures c in Step(w, op).arena.cooldowns <==>
      c.remaining > 0 && c.(remaining := c.remaining + 0) in w.arena.cooldowns
  {
    assert c.(remaining := c.remaining + 0) == c;
  }

  lemma {:induction false} RunRests(w: World, ops: seq<Op>, c: Cooldown, before: Cooldown)
    requires Inv(w) && Timed(w) && IsRun(w, ops) && Grounded(w, c.piece) && LeftAlone(w, ops, c.piece)
    requires before == c.(remaining := c.remaining + Elapsed(ops))
    ensures c in Run(w, ops).arena.cooldowns <==> c.remaining > 0 && before in w.arena.cooldowns
    decreases |ops|
  {
    if ops != [] {
      var mid, v := c.(remaining := c.remaining + Elapsed(ops[1..])), Step(w, ops[0]);
      NextRests(w, v, ops[0], mid, before);
      RunRests(v, ops[1..], c, mid);
    } else {
      assert before == c;
    }
  }

  lemma NextRests(w: World, v: World, op: Op, mid: Cooldown, before: Cooldown)
    requires Inv(w) && Timed(w) && Enabled(w, op) && Grounded(w, mid.piece) && !Asks(w, op, mid.piece)
    requires v == Step(w, op) && before == mid.(remaining := mid.remaining + op.Elapsed())
    ensures Inv(v) && Timed(v) && Grounded(v, mid.piece)
    ensures mid in v.arena.cooldowns <==> mid.remaining > 0 && before in w.arena.cooldowns
  {
    StepSound(w, op);
    StepTimed(w, op);
    StepRests(w, op, mid);
  }

  /** A piece that is left alone rests exactly as long as its cooldowns say. */
  lemma RestTime(w: World, ops: seq<Op>, p: Id)
    requires Inv(w) && Timed(w) && IsRun(w, ops) && Grounded(w, p) && LeftAlone(w, ops, p)
    ensures p in Resting(Run(w, ops).arena.cooldowns) <==>
      exists c :: c in w.arena.cooldowns && c.piece == p && c.remaining > Elapsed(ops)
  {
    var v, n := Run(w, ops), Elapsed(ops);
    if c :| c in v.arena.cooldowns && c.piece == p {
      var before := c.(remaining := c.remaining + n);
      RunRests(w, ops, c, before);
      assert before in w.arena.cooldowns && before.piece == p && before.remaining > n;
    }
    if c :| c in w.arena.cooldowns && c.piece == p && c.remaining > n {
      var later := c.(remaining := c.remaining - n);
      RunRests(w, ops, later, c);
      assert later in v.arena.cooldowns && later.piece == p;
    }
  }
}
