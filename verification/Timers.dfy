/** Flight plans, timers and what becomes of them once the game is over. */
module Timers {
  import opened Chess
  import opened Conservation
  import opened Effects
  import opened Game
  import opened Orders
  import opened Wrappers

  /** A motion that a request could have started, still under way. */
  predicate Plan(a: Arena, m: Motion) {
    && m.piece in a.pieces
    && a.pieces[m.piece].cell == m.source
    && m.source != m.dest && InBounds(a, m.source)
    && 0 < m.remaining <= m.total
    && m.total == Distance(m.source, m.dest) * BASE_MOVE_TIME_MS
    && (exists capturing ::
          Geometry(a.height, a.pieces[m.piece].kind, a.pieces[m.piece].color, m.source, m.dest, capturing))
  }

  predicate Hop(a: Arena, j: Jump) {
    j.piece in a.pieces && InBounds(a, j.pos) && 0 < j.remaining <= j.total == JUMP_TIME_MS
  }

  ghost predicate RestsSound(cooldowns: seq<Cooldown>) {
    && (forall c :: c in cooldowns ==> 0 < c.remaining <= c.total == REST_MS)
    && (forall i, j :: 0 <= i < j < |cooldowns| ==> cooldowns[i].remaining <= cooldowns[j].remaining)
  }

  ghost predicate Timed(w: World) {
    && (forall m :: m in w.motions ==> Plan(w.arena, m))
    && (forall j :: j in w.jumps ==> Hop(w.arena, j))
    && RestsSound(w.arena.cooldowns)
  }

  // ---------- a tick leaves the pieces in flight alone ----------

  /** `b` agrees with `a` on the board's size, on the set of pieces, and on the records of `kept`. */
  ghost predicate Keeps(a: Arena, b: Arena, kept: set<Id>) {
    && b.width == a.width && b.height == a.height && b.pieces.Keys == a.pieces.Keys
    && (forall p :: p in kept && p in a.pieces ==> b.pieces[p] == a.pieces[p])
  }

  lemma EndsKeeps(a: Arena, r: Arena, m: Motion, verdict: Outcome, pending: set<Id>, hops: set<(Id, Position)>)
    requires Sound(a, pending + {m.piece}, hops) && m.piece !in pending && Ends(a, r, m, verdict)
    ensures Keeps(a, r, pending)
  {
    if verdict.Takes? { assert OnBoard(a, verdict.prey); }
  }

  lemma ResolveKeeps(a: Arena, jumps: seq<Jump>, aloft: set<Id>, events: seq<Event>, hops: set<(Id, Position)>)
    requires Playable(a, aloft, events, hops) && events != []
    ensures Keeps(a, Resolve(a, jumps, events[0], aloft + Movers(events[1..])), aloft + Movers(events[1..]))
  {
    PeelMovers(aloft, events, hops);
    var pending := aloft + Movers(events[1..]);
    match events[0]
    case Arrival(m) =>
      ArriveForm(a, jumps, m, pending);
      EndsKeeps(a, Arrive(a, jumps, m, pending), m, Judge(a, jumps, m, pending), pending, hops + Hops(events[1..]));
    case Touchdown(j) =>
      if PieceAt(a, j.pos) == Some(j.piece) { assert OnBoard(a, j.piece); }
  }

  lemma {:induction false} PlayKeeps(a: Arena, jumps: seq<Jump>, aloft: set<Id>, events: seq<Event>,
                                     hops: set<(Id, Position)>)
    requires Playable(a, aloft, events, hops)
    ensures Keeps(a, Play(a, jumps, aloft, events), aloft)
    decreases |events|
  {
    if events != [] {
      ResolveKeeps(a, jumps, aloft, events, hops);
      Peel(a, jumps, aloft, events, hops);
      PlayKeeps(Resolve(a, jumps, events[0], aloft + Movers(events[1..])), jumps, aloft, events[1..], hops);
    }
  }

  // ---------- cooldowns ----------

  /** Resolving events only appends full rests. */
  ghost predicate Grants(a: Arena, b: Arena) {
    && |a.cooldowns| <= |b.cooldowns| && b.cooldowns[..|a.cooldowns|] == a.cooldowns
    && (forall c :: c in b.cooldowns[|a.cooldowns|..] ==> c.remaining == c.total == REST_MS)
  }

  lemma GrantsTrans(a: Arena, b: Arena, c: Arena)
    requires Grants(a, b) && Grants(b, c)
    ensures Grants(a, c)
  {
    forall x | x in c.cooldowns[|a.cooldowns|..] ensures x.remaining == x.total == REST_MS {
      var i :| 0 <= i < |c.cooldowns| - |a.cooldowns| && c.cooldowns[|a.cooldowns|..][i] == x;
      if |a.cooldowns| + i < |b.cooldowns| {
        assert b.cooldowns[|a.cooldowns| + i] == x;
        assert x in b.cooldowns[|a.cooldowns|..];
      } else {
        assert x in c.cooldowns[|b.cooldowns|..];
      }
    }
    assert c.cooldowns[..|a.cooldowns|] == c.cooldowns[..|b.cooldowns|][..|a.cooldowns|];
  }

  lemma EndsGrants(a: Arena, r: Arena, m: Motion, verdict: Outcome)
    requires Ends(a, r, m, verdict)
    ensures Grants(a, r)
  {
  }

  lemma {:induction false} PlayGrants(a: Arena, jumps: seq<Jump>, aloft: set<Id>, events: seq<Event>,
                                      hops: set<(Id, Position)>)
    requires Playable(a, aloft, events, hops)
    ensures Grants(a, Play(a, jumps, aloft, events))
    decreases |events|
  {
    if events != [] {
      var pending := aloft + Movers(events[1..]);
      var next := Resolve(a, jumps, events[0], pending);
      if events[0].Arrival? {
        ArriveForm(a, jumps, events[0].motion, pending);
        EndsGrants(a, next, events[0].motion, Judge(a, jumps, events[0].motion, pending));
      }
      Peel(a, jumps, aloft, events, hops);
      PlayGrants(next, jumps, aloft, events[1..], hops);
      GrantsTrans(a, next, Play(next, jumps, aloft, events[1..]));
    }
  }

  lemma {:induction false} AgedMembers(cooldowns: seq<Cooldown>, ms: int, c: Cooldown)
    ensures c in Aged(cooldowns, ms) <==> c.remaining > 0 && c.(remaining := c.remaining + ms) in cooldowns
  {
    if cooldowns != [] {
      AgedMembers(cooldowns[1..], ms, c);
      assert cooldowns == [cooldowns[0]] + cooldowns[1..];
    }
  }

  lemma {:induction false} AgedSound(cooldowns: seq<Cooldown>, ms: nat)
    requires RestsSound(cooldowns)
    ensures RestsSound(Aged(cooldowns, ms))
  {
    if cooldowns != [] {
      AgedSound(cooldowns[1..], ms);
      forall c | c in Aged(cooldowns[1..], ms) ensures c.remaining >= cooldowns[0].remaining - ms {
        AgedMembers(cooldowns[1..], ms, c);
      }
    }
  }

  lemma GrantsSound(a: Arena, b: Arena)
    requires RestsSound(a.cooldowns) && Grants(a, b)
    ensures RestsSound(b.cooldowns)
  {
    var n := |a.cooldowns|;
    assert b.cooldowns == a.cooldowns + b.cooldowns[n..];
    forall i, j | 0 <= i < j < |b.cooldowns| ensures b.cooldowns[i].remaining <= b.cooldowns[j].remaining {
      if j >= n { assert b.cooldowns[j] in b.cooldowns[n..]; }
      if i >= n { assert b.cooldowns[i] in b.cooldowns[n..]; }
    }
  }

  // ---------- every run keeps its timers ----------

  lemma AdvanceTimed(w: World, ms: nat, order: seq<Event>)
    requires Inv(w) && Timed(w) && ValidOrder(w, ms, order)
    ensures Timed(AdvanceTime(w, ms, order))
  {
    TickPlayable(w, ms, order);
    var aloft, hops := Aloft(w.motions, ms), Sites(JumpsAfter(w.jumps, ms));
    var v := AdvanceTime(w, ms, order);
    PlayKeeps(Rest(w, ms), w.jumps, aloft, order, hops);
    PlayGrants(Rest(w, ms), w.jumps, aloft, order, hops);
    AgedSound(w.arena.cooldowns, ms);
    GrantsSound(Rest(w, ms), v.arena);
    forall m | m in v.motions ensures Plan(v.arena, m) {
      MotionsAfterMembers(w.motions, ms, m);
      var before := m.(remaining := m.remaining + ms);
      assert Plan(w.arena, before) && before.piece in aloft;
      var c :| Geometry(w.arena.height, w.arena.pieces[m.piece].kind, w.arena.pieces[m.piece].color,
                        m.source, m.dest, c);
      assert Geometry(v.arena.height, v.arena.pieces[m.piece].kind, v.arena.pieces[m.piece].color,
                      m.source, m.dest, c);
    }
    forall j | j in v.jumps ensures Hop(v.arena, j) {
      JumpsAfterMembers(w.jumps, ms, j);
      assert Hop(w.arena, j.(remaining := j.remaining + ms));
    }
  }

  lemma RequestMoveTimed(w: World, src: Position, dest: Position)
    requires Inv(w) && Timed(w)
    ensures Timed(RequestMove(w, src, dest))
  {
    if MoveAccepted(w, src, dest) {
      var p := PieceAt(w.arena, src).value;
      var v := RequestMove(w, src, dest);
      assert OnBoard(w.arena, p) && src != dest;
      forall m | m in v.motions ensures Plan(v.arena, m) {
        if m in w.motions {
          assert Plan(w.arena, m) && m.piece in Flyers(w.motions);
          var c :| Geometry(w.arena.height, w.arena.pieces[m.piece].kind, w.arena.pieces[m.piece].color,
                            m.source, m.dest, c);
          assert Geometry(v.arena.height, v.arena.pieces[m.piece].kind, v.arena.pieces[m.piece].color,
                          m.source, m.dest, c);
        } else {
          var capturing := PieceAt(w.arena, dest).Some?;
          assert Geometry(v.arena.height, v.arena.pieces[p].kind, v.arena.pieces[p].color, src, dest, capturing);
        }
      }
    }
  }

  lemma RequestJumpTimed(w: World, pos: Position)
    requires Inv(w) && Timed(w)
    ensures Timed(RequestJump(w, pos))
  {
    if Ready(w, pos) {
      var v := RequestJump(w, pos);
      forall m | m in v.motions ensures Plan(v.arena, m) {
        assert Plan(w.arena, m) && m.piece in Flyers(w.motions);
        var c :| Geometry(w.arena.height, w.arena.pieces[m.piece].kind, w.arena.pieces[m.piece].color,
                          m.source, m.dest, c);
        assert Geometry(v.arena.height, v.arena.pieces[m.piece].kind, v.arena.pieces[m.piece].color,
                        m.source, m.dest, c);
      }
    }
  }

  lemma StepTimed(w: World, op: Op)
    requires Inv(w) && Timed(w) && Enabled(w, op)
    ensures Timed(Step(w, op))
  {
    match op
    case Move(src, dest) => RequestMoveTimed(w, src, dest);
    case Leap(pos) => RequestJumpTimed(w, pos);
    case Wait(ms, order) =>
      AdvanceTimed(w, ms, order);
      CheckTimed(AdvanceTime(w, ms, order));
  }

  lemma CheckTimed(w: World)
    requires Timed(w)
    ensures Timed(CheckStatus(w))
  {
    var v := CheckStatus(w);
    forall m | m in v.motions ensures Plan(v.arena, m) {
      var c :| Geometry(w.arena.height, w.arena.pieces[m.piece].kind, w.arena.pieces[m.piece].color,
                        m.source, m.dest, c);
      assert Geometry(v.arena.height, v.arena.pieces[m.piece].kind, v.arena.pieces[m.piece].color,
                      m.source, m.dest, c);
    }
  }

  /** In every reachable state timers are positive and within their totals, and cooldowns run out in list order. */
  lemma {:induction false} RunTimed(w: World, ops: seq<Op>)
    requires Inv(w) && Timed(w) && IsRun(w, ops)
    ensures Timed(Run(w, ops))
    decreases |ops|
  {
    if ops != [] {
      StepSound(w, ops[0]);
      StepTimed(w, ops[0]);
      RunTimed(Step(w, ops[0]), ops[1..]);
    }
  }
}
