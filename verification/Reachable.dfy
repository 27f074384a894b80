/** What holds in every state that a fresh engine can reach. */
module Reachable {
  import opened Chess
  import opened Conservation
  import opened FlightRecords
  import opened Game
  import opened Listing
  import opened Orders
  import opened PieceRecords
  import opened Records
  import opened RoomExactly
  import opened RoomRoundTrip
  import opened Snapshot
  import opened Stranding
  import opened Text
  import opened Ticks
  import opened Timers

  // ---------- printing follows no null pointer ----------

  lemma StepConcrete(w: World, op: Op)
    requires Inv(w) && Concrete(w) && Enabled(w, op)
    ensures Concrete(Step(w, op))
  {
    StepSound(w, op);
    StepDescends(w, op);
    var v := Step(w, op);
    forall m | m in v.motions ensures m.piece in v.arena.pieces {
      assert m.piece in Flyers(v.motions);
    }
    if op.Wait? {
      JumpsNames(w.jumps, op.ms, w.arena.pieces.Keys);
      assert v.jumps == JumpsAfter(w.jumps, op.ms);
    }
    assert forall j :: j in v.jumps ==> j.piece in v.arena.pieces.Keys;
  }

  lemma {:induction false} RunConcrete(w: World, ops: seq<Op>)
    requires Inv(w) && Concrete(w) && IsRun(w, ops)
    ensures Concrete(Run(w, ops))
    decreases |ops|
  {
    if ops != [] {
      StepSound(w, ops[0]);
      StepConcrete(w, ops[0]);
      RunConcrete(Step(w, ops[0]), ops[1..]);
    }
  }

  /** From a fresh engine on, the board is sound, the timers are in order, and every reference is to a piece. */
  lemma ReachableSound(w: World, ops: seq<Op>)
    requires Initial(w) && IsRun(w, ops)
    ensures Inv(Run(w, ops)) && Timed(Run(w, ops)) && Concrete(Run(w, ops))
  {
    InitialSound(w);
    RunSound(w, ops);
    RunTimed(w, ops);
    RunConcrete(w, ops);
  }

  /** At no point of any tick of a run does the search for an escaping piece change the verdict. */
  lemma NeverEscapingInRuns(w: World, ops: seq<Op>, ms: nat, done: seq<Event>, m: Motion, todo: seq<Event>)
    requires Initial(w) && IsRun(w, ops) && ValidOrder(Run(w, ops), ms, done + ([Arrival(m)] + todo))
    ensures var v := Run(w, ops);
      var here := Partway(v, ms, done, [Arrival(m)] + todo);
      Judge(here, v.jumps, m, Aloft(v.motions, ms) + Movers(todo)) == Judge(here, v.jumps, m, {})
  {
    var v, events := Run(w, ops), [Arrival(m)] + todo;
    var here, aloft, hops := Partway(v, ms, done, events), Aloft(v.motions, ms), Sites(JumpsAfter(v.jumps, ms));
    ReachableSound(w, ops);
    PartwaySound(v, ms, done, events);
    PeelMovers(aloft, events, hops);
    assert events[1..] == todo;
    NeverEscaping(here, v.jumps, m, aloft + Movers(todo), hops + Hops(todo));
  }

  // ---------- every reachable room can be printed ----------

  /** Squares and flight times of the board fit 32 bits. */
  predicate Fits(a: Arena) {
    a.width * BASE_MOVE_TIME_MS <= INT_MAX && a.height * BASE_MOVE_TIME_MS <= INT_MAX
  }

  predicate CleanIds(a: Arena) {
    forall p :: p in a.pieces ==> Clean(p) && '}' !in p
  }

  predicate VictimsKnown(w: World) {
    forall m :: m in w.motions && m.victim.Some? ==> m.victim.value in w.arena.pieces
  }

  lemma StepVictims(w: World, op: Op)
    requires Inv(w) && VictimsKnown(w) && Enabled(w, op)
    ensures VictimsKnown(Step(w, op))
  {
    StepDescends(w, op);
    var v := Step(w, op);
    if op.Wait? {
      forall m | m in v.motions && m.victim.Some? ensures m.victim.value in w.arena.pieces {
        MotionsAfterMembers(w.motions, op.ms, m);
        assert m.(remaining := m.remaining + op.ms).victim == m.victim;
      }
    }
  }

  lemma {:induction false} RunVictims(w: World, ops: seq<Op>)
    requires Inv(w) && VictimsKnown(w) && IsRun(w, ops)
    ensures VictimsKnown(Run(w, ops))
    decreases |ops|
  {
    if ops != [] {
      StepSound(w, ops[0]);
      StepVictims(w, ops[0]);
      RunVictims(Step(w, ops[0]), ops[1..]);
    }
  }

  lemma SquareFits(a: Arena, pos: Position)
    requires Fits(a) && InBounds(a, pos)
    ensures IsInt(pos.row) && IsInt(pos.col)
  {
  }

  lemma EntryFits(w: World, x: (Id, Position))
    requires Inv(w) && Timed(w) && Fits(w.arena) && CleanIds(w.arena) && x in Serialised(w)
    ensures x.0 in w.arena.pieces && Printable(EntryOf(w.arena, x.0, x.1))
  {
    PlaceOnBoard(w, x);
    SquareFits(w.arena, x.1);
    FirstCooldownOwn(w.arena.cooldowns, x.0);
  }

  lemma PlaceOnBoard(w: World, x: (Id, Position))
    requires Inv(w) && Timed(w) && x in Serialised(w)
    ensures x.0 in w.arena.pieces && InBounds(w.arena, x.1)
  {
    PlacesListed(w, x);
    if m :| m in w.motions && x == (m.piece, m.source) { assert Plan(w.arena, m); }
    if j :| j in w.jumps && x == (j.piece, j.pos) { assert Hop(w.arena, j); }
  }

  lemma MotionFits(w: World, m: Motion)
    requires Timed(w) && Charted(w) && VictimsKnown(w) && Fits(w.arena) && CleanIds(w.arena) && m in w.motions
    ensures PrintableMotion(m)
  {
    assert Plan(w.arena, m);
    SquareFits(w.arena, m.source);
    SquareFits(w.arena, m.dest);
    assert Distance(m.source, m.dest) <= w.arena.width || Distance(m.source, m.dest) <= w.arena.height;
  }

  lemma JumpFits(w: World, j: Jump)
    requires Timed(w) && Fits(w.arena) && CleanIds(w.arena) && j in w.jumps
    ensures PrintableJump(j)
  {
    assert Hop(w.arena, j);
    SquareFits(w.arena, j.pos);
  }

  /** No piece in the air on its own square has a closing bracket in its id. */
  predicate NoBracketJumps(w: World) {
    forall j :: j in w.jumps ==> ']' !in j.piece
  }

  lemma RoomFits(h: Header, sounds: seq<string>, w: World)
    requires Inv(w) && Timed(w) && Charted(w) && VictimsKnown(w) && Fits(w.arena) && CleanIds(w.arena)
    requires CleanHeader(h) && CleanSounds(sounds) && NoBracketJumps(w)
    ensures PrintableRoom(h, sounds, w)
  {
    var lines := Serialised(w);
    var es := Entries(w.arena, lines);
    forall e | e in es ensures Printable(e) {
      var i :| 0 <= i < |es| && es[i] == e;
      assert lines[i] in lines;
      EntryFits(w, lines[i]);
    }
    forall m | m in w.motions ensures PrintableMotion(m) { MotionFits(w, m); }
    forall j | j in w.jumps ensures PrintableJump(j) { JumpFits(w, j); }
  }

  /**
   Whatever is requested on the board, the room of a game whose names are free of quotes, whose ids are free of closing
   braces besides, and whose flight times fit 32 bits can be printed, and is read back as `ReadBack` says.  Only the ids
   of jumping pieces must be free of closing brackets as well.
   */
  lemma ReachableSnapshot(h: Header, sounds: seq<string>, w: World, ops: seq<Op>)
    requires Initial(w) && IsRun(w, ops) && OnBoardMoves(w.arena, ops) && Fits(w.arena) && CleanIds(w.arena)
    requires CleanHeader(h) && CleanSounds(sounds) && NoBracketJumps(Run(w, ops))
    ensures PrintableRoom(h, sounds, Run(w, ops))
    ensures ReadBack(RoomText(h, sounds, Run(w, ops)), Run(w, ops))
  {
    InitialSound(w);
    ReachableSound(w, ops);
    RunCharted(w, ops);
    RunVictims(w, ops);
    RunDescends(w, ops);
    RoomFits(h, sounds, Run(w, ops));
    SnapshotRoundTrip(h, sounds, Run(w, ops));
  }
}
