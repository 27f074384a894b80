/** When the game-over flag is up. */
module GameOver {
  import opened Chess
  import opened Conservation
  import opened Effects
  import opened Game
  import opened Orders

  /** `p` is out of play: captured, or stranded with no jump of its own still running. */
  ghost predicate Out(w: World, p: Id) {
    && Gone(w.arena, Flyers(w.motions), p)
    && (w.arena.pieces[p].status.Captured? || forall j :: j in w.jumps ==> j.piece != p)
  }

  ghost predicate SomeKingOut(w: World) {
    exists p :: p in w.arena.pieces && w.arena.pieces[p].kind.King? && Out(w, p)
  }

  /** `color` has a king in the game and every king of it is out of play. */
  ghost predicate AllKingsOut(w: World, color: Color) {
    && (exists p :: IsKing(w.arena, p, color))
    && (forall p :: IsKing(w.arena, p, color) ==> Out(w, p))
  }

  /** The status check counts exactly the kings that are not out of play. */
  lemma InPlay(w: World, color: Color)
    requires Inv(w)
    ensures KingInPlay(w, color) <==> exists p :: IsKing(w.arena, p, color) && !Out(w, p)
  {
    if KingInPlay(w, color) {
      if pos :| pos in w.arena.grid && IsKing(w.arena, w.arena.grid[pos], color) {
        assert !Out(w, w.arena.grid[pos]);
      } else if m :| m in w.motions && IsKing(w.arena, m.piece, color) && !w.arena.pieces[m.piece].status.Captured? {
        assert m.piece in Flyers(w.motions);
        assert !Out(w, m.piece);
      } else {
        var j :| j in w.jumps && IsKing(w.arena, j.piece, color) && !w.arena.pieces[j.piece].status.Captured?;
        assert !Out(w, j.piece);
      }
    }
    if p :| IsKing(w.arena, p, color) && !Out(w, p) {
      if OnBoard(w.arena, p) {
        assert w.arena.grid[w.arena.pieces[p].cell] == p;
      } else if p in Flyers(w.motions) {
        var m :| m in w.motions && m.piece == p;
        assert IsKing(w.arena, m.piece, color);
      } else {
        var j :| j in w.jumps && j.piece == p;
        assert IsKing(w.arena, j.piece, color);
      }
    }
  }

  /** The king counters remember whether each side had a king. */
  ghost predicate Crowned(w: World) {
    && (w.whiteKings > 0 <==> exists p :: IsKing(w.arena, p, White))
    && (w.blackKings > 0 <==> exists p :: IsKing(w.arena, p, Black))
  }

  lemma LostIsAllOut(w: World, color: Color)
    requires Inv(w) && Crowned(w)
    ensures Lost(w, color) <==> AllKingsOut(w, color)
  {
    InPlay(w, color);
  }

  /** What the flag says: it is up when a side has lost all its kings, and only when some king is out. */
  ghost predicate FlagSound(w: World) {
    && Crowned(w)
    && (AllKingsOut(w, White) || AllKingsOut(w, Black) ==> w.arena.gameOver)
    && (w.arena.gameOver ==> SomeKingOut(w))
  }

  // ---------- the flag within a tick ----------

  ghost predicate DeadKing(a: Arena, flying: set<Id>) {
    exists p :: Gone(a, flying, p) && a.pieces[p].kind.King? && a.pieces[p].status.Captured?
  }

  lemma EndsFlag(a: Arena, r: Arena, m: Motion, verdict: Outcome, pending: set<Id>, hops: set<(Id, Position)>)
    requires Sound(a, pending + {m.piece}, hops) && m.piece !in pending && Ends(a, r, m, verdict)
    ensures r.gameOver ==> a.gameOver || DeadKing(r, pending)
    ensures verdict.Takes? && a.pieces[verdict.prey].kind.King? ==> r.gameOver
  {
    if verdict.Takes? && a.pieces[verdict.prey].kind.King? {
      var q := verdict.prey;
      assert OnBoard(a, q) && q !in pending;
      assert r.pieces[q] == a.pieces[q].(status := Captured);
      assert Gone(r, pending, q);
    }
  }

  lemma {:induction false} PlayFlag(a: Arena, jumps: seq<Jump>, aloft: set<Id>, events: seq<Event>,
                                    hops: set<(Id, Position)>)
    requires Playable(a, aloft, events, hops)
    ensures Play(a, jumps, aloft, events).gameOver ==> a.gameOver || DeadKing(Play(a, jumps, aloft, events), aloft)
    decreases |events|
  {
    if events != [] {
      var pending := aloft + Movers(events[1..]);
      var next := Resolve(a, jumps, events[0], pending);
      Peel(a, jumps, aloft, events, hops);
      if events[0].Arrival? {
        PeelMovers(aloft, events, hops);
        ArriveForm(a, jumps, events[0].motion, pending);
        EndsFlag(a, next, events[0].motion, Judge(a, jumps, events[0].motion, pending), pending,
                 hops + Hops(events[1..]));
      }
      PlayFlag(next, jumps, aloft, events[1..], hops);
      PlayDescends(next, jumps, aloft, events[1..], hops);
    }
  }

  // ---------- runs ----------

  lemma CrownedStays(w: World, v: World)
    requires Crowned(w) && WorldDescends(w, v) && v.whiteKings == w.whiteKings && v.blackKings == w.blackKings
    ensures Crowned(v)
  {
    forall p ensures IsKing(v.arena, p, White) <==> IsKing(w.arena, p, White)
             ensures IsKing(v.arena, p, Black) <==> IsKing(w.arena, p, Black)
    {
    }
  }

  /** What is out of play stays so: a piece that is gone gets no new jump. */
  lemma OutStays(w: World, op: Op, p: Id)
    requires Inv(w) && Enabled(w, op) && Out(w, p)
    ensures Out(Step(w, op), p)
  {
    StepDescends(w, op);
    var v := Step(w, op);
    if w.arena.pieces[p].status.Captured? {
      assert v.arena.pieces[p] == w.arena.pieces[p];
    } else {
      forall j | j in v.jumps ensures j.piece != p {
        match op
        case Move(_, _) =>
        case Leap(pos) =>
        case Wait(ms, order) =>
          JumpsAfterMembers(w.jumps, ms, j);
          assert j.(remaining := j.remaining + ms).piece != p;
      }
    }
  }

  lemma AdvanceFlag(w: World, ms: nat, order: seq<Event>)
    requires Inv(w) && FlagSound(w) && ValidOrder(w, ms, order)
    ensures Crowned(AdvanceTime(w, ms, order))
    ensures AdvanceTime(w, ms, order).arena.gameOver ==> SomeKingOut(AdvanceTime(w, ms, order))
  {
    var v := AdvanceTime(w, ms, order);
    AdvanceDescends(w, ms, order);
    CrownedStays(w, v);
    TickPlayable(w, ms, order);
    PlayFlag(Rest(w, ms), w.jumps, Aloft(w.motions, ms), order, Sites(JumpsAfter(w.jumps, ms)));
    OrderCoversFlight(w, ms, order);
    if w.arena.gameOver {
      var p :| p in w.arena.pieces && w.arena.pieces[p].kind.King? && Out(w, p);
      AdvanceOut(w, ms, order, p);
      assert v.arena.pieces[p].kind.King?;
    } else if v.arena.gameOver {
      var p :|
        Gone(v.arena, Flyers(v.motions), p) && v.arena.pieces[p].kind.King? && v.arena.pieces[p].status.Captured?;
      assert Out(v, p);
    }
  }

  lemma AdvanceOut(w: World, ms: nat, order: seq<Event>, p: Id)
    requires Inv(w) && ValidOrder(w, ms, order) && Out(w, p)
    ensures Out(AdvanceTime(w, ms, order), p)
  {
    var v := AdvanceTime(w, ms, order);
    OutStays(w, Wait(ms, order), p);
    assert Update(w, ms, order).jumps == v.jumps && Update(w, ms, order).arena.pieces == v.arena.pieces;
  }

  lemma CheckFlag(w: World)
    requires Inv(w) && Crowned(w) && (w.arena.gameOver ==> SomeKingOut(w))
    ensures FlagSound(CheckStatus(w))
  {
    var v := CheckStatus(w);
    LostIsAllOut(w, White);
    LostIsAllOut(w, Black);
    SameOut(w, v);
    if v.arena.gameOver && !w.arena.gameOver {
      var c := if AllKingsOut(w, White) then White else Black;
      var p :| IsKing(w.arena, p, c);
      assert Out(w, p);
    }
  }

  lemma SameOut(w: World, v: World)
    requires v.motions == w.motions && v.jumps == w.jumps && v.whiteKings == w.whiteKings &&
             v.blackKings == w.blackKings
    requires v.arena.pieces == w.arena.pieces && v.arena.grid == w.arena.grid
    ensures forall p :: Out(v, p) <==> Out(w, p)
    ensures SomeKingOut(v) <==> SomeKingOut(w)
    ensures forall c :: AllKingsOut(v, c) <==> AllKingsOut(w, c)
    ensures Crowned(v) <==> Crowned(w)
  {
    assert forall p, c :: IsKing(v.arena, p, c) <==> IsKing(w.arena, p, c);
    assert forall p :: Out(v, p) <==> Out(w, p);
  }

  lemma RequestFlag(w: World, op: Op)
    requires Inv(w) && FlagSound(w) && !op.Wait?
    ensures FlagSound(Step(w, op))
  {
    var v := Step(w, op);
    StepDescends(w, op);
    StepSound(w, op);
    CrownedStays(w, v);
    forall c ensures AllKingsOut(v, c) ==> AllKingsOut(w, c) { RequestKings(w, op, c); }
    if v.arena.gameOver {
      var p :| p in w.arena.pieces && w.arena.pieces[p].kind.King? && Out(w, p);
      OutStays(w, op, p);
      assert v.arena.pieces[p].kind.King?;
    }
  }

  /** A request takes no king out of play. */
  lemma RequestKings(w: World, op: Op, color: Color)
    requires Inv(w) && !op.Wait?
    ensures AllKingsOut(Step(w, op), color) ==> AllKingsOut(w, color)
  {
    var v := Step(w, op);
    forall p ensures IsKing(v.arena, p, color) <==> IsKing(w.arena, p, color) {}
    if AllKingsOut(v, color) {
      forall p | IsKing(w.arena, p, color) ensures Out(w, p) {
        assert IsKing(v.arena, p, color) && Out(v, p);
        if op.Move? { RequestMoveOut(w, op.src, op.dest, p); } else { RequestJumpOut(w, op.pos, p); }
      }
    }
  }

  lemma RequestMoveOut(w: World, src: Position, dest: Position, p: Id)
    requires Inv(w) && Out(RequestMove(w, src, dest), p)
    ensures Out(w, p)
  {
    if MoveAccepted(w, src, dest) {
      var q := PieceAt(w.arena, src).value;
      assert Flyers(RequestMove(w, src, dest).motions) == Flyers(w.motions) + {q};
      assert OnBoard(w.arena, q);
    }
  }

  lemma RequestJumpOut(w: World, pos: Position, p: Id)
    requires Inv(w) && Out(RequestJump(w, pos), p)
    ensures Out(w, p)
  {
    if Ready(w, pos) {
      var q, v := PieceAt(w.arena, pos).value, RequestJump(w, pos);
      assert OnBoard(w.arena, q) && OnBoard(v.arena, q);
      assert forall j :: j in w.jumps ==> j in v.jumps;
    }
  }

  lemma StepFlag(w: World, op: Op)
    requires Inv(w) && FlagSound(w) && Enabled(w, op)
    ensures FlagSound(Step(w, op))
  {
    match op
    case Wait(ms, order) =>
      AdvanceSound(w, ms, order);
      AdvanceFlag(w, ms, order);
      CheckFlag(AdvanceTime(w, ms, order));
    case _ => RequestFlag(w, op);
  }

  lemma {:induction false} RunFlag(w: World, ops: seq<Op>)
    requires Inv(w) && FlagSound(w) && IsRun(w, ops)
    ensures FlagSound(Run(w, ops))
    decreases |ops|
  {
    if ops != [] {
      StepSound(w, ops[0]);
      StepFlag(w, ops[0]);
      RunFlag(Step(w, ops[0]), ops[1..]);
    }
  }

  /** From a fresh engine on, the flag is up when a side has lost all its kings and only when some king is out. */
  lemma GameOverSound(w: World, ops: seq<Op>)
    requires Initial(w) && IsRun(w, ops)
    ensures FlagSound(Run(w, ops))
  {
    InitialSound(w);
    assert forall p :: p in w.arena.pieces ==> OnBoard(w.arena, p);
    RunFlag(w, ops);
  }

  /** With one king a side, the flag is up exactly when a king is out of play. */
  lemma GameOverExact(w: World, ops: seq<Op>, white: Id, black: Id)
    requires Initial(w) && IsRun(w, ops)
    requires forall p :: IsKing(w.arena, p, White) <==> p == white
    requires forall p :: IsKing(w.arena, p, Black) <==> p == black
    ensures Run(w, ops).arena.gameOver <==> Out(Run(w, ops), white) || Out(Run(w, ops), black)
  {
    var v := Run(w, ops);
    GameOverSound(w, ops);
    InitialSound(w);
    RunDescends(w, ops);
    assert IsKing(w.arena, white, White) && IsKing(w.arena, black, Black);
    forall p ensures IsKing(v.arena, p, White) <==> p == white
             ensures IsKing(v.arena, p, Black) <==> p == black
    {
      assert IsKing(v.arena, p, White) <==> IsKing(w.arena, p, White);
      assert IsKing(v.arena, p, Black) <==> IsKing(w.arena, p, Black);
    }
    assert IsKing(v.arena, white, White) && IsKing(v.arena, black, Black);
    assert Out(v, white) ==> AllKingsOut(v, White);
    assert Out(v, black) ==> AllKingsOut(v, Black);
    if v.arena.gameOver {
      var p :| p in v.arena.pieces && v.arena.pieces[p].kind.King? && Out(v, p);
      assert IsKing(v.arena, p, v.arena.pieces[p].color);
    }
  }

  /** The flag never comes down again. */
  lemma FlagStays(w: World, ops: seq<Op>)
    requires Inv(w) && IsRun(w, ops) && w.arena.gameOver
    ensures Run(w, ops).arena.gameOver
  {
    RunDescends(w, ops);
  }
}
