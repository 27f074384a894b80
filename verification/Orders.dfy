/**
 What an admissible event order contains, and what a tick leaves in the motion and jump lists.  Nothing here depends on
 how ties are broken: an order is any listing of the events that is sorted by time.
 */
module Orders {
  import opened Chess
  import opened Game

  function Sites(jumps: seq<Jump>): set<(Id, Position)> {
    set j | j in jumps :: (j.piece, j.pos)
  }

  function Hops(events: seq<Event>): set<(Id, Position)> {
    set e | e in events && e.Touchdown? :: (e.jump.piece, e.jump.pos)
  }

  ghost predicate DistinctFlyers(motions: seq<Motion>) {
    forall i, j :: 0 <= i < j < |motions| ==> motions[i].piece != motions[j].piece
  }

  ghost predicate DistinctMovers(events: seq<Event>) {
    forall i, j :: 0 <= i < j < |events| && events[i].Arrival? && events[j].Arrival? ==>
      events[i].motion.piece != events[j].motion.piece
  }

  lemma {:induction false} DueMotionsMembers(motions: seq<Motion>, ms: int, e: Event)
    ensures e in DueMotions(motions, ms) <==> e.Arrival? && e.motion in motions && e.motion.remaining <= ms
  {
    if motions != [] { DueMotionsMembers(motions[1..], ms, e); }
  }

  lemma {:induction false} DueJumpsMembers(jumps: seq<Jump>, ms: int, e: Event)
    ensures e in DueJumps(jumps, ms) <==> e.Touchdown? && e.jump in jumps && e.jump.remaining <= ms
  {
    if jumps != [] { DueJumpsMembers(jumps[1..], ms, e); }
  }

  /** An admissible order mentions a motion or a jump exactly when it ends in the tick. */
  lemma OrderMembers(w: World, ms: int, order: seq<Event>, e: Event)
    requires ValidOrder(w, ms, order)
    ensures e in order <==>
      (if e.Arrival? then e.motion in w.motions && e.motion.remaining <= ms
       else e.jump in w.jumps && e.jump.remaining <= ms)
  {
    DueMotionsMembers(w.motions, ms, e);
    DueJumpsMembers(w.jumps, ms, e);
    assert e in order <==> e in multiset(order);
    assert e in DueMotions(w.motions, ms) + DueJumps(w.jumps, ms) <==>
           e in multiset(DueMotions(w.motions, ms) + DueJumps(w.jumps, ms));
  }

  lemma {:induction false} MotionsAfterMembers(motions: seq<Motion>, ms: int, m: Motion)
    ensures m in MotionsAfter(motions, ms) <==>
      m.remaining > 0 && m.(remaining := m.remaining + ms) in motions
  {
    if motions != [] {
      MotionsAfterMembers(motions[1..], ms, m);
      assert motions == [motions[0]] + motions[1..];
    }
  }

  lemma {:induction false} JumpsAfterMembers(jumps: seq<Jump>, ms: int, j: Jump)
    ensures j in JumpsAfter(jumps, ms) <==>
      j.remaining > 0 && j.(remaining := j.remaining + ms) in jumps
  {
    if jumps != [] {
      JumpsAfterMembers(jumps[1..], ms, j);
      assert jumps == [jumps[0]] + jumps[1..];
    }
  }

  lemma {:induction false} DistinctDue(motions: seq<Motion>, ms: int)
    requires DistinctFlyers(motions)
    ensures DistinctMovers(DueMotions(motions, ms))
  {
    if motions != [] {
      DistinctDue(motions[1..], ms);
      forall e | e in DueMotions(motions[1..], ms) ensures e.Arrival? && e.motion.piece != motions[0].piece {
        DueMotionsMembers(motions[1..], ms, e);
      }
    }
  }

  lemma {:induction false} DistinctAfter(motions: seq<Motion>, ms: int)
    requires DistinctFlyers(motions)
    ensures DistinctFlyers(MotionsAfter(motions, ms))
  {
    if motions != [] {
      DistinctAfter(motions[1..], ms);
      forall m | m in MotionsAfter(motions[1..], ms) ensures m.piece != motions[0].piece {
        MotionsAfterMembers(motions[1..], ms, m);
      }
    }
  }

  /** Taking the head of one listing out of another listing of the same events. */
  lemma TakeHead(xs: seq<Event>, ys: seq<Event>) returns (k: nat)
    requires multiset(xs) == multiset(ys) && xs != []
    ensures k < |ys| && ys[k] == xs[0]
    ensures multiset(xs[1..]) == multiset(ys[..k] + ys[k + 1..])
  {
    assert xs[0] in multiset(ys);
    k :| 0 <= k < |ys| && ys[k] == xs[0];
    assert ys == ys[..k] + [ys[k]] + ys[k + 1..];
    assert xs == [xs[0]] + xs[1..];
    assert multiset(xs[1..]) == multiset(xs) - multiset{xs[0]};
  }

  /** Reordering events does not make two of them move the same piece. */
  lemma {:induction false} DistinctPermutation(xs: seq<Event>, ys: seq<Event>)
    requires multiset(xs) == multiset(ys) && DistinctMovers(ys)
    ensures DistinctMovers(xs)
    decreases |xs|
  {
    if xs != [] {
      var x := xs[0];
      var k := TakeHead(xs, ys);
      var rest := ys[..k] + ys[k + 1..];
      DistinctPermutation(xs[1..], rest);
      forall e | e in xs[1..] && x.Arrival? && e.Arrival? ensures e.motion.piece != x.motion.piece {
        assert e in multiset(rest);
        var n :| 0 <= n < |rest| && rest[n] == e;
        assert ys[if n < k then n else n + 1] == e;
      }
    }
  }

  lemma NoJumpMoves(jumps: seq<Jump>, ms: int)
    ensures forall e :: e in DueJumps(jumps, ms) ==> e.Touchdown?
  {
    forall e | e in DueJumps(jumps, ms) ensures e.Touchdown? { DueJumpsMembers(jumps, ms, e); }
  }

  /** A tick brings down every due piece once and keeps the others in flight. */
  lemma OrderCoversFlight(w: World, ms: int, order: seq<Event>)
    requires ValidOrder(w, ms, order) && DistinctFlyers(w.motions)
    ensures DistinctMovers(order)
    ensures Movers(order) + Aloft(w.motions, ms) == Flyers(w.motions)
    ensures Movers(order) !! Aloft(w.motions, ms)
    ensures Flyers(MotionsAfter(w.motions, ms)) == Aloft(w.motions, ms)
    ensures DistinctFlyers(MotionsAfter(w.motions, ms))
  {
    var due := DueMotions(w.motions, ms) + DueJumps(w.jumps, ms);
    DistinctDue(w.motions, ms);
    NoJumpMoves(w.jumps, ms);
    var n := |DueMotions(w.motions, ms)|;
    assert forall i :: n <= i < |due| ==> due[i] == DueJumps(w.jumps, ms)[i - n] && due[i] in DueJumps(w.jumps, ms);
    assert DistinctMovers(due);
    DistinctPermutation(order, due);
    DistinctAfter(w.motions, ms);
    forall e ensures e in order && e.Arrival? <==> e.Arrival? && e.motion in w.motions && e.motion.remaining <= ms {
      OrderMembers(w, ms, order, e);
    }
    forall p | p in Flyers(w.motions) ensures p in Movers(order) + Aloft(w.motions, ms) {
      var m :| m in w.motions && m.piece == p;
      assert m.remaining <= ms ==> Arrival(m) in order;
    }
    forall p | p in Aloft(w.motions, ms) ensures p in Flyers(MotionsAfter(w.motions, ms)) {
      var m :| m in w.motions && m.remaining > ms && m.piece == p;
      var later := m.(remaining := m.remaining - ms);
      MotionsAfterMembers(w.motions, ms, later);
      assert later.(remaining := later.remaining + ms) == m;
    }
    forall p | p in Flyers(MotionsAfter(w.motions, ms)) ensures p in Aloft(w.motions, ms) {
      var m :| m in MotionsAfter(w.motions, ms) && m.piece == p;
      MotionsAfterMembers(w.motions, ms, m);
      assert m.(remaining := m.remaining + ms).piece == p;
    }
  }

  lemma OrderCoversJumps(w: World, ms: int, order: seq<Event>)
    requires ValidOrder(w, ms, order)
    ensures Hops(order) + Sites(JumpsAfter(w.jumps, ms)) == Sites(w.jumps)
  {
    forall s | s in Sites(w.jumps) ensures s in Hops(order) + Sites(JumpsAfter(w.jumps, ms)) {
      var j :| j in w.jumps && (j.piece, j.pos) == s;
      OrderMembers(w, ms, order, Touchdown(j));
      var later := j.(remaining := j.remaining - ms);
      JumpsAfterMembers(w.jumps, ms, later);
      assert later.(remaining := later.remaining + ms) == j;
      assert j.remaining > ms ==> later in JumpsAfter(w.jumps, ms);
    }
    forall s | s in Hops(order) ensures s in Sites(w.jumps) {
      var e :| e in order && e.Touchdown? && (e.jump.piece, e.jump.pos) == s;
      OrderMembers(w, ms, order, e);
    }
    forall s | s in Sites(JumpsAfter(w.jumps, ms)) ensures s in Sites(w.jumps) {
      var j :| j in JumpsAfter(w.jumps, ms) && (j.piece, j.pos) == s;
      JumpsAfterMembers(w.jumps, ms, j);
    }
  }

  /** A motion or a jump after `ms` more milliseconds in the air. */
  function LaterMotion(m: Motion, ms: int): Motion {
    m.(remaining := m.remaining - ms)
  }

  function LaterJump(j: Jump, ms: int): Jump {
    j.(remaining := j.remaining - ms)
  }

  lemma {:induction false} MotionsAfterTwice(motions: seq<Motion>, a: int, b: int, c: int)
    requires c == a + b
    requires 0 <= b
    ensures MotionsAfter(MotionsAfter(motions, a), b) == MotionsAfter(motions, c)
  {
    if motions != [] { MotionsAfterTwice(motions[1..], a, b, c); }
  }

  lemma {:induction false} JumpsAfterTwice(jumps: seq<Jump>, a: int, b: int, c: int)
    requires c == a + b
    requires 0 <= b
    ensures JumpsAfter(JumpsAfter(jumps, a), b) == JumpsAfter(jumps, c)
  {
    if jumps != [] { JumpsAfterTwice(jumps[1..], a, b, c); }
  }

  lemma {:induction false} JumpsNames(jumps: seq<Jump>, ms: int, ids: set<Id>)
    requires forall j :: j in jumps ==> j.piece in ids
    ensures forall j :: j in JumpsAfter(jumps, ms) ==> j.piece in ids
  {
    if jumps != [] { JumpsNames(jumps[1..], ms, ids); }
  }
}
