/** A tick between two of its events. */
module Ticks {
  import opened Chess
  import opened Conservation
  import opened Game
  import opened Orders

  lemma {:induction false} PlayConcat(a: Arena, jumps: seq<Jump>, aloft: set<Id>, xs: seq<Event>, ys: seq<Event>)
    ensures Play(a, jumps, aloft, xs + ys) == Play(Play(a, jumps, aloft + Movers(ys), xs), jumps, aloft, ys)
    decreases |xs|
  {
    if xs == [] {
      assert xs + ys == ys;
    } else {
      assert (xs + ys)[1..] == xs[1..] + ys;
      assert Movers(xs[1..] + ys) == Movers(xs[1..]) + Movers(ys);
      assert aloft + Movers(xs[1..] + ys) == aloft + Movers(ys) + Movers(xs[1..]);
      PlayConcat(Resolve(a, jumps, xs[0], aloft + Movers(xs[1..] + ys)), jumps, aloft, xs[1..], ys);
    }
  }

  /** The state of a tick of `w` in which `done` has been resolved and `todo` has not. */
  function Partway(w: World, ms: int, done: seq<Event>, todo: seq<Event>): Arena {
    Play(Rest(w, ms), w.jumps, Aloft(w.motions, ms) + Movers(todo), done)
  }

  lemma PartwayPlayable(a: Arena, aloft: set<Id>, done: seq<Event>, todo: seq<Event>, hops: set<(Id, Position)>)
    requires Playable(a, aloft, done + todo, hops)
    ensures Playable(a, aloft + Movers(todo), done, hops + Hops(todo))
  {
    var all := done + todo;
    assert Movers(all) == Movers(done) + Movers(todo) && Hops(all) == Hops(done) + Hops(todo);
    assert aloft + Movers(all) == aloft + Movers(todo) + Movers(done);
    assert hops + Hops(all) == hops + Hops(todo) + Hops(done);
    assert forall i :: 0 <= i < |done| ==> all[i] == done[i];
    assert forall i :: 0 <= i < |todo| ==> all[|done| + i] == todo[i];
    forall p | p in Movers(done) ensures p !in aloft + Movers(todo) {
      var e :| e in done && e.Arrival? && e.motion.piece == p;
      var i :| 0 <= i < |done| && done[i] == e;
      assert all[i] == e && p in Movers(all);
    }
  }

  /** The state of a tick at any of its points can be played on. */
  lemma PartwaySound(w: World, ms: int, done: seq<Event>, todo: seq<Event>)
    requires Inv(w) && ValidOrder(w, ms, done + todo)
    ensures Playable(Partway(w, ms, done, todo), Aloft(w.motions, ms), todo, Sites(JumpsAfter(w.jumps, ms)))
  {
    var aloft, hops, all := Aloft(w.motions, ms), Sites(JumpsAfter(w.jumps, ms)), done + todo;
    TickPlayable(w, ms, all);
    PartwayPlayable(Rest(w, ms), aloft, done, todo, hops);
    PlaySound(Rest(w, ms), w.jumps, aloft + Movers(todo), done, hops + Hops(todo));
    assert forall i :: 0 <= i < |todo| ==> all[|done| + i] == todo[i];
    assert Movers(todo) <= Movers(all);
  }

  /** From one point of a tick to the next: one event is resolved. */
  lemma PartwayOn(w: World, ms: int, done: seq<Event>, e: Event, todo: seq<Event>)
    ensures Partway(w, ms, done + [e], todo)
         == Resolve(Partway(w, ms, done, [e] + todo), w.jumps, e, Aloft(w.motions, ms) + Movers(todo))
  {
    var pending := Aloft(w.motions, ms) + Movers(todo);
    PlayConcat(Rest(w, ms), w.jumps, pending, done, [e]);
    assert Movers([e] + todo) == Movers([e]) + Movers(todo);
    assert pending + Movers([e]) == Aloft(w.motions, ms) + Movers([e] + todo);
    PlayOne(Partway(w, ms, done, [e] + todo), w.jumps, pending, e);
  }

  lemma PlayOne(a: Arena, jumps: seq<Jump>, pending: set<Id>, e: Event)
    ensures Play(a, jumps, pending, [e]) == Resolve(a, jumps, e, pending)
  {
    assert [e][1..] == [] && pending + Movers([]) == pending;
  }

  lemma PartwayEnd(w: World, ms: int, order: seq<Event>)
    ensures Partway(w, ms, order, []) == AdvanceTime(w, ms, order).arena
    ensures Partway(w, ms, [], order) == Rest(w, ms)
  {
    assert Aloft(w.motions, ms) + Movers([]) == Aloft(w.motions, ms);
  }

  lemma PartwayFurther(w: World, ms: int, first: seq<Event>, second: seq<Event>, todo: seq<Event>)
    ensures Partway(w, ms, first + second, todo)
         == Play(Partway(w, ms, first, second + todo), w.jumps, Aloft(w.motions, ms) + Movers(todo), second)
  {
    var pending := Aloft(w.motions, ms) + Movers(todo);
    PlayConcat(Rest(w, ms), w.jumps, pending, first, second);
    assert Movers(second + todo) == Movers(second) + Movers(todo);
    assert pending + Movers(second) == Aloft(w.motions, ms) + Movers(second + todo);
  }
}
