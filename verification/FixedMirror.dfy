/** Under the fixed tie-break the game has no preferred side. */
module FixedMirror {
  import opened Game
  import opened Mirror
  import opened TieBreak

  lemma FlipCons(h: int, e: Event, events: seq<Event>)
    ensures FlipEvents(h, [e] + events) == [FlipEvent(h, e)] + FlipEvents(h, events)
  {
    assert ([e] + events)[1..] == events;
  }

  lemma PutLater(e: Event, first: Event, rest: seq<Event>)
    requires e.Time() > first.Time()
    ensures Put(e, [first] + rest) == [first] + Put(e, rest)
  {
    assert ([first] + rest)[1..] == rest;
  }

  lemma FlipTime(h: int, e: Event)
    ensures FlipEvent(h, e).Time() == e.Time()
  {
  }

  lemma {:induction false} PutFlip(h: int, e: Event, sorted: seq<Event>)
    ensures FlipEvents(h, Put(e, sorted)) == Put(FlipEvent(h, e), FlipEvents(h, sorted))
  {
    var flipped, f := FlipEvents(h, sorted), FlipEvent(h, e);
    FlipTime(h, e);
    if sorted == [] {
      FlipCons(h, e, sorted);
    } else {
      var first, rest := sorted[0], sorted[1..];
      FlipTime(h, first);
      assert sorted == [first] + rest;
      FlipCons(h, first, rest);
      if e.Time() <= first.Time() {
        FlipCons(h, e, sorted);
      } else {
        PutFlip(h, e, rest);
        FlipCons(h, first, Put(e, rest));
        PutLater(f, FlipEvent(h, first), FlipEvents(h, rest));
      }
    }
  }

  lemma {:induction false} StableFlip(h: int, events: seq<Event>)
    ensures FlipEvents(h, Stable(events)) == Stable(FlipEvents(h, events))
  {
    if events != [] {
      var flipped := FlipEvents(h, events);
      StableFlip(h, events[1..]);
      PutFlip(h, events[0], Stable(events[1..]));
      assert flipped[0] == FlipEvent(h, events[0]) && flipped[1..] == FlipEvents(h, events[1..]);
    }
  }

  /** The mirror image of the fixed order is the fixed order of the mirror image: sides are no part of the rule. */
  lemma FixedOrderFlip(w: World, v: World, ms: int)
    requires MirrorsWorld(w, v)
    ensures FixedOrder(v, ms) == FlipEvents(w.arena.height, FixedOrder(w, ms))
  {
    var h := w.arena.height;
    MotionListsFlip(h, w.motions, ms);
    JumpListsFlip(h, w.jumps, ms);
    FlipEventsConcat(h, DueMotions(w.motions, ms), DueJumps(w.jumps, ms));
    StableFlip(h, Due(w, ms));
  }

  lemma FixedFlip(w: World, v: World, ms: nat)
    requires MirrorsWorld(w, v) && Bounded(w.arena)
    ensures MirrorsWorld(FixedUpdate(w, ms), FixedUpdate(v, ms)) && Bounded(FixedUpdate(w, ms).arena)
  {
    FixedOrderFlip(w, v, ms);
    MirrorBounded(w.arena, v.arena);
    StepFlip(w, v, Wait(ms, FixedOrder(w, ms)));
  }

  /** An update of the mirrored game is the mirrored update. */
  lemma MirroredUpdate(w: World, ms: nat)
    requires Bounded(w.arena)
    ensures FixedUpdate(FlipWorld(w), ms) == FlipWorld(FixedUpdate(w, ms))
  {
    HasMirror(w);
    FixedFlip(w, FlipWorld(w), ms);
    HasMirror(FixedUpdate(w, ms));
    OneMirror(FixedUpdate(w, ms), FixedUpdate(FlipWorld(w), ms), FlipWorld(FixedUpdate(w, ms)));
  }

  /** And so for any number of updates, however long each of them is. */
  lemma {:induction false} MirroredFrames(w: World, times: seq<nat>)
    requires Bounded(w.arena)
    ensures Frames(FlipWorld(w), times) == FlipWorld(Frames(w, times))
    decreases |times|
  {
    if times != [] {
      HasMirror(w);
      FixedFlip(w, FlipWorld(w), times[0]);
      MirroredUpdate(w, times[0]);
      MirroredFrames(FixedUpdate(w, times[0]), times[1..]);
    }
  }
}
