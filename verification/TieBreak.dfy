/** The fixed tie-break: by arrival, motions before jumps, then by index. */
module TieBreak {
  import opened Conservation
  import opened FrameRate
  import opened Game

  /** Puts `e` before everything that does not come earlier. */
  function Put(e: Event, sorted: seq<Event>): (r: seq<Event>)
    ensures multiset(r) == multiset(sorted) + multiset{e}
  {
    if sorted == [] || e.Time() <= sorted[0].Time() then [e] + sorted
    else
      assert sorted == [sorted[0]] + sorted[1..];
      [sorted[0]] + Put(e, sorted[1..])
  }

  /** The stable sort by arrival time. */
  function Stable(events: seq<Event>): (r: seq<Event>)
    ensures multiset(r) == multiset(events)
  {
    if events == [] then []
    else
      assert events == [events[0]] + events[1..];
      Put(events[0], Stable(events[1..]))
  }

  /** What is due within `ms`: motions first, each in list order. */
  function Due(w: World, ms: int): seq<Event> {
    DueMotions(w.motions, ms) + DueJumps(w.jumps, ms)
  }

  /** What is due, stably sorted by arrival. */
  function FixedOrder(w: World, ms: int): seq<Event> {
    Stable(Due(w, ms))
  }

  ghost function FixedTick(w: World, ms: int): World {
    AdvanceTime(w, ms, FixedOrder(w, ms))
  }

  ghost function FixedUpdate(w: World, ms: int): World {
    Update(w, ms, FixedOrder(w, ms))
  }

  // ---------- the fixed order is admissible, and stable ----------

  lemma {:induction false} PutSorted(e: Event, sorted: seq<Event>)
    requires SortedByTime(sorted)
    ensures SortedByTime(Put(e, sorted))
  {
    if sorted != [] && e.Time() > sorted[0].Time() {
      var rest := sorted[1..];
      PutSorted(e, rest);
      forall x | x in Put(e, rest) ensures sorted[0].Time() <= x.Time() {
        assert x in multiset(Put(e, rest));
        assert x == e || x in rest;
      }
    }
  }

  lemma {:induction false} StableSorted(events: seq<Event>)
    ensures SortedByTime(Stable(events))
  {
    if events != [] {
      StableSorted(events[1..]);
      PutSorted(events[0], Stable(events[1..]));
    }
  }

  lemma FixedValid(w: World, ms: int)
    ensures ValidOrder(w, ms, FixedOrder(w, ms))
  {
    StableSorted(Due(w, ms));
  }

  /** The events of one instant, in the order in which they are listed. */
  function AtTime(events: seq<Event>, t: int): seq<Event> {
    if events == [] then []
    else if events[0].Time() == t then [events[0]] + AtTime(events[1..], t)
    else AtTime(events[1..], t)
  }

  lemma {:induction false} PutAtTime(e: Event, sorted: seq<Event>, t: int)
    requires SortedByTime(sorted)
    ensures AtTime(Put(e, sorted), t) == if e.Time() == t then [e] + AtTime(sorted, t) else AtTime(sorted, t)
  {
    if sorted != [] && e.Time() > sorted[0].Time() {
      PutAtTime(e, sorted[1..], t);
      assert Put(e, sorted)[1..] == Put(e, sorted[1..]);
      if e.Time() == t { assert sorted[0].Time() != t; }
    } else {
      assert ([e] + sorted)[1..] == sorted;
    }
  }

  /** Events of the same instant keep their order: motions before jumps, each by index. */
  lemma {:induction false} StableAtTime(events: seq<Event>, t: int)
    ensures AtTime(Stable(events), t) == AtTime(events, t)
  {
    if events != [] {
      StableAtTime(events[1..], t);
      StableSorted(events[1..]);
      PutAtTime(events[0], Stable(events[1..]), t);
    }
  }

  lemma {:induction false} AtTimeConcat(xs: seq<Event>, ys: seq<Event>, t: int)
    ensures AtTime(xs + ys, t) == AtTime(xs, t) + AtTime(ys, t)
  {
    if xs == [] {
      assert xs + ys == ys;
    } else {
      assert (xs + ys)[1..] == xs[1..] + ys;
      AtTimeConcat(xs[1..], ys, t);
    }
  }

  /** What ends at one instant: the motions first, then the jumps, each as they are listed. */
  lemma FixedInstant(w: World, ms: int, t: int)
    ensures AtTime(FixedOrder(w, ms), t) == AtTime(DueMotions(w.motions, ms), t) + AtTime(DueJumps(w.jumps, ms), t)
  {
    StableAtTime(Due(w, ms), t);
    AtTimeConcat(DueMotions(w.motions, ms), DueJumps(w.jumps, ms), t);
  }

  // ---------- sorting commutes with splitting ----------

  lemma {:induction false} PutPostponed(e: Event, sorted: seq<Event>, n: int)
    ensures PostponeAll(Put(e, sorted), n) == Put(Postpone(e, n), PostponeAll(sorted, n))
  {
    var r, later := Put(e, sorted), PostponeAll(sorted, n);
    assert Postpone(e, n).Time() == e.Time() + n;
    if sorted != [] && e.Time() > sorted[0].Time() {
      var rest := sorted[1..];
      PutPostponed(e, rest, n);
      assert r[0] == sorted[0] && r[1..] == Put(e, rest);
      assert later[0].Time() == sorted[0].Time() + n && later[1..] == PostponeAll(rest, n);
    } else {
      assert r[0] == e && r[1..] == sorted;
      assert sorted != [] ==> later[0].Time() == sorted[0].Time() + n;
    }
  }

  lemma {:induction false} StablePostponed(events: seq<Event>, n: int)
    ensures PostponeAll(Stable(events), n) == Stable(PostponeAll(events, n))
  {
    if events != [] {
      StablePostponed(events[1..], n);
      PutPostponed(events[0], Stable(events[1..]), n);
      assert PostponeAll(events, n)[1..] == PostponeAll(events[1..], n);
    }
  }

  lemma PutFirst(e: Event, events: seq<Event>)
    requires forall x :: x in events ==> e.Time() <= x.Time()
    ensures Put(e, events) == [e] + events
  {
    if events != [] { assert events[0] in events; }
  }

  lemma {:induction false} PutSplit(e: Event, sorted: seq<Event>, ms: int)
    requires SortedByTime(sorted)
    ensures Early(Put(e, sorted), ms) == if e.Time() <= ms then Put(e, Early(sorted, ms)) else Early(sorted, ms)
    ensures Late(Put(e, sorted), ms) == if e.Time() > ms then Put(e, Late(sorted, ms)) else Late(sorted, ms)
  {
    var r := Put(e, sorted);
    EarlyMembers(sorted, ms);
    if sorted != [] && e.Time() > sorted[0].Time() {
      PutSplit(e, sorted[1..], ms);
      assert r[0] == sorted[0] && r[1..] == Put(e, sorted[1..]);
    } else {
      assert r[0] == e && r[1..] == sorted;
      assert forall x :: x in sorted ==> e.Time() <= x.Time();
      PutFirst(e, Early(sorted, ms));
      PutFirst(e, Late(sorted, ms));
    }
  }

  lemma {:induction false} StableSplit(events: seq<Event>, ms: int)
    ensures Early(Stable(events), ms) == Stable(Early(events, ms))
    ensures Late(Stable(events), ms) == Stable(Late(events, ms))
  {
    if events != [] {
      StableSplit(events[1..], ms);
      StableSorted(events[1..]);
      PutSplit(events[0], Stable(events[1..]), ms);
    }
  }

  /** The fixed order of a long tick consists of the fixed orders of the two ticks it splits into. */
  lemma FixedSplits(w: World, a: int, b: int, c: int, v: World)
    requires c == a + b && 0 <= b
    requires v.motions == MotionsAfter(w.motions, a) && v.jumps == JumpsAfter(w.jumps, a)
    ensures Early(FixedOrder(w, c), a) == FixedOrder(w, a)
    ensures Second(FixedOrder(w, c), a) == FixedOrder(v, b)
  {
    var due, first, second := Due(w, c), Due(w, a), Due(v, b);
    DueParts(w, a, b, c, v, -a, due, first, second);
    StableParts(due, a, -a, first, second);
  }

  lemma DueParts(w: World, a: int, b: int, c: int, v: World, n: int, due: seq<Event>, first: seq<Event>,
                 second: seq<Event>)
    requires c == a + b && 0 <= b && n == -a
    requires v.motions == MotionsAfter(w.motions, a) && v.jumps == JumpsAfter(w.jumps, a)
    requires due == Due(w, c) && first == Due(w, a) && second == Due(v, b)
    ensures Early(due, a) == first && PostponeAll(Late(due, a), n) == second
  {
    DueSplits(w, a, b, c, v);
  }

  lemma StableParts(due: seq<Event>, a: int, n: int, first: seq<Event>, second: seq<Event>)
    requires Early(due, a) == first && PostponeAll(Late(due, a), n) == second
    ensures Early(Stable(due), a) == Stable(first) && PostponeAll(Late(Stable(due), a), n) == Stable(second)
  {
    StableSplit(due, a);
    StablePostponed(Late(due, a), n);
  }

  // ---------- frame-rate independence of the fixed rule ----------

  /** Two ticks are one, and of the cooldowns just those granted in the first part have aged by `b`. */
  lemma FixedTickInTwo(w: World, a: int, b: int, c: int)
    requires c == a + b && 0 <= a && 0 <= b
    ensures var v := FixedTick(w, a);
      var once, twice := FixedTick(w, c), FixedTick(v, b);
      var older := Aged(w.arena.cooldowns, c);
      var first, second := Granted(w, a, FixedOrder(w, a)), Granted(v, b, FixedOrder(v, b));
      && SameButCooldowns(twice, once)
      && once.arena.cooldowns == older + first + second
      && twice.arena.cooldowns == older + Aged(first, b) + second
  {
    FixedValid(w, c);
    FixedSplits(w, a, b, c, FixedTick(w, a));
    AdvanceInTwo(w, a, b, c, FixedOrder(w, c));
  }

  lemma FixedUpdateInTwo(w: World, a: int, b: int, c: int)
    requires c == a + b && 0 <= a && 0 <= b && Inv(w)
    ensures SameButCooldowns(FixedUpdate(FixedUpdate(w, a), b), FixedUpdate(w, c))
  {
    FixedValid(w, c);
    FixedSplits(w, a, b, c, FixedUpdate(w, a));
    UpdateInTwo(w, a, b, c, FixedOrder(w, c));
  }

  ghost function Frames(w: World, times: seq<nat>): World
    decreases |times|
  {
    if times == [] then w else Frames(FixedUpdate(w, times[0]), times[1..])
  }

  function Total(times: seq<nat>): nat {
    if times == [] then 0 else times[0] + Total(times[1..])
  }

  /** However an interval is cut into frames, the state at its end is that of one update, cooldowns apart. */
  lemma {:induction false} FixedFramesAsOne(w: World, times: seq<nat>)
    requires Inv(w) && times != []
    ensures SameButCooldowns(Frames(w, times), FixedUpdate(w, Total(times)))
    decreases |times|
  {
    if |times| > 1 {
      var v, rest := FixedUpdate(w, times[0]), times[1..];
      FixedUpdateSound(w, times[0]);
      FixedFramesAsOne(v, rest);
      JoinFrames(w, v, Frames(v, rest), times[0], Total(rest), Total(times));
    } else {
      OneFrame(w, times);
    }
  }

  lemma OneFrame(w: World, times: seq<nat>)
    requires |times| == 1
    ensures Frames(w, times) == FixedUpdate(w, Total(times))
  {
    assert times[1..] == [];
    assert Total(times) == times[0];
  }

  lemma JoinFrames(w: World, v: World, u: World, a: nat, b: nat, c: nat)
    requires c == a + b && Inv(w) && v == FixedUpdate(w, a) && SameButCooldowns(u, FixedUpdate(v, b))
    ensures SameButCooldowns(u, FixedUpdate(w, c))
  {
    FixedUpdateInTwo(w, a, b, c);
    SameTrans(u, FixedUpdate(v, b), FixedUpdate(w, c));
  }

  lemma FixedUpdateSound(w: World, ms: nat)
    requires Inv(w)
    ensures Inv(FixedUpdate(w, ms))
  {
    FixedValid(w, ms);
    StepSound(w, Wait(ms, FixedOrder(w, ms)));
  }

  lemma SameTrans(u: World, v: World, w: World)
    requires SameButCooldowns(u, v) && SameButCooldowns(v, w)
    ensures SameButCooldowns(u, w)
  {
  }

  /** Two ways of cutting the same interval into frames cannot be told apart but by cooldowns. */
  lemma AnyFrameRate(w: World, ops: seq<Op>, times: seq<nat>, others: seq<nat>)
    requires Initial(w) && IsRun(w, ops) && times != [] && others != [] && Total(times) == Total(others)
    ensures SameButCooldowns(Frames(Run(w, ops), times), Frames(Run(w, ops), others))
  {
    InitialSound(w);
    RunSound(w, ops);
    FixedFramesAsOne(Run(w, ops), times);
    FixedFramesAsOne(Run(w, ops), others);
  }
}
