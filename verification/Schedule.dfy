/**
 The index-based event list of a tick, and what it says about motions and jumps.  The arbiter collects indices, sorts
 them by arrival time, and marks in two arrays which entries it has handled; here these are tied to the events
 themselves.
 */
module Schedule {
  import opened Chess
  import opened Game

  /** An entry of the event list: a motion or a jump, by index, with its arrival time. */
  datatype Due = Due(isMotion: bool, index: nat, arrival: int)

  /** `d` names a motion or jump of the lists and carries its remaining time. */
  predicate Refers(d: Due, motions: seq<Motion>, jumps: seq<Jump>) {
    if d.isMotion then d.index < |motions| && d.arrival == motions[d.index].remaining
    else d.index < |jumps| && d.arrival == jumps[d.index].remaining
  }

  function EventOf(d: Due, motions: seq<Motion>, jumps: seq<Jump>): Event
    requires Refers(d, motions, jumps)
  {
    if d.isMotion then Arrival(motions[d.index]) else Touchdown(jumps[d.index])
  }

  function EventsOf(ds: seq<Due>, motions: seq<Motion>, jumps: seq<Jump>): (es: seq<Event>)
    requires forall d :: d in ds ==> Refers(d, motions, jumps)
    ensures |es| == |ds| && forall i :: 0 <= i < |ds| ==> es[i] == EventOf(ds[i], motions, jumps)
  {
    seq(|ds|, i requires 0 <= i < |ds| => EventOf(ds[i], motions, jumps))
  }

  ghost predicate Once(ds: seq<Due>) {
    forall d :: multiset(ds)[d] <= 1
  }

  lemma DueMotionsStep(motions: seq<Motion>, i: nat, ms: int)
    requires i < |motions|
    ensures DueMotions(motions[i..], ms) ==
      (if motions[i].remaining <= ms then [Arrival(motions[i])] else []) + DueMotions(motions[i + 1..], ms)
  {
    assert motions[i..][1..] == motions[i + 1..];
  }

  lemma DueJumpsStep(jumps: seq<Jump>, i: nat, ms: int)
    requires i < |jumps|
    ensures DueJumps(jumps[i..], ms) ==
      (if jumps[i].remaining <= ms then [Touchdown(jumps[i])] else []) + DueJumps(jumps[i + 1..], ms)
  {
    assert jumps[i..][1..] == jumps[i + 1..];
  }

  /** Of the first `m` motions and the first `j` jumps, those that end within `ms` are listed, each once. */
  ghost predicate Gathered(ds: seq<Due>, motions: seq<Motion>, jumps: seq<Jump>, ms: int, m: nat, j: nat) {
    && Once(ds)
    && forall d :: d in ds <==>
         Refers(d, motions, jumps) && d.arrival <= ms && d.index < if d.isMotion then m else j
  }

  lemma Gather(ds: seq<Due>, d: Due, motions: seq<Motion>, jumps: seq<Jump>, ms: int, m: nat, j: nat)
    requires Gathered(ds, motions, jumps, ms, m, j) && Refers(d, motions, jumps)
    requires d.index == (if d.isMotion then m else j)
    ensures var more := if d.arrival <= ms then ds + [d] else ds;
      && (if d.isMotion then Gathered(more, motions, jumps, ms, m + 1, j)
        else Gathered(more, motions, jumps, ms, m, j + 1))
      && EventsOf(more, motions, jumps)
         == EventsOf(ds, motions, jumps) + if d.arrival <= ms then [EventOf(d, motions, jumps)] else []
  {
    if d.arrival <= ms {
      Appended(ds, d, motions, jumps);
    }
    var last := if d.isMotion then m else j;
    assert forall e: Due :: Refers(e, motions, jumps) && e.isMotion == d.isMotion && e.index == last ==> e == d;
  }

  lemma NextMotion(ds: seq<Due>, d: Due, motions: seq<Motion>, jumps: seq<Jump>, ms: int, i: nat)
    requires i < |motions| && d == Due(true, i, motions[i].remaining) && Gathered(ds, motions, jumps, ms, i, 0)
    ensures var more := if d.arrival <= ms then ds + [d] else ds;
      && Gathered(more, motions, jumps, ms, i + 1, 0)
      && EventsOf(more, motions, jumps) + DueMotions(motions[i + 1..], ms)
         == EventsOf(ds, motions, jumps) + DueMotions(motions[i..], ms)
  {
    var here := if d.arrival <= ms then [Arrival(motions[i])] else [];
    var more := if d.arrival <= ms then ds + [d] else ds;
    DueMotionsStep(motions, i, ms);
    Gather(ds, d, motions, jumps, ms, i, 0);
    Regroup(EventsOf(ds, motions, jumps), here, DueMotions(motions[i + 1..], ms),
            EventsOf(more, motions, jumps), DueMotions(motions[i..], ms));
  }

  lemma Regroup(xs: seq<Event>, here: seq<Event>, later: seq<Event>, more: seq<Event>, all: seq<Event>)
    requires more == xs + here && all == here + later
    ensures more + later == xs + all
  {
  }

  lemma NextJump(ds: seq<Due>, d: Due, motions: seq<Motion>, jumps: seq<Jump>, ms: int, i: nat)
    requires i < |jumps| && d == Due(false, i, jumps[i].remaining) && Gathered(ds, motions, jumps, ms, |motions|, i)
    ensures var more := if d.arrival <= ms then ds + [d] else ds;
      && Gathered(more, motions, jumps, ms, |motions|, i + 1)
      && EventsOf(more, motions, jumps) + DueJumps(jumps[i + 1..], ms)
         == EventsOf(ds, motions, jumps) + DueJumps(jumps[i..], ms)
  {
    var here := if d.arrival <= ms then [Touchdown(jumps[i])] else [];
    var more := if d.arrival <= ms then ds + [d] else ds;
    DueJumpsStep(jumps, i, ms);
    Gather(ds, d, motions, jumps, ms, |motions|, i);
    Regroup(EventsOf(ds, motions, jumps), here, DueJumps(jumps[i + 1..], ms),
            EventsOf(more, motions, jumps), DueJumps(jumps[i..], ms));
  }

  /** The first two loops of a tick: everything that ends within `ms`, motions first. */
  method Collect(motions: seq<Motion>, jumps: seq<Jump>, ms: int) returns (events: seq<Due>)
    ensures forall d :: d in events <==>
      Refers(d, motions, jumps) && d.arrival <= ms
    ensures EventsOf(events, motions, jumps) == DueMotions(motions, ms) + DueJumps(jumps, ms)
    ensures Once(events)
  {
    events := CollectMotions(motions, jumps, ms);
    events := AddJumps(events, motions, jumps, ms);
  }

  method CollectMotions(motions: seq<Motion>, jumps: seq<Jump>, ms: int) returns (events: seq<Due>)
    ensures Gathered(events, motions, jumps, ms, |motions|, 0)
    ensures EventsOf(events, motions, jumps) == DueMotions(motions, ms)
  {
    events := [];
    for i := 0 to |motions|
      invariant Gathered(events, motions, jumps, ms, i, 0)
      invariant EventsOf(events, motions, jumps) + DueMotions(motions[i..], ms) == DueMotions(motions, ms)
    {
      NextMotion(events, Due(true, i, motions[i].remaining), motions, jumps, ms, i);
      if motions[i].remaining <= ms {
        events := events + [Due(true, i, motions[i].remaining)];
      }
    }
  }

  method AddJumps(landings: seq<Due>, motions: seq<Motion>, jumps: seq<Jump>, ms: int) returns (events: seq<Due>)
    requires Gathered(landings, motions, jumps, ms, |motions|, 0)
    ensures Gathered(events, motions, jumps, ms, |motions|, |jumps|)
    ensures EventsOf(events, motions, jumps) == EventsOf(landings, motions, jumps) + DueJumps(jumps, ms)
  {
    events := landings;
    for i := 0 to |jumps|
      invariant Gathered(events, motions, jumps, ms, |motions|, i)
      invariant EventsOf(events, motions, jumps) + DueJumps(jumps[i..], ms)
             == EventsOf(landings, motions, jumps) + DueJumps(jumps, ms)
    {
      NextJump(events, Due(false, i, jumps[i].remaining), motions, jumps, ms, i);
      if jumps[i].remaining <= ms {
        events := events + [Due(false, i, jumps[i].remaining)];
      }
    }
  }

  lemma Appended(ds: seq<Due>, d: Due, motions: seq<Motion>, jumps: seq<Jump>)
    requires forall e :: e in ds ==> Refers(e, motions, jumps)
    requires Refers(d, motions, jumps) && d !in ds && Once(ds)
    ensures forall e :: e in ds + [d] ==> Refers(e, motions, jumps)
    ensures EventsOf(ds + [d], motions, jumps) == EventsOf(ds, motions, jumps) + [EventOf(d, motions, jumps)]
    ensures Once(ds + [d])
  {
  }

  predicate ByArrival(ds: seq<Due>) {
    forall i, j :: 0 <= i < j < |ds| ==> ds[i].arrival <= ds[j].arrival
  }

  method Insert(sorted: seq<Due>, d: Due) returns (longer: seq<Due>)
    requires ByArrival(sorted)
    ensures ByArrival(longer) && multiset(longer) == multiset(sorted) + multiset{d}
  {
    var k: nat := |sorted|;
    while k > 0 && sorted[k - 1].arrival > d.arrival
      invariant k <= |sorted|
      invariant k < |sorted| ==> sorted[k].arrival > d.arrival
    {
      k := k - 1;
    }
    assert sorted == sorted[..k] + sorted[k..];
    longer := sorted[..k] + [d] + sorted[k..];
    forall i, j | 0 <= i < j < |longer| ensures longer[i].arrival <= longer[j].arrival {
      Inserted(sorted, d, k, longer, i, j);
    }
  }

  lemma Inserted(sorted: seq<Due>, d: Due, k: nat, longer: seq<Due>, i: nat, j: nat)
    requires k <= |sorted| && longer == sorted[..k] + [d] + sorted[k..] && i < j < |longer|
    requires ByArrival(sorted)
    requires k > 0 ==> sorted[k - 1].arrival <= d.arrival
    requires k < |sorted| ==> d.arrival < sorted[k].arrival
    ensures longer[i].arrival <= longer[j].arrival
  {
    assert longer[i] == if i < k then sorted[i] else if i == k then d else sorted[i - 1];
    assert longer[j] == if j < k then sorted[j] else if j == k then d else sorted[j - 1];
    assert k > 0 && i < k ==> i == k - 1 || sorted[i].arrival <= sorted[k - 1].arrival;
    assert k < |sorted| && j > k ==> j - 1 == k || sorted[k].arrival <= sorted[j - 1].arrival;
  }

  /** Stands for `std::sort` with the arrival time as key: some sorted rearrangement. */
  method Sort(events: seq<Due>) returns (sorted: seq<Due>)
    ensures ByArrival(sorted) && multiset(sorted) == multiset(events)
  {
    sorted := [];
    for i := 0 to |events|
      invariant ByArrival(sorted) && multiset(sorted) == multiset(events[..i])
    {
      assert events[..i + 1] == events[..i] + [events[i]];
      sorted := Insert(sorted, events[i]);
    }
    assert events[..|events|] == events;
  }

  lemma {:induction false} SameEvents(xs: seq<Due>, ys: seq<Due>, motions: seq<Motion>, jumps: seq<Jump>)
    requires multiset(xs) == multiset(ys)
    requires forall d :: d in ys ==> Refers(d, motions, jumps)
    ensures forall d :: d in xs ==> Refers(d, motions, jumps)
    ensures multiset(EventsOf(xs, motions, jumps)) == multiset(EventsOf(ys, motions, jumps))
    decreases |xs|
  {
    forall d | d in xs ensures Refers(d, motions, jumps) { assert d in multiset(ys); }
    if xs == [] {
      assert ys == [];
    } else {
      assert xs[0] in multiset(ys);
      var k :| 0 <= k < |ys| && ys[k] == xs[0];
      var rest := ys[..k] + ys[k + 1..];
      Without(xs, ys, k);
      SameEvents(xs[1..], rest, motions, jumps);
      EventsWithout(xs, 0, motions, jumps);
      EventsWithout(ys, k, motions, jumps);
      assert xs[..0] + xs[1..] == xs[1..];
    }
  }

  lemma Without(xs: seq<Due>, ys: seq<Due>, k: nat)
    requires multiset(xs) == multiset(ys) && xs != [] && k < |ys| && ys[k] == xs[0]
    ensures multiset(xs[1..]) == multiset(ys[..k] + ys[k + 1..])
  {
    assert ys == ys[..k] + [ys[k]] + ys[k + 1..];
    assert xs == [xs[0]] + xs[1..];
    assert multiset(xs[1..]) == multiset(xs) - multiset{xs[0]};
  }

  lemma EventsWithout(ds: seq<Due>, k: nat, motions: seq<Motion>, jumps: seq<Jump>)
    requires k < |ds| && forall d :: d in ds ==> Refers(d, motions, jumps)
    ensures multiset(EventsOf(ds, motions, jumps)) ==
      multiset(EventsOf(ds[..k] + ds[k + 1..], motions, jumps)) + multiset{EventOf(ds[k], motions, jumps)}
  {
    var es, rest := EventsOf(ds, motions, jumps), EventsOf(ds[..k] + ds[k + 1..], motions, jumps);
    assert es == es[..k] + [es[k]] + es[k + 1..];
    assert rest == es[..k] + es[k + 1..];
  }

  lemma NoRepeat(ds: seq<Due>, k: nat)
    requires Once(ds) && k < |ds|
    ensures ds[k] !in ds[..k] && ds[k] !in ds[k + 1..]
  {
    assert ds == ds[..k] + [ds[k]] + ds[k + 1..];
    assert multiset(ds)[ds[k]] == multiset(ds[..k])[ds[k]] + 1 + multiset(ds[k + 1..])[ds[k]];
  }

  lemma OnlyOnce(ds: seq<Due>, k: nat, n: nat)
    requires Once(ds) && k + n < |ds|
    ensures ds[k + n] !in ds[..k]
  {
    NoRepeat(ds, k + n);
    assert ds[..k + n][..k] == ds[..k];
  }

  // ---------- the `handled` arrays ----------

  /** The event list of a tick: everything that ends within `ms`, each once. */
  ghost predicate Agenda(events: seq<Due>, motions: seq<Motion>, jumps: seq<Jump>, ms: int) {
    && (forall d :: d in events <==> Refers(d, motions, jumps) && d.arrival <= ms)
    && Once(events)
  }

  /** `handled` marks exactly the motions among the entries of `done`. */
  ghost predicate MotionsMarked(done: seq<Due>, motions: seq<Motion>, handled: seq<bool>) {
    |handled| == |motions| &&
    forall i :: 0 <= i < |motions| ==> (handled[i] <==> Due(true, i, motions[i].remaining) in done)
  }

  ghost predicate JumpsMarked(done: seq<Due>, jumps: seq<Jump>, handled: seq<bool>) {
    |handled| == |jumps| &&
    forall i :: 0 <= i < |jumps| ==> (handled[i] <==> Due(false, i, jumps[i].remaining) in done)
  }

  /** The pieces of the motions not marked as handled. */
  function Unhandled(motions: seq<Motion>, handled: seq<bool>): set<Id>
    requires |handled| == |motions|
  {
    set i | 0 <= i < |motions| && !handled[i] :: motions[i].piece
  }

  lemma UnhandledAwaits(done: seq<Due>, todo: seq<Due>, motions: seq<Motion>, jumps: seq<Jump>, ms: int,
                        handled: seq<bool>, i: nat)
    requires Agenda(done + todo, motions, jumps, ms) && MotionsMarked(done, motions, handled)
    requires forall d :: d in todo ==> Refers(d, motions, jumps)
    requires i < |motions| && !handled[i]
    ensures motions[i].piece in Aloft(motions, ms) + Movers(EventsOf(todo, motions, jumps))
  {
    var d, later := Due(true, i, motions[i].remaining), EventsOf(todo, motions, jumps);
    if motions[i].remaining <= ms {
      assert d in done + todo;
      var n :| 0 <= n < |todo| && todo[n] == d;
      assert later[n] == Arrival(motions[i]) && later[n] in later;
    } else {
      assert motions[i] in motions;
    }
  }

  lemma AwaitedUnhandled(done: seq<Due>, todo: seq<Due>, motions: seq<Motion>, jumps: seq<Jump>, ms: int,
                         handled: seq<bool>, p: Id)
    requires Agenda(done + todo, motions, jumps, ms) && MotionsMarked(done, motions, handled)
    requires forall d :: d in todo ==> Refers(d, motions, jumps)
    requires p in Aloft(motions, ms) + Movers(EventsOf(todo, motions, jumps))
    ensures p in Unhandled(motions, handled)
  {
    var later := EventsOf(todo, motions, jumps);
    if p in Aloft(motions, ms) {
      var m :| m in motions && m.remaining > ms && m.piece == p;
      var i :| 0 <= i < |motions| && motions[i] == m;
      assert Due(true, i, m.remaining) !in done + todo;
    } else {
      var e :| e in later && e.Arrival? && e.motion.piece == p;
      var n :| 0 <= n < |later| && later[n] == e;
      assert (done + todo)[|done| + n] == todo[n] && (done + todo)[..|done|] == done;
      OnlyOnce(done + todo, |done|, n);
      assert !handled[todo[n].index];
    }
  }

  /** The unhandled motions are those still to come in the tick and those that stay aloft. */
  lemma StillPending(done: seq<Due>, todo: seq<Due>, motions: seq<Motion>, jumps: seq<Jump>, ms: int,
                     handled: seq<bool>)
    requires Agenda(done + todo, motions, jumps, ms) && MotionsMarked(done, motions, handled)
    ensures forall d :: d in todo ==> Refers(d, motions, jumps)
    ensures Unhandled(motions, handled) == Aloft(motions, ms) + Movers(EventsOf(todo, motions, jumps))
  {
    assert forall d :: d in todo ==> d in done + todo;
    forall i | 0 <= i < |motions| && !handled[i]
      ensures motions[i].piece in Aloft(motions, ms) + Movers(EventsOf(todo, motions, jumps))
    {
      UnhandledAwaits(done, todo, motions, jumps, ms, handled, i);
    }
    forall p | p in Aloft(motions, ms) + Movers(EventsOf(todo, motions, jumps))
      ensures p in Unhandled(motions, handled)
    {
      AwaitedUnhandled(done, todo, motions, jumps, ms, handled, p);
    }
  }

  lemma MarkMotion(done: seq<Due>, d: Due, motions: seq<Motion>, handled: seq<bool>)
    requires MotionsMarked(done, motions, handled) && d.index < |motions| && d.isMotion
    requires d.arrival == motions[d.index].remaining
    ensures MotionsMarked(done + [d], motions, handled[d.index := true])
  {
  }

  lemma MarkJump(done: seq<Due>, d: Due, jumps: seq<Jump>, handled: seq<bool>)
    requires JumpsMarked(done, jumps, handled) && d.index < |jumps| && !d.isMotion
    requires d.arrival == jumps[d.index].remaining
    ensures JumpsMarked(done + [d], jumps, handled[d.index := true])
  {
  }

  /** Entry `k` of the event list, and what is pending when it is resolved. */
  lemma NextEntry(events: seq<Due>, k: nat, motions: seq<Motion>, jumps: seq<Jump>, ms: int)
    requires k < |events| && Agenda(events, motions, jumps, ms)
    ensures Refers(events[k], motions, jumps) && events[k].arrival <= ms
    ensures events[..k + 1] == events[..k] + [events[k]] && events == events[..k + 1] + events[k + 1..]
    ensures forall d :: d in events[k + 1..] ==> Refers(d, motions, jumps)
    ensures EventsOf(events, motions, jumps)[k + 1..] == EventsOf(events[k + 1..], motions, jumps)
  {
    assert events[k] in events;
    Cut(events, k);
    LaterEvents(events, k + 1, motions, jumps);
  }

  lemma Cut(ds: seq<Due>, k: nat)
    requires k < |ds|
    ensures ds[..k + 1] == ds[..k] + [ds[k]] && ds == ds[..k + 1] + ds[k + 1..]
  {
  }

  lemma LaterEvents(ds: seq<Due>, k: nat, motions: seq<Motion>, jumps: seq<Jump>)
    requires k <= |ds| && forall d :: d in ds ==> Refers(d, motions, jumps)
    ensures forall d :: d in ds[k..] ==> Refers(d, motions, jumps)
    ensures EventsOf(ds, motions, jumps)[k..] == EventsOf(ds[k..], motions, jumps)
  {
    assert forall d :: d in ds[k..] ==> d in ds;
  }

  /** The sorted event list stands for an admissible order. */
  lemma SortedIsOrder(w: World, ms: int, events: seq<Due>, sorted: seq<Due>)
    requires forall d :: d in events <==> Refers(d, w.motions, w.jumps) && d.arrival <= ms
    requires EventsOf(events, w.motions, w.jumps) == DueMotions(w.motions, ms) + DueJumps(w.jumps, ms)
    requires Once(events) && ByArrival(sorted) && multiset(sorted) == multiset(events)
    ensures Agenda(sorted, w.motions, w.jumps, ms)
    ensures ValidOrder(w, ms, EventsOf(sorted, w.motions, w.jumps))
  {
    SameEvents(sorted, events, w.motions, w.jumps);
    forall d ensures d in sorted <==> d in events { assert d in multiset(sorted) <==> d in multiset(events); }
    var order := EventsOf(sorted, w.motions, w.jumps);
    assert forall i :: 0 <= i < |sorted| ==> order[i].Time() == sorted[i].arrival;
  }

  /** After the whole event list has been resolved, exactly what ends within `ms` is marked. */
  lemma AllMarked(events: seq<Due>, motions: seq<Motion>, jumps: seq<Jump>, ms: int, handledMotions: seq<bool>,
                  handledJumps: seq<bool>)
    requires Agenda(events, motions, jumps, ms)
    requires MotionsMarked(events, motions, handledMotions) && JumpsMarked(events, jumps, handledJumps)
    ensures forall i :: 0 <= i < |motions| ==> (handledMotions[i] <==> motions[i].remaining <= ms)
    ensures forall i :: 0 <= i < |jumps| ==> (handledJumps[i] <==> jumps[i].remaining <= ms)
  {
  }
}
