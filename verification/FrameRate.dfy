/** Frame-rate independence: only cooldowns can tell one long update from two. */
module FrameRate {
  import opened Chess
  import opened Conservation
  import opened Game
  import opened Orders
  import opened Ticks

  // ---------- splitting an order ----------

  function Early(events: seq<Event>, ms: int): seq<Event> {
    if events == [] then []
    else if events[0].Time() <= ms then [events[0]] + Early(events[1..], ms)
    else Early(events[1..], ms)
  }

  function Late(events: seq<Event>, ms: int): seq<Event> {
    if events == [] then []
    else if events[0].Time() <= ms then Late(events[1..], ms)
    else [events[0]] + Late(events[1..], ms)
  }

  function Postpone(e: Event, ms: int): Event {
    match e
    case Arrival(m) => Arrival(m.(remaining := m.remaining + ms))
    case Touchdown(j) => Touchdown(j.(remaining := j.remaining + ms))
  }

  function PostponeAll(events: seq<Event>, ms: int): seq<Event> {
    if events == [] then [] else [Postpone(events[0], ms)] + PostponeAll(events[1..], ms)
  }

  lemma {:induction false} EarlyMembers(events: seq<Event>, ms: int)
    ensures forall e :: e in Early(events, ms) <==> e in events && e.Time() <= ms
    ensures forall e :: e in Late(events, ms) <==> e in events && e.Time() > ms
  {
    if events != [] {
      EarlyMembers(events[1..], ms);
      assert events == [events[0]] + events[1..];
    }
  }

  lemma {:induction false} EarlyLateSorted(events: seq<Event>, ms: int)
    requires SortedByTime(events)
    ensures events == Early(events, ms) + Late(events, ms)
  {
    if events != [] {
      var first, rest := events[0], events[1..];
      assert events == [first] + rest;
      EarlyLateSorted(rest, ms);
      if first.Time() > ms {
        EarlyMembers(rest, ms);
        assert Early(rest, ms) == [] && Late(rest, ms) == rest;
      } else {
        assert events == [first] + Early(rest, ms) + Late(rest, ms);
      }
    }
  }

  lemma {:induction false} EarlyCount(events: seq<Event>, ms: int, e: Event)
    ensures multiset(Early(events, ms))[e] == if e.Time() <= ms then multiset(events)[e] else 0
  {
    if events != [] {
      EarlyCount(events[1..], ms, e);
      assert events == [events[0]] + events[1..];
    }
  }

  lemma {:induction false} LateCount(events: seq<Event>, ms: int, e: Event)
    ensures multiset(Late(events, ms))[e] == if e.Time() > ms then multiset(events)[e] else 0
  {
    if events != [] {
      LateCount(events[1..], ms, e);
      assert events == [events[0]] + events[1..];
    }
  }

  lemma {:induction false} PostponeCount(events: seq<Event>, ms: int, e: Event)
    ensures multiset(PostponeAll(events, ms))[e] == multiset(events)[Postpone(e, -ms)]
  {
    if events != [] {
      PostponeCount(events[1..], ms, e);
      assert events == [events[0]] + events[1..];
      assert Postpone(events[0], ms) == e <==> events[0] == Postpone(e, -ms);
    }
  }

  lemma {:induction false} PostponeAt(events: seq<Event>, ms: int)
    ensures |PostponeAll(events, ms)| == |events|
    ensures forall i :: 0 <= i < |events| ==> PostponeAll(events, ms)[i] == Postpone(events[i], ms)
    ensures Movers(PostponeAll(events, ms)) == Movers(events)
  {
    var r := PostponeAll(events, ms);
    if events != [] {
      PostponeAt(events[1..], ms);
      assert events == [events[0]] + events[1..];
      assert r == [Postpone(events[0], ms)] + PostponeAll(events[1..], ms);
      assert Movers(r) == Movers([Postpone(events[0], ms)]) + Movers(PostponeAll(events[1..], ms));
      assert Movers(events) == Movers([events[0]]) + Movers(events[1..]);
      assert Movers([Postpone(events[0], ms)]) == Movers([events[0]]) by {
        if events[0].Arrival? {
          assert events[0] in [events[0]] && Postpone(events[0], ms) in [Postpone(events[0], ms)];
          assert Movers([events[0]]) == {events[0].motion.piece};
          assert Movers([Postpone(events[0], ms)]) == {events[0].motion.piece};
        }
      }
    }
  }

  // ---------- what is due, split ----------

  lemma {:induction false} EarlyConcat(xs: seq<Event>, ys: seq<Event>, ms: int)
    ensures Early(xs + ys, ms) == Early(xs, ms) + Early(ys, ms)
  {
    if xs == [] {
      assert xs + ys == ys;
    } else {
      assert (xs + ys)[0] == xs[0] && (xs + ys)[1..] == xs[1..] + ys;
      EarlyConcat(xs[1..], ys, ms);
    }
  }

  lemma {:induction false} LateConcat(xs: seq<Event>, ys: seq<Event>, ms: int)
    ensures Late(xs + ys, ms) == Late(xs, ms) + Late(ys, ms)
  {
    if xs == [] {
      assert xs + ys == ys;
    } else {
      assert (xs + ys)[0] == xs[0] && (xs + ys)[1..] == xs[1..] + ys;
      LateConcat(xs[1..], ys, ms);
    }
  }

  lemma {:induction false} PostponeConcat(xs: seq<Event>, ys: seq<Event>, ms: int)
    ensures PostponeAll(xs + ys, ms) == PostponeAll(xs, ms) + PostponeAll(ys, ms)
  {
    if xs == [] {
      assert xs + ys == ys;
    } else {
      assert (xs + ys)[0] == xs[0] && (xs + ys)[1..] == xs[1..] + ys;
      PostponeConcat(xs[1..], ys, ms);
    }
  }

  lemma {:induction false} EarlyMotions(motions: seq<Motion>, a: int, b: int, c: int)
    requires c == a + b
    requires 0 <= b
    ensures Early(DueMotions(motions, c), a) == DueMotions(motions, a)
  {
    if motions != [] { EarlyMotions(motions[1..], a, b, c); }
  }

  lemma {:induction false} LateMotions(motions: seq<Motion>, a: int, b: int, c: int)
    requires c == a + b
    requires 0 <= b
    ensures PostponeAll(Late(DueMotions(motions, c), a), -a) == DueMotions(MotionsAfter(motions, a), b)
  {
    if motions != [] { LateMotions(motions[1..], a, b, c); }
  }

  lemma AloftTwice(motions: seq<Motion>, a: int, b: int, c: int)
    requires c == a + b
    requires 0 <= b
    ensures Aloft(MotionsAfter(motions, a), b) == Aloft(motions, c)
  {
    var after := MotionsAfter(motions, a);
    forall p | p in Aloft(after, b) ensures p in Aloft(motions, c) {
      var m :| m in after && m.remaining > b && m.piece == p;
      MotionsAfterMembers(motions, a, m);
      assert m.(remaining := m.remaining + a).piece == p;
    }
    forall p | p in Aloft(motions, c) ensures p in Aloft(after, b) {
      var m :| m in motions && m.remaining > c && m.piece == p;
      var later := m.(remaining := m.remaining - a);
      MotionsAfterMembers(motions, a, later);
      assert later.(remaining := later.remaining + a) == m;
    }
  }

  lemma {:induction false} EarlyJumps(jumps: seq<Jump>, a: int, b: int, c: int)
    requires c == a + b
    requires 0 <= b
    ensures Early(DueJumps(jumps, c), a) == DueJumps(jumps, a)
  {
    if jumps != [] { EarlyJumps(jumps[1..], a, b, c); }
  }

  lemma {:induction false} LateJumps(jumps: seq<Jump>, a: int, b: int, c: int)
    requires c == a + b
    requires 0 <= b
    ensures PostponeAll(Late(DueJumps(jumps, c), a), -a) == DueJumps(JumpsAfter(jumps, a), b)
  {
    if jumps != [] { LateJumps(jumps[1..], a, b, c); }
  }

  lemma SplitPermutation(xs: seq<Event>, ys: seq<Event>, ms: int)
    requires multiset(xs) == multiset(ys)
    ensures multiset(Early(xs, ms)) == multiset(Early(ys, ms))
    ensures multiset(Late(xs, ms)) == multiset(Late(ys, ms))
  {
    forall e ensures multiset(Early(xs, ms))[e] == multiset(Early(ys, ms))[e]
             ensures multiset(Late(xs, ms))[e] == multiset(Late(ys, ms))[e]
    {
      EarlyCount(xs, ms, e); EarlyCount(ys, ms, e);
      LateCount(xs, ms, e); LateCount(ys, ms, e);
    }
  }

  lemma PostponePermutation(xs: seq<Event>, ys: seq<Event>, ms: int)
    requires multiset(xs) == multiset(ys)
    ensures multiset(PostponeAll(xs, ms)) == multiset(PostponeAll(ys, ms))
  {
    forall e ensures multiset(PostponeAll(xs, ms))[e] == multiset(PostponeAll(ys, ms))[e] {
      PostponeCount(xs, ms, e); PostponeCount(ys, ms, e);
    }
  }

  lemma DueSplits(w: World, a: int, b: int, c: int, v: World)
    requires c == a + b
    requires 0 <= b
    requires v.motions == MotionsAfter(w.motions, a) && v.jumps == JumpsAfter(w.jumps, a)
    ensures var due := DueMotions(w.motions, c) + DueJumps(w.jumps, c);
      && Early(due, a) == DueMotions(w.motions, a) + DueJumps(w.jumps, a)
      && PostponeAll(Late(due, a), -a) == DueMotions(v.motions, b) + DueJumps(v.jumps, b)
  {
    EarlyConcat(DueMotions(w.motions, c), DueJumps(w.jumps, c), a);
    LateConcat(DueMotions(w.motions, c), DueJumps(w.jumps, c), a);
    PostponeConcat(Late(DueMotions(w.motions, c), a), Late(DueJumps(w.jumps, c), a), -a);
    EarlyMotions(w.motions, a, b, c);
    LateMotions(w.motions, a, b, c);
    EarlyJumps(w.jumps, a, b, c);
    LateJumps(w.jumps, a, b, c);
  }

  lemma SortedHalves(xs: seq<Event>, ys: seq<Event>)
    requires SortedByTime(xs + ys)
    ensures SortedByTime(xs) && SortedByTime(ys)
  {
    var all := xs + ys;
    forall i, j | 0 <= i < j < |xs| ensures xs[i].Time() <= xs[j].Time() {
      assert all[i] == xs[i] && all[j] == xs[j];
    }
    forall i, j | 0 <= i < j < |ys| ensures ys[i].Time() <= ys[j].Time() {
      assert all[|xs| + i] == ys[i] && all[|xs| + j] == ys[j];
    }
  }

  lemma PostponeSorted(events: seq<Event>, ms: int)
    ensures SortedByTime(PostponeAll(events, ms)) <==> SortedByTime(events)
  {
    PostponeAt(events, ms);
    var later := PostponeAll(events, ms);
    assert forall i :: 0 <= i < |events| ==> later[i].Time() == events[i].Time() + ms;
  }

  lemma SortedPieces(order: seq<Event>, a: int)
    requires SortedByTime(order)
    ensures SortedByTime(Early(order, a)) && SortedByTime(PostponeAll(Late(order, a), -a))
  {
    EarlyLateSorted(order, a);
    SortedHalves(Early(order, a), Late(order, a));
    PostponeSorted(Late(order, a), -a);
  }

  /** The first part of an admissible order is one for the first update, the rest one for the second. */
  lemma OrderSplits(w: World, a: int, b: int, c: int, order: seq<Event>, v: World)
    requires c == a + b
    requires 0 <= b && ValidOrder(w, c, order)
    requires v.motions == MotionsAfter(w.motions, a) && v.jumps == JumpsAfter(w.jumps, a)
    ensures ValidOrder(w, a, Early(order, a))
    ensures ValidOrder(v, b, PostponeAll(Late(order, a), -a))
  {
    SortedPieces(order, a);
    SplitDue(w, a, b, c, order, v);
  }

  lemma SplitDue(w: World, a: int, b: int, c: int, order: seq<Event>, v: World)
    requires c == a + b
    requires 0 <= b && multiset(order) == multiset(DueMotions(w.motions, c) + DueJumps(w.jumps, c))
    requires v.motions == MotionsAfter(w.motions, a) && v.jumps == JumpsAfter(w.jumps, a)
    ensures multiset(Early(order, a)) == multiset(DueMotions(w.motions, a) + DueJumps(w.jumps, a))
    ensures multiset(PostponeAll(Late(order, a), -a)) == multiset(DueMotions(v.motions, b) + DueJumps(v.jumps, b))
  {
    var due := DueMotions(w.motions, c) + DueJumps(w.jumps, c);
    DueSplits(w, a, b, c, v);
    SplitPermutation(order, due, a);
    PostponedSame(Late(order, a), Late(due, a), -a, DueMotions(v.motions, b) + DueJumps(v.jumps, b));
  }

  lemma PostponedSame(late: seq<Event>, dueLate: seq<Event>, n: int, second: seq<Event>)
    requires multiset(late) == multiset(dueLate) && PostponeAll(dueLate, n) == second
    ensures multiset(PostponeAll(late, n)) == multiset(second)
  {
    PostponePermutation(late, dueLate, n);
  }

  // ---------- playing the two parts ----------

  lemma {:induction false} AirborneAfter(jumps: seq<Jump>, ms: int, pos: Position, t: int)
    requires t > ms
    ensures Airborne(JumpsAfter(jumps, ms), pos, t - ms) == Airborne(jumps, pos, t)
  {
    if jumps != [] { AirborneAfter(jumps[1..], ms, pos, t); }
  }

  lemma ResolveAfter(a: Arena, jumps: seq<Jump>, ms: int, e: Event, pending: set<Id>)
    requires e.Time() > ms
    ensures Resolve(a, JumpsAfter(jumps, ms), Postpone(e, -ms), pending) == Resolve(a, jumps, e, pending)
  {
    match e
    case Arrival(m) =>
      AirborneAfter(jumps, ms, m.dest, m.remaining);
      var m' := Postpone(e, -ms).motion;
      assert Judge(a, JumpsAfter(jumps, ms), m', pending) == Judge(a, jumps, m, pending);
    case Touchdown(j) =>
  }

  lemma PostponeHead(events: seq<Event>, ms: int)
    requires events != []
    ensures var later := PostponeAll(events, ms);
      later != [] && later[0] == Postpone(events[0], ms) && later[1..] == PostponeAll(events[1..], ms)
    ensures Movers(PostponeAll(events, ms)[1..]) == Movers(events[1..])
  {
    PostponeAt(events[1..], ms);
  }

  lemma PlayUnfold(a: Arena, jumps: seq<Jump>, aloft: set<Id>, events: seq<Event>, next: Arena)
    requires events != [] && next == Resolve(a, jumps, events[0], aloft + Movers(events[1..]))
    ensures Play(a, jumps, aloft, events) == Play(next, jumps, aloft, events[1..])
  {
  }

  /** Events that come after the first update resolve against the shortened jumps as they would have before. */
  lemma {:induction false} PlayAfter(a: Arena, jumps: seq<Jump>, ms: int, aloft: set<Id>, events: seq<Event>,
                                     later: seq<Event>)
    requires forall e :: e in events ==> e.Time() > ms
    requires later == PostponeAll(events, -ms)
    ensures Play(a, JumpsAfter(jumps, ms), aloft, later) == Play(a, jumps, aloft, events)
    decreases |events|
  {
    if events != [] {
      var pending := aloft + Movers(events[1..]);
      var next := Resolve(a, jumps, events[0], pending);
      PlayHead(a, jumps, ms, aloft, events, later, next);
      PostponeHead(events, -ms);
      PlayUnfold(a, jumps, aloft, events, next);
      PlayAfter(next, jumps, ms, aloft, events[1..], later[1..]);
    }
  }

  lemma PlayHead(a: Arena, jumps: seq<Jump>, ms: int, aloft: set<Id>, events: seq<Event>, later: seq<Event>,
                 next: Arena)
    requires events != [] && events[0].Time() > ms && later == PostponeAll(events, -ms)
    requires next == Resolve(a, jumps, events[0], aloft + Movers(events[1..]))
    ensures later != [] &&
            Play(a, JumpsAfter(jumps, ms), aloft, later) == Play(next, JumpsAfter(jumps, ms), aloft, later[1..])
  {
    var pending, shorter := aloft + Movers(events[1..]), JumpsAfter(jumps, ms);
    PostponeHead(events, -ms);
    assert aloft + Movers(later[1..]) == pending;
    ResolveAfter(a, jumps, ms, events[0], pending);
    PlayUnfold(a, shorter, aloft, later, next);
  }

  // ---------- cooldowns and the flag play no part in resolving events ----------

  /** `a` with `older` cooldowns in front of its own, and the flag raised if `flag` is. */
  function Framed(a: Arena, older: seq<Cooldown>, flag: bool): Arena {
    a.(cooldowns := older + a.cooldowns, gameOver := flag || a.gameOver)
  }

  lemma PutDownFramed(a: Arena, p: Id, pos: Position, older: seq<Cooldown>, flag: bool)
    requires p in a.pieces
    ensures PutDown(Framed(a, older, flag), p, pos) == Framed(PutDown(a, p, pos), older, flag)
  {
    var rest := [Cooldown(p, REST_MS, REST_MS, false)];
    assert older + (a.cooldowns + rest) == older + a.cooldowns + rest;
  }

  lemma RemoveFramed(a: Arena, pos: Position, older: seq<Cooldown>, flag: bool)
    ensures RemovePiece(Framed(a, older, flag), pos) == Framed(RemovePiece(a, pos), older, flag)
  {
  }

  lemma PromoteFramed(a: Arena, p: Id, pos: Position, older: seq<Cooldown>, flag: bool)
    requires p in a.pieces
    ensures Promote(Framed(a, older, flag), p, pos) == Framed(Promote(a, p, pos), older, flag)
  {
  }

  lemma AwardFramed(a: Arena, winner: Color, points: nat, older: seq<Cooldown>, flag: bool)
    ensures Award(Framed(a, older, flag), winner, points) == Framed(Award(a, winner, points), older, flag)
  {
  }

  lemma CaptureFramed(a: Arena, p: Id, dest: Position, q: Id, older: seq<Cooldown>, flag: bool)
    requires p in a.pieces && q in a.pieces
    ensures Capture(Framed(a, older, flag), p, dest, q) == Framed(Capture(a, p, dest, q), older, flag)
  {
    var removed := RemovePiece(a, dest);
    RemoveFramed(a, dest, older, flag);
    var landed := PutDown(removed, p, dest);
    PutDownFramed(removed, p, dest, older, flag);
    var judged := if a.pieces[q].kind.King? then landed.(gameOver := true) else landed;
    var awarded := Award(judged, a.pieces[p].color, Value(a.pieces[q].kind));
    AwardFramed(judged, a.pieces[p].color, Value(a.pieces[q].kind), older, flag);
    PromoteFramed(awarded, p, dest, older, flag);
  }

  lemma ExecuteFramed(a: Arena, m: Motion, verdict: Outcome, older: seq<Cooldown>, flag: bool)
    requires !verdict.Void? ==> m.piece in a.pieces
    requires verdict.Takes? ==> verdict.prey in a.pieces
    ensures Execute(Framed(a, older, flag), m, verdict) == Framed(Execute(a, m, verdict), older, flag)
  {
    match verdict
    case Void =>
    case Bounce => PutDownFramed(a, m.piece, m.source, older, flag);
    case Caught(catcher) =>
      AwardFramed(SetBody(a, m.piece, a.pieces[m.piece].(status := Captured)), catcher, Value(a.pieces[m.piece].kind),
                  older, flag);
    case Takes(prey) => CaptureFramed(a, m.piece, m.dest, prey, older, flag);
    case Settles =>
      PutDownFramed(a, m.piece, m.dest, older, flag);
      PromoteFramed(PutDown(a, m.piece, m.dest), m.piece, m.dest, older, flag);
  }

  lemma LandFramed(a: Arena, j: Jump, older: seq<Cooldown>, flag: bool)
    ensures Land(Framed(a, older, flag), j) == Framed(Land(a, j), older, flag)
  {
    var rest := [Cooldown(j.piece, REST_MS, REST_MS, true)];
    assert older + (a.cooldowns + rest) == older + a.cooldowns + rest;
  }

  lemma ResolveFramed(a: Arena, jumps: seq<Jump>, e: Event, pending: set<Id>, older: seq<Cooldown>, flag: bool)
    ensures Resolve(Framed(a, older, flag), jumps, e, pending) == Framed(Resolve(a, jumps, e, pending), older, flag)
  {
    match e
    case Arrival(m) =>
      assert Judge(Framed(a, older, flag), jumps, m, pending) == Judge(a, jumps, m, pending);
      ExecuteFramed(a, m, Judge(a, jumps, m, pending), older, flag);
    case Touchdown(j) => LandFramed(a, j, older, flag);
  }

  lemma {:induction false} PlayFramed(a: Arena, jumps: seq<Jump>, aloft: set<Id>, events: seq<Event>,
                                      older: seq<Cooldown>, flag: bool)
    ensures Play(Framed(a, older, flag), jumps, aloft, events) == Framed(Play(a, jumps, aloft, events), older, flag)
    decreases |events|
  {
    if events != [] {
      var pending := aloft + Movers(events[1..]);
      ResolveFramed(a, jumps, events[0], pending, older, flag);
      PlayFramed(Resolve(a, jumps, events[0], pending), jumps, aloft, events[1..], older, flag);
    }
  }

  lemma {:induction false} AgedTwice(cooldowns: seq<Cooldown>, a: int, b: int, c: int)
    requires c == a + b
    requires 0 <= b
    ensures Aged(Aged(cooldowns, a), b) == Aged(cooldowns, c)
  {
    if cooldowns != [] { AgedTwice(cooldowns[1..], a, b, c); }
  }

  lemma {:induction false} AgedConcat(xs: seq<Cooldown>, ys: seq<Cooldown>, ms: int)
    ensures Aged(xs + ys, ms) == Aged(xs, ms) + Aged(ys, ms)
  {
    if xs == [] {
      assert xs + ys == ys;
    } else {
      assert (xs + ys)[0] == xs[0] && (xs + ys)[1..] == xs[1..] + ys;
      AgedConcat(xs[1..], ys, ms);
    }
  }

  // ---------- one tick in two ----------

  /** The arena of `w` with an empty cooldown list. */
  function Bare(w: World): Arena {
    w.arena.(cooldowns := [])
  }

  /** The cooldowns that a tick of `w` hands out. */
  function Granted(w: World, ms: int, order: seq<Event>): seq<Cooldown> {
    Play(Bare(w), w.jumps, Aloft(w.motions, ms), order).cooldowns
  }

  function Second(order: seq<Event>, a: int): seq<Event> {
    PostponeAll(Late(order, a), -a)
  }

  /** A tick is the tick from an empty cooldown list, with the aged cooldowns in front. */
  lemma AdvanceFramed(w: World, ms: int, order: seq<Event>)
    ensures var r := Play(Bare(w), w.jumps, Aloft(w.motions, ms), order);
      AdvanceTime(w, ms, order).arena == Framed(r, Aged(w.arena.cooldowns, ms), false)
  {
    assert Rest(w, ms) == Framed(Bare(w), Aged(w.arena.cooldowns, ms), false);
    PlayFramed(Bare(w), w.jumps, Aloft(w.motions, ms), order, Aged(w.arena.cooldowns, ms), false);
  }

  lemma FramedTwice(a: Arena, older: seq<Cooldown>)
    ensures Framed(Framed(a.(cooldowns := []), a.cooldowns, false), older, false)
         == Framed(a.(cooldowns := []), older + a.cooldowns, false) == Framed(a, older, false)
  {
  }

  lemma PlayInTwo(a: Arena, jumps: seq<Jump>, aloft: set<Id>, xs: seq<Event>, ys: seq<Event>, older: seq<Cooldown>,
                  r1: Arena)
    requires r1 == Play(a, jumps, aloft + Movers(ys), xs)
    ensures Play(Framed(a, older, false), jumps, aloft, xs + ys)
         == Framed(Play(r1.(cooldowns := []), jumps, aloft, ys), older + r1.cooldowns, false)
  {
    PlayConcat(Framed(a, older, false), jumps, aloft, xs, ys);
    PlayFramed(a, jumps, aloft + Movers(ys), xs, older, false);
    FramedTwice(r1, older);
    PlayFramed(r1.(cooldowns := []), jumps, aloft, ys, older + r1.cooldowns, false);
  }

  lemma OnceFramed(w: World, a: int, b: int, c: int, order: seq<Event>, r1: Arena, r2: Arena)
    requires c == a + b
    requires 0 <= a && 0 <= b && ValidOrder(w, c, order)
    requires r1 == Play(Bare(w), w.jumps, Aloft(w.motions, a), Early(order, a))
    requires r2 == Play(r1.(cooldowns := []), w.jumps, Aloft(w.motions, c), Late(order, a))
    ensures AdvanceTime(w, c, order).arena == Framed(r2, Aged(w.arena.cooldowns, c) + r1.cooldowns, false)
  {
    EarlyLateSorted(order, a);
    LateAloft(w, a, b, c, order);
    assert Rest(w, c) == Framed(Bare(w), Aged(w.arena.cooldowns, c), false);
    PlayInTwo(Bare(w), w.jumps, Aloft(w.motions, c), Early(order, a), Late(order, a),
              Aged(w.arena.cooldowns, c), r1);
  }

  lemma LateMember(w: World, a: int, b: int, c: int, order: seq<Event>, m: Motion)
    requires c == a + b
    requires ValidOrder(w, c, order)
    ensures Arrival(m) in Late(order, a) <==> m in w.motions && a < m.remaining <= c
  {
    EarlyMembers(order, a);
    OrderMembers(w, c, order, Arrival(m));
  }

  /** The pieces still in flight after the first part are those of the late events and those that outlast both. */
  lemma LateAloft(w: World, a: int, b: int, c: int, order: seq<Event>)
    requires c == a + b
    requires 0 <= b && ValidOrder(w, c, order)
    ensures Aloft(w.motions, a) == Aloft(w.motions, c) + Movers(Late(order, a))
  {
    forall m ensures Arrival(m) in Late(order, a) <==> m in w.motions && a < m.remaining <= c {
      LateMember(w, a, b, c, order, m);
    }
    var late := Late(order, a);
    forall p | p in Aloft(w.motions, a) && p !in Aloft(w.motions, c) ensures p in Movers(late) {
      var m :| m in w.motions && m.remaining > a && m.piece == p;
      assert Arrival(m) in late;
    }
    forall p | p in Movers(late) ensures p in Aloft(w.motions, a) {
      var e :| e in late && e.Arrival? && e.motion.piece == p;
      assert Arrival(e.motion) in late;
    }
  }

  lemma TwiceFramed(w: World, a: int, b: int, c: int, order: seq<Event>, r1: Arena, r2: Arena, v: World)
    requires c == a + b
    requires 0 <= a && 0 <= b && ValidOrder(w, c, order)
    requires r1 == Play(Bare(w), w.jumps, Aloft(w.motions, a), Early(order, a))
    requires r2 == Play(r1.(cooldowns := []), w.jumps, Aloft(w.motions, c), Late(order, a))
    requires v == AdvanceTime(w, a, Early(order, a))
    ensures Bare(v) == r1.(cooldowns := [])
    ensures r2 == Play(Bare(v), v.jumps, Aloft(v.motions, b), Second(order, a))
    ensures AdvanceTime(v, b, Second(order, a)).arena ==
      Framed(r2, Aged(w.arena.cooldowns, c) + Aged(r1.cooldowns, b), false)
  {
    AdvanceFramed(w, a, Early(order, a));
    EarlyMembers(order, a);
    AloftTwice(w.motions, a, b, c);
    PlayAfter(Bare(v), w.jumps, a, Aloft(w.motions, c), Late(order, a), Second(order, a));
    AdvanceFramed(v, b, Second(order, a));
    AgedConcat(Aged(w.arena.cooldowns, a), r1.cooldowns, b);
    AgedTwice(w.arena.cooldowns, a, b, c);
  }

  /**
   One tick of `c` milliseconds and the two ticks it splits into agree on everything but cooldowns; a cooldown granted
   during the first part has aged by `b` in the second reading and not at all in the first.
   */
  lemma AdvanceInTwo(w: World, a: int, b: int, c: int, order: seq<Event>)
    requires c == a + b
    requires 0 <= a && 0 <= b && ValidOrder(w, c, order)
    ensures var v := AdvanceTime(w, a, Early(order, a));
      var once, twice := AdvanceTime(w, c, order), AdvanceTime(v, b, Second(order, a));
      var older := Aged(w.arena.cooldowns, c);
      var first, second := Granted(w, a, Early(order, a)), Granted(v, b, Second(order, a));
      && ValidOrder(w, a, Early(order, a))
      && ValidOrder(v, b, Second(order, a))
      && SameButCooldowns(twice, once)
      && once.arena.cooldowns == older + first + second
      && twice.arena.cooldowns == older + Aged(first, b) + second
  {
    var r1 := Play(Bare(w), w.jumps, Aloft(w.motions, a), Early(order, a));
    var r2 := Play(r1.(cooldowns := []), w.jumps, Aloft(w.motions, c), Late(order, a));
    var v := AdvanceTime(w, a, Early(order, a));
    OrderSplits(w, a, b, c, order, v);
    OnceFramed(w, a, b, c, order, r1, r2);
    TwiceFramed(w, a, b, c, order, r1, r2, v);
    MotionsAfterTwice(w.motions, a, b, c);
    JumpsAfterTwice(w.jumps, a, b, c);
  }

  // ---------- two ticks in one ----------

  function Joined(first: seq<Event>, second: seq<Event>, a: int): seq<Event> {
    first + PostponeAll(second, a)
  }

  lemma {:induction false} AllEarly(events: seq<Event>, ms: int)
    ensures (forall e :: e in events ==> e.Time() <= ms) ==> Early(events, ms) == events && Late(events, ms) == []
    ensures (forall e :: e in events ==> e.Time() > ms) ==> Early(events, ms) == [] && Late(events, ms) == events
  {
    if events != [] { AllEarly(events[1..], ms); }
  }

  lemma {:induction false} PostponeBack(events: seq<Event>, ms: int)
    ensures PostponeAll(PostponeAll(events, ms), -ms) == events
  {
    if events != [] {
      PostponeBack(events[1..], ms);
      PostponeHead(events, ms);
    }
  }

  /** The events of the first update end within `a`, those of the second later. */
  lemma JoinedTimes(w: World, a: int, b: int, first: seq<Event>, second: seq<Event>, v: World)
    requires ValidOrder(w, a, first) && ValidOrder(v, b, second)
    requires v.motions == MotionsAfter(w.motions, a) && v.jumps == JumpsAfter(w.jumps, a)
    ensures forall e :: e in first ==> e.Time() <= a
    ensures forall e :: e in PostponeAll(second, a) ==> e.Time() > a
  {
    forall e | e in first ensures e.Time() <= a { OrderMembers(w, a, first, e); }
    PostponeAt(second, a);
    forall i | 0 <= i < |second| ensures PostponeAll(second, a)[i].Time() > a {
      var e := second[i];
      OrderMembers(v, b, second, e);
      if e.Arrival? { MotionsAfterMembers(w.motions, a, e.motion); } else { JumpsAfterMembers(w.jumps, a, e.jump); }
    }
  }

  lemma JoinedSplits(w: World, a: int, b: int, first: seq<Event>, second: seq<Event>, v: World)
    requires ValidOrder(w, a, first) && ValidOrder(v, b, second)
    requires v.motions == MotionsAfter(w.motions, a) && v.jumps == JumpsAfter(w.jumps, a)
    ensures Early(Joined(first, second, a), a) == first
    ensures Late(Joined(first, second, a), a) == PostponeAll(second, a)
    ensures Second(Joined(first, second, a), a) == second
  {
    JoinedTimes(w, a, b, first, second, v);
    EarlyConcat(first, PostponeAll(second, a), a);
    LateConcat(first, PostponeAll(second, a), a);
    AllEarly(first, a);
    AllEarly(PostponeAll(second, a), a);
    PostponeBack(second, a);
  }

  lemma JoinedSorted(xs: seq<Event>, ys: seq<Event>, ms: int)
    requires SortedByTime(xs) && SortedByTime(ys)
    requires forall e :: e in xs ==> e.Time() <= ms
    requires forall e :: e in ys ==> e.Time() > ms
    ensures SortedByTime(xs + ys)
  {
    var all := xs + ys;
    forall i, j | 0 <= i < j < |all| ensures all[i].Time() <= all[j].Time() {
      if j < |xs| {
        assert all[i] == xs[i] && all[j] == xs[j];
      } else {
        assert all[j] == ys[j - |xs|];
        assert i < |xs| ==> all[i] == xs[i] && xs[i] in xs;
        assert i >= |xs| ==> all[i] == ys[i - |xs|];
      }
    }
  }

  lemma PostponeCountBack(events: seq<Event>, ms: int, e: Event)
    ensures multiset(PostponeAll(events, -ms))[Postpone(e, -ms)] == multiset(events)[e]
  {
    PostponedCount(events, -ms, e);
  }

  lemma PostponedCount(events: seq<Event>, ms: int, e: Event)
    ensures multiset(PostponeAll(events, ms))[Postpone(e, ms)] == multiset(events)[e]
  {
    PostponeCount(events, ms, Postpone(e, ms));
    assert Postpone(Postpone(e, ms), -ms) == e;
  }

  /** Listings that agree on the early and on the late events agree. */
  lemma SameFromParts(xs: seq<Event>, ys: seq<Event>, ms: int)
    requires multiset(Early(xs, ms)) == multiset(Early(ys, ms))
    requires multiset(PostponeAll(Late(xs, ms), -ms)) == multiset(PostponeAll(Late(ys, ms), -ms))
    ensures multiset(xs) == multiset(ys)
  {
    forall e ensures multiset(xs)[e] == multiset(ys)[e] {
      if e.Time() <= ms {
        EarlyCount(xs, ms, e);
        EarlyCount(ys, ms, e);
      } else {
        LateCount(xs, ms, e);
        LateCount(ys, ms, e);
        PostponeCountBack(Late(xs, ms), ms, e);
        PostponeCountBack(Late(ys, ms), ms, e);
      }
    }
  }

  /** Admissible orders of two successive updates join to one of the single longer update. */
  lemma OrdersJoin(w: World, a: int, b: int, c: int, first: seq<Event>, second: seq<Event>, v: World)
    requires c == a + b
    requires 0 <= b && ValidOrder(w, a, first) && ValidOrder(v, b, second)
    requires v.motions == MotionsAfter(w.motions, a) && v.jumps == JumpsAfter(w.jumps, a)
    ensures ValidOrder(w, c, Joined(first, second, a))
  {
    JoinedTimes(w, a, b, first, second, v);
    PostponeSorted(second, a);
    JoinedSorted(first, PostponeAll(second, a), a);
    JoinedSplits(w, a, b, first, second, v);
    DueSplits(w, a, b, c, v);
    SameFromParts(Joined(first, second, a), DueMotions(w.motions, c) + DueJumps(w.jumps, c), a);
  }

  // ---------- updates: ticks with the status check ----------

  /** A king that counts after a tick counted before it. */
  lemma KingsOnlyFall(w: World, ms: int, order: seq<Event>, color: Color)
    requires Inv(w) && ValidOrder(w, ms, order)
    requires KingInPlay(AdvanceTime(w, ms, order), color)
    ensures KingInPlay(w, color)
  {
    var v := AdvanceTime(w, ms, order);
    AdvanceSound(w, ms, order);
    AdvanceDescends(w, ms, order);
    if pos :| pos in v.arena.grid && IsKing(v.arena, v.arena.grid[pos], color) {
      StillCounted(w, v, v.arena.grid[pos], color);
    } else if m :| m in v.motions && IsKing(v.arena, m.piece, color) && !v.arena.pieces[m.piece].status.Captured? {
      StillCounted(w, v, m.piece, color);
    } else {
      var j :| j in v.jumps && IsKing(v.arena, j.piece, color) && !v.arena.pieces[j.piece].status.Captured?;
      JumpsAfterMembers(w.jumps, ms, j);
      if Gone(w.arena, Flyers(w.motions), j.piece) {
        var before := j.(remaining := j.remaining + ms);
        assert before in w.jumps && IsKing(w.arena, before.piece, color);
      } else {
        StillCounted(w, v, j.piece, color);
      }
    }
  }

  lemma StillCounted(w: World, v: World, p: Id, color: Color)
    requires Inv(w) && WorldDescends(w, v) && IsKing(v.arena, p, color)
    requires OnBoard(v.arena, p) || p in Flyers(v.motions) || !Gone(w.arena, Flyers(w.motions), p)
    ensures KingInPlay(w, color)
  {
    assert IsKing(w.arena, p, color);
    if OnBoard(w.arena, p) {
      assert w.arena.grid[w.arena.pieces[p].cell] == p;
    } else {
      var m :| m in w.motions && m.piece == p;
      assert m.piece in Flyers(w.motions);
    }
  }

  function Raised(w: World): World {
    w.(arena := w.arena.(gameOver := true))
  }

  /** A tick resolves the same way whether or not the flag is already up. */
  lemma AdvanceRaised(w: World, ms: int, order: seq<Event>)
    ensures AdvanceTime(Raised(w), ms, order) == Raised(AdvanceTime(w, ms, order))
  {
    var rest := Rest(w, ms);
    assert Framed(rest, [], true) == rest.(gameOver := true) by { assert [] + rest.cooldowns == rest.cooldowns; }
    assert Rest(Raised(w), ms) == Framed(rest, [], true);
    PlayFramed(rest, w.jumps, Aloft(w.motions, ms), order, [], true);
    var r := Play(rest, w.jumps, Aloft(w.motions, ms), order);
    assert Framed(r, [], true) == r.(gameOver := true) by { assert [] + r.cooldowns == r.cooldowns; }
  }

  lemma CheckSame(v: World, u: World)
    requires SameButCooldowns(v, u)
    ensures SameButCooldowns(CheckStatus(v), CheckStatus(u))
  {
    forall c ensures KingInPlay(v, c) == KingInPlay(u, c) { KingsBlind(v, u, c); }
  }

  lemma KingsBlind(v: World, u: World, color: Color)
    requires v.motions == u.motions && v.jumps == u.jumps
    requires v.arena.grid == u.arena.grid && v.arena.pieces == u.arena.pieces
    ensures KingInPlay(v, color) == KingInPlay(u, color)
  {
    assert forall p :: IsKing(v.arena, p, color) == IsKing(u.arena, p, color);
  }

  /** One update does what the two it splits into do, cooldowns apart. */
  lemma UpdateInTwo(w: World, a: int, b: int, c: int, order: seq<Event>)
    requires c == a + b
    requires 0 <= a && 0 <= b && Inv(w) && ValidOrder(w, c, order)
    ensures var v := Update(w, a, Early(order, a));
      && ValidOrder(w, a, Early(order, a))
      && ValidOrder(v, b, Second(order, a))
      && SameButCooldowns(Update(v, b, Second(order, a)), Update(w, c, order))
  {
    AdvanceInTwo(w, a, b, c, order);
    var v := AdvanceTime(w, a, Early(order, a));
    var twice := AdvanceTime(v, b, Second(order, a));
    CheckSame(twice, AdvanceTime(w, c, order));
    AdvanceSound(w, a, Early(order, a));
    if CheckStatus(v) != v {
      AdvanceRaised(v, b, Second(order, a));
      FlagKept(v, b, Second(order, a), twice);
    }
  }

  /** If the status check would raise the flag now, it would still raise it after a tick. */
  lemma FlagKept(v: World, b: int, order: seq<Event>, later: World)
    requires Inv(v) && ValidOrder(v, b, order) && later == AdvanceTime(v, b, order)
    requires Lost(v, White) || Lost(v, Black)
    ensures CheckStatus(later) == CheckStatus(Raised(later)) == Raised(later)
  {
    if KingInPlay(later, White) { KingsOnlyFall(v, b, order, White); }
    if KingInPlay(later, Black) { KingsOnlyFall(v, b, order, Black); }
  }

  // ---------- any number of frames ----------

  /** A run that only lets time pass. */
  predicate AllWaits(ops: seq<Op>) {
    forall op :: op in ops ==> op.Wait?
  }

  /** Two successive updates are one, cooldowns apart. */
  lemma UpdatesJoin(w: World, a: nat, b: nat, c: nat, first: seq<Event>, second: seq<Event>)
    requires c == a + b
    requires Inv(w) && ValidOrder(w, a, first) && ValidOrder(Update(w, a, first), b, second)
    ensures ValidOrder(w, c, Joined(first, second, a))
    ensures SameButCooldowns(Update(Update(w, a, first), b, second), Update(w, c, Joined(first, second, a)))
  {
    var v := Update(w, a, first);
    OrdersJoin(w, a, b, c, first, second, v);
    JoinedSplits(w, a, b, first, second, v);
    UpdateInTwo(w, a, b, c, Joined(first, second, a));
  }

  /** The orders of successive frames, as one order from the first frame's start. */
  function Folded(ops: seq<Op>): seq<Event>
    requires AllWaits(ops)
  {
    if ops == [] then []
    else
      assert ops[0] in ops;
      Joined(ops[0].order, Folded(ops[1..]), ops[0].ms)
  }

  lemma WaitUnfold(w: World, ops: seq<Op>, v: World)
    requires ops != [] && IsRun(w, ops) && AllWaits(ops) && v == Update(w, ops[0].ms, ops[0].order)
    ensures ValidOrder(w, ops[0].ms, ops[0].order) && IsRun(v, ops[1..]) && AllWaits(ops[1..])
    ensures v.motions == MotionsAfter(w.motions, ops[0].ms) && v.jumps == JumpsAfter(w.jumps, ops[0].ms)
    ensures Elapsed(ops) == ops[0].ms + Elapsed(ops[1..])
    ensures Run(w, ops) == Run(v, ops[1..])
    ensures ops[1..] == [] ==> Elapsed(ops) == ops[0].ms && Folded(ops) == ops[0].order && Run(w, ops) == v
    ensures Folded(ops) == Joined(ops[0].order, Folded(ops[1..]), ops[0].ms)
  {
    assert ops[0].order + [] == ops[0].order;
  }

  lemma {:induction false} FoldedValid(w: World, ops: seq<Op>)
    requires ops != [] && IsRun(w, ops) && AllWaits(ops)
    ensures ValidOrder(w, Elapsed(ops), Folded(ops))
    decreases |ops|
  {
    var v := Update(w, ops[0].ms, ops[0].order);
    WaitUnfold(w, ops, v);
    if ops[1..] != [] {
      FoldedValid(v, ops[1..]);
      OrdersJoin(w, ops[0].ms, Elapsed(ops[1..]), Elapsed(ops), ops[0].order, Folded(ops[1..]), v);
    }
  }

  /** However an interval is cut into frames, the run through them is one update over the whole interval. */
  lemma {:induction false} FramesAsOne(w: World, ops: seq<Op>)
    requires Inv(w) && ops != [] && IsRun(w, ops) && AllWaits(ops)
    ensures ValidOrder(w, Elapsed(ops), Folded(ops))
    ensures SameButCooldowns(Run(w, ops), Update(w, Elapsed(ops), Folded(ops)))
    decreases |ops|
  {
    var v := Update(w, ops[0].ms, ops[0].order);
    FoldedValid(w, ops);
    WaitUnfold(w, ops, v);
    if ops[1..] != [] {
      StepSound(w, ops[0]);
      FramesAsOne(v, ops[1..]);
      UpdatesJoin(w, ops[0].ms, Elapsed(ops[1..]), Elapsed(ops), ops[0].order, Folded(ops[1..]));
    }
  }
}
