/** Who ends where when a motion arrives. */
module Landings {
  import opened Chess
  import opened Conservation
  import opened Effects
  import opened Game
  import opened JumpImmunity
  import opened Orders
  import opened Ticks
  import opened Timers
  import opened Wrappers

  /** Jump `i` is over the target of `m` and has not ended before `m` arrives. */
  predicate RunsOver(jumps: seq<Jump>, i: nat, m: Motion) {
    i < |jumps| && jumps[i].pos == m.dest && jumps[i].remaining >= m.remaining
  }

  predicate NoneOver(jumps: seq<Jump>, m: Motion) {
    forall i: nat :: i < |jumps| ==> !RunsOver(jumps, i, m)
  }

  /** Of the jumps over the target, `i` is the one listed first. */
  predicate FirstOver(jumps: seq<Jump>, i: nat, m: Motion) {
    RunsOver(jumps, i, m) && forall k: nat :: k < i ==> !RunsOver(jumps, k, m)
  }

  /** A tick of a sound state in which `m` arrives after `done` and before `todo`. */
  ghost predicate Arrives(w: World, ms: nat, done: seq<Event>, m: Motion, todo: seq<Event>) {
    Inv(w) && Timed(w) && ValidOrder(w, ms, done + ([Arrival(m)] + todo))
  }

  ghost function Just(w: World, ms: nat, done: seq<Event>, m: Motion, todo: seq<Event>): Arena {
    Partway(w, ms, done, [Arrival(m)] + todo)
  }

  ghost function Then(w: World, ms: nat, done: seq<Event>, m: Motion, todo: seq<Event>): Arena {
    Partway(w, ms, done + [Arrival(m)], todo)
  }

  /** The record of a piece that has come to `pos`: idle, and a queen if it is a pawn at the far end of the board. */
  function Arrived(height: nat, b: Body, pos: Position): Body {
    match (b.kind, b.color)
    case (Pawn, White) => Body(White, if pos.row == 0 then Queen else Pawn, pos, Idle)
    case (Pawn, Black) => Body(Black, if pos.row == height - 1 then Queen else Pawn, pos, Idle)
    case (_, _) => Body(b.color, b.kind, pos, Idle)
  }

  lemma ArrivedIsLanded(a: Arena, b: Body, pos: Position)
    ensures Arrived(a.height, b, pos) == Landed(a, b, pos)
  {
  }

  lemma {:induction false} AirborneIs(jumps: seq<Jump>, m: Motion)
    ensures Airborne(jumps, m.dest, m.remaining).None? ==> NoneOver(jumps, m)
    ensures Airborne(jumps, m.dest, m.remaining).Some? ==>
      exists i: nat :: FirstOver(jumps, i, m) && Airborne(jumps, m.dest, m.remaining) == Some(jumps[i].piece)
  {
    if jumps != [] {
      var rest := jumps[1..];
      AirborneIs(rest, m);
      assert forall i: nat :: 0 < i < |jumps| ==> (RunsOver(jumps, i, m) <==> RunsOver(rest, i - 1, m));
      if RunsOver(jumps, 0, m) {
        assert FirstOver(jumps, 0, m);
      } else if Airborne(rest, m.dest, m.remaining).Some? {
        var i: nat :| FirstOver(rest, i, m) && Airborne(rest, m.dest, m.remaining) == Some(rest[i].piece);
        assert rest[i] == jumps[i + 1] && FirstOver(jumps, i + 1, m);
      }
    }
  }

  /** `m` is decided against what is there just before it arrives; nothing in flight interferes. */
  lemma Decided(w: World, ms: nat, done: seq<Event>, m: Motion, todo: seq<Event>, pending: set<Id>)
    requires Arrives(w, ms, done, m, todo) && pending == Aloft(w.motions, ms) + Movers(todo)
    ensures var here := Just(w, ms, done, m, todo);
      && Sound(here, pending + {m.piece}, Sites(JumpsAfter(w.jumps, ms)) + Hops(todo)) && m.piece !in pending
      && m.piece in here.pieces && here.pieces[m.piece].status.Moving?
      && (forall j :: j in w.jumps ==> j.piece in here.pieces)
      && Ends(here, Then(w, ms, done, m, todo), m, Judge(here, w.jumps, m, {}))
  {
    var here, events := Just(w, ms, done, m, todo), [Arrival(m)] + todo;
    PartwaySound(w, ms, done, events);
    StillKnown(w, ms, done, events);
    PartwayOn(w, ms, done, Arrival(m), todo);
    assert events[1..] == todo;
    var hops := Sites(JumpsAfter(w.jumps, ms));
    PeelMovers(Aloft(w.motions, ms), events, hops);
    NeverEscaping(here, w.jumps, m, pending, hops + Hops(todo));
    ArriveForm(here, w.jumps, m, pending);
    assert m.piece in pending + {m.piece};
  }

  /** Of all that is over the target only the jump listed first counts. */
  lemma VerdictOver(a: Arena, jumps: seq<Jump>, i: nat, m: Motion)
    requires FirstOver(jumps, i, m) && jumps[i].piece in a.pieces
    requires m.piece in a.pieces && !a.pieces[m.piece].status.Captured?
    ensures var color := a.pieces[jumps[i].piece].color;
      Judge(a, jumps, m, {}) == if color == a.pieces[m.piece].color then Bounce else Caught(color)
  {
    AirborneIs(jumps, m);
    assert Airborne(jumps, m.dest, m.remaining).Some?;
    var k: nat :| FirstOver(jumps, k, m) && Airborne(jumps, m.dest, m.remaining) == Some(jumps[k].piece);
    assert k == i;
  }

  /** Nothing being over it, it counts who stands there. */
  lemma VerdictUnder(a: Arena, jumps: seq<Jump>, m: Motion)
    requires NoneOver(jumps, m) && BoardSound(a)
    requires m.piece in a.pieces && !a.pieces[m.piece].status.Captured?
    ensures m.dest !in a.grid ==> Judge(a, jumps, m, {}) == Settles
    ensures m.dest in a.grid ==>
      && a.grid[m.dest] in a.pieces
      && Judge(a, jumps, m, {}) ==
         if a.pieces[a.grid[m.dest]].color == a.pieces[m.piece].color then Bounce else Takes(a.grid[m.dest])
  {
    AirborneIs(jumps, m);
  }

  /** What a bounce leaves: the piece idle and resting on the square it left, unless that has been filled. */
  ghost predicate BackAgain(here: Arena, next: Arena, m: Motion) {
    && m.piece in here.pieces
    && next == here.(pieces := here.pieces[m.piece := here.pieces[m.piece].(cell := m.source, status := Idle)],
                     grid := if m.source in here.grid then here.grid else here.grid[m.source := m.piece],
                     cooldowns := here.cooldowns + [Cooldown(m.piece, 3000, 3000, false)])
  }

  /** What a landing on a free square leaves; a square off the board takes nobody. */
  ghost predicate Settled(here: Arena, next: Arena, m: Motion) {
    && m.piece in here.pieces
    && next == here.(pieces := here.pieces[m.piece := Arrived(here.height, here.pieces[m.piece], m.dest)],
                     grid := if 0 <= m.dest.row < here.height && 0 <= m.dest.col < here.width
                             then here.grid[m.dest := m.piece] else here.grid,
                     cooldowns := here.cooldowns + [Cooldown(m.piece, 3000, 3000, false)])
  }

  /** What a landing on the enemy `q` leaves. */
  ghost predicate Taken(here: Arena, next: Arena, m: Motion, q: Id) {
    && m.piece in here.pieces && q in here.pieces
    && var b, prey := here.pieces[m.piece], here.pieces[q];
    && next == here.(pieces := here.pieces[q := prey.(status := Captured)]
                                          [m.piece := Arrived(here.height, b, m.dest)],
                     grid := here.grid[m.dest := m.piece],
                     cooldowns := here.cooldowns + [Cooldown(m.piece, 3000, 3000, false)],
                     gameOver := here.gameOver || prey.kind == King,
                     whiteScore := here.whiteScore + (if b.color == White then Value(prey.kind) else 0),
                     blackScore := here.blackScore + (if b.color == Black then Value(prey.kind) else 0))
  }

  /** What is left when the arriving piece is caught: it is captured, and its worth goes to the other side. */
  ghost predicate Snatched(here: Arena, next: Arena, m: Motion) {
    && m.piece in here.pieces
    && var b := here.pieces[m.piece];
    && next == here.(pieces := here.pieces[m.piece := b.(status := Captured)],
                     whiteScore := here.whiteScore + (if b.color == Black then Value(b.kind) else 0),
                     blackScore := here.blackScore + (if b.color == White then Value(b.kind) else 0))
  }

  lemma EndsBack(a: Arena, r: Arena, m: Motion)
    requires Ends(a, r, m, Bounce) && InBounds(a, m.source)
    ensures BackAgain(a, r, m)
  {
  }

  lemma EndsSettled(a: Arena, r: Arena, m: Motion)
    requires Ends(a, r, m, Settles) && m.dest !in a.grid
    ensures Settled(a, r, m)
  {
    ArrivedIsLanded(a, a.pieces[m.piece], m.dest);
  }

  lemma EndsTaken(a: Arena, r: Arena, m: Motion, q: Id)
    requires Ends(a, r, m, Takes(q))
    ensures Taken(a, r, m, q)
  {
    ArrivedIsLanded(a, a.pieces[m.piece], m.dest);
  }

  lemma EndsSnatched(a: Arena, r: Arena, m: Motion, catcher: Color)
    requires Ends(a, r, m, Caught(catcher)) && catcher != a.pieces[m.piece].color
    ensures Snatched(a, r, m)
  {
  }

  lemma SourceOnBoard(w: World, ms: nat, done: seq<Event>, m: Motion, todo: seq<Event>)
    requires Arrives(w, ms, done, m, todo)
    ensures InBounds(Just(w, ms, done, m, todo), m.source)
  {
    var all, here := done + ([Arrival(m)] + todo), Just(w, ms, done, m, todo);
    assert all[|done|] == Arrival(m);
    OrderMembers(w, ms, all, Arrival(m));
    assert Plan(w.arena, m);
    SameSize(w, ms, done, [Arrival(m)] + todo);
  }

  lemma SameSize(w: World, ms: nat, done: seq<Event>, todo: seq<Event>)
    requires Inv(w) && ValidOrder(w, ms, done + todo)
    ensures var here := Partway(w, ms, done, todo); here.width == w.arena.width && here.height == w.arena.height
  {
    var aloft, hops := Aloft(w.motions, ms), Sites(JumpsAfter(w.jumps, ms));
    TickPlayable(w, ms, done + todo);
    PartwayPlayable(Rest(w, ms), aloft, done, todo, hops);
    PlayKeeps(Rest(w, ms), w.jumps, aloft + Movers(todo), done, hops + Hops(todo));
  }

  // ---------- main results ----------

  /** A piece that comes down on an enemy takes it. */
  lemma TakesEnemy(w: World, ms: nat, done: seq<Event>, m: Motion, todo: seq<Event>, q: Id)
    requires Arrives(w, ms, done, m, todo) && NoneOver(w.jumps, m)
    requires var here := Just(w, ms, done, m, todo);
      && m.piece in here.pieces && q in here.pieces && here.pieces[q].color != here.pieces[m.piece].color
      && m.dest in here.grid && here.grid[m.dest] == q
    ensures Taken(Just(w, ms, done, m, todo), Then(w, ms, done, m, todo), m, q)
  {
    Decided(w, ms, done, m, todo, Aloft(w.motions, ms) + Movers(todo));
    VerdictUnder(Just(w, ms, done, m, todo), w.jumps, m);
    EndsTaken(Just(w, ms, done, m, todo), Then(w, ms, done, m, todo), m, q);
  }

  /** A piece that comes down on its own side goes back. */
  lemma BlockedByFriend(w: World, ms: nat, done: seq<Event>, m: Motion, todo: seq<Event>, q: Id)
    requires Arrives(w, ms, done, m, todo) && NoneOver(w.jumps, m)
    requires var here := Just(w, ms, done, m, todo);
      && m.piece in here.pieces && q in here.pieces && here.pieces[q].color == here.pieces[m.piece].color
      && m.dest in here.grid && here.grid[m.dest] == q
    ensures BackAgain(Just(w, ms, done, m, todo), Then(w, ms, done, m, todo), m)
  {
    Decided(w, ms, done, m, todo, Aloft(w.motions, ms) + Movers(todo));
    VerdictUnder(Just(w, ms, done, m, todo), w.jumps, m);
    SourceOnBoard(w, ms, done, m, todo);
    EndsBack(Just(w, ms, done, m, todo), Then(w, ms, done, m, todo), m);
  }

  /** A piece that comes down where nobody stands or hovers stands there. */
  lemma FindsRoom(w: World, ms: nat, done: seq<Event>, m: Motion, todo: seq<Event>)
    requires Arrives(w, ms, done, m, todo) && NoneOver(w.jumps, m)
    requires m.dest !in Just(w, ms, done, m, todo).grid
    ensures Settled(Just(w, ms, done, m, todo), Then(w, ms, done, m, todo), m)
  {
    Decided(w, ms, done, m, todo, Aloft(w.motions, ms) + Movers(todo));
    VerdictUnder(Just(w, ms, done, m, todo), w.jumps, m);
    EndsSettled(Just(w, ms, done, m, todo), Then(w, ms, done, m, todo), m);
  }

  /** A piece that comes down under an enemy in a jump is caught. */
  lemma CaughtByJump(w: World, ms: nat, done: seq<Event>, m: Motion, todo: seq<Event>, i: nat)
    requires Arrives(w, ms, done, m, todo) && FirstOver(w.jumps, i, m)
    requires var here := Just(w, ms, done, m, todo);
      && m.piece in here.pieces && w.jumps[i].piece in here.pieces
      && here.pieces[w.jumps[i].piece].color != here.pieces[m.piece].color
    ensures Snatched(Just(w, ms, done, m, todo), Then(w, ms, done, m, todo), m)
  {
    var here := Just(w, ms, done, m, todo);
    Decided(w, ms, done, m, todo, Aloft(w.motions, ms) + Movers(todo));
    VerdictOver(here, w.jumps, i, m);
    EndsSnatched(here, Then(w, ms, done, m, todo), m, here.pieces[w.jumps[i].piece].color);
  }

  /** A piece that comes down under its own side in a jump goes back. */
  lemma BlockedByJump(w: World, ms: nat, done: seq<Event>, m: Motion, todo: seq<Event>, i: nat)
    requires Arrives(w, ms, done, m, todo) && FirstOver(w.jumps, i, m)
    requires var here := Just(w, ms, done, m, todo);
      && m.piece in here.pieces && w.jumps[i].piece in here.pieces
      && here.pieces[w.jumps[i].piece].color == here.pieces[m.piece].color
    ensures BackAgain(Just(w, ms, done, m, todo), Then(w, ms, done, m, todo), m)
  {
    Decided(w, ms, done, m, todo, Aloft(w.motions, ms) + Movers(todo));
    VerdictOver(Just(w, ms, done, m, todo), w.jumps, i, m);
    SourceOnBoard(w, ms, done, m, todo);
    EndsBack(Just(w, ms, done, m, todo), Then(w, ms, done, m, todo), m);
  }
}
