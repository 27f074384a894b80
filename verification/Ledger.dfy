/** The score ledger. */
module Ledger {
  import opened Chess
  import opened Conservation
  import opened Effects
  import opened Game
  import opened Orders

  function Worth(pieces: map<Id, Body>, p: Id, color: Color): nat {
    if p in pieces && pieces[p].status.Captured? && pieces[p].color == color then Value(pieces[p].kind) else 0
  }

  /** The total worth of the captured pieces of `color` among `ids`. */
  ghost function Tally(pieces: map<Id, Body>, ids: set<Id>, color: Color): nat {
    if ids == {} then 0
    else
      var p :| p in ids;
      Worth(pieces, p, color) + Tally(pieces, ids - {p}, color)
  }

  lemma {:induction false} TallyWithout(pieces: map<Id, Body>, ids: set<Id>, p: Id, color: Color)
    requires p in ids
    ensures Tally(pieces, ids, color) == Worth(pieces, p, color) + Tally(pieces, ids - {p}, color)
    decreases ids
  {
    var q :| q in ids && Tally(pieces, ids, color) == Worth(pieces, q, color) + Tally(pieces, ids - {q}, color);
    if q != p {
      TallyWithout(pieces, ids - {q}, p, color);
      TallyWithout(pieces, ids - {p}, q, color);
      assert ids - {q} - {p} == ids - {p} - {q};
    }
  }

  lemma {:induction false} TallySame(pieces: map<Id, Body>, later: map<Id, Body>, ids: set<Id>, color: Color)
    requires forall p :: p in ids ==> Worth(later, p, color) == Worth(pieces, p, color)
    ensures Tally(later, ids, color) == Tally(pieces, ids, color)
    decreases ids
  {
    if ids != {} {
      var p :| p in ids;
      TallyWithout(pieces, ids, p, color);
      TallyWithout(later, ids, p, color);
      TallySame(pieces, later, ids - {p}, color);
    }
  }

  /** When at most the worth of `p` changes, the tally moves by exactly that change. */
  lemma TallyChange(pieces: map<Id, Body>, later: map<Id, Body>, ids: set<Id>, p: Id, color: Color)
    requires p in ids
    requires forall q :: q in ids && q != p ==> Worth(later, q, color) == Worth(pieces, q, color)
    ensures Tally(later, ids, color) + Worth(pieces, p, color) == Tally(pieces, ids, color) + Worth(later, p, color)
  {
    TallyWithout(pieces, ids, p, color);
    TallyWithout(later, ids, p, color);
    TallySame(pieces, later, ids - {p}, color);
  }

  ghost predicate Balanced(a: Arena) {
    && a.whiteScore == Tally(a.pieces, a.pieces.Keys, Black)
    && a.blackScore == Tally(a.pieces, a.pieces.Keys, White)
  }

  lemma EndsBalanced(a: Arena, r: Arena, m: Motion, verdict: Outcome, flying: set<Id>, hops: set<(Id, Position)>)
    requires Sound(a, flying + {m.piece}, hops) && Balanced(a)
    requires Ends(a, r, m, verdict)
    requires verdict.Caught? ==> verdict.catcher != a.pieces[m.piece].color
    requires verdict.Takes? ==> a.pieces[verdict.prey].color != a.pieces[m.piece].color
    ensures Balanced(r)
  {
    if !verdict.Void? {
      var ids := a.pieces.Keys;
      assert r.pieces.Keys == ids;
      var victim := if verdict.Takes? then verdict.prey else m.piece;
      assert !a.pieces[victim].status.Captured? by {
        assert m.piece in flying + {m.piece};
      }
      TallyChange(a.pieces, r.pieces, ids, victim, White);
      TallyChange(a.pieces, r.pieces, ids, victim, Black);
    }
  }

  lemma ResolveBalanced(a: Arena, jumps: seq<Jump>, aloft: set<Id>, events: seq<Event>, hops: set<(Id, Position)>)
    requires Playable(a, aloft, events, hops) && events != [] && Balanced(a)
    ensures Balanced(Resolve(a, jumps, events[0], aloft + Movers(events[1..])))
  {
    PeelMovers(aloft, events, hops);
    var pending := aloft + Movers(events[1..]);
    match events[0]
    case Arrival(m) =>
      ArriveForm(a, jumps, m, pending);
      EndsBalanced(a, Arrive(a, jumps, m, pending), m, Judge(a, jumps, m, pending), pending, hops + Hops(events[1..]));
    case Touchdown(j) =>
      var r := Land(a, j);
      assert r.pieces.Keys == a.pieces.Keys;
      TallySame(a.pieces, r.pieces, a.pieces.Keys, White);
      TallySame(a.pieces, r.pieces, a.pieces.Keys, Black);
  }

  lemma {:induction false} PlayBalanced(a: Arena, jumps: seq<Jump>, aloft: set<Id>, events: seq<Event>,
                                        hops: set<(Id, Position)>)
    requires Playable(a, aloft, events, hops) && Balanced(a)
    ensures Balanced(Play(a, jumps, aloft, events))
    decreases |events|
  {
    if events != [] {
      ResolveBalanced(a, jumps, aloft, events, hops);
      Peel(a, jumps, aloft, events, hops);
      PlayBalanced(Resolve(a, jumps, events[0], aloft + Movers(events[1..])), jumps, aloft, events[1..], hops);
    }
  }

  lemma StepBalanced(w: World, op: Op)
    requires Inv(w) && Enabled(w, op) && Balanced(w.arena)
    ensures Balanced(Step(w, op).arena)
  {
    match op
    case Wait(ms, order) =>
      TickPlayable(w, ms, order);
      PlayBalanced(Rest(w, ms), w.jumps, Aloft(w.motions, ms), order, Sites(JumpsAfter(w.jumps, ms)));
    case _ =>
      var r := Step(w, op);
      assert r.arena.pieces.Keys == w.arena.pieces.Keys;
      TallySame(w.arena.pieces, r.arena.pieces, w.arena.pieces.Keys, White);
      TallySame(w.arena.pieces, r.arena.pieces, w.arena.pieces.Keys, Black);
  }

  lemma {:induction false} RunBalanced(w: World, ops: seq<Op>)
    requires Inv(w) && IsRun(w, ops) && Balanced(w.arena)
    ensures Balanced(Run(w, ops).arena)
    decreases |ops|
  {
    if ops != [] {
      StepSound(w, ops[0]);
      StepBalanced(w, ops[0]);
      RunBalanced(Step(w, ops[0]), ops[1..]);
    }
  }

  // ---------- counting by kind ----------

  /** The captured pieces of a colour and kind among `ids`. */
  ghost function Lost(pieces: map<Id, Body>, ids: set<Id>, color: Color, kind: Kind): set<Id> {
    set p | p in ids && p in pieces && pieces[p].status.Captured? && pieces[p].color == color && pieces[p].kind == kind
  }

  /** A pawn is worth 1, a knight or bishop 3, a rook 5, a queen 9 and a king 10. */
  ghost function Count(pieces: map<Id, Body>, ids: set<Id>, color: Color): nat {
    |Lost(pieces, ids, color, Pawn)|
    + 3 * |Lost(pieces, ids, color, Knight)|
    + 3 * |Lost(pieces, ids, color, Bishop)|
    + 5 * |Lost(pieces, ids, color, Rook)|
    + 9 * |Lost(pieces, ids, color, Queen)|
    + 10 * |Lost(pieces, ids, color, King)|
  }

  lemma LostWithout(pieces: map<Id, Body>, ids: set<Id>, p: Id, color: Color, kind: Kind)
    requires p in ids
    ensures |Lost(pieces, ids, color, kind)| ==
      |Lost(pieces, ids - {p}, color, kind)| + if p in Lost(pieces, ids, color, kind) then 1 else 0
  {
    var all, rest := Lost(pieces, ids, color, kind), Lost(pieces, ids - {p}, color, kind);
    assert rest == all - {p};
  }

  lemma CountWithout(pieces: map<Id, Body>, ids: set<Id>, p: Id, color: Color)
    requires p in ids
    ensures Count(pieces, ids, color) == Count(pieces, ids - {p}, color) + Worth(pieces, p, color)
  {
    LostWithout(pieces, ids, p, color, Pawn);
    LostWithout(pieces, ids, p, color, Knight);
    LostWithout(pieces, ids, p, color, Bishop);
    LostWithout(pieces, ids, p, color, Rook);
    LostWithout(pieces, ids, p, color, Queen);
    LostWithout(pieces, ids, p, color, King);
  }

  lemma {:induction false} TallyIsCount(pieces: map<Id, Body>, ids: set<Id>, color: Color)
    ensures Tally(pieces, ids, color) == Count(pieces, ids, color)
    decreases ids
  {
    if ids == {} {
      assert forall kind :: Lost(pieces, ids, color, kind) == {};
    } else {
      var p :| p in ids;
      TallyWithout(pieces, ids, p, color);
      CountWithout(pieces, ids, p, color);
      TallyIsCount(pieces, ids - {p}, color);
    }
  }

  /** In every reachable state the scores are the worth of the captured pieces, kinds as they were when taken. */
  lemma ScoreLedger(w: World, ops: seq<Op>)
    requires Initial(w) && IsRun(w, ops)
    ensures var a := Run(w, ops).arena;
      && a.whiteScore == Count(a.pieces, a.pieces.Keys, Black)
      && a.blackScore == Count(a.pieces, a.pieces.Keys, White)
  {
    Accounts(w, ops);
    var a := Run(w, ops).arena;
    TallyIsCount(a.pieces, a.pieces.Keys, Black);
    TallyIsCount(a.pieces, a.pieces.Keys, White);
  }

  lemma Accounts(w: World, ops: seq<Op>)
    requires Initial(w) && IsRun(w, ops)
    ensures Balanced(Run(w, ops).arena)
  {
    InitialSound(w);
    NothingCaptured(w.arena.pieces, w.arena.pieces.Keys, White);
    NothingCaptured(w.arena.pieces, w.arena.pieces.Keys, Black);
    RunBalanced(w, ops);
  }

  lemma {:induction false} NothingCaptured(pieces: map<Id, Body>, ids: set<Id>, color: Color)
    requires forall p :: p in ids ==> Worth(pieces, p, color) == 0
    ensures Tally(pieces, ids, color) == 0
    decreases ids
  {
    if ids != {} {
      var p :| p in ids;
      TallyWithout(pieces, ids, p, color);
      NothingCaptured(pieces, ids - {p}, color);
    }
  }
}
