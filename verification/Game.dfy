/** The engine as a state machine on values: what one request or update does to a game. */
module Game {
  import opened Chess
  import opened Wrappers

  /** The part of the state that resolving one event may change. */
  datatype Arena = Arena(width: nat, height: nat, pieces: map<Id, Body>, grid: map<Position, Id>,
                         cooldowns: seq<Cooldown>, gameOver: bool, whiteScore: int, blackScore: int)

  datatype World = World(arena: Arena, motions: seq<Motion>, jumps: seq<Jump>,
                         whiteKings: nat, blackKings: nat)

  // ---------- the board ----------

  predicate InBounds(a: Arena, pos: Position) {
    0 <= pos.row < a.height && 0 <= pos.col < a.width
  }

  function PieceAt(a: Arena, pos: Position): Option<Id> {
    if pos in a.grid && a.grid[pos] in a.pieces then Some(a.grid[pos]) else None
  }

  /** Puts `p` on the square its own `cell` names; refused when that square is off the board or taken. */
  function AddPiece(a: Arena, p: Id): Arena {
    if p in a.pieces && InBounds(a, a.pieces[p].cell) && a.pieces[p].cell !in a.grid
    then a.(grid := a.grid[a.pieces[p].cell := p])
    else a
  }

  function ClearCell(a: Arena, pos: Position): Arena {
    a.(grid := a.grid - {pos})
  }

  function SetBody(a: Arena, p: Id, b: Body): Arena {
    a.(pieces := a.pieces[p := b])
  }

  /** Takes the piece off `pos` and marks it captured. */
  function RemovePiece(a: Arena, pos: Position): Arena {
    var cleared := ClearCell(a, pos);
    match PieceAt(a, pos)
    case Some(q) => SetBody(cleared, q, a.pieces[q].(status := Captured))
    case None => cleared
  }

  // ---------- the rules ----------

  predicate Geometry(height: int, kind: Kind, color: Color, src: Position, dest: Position, capturing: bool) {
    var dRow := dest.row - src.row;
    var dCol := Abs(dest.col - src.col);
    match kind
    case King => Abs(dRow) <= 1 && dCol <= 1
    case Rook => dRow == 0 || dCol == 0
    case Bishop => Abs(dRow) == dCol
    case Queen => dRow == 0 || dCol == 0 || Abs(dRow) == dCol
    case Knight => (Abs(dRow) == 2 && dCol == 1) || (Abs(dRow) == 1 && dCol == 2)
    case Pawn =>
      var forward := Forward(color);
      var startRow := if color.White? then height - 2 else 1;
      if capturing then dRow == forward && dCol == 1
      else dCol == 0 && (dRow == forward || (src.row == startRow && dRow == 2 * forward))
  }

  function Forward(color: Color): int {
    if color.White? then -1 else 1
  }

  /** `x` moved `k` steps in the direction of `d`. */
  function Toward(x: int, d: int, k: int): int {
    if d > 0 then x + k else if d < 0 then x - k else x
  }

  /** The `k`-th square of the ray that leaves `src` in the direction of `dest`. */
  function Along(src: Position, dest: Position, k: int): Position {
    Position(Toward(src.row, dest.row - src.row, k), Toward(src.col, dest.col - src.col, k))
  }

  predicate PathClear(a: Arena, src: Position, dest: Position) {
    forall k :: 1 <= k < Distance(src, dest) ==> PieceAt(a, Along(src, dest, k)).None?
  }

  predicate ValidMove(a: Arena, src: Position, dest: Position) {
    match PieceAt(a, src)
    case None => false
    case Some(p) =>
      var target := PieceAt(a, dest);
      && (target.Some? ==> a.pieces[target.value].color != a.pieces[p].color)
      && Geometry(a.height, a.pieces[p].kind, a.pieces[p].color, src, dest, target.Some?)
      && (a.pieces[p].kind.Knight? || PathClear(a, src, dest))
  }

  // ---------- requests ----------

  function Flyers(motions: seq<Motion>): set<Id> {
    set m | m in motions :: m.piece
  }

  function Resting(cooldowns: seq<Cooldown>): set<Id> {
    set c | c in cooldowns :: c.piece
  }

  function StartMotion(w: World, p: Id, src: Position, dest: Position, total: int): World
    requires p in w.arena.pieces
  {
    var a := w.arena;
    var b := a.pieces[p];
    var target := PieceAt(a, dest);
    var victim := if target.Some? && a.pieces[target.value].color != b.color then target else None;
    w.(arena := ClearCell(SetBody(a, p, b.(status := Moving)), src),
       motions := w.motions + [Motion(p, src, dest, total, total, victim)])
  }

  function StartJump(w: World, p: Id, pos: Position, total: int): World
    requires p in w.arena.pieces
  {
    w.(arena := SetBody(w.arena, p, w.arena.pieces[p].(status := Moving)),
       jumps := w.jumps + [Jump(p, pos, total, total)])
  }

  /** The piece on `src` is free to act: there is one, the game is on, it is not in flight and not resting. */
  predicate Ready(w: World, src: Position) {
    && !w.arena.gameOver
    && PieceAt(w.arena, src).Some?
    && PieceAt(w.arena, src).value !in Flyers(w.motions)
    && PieceAt(w.arena, src).value !in Resting(w.arena.cooldowns)
  }

  predicate MoveAccepted(w: World, src: Position, dest: Position) {
    Ready(w, src) && ValidMove(w.arena, src, dest)
  }

  function RequestMove(w: World, src: Position, dest: Position): World {
    if MoveAccepted(w, src, dest)
    then StartMotion(w, PieceAt(w.arena, src).value, src, dest, Distance(src, dest) * BASE_MOVE_TIME_MS)
    else w
  }

  function RequestJump(w: World, pos: Position): World {
    if Ready(w, pos) then StartJump(w, PieceAt(w.arena, pos).value, pos, JUMP_TIME_MS) else w
  }

  // ---------- the passing of time ----------

  datatype Event = Arrival(motion: Motion) | Touchdown(jump: Jump)
  {
    function Time(): int {
      if Arrival? then motion.remaining else jump.remaining
    }
  }

  function Aged(cooldowns: seq<Cooldown>, ms: int): seq<Cooldown> {
    if cooldowns == [] then []
    else
      var c := cooldowns[0].(remaining := cooldowns[0].remaining - ms);
      if c.remaining <= 0 then Aged(cooldowns[1..], ms) else [c] + Aged(cooldowns[1..], ms)
  }

  function DueMotions(motions: seq<Motion>, ms: int): seq<Event> {
    if motions == [] then []
    else if motions[0].remaining <= ms then [Arrival(motions[0])] + DueMotions(motions[1..], ms)
    else DueMotions(motions[1..], ms)
  }

  function DueJumps(jumps: seq<Jump>, ms: int): seq<Event> {
    if jumps == [] then []
    else if jumps[0].remaining <= ms then [Touchdown(jumps[0])] + DueJumps(jumps[1..], ms)
    else DueJumps(jumps[1..], ms)
  }

  function MotionsAfter(motions: seq<Motion>, ms: int): seq<Motion> {
    if motions == [] then []
    else if motions[0].remaining <= ms then MotionsAfter(motions[1..], ms)
    else [motions[0].(remaining := motions[0].remaining - ms)] + MotionsAfter(motions[1..], ms)
  }

  function JumpsAfter(jumps: seq<Jump>, ms: int): seq<Jump> {
    if jumps == [] then []
    else if jumps[0].remaining <= ms then JumpsAfter(jumps[1..], ms)
    else [jumps[0].(remaining := jumps[0].remaining - ms)] + JumpsAfter(jumps[1..], ms)
  }

  /** The pieces whose flight outlasts the next `ms` milliseconds. */
  function Aloft(motions: seq<Motion>, ms: int): set<Id> {
    set m | m in motions && m.remaining > ms :: m.piece
  }

  /** The pieces that `events` still has to bring down. */
  function Movers(events: seq<Event>): set<Id> {
    set e | e in events && e.Arrival? :: e.motion.piece
  }

  ghost predicate SortedByTime(events: seq<Event>) {
    forall i, j :: 0 <= i < j < |events| ==> events[i].Time() <= events[j].Time()
  }

  /**
   `order` lists exactly the motions and jumps that end within `ms`, earliest first.  `std::sort` is not
   stable, so events that end at the same instant may come in any order.
   */
  ghost predicate ValidOrder(w: World, ms: int, order: seq<Event>) {
    && SortedByTime(order)
    && multiset(order) == multiset(DueMotions(w.motions, ms) + DueJumps(w.jumps, ms))
  }

  /** The piece that hovers over `pos` at time `t`: the first listed jump there that ends no earlier than `t`. */
  function Airborne(jumps: seq<Jump>, pos: Position, t: int): Option<Id> {
    if jumps == [] then None
    else if jumps[0].pos == pos && jumps[0].remaining >= t then Some(jumps[0].piece)
    else Airborne(jumps[1..], pos, t)
  }

  function Rested(a: Arena, p: Id, longRest: bool): Arena {
    a.(cooldowns := a.cooldowns + [Cooldown(p, REST_MS, REST_MS, longRest)])
  }

  /** Sets `p` down at `pos`: writes its cell, puts it on the board if the square takes it, lets it rest. */
  function PutDown(a: Arena, p: Id, pos: Position): Arena
    requires p in a.pieces
  {
    var b := a.pieces[p].(cell := pos);
    var placed := AddPiece(SetBody(a, p, b), p);
    Rested(SetBody(placed, p, b.(status := Idle)), p, false)
  }

  function Award(a: Arena, winner: Color, points: nat): Arena {
    if winner.White? then a.(whiteScore := a.whiteScore + points) else a.(blackScore := a.blackScore + points)
  }

  predicate LastRow(height: int, color: Color, pos: Position) {
    if color.White? then pos.row == 0 else pos.row == height - 1
  }

  function Promote(a: Arena, p: Id, pos: Position): Arena
    requires p in a.pieces
  {
    var b := a.pieces[p];
    if b.kind.Pawn? && LastRow(a.height, b.color, pos) then SetBody(a, p, b.(kind := Queen)) else a
  }

  function CaughtMidAir(a: Arena, p: Id, catcher: Color): Arena
    requires p in a.pieces
  {
    Award(SetBody(a, p, a.pieces[p].(status := Captured)), catcher, Value(a.pieces[p].kind))
  }

  /** `p` lands on `dest`, taking the enemy `q` that stands there. */
  function Capture(a: Arena, p: Id, dest: Position, q: Id): Arena
    requires p in a.pieces && q in a.pieces
  {
    var landed := PutDown(RemovePiece(a, dest), p, dest);
    var judged := if a.pieces[q].kind.King? then landed.(gameOver := true) else landed;
    Promote(Award(judged, a.pieces[p].color, Value(a.pieces[q].kind)), p, dest)
  }

  /** How a motion ends. */
  datatype Outcome = Void | Bounce | Caught(catcher: Color) | Takes(prey: Id) | Settles

  /** The verdict on motion `m`, while `pending` are the pieces whose own motions are still unresolved. */
  function Judge(a: Arena, jumps: seq<Jump>, m: Motion, pending: set<Id>): Outcome {
    if m.piece !in a.pieces || a.pieces[m.piece].status.Captured? then Void
    else
      var color := a.pieces[m.piece].color;
      var hovering := Airborne(jumps, m.dest, m.remaining);
      var standing := PieceAt(a, m.dest);
      if hovering.Some? && hovering.value in a.pieces then
        if a.pieces[hovering.value].color == color then Bounce else Caught(a.pieces[hovering.value].color)
      else if standing.Some? && standing.value !in pending then
        if a.pieces[standing.value].color == color then Bounce else Takes(standing.value)
      else Settles
  }

  function Execute(a: Arena, m: Motion, outcome: Outcome): Arena
    requires !outcome.Void? ==> m.piece in a.pieces
    requires outcome.Takes? ==> outcome.prey in a.pieces
  {
    match outcome
    case Void => a
    case Bounce => PutDown(a, m.piece, m.source)
    case Caught(catcher) => CaughtMidAir(a, m.piece, catcher)
    case Takes(prey) => Capture(a, m.piece, m.dest, prey)
    case Settles => Promote(PutDown(a, m.piece, m.dest), m.piece, m.dest)
  }

  function Arrive(a: Arena, jumps: seq<Jump>, m: Motion, pending: set<Id>): Arena {
    Execute(a, m, Judge(a, jumps, m, pending))
  }

  /** The end of jump `j`: it counts only if the piece is still on the square it jumped from. */
  function Land(a: Arena, j: Jump): Arena {
    if PieceAt(a, j.pos) == Some(j.piece)
    then Rested(SetBody(a, j.piece, a.pieces[j.piece].(status := Idle)), j.piece, true)
    else a
  }

  function Resolve(a: Arena, jumps: seq<Jump>, e: Event, pending: set<Id>): Arena {
    match e
    case Arrival(m) => Arrive(a, jumps, m, pending)
    case Touchdown(j) => Land(a, j)
  }

  /** Resolves `events` in order; `aloft` are the pieces that stay in flight beyond this tick. */
  function Play(a: Arena, jumps: seq<Jump>, aloft: set<Id>, events: seq<Event>): Arena
    decreases |events|
  {
    if events == [] then a
    else Play(Resolve(a, jumps, events[0], aloft + Movers(events[1..])), jumps, aloft, events[1..])
  }

  function Rest(w: World, ms: int): Arena {
    w.arena.(cooldowns := Aged(w.arena.cooldowns, ms))
  }

  function AdvanceTime(w: World, ms: int, order: seq<Event>): World {
    w.(arena := Play(Rest(w, ms), w.jumps, Aloft(w.motions, ms), order),
       motions := MotionsAfter(w.motions, ms),
       jumps := JumpsAfter(w.jumps, ms))
  }

  // ---------- the end of the game ----------

  predicate IsKing(a: Arena, p: Id, color: Color) {
    p in a.pieces && a.pieces[p].kind.King? && a.pieces[p].color == color
  }

  /** A king of `color` that the status check still counts: on the board, in flight, or in a jump. */
  ghost predicate KingInPlay(w: World, color: Color) {
    || (exists pos :: pos in w.arena.grid && IsKing(w.arena, w.arena.grid[pos], color))
    || (exists m :: m in w.motions && IsKing(w.arena, m.piece, color) && !w.arena.pieces[m.piece].status.Captured?)
    || (exists j :: j in w.jumps && IsKing(w.arena, j.piece, color) && !w.arena.pieces[j.piece].status.Captured?)
  }

  ghost predicate Lost(w: World, color: Color) {
    (if color.White? then w.whiteKings else w.blackKings) > 0 && !KingInPlay(w, color)
  }

  ghost function CheckStatus(w: World): World {
    if !w.arena.gameOver && (Lost(w, White) || Lost(w, Black))
    then w.(arena := w.arena.(gameOver := true))
    else w
  }

  ghost function Update(w: World, ms: int, order: seq<Event>): World {
    CheckStatus(AdvanceTime(w, ms, order))
  }

  /** `v` is `w` but for the cooldowns. */
  ghost predicate SameButCooldowns(v: World, w: World) {
    v == w.(arena := w.arena.(cooldowns := v.arena.cooldowns))
  }

  // ---------- runs ----------

  datatype Op = Move(src: Position, dest: Position) | Leap(pos: Position) | Wait(ms: nat, order: seq<Event>)
  {
    function Elapsed(): nat {
      if Wait? then ms else 0
    }
  }

  /** Every request may be made at any time; an update may resolve its events in any admissible order. */
  ghost predicate Enabled(w: World, op: Op) {
    op.Wait? ==> ValidOrder(w, op.ms, op.order)
  }

  ghost function Step(w: World, op: Op): World {
    match op
    case Move(src, dest) => RequestMove(w, src, dest)
    case Leap(pos) => RequestJump(w, pos)
    case Wait(ms, order) => Update(w, ms, order)
  }

  ghost predicate IsRun(w: World, ops: seq<Op>)
    decreases |ops|
  {
    ops == [] || (Enabled(w, ops[0]) && IsRun(Step(w, ops[0]), ops[1..]))
  }

  ghost function Run(w: World, ops: seq<Op>): World
    decreases |ops|
  {
    if ops == [] then w else Run(Step(w, ops[0]), ops[1..])
  }

  function Elapsed(ops: seq<Op>): nat {
    if ops == [] then 0 else ops[0].Elapsed() + Elapsed(ops[1..])
  }

  /** A freshly built engine: every piece idle on its own square, nothing in the air, nothing scored. */
  ghost predicate Initial(w: World) {
    && (forall pos :: pos in w.arena.grid ==>
          InBounds(w.arena, pos) && w.arena.grid[pos] in w.arena.pieces)
    && (forall p :: p in w.arena.pieces ==>
          w.arena.pieces[p].status.Idle? && w.arena.pieces[p].cell in w.arena.grid &&
          w.arena.grid[w.arena.pieces[p].cell] == p)
    && (forall pos :: pos in w.arena.grid ==> w.arena.pieces[w.arena.grid[pos]].cell == pos)
    && w.motions == [] && w.jumps == [] && w.arena.cooldowns == []
    && !w.arena.gameOver && w.arena.whiteScore == 0 && w.arena.blackScore == 0
    && (w.whiteKings > 0 <==> exists p :: IsKing(w.arena, p, White))
    && (w.blackKings > 0 <==> exists p :: IsKing(w.arena, p, Black))
  }
}
