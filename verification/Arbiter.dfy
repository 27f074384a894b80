/**
 The objects that keep time and score.  Each method is proved to do to the objects what the functions of
 `Game` do to values.  The lists name pieces by id; the arbiter's roster resolves an id to the piece object.  The loop
 over the events of a tick is one method for each kind of ending, so that each can be read against its function.
 */
module Arbiter {
  import opened Chess
  import opened Game
  import opened Orders
  import opened Pieces
  import opened Schedule
  import opened Wrappers

  // ---------- counting kings on the board ----------

  /** The squares before (`row`, `col`) in reading order that hold a king of `color`. */
  ghost function KingSquares(a: Arena, color: Color, row: nat, col: nat): set<Position> {
    set pos | pos in a.grid && IsKing(a, a.grid[pos], color) && (pos.row < row || (pos.row == row && pos.col < col))
  }

  predicate KingOf(p: Piece?, color: Color)
    reads p
  {
    p != null && p.kind.King? && p.color == color
  }

  lemma OneMoreSquare(board: Board, roster: Roster, a: Arena, color: Color, r: nat, c: nat)
    requires Shows(board, roster, a) && r < board.height && c < board.width
    ensures var pos := Position(r, c);
      KingSquares(a, color, r, c + 1) ==
        if KingOf(board.GetPieceAt(pos), color)
        then KingSquares(a, color, r, c) + {pos}
        else KingSquares(a, color, r, c)
  {
    var pos := Position(r, c);
    Seen(board, roster, a, pos);
    forall q ensures q in KingSquares(a, color, r, c + 1) <==>
      q in KingSquares(a, color, r, c) || (q == pos && KingOf(board.GetPieceAt(pos), color))
    {
      if q == pos { assert q !in KingSquares(a, color, r, c); }
    }
  }

  lemma RowDone(board: Board, roster: Roster, a: Arena, color: Color, r: nat)
    requires Shows(board, roster, a) && r < board.height
    ensures KingSquares(a, color, r + 1, 0) == KingSquares(a, color, r, board.width)
  {
    forall pos | pos in a.grid ensures 0 <= pos.col < board.width {
      assert pos in AllSquares(board.width, board.height);
    }
  }

  lemma CountsOn(board: Board, roster: Roster, a: Arena, color: Color, r: nat, c: nat)
    requires Shows(board, roster, a) && r < board.height && c < board.width
    ensures |KingSquares(a, color, r, c + 1)| ==
      |KingSquares(a, color, r, c)| + if KingOf(board.GetPieceAt(Position(r, c)), color) then 1 else 0
  {
    OneMoreSquare(board, roster, a, color, r, c);
    assert Position(r, c) !in KingSquares(a, color, r, c);
  }

  /** The kings of row `r`, added to those of the rows before it. */
  method CountRow(board: Board, r: nat, white0: nat, black0: nat, ghost roster: Roster, ghost a: Arena)
    returns (white: nat, black: nat)
    requires Shows(board, roster, a) && r < board.height
    requires white0 == |KingSquares(a, White, r, 0)| && black0 == |KingSquares(a, Black, r, 0)|
    ensures white == |KingSquares(a, White, r, board.width)| && black == |KingSquares(a, Black, r, board.width)|
  {
    white, black := white0, black0;
    for c := 0 to board.width
      invariant white == |KingSquares(a, White, r, c)| && black == |KingSquares(a, Black, r, c)|
    {
      var piece := board.GetPieceAt(Position(r, c));
      CountsOn(board, roster, a, White, r, c);
      CountsOn(board, roster, a, Black, r, c);
      if piece != null && piece.kind.King? {
        if piece.color.White? {
          white := white + 1;
        } else {
          black := black + 1;
        }
      }
    }
  }

  lemma NoSquareBefore(board: Board, roster: Roster, a: Arena)
    requires Shows(board, roster, a)
    ensures KingSquares(a, White, 0, 0) == {} && KingSquares(a, Black, 0, 0) == {}
  {
    forall pos | pos in a.grid ensures 0 <= pos.row && 0 <= pos.col {
      assert pos in AllSquares(board.width, board.height);
    }
  }

  /** The number of kings each side has on the board. */
  method CountKings(board: Board, ghost roster: Roster, ghost a: Arena) returns (white: nat, black: nat)
    requires Shows(board, roster, a)
    ensures white == |KingSquares(a, White, board.height, 0)|
    ensures black == |KingSquares(a, Black, board.height, 0)|
  {
    white, black := 0, 0;
    NoSquareBefore(board, roster, a);
    for r := 0 to board.height
      invariant white == |KingSquares(a, White, r, 0)| && black == |KingSquares(a, Black, r, 0)|
    {
      white, black := CountRow(board, r, white, black, roster, a);
      RowDone(board, roster, a, White, r);
      RowDone(board, roster, a, Black, r);
    }
  }

  lemma KingsOnBoard(board: Board, roster: Roster, a: Arena, color: Color)
    requires Shows(board, roster, a)
    ensures |KingSquares(a, color, board.height, 0)| > 0 <==>
      exists pos :: pos in a.grid && IsKing(a, a.grid[pos], color)
  {
    forall pos | pos in a.grid ensures pos.row < board.height {
      assert pos in AllSquares(board.width, board.height);
    }
    if pos :| pos in a.grid && IsKing(a, a.grid[pos], color) {
      assert pos in KingSquares(a, color, board.height, 0);
    }
    if KingSquares(a, color, board.height, 0) != {} {
      var pos :| pos in KingSquares(a, color, board.height, 0);
    }
  }

  // ---------- the list loops ----------

  lemma {:induction false} AgedSnoc(cooldowns: seq<Cooldown>, c: Cooldown, ms: int)
    ensures var later := c.(remaining := c.remaining - ms);
      Aged(cooldowns + [c], ms) == if later.remaining > 0 then Aged(cooldowns, ms) + [later] else Aged(cooldowns, ms)
  {
    if cooldowns != [] {
      assert (cooldowns + [c])[1..] == cooldowns[1..] + [c];
      AgedSnoc(cooldowns[1..], c, ms);
    }
  }

  lemma {:induction false} MotionsSnoc(motions: seq<Motion>, m: Motion, ms: int)
    ensures MotionsAfter(motions + [m], ms) ==
      if m.remaining <= ms then MotionsAfter(motions, ms)
      else MotionsAfter(motions, ms) + [m.(remaining := m.remaining - ms)]
  {
    if motions != [] {
      assert (motions + [m])[1..] == motions[1..] + [m];
      MotionsSnoc(motions[1..], m, ms);
    }
  }

  lemma {:induction false} JumpsSnoc(jumps: seq<Jump>, j: Jump, ms: int)
    ensures JumpsAfter(jumps + [j], ms) ==
      if j.remaining <= ms then JumpsAfter(jumps, ms)
      else JumpsAfter(jumps, ms) + [j.(remaining := j.remaining - ms)]
  {
    if jumps != [] {
      assert (jumps + [j])[1..] == jumps[1..] + [j];
      JumpsSnoc(jumps[1..], j, ms);
    }
  }

  /** The loop that shortens the cooldowns and drops those that have run out. */
  method Age(rests: seq<Cooldown>, ms: int) returns (kept: seq<Cooldown>)
    ensures kept == Aged(rests, ms)
  {
    kept := [];
    for i := 0 to |rests|
      invariant kept == Aged(rests[..i], ms)
    {
      assert rests[..i + 1] == rests[..i] + [rests[i]];
      AgedSnoc(rests[..i], rests[i], ms);
      var later := rests[i].(remaining := rests[i].remaining - ms);
      if later.remaining > 0 {
        kept := kept + [later];
      }
    }
    assert rests[..|rests|] == rests;
  }

  /** The loop that keeps the motions not handled, with the time taken off. */
  method KeepMotions(motions: seq<Motion>, handled: seq<bool>, ms: int) returns (remaining: seq<Motion>)
    requires |handled| == |motions| && forall i :: 0 <= i < |handled| ==> (handled[i] <==> motions[i].remaining <= ms)
    ensures remaining == MotionsAfter(motions, ms)
  {
    remaining := [];
    for i := 0 to |motions|
      invariant remaining == MotionsAfter(motions[..i], ms)
    {
      assert motions[..i + 1] == motions[..i] + [motions[i]];
      MotionsSnoc(motions[..i], motions[i], ms);
      if !handled[i] {
        remaining := remaining + [motions[i].(remaining := motions[i].remaining - ms)];
      }
    }
    assert motions[..|motions|] == motions;
  }

  method KeepJumps(jumps: seq<Jump>, handled: seq<bool>, ms: int) returns (remaining: seq<Jump>)
    requires |handled| == |jumps| && forall i :: 0 <= i < |handled| ==> (handled[i] <==> jumps[i].remaining <= ms)
    ensures remaining == JumpsAfter(jumps, ms)
  {
    remaining := [];
    for i := 0 to |jumps|
      invariant remaining == JumpsAfter(jumps[..i], ms)
    {
      assert jumps[..i + 1] == jumps[..i] + [jumps[i]];
      JumpsSnoc(jumps[..i], jumps[i], ms);
      if !handled[i] {
        remaining := remaining + [jumps[i].(remaining := jumps[i].remaining - ms)];
      }
    }
    assert jumps[..|jumps|] == jumps;
  }

  lemma {:induction false} AgedNames(cooldowns: seq<Cooldown>, ms: int, ids: set<Id>)
    requires forall c :: c in cooldowns ==> c.piece in ids
    ensures forall c :: c in Aged(cooldowns, ms) ==> c.piece in ids
  {
    if cooldowns != [] { AgedNames(cooldowns[1..], ms, ids); }
  }

  lemma {:induction false} MotionsNames(motions: seq<Motion>, ms: int, ids: set<Id>)
    requires forall m :: m in motions ==> m.piece in ids
    ensures forall m :: m in MotionsAfter(motions, ms) ==> m.piece in ids
  {
    if motions != [] { MotionsNames(motions[1..], ms, ids); }
  }

  // ---------- the score keeper ----------

  class GameState {
    const board: Board
    var gameOver: bool
    var initialWhiteKings: nat
    var initialBlackKings: nat
    var whiteScore: int
    var blackScore: int

    constructor (board: Board, ghost roster: Roster, ghost a: Arena)
      requires Shows(board, roster, a)
      ensures this.board == board && !gameOver && whiteScore == 0 && blackScore == 0
      ensures initialWhiteKings == |KingSquares(a, White, board.height, 0)|
      ensures initialBlackKings == |KingSquares(a, Black, board.height, 0)|
    {
      this.board := board;
      gameOver, whiteScore, blackScore := false, 0, 0;
      var white, black := CountKings(board, roster, a);
      initialWhiteKings, initialBlackKings := white, black;
    }

    method AddScore(winner: Color, points: nat)
      modifies this`whiteScore, this`blackScore
      ensures whiteScore == old(whiteScore) + if winner.White? then points else 0
      ensures blackScore == old(blackScore) + if winner.White? then 0 else points
    {
      if winner.White? {
        whiteScore := whiteScore + points;
      } else {
        blackScore := blackScore + points;
      }
    }
  }

  // ---------- the arbiter ----------

  class RealTimeArbiter {
    const roster: Roster
    var activeMotions: seq<Motion>
    var activeJumps: seq<Jump>
    var activeCooldowns: seq<Cooldown>

    constructor (roster: Roster)
      ensures this.roster == roster && activeMotions == [] && activeJumps == [] && activeCooldowns == []
    {
      this.roster := roster;
      activeMotions, activeJumps, activeCooldowns := [], [], [];
    }

    /** The lists mention only pieces of the game. */
    ghost predicate Valid()
      reads this
    {
      && (forall m :: m in activeMotions ==> m.piece in roster.Keys)
      && (forall j :: j in activeJumps ==> j.piece in roster.Keys)
      && (forall c :: c in activeCooldowns ==> c.piece in roster.Keys)
    }

    ghost function ArenaOf(state: GameState): Arena
      requires state.board.grid.Length == state.board.width * state.board.height
      reads this`activeCooldowns, state`gameOver, state`whiteScore, state`blackScore
      reads state.board, state.board.grid, roster.Values
    {
      Arena(state.board.width, state.board.height, Bodies(roster), state.board.Squares(),
            activeCooldowns, state.gameOver, state.whiteScore, state.blackScore)
    }

    ghost function View(state: GameState): World
      requires state.board.grid.Length == state.board.width * state.board.height
      reads this, state, state.board, state.board.grid, roster.Values
    {
      World(ArenaOf(state), activeMotions, activeJumps, state.initialWhiteKings, state.initialBlackKings)
    }

    method IsPieceMoving(piece: Piece) returns (moving: bool)
      ensures moving <==> piece.id in Flyers(activeMotions)
    {
      for i := 0 to |activeMotions|
        invariant forall k :: 0 <= k < i ==> activeMotions[k].piece != piece.id
      {
        if activeMotions[i].piece == piece.id {
          return true;
        }
      }
      return false;
    }

    method IsPieceCoolingDown(piece: Piece) returns (resting: bool)
      ensures resting <==> piece.id in Resting(activeCooldowns)
    {
      for i := 0 to |activeCooldowns|
        invariant forall k :: 0 <= k < i ==> activeCooldowns[k].piece != piece.id
      {
        if activeCooldowns[i].piece == piece.id {
          return true;
        }
      }
      return false;
    }

    /** The enemy that stands on `dest` as the motion starts. */
    method FindVictim(piece: Piece, dest: Position, board: Board, ghost a: Arena) returns (victim: Piece?)
      requires Shows(board, roster, a) && Known(roster, piece)
      ensures var target := PieceAt(a, dest);
        IdOf(victim) == if target.Some? && a.pieces[target.value].color != piece.color then target else None
    {
      Seen(board, roster, a, dest);
      victim := board.GetPieceAt(dest);
      if victim != null && victim.color == piece.color {
        victim := null;
      }
    }

    method TakeOff(piece: Piece, src: Position, board: Board, ghost state: GameState)
      requires board == state.board && board.Valid(roster) && Known(roster, piece)
      modifies piece`status, board.grid
      ensures board.Valid(roster)
      ensures var a := old(ArenaOf(state));
        ArenaOf(state) == ClearCell(SetBody(a, piece.id, a.pieces[piece.id].(status := Moving)), src)
    {
      SetStatus(piece, Moving, roster);
      board.ClearCell(src, roster);
    }

    method StartMotion(piece: Piece, src: Position, dest: Position, total: int, board: Board, ghost state: GameState)
      requires board == state.board && board.Valid(roster) && Valid() && Known(roster, piece)
      modifies this`activeMotions, piece`status, board.grid
      ensures board.Valid(roster) && Valid()
      ensures View(state) == Game.StartMotion(old(View(state)), piece.id, src, dest, total)
    {
      var victim := FindVictim(piece, dest, board, ArenaOf(state));
      TakeOff(piece, src, board, state);
      ghost var a := ArenaOf(state);
      activeMotions := activeMotions + [Motion(piece.id, src, dest, total, total, IdOf(victim))];
      assert ArenaOf(state) == a;
    }

    method StartJump(piece: Piece, pos: Position, total: int, ghost state: GameState)
      requires state.board.Valid(roster) && Valid() && Known(roster, piece)
      modifies this`activeJumps, piece`status
      ensures state.board.Valid(roster) && Valid()
      ensures View(state) == Game.StartJump(old(View(state)), piece.id, pos, total)
    {
      SetStatus(piece, Moving, roster);
      activeJumps := activeJumps + [Jump(piece.id, pos, total, total)];
    }

    // ---------- the end of a jump ----------

    method Rest(piece: Piece, longRest: bool)
      requires Valid() && Known(roster, piece)
      modifies this`activeCooldowns
      ensures Valid()
      ensures activeCooldowns == old(activeCooldowns) + [Cooldown(piece.id, REST_MS, REST_MS, longRest)]
    {
      activeCooldowns := activeCooldowns + [Cooldown(piece.id, REST_MS, REST_MS, longRest)];
    }

    method LandJump(j: Jump, board: Board, ghost state: GameState)
      requires board == state.board && board.Valid(roster) && Valid() && j.piece in roster
      modifies this`activeCooldowns, roster.Values
      ensures board.Valid(roster) && Valid()
      ensures ArenaOf(state) == Land(old(ArenaOf(state)), j)
    {
      Seen(board, roster, ArenaOf(state), j.pos);
      var current := board.GetPieceAt(j.pos);
      if current == roster[j.piece] {
        SetStatus(current, Idle, roster);
        Rest(current, true);
      }
    }

    // ---------- the end of a motion ----------

    /** The piece of the first listed jump over `pos` that has not completed before `arrival`. */
    method FindAirborne(pos: Position, arrival: int, ms: int) returns (hovering: Piece?)
      requires arrival <= ms && Valid() && Unique(roster)
      ensures IdOf(hovering) == Airborne(activeJumps, pos, arrival)
      ensures hovering != null ==> Known(roster, hovering)
    {
      for j := 0 to |activeJumps|
        invariant Airborne(activeJumps[j..], pos, arrival) == Airborne(activeJumps, pos, arrival)
      {
        assert activeJumps[j..][1..] == activeJumps[j + 1..] && activeJumps[j] in activeJumps;
        if activeJumps[j].pos == pos {
          var completedEarlier := activeJumps[j].remaining <= ms && activeJumps[j].remaining < arrival;
          if !completedEarlier {
            return roster[activeJumps[j].piece];
          }
        }
      }
      return null;
    }

    method IsEscaping(piece: Piece, handled: seq<bool>) returns (escaping: bool)
      requires |handled| == |activeMotions|
      ensures escaping <==> piece.id in Unhandled(activeMotions, handled)
    {
      for i := 0 to |activeMotions|
        invariant forall k :: 0 <= k < i && !handled[k] ==> activeMotions[k].piece != piece.id
      {
        if !handled[i] && activeMotions[i].piece == piece.id {
          return true;
        }
      }
      return false;
    }

    /** Writes the piece's cell and puts it on the board, if the square takes it. */
    method Place(piece: Piece, pos: Position, board: Board, ghost state: GameState)
      requires board == state.board && board.Valid(roster) && Known(roster, piece)
      modifies piece`cell, board.grid
      ensures board.Valid(roster)
      ensures var a := old(ArenaOf(state));
        ArenaOf(state) == AddPiece(SetBody(a, piece.id, a.pieces[piece.id].(cell := pos)), piece.id)
    {
      SetCell(piece, pos, roster);
      var _ := board.AddPiece(piece, roster);
    }

    method SetDown(piece: Piece, pos: Position, board: Board, ghost state: GameState)
      requires board == state.board && board.Valid(roster) && Valid() && Known(roster, piece)
      modifies this`activeCooldowns, piece`cell, piece`status, board.grid
      ensures board.Valid(roster) && Valid()
      ensures ArenaOf(state) == PutDown(old(ArenaOf(state)), piece.id, pos)
    {
      Place(piece, pos, board, state);
      ghost var placed := ArenaOf(state);
      SetStatus(piece, Idle, roster);
      assert ArenaOf(state) == SetBody(placed, piece.id, placed.pieces[piece.id].(status := Idle));
      Rest(piece, false);
    }

    method Crown(piece: Piece, dest: Position, board: Board, ghost state: GameState)
      requires board == state.board && board.Valid(roster) && Known(roster, piece)
      modifies piece`kind
      ensures board.Valid(roster)
      ensures ArenaOf(state) == Promote(old(ArenaOf(state)), piece.id, dest)
    {
      if piece.kind.Pawn? {
        if (piece.color.White? && dest.row == 0) || (piece.color.Black? && dest.row == board.height - 1) {
          SetKind(piece, Queen, roster);
        }
      }
    }

    /** The flag goes up if the prey was a king, and the taker's side scores. */
    method Judged(king: bool, winner: Color, points: nat, state: GameState)
      requires state.board.Valid(roster)
      modifies state`gameOver, state`whiteScore, state`blackScore
      ensures var a := old(ArenaOf(state));
        ArenaOf(state) == Award(if king then a.(gameOver := true) else a, winner, points)
    {
      if king {
        state.gameOver := true;
      }
      state.AddScore(winner, points);
    }

    method TakePiece(piece: Piece, dest: Position, prey: Piece, board: Board, state: GameState)
      requires board == state.board && board.Valid(roster) && Valid()
      requires Known(roster, piece) && board.GetPieceAt(dest) == prey
      modifies this`activeCooldowns, roster.Values, board.grid, state`gameOver, state`whiteScore, state`blackScore
      ensures board.Valid(roster) && Valid()
      ensures ArenaOf(state) == Capture(old(ArenaOf(state)), piece.id, dest, prey.id)
    {
      ghost var a := ArenaOf(state);
      Seen(board, roster, a, dest);
      board.RemovePiece(dest, roster);
      assert ArenaOf(state) == Game.RemovePiece(a, dest);
      SetDown(piece, dest, board, state);
      Judged(prey.kind.King?, piece.color, Value(prey.kind), state);
      Crown(piece, dest, board, state);
    }

    method Settle(piece: Piece, dest: Position, board: Board, ghost state: GameState)
      requires board == state.board && board.Valid(roster) && Valid() && Known(roster, piece)
      modifies this`activeCooldowns, piece, board.grid
      ensures board.Valid(roster) && Valid()
      ensures ArenaOf(state) == Promote(PutDown(old(ArenaOf(state)), piece.id, dest), piece.id, dest)
    {
      SetDown(piece, dest, board, state);
      Crown(piece, dest, board, state);
    }

    method Catch(piece: Piece, catcher: Color, board: Board, state: GameState)
      requires board == state.board && board.Valid(roster) && Known(roster, piece)
      modifies piece`status, state`whiteScore, state`blackScore
      ensures board.Valid(roster)
      ensures ArenaOf(state) == CaughtMidAir(old(ArenaOf(state)), piece.id, catcher)
    {
      ghost var a := ArenaOf(state);
      SetStatus(piece, Captured, roster);
      assert ArenaOf(state) == SetBody(a, piece.id, a.pieces[piece.id].(status := Captured));
      state.AddScore(catcher, Value(piece.kind));
    }

    /** Looks at the destination of the `k`-th motion: who hovers over it, and who stands on it to stay. */
    method Scout(k: nat, handled: seq<bool>, ms: int, board: Board, ghost a: Arena)
      returns (hovering: Piece?, standing: Piece?)
      requires Shows(board, roster, a) && Valid()
      requires k < |activeMotions| == |handled| && activeMotions[k].remaining <= ms
      ensures hovering != null ==> Known(roster, hovering)
      ensures standing != null ==> board.GetPieceAt(activeMotions[k].dest) == standing
      ensures IdOf(hovering) == Airborne(activeJumps, activeMotions[k].dest, activeMotions[k].remaining)
      ensures IdOf(standing) ==
        var there := PieceAt(a, activeMotions[k].dest);
        if there.Some? && there.value in Unhandled(activeMotions, handled) then None else there
    {
      var m := activeMotions[k];
      Seen(board, roster, a, m.dest);
      standing := board.GetPieceAt(m.dest);
      if standing != null {
        var escaping := IsEscaping(standing, handled);
        if escaping {
          standing := null;
        }
      }
      hovering := FindAirborne(m.dest, m.remaining, ms);
    }

    /** What a flight comes to, by what its piece meets. */
    static ghost function Landing(a: Arena, m: Motion, hovering: Piece?, standing: Piece?): Arena
      requires m.piece in a.pieces && (standing != null ==> standing.id in a.pieces)
    {
      var p, b := m.piece, a.pieces[m.piece];
      if b.status.Captured? then a
      else if hovering != null then
        if hovering.color == b.color then PutDown(a, p, m.source) else CaughtMidAir(a, p, hovering.color)
      else if standing == null then Promote(PutDown(a, p, m.dest), p, m.dest)
      else if standing.color == b.color then PutDown(a, p, m.source)
      else Capture(a, p, m.dest, standing.id)
    }

    /** The end of a flight over whose destination nobody hovers. */
    method Descend(m: Motion, piece: Piece, standing: Piece?, board: Board, state: GameState)
      requires board == state.board && board.Valid(roster) && Valid() && Known(roster, piece) && piece.id == m.piece
      requires standing != null ==> board.GetPieceAt(m.dest) == standing && standing.id in roster
      requires !piece.status.Captured?
      modifies this`activeCooldowns, roster.Values, board.grid, state`gameOver, state`whiteScore, state`blackScore
      ensures board.Valid(roster) && Valid()
      ensures ArenaOf(state) == Landing(old(ArenaOf(state)), m, null, standing)
    {
      if standing == null {
        Settle(piece, m.dest, board, state);
      } else if standing.color == piece.color {
        SetDown(piece, m.source, board, state);
      } else {
        TakePiece(piece, m.dest, standing, board, state);
      }
    }

    method Fly(m: Motion, hovering: Piece?, standing: Piece?, board: Board, state: GameState)
      requires board == state.board && board.Valid(roster) && Valid() && m.piece in roster
      requires standing != null ==> board.GetPieceAt(m.dest) == standing && standing.id in roster
      modifies this`activeCooldowns, roster.Values, board.grid, state`gameOver, state`whiteScore, state`blackScore
      ensures board.Valid(roster) && Valid()
      ensures ArenaOf(state) == Landing(old(ArenaOf(state)), m, hovering, standing)
    {
      var piece := roster[m.piece];
      if piece.status.Captured? {
        return;
      }
      if hovering == null {
        Descend(m, piece, standing, board, state);
      } else if hovering.color == piece.color {
        SetDown(piece, m.source, board, state);
      } else {
        Catch(piece, hovering.color, board, state);
      }
    }

    /** Resolves the `k`-th motion; `handled` marks the motions resolved so far, this one included. */
    method EndMotion(k: nat, handled: seq<bool>, ms: int, board: Board, state: GameState)
      requires board == state.board && board.Valid(roster) && Valid()
      requires k < |activeMotions| == |handled| && activeMotions[k].remaining <= ms
      modifies this`activeCooldowns, roster.Values, board.grid, state`gameOver, state`whiteScore, state`blackScore
      ensures board.Valid(roster) && Valid()
      ensures ArenaOf(state) ==
        Arrive(old(ArenaOf(state)), activeJumps, activeMotions[k], Unhandled(activeMotions, handled))
    {
      var m := activeMotions[k];
      ghost var a := ArenaOf(state);
      assert activeMotions[k] in activeMotions;
      Seen(board, roster, a, m.dest);
      var hovering, standing := Scout(k, handled, ms, board, a);
      LandingIsArrival(a, activeJumps, m, Unhandled(activeMotions, handled), hovering, standing);
      Fly(m, hovering, standing, board, state);
    }

    // ---------- the tick ----------

    /** Resolves entry `k` of the sorted events. */
    method PlayNext(events: seq<Due>, k: nat, handledMotions: seq<bool>, handledJumps: seq<bool>, ms: int,
                    board: Board, state: GameState)
      returns (motionsNow: seq<bool>, jumpsNow: seq<bool>)
      requires board == state.board && board.Valid(roster) && Valid()
      requires k < |events| && Agenda(events, activeMotions, activeJumps, ms)
      requires MotionsMarked(events[..k], activeMotions, handledMotions)
      requires JumpsMarked(events[..k], activeJumps, handledJumps)
      modifies this`activeCooldowns, roster.Values, board.grid, state`gameOver, state`whiteScore, state`blackScore
      ensures board.Valid(roster) && Valid()
      ensures MotionsMarked(events[..k + 1], activeMotions, motionsNow)
      ensures JumpsMarked(events[..k + 1], activeJumps, jumpsNow)
      ensures var order := EventsOf(events, activeMotions, activeJumps);
        ArenaOf(state) == Resolve(old(ArenaOf(state)), activeJumps, order[k],
                                  Aloft(activeMotions, ms) + Movers(order[k + 1..]))
    {
      var d := events[k];
      NextEntry(events, k, activeMotions, activeJumps, ms);
      motionsNow, jumpsNow := handledMotions, handledJumps;
      if d.isMotion {
        motionsNow := motionsNow[d.index := true];
        MarkMotion(events[..k], d, activeMotions, handledMotions);
        StillPending(events[..k + 1], events[k + 1..], activeMotions, activeJumps, ms, motionsNow);
        EndMotion(d.index, motionsNow, ms, board, state);
      } else {
        jumpsNow := jumpsNow[d.index := true];
        MarkJump(events[..k], d, activeJumps, handledJumps);
        assert activeJumps[d.index] in activeJumps;
        LandJump(activeJumps[d.index], board, state);
      }
    }

    /** One pass through the sorted events. */
    method PlayEvents(events: seq<Due>, ms: int, board: Board, state: GameState, ghost order: seq<Event>)
      returns (handledMotions: seq<bool>, handledJumps: seq<bool>)
      requires board == state.board && board.Valid(roster) && Valid()
      requires Agenda(events, activeMotions, activeJumps, ms) && order == EventsOf(events, activeMotions, activeJumps)
      modifies this`activeCooldowns, roster.Values, board.grid, state`gameOver, state`whiteScore, state`blackScore
      ensures board.Valid(roster) && Valid()
      ensures MotionsMarked(events, activeMotions, handledMotions)
      ensures JumpsMarked(events, activeJumps, handledJumps)
      ensures ArenaOf(state) == Play(old(ArenaOf(state)), activeJumps, Aloft(activeMotions, ms), order)
    {
      ghost var a, aloft := ArenaOf(state), Aloft(activeMotions, ms);
      handledMotions := seq(|activeMotions|, _ => false);
      handledJumps := seq(|activeJumps|, _ => false);
      for k := 0 to |events|
        modifies this`activeCooldowns, roster.Values, board.grid, state`gameOver, state`whiteScore, state`blackScore
        invariant board.Valid(roster) && Valid()
        invariant MotionsMarked(events[..k], activeMotions, handledMotions)
        invariant JumpsMarked(events[..k], activeJumps, handledJumps)
        invariant Play(ArenaOf(state), activeJumps, aloft, order[k..]) == Play(a, activeJumps, aloft, order)
      {
        ghost var before := ArenaOf(state);
        handledMotions, handledJumps := PlayNext(events, k, handledMotions, handledJumps, ms, board, state);
        PlayOn(before, activeJumps, aloft, order, k, ArenaOf(state));
      }
      assert events[..|events|] == events;
    }

    /** Lists what ends within `ms` and sorts it; `order` is the admissible order the sort has settled on. */
    method SortDue(ms: nat, ghost w: World) returns (sorted: seq<Due>, ghost order: seq<Event>)
      requires w.motions == activeMotions && w.jumps == activeJumps
      ensures Agenda(sorted, activeMotions, activeJumps, ms)
      ensures ValidOrder(w, ms, order) && order == EventsOf(sorted, activeMotions, activeJumps)
    {
      var events := Collect(activeMotions, activeJumps, ms);
      sorted := Sort(events);
      SortedIsOrder(w, ms, events, sorted);
      order := EventsOf(sorted, activeMotions, activeJumps);
    }

    /** The last two loops: keeps what has not been handled. */
    method DropHandled(handledMotions: seq<bool>, handledJumps: seq<bool>, ms: nat, ghost events: seq<Due>)
      requires Valid() && Agenda(events, activeMotions, activeJumps, ms)
      requires MotionsMarked(events, activeMotions, handledMotions)
      requires JumpsMarked(events, activeJumps, handledJumps)
      modifies this`activeMotions, this`activeJumps
      ensures Valid()
      ensures activeMotions == MotionsAfter(old(activeMotions), ms)
      ensures activeJumps == JumpsAfter(old(activeJumps), ms)
    {
      AllMarked(events, activeMotions, activeJumps, ms, handledMotions, handledJumps);
      MotionsNames(activeMotions, ms, roster.Keys);
      JumpsNames(activeJumps, ms, roster.Keys);
      activeMotions := KeepMotions(activeMotions, handledMotions, ms);
      activeJumps := KeepJumps(activeJumps, handledJumps, ms);
    }

    method AgeCooldowns(ms: int)
      requires Valid()
      modifies this`activeCooldowns
      ensures Valid()
      ensures activeCooldowns == Aged(old(activeCooldowns), ms)
    {
      AgedNames(activeCooldowns, ms, roster.Keys);
      activeCooldowns := Age(activeCooldowns, ms);
    }

    /** The first half of a tick: ages the cooldowns, lists and sorts what ends within `ms`, and resolves it. */
    method ResolveDue(ms: nat, board: Board, state: GameState, ghost w: World)
      returns (handledMotions: seq<bool>, handledJumps: seq<bool>, ghost events: seq<Due>, ghost order: seq<Event>)
      requires board == state.board && board.Valid(roster) && Valid()
      requires w.arena == ArenaOf(state) && w.motions == activeMotions && w.jumps == activeJumps
      modifies this`activeCooldowns, roster.Values, board.grid, state`gameOver, state`whiteScore, state`blackScore
      ensures board.Valid(roster) && Valid()
      ensures Agenda(events, activeMotions, activeJumps, ms) && ValidOrder(w, ms, order)
      ensures MotionsMarked(events, activeMotions, handledMotions) && JumpsMarked(events, activeJumps, handledJumps)
      ensures ArenaOf(state) == Play(Game.Rest(w, ms), w.jumps, Aloft(w.motions, ms), order)
    {
      AgeCooldowns(ms);
      assert ArenaOf(state) == Game.Rest(w, ms);
      var sorted;
      sorted, order := SortDue(ms, w);
      handledMotions, handledJumps := PlayEvents(sorted, ms, board, state, order);
      events := sorted;
    }

    /** The whole tick; `order` is the order in which it resolved what ended within `ms`. */
    method AdvanceTime(ms: nat, board: Board, state: GameState) returns (ghost order: seq<Event>)
      requires board == state.board && board.Valid(roster) && Valid()
      modifies this, roster.Values, board.grid, state`gameOver, state`whiteScore, state`blackScore
      ensures board.Valid(roster) && Valid()
      ensures ValidOrder(old(View(state)), ms, order)
      ensures View(state) == Game.AdvanceTime(old(View(state)), ms, order)
    {
      ghost var w := View(state);
      var handledMotions, handledJumps;
      ghost var events;
      handledMotions, handledJumps, events, order := ResolveDue(ms, board, state, w);
      ghost var a := ArenaOf(state);
      DropHandled(handledMotions, handledJumps, ms, events);
      assert ArenaOf(state) == a;
      assert activeMotions == MotionsAfter(w.motions, ms) && activeJumps == JumpsAfter(w.jumps, ms);
      Ticked(w, View(state), ms, order);
    }

    /** How many kings of each side the status check counts: on the board, in flight and in jumps. */
    method CountInPlay(board: Board, ghost w: World) returns (white: nat, black: nat)
      requires Shows(board, roster, w.arena) && Valid() && w.motions == activeMotions && w.jumps == activeJumps
      ensures white == KingCount(w, White) && black == KingCount(w, Black)
      ensures white > 0 <==> KingInPlay(w, White)
      ensures black > 0 <==> KingInPlay(w, Black)
    {
      var white1, black1 := CountKings(board, roster, w.arena);
      var white2, black2 := CountFlying(w.arena);
      var white3, black3 := CountLeaping(w.arena);
      CountedInPlay(board, roster, w, White);
      CountedInPlay(board, roster, w, Black);
      white, black := white1 + white2 + white3, black1 + black2 + black3;
    }

    method CountFlying(ghost a: Arena) returns (white: nat, black: nat)
      requires a.pieces == Bodies(roster) && Valid()
      ensures white == LiveKings(a, MotionIds(activeMotions), White)
      ensures black == LiveKings(a, MotionIds(activeMotions), Black)
    {
      white, black := 0, 0;
      ghost var ids := MotionIds(activeMotions);
      assert ids[0..] == ids;
      for i := 0 to |activeMotions|
        invariant white + LiveKings(a, ids[i..], White) == LiveKings(a, ids, White)
        invariant black + LiveKings(a, ids[i..], Black) == LiveKings(a, ids, Black)
      {
        assert activeMotions[i] in activeMotions && ids[i..][0] == activeMotions[i].piece &&
               ids[i..][1..] == ids[i + 1..];
        var p := roster[activeMotions[i].piece];
        if p.kind.King? && !p.status.Captured? {
          if p.color.White? {
            white := white + 1;
          } else {
            black := black + 1;
          }
        }
      }
    }

    method CountLeaping(ghost a: Arena) returns (white: nat, black: nat)
      requires a.pieces == Bodies(roster) && Valid()
      ensures white == LiveKings(a, JumpIds(activeJumps), White)
      ensures black == LiveKings(a, JumpIds(activeJumps), Black)
    {
      white, black := 0, 0;
      ghost var ids := JumpIds(activeJumps);
      assert ids[0..] == ids;
      for i := 0 to |activeJumps|
        invariant white + LiveKings(a, ids[i..], White) == LiveKings(a, ids, White)
        invariant black + LiveKings(a, ids[i..], Black) == LiveKings(a, ids, Black)
      {
        assert activeJumps[i] in activeJumps && ids[i..][0] == activeJumps[i].piece && ids[i..][1..] == ids[i + 1..];
        var p := roster[activeJumps[i].piece];
        if p.kind.King? && !p.status.Captured? {
          if p.color.White? {
            white := white + 1;
          } else {
            black := black + 1;
          }
        }
      }
    }
  }

  /** Colours seen on the objects are the colours on record, so the landing is the one `Game` prescribes. */
  lemma LandingIsArrival(a: Arena, jumps: seq<Jump>, m: Motion, pending: set<Id>, hovering: Piece?, standing: Piece?)
    requires m.piece in a.pieces
    requires hovering != null ==> hovering.id in a.pieces && a.pieces[hovering.id].color == hovering.color
    requires standing != null ==> standing.id in a.pieces && a.pieces[standing.id].color == standing.color
    requires IdOf(hovering) == Airborne(jumps, m.dest, m.remaining)
    requires var there := PieceAt(a, m.dest);
      IdOf(standing) == if there.Some? && there.value in pending then None else there
    ensures RealTimeArbiter.Landing(a, m, hovering, standing) == Arrive(a, jumps, m, pending)
  {
  }

  lemma PlayOn(a: Arena, jumps: seq<Jump>, aloft: set<Id>, order: seq<Event>, k: nat, next: Arena)
    requires k < |order| && next == Resolve(a, jumps, order[k], aloft + Movers(order[k + 1..]))
    ensures Play(next, jumps, aloft, order[k + 1..]) == Play(a, jumps, aloft, order[k..])
  {
    assert order[k..][1..] == order[k + 1..] && order[k..][0] == order[k];
  }

  lemma Ticked(w: World, v: World, ms: nat, order: seq<Event>)
    requires v.arena == Play(Game.Rest(w, ms), w.jumps, Aloft(w.motions, ms), order)
    requires v.motions == MotionsAfter(w.motions, ms) && v.jumps == JumpsAfter(w.jumps, ms)
    requires v.whiteKings == w.whiteKings && v.blackKings == w.blackKings
    ensures v == Game.AdvanceTime(w, ms, order)
  {
  }

  /** A king of `color` that has not been captured. */
  ghost predicate LiveKing(a: Arena, p: Id, color: Color) {
    IsKing(a, p, color) && !a.pieces[p].status.Captured?
  }

  function MotionIds(motions: seq<Motion>): (ids: seq<Id>)
    ensures |ids| == |motions| && forall i :: 0 <= i < |ids| ==> ids[i] == motions[i].piece
  {
    seq(|motions|, i requires 0 <= i < |motions| => motions[i].piece)
  }

  function JumpIds(jumps: seq<Jump>): (ids: seq<Id>)
    ensures |ids| == |jumps| && forall i :: 0 <= i < |ids| ==> ids[i] == jumps[i].piece
  {
    seq(|jumps|, i requires 0 <= i < |jumps| => jumps[i].piece)
  }

  /** How often a king of `color` that has not been captured is named. */
  ghost function LiveKings(a: Arena, ids: seq<Id>, color: Color): nat {
    if ids == [] then 0 else (if LiveKing(a, ids[0], color) then 1 else 0) + LiveKings(a, ids[1..], color)
  }

  /** The number the status check arrives at; a king that jumps is counted on its square and once for each jump. */
  ghost function KingCount(w: World, color: Color): nat {
    |KingSquares(w.arena, color, w.arena.height, 0)|
    + LiveKings(w.arena, MotionIds(w.motions), color) + LiveKings(w.arena, JumpIds(w.jumps), color)
  }

  lemma {:induction false} SomeLiveKing(a: Arena, ids: seq<Id>, color: Color)
    ensures LiveKings(a, ids, color) > 0 <==> exists i :: 0 <= i < |ids| && LiveKing(a, ids[i], color)
  {
    if ids != [] {
      SomeLiveKing(a, ids[1..], color);
      assert forall i :: 0 <= i < |ids| - 1 ==> ids[1..][i] == ids[i + 1];
      if i :| 0 <= i < |ids| && LiveKing(a, ids[i], color) {
        assert i == 0 || LiveKing(a, ids[1..][i - 1], color);
      }
    }
  }

  lemma CountedInPlay(board: Board, roster: Roster, w: World, color: Color)
    requires Shows(board, roster, w.arena)
    ensures KingCount(w, color) == |KingSquares(w.arena, color, board.height, 0)|
         + LiveKings(w.arena, MotionIds(w.motions), color) + LiveKings(w.arena, JumpIds(w.jumps), color)
    ensures KingCount(w, color) > 0 <==> KingInPlay(w, color)
  {
    KingsOnBoard(board, roster, w.arena, color);
    CountsMeanInPlay(w, color);
  }

  /** A king is in play exactly when it stands on a square or is named by a motion or a jump. */
  lemma CountsMeanInPlay(w: World, color: Color)
    ensures KingInPlay(w, color) <==>
      || (exists pos :: pos in w.arena.grid && IsKing(w.arena, w.arena.grid[pos], color))
      || LiveKings(w.arena, MotionIds(w.motions), color) > 0 || LiveKings(w.arena, JumpIds(w.jumps), color) > 0
  {
    var flying, leaping := MotionIds(w.motions), JumpIds(w.jumps);
    SomeLiveKing(w.arena, flying, color);
    SomeLiveKing(w.arena, leaping, color);
    if m :| m in w.motions && IsKing(w.arena, m.piece, color) && !w.arena.pieces[m.piece].status.Captured? {
      var i :| 0 <= i < |w.motions| && w.motions[i] == m;
      assert LiveKing(w.arena, flying[i], color);
    }
    if j :| j in w.jumps && IsKing(w.arena, j.piece, color) && !w.arena.pieces[j.piece].status.Captured? {
      var i :| 0 <= i < |w.jumps| && w.jumps[i] == j;
      assert LiveKing(w.arena, leaping[i], color);
    }
    if i :| 0 <= i < |flying| && LiveKing(w.arena, flying[i], color) { assert w.motions[i] in w.motions; }
    if i :| 0 <= i < |leaping| && LiveKing(w.arena, leaping[i], color) { assert w.jumps[i] in w.jumps; }
  }
}
