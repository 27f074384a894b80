/** Which pieces a snapshot lists, and where. */
module Listing {
  import opened Chess
  import opened Conservation
  import opened Game
  import opened Wrappers

  /** `pieces_to_serialize` */
  type Lines = seq<(Id, Position)>

  predicate Real(a: Arena, lines: Lines) {
    forall x :: x in lines ==> x.0 in a.pieces
  }

  function Cell(a: Arena, r: int, c: int): (lines: Lines)
    ensures Real(a, lines)
  {
    var here := PieceAt(a, Position(r, c));
    if here.Some? then [(here.value, Position(r, c))] else []
  }

  /** The pieces in row `r` before column `c`. */
  function Cells(a: Arena, r: nat, c: nat): (lines: Lines)
    ensures Real(a, lines)
  {
    if c == 0 then [] else Cells(a, r, c - 1) + Cell(a, r, c - 1)
  }

  /** The pieces in the rows before `r`. */
  function Rows(a: Arena, r: nat): (lines: Lines)
    ensures Real(a, lines)
  {
    if r == 0 then [] else Rows(a, r - 1) + Cells(a, r - 1, a.width)
  }

  predicate Lists(lines: Lines, p: Id) {
    exists i :: 0 <= i < |lines| && lines[i].0 == p
  }

  /** A piece already listed is not listed again. */
  function AddMissing(a: Arena, lines: Lines, p: Id, pos: Position): (r: Lines)
    ensures Real(a, lines) ==> Real(a, r)
  {
    if p !in a.pieces || Lists(lines, p) then lines else lines + [(p, pos)]
  }

  function AddMotions(a: Arena, lines: Lines, motions: seq<Motion>): (r: Lines)
    ensures Real(a, lines) ==> Real(a, r)
    decreases |motions|
  {
    if motions == [] then lines
    else AddMotions(a, AddMissing(a, lines, motions[0].piece, motions[0].source), motions[1..])
  }

  function AddJumps(a: Arena, lines: Lines, jumps: seq<Jump>): (r: Lines)
    ensures Real(a, lines) ==> Real(a, r)
    decreases |jumps|
  {
    if jumps == [] then lines
    else AddJumps(a, AddMissing(a, lines, jumps[0].piece, jumps[0].pos), jumps[1..])
  }

  function Serialised(w: World): (lines: Lines)
    ensures Real(w.arena, lines)
  {
    AddJumps(w.arena, AddMotions(w.arena, Rows(w.arena, w.arena.height), w.motions), w.jumps)
  }

  method FindLine(lines: Lines, p: Id) returns (there: bool)
    ensures there == Lists(lines, p)
  {
    there := false;
    for i := 0 to |lines|
      invariant there == Lists(lines[..i], p)
    {
      if lines[i].0 == p {
        assert lines[..i + 1][i].0 == p;
        there := true;
        return;
      }
    }
    assert lines[..|lines|] == lines;
  }

  method ListPieces(w: World) returns (lines: Lines)
    ensures lines == Serialised(w)
  {
    var a := w.arena;
    lines := [];
    for r := 0 to a.height
      invariant lines == Rows(a, r)
    {
      for c := 0 to a.width
        invariant lines == Rows(a, r) + Cells(a, r, c)
      {
        var piece := PieceAt(a, Position(r, c));
        if piece.Some? {
          lines := lines + [(piece.value, Position(r, c))];
        }
      }
    }
    lines := ListMotions(a, lines, w.motions);
    lines := ListJumps(a, lines, w.jumps);
  }

  method ListMotions(a: Arena, start: Lines, motions: seq<Motion>) returns (lines: Lines)
    ensures lines == AddMotions(a, start, motions)
  {
    lines := start;
    for i := 0 to |motions|
      invariant AddMotions(a, lines, motions[i..]) == AddMotions(a, start, motions)
    {
      var m := motions[i];
      assert motions[i..][0] == m && motions[i..][1..] == motions[i + 1..];
      if m.piece in a.pieces {
        var known := FindLine(lines, m.piece);
        if !known {
          lines := lines + [(m.piece, m.source)];
        }
      }
    }
  }

  method ListJumps(a: Arena, start: Lines, jumps: seq<Jump>) returns (lines: Lines)
    ensures lines == AddJumps(a, start, jumps)
  {
    lines := start;
    for i := 0 to |jumps|
      invariant AddJumps(a, lines, jumps[i..]) == AddJumps(a, start, jumps)
    {
      var j := jumps[i];
      assert jumps[i..][0] == j && jumps[i..][1..] == jumps[i + 1..];
      if j.piece in a.pieces {
        var known := FindLine(lines, j.piece);
        if !known {
          lines := lines + [(j.piece, j.pos)];
        }
      }
    }
  }

  // ---------- every piece once ----------

  predicate NoRepeats(lines: Lines) {
    forall i, j :: 0 <= i < j < |lines| ==> lines[i].0 != lines[j].0
  }

  lemma {:induction false} CellsAre(a: Arena, r: nat, c: nat, x: (Id, Position))
    ensures x in Cells(a, r, c) <==> PieceAt(a, x.1) == Some(x.0) && x.1.row == r && 0 <= x.1.col < c
  {
    if c > 0 {
      CellsAre(a, r, c - 1, x);
    }
  }

  lemma {:induction false} RowsAre(a: Arena, r: nat, x: (Id, Position))
    ensures x in Rows(a, r) <==> PieceAt(a, x.1) == Some(x.0) && 0 <= x.1.row < r && 0 <= x.1.col < a.width
  {
    if r > 0 {
      RowsAre(a, r - 1, x);
      CellsAre(a, r - 1, a.width, x);
    }
  }

  lemma NoRepeatsJoin(xs: Lines, ys: Lines)
    requires NoRepeats(xs) && NoRepeats(ys)
    requires forall x, y :: x in xs && y in ys ==> x.0 != y.0
    ensures NoRepeats(xs + ys)
  {
  }

  lemma {:induction false} CellsOnce(a: Arena, r: nat, c: nat)
    requires BoardSound(a)
    ensures NoRepeats(Cells(a, r, c))
  {
    if c > 0 {
      CellsOnce(a, r, c - 1);
      forall x, y | x in Cells(a, r, c - 1) && y in Cell(a, r, c - 1) ensures x.0 != y.0 {
        CellsAre(a, r, c - 1, x);
      }
      NoRepeatsJoin(Cells(a, r, c - 1), Cell(a, r, c - 1));
    }
  }

  lemma RowsApart(a: Arena, r: nat, x: (Id, Position), y: (Id, Position))
    requires BoardSound(a) && x in Rows(a, r) && y in Cells(a, r, a.width)
    ensures x.0 != y.0
  {
    RowsAre(a, r, x);
    CellsAre(a, r, a.width, y);
    assert a.pieces[x.0].cell == x.1 && a.pieces[y.0].cell == y.1;
  }

  lemma {:induction false} RowsOnce(a: Arena, r: nat)
    requires BoardSound(a)
    ensures NoRepeats(Rows(a, r))
  {
    if r > 0 {
      RowsOnce(a, r - 1);
      CellsOnce(a, r - 1, a.width);
      var rows, cells := Rows(a, r - 1), Cells(a, r - 1, a.width);
      forall x, y | x in rows && y in cells ensures x.0 != y.0 {
        RowsApart(a, r - 1, x, y);
      }
      NoRepeatsJoin(rows, cells);
    }
  }

  /** Lines that are there stay, and a piece is listed at most once. */
  lemma {:induction false} MotionsAdd(a: Arena, lines: Lines, motions: seq<Motion>)
    requires NoRepeats(lines)
    ensures var r := AddMotions(a, lines, motions);
      && lines <= r && NoRepeats(r)
      && (forall m :: m in motions && m.piece in a.pieces ==> Lists(r, m.piece))
      && (forall x :: x in r && x !in lines ==> exists m :: m in motions && x == (m.piece, m.source))
    decreases |motions|
  {
    if motions != [] {
      var m := motions[0];
      var next := AddMissing(a, lines, m.piece, m.source);
      MotionsAdd(a, next, motions[1..]);
      var r := AddMotions(a, lines, motions);
      assert next <= r;
      if m.piece in a.pieces {
        assert Lists(next, m.piece) by { if !Lists(lines, m.piece) { assert next[|lines|].0 == m.piece; } }
        var i :| 0 <= i < |next| && next[i].0 == m.piece;
        assert r[i] == next[i];
      }
      forall x | x in r && x !in lines ensures exists k :: k in motions && x == (k.piece, k.source) {
        if x !in next {
          var k :| k in motions[1..] && x == (k.piece, k.source);
          assert k in motions;
        } else {
          assert m in motions && x == (m.piece, m.source);
        }
      }
    }
  }

  lemma {:induction false} JumpsAdd(a: Arena, lines: Lines, jumps: seq<Jump>)
    requires NoRepeats(lines)
    ensures var r := AddJumps(a, lines, jumps);
      && lines <= r && NoRepeats(r)
      && (forall j :: j in jumps && j.piece in a.pieces ==> Lists(r, j.piece))
      && (forall x :: x in r && x !in lines ==> exists j :: j in jumps && x == (j.piece, j.pos))
    decreases |jumps|
  {
    if jumps != [] {
      var j := jumps[0];
      var next := AddMissing(a, lines, j.piece, j.pos);
      JumpsAdd(a, next, jumps[1..]);
      var r := AddJumps(a, lines, jumps);
      if j.piece in a.pieces {
        assert Lists(next, j.piece) by { if !Lists(lines, j.piece) { assert next[|lines|].0 == j.piece; } }
        var i :| 0 <= i < |next| && next[i].0 == j.piece;
        assert r[i] == next[i];
      }
      forall x | x in r && x !in lines ensures exists k :: k in jumps && x == (k.piece, k.pos) {
        if x !in next {
          var k :| k in jumps[1..] && x == (k.piece, k.pos);
          assert k in jumps;
        } else {
          assert j in jumps && x == (j.piece, j.pos);
        }
      }
    }
  }

  /**
   In every reachable state a snapshot lists no piece twice, each piece on the board with its square, each piece
   in flight with the square it left, and every piece that is still in a jump.
   */
  lemma EveryPieceOnce(w: World)
    requires Inv(w)
    ensures NoRepeats(Serialised(w))
    ensures forall p :: OnBoard(w.arena, p) ==> (p, w.arena.pieces[p].cell) in Serialised(w)
    ensures forall m :: m in w.motions ==> (m.piece, m.source) in Serialised(w)
    ensures forall j :: j in w.jumps && j.piece in w.arena.pieces ==> Lists(Serialised(w), j.piece)
  {
    var a := w.arena;
    var rows := Rows(a, a.height);
    var flights := AddMotions(a, rows, w.motions);
    RowsOnce(a, a.height);
    forall x ensures x in rows <==> PieceAt(a, x.1) == Some(x.0) && InBounds(a, x.1) {
      RowsAre(a, a.height, x);
    }
    MotionsAdd(a, rows, w.motions);
    JumpsAdd(a, flights, w.jumps);
    forall p | OnBoard(a, p) ensures (p, a.pieces[p].cell) in Serialised(w) {
      assert (p, a.pieces[p].cell) in rows;
    }
    forall m | m in w.motions ensures (m.piece, m.source) in Serialised(w) {
      FlightListed(w, m, rows, flights);
    }
  }

  predicate EarlierSquare(x: Position, y: Position) {
    x.row < y.row || (x.row == y.row && x.col < y.col)
  }

  predicate InReadingOrder(lines: Lines) {
    forall i, j :: 0 <= i < j < |lines| ==> EarlierSquare(lines[i].1, lines[j].1)
  }

  lemma {:induction false} CellsInOrder(a: Arena, r: nat, c: nat)
    ensures InReadingOrder(Cells(a, r, c))
  {
    if c > 0 {
      CellsInOrder(a, r, c - 1);
      var before := Cells(a, r, c - 1);
      forall i | 0 <= i < |before| ensures before[i].1.row == r && before[i].1.col < c - 1 {
        CellsAre(a, r, c - 1, before[i]);
      }
    }
  }

  lemma {:induction false} RowsInOrder(a: Arena, r: nat)
    ensures InReadingOrder(Rows(a, r))
  {
    if r > 0 {
      RowsInOrder(a, r - 1);
      CellsInOrder(a, r - 1, a.width);
      var before, last := Rows(a, r - 1), Cells(a, r - 1, a.width);
      forall i | 0 <= i < |before| ensures before[i].1.row < r - 1 { RowsAre(a, r - 1, before[i]); }
      forall i | 0 <= i < |last| ensures last[i].1.row == r - 1 { CellsAre(a, r - 1, a.width, last[i]); }
    }
  }

  /** The pieces on the board come first, row by row and from left to right; the others follow. */
  lemma BoardFirst(w: World) returns (n: nat)
    requires Inv(w)
    ensures var lines := Serialised(w);
      && n <= |lines|
      && (forall i :: 0 <= i < n ==> lines[i].1 in w.arena.grid && w.arena.grid[lines[i].1] == lines[i].0)
      && (forall i, j :: 0 <= i < j < n ==> EarlierSquare(lines[i].1, lines[j].1))
      && (forall i :: n <= i < |lines| ==> !OnBoard(w.arena, lines[i].0))
  {
    var a := w.arena;
    var rows := Rows(a, a.height);
    var flights := AddMotions(a, rows, w.motions);
    n := |rows|;
    RowsOnce(a, a.height);
    RowsInOrder(a, a.height);
    MotionsAdd(a, rows, w.motions);
    JumpsAdd(a, flights, w.jumps);
    var lines := Serialised(w);
    assert rows <= lines;
    forall i | 0 <= i < n ensures lines[i].1 in a.grid && a.grid[lines[i].1] == lines[i].0 {
      assert lines[i] == rows[i];
      RowsAre(a, a.height, rows[i]);
    }
    forall i | n <= i < |lines| ensures !OnBoard(a, lines[i].0) {
      OffBoard(a, rows, lines, i);
    }
  }

  lemma OffBoard(a: Arena, rows: Lines, lines: Lines, i: nat)
    requires BoardSound(a) && rows == Rows(a, a.height) && rows <= lines && NoRepeats(lines) && |rows| <= i < |lines|
    ensures !OnBoard(a, lines[i].0)
  {
    forall k | 0 <= k < |rows| ensures rows[k].0 != lines[i].0 { assert lines[k] == rows[k]; }
    if lines[i].0 in a.pieces { RowsAre(a, a.height, (lines[i].0, a.pieces[lines[i].0].cell)); }
  }

  lemma FlightListed(w: World, m: Motion, rows: Lines, flights: Lines)
    requires Inv(w) && m in w.motions
    requires forall x :: x in rows ==> PieceAt(w.arena, x.1) == Some(x.0)
    requires Lists(flights, m.piece)
    requires forall x :: x in flights && x !in rows ==> exists k :: k in w.motions && x == (k.piece, k.source)
    ensures (m.piece, m.source) in flights
  {
    assert m.piece in Flyers(w.motions);
    var i :| 0 <= i < |flights| && flights[i].0 == m.piece;
    var x := flights[i];
    assert x in flights;
    assert !OnBoard(w.arena, m.piece);
    assert x !in rows;
    var k :| k in w.motions && x == (k.piece, k.source);
    assert k == m;
  }

  /** A listed piece stands on the square it is listed with, or has left it in flight, or has jumped from it. */
  lemma PlacesListed(w: World, x: (Id, Position))
    requires Inv(w) && x in Serialised(w)
    ensures (PieceAt(w.arena, x.1) == Some(x.0) && InBounds(w.arena, x.1))
      || (exists m :: m in w.motions && x == (m.piece, m.source)) || (exists j :: j in w.jumps && x == (j.piece, j.pos))
  {
    var a := w.arena;
    var rows := Rows(a, a.height);
    RowsOnce(a, a.height);
    RowsAre(a, a.height, x);
    MotionsAdd(a, rows, w.motions);
    JumpsAdd(a, AddMotions(a, rows, w.motions), w.jumps);
  }
}
