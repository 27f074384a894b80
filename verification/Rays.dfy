/** What the ray walked by the path check is, and when the walk ends. */
module Rays {
  import opened Chess
  import opened Game

  /** `dest` lies on a row, column or diagonal through `src`. */
  predicate Aligned(src: Position, dest: Position) {
    dest.row == src.row || dest.col == src.col || Abs(dest.row - src.row) == Abs(dest.col - src.col)
  }

  predicate InBox(src: Position, dest: Position, q: Position) {
    && (src.row <= q.row <= dest.row || dest.row <= q.row <= src.row)
    && (src.col <= q.col <= dest.col || dest.col <= q.col <= src.col)
  }

  /** `q` lies on the straight segment from `src` to `dest`, ends excluded. */
  predicate Between(src: Position, dest: Position, q: Position) {
    && q != src && q != dest && InBox(src, dest, q)
    && (q.row - src.row) * (dest.col - src.col) == (q.col - src.col) * (dest.row - src.row)
  }

  /** Every geometry but the knight's is aligned. */
  lemma GeometryAligned(height: int, kind: Kind, color: Color, src: Position, dest: Position, capturing: bool)
    requires Geometry(height, kind, color, src, dest, capturing) && !kind.Knight?
    ensures Aligned(src, dest)
  {
  }

  /** The walk from `src` meets `dest` exactly when the two are aligned, and then first after `Distance` steps. */
  lemma WalkEnds(src: Position, dest: Position, k: int)
    requires k >= 1
    ensures Along(src, dest, k) == dest ==> Aligned(src, dest)
    ensures Aligned(src, dest) && src != dest ==> (Along(src, dest, k) == dest <==> k == Distance(src, dest))
  {
  }

  /** A step of the walk is strictly between the ends; nothing else is. */
  lemma RayIsBetween(src: Position, dest: Position, q: Position)
    requires Aligned(src, dest)
    ensures Between(src, dest, q) <==> exists k :: 1 <= k < Distance(src, dest) && Along(src, dest, k) == q
  {
    var n := Distance(src, dest);
    if k :| 1 <= k < n && Along(src, dest, k) == q {
      StepBetween(src, dest, k);
    }
    if Between(src, dest, q) {
      var k := Distance(src, q);
      BetweenStep(src, dest, q);
      assert 1 <= k < n && Along(src, dest, k) == q;
    }
  }

  lemma StepBetween(src: Position, dest: Position, k: int)
    requires Aligned(src, dest) && 1 <= k < Distance(src, dest)
    ensures Between(src, dest, Along(src, dest, k))
  {
    var q := Along(src, dest, k);
    var x, y := dest.row - src.row, dest.col - src.col;
    if x == 0 || y == 0 {
    } else if x == y {
      assert q.row - src.row == q.col - src.col;
    } else {
      assert x == -y && q.row - src.row == -(q.col - src.col);
      Opposite(q.col - src.col, y);
    }
  }

  lemma Opposite(u: int, y: int)
    ensures (-u) * y == u * (-y)
  {
  }

  lemma BetweenStep(src: Position, dest: Position, q: Position)
    requires Aligned(src, dest) && Between(src, dest, q)
    ensures 1 <= Distance(src, q) < Distance(src, dest) && Along(src, dest, Distance(src, q)) == q
  {
    var x, y := dest.row - src.row, dest.col - src.col;
    var u, v := q.row - src.row, q.col - src.col;
    if x == 0 {
      assert u == 0;
    } else if y == 0 {
      assert v == 0;
    } else if x == y {
      Cancel(u, v, x);
    } else {
      assert x == -y;
      Opposite(v, y);
      Cancel(u, -v, y);
    }
  }

  lemma Cancel(u: int, v: int, x: int)
    requires u * x == v * x && x != 0
    ensures u == v
  {
    assert (u - v) * x == 0;
  }

  // ---------- the squares a piece may go to ----------

  predicate KingStep(x: Position, y: Position) {
    y in {Position(x.row - 1, x.col - 1), Position(x.row - 1, x.col), Position(x.row - 1, x.col + 1),
          Position(x.row, x.col - 1), Position(x.row, x.col + 1),
          Position(x.row + 1, x.col - 1), Position(x.row + 1, x.col), Position(x.row + 1, x.col + 1)}
  }

  predicate KnightStep(x: Position, y: Position) {
    y in {Position(x.row - 2, x.col - 1), Position(x.row - 2, x.col + 1),
          Position(x.row - 1, x.col - 2), Position(x.row - 1, x.col + 2),
          Position(x.row + 1, x.col - 2), Position(x.row + 1, x.col + 2),
          Position(x.row + 2, x.col - 1), Position(x.row + 2, x.col + 1)}
  }

  /** `y` is `n` squares from `x` along its row or column. */
  predicate Straight(x: Position, y: Position, n: int) {
    y in {Position(x.row - n, x.col), Position(x.row + n, x.col),
          Position(x.row, x.col - n), Position(x.row, x.col + n)}
  }

  /** `y` is `n` squares from `x` along one of its diagonals. */
  predicate Slanted(x: Position, y: Position, n: int) {
    y in {Position(x.row - n, x.col - n), Position(x.row - n, x.col + n),
          Position(x.row + n, x.col - n), Position(x.row + n, x.col + n)}
  }

  /** A pawn takes one row ahead to either side; else it steps ahead, or two rows from the row it starts on. */
  predicate PawnStep(height: int, color: Color, x: Position, y: Position, capturing: bool) {
    match (color, capturing)
    case (White, true) => y in {Position(x.row - 1, x.col - 1), Position(x.row - 1, x.col + 1)}
    case (Black, true) => y in {Position(x.row + 1, x.col - 1), Position(x.row + 1, x.col + 1)}
    case (White, false) => y == Position(x.row - 1, x.col) || (x.row == height - 2 && y == Position(x.row - 2, x.col))
    case (Black, false) => y == Position(x.row + 1, x.col) || (x.row == 1 && y == Position(x.row + 2, x.col))
  }

  /** Where a piece of this kind may go from `x` as far as only the shape of the move matters. */
  ghost predicate Reaches(height: int, kind: Kind, color: Color, x: Position, y: Position, capturing: bool) {
    match kind
    case King => KingStep(x, y)
    case Queen => exists n :: n >= 1 && (Straight(x, y, n) || Slanted(x, y, n))
    case Rook => exists n :: n >= 1 && Straight(x, y, n)
    case Bishop => exists n :: n >= 1 && Slanted(x, y, n)
    case Knight => KnightStep(x, y)
    case Pawn => PawnStep(height, color, x, y, capturing)
  }

  /** The shapes are these squares, and for all but knight and pawn the square the piece stands on. */
  lemma ShapesAreSquares(height: int, kind: Kind, color: Color, src: Position, dest: Position, capturing: bool)
    requires src != dest
    ensures Geometry(height, kind, color, src, dest, capturing) <==> Reaches(height, kind, color, src, dest, capturing)
  {
    var n := Distance(src, dest);
    assert dest == Position(dest.row, dest.col);
    StraightSquares(src, dest);
    SlantedSquares(src, dest);
  }

  lemma StraightSquares(src: Position, dest: Position)
    requires src != dest
    ensures dest.row == src.row || dest.col == src.col <==> Straight(src, dest, Distance(src, dest))
    ensures forall n :: n >= 1 && Straight(src, dest, n) ==> n == Distance(src, dest)
  {
    assert dest == Position(dest.row, dest.col);
  }

  lemma SlantedSquares(src: Position, dest: Position)
    requires src != dest
    ensures Abs(dest.row - src.row) == Abs(dest.col - src.col) <==> Slanted(src, dest, Distance(src, dest))
    ensures forall n :: n >= 1 && Slanted(src, dest, n) ==> n == Distance(src, dest)
  {
    assert dest == Position(dest.row, dest.col);
  }

  /**
   A move is accepted exactly when there is a piece to move, its target is not its own side's, the target is one of the
   squares the piece may go to, and unless it is a knight no piece stands strictly between the two squares.
   */
  lemma ValidMoveMeaning(a: Arena, src: Position, dest: Position)
    ensures ValidMove(a, src, dest) <==>
      && PieceAt(a, src).Some?
      && var b := a.pieces[PieceAt(a, src).value];
      var target := PieceAt(a, dest);
      && (target.Some? ==> a.pieces[target.value].color != b.color)
      && Reaches(a.height, b.kind, b.color, src, dest, target.Some?)
      && (b.kind.Knight? || forall q :: Between(src, dest, q) ==> PieceAt(a, q).None?)
  {
    if PieceAt(a, src).Some? && src != dest {
      var b, target := a.pieces[PieceAt(a, src).value], PieceAt(a, dest);
      ShapesAreSquares(a.height, b.kind, b.color, src, dest, target.Some?);
      if Geometry(a.height, b.kind, b.color, src, dest, target.Some?) && !b.kind.Knight? {
        GeometryAligned(a.height, b.kind, b.color, src, dest, target.Some?);
        PathClearMeaning(a, src, dest);
      }
    }
  }

  /** A piece alone on the board may go to exactly these squares. */
  lemma LonePiece(a: Arena, src: Position, dest: Position)
    requires PieceAt(a, src).Some? && forall q :: q != src ==> PieceAt(a, q).None?
    ensures var b := a.pieces[PieceAt(a, src).value];
      ValidMove(a, src, dest) <==> Reaches(a.height, b.kind, b.color, src, dest, false)
  {
    ValidMoveMeaning(a, src, dest);
    NeverToItself(a.height, a.pieces[PieceAt(a, src).value], src);
    assert forall q :: Between(src, dest, q) ==> q != src;
  }

  lemma NeverToItself(height: int, b: Body, x: Position)
    ensures !Reaches(height, b.kind, b.color, x, x, false)
  {
  }

  lemma PathClearMeaning(a: Arena, src: Position, dest: Position)
    requires Aligned(src, dest)
    ensures PathClear(a, src, dest) <==> forall q :: Between(src, dest, q) ==> PieceAt(a, q).None?
  {
    if PathClear(a, src, dest) {
      forall q | Between(src, dest, q) ensures PieceAt(a, q).None? { RayIsBetween(src, dest, q); }
    }
    if forall q :: Between(src, dest, q) ==> PieceAt(a, q).None? {
      forall k | 1 <= k < Distance(src, dest) ensures PieceAt(a, Along(src, dest, k)).None? {
        StepBetween(src, dest, k);
      }
    }
  }
}
