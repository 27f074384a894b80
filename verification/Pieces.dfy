/** The piece and board objects, and the rule checks that read them. */
module Pieces {
  import opened Chess
  import opened Game
  import Rays
  import opened Wrappers

  class Piece {
    const id: Id
    const color: Color
    var kind: Kind
    var cell: Position
    var status: Status

    constructor (id: Id, color: Color, kind: Kind, cell: Position)
      ensures this.id == id && Record() == Body(color, kind, cell, Idle)
    {
      this.id, this.color, this.kind, this.cell := id, color, kind, cell;
      status := Idle;
    }

    ghost function Record(): Body
      reads this
    {
      Body(color, kind, cell, status)
    }
  }

  /** All the pieces of one game by id; the ids are unique. */
  type Roster = map<Id, Piece>

  ghost predicate Known(roster: Roster, p: Piece) {
    p.id in roster && roster[p.id] == p
  }

  ghost predicate Unique(roster: Roster) {
    forall x :: x in roster ==> roster[x].id == x
  }

  /** What the records of all pieces say. */
  ghost function Bodies(roster: Roster): map<Id, Body>
    reads roster.Values
  {
    map x | x in roster :: roster[x].Record()
  }

  function IdOf(p: Piece?): Option<Id> {
    if p == null then None else Some(p.id)
  }

  function AllSquares(width: nat, height: nat): set<Position> {
    set r, c | 0 <= r < height && 0 <= c < width :: Position(r, c)
  }

  class Board {
    const width: nat
    const height: nat
    const grid: array<Piece?>

    ghost predicate Valid(roster: Roster)
      reads this, grid
    {
      && grid.Length == width * height
      && Unique(roster)
      && (forall i :: 0 <= i < grid.Length && grid[i] != null ==> Known(roster, grid[i]))
    }

    constructor (width: nat, height: nat)
      ensures this.width == width && this.height == height && fresh(grid)
      ensures grid.Length == width * height && forall i :: 0 <= i < grid.Length ==> grid[i] == null
    {
      this.width, this.height := width, height;
      grid := new Piece?[width * height](_ => null);
    }

    predicate InBounds(pos: Position) {
      0 <= pos.row < height && 0 <= pos.col < width
    }

    /** Where the flat grid keeps the square `pos`. */
    function Index(pos: Position): (i: nat)
      requires InBounds(pos)
      ensures i < width * height
    {
      InRange(pos.row, pos.col, width, height);
      pos.row * width + pos.col
    }

    function GetPieceAt(pos: Position): Piece?
      requires grid.Length == width * height
      reads this, grid
    {
      if InBounds(pos) then grid[Index(pos)] else null
    }

    /** The occupied squares. */
    ghost function Squares(): map<Position, Id>
      requires grid.Length == width * height
      reads this, grid
    {
      map pos | pos in AllSquares(width, height) && GetPieceAt(pos) != null :: GetPieceAt(pos).id
    }

    /** Refused, silently for callers that ignore the result, when the cell is off the board or taken. */
    method AddPiece(piece: Piece, ghost roster: Roster) returns (ok: bool)
      requires Valid(roster) && Known(roster, piece)
      modifies grid
      ensures Valid(roster)
      ensures ok == (0 <= piece.cell.row < height && 0 <= piece.cell.col < width && piece.cell !in old(Squares()))
      ensures Squares() == if ok then old(Squares())[piece.cell := piece.id] else old(Squares())
    {
      if !InBounds(piece.cell) || grid[Index(piece.cell)] != null {
        return false;
      }
      Put(piece.cell, piece, roster);
      return true;
    }

    /** Writes one square of the grid. */
    method Put(pos: Position, piece: Piece?, ghost roster: Roster)
      requires Valid(roster) && InBounds(pos) && (piece != null ==> Known(roster, piece))
      modifies grid
      ensures Valid(roster)
      ensures Squares() == if piece == null then old(Squares()) - {pos} else old(Squares())[pos := piece.id]
    {
      grid[Index(pos)] := piece;
      forall q | InBounds(q) && q != pos ensures grid[Index(q)] == old(grid[Index(q)]) {
        DistinctSquares(pos, q, width);
      }
    }

    method ClearCell(pos: Position, ghost roster: Roster)
      requires Valid(roster)
      modifies grid
      ensures Valid(roster)
      ensures Squares() == old(Squares()) - {pos}
    {
      if InBounds(pos) {
        Put(pos, null, roster);
      }
    }

    /** Takes the piece off `pos` and marks it captured. */
    method RemovePiece(pos: Position, ghost roster: Roster)
      requires Valid(roster)
      modifies grid, roster.Values
      ensures Valid(roster)
      ensures Squares() == old(Squares()) - {pos}
      ensures Bodies(roster) == match IdOf(old(GetPieceAt(pos)))
                                case None => old(Bodies(roster))
                                case Some(q) => old(Bodies(roster))[q := old(Bodies(roster)[q]).(status := Captured)]
    {
      if InBounds(pos) {
        var standing := grid[Index(pos)];
        if standing != null {
          SetStatus(standing, Captured, roster);
        }
        Put(pos, null, roster);
      }
    }
  }

  lemma InRange(r: int, c: int, width: nat, height: nat)
    requires 0 <= r < height && 0 <= c < width
    ensures 0 <= r * width + c < width * height
  {
    assert r * width <= (height - 1) * width;
  }

  lemma DistinctSquares(p: Position, q: Position, width: nat)
    requires 0 <= p.col < width && 0 <= q.col < width && p != q
    ensures p.row * width + p.col != q.row * width + q.col
  {
    if p.row < q.row {
      assert (p.row + 1) * width <= q.row * width;
    } else if q.row < p.row {
      assert (q.row + 1) * width <= p.row * width;
    }
  }

  method SetStatus(piece: Piece, status: Status, ghost roster: Roster)
    requires Unique(roster) && Known(roster, piece)
    modifies piece`status
    ensures piece.status == status
    ensures Bodies(roster) == old(Bodies(roster))[piece.id := old(piece.Record()).(status := status)]
  {
    piece.status := status;
  }

  method SetCell(piece: Piece, cell: Position, ghost roster: Roster)
    requires Unique(roster) && Known(roster, piece)
    modifies piece`cell
    ensures piece.cell == cell
    ensures Bodies(roster) == old(Bodies(roster))[piece.id := old(piece.Record()).(cell := cell)]
  {
    piece.cell := cell;
  }

  method SetKind(piece: Piece, kind: Kind, ghost roster: Roster)
    requires Unique(roster) && Known(roster, piece)
    modifies piece`kind
    ensures piece.kind == kind
    ensures Bodies(roster) == old(Bodies(roster))[piece.id := old(piece.Record()).(kind := kind)]
  {
    piece.kind := kind;
  }

  // ---------- the rules, on the board object ----------

  /** `a` is what `board` and the pieces of `roster` currently hold. */
  ghost predicate Shows(board: Board, roster: Roster, a: Arena)
    reads board, board.grid, roster.Values
  {
    && board.Valid(roster)
    && a.width == board.width && a.height == board.height
    && a.pieces == Bodies(roster) && a.grid == board.Squares()
  }

  lemma Seen(board: Board, roster: Roster, a: Arena, pos: Position)
    requires Shows(board, roster, a)
    ensures PieceAt(a, pos) == IdOf(board.GetPieceAt(pos))
    ensures board.GetPieceAt(pos) != null ==>
      var p := board.GetPieceAt(pos); Known(roster, p) && a.pieces[p.id] == p.Record()
  {
    if board.GetPieceAt(pos) != null {
      assert pos in AllSquares(board.width, board.height);
    }
  }

  function Sign(d: int): int {
    if d == 0 then 0 else if d > 0 then 1 else -1
  }

  /**
   Walks the ray from `src` to `dest`.  The walk ends only because the squares are aligned, which the
   geometry check has established for every piece but the knight, and knights return at once.
   */
  method IsPathClear(board: Board, src: Position, dest: Position, ghost roster: Roster,
                     ghost a: Arena) returns (clear: bool)
    requires Shows(board, roster, a)
    requires Rays.Aligned(src, dest) || (board.GetPieceAt(src) != null && board.GetPieceAt(src).kind.Knight?)
    ensures clear <==>
      (board.GetPieceAt(src) != null && board.GetPieceAt(src).kind.Knight?) || PathClear(a, src, dest)
  {
    var piece := board.GetPieceAt(src);
    if piece != null && piece.kind.Knight? {
      return true;
    }
    var stepRow, stepCol := Sign(dest.row - src.row), Sign(dest.col - src.col);
    var curr := Position(src.row + stepRow, src.col + stepCol);
    ghost var k := 1;
    while curr != dest
      invariant src == dest ==> curr == dest
      invariant src != dest ==> 1 <= k <= Distance(src, dest) && curr == Along(src, dest, k)
      invariant src != dest ==> forall i :: 1 <= i < k ==> PieceAt(a, Along(src, dest, i)).None?
      decreases Distance(src, dest) - k
    {
      Rays.WalkEnds(src, dest, k);
      Seen(board, roster, a, curr);
      if board.GetPieceAt(curr) != null {
        return false;
      }
      curr := Position(curr.row + stepRow, curr.col + stepCol);
      k := k + 1;
    }
    if src != dest {
      Rays.WalkEnds(src, dest, k);
    }
    return true;
  }

  method ValidateMove(board: Board, src: Position, dest: Position, ghost roster: Roster,
                      ghost a: Arena) returns (ok: bool)
    requires Shows(board, roster, a)
    ensures ok <==> ValidMove(a, src, dest)
  {
    Seen(board, roster, a, src);
    Seen(board, roster, a, dest);
    var piece := board.GetPieceAt(src);
    if piece == null {
      return false;
    }
    var target := board.GetPieceAt(dest);
    if target != null && target.color == piece.color {
      return false;
    }
    if !Geometry(board.height, piece.kind, piece.color, src, dest, target != null) {
      return false;
    }
    if !piece.kind.Knight? {
      Rays.GeometryAligned(board.height, piece.kind, piece.color, src, dest, target != null);
    }
    ok := IsPathClear(board, src, dest, roster, a);
  }
}
