/** The vocabulary of the board: pieces, squares, and the records the engine keeps about them. */
module Chess {
  import opened Wrappers

  /** The `id` field of a piece.  An id with no piece behind it stands for a null `shared_ptr`. */
  type Id = string

  datatype Color = White | Black

  datatype Kind = King | Queen | Rook | Bishop | Knight | Pawn

  datatype Status = Idle | Moving | Captured

  datatype Position = Position(row: int, col: int)

  /** What a piece object holds besides its id. */
  datatype Body = Body(color: Color, kind: Kind, cell: Position, status: Status)

  datatype Motion = Motion(piece: Id, source: Position, dest: Position,
                           remaining: int, total: int, victim: Option<Id>)

  datatype Jump = Jump(piece: Id, pos: Position, remaining: int, total: int)

  datatype Cooldown = Cooldown(piece: Id, remaining: int, total: int, longRest: bool)

  const BASE_MOVE_TIME_MS := 500
  const JUMP_TIME_MS := 1000
  const REST_MS := 3000

  function Opponent(c: Color): Color {
    if c.White? then Black else White
  }

  function Value(kind: Kind): nat {
    match kind
    case Pawn => 1
    case Knight => 3
    case Bishop => 3
    case Rook => 5
    case Queen => 9
    case King => 10
  }

  function Abs(x: int): nat {
    if x < 0 then -x else x
  }

  function Max(x: int, y: int): int {
    if x < y then y else x
  }

  /** Chebyshev distance: how many king steps apart two squares are. */
  function Distance(src: Position, dest: Position): nat {
    Max(Abs(dest.row - src.row), Abs(dest.col - src.col))
  }
}
