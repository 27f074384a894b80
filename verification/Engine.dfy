/** The engine object, whose methods are the steps of the state machine. */
module Engine {
  import opened Arbiter
  import opened Chess
  import opened Game
  import Mirror
  import opened Pieces
  import opened Wrappers

  /** Every piece is idle on its own square, and every piece on the board knows where it stands. */
  ghost predicate SetUp(board: Board, roster: Roster)
    requires board.Valid(roster)
    reads board, board.grid, roster.Values
  {
    && (forall p :: p in roster.Values ==> p.status.Idle? && board.GetPieceAt(p.cell) == p)
    && (forall pos :: board.GetPieceAt(pos) != null ==> board.GetPieceAt(pos).cell == pos)
  }

  class GameEngine {
    const state: GameState
    const arbiter: RealTimeArbiter

    ghost predicate Valid()
      reads this, state, arbiter, state.board, state.board.grid
    {
      state.board.Valid(arbiter.roster) && arbiter.Valid()
    }

    ghost function View(): World
      requires state.board.Valid(arbiter.roster)
      reads this, state, arbiter, state.board, state.board.grid, arbiter.roster.Values
    {
      arbiter.View(state)
    }

    /** A fresh engine on a board whose pieces are all idle and know where they stand. */
    constructor (board: Board, roster: Roster)
      requires board.Valid(roster) && SetUp(board, roster)
      ensures Valid() && arbiter.roster == roster && state.board == board && fresh(state) && fresh(arbiter)
      ensures Initial(View())
    {
      ghost var a := Arena(board.width, board.height, Bodies(roster), board.Squares(), [], false, 0, 0);
      var score := new GameState(board, roster, a);
      assert SetUp(board, roster) && Shows(board, roster, a);
      state := score;
      arbiter := new RealTimeArbiter(roster);
      assert SetUp(board, roster) && Shows(board, roster, a);
      new;
      Starts(a);
    }

    lemma Starts(a: Arena)
      requires SetUpFor(a) && arbiter.activeMotions == [] && arbiter.activeJumps == [] && arbiter.activeCooldowns == []
      requires !state.gameOver && state.whiteScore == 0 && state.blackScore == 0
      requires a.cooldowns == [] && !a.gameOver && a.whiteScore == 0 && a.blackScore == 0
      requires state.initialWhiteKings == |KingSquares(a, White, state.board.height, 0)|
      requires state.initialBlackKings == |KingSquares(a, Black, state.board.height, 0)|
      ensures Initial(View())
    {
      assert View().arena == a;
      StartsInitial(state.board, arbiter.roster, View());
    }

    /** `a` is what a board shows on which the game can begin. */
    ghost predicate SetUpFor(a: Arena)
      reads state.board, state.board.grid, arbiter.roster.Values
    {
      Shows(state.board, arbiter.roster, a) && SetUp(state.board, arbiter.roster)
    }

    static lemma StartsInitial(board: Board, roster: Roster, w: World)
      requires Shows(board, roster, w.arena) && SetUp(board, roster)
      requires w.motions == [] && w.jumps == [] && w.arena.cooldowns == []
      requires !w.arena.gameOver && w.arena.whiteScore == 0 && w.arena.blackScore == 0
      requires w.whiteKings == |KingSquares(w.arena, White, board.height, 0)|
      requires w.blackKings == |KingSquares(w.arena, Black, board.height, 0)|
      ensures Initial(w)
    {
      var a := w.arena;
      forall x | x in a.pieces
        ensures a.pieces[x].status.Idle? && a.pieces[x].cell in a.grid && a.grid[a.pieces[x].cell] == x
      {
        var p := roster[x];
        assert p in roster.Values;
        Seen(board, roster, a, p.cell);
      }
      forall pos | pos in a.grid
        ensures InBounds(a, pos) && a.grid[pos] in a.pieces && a.pieces[a.grid[pos]].cell == pos
      {
        Seen(board, roster, a, pos);
      }
      KingsOnBoard(board, roster, a, White);
      KingsOnBoard(board, roster, a, Black);
      KingsStand(a, White);
      KingsStand(a, Black);
    }

    /** When every piece stands on the board, looking for a king among the pieces or on the squares is the same. */
    static lemma KingsStand(a: Arena, color: Color)
      requires forall x :: x in a.pieces ==> a.pieces[x].cell in a.grid && a.grid[a.pieces[x].cell] == x
      ensures (exists p :: IsKing(a, p, color)) <==> (exists pos :: pos in a.grid && IsKing(a, a.grid[pos], color))
    {
      if p :| IsKing(a, p, color) { assert a.grid[a.pieces[p].cell] == p; }
    }

    /** The grid of an engine has only squares of its board, so its runs have mirror images. */
    lemma ViewBounded()
      requires Valid()
      ensures Mirror.Bounded(View().arena)
    {
    }

    /** The checks a move request goes through; a piece comes out exactly when the move is accepted. */
    method Admit(src: Position, dest: Position) returns (piece: Piece?)
      requires Valid()
      ensures piece != null <==> MoveAccepted(View(), src, dest)
      ensures piece != null ==> Known(arbiter.roster, piece) && PieceAt(View().arena, src) == Some(piece.id)
    {
      if state.gameOver {
        return null;
      }
      var board := state.board;
      ghost var a := arbiter.ArenaOf(state);
      Seen(board, arbiter.roster, a, src);
      piece := board.GetPieceAt(src);
      if piece == null {
        return null;
      }
      var moving := arbiter.IsPieceMoving(piece);
      var resting := arbiter.IsPieceCoolingDown(piece);
      if moving || resting {
        return null;
      }
      var valid := ValidateMove(board, src, dest, arbiter.roster, a);
      if !valid {
        return null;
      }
    }

    method RequestMove(src: Position, dest: Position)
      requires Valid()
      modifies arbiter, arbiter.roster.Values, state.board.grid
      ensures Valid()
      ensures View() == Game.RequestMove(old(View()), src, dest)
    {
      var piece := Admit(src, dest);
      if piece != null {
        var dist := Distance(src, dest);
        arbiter.StartMotion(piece, src, dest, dist * BASE_MOVE_TIME_MS, state.board, state);
      }
    }

    method RequestJump(pos: Position)
      requires Valid()
      modifies arbiter, arbiter.roster.Values
      ensures Valid()
      ensures View() == Game.RequestJump(old(View()), pos)
    {
      if state.gameOver {
        return;
      }
      Seen(state.board, arbiter.roster, arbiter.ArenaOf(state), pos);
      var piece := state.board.GetPieceAt(pos);
      if piece == null {
        return;
      }
      var moving := arbiter.IsPieceMoving(piece);
      var resting := arbiter.IsPieceCoolingDown(piece);
      if moving || resting {
        return;
      }
      arbiter.StartJump(piece, pos, JUMP_TIME_MS, state);
    }

    method CheckGameStatus()
      requires Valid()
      modifies state`gameOver
      ensures Valid()
      ensures View() == CheckStatus(old(View()))
    {
      if state.gameOver {
        return;
      }
      ghost var w := View();
      var white, black := arbiter.CountInPlay(state.board, w);
      var whiteLost := state.initialWhiteKings > 0 && white == 0;
      var blackLost := state.initialBlackKings > 0 && black == 0;
      if whiteLost || blackLost {
        EndGame();
      }
    }

    method EndGame()
      requires Valid()
      modifies state`gameOver
      ensures Valid()
      ensures View() == old(View()).(arena := old(View()).arena.(gameOver := true))
    {
      state.gameOver := true;
    }

    /** `order` is the order in which the update resolved what ended within it. */
    method Update(ms: nat) returns (ghost order: seq<Event>)
      requires Valid()
      modifies arbiter, arbiter.roster.Values, state.board.grid, state`gameOver, state`whiteScore, state`blackScore
      ensures Valid()
      ensures ValidOrder(old(View()), ms, order)
      ensures View() == Game.Update(old(View()), ms, order)
    {
      order := arbiter.AdvanceTime(ms, state.board, state);
      CheckGameStatus();
    }
  }
}
