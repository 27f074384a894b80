/**
 A run that strands a rook.  Three white rooks stand on a board of two rows and three columns: one flies along the upper
 row, the second follows it home, and the third reaches its goal first.  The worlds it passes through are written out,
 and each step of the run is shown to lead from one to the next.
 */
module StrandedRook {
  import opened Chess
  import opened Conservation
  import opened Effects
  import opened Game
  import opened Stranding
  import opened Wrappers

  /** Three white rooks: "r" flies from `HOME` to `GOAL`, "a" follows it home, "b" is there first. */
  const HOME := Position(0, 0)
  const GOAL := Position(0, 2)
  const BELOW_HOME := Position(1, 0)
  const BELOW_GOAL := Position(1, 2)

  function Rook(cell: Position, status: Status): Body {
    Body(White, Kind.Rook, cell, status)
  }

  function Board(r: Body, a: Body, b: Body, grid: map<Position, Id>, cooldowns: seq<Cooldown>): Arena {
    Arena(3, 2, map["r" := r, "a" := a, "b" := b], grid, cooldowns, false, 0, 0)
  }

  function Start(): World {
    World(Board(Rook(HOME, Idle), Rook(BELOW_HOME, Idle), Rook(BELOW_GOAL, Idle),
                map[HOME := "r", BELOW_HOME := "a", BELOW_GOAL := "b"], []), [], [], 0, 0)
  }

  const FLIGHT_R := Motion("r", HOME, GOAL, 1000, 1000, None)
  const FLIGHT_A := Motion("a", BELOW_HOME, HOME, 500, 500, None)
  const FLIGHT_B := Motion("b", BELOW_GOAL, GOAL, 500, 500, None)

  function Order(): seq<Event> {
    [Arrival(FLIGHT_A), Arrival(FLIGHT_B), Arrival(FLIGHT_R)]
  }

  function Ops(): seq<Op> {
    [Move(HOME, GOAL), Move(BELOW_HOME, HOME), Move(BELOW_GOAL, GOAL), Wait(1000, Order())]
  }

  // ---------- the requests ----------

  function First(): World {
    World(Board(Rook(HOME, Moving), Rook(BELOW_HOME, Idle), Rook(BELOW_GOAL, Idle),
                map[BELOW_HOME := "a", BELOW_GOAL := "b"], []), [FLIGHT_R], [], 0, 0)
  }

  function Second(): World {
    World(Board(Rook(HOME, Moving), Rook(BELOW_HOME, Moving), Rook(BELOW_GOAL, Idle), map[BELOW_GOAL := "b"], []),
          [FLIGHT_R, FLIGHT_A], [], 0, 0)
  }

  function Third(): World {
    World(Board(Rook(HOME, Moving), Rook(BELOW_HOME, Moving), Rook(BELOW_GOAL, Moving), map[], []),
          [FLIGHT_R, FLIGHT_A, FLIGHT_B], [], 0, 0)
  }

  lemma FirstAccepted()
    ensures MoveAccepted(Start(), HOME, GOAL)
  {
    var w := Start();
    assert PieceAt(w.arena, HOME) == Some("r") && PieceAt(w.arena, GOAL) == None;
    assert Distance(HOME, GOAL) == 2;
    forall k | 1 <= k < 2 ensures PieceAt(w.arena, Along(HOME, GOAL, k)).None? {
      assert Along(HOME, GOAL, k) == Position(0, 1);
    }
  }

  lemma FirstMove()
    ensures Step(Start(), Ops()[0]) == First()
  {
    var w := Start();
    FirstAccepted();
    assert PieceAt(w.arena, HOME) == Some("r") && Distance(HOME, GOAL) == 2;
    assert PieceAt(w.arena, GOAL) == None;
    var r := RequestMove(w, HOME, GOAL);
    assert r.arena.grid == First().arena.grid && r.arena.pieces == First().arena.pieces;
  }

  lemma SecondMove()
    ensures Step(First(), Ops()[1]) == Second()
  {
    var w := First();
    assert PieceAt(w.arena, BELOW_HOME) == Some("a") && PieceAt(w.arena, HOME) == None;
    assert Distance(BELOW_HOME, HOME) == 1;
    assert "a" !in Flyers(w.motions);
    assert MoveAccepted(w, BELOW_HOME, HOME);
    var r := RequestMove(w, BELOW_HOME, HOME);
    assert r.arena.grid == Second().arena.grid && r.arena.pieces == Second().arena.pieces;
  }

  lemma ThirdMove()
    ensures Step(Second(), Ops()[2]) == Third()
  {
    var w := Second();
    assert PieceAt(w.arena, BELOW_GOAL) == Some("b") && PieceAt(w.arena, GOAL) == None;
    assert Distance(BELOW_GOAL, GOAL) == 1;
    assert "b" !in Flyers(w.motions);
    assert MoveAccepted(w, BELOW_GOAL, GOAL);
    var r := RequestMove(w, BELOW_GOAL, GOAL);
    assert r.arena.grid == Third().arena.grid && r.arena.pieces == Third().arena.pieces;
  }

  // ---------- the update ----------

  function RestA(): seq<Cooldown> {
    [RestFor("a", false)]
  }

  function RestB(): seq<Cooldown> {
    [RestFor("a", false), RestFor("b", false)]
  }

  function RestR(): seq<Cooldown> {
    [RestFor("a", false), RestFor("b", false), RestFor("r", false)]
  }

  function AfterA(): Arena {
    Board(Rook(HOME, Moving), Rook(HOME, Idle), Rook(BELOW_GOAL, Moving), map[HOME := "a"], RestA())
  }

  function AfterB(): Arena {
    Board(Rook(HOME, Moving), Rook(HOME, Idle), Rook(GOAL, Idle), map[HOME := "a", GOAL := "b"], RestB())
  }

  function AfterR(): Arena {
    Board(Rook(HOME, Idle), Rook(HOME, Idle), Rook(GOAL, Idle), map[HOME := "a", GOAL := "b"], RestR())
  }

  lemma ALands(pending: set<Id>)
    ensures Resolve(Third().arena, [], Arrival(FLIGHT_A), pending) == AfterA()
  {
    SettleForm(Third().arena, "a", HOME);
    var r := Resolve(Third().arena, [], Arrival(FLIGHT_A), pending);
    assert r.pieces == AfterA().pieces && r.grid == AfterA().grid && r.cooldowns == AfterA().cooldowns;
  }

  lemma BLands(pending: set<Id>)
    ensures Resolve(AfterA(), [], Arrival(FLIGHT_B), pending) == AfterB()
  {
    SettleForm(AfterA(), "b", GOAL);
    var r := Resolve(AfterA(), [], Arrival(FLIGHT_B), pending);
    assert r.pieces == AfterB().pieces && r.grid == AfterB().grid && r.cooldowns == AfterB().cooldowns;
  }

  lemma RBounces(pending: set<Id>)
    requires "b" !in pending
    ensures Resolve(AfterB(), [], Arrival(FLIGHT_R), pending) == AfterR()
  {
    PutDownForm(AfterB(), "r", HOME);
    var r := Resolve(AfterB(), [], Arrival(FLIGHT_R), pending);
    assert Judge(AfterB(), [], FLIGHT_R, pending).Bounce?;
    assert r.pieces == AfterR().pieces && r.grid == AfterR().grid && r.cooldowns == AfterR().cooldowns;
  }

  lemma TickPlays(aloft: set<Id>)
    requires aloft == {}
    ensures Play(Third().arena, [], aloft, Order()) == AfterR()
  {
    var two, one := Order()[1..], Order()[2..];
    assert two == [Arrival(FLIGHT_B), Arrival(FLIGHT_R)] && two[1..] == one == [Arrival(FLIGHT_R)] && one[1..] == [];
    ALands(aloft + Movers(two));
    BLands(aloft + Movers(one));
    assert Movers([]) == {};
    RBounces(aloft + Movers([]));
    assert Play(AfterB(), [], aloft, one) == AfterR();
    assert Play(AfterA(), [], aloft, two) == AfterR();
  }

  lemma OrderFits()
    ensures ValidOrder(Third(), 1000, Order())
  {
    var w := Third();
    var motions := w.motions;
    assert motions[1..] == [FLIGHT_A, FLIGHT_B] && motions[2..] == [FLIGHT_B] && motions[3..] == [];
    assert DueMotions([FLIGHT_B], 1000) == [Arrival(FLIGHT_B)];
    assert DueMotions([FLIGHT_A, FLIGHT_B], 1000) == [Arrival(FLIGHT_A), Arrival(FLIGHT_B)] by {
      assert [FLIGHT_A, FLIGHT_B][1..] == [FLIGHT_B];
    }
    assert DueMotions(motions, 1000) == [Arrival(FLIGHT_R), Arrival(FLIGHT_A), Arrival(FLIGHT_B)];
    assert DueJumps(w.jumps, 1000) == [];
  }

  lemma NothingLeft()
    ensures MotionsAfter(Third().motions, 1000) == [] && Aloft(Third().motions, 1000) == {}
  {
    assert Third().motions[1..] == [FLIGHT_A, FLIGHT_B] && [FLIGHT_A, FLIGHT_B][1..] == [FLIGHT_B];
    assert MotionsAfter([FLIGHT_B], 1000) == [];
    assert MotionsAfter([FLIGHT_A, FLIGHT_B], 1000) == [];
  }

  lemma LastUpdate()
    ensures Enabled(Third(), Wait(1000, Order()))
    ensures var v := Step(Third(), Wait(1000, Order())); v.arena == AfterR() && v.motions == []
  {
    OrderFits();
    LastTick();
    NoKings(AdvanceTime(Third(), 1000, Order()));
  }

  lemma LastTick()
    ensures var v := AdvanceTime(Third(), 1000, Order());
      v.arena == AfterR() && v.motions == [] && v.whiteKings == v.blackKings == 0
  {
    var w := Third();
    NothingLeft();
    TickPlays(Aloft(w.motions, 1000));
    assert Rest(w, 1000) == w.arena;
  }

  /** Where no side started with a king, none can lose. */
  lemma NoKings(w: World)
    requires w.whiteKings == w.blackKings == 0
    ensures CheckStatus(w) == w
  {
  }

  lemma LastThree()
    ensures var rest := [Ops()[1], Ops()[2], Ops()[3]];
      IsRun(First(), rest) && Run(First(), rest) == Step(Third(), Ops()[3])
  {
    SecondMove();
    ThirdMove();
    assert Enabled(Third(), Ops()[3]) by { LastUpdate(); }
    ThreeSteps(First(), Ops()[1], Ops()[2], Ops()[3], Second(), Third());
  }

  lemma ThreeSteps(w: World, x: Op, y: Op, z: Op, v: World, u: World)
    requires Enabled(w, x) && v == Step(w, x) && Enabled(v, y) && u == Step(v, y) && Enabled(u, z)
    ensures IsRun(w, [x, y, z]) && Run(w, [x, y, z]) == Step(u, z)
  {
    assert [x, y, z][1..] == [y, z] && [y, z][1..] == [z] && [z][1..] == [];
    assert IsRun(Step(u, z), []) && Run(Step(u, z), []) == Step(u, z);
    assert IsRun(u, [z]) && Run(u, [z]) == Step(u, z);
    assert IsRun(v, [y, z]) && Run(v, [y, z]) == Step(u, z);
  }

  lemma WholeRun()
    ensures IsRun(Start(), Ops())
    ensures Run(Start(), Ops()).arena == AfterR() && Run(Start(), Ops()).motions == []
  {
    FirstMove();
    LastThree();
    LastUpdate();
    assert Ops()[3] == Wait(1000, Order());
    assert Ops()[1..] == [Ops()[1], Ops()[2], Ops()[3]];
  }

  lemma OnNoSquare(v: World)
    requires v.arena == AfterR() && v.motions == []
    ensures Stranded(v, "r")
  {
    assert "r" !in AfterR().grid.Values;
  }

  /** At the end of this run the rook is idle, not captured, in no motion, and on no square. */
  lemma RookIsStranded()
    ensures Initial(Start()) && IsRun(Start(), Ops()) && OnBoardMoves(Start().arena, Ops())
    ensures Stranded(Run(Start(), Ops()), "r")
  {
    StartIsInitial();
    OpsOnBoard();
    WholeRun();
    OnNoSquare(Run(Start(), Ops()));
  }

  lemma OpsOnBoard()
    ensures OnBoardMoves(Start().arena, Ops())
  {
  }

  lemma StartIsInitial()
    ensures Initial(Start())
  {
    assert forall p, color :: !IsKing(Start().arena, p, color);
  }
}
