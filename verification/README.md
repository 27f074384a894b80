# Verified model of a real-time chess engine

In this chess there are no turns. Either player may ask at any moment for a piece to move or to jump; pieces fly for
500 ms a square, hover for 1000 ms when they jump, and rest for 3000 ms after either. Arrivals are resolved in the
`update` calls of a game loop: a piece can land, take what stands on its square, bounce off a friend, be caught by an
enemy hovering in a jump, or be promoted. The project models that engine, the rules it consults, the matchmaker, the
texts in which rooms, users and boards are written and read back, and two algorithms of the test framework that ships
with the code (`doctest.h`), and proves what they promise.

## How it is organised

The engine exists twice. `Game` is a state machine on values: a `World` holds the board, the records of the pieces,
the motions, jumps and cooldowns, the scores and the game-over flag; an `Op` is a request or an update, and a run is
any sequence of them. All properties of runs are proved about it. `Pieces`, `Schedule`, `Arbiter` and `Engine` are the
objects and loops of the source: a board over a flat array of piece references, an event list of indices that is
sorted and played with `handled` arrays, lists rebuilt after each tick. Every method of those classes is proved to do
to the view of the objects exactly what the corresponding function of `Game` does to the `World`, so the properties of
runs are properties of the objects.

`std::sort` is not stable, so an update carries the `order` in which it resolved what ended within it. Any order that
is sorted by arrival time is admissible, and the results hold for every admissible order.  `TieBreak` defines the fixed
order by arrival, motions before jumps, then by index, shows that it is admissible and that splitting a tick splits it
into the fixed orders of the parts, and concludes that under this rule the frame rate makes no difference;
`FixedMirror` shows that the rule prefers no side.

| files | what they hold |
|---|---|
| `Chess`, `Game` | vocabulary; the state machine |
| `Orders`, `Effects` | what an event order contains; closed forms of the ways a motion can end |
| `Conservation`, `Stranding`, `StrandedRook`, `Ledger`, `GameOver`, `Timers`, `Quiescence`, `Spacing`, `JumpImmunity`, `Squares` | invariants and properties of all runs |
| `Ticks`, `Landings` | a tick between two of its events; who ends where when a motion arrives |
| `Requests` | what a request does, what a move or jump comes to when nothing else happens, how long a piece rests |
| `FrameRate`, `TieBreak`, `Mirror`, `FixedMirror` | cutting time into frames differently; exchanging the colours |
| `Reachable` | what follows for every state a fresh engine can reach |
| `Rays` | what the move rules accept |
| `Pieces`, `Schedule`, `Arbiter`, `Engine` | the objects and loops, refining `Game` |
| `Matchmaking` | the greedy pairing of searching players |
| `Wildcard`, `Traversal` | the wildcard matcher and the decision-path enumerator of `doctest.h` |
| `Text`, `Fields`, `Extract`, `Records`, `PieceRecords`, `FlightRecords`, `Listing`, `Snapshot`, `Marks`, `RoomRoundTrip`, `RoomExactly`, `HeaderReading` | the room snapshot |
| `UserTable`, `UserRoundTrip` | the file of users |
| `Wording` | the snapshot and the file of users, word for word |
| `BoardText` | boards as text |

## Where the code does not keep a promise

- A piece that bounces is put back with `add_piece(src)`, whose refusal nobody checks. If its source was filled during
  the flight the piece is then on no square: it is "stranded". It is idle, never comes back, and counts as lost when it
  is a king. `Stranding.StrandedByBounce` shows that with moves that stay on the board this is the only way in which a
  piece can vanish uncaptured, and `StrandedRook.RookIsStranded` is a run in which it happens.
- The `is_escaping` search of the arbiter never finds anything in a reachable state (`Reachable.NeverEscapingInRuns`).
- The client stores the two times of a jump in the order of the text, not of the struct, so they come back exchanged
  (`FlightRecords.ExchangedTimes`); `FlightRecords.JumpExactly` says exactly when a jump reads back right, which for an
  ordinary id is only at its very beginning.
- Values are found by the first occurrence of the quoted name, so a piece called like a field hides that field.
  `PieceRecords.ReadExactly` and `FlightRecords.MotionExactly` say exactly when a piece or a motion reads back right
  (the names of the id and of the field next to it do no harm), `RoomExactly.SnapshotRoundTrip` when a whole room does,
  and `PieceRecords.NamedLikeAField` is a piece that does not. The same goes for the file of users:
  `UserRoundTrip.ReadsExactly` for one user, `UserRoundTrip.TableRoundTrip` for the table, and
  `UserRoundTrip.CalledLikeANumber` for a user that comes back changed. In the heading of a room a player or room called
  like a field further on gets in its way: `HeaderReading.HeadingExactly` gives the exact condition, and a room called
  "disconnect_countdown" makes the client throw (`HeaderReading.RoomThatThrows`).
- Nothing is escaped. In the file of users a value ends at the first comma, quote, closing brace or line break and
  leading spaces are lost, though any word can be registered as a name or password: the password "a,b" comes back as
  "a" (`UserRoundTrip.PasswordWithComma`). `UserRoundTrip.TableRoundTrip` counts these separators in its condition. In a
  room, a closing brace in an id ends the record early, and a closing bracket in the id of a jumping piece ends the
  array of jumps (`RoomRoundTrip.RoomSections` says exactly when the arrays are taken apart right; opening braces and
  brackets do no harm).

## Model

| member | source | states |
|---|---|---|
| Rays.GeometryAligned | src/rules/piece_rules.cpp:11-33 | every shape but the knight's leads along a row, a column or a diagonal |
| Rays.WalkEnds | src/rules/piece_rules.cpp:44-56 | stepping from the source meets the destination exactly when the two are aligned, and then first after as many steps as their distance, so the walk ends because the geometry was checked first |
| Rays.RayIsBetween | src/rules/piece_rules.cpp:47-56 | the squares the walk looks at are exactly those strictly between source and destination |
| Rays.PathClearMeaning | src/rules/piece_rules.cpp:40-58 | for aligned squares the path is clear exactly when nothing stands strictly between |
| Rays.ValidMoveMeaning | src/rules/rule_engine.cpp:6-23 | a move is valid exactly when there is a piece, the target is not its own side's, the target is one of the squares written out for its kind (the eight neighbours of a king, the eight knight squares, any number of steps along the four or eight lines, the literal pawn squares of each colour), and no piece stands strictly between unless it is a knight |
| Rays.ShapesAreSquares | src/rules/piece_rules.cpp:7-37 | the arithmetic of the shapes says exactly these squares, for every kind, colour and board height |
| Rays.LonePiece | src/rules/rule_engine.cpp:6-23 | a piece alone on the board may go to exactly these squares |
| Pieces.Board.constructor | src/model/board.cpp:6-8 | a fresh board has width times height empty squares |
| Pieces.Board.AddPiece | src/model/board.cpp:23-32 | succeeds exactly when the piece's cell is on the board and free, and changes that one square and no other |
| Pieces.Board.ClearCell | src/model/board.cpp:58-62 | empties that square and no other |
| Pieces.Board.RemovePiece | src/model/board.cpp:34-41 | empties that square and marks the piece that stood there, and no other, captured |
| Pieces.IsPathClear | src/rules/piece_rules.cpp:40-58 | the stepping loop ends and answers what the ray of the specification says |
| Pieces.ValidateMove | src/rules/rule_engine.cpp:6-23 | accepts exactly the moves the specification accepts, for every board, source and destination |
| Schedule.Collect | src/realtime/real_time_arbiter.cpp:67-77 | lists by index everything that ends within the tick, each once |
| Schedule.Sort | src/realtime/real_time_arbiter.cpp:79-81 | what is assumed of the library sort: the same entries, by arrival time |
| Schedule.SortedIsOrder | src/realtime/real_time_arbiter.cpp:67-81 | the sorted index list stands for an admissible event order |
| Schedule.StillPending | src/realtime/real_time_arbiter.cpp:115-120 | the motions not marked handled are exactly those still to come in the tick and those that outlast it |
| Arbiter.CountKings | src/model/game_state.cpp:39-47 | counts the kings of each colour standing on the board |
| Arbiter.GameState.constructor | src/model/game_state.cpp:8-20 | no score, no game over, and the number of kings of each side on record |
| Arbiter.GameState.AddScore | src/model/game_state.cpp:87-101 | the points go to the named side only |
| Arbiter.Age | src/realtime/real_time_arbiter.cpp:51-58 | the erase loop ages every cooldown and drops those that have run out |
| Arbiter.KeepMotions | src/realtime/real_time_arbiter.cpp:270-289 | rebuilds the list of motions: those not handled, with the tick taken off |
| Arbiter.KeepJumps | src/realtime/real_time_arbiter.cpp:291-298 | the same for jumps |
| Arbiter.RealTimeArbiter.IsPieceMoving | src/realtime/real_time_arbiter.cpp:305-311 | true exactly for pieces with an active motion; a jumping piece does not count |
| Arbiter.RealTimeArbiter.IsPieceCoolingDown | src/realtime/real_time_arbiter.cpp:313-319 | true exactly for pieces with an active cooldown |
| Arbiter.RealTimeArbiter.StartMotion | src/realtime/real_time_arbiter.cpp:8-26 | the piece leaves its square and is moving; the motion records its victim if an enemy stands on the target |
| Arbiter.RealTimeArbiter.StartJump | src/realtime/real_time_arbiter.cpp:28-36 | the piece is moving but stays on its square, with one more jump on the list |
| Arbiter.RealTimeArbiter.LandJump | src/realtime/real_time_arbiter.cpp:87-102 | a jump that ends leaves its piece idle and resting if it still stands where it jumped, and changes nothing otherwise |
| Arbiter.RealTimeArbiter.FindAirborne | src/realtime/real_time_arbiter.cpp:126-140 | finds the piece of the first listed jump over the square that has not ended before the arrival |
| Arbiter.RealTimeArbiter.IsEscaping | src/realtime/real_time_arbiter.cpp:113-120 | true exactly when the piece has a motion not handled yet |
| Arbiter.RealTimeArbiter.SetDown | src/realtime/real_time_arbiter.cpp:143-147 | the piece is idle, resting, and on the square if that square takes it |
| Arbiter.RealTimeArbiter.TakePiece | src/realtime/real_time_arbiter.cpp:198-243 | capture by landing: prey off the board and captured, taker in its place, points, flag for a king, promotion |
| Arbiter.RealTimeArbiter.Settle | src/realtime/real_time_arbiter.cpp:247-264 | landing on a free square, with promotion |
| Arbiter.RealTimeArbiter.Catch | src/realtime/real_time_arbiter.cpp:158-178 | capture in mid-air: the arriving piece is captured and its worth goes to the side that hovers |
| Arbiter.RealTimeArbiter.EndMotion | src/realtime/real_time_arbiter.cpp:104-266 | the branches of an arrival together do what the specification of an arrival says |
| Arbiter.RealTimeArbiter.PlayEvents | src/realtime/real_time_arbiter.cpp:83-268 | the event loop with its handled arrays plays the events one after the other, each against what is still pending |
| Arbiter.RealTimeArbiter.AdvanceTime | src/realtime/real_time_arbiter.cpp:50-299 | a tick of the objects is a tick of the state machine under some admissible order |
| Arbiter.RealTimeArbiter.CountInPlay | src/model/game_state.cpp:36-60 | counts the kings of each side on squares, in motions and in jumps; the count is positive exactly when a king of that side is in play |
| Engine.GameEngine.constructor | src/engine/game_engine.cpp:9-11 | a fresh engine shows an initial state of the state machine |
| Engine.GameEngine.ViewBounded | src/model/board.cpp:14-21 | the squares an engine shows are squares of its board, so its runs have mirror images |
| Engine.GameEngine.Admit | src/engine/game_engine.cpp:22-40 | a request passes exactly when the game is on, a piece stands there that neither flies nor rests, and the move is valid |
| Engine.GameEngine.RequestMove | src/engine/game_engine.cpp:21-44 | is the step of the state machine; a refused request changes nothing |
| Engine.GameEngine.RequestJump | src/engine/game_engine.cpp:46-53 | is the step of the state machine |
| Engine.GameEngine.CheckGameStatus | src/model/game_state.cpp:34-77 | raises the flag exactly when a side that had a king has none left in play |
| Engine.GameEngine.Update | src/engine/game_engine.cpp:56-59 | is the step of the state machine under some admissible order |
| Requests.MoveRequest | src/engine/game_engine.cpp:21-44 | a move is begun exactly when the game is on, the piece neither flies nor rests and the rules permit it: the piece is moving and off its square, and flies 500 ms for each square of the longer distance towards a recorded victim if an enemy stands there; otherwise nothing changes |
| Requests.JumpRequest | src/engine/game_engine.cpp:46-53 | a jump of 1000 ms is begun exactly when the piece is free to act, and otherwise nothing changes |
| Requests.OneMove | src/engine/game_engine.cpp:21-59 | request and update together: a permitted move made while nothing is in the air is finished by any update of 500 ms a square, on its target, with an enemy that stood there captured and paid for, a last-row pawn crowned and a rest of 3000 ms |
| Requests.OneJump | src/realtime/real_time_arbiter.cpp:28-102 | a jump made while nothing is in the air leaves the piece idle where it is, with a long rest of 3000 ms, after any update of 1000 ms |
| Requests.RestTime | src/realtime/real_time_arbiter.cpp:51-58 | over any run that leaves a grounded piece alone it rests exactly as long as its cooldowns say |
| Landings.TakesEnemy | src/realtime/real_time_arbiter.cpp:197-243 | at any point of any tick: where an enemy stands on the target and no jump runs over it, the enemy is captured, the piece is on the target, idle, resting and crowned if due, its side gains the worth, and the flag goes up for a king; nothing else changes |
| Landings.BlockedByFriend | src/realtime/real_time_arbiter.cpp:181-196 | where the own side stands there, the piece is back on its source, if that is free |
| Landings.FindsRoom | src/realtime/real_time_arbiter.cpp:246-265 | where nobody stands or hovers, the piece stands there |
| Landings.CaughtByJump | src/realtime/real_time_arbiter.cpp:126-179 | where the first listed jump that still runs over the target is an enemy's, the arriving piece is captured and its worth goes to the side that hovers |
| Landings.BlockedByJump | src/realtime/real_time_arbiter.cpp:126-157 | where that jump is of the own side, the piece is back on its source |
| Ticks.PartwayEnd | src/realtime/real_time_arbiter.cpp:50-299 | a tick starts with the cooldowns aged and ends when every event of its order has been resolved |
| Ticks.PartwayOn | src/realtime/real_time_arbiter.cpp:83-268 | between two points of a tick exactly one event is resolved |
| Effects.ArriveForm | src/realtime/real_time_arbiter.cpp:104-266 | the whole effect of an arrival, case by case: records, squares, cooldowns, flag and both scores |
| Conservation.ArriveMoves | src/realtime/real_time_arbiter.cpp:111-264 | an arrival strands its piece exactly when it bounces to a source that has been filled (or was sent off the board); nobody else comes or goes but the prey |
| Conservation.NeverEscaping | src/realtime/real_time_arbiter.cpp:113-123 | in a reachable state the search for an escaping piece never changes the verdict |
| Conservation.StepSound | src/engine/game_engine.cpp:21-59 | every request and every update keeps the invariant of board, flights and states |
| Conservation.RunSound | src/engine/game_engine.cpp:21-59 | the invariant holds in every reachable state |
| Conservation.RunDescends | src/realtime/real_time_arbiter.cpp:50-299 | over a run no piece appears, changes sides, or changes kind but from pawn to queen, and what is gone stays as it was |
| Conservation.Conservation | src/realtime/real_time_arbiter.cpp:8-268 | in every reachable state every initial piece is accounted for exactly once: on the one square its cell names, in one motion, captured, or on no square while idle |
| Conservation.GoneForGood | src/realtime/real_time_arbiter.cpp:111-203 | a captured or stranded piece never returns and its record never changes |
| Stranding.EventStrands | src/realtime/real_time_arbiter.cpp:142-203 | one event leaves a piece gone and uncaptured exactly when it is that piece's own bounce onto a filled source |
| Stranding.TickStrands | src/realtime/real_time_arbiter.cpp:86-268 | an update strands a piece exactly when one of its events is such a bounce |
| Stranding.StrandedByBounce | src/realtime/real_time_arbiter.cpp:143-147 | over any run with moves that stay on the board, a piece ends stranded exactly when some update has an arrival of it that bounces although its source has been filled |
| Stranding.FourFates | src/realtime/real_time_arbiter.cpp:8-268 | in such runs every piece is on the one square its cell names, in one motion, captured, or stranded by a bounce onto a filled source, and exactly one of these |
| StrandedRook.RookIsStranded | src/realtime/real_time_arbiter.cpp:182-186 | a run from a fresh engine in which a rook bounces off one friend while another has taken the square it left, and is stranded |
| Reachable.ReachableSound | src/engine/game_engine.cpp:9-59 | every state a fresh engine can reach is sound, has its timers in order, and refers only to existing pieces |
| Reachable.NeverEscapingInRuns | src/realtime/real_time_arbiter.cpp:113-123 | at no point of any tick of any run from a fresh engine does the search for an escaping piece change the verdict |
| Ledger.ScoreLedger | src/realtime/real_time_arbiter.cpp:158-232 | in every reachable state each side's score is the number of captured enemy pawns, plus 3 for each knight and bishop, 5 for each rook, 9 for each queen and 10 for each king |
| FrameRate.AdvanceInTwo | src/realtime/real_time_arbiter.cpp:50-299 | one tick of a+b and two ticks of a and b agree on everything but cooldowns, and there exactly the cooldowns granted in the first part are younger by b |
| FrameRate.OrdersJoin | src/realtime/real_time_arbiter.cpp:67-81 | admissible orders of two ticks in a row join to an admissible order of the one long tick |
| FrameRate.KingsOnlyFall | src/model/game_state.cpp:34-66 | a king that counts after a tick counted before it |
| FrameRate.UpdateInTwo | src/engine/game_engine.cpp:56-59 | splitting an update, status check included, changes nothing but cooldowns |
| FrameRate.UpdatesJoin | src/engine/game_engine.cpp:56-59 | two updates in a row are one update of the summed time, cooldowns apart |
| FrameRate.FramesAsOne | src/engine/game_engine.cpp:56-59 | however an interval is cut into frames, the result is that of one update over the interval under the joined order, cooldowns apart |
| TieBreak.FixedValid | src/realtime/real_time_arbiter.cpp:67-81 | the order by arrival, motions first, then index is one the sort may produce |
| TieBreak.StableAtTime | src/realtime/real_time_arbiter.cpp:67-81 | it keeps events of the same instant in the order in which they are listed |
| TieBreak.FixedInstant | src/realtime/real_time_arbiter.cpp:67-81 | at each instant the motions come first, then the jumps, each in list order |
| TieBreak.FixedSplits | src/realtime/real_time_arbiter.cpp:67-81 | the fixed order of a long tick splits into the fixed orders of the two ticks it consists of |
| TieBreak.FixedTickInTwo | src/realtime/real_time_arbiter.cpp:50-299 | under the fixed tie-break, a tick of a+b and ticks of a and b give the same state, and of the cooldowns just those granted in the first part are younger by b |
| TieBreak.FixedUpdateInTwo | src/engine/game_engine.cpp:56-59 | the same for updates, status check included |
| TieBreak.FixedFramesAsOne | src/engine/game_engine.cpp:56-59 | any list of frames gives the state of one update over their sum, cooldowns apart |
| TieBreak.AnyFrameRate | src/engine/game_engine.cpp:56-59 | from any reachable state, two ways of cutting the same interval into frames give the same state, cooldowns apart |
| Timers.RunTimed | src/realtime/real_time_arbiter.cpp:51-77 | in every reachable state motions and jumps have 0 < remaining <= total, and cooldowns are sorted and within (0, 3000] |
| Quiescence.MotionLasts | src/realtime/real_time_arbiter.cpp:270-289 | until its time is up a motion stays listed with exactly the elapsed time taken off |
| Quiescence.FlightTime | src/realtime/real_time_arbiter.cpp:68-72 | a motion ends in the first update that brings the elapsed time to its remaining time, and in no earlier one |
| Quiescence.JumpLasts | src/realtime/real_time_arbiter.cpp:291-298 | until its time is up a jump stays listed with exactly the elapsed time taken off |
| Quiescence.HopTime | src/realtime/real_time_arbiter.cpp:73-77 | the first update that brings the elapsed time to a jump's remaining time plays its touchdown and drops it, and no earlier one does |
| Quiescence.TouchdownEffect | src/realtime/real_time_arbiter.cpp:87-102 | a touchdown leaves a piece that stands on its jump square idle with a full long rest, and otherwise changes nothing |
| Quiescence.TouchdownRests | src/realtime/real_time_arbiter.cpp:87-102 | at the end of that update such a piece has its long rest and is there on its jump square, idle and otherwise unchanged, unless a later arrival on that square has captured it |
| Quiescence.ListsRunDown | src/engine/game_engine.cpp:22-47 | after game over no request adds anything, so the lists only run down |
| Quiescence.ComesToRest | src/realtime/real_time_arbiter.cpp:270-298 | after game over nothing is in the air exactly when the elapsed time covers every remaining time |
| Quiescence.Frozen | src/engine/game_engine.cpp:21-59 | from then on nothing but cooldowns changes |
| Quiescence.AllIdle | src/realtime/real_time_arbiter.cpp:93-251 | with nothing in the air no piece is left in the moving state |
| Spacing.LandedRests | src/realtime/real_time_arbiter.cpp:142-251 | a motion that ends leaves its piece captured or stranded, or with a full rest |
| Spacing.RequestSpacing | src/engine/game_engine.cpp:21-53 | after a move over d squares the piece is ready for no request before the updates add up to 500*d + 3000 ms |
| JumpImmunity.SafeInTick | src/realtime/real_time_arbiter.cpp:79-203 | inside a tick, from any point at which a piece stands on the square of a jump of its own (after a bounce back onto it, too) up to and including the instant the jump ends, it is neither taken nor moved, whatever the tie order |
| JumpImmunity.JumpProtects | src/realtime/real_time_arbiter.cpp:79-203 | from an accepted jump on, over any requests that do not make the piece take off and any updates, it stands there uncaptured for 1000 ms |
| GameOver.InPlay | src/model/game_state.cpp:39-60 | the status check counts exactly the kings that are neither captured nor stranded without a running jump |
| GameOver.GameOverSound | src/model/game_state.cpp:34-66 | in every reachable state the flag is up if a side has lost all its kings, and only if some king is captured or stranded |
| GameOver.GameOverExact | src/model/game_state.cpp:34-66 | with one king a side the flag is up exactly when a king is out of play |
| GameOver.FlagStays | src/model/game_state.cpp:34-35 | the flag never comes down |
| Squares.MoveAdvances | src/rules/piece_rules.cpp:11-33 | a legal shape keeps a bishop's shade and takes a pawn forward |
| Squares.RunAdvances | src/realtime/real_time_arbiter.cpp:143-264 | over any run only pawns change kind, only to queens; bishops keep their shade through bounces too; pawns never retreat; no pawn rests on its last row |
| Mirror.ValidMoveFlip | src/rules/piece_rules.cpp:22-33 | flipping the rows and exchanging the colours keeps move validity |
| Mirror.ResolveFlip | src/realtime/real_time_arbiter.cpp:86-268 | resolving an event commutes with the mirror |
| Mirror.HasMirror | src/model/board.cpp:14-21 | every world has a mirror image: rows flipped, colours, scores and king counts exchanged |
| Mirror.OneMirror | src/model/board.cpp:14-21 | and only one |
| Mirror.RunFlip | src/engine/game_engine.cpp:21-59 | from mirror images, mirrored requests and updates lead to mirror images, step by step |
| Mirror.MirroredRun | src/engine/game_engine.cpp:21-59 | every run has its exact mirror image, scores exchanged |
| FixedMirror.FixedOrderFlip | src/realtime/real_time_arbiter.cpp:67-81 | the fixed order of the mirror image is the mirrored fixed order: the rule does not look at sides |
| FixedMirror.MirroredUpdate | src/engine/game_engine.cpp:56-59 | under the fixed tie-break an update of the mirrored game is exactly the mirrored update |
| FixedMirror.MirroredFrames | src/engine/game_engine.cpp:56-59 | and so for any list of frames |
| Matchmaking.Partner | src/network/socket_server.cpp:533-538 | the first free player further on within 100 points, if there is one |
| Matchmaking.PairingFacts | src/network/socket_server.cpp:531-547 | pairs are of different players whose ratings differ by at most 100, both free, and no player is in two |
| Matchmaking.PairingSettles | src/network/socket_server.cpp:531-563 | every pair that could be made is made, or one of its players is taken by a pair that comes before it |
| Matchmaking.PairingIsGreedy | src/network/socket_server.cpp:531-563 | the pairing meets the description: ratings at most 100 apart, nobody twice, every possible pair settled |
| Matchmaking.OneGreedy | src/network/socket_server.cpp:531-563 | that description leaves only one choice of pairs |
| Matchmaking.SearchingOrder | src/network/socket_server.cpp:524-529 | those who search are gone through in the order of the client list |
| Matchmaking.PairingMaximal | src/network/socket_server.cpp:531-563 | two players who both stay unpaired are more than 100 points apart |
| Matchmaking.AtLeastHalf | src/network/socket_server.cpp:531-563 | however the players could legally be paired off, the greedy pass makes at least half as many pairs |
| Matchmaking.FindPartner | src/network/socket_server.cpp:533-538 | the inner loop stops at that partner |
| Matchmaking.PairUp | src/network/socket_server.cpp:531-563 | the nested loops over the shared flags make exactly the greedy pairing and seat the players of each pair |
| Matchmaking.DropExpired | src/network/socket_server.cpp:565-575 | exactly those who still search and have done so for 60 s stop searching |
| Matchmaking.ProcessMatchmaking | src/network/socket_server.cpp:520-576 | a whole pass: the one greedy choice of pairs at most 100 points apart, the earlier player seated as White and the later as Black, the others searching on unless they have done so for 60000 ms, and nobody else touched |
| Wildcard.MatchesConcat | doctest.h:6470-6502 | the declarative meaning of patterns: a concatenation matches exactly the concatenations |
| Wildcard.OneCharacter | doctest.h:6474-6491 | a star matches any string, a question mark any single character, any other character itself and, if case does not matter, the same letter in the other case |
| Wildcard.NoCharacter | doctest.h:6499-6502 | the empty pattern matches only the empty string |
| Wildcard.QuestionMarks | doctest.h:6474-6480 | n question marks match exactly the strings of length n |
| Wildcard.MatchesPlain | doctest.h:6474-6480 | a pattern without stars matches exactly the strings of its length whose characters its own stand for, place by place |
| Wildcard.LatestStarSuffices | doctest.h:6482-6496 | when a later star is reached, no earlier star needs another try |
| Wildcard.Wildcmp | doctest.h:6470-6502 | terminates, stays within both strings, and returns nonzero exactly when the string matches the pattern, in both case modes |
| Wildcard.Backtrack | doctest.h:6482-6501 | the backtracking loop decides whether the rest of the string matches the rest of the pattern |
| Traversal.LeavesComplete | doctest.h:8750-8838 | the list of paths contains exactly the root-to-leaf paths of the tree |
| Traversal.LeavesSorted | doctest.h:8750-8838 | it is in strict lexicographic order, so each path occurs once |
| Traversal.NextLeaf | doctest.h:8778-8790 | raising the deepest choice that can still be raised leads from each path to the next, and from the last to none |
| Traversal.TraversalState.Advance | doctest.h:8778-8790 | the loop over the depths computes that successor and reports whether there is one |
| Traversal.TraversalState.TryEnterSubcase | doctest.h:8792-8814 | finds the sibling at the point or notes it as one more, and enters it exactly when the path chooses its number |
| Traversal.TraversalState.LeaveSubcase | doctest.h:8816-8820 | returns to the decision point of the subcase |
| Traversal.TraversalState.AcquireGeneratorIndex | doctest.h:8831-8838 | the index the path chooses, or 0 beyond the count; the number of values is recorded at the point, new or known |
| Traversal.TraversalState.RunBody | doctest.h:6069-6090 | running a body follows the path as far as it goes, takes first branches beyond it, and discovers the points on the way with their numbers of branches |
| Traversal.RunAndAdvance | doctest.h:6069-6112 | one round visits the k-th path and moves on to the next, or stops after the last |
| Traversal.Enumerate | doctest.h:6069-6112 | the do-loop visits every path exactly once, in order, in as many runs as there are leaves |
| Listing.ListPieces | src/network/socket_server.cpp:744-777 | the loops over board, motions and jumps build the list of pieces to print |
| Listing.EveryPieceOnce | src/network/socket_server.cpp:744-777 | in a reachable state no piece is listed twice; each piece on the board is listed with its square, each in flight with the square it left, each jumping piece too |
| Listing.BoardFirst | src/network/socket_server.cpp:744-777 | the pieces on the board come first, row by row and from left to right, then those in the air |
| Text.FindMeaning | src/network/socket_client.cpp:12-22 | what a search returns: the first occurrence and no other, or that there is none |
| Text.StoiDecimal | src/network/socket_client.cpp:24-32 | the number read from a printed 32-bit integer is that integer, whatever follows it but digits |
| Text.StoiReads | src/network/socket_client.cpp:24-32 | blanks, at most one sign and digits are read as that number if 32 bits hold it, and throw otherwise, whatever follows |
| Text.StoiRefuses | src/network/socket_client.cpp:24-32 | without a digit there the conversion throws |
| Fields.Locate | src/network/socket_client.cpp:12-22 | the search for a quoted name ends at the field of that name if no earlier field is so named or holds the name |
| Extract.FieldReads | src/network/socket_client.cpp:12-43 | the value of such a field is read back, quoted or bare |
| Extract.FieldMisread | src/network/socket_client.cpp:12-43 | if a field holds the name of a later one, the search ends there and yields what belongs to the field right behind; a name taken for a number makes the conversion throw |
| Extract.Missing | src/network/socket_client.cpp:12-43 | what is not there is read as the empty string, 0 or false |
| Marks.SectionIs | src/network/socket_client.cpp:349-355 | the section between two marks is what was printed there when neither mark is met earlier |
| Extract.ObjectsAre | src/network/socket_client.cpp:356-390 | whatever is cut out of an array ends at its first closing brace and holds nothing that was not in it |
| Extract.ObjectsJoin | src/network/socket_client.cpp:356-390 | cutting an array at braces gives back the records it was joined from |
| PieceRecords.ReadPrinted | src/network/socket_client.cpp:363-388 | what the client makes of a printed piece, for every id without quotes |
| PieceRecords.ReadExactly | src/network/socket_client.cpp:363-388 | it is the piece that was printed exactly when the id does not hide a field |
| PieceRecords.NamedLikeAField | src/network/socket_client.cpp:365 | a piece with the id "color" comes back with another color |
| FlightRecords.ReadPrintedMotion | src/network/socket_client.cpp:410-439 | what the client makes of a printed motion: dropped if its piece is unknown, without its victim if that is unknown |
| FlightRecords.MotionExactly | src/network/socket_client.cpp:410-439 | a motion of a known piece reads back right exactly when its piece's id hides none of its fields |
| FlightRecords.ReadPrintedJump | src/network/socket_client.cpp:461-480 | what the client makes of a printed jump: remaining and total change places |
| FlightRecords.JumpExactly | src/network/socket_client.cpp:474-479 | the exact condition, for every id, under which a jump reads back as it was |
| FlightRecords.ExchangedTimes | src/network/socket_client.cpp:474-479 | a jump 400 ms before its end comes back with 1000 ms to go out of 400 |
| Snapshot.FirstCooldownIs | src/realtime/real_time_arbiter.cpp:313-345 | the cooldown reported of a piece is the first in the list, if it has any |
| Wording.PieceWords | src/network/socket_server.cpp:785-801 | a piece word for word: King 0, Queen 1, Rook 2, Bishop 3, Knight 4, Pawn 5; White 0, Black 1; idle 0, moving 1, captured 2; square, cooldown |
| Wording.MotionWords | src/network/socket_server.cpp:805-820 | a motion word for word |
| Wording.JumpWords | src/network/socket_server.cpp:823-835 | a jump word for word |
| Wording.HeaderWords | src/network/socket_server.cpp:700-727 | the heading word for word |
| Wording.RoomWords | src/network/socket_server.cpp:700-838 | the whole message: heading, sounds, pieces, motions, jumps |
| Snapshot.SerializeRoomState | src/network/socket_server.cpp:696-838 | the printing loops produce the message: header, sounds, pieces, motions, jumps |
| Snapshot.ParsePieces | src/network/socket_client.cpp:346-391 | the reading loop collects the pieces and cooldowns of the records in its section |
| Snapshot.ParseMotions | src/network/socket_client.cpp:393-442 | the reading loop collects the motions |
| Snapshot.ParseJumps | src/network/socket_client.cpp:444-483 | the reading loop collects the jumps |
| HeaderReading.HeadingAsSeen | src/network/socket_client.cpp:486-500 | what the client reads of flag, scores, names, ratings and countdown, whatever the players and the room are called |
| HeaderReading.HeadingExactly | src/network/socket_client.cpp:486-500 | it is what the server has to tell exactly when no name is confused with a field further on |
| HeaderReading.RoomThatThrows | src/network/socket_client.cpp:491 | a room called "disconnect_countdown" makes the conversion of the countdown throw |
| RoomRoundTrip.RoomSections | src/network/socket_client.cpp:349-356 | in the message of a room whose names hold no quotes, each array is taken apart into exactly the records that were printed if and only if no id in it holds a closing brace, nor, in jumps, a closing bracket |
| RoomRoundTrip.RoomAsSeen | src/network/socket_client.cpp:346-483 | what the client reads of any room whose arrays are taken apart right, whatever its pieces are called |
| RoomExactly.PiecesExactly | src/network/socket_client.cpp:346-391 | the client, casting the numbers it reads, has the kind, colour, state and square of every listed piece and the reported cooldowns exactly when no listed piece hides a field of its own |
| RoomExactly.PicturesOne | src/network/socket_client.cpp:363-377 | the casts of the client turn exactly one triple of numbers into a given kind, colour and state: those the server prints |
| RoomExactly.SnapshotRoundTrip | src/network/socket_server.cpp:696-838 | what is read of a room whose arrays are taken apart right: the client knows exactly the listed pieces; pieces and cooldowns, motions with their victims if listed, and jumps are each right exactly under the stated condition on ids |
| RoomExactly.PlainSnapshot | src/network/socket_server.cpp:696-838 | for pieces not called like a field everything comes back right, the times of jumps exchanged |
| Reachable.RunConcrete | src/network/socket_server.cpp:811 | in every reachable state each motion and jump names an existing piece, so printing follows no null pointer |
| Reachable.ReachableSnapshot | src/network/socket_server.cpp:696-838 | for names free of quotes, ids free of closing braces, jumping pieces with ids free of closing brackets, and flight times that fit 32 bits, the room of every state reached by moves that stay on the board is printable and read back as described |
| UserTable.UserManager.Save | src/io/user_manager.cpp:89-117 | the file that lists the users in the order the table is iterated, or none if it cannot be opened |
| UserTable.UserManager.Load | src/io/user_manager.cpp:28-87 | keeps the table if the file cannot be opened; otherwise the table is what the file says, or throws where a number cannot be read and keeps the users entered before |
| UserTable.ExtractVal | src/io/user_manager.cpp:53-63 | the two scanning loops find the value behind a name |
| UserRoundTrip.ValueAtName | src/io/user_manager.cpp:53-63 | a name leads to its own value if no earlier field holds it |
| UserRoundTrip.UserReads | src/io/user_manager.cpp:65-76 | what is read back of any user whose name and password have no quote, comma, closing brace, line break or leading space |
| UserRoundTrip.ReadsExactly | src/io/user_manager.cpp:53-76 | for any user at all: it is the user that was written exactly when name and password hold no quote, comma, closing brace, line break or leading space and do not hide a number, and the numbers fit an `int` |
| UserRoundTrip.TableRoundTrip | src/io/user_manager.cpp:28-117 | loading what was saved restores the table, in whatever order it was iterated, exactly when every user has a name and is stored under it, and name and password hold no quote, comma, closing brace, line break or leading space and do not hide a number (numbers fitting an `int`) |
| UserRoundTrip.LoadedWritable | src/io/user_manager.cpp:53-81 | whatever the file holds, every user of the table that is loaded is stored under its own nonempty name and has a name and password without separators |
| UserRoundTrip.MissingNumbers | src/io/user_manager.cpp:69-76 | a rating that is not there is read as 1200, games won and lost as 0 |
| Wording.UserWords | src/io/user_manager.cpp:104-110 | one user of the file word for word |
| Wording.FileWords | src/io/user_manager.cpp:98-112 | the file word for word |
| UserRoundTrip.PasswordWithComma | src/io/user_manager.cpp:53-63 | a password with a comma in it comes back as what stands before the comma |
| UserRoundTrip.CalledLikeANumber | src/io/user_manager.cpp:71-73 | a user called "wins" with an empty password comes back without the games won |
| BoardText.Parse | src/io/board_parser.cpp:7-57 | which texts are refused with which error, and what board the others give; adding a piece never fails |
| BoardText.WordsAre | src/io/board_parser.cpp:17-22 | the words of a line are what stands between blanks of any kind and number |
| BoardText.KnownWords | src/io/board_parser.cpp:39-52 | the dot and the twelve words from wK to bP are known, each for its colour and kind, and no other |
| BoardText.Refused | src/io/board_parser.cpp:8-50 | which texts are refused and with which message: no lines, lines of different numbers of words, an unknown word; all others are parsed |
| BoardText.OneOutcome | src/io/board_parser.cpp:7-57 | that description leaves exactly one outcome for every text |
| BoardText.Print | src/io/board_printer.cpp:5-35 | one line a row, the words of its squares with single spaces between |
| BoardText.ParsePrinted | src/io/board_printer.cpp:5-35 | parsing a printed board of at least one row gives the same board |
| BoardText.PrintParsed | src/io/board_parser.cpp:7-57 | printing a parsed text gives its words again with single spaces between |
| BoardText.NoRows | src/io/board_parser.cpp:8-10 | a board without rows prints as no lines, which the parser refuses |

## Left out

- Rendering, images, animation, sound files, mouse and keyboard, and the controllers over them.
- Websocket transport, threads and locks, sleeps, Redis, log files, and everything under `thirdparty`.
- Message-bus publishes and log texts: they change nothing in the state that is modelled.
- Login, registration, rooms, disconnects, reconnection and forfeit in the server, and `serialize_game_state`, which prints the lobby game in the same way as a room.
- Reading the sounds of a snapshot, and merging what is read into the client's own animation state.
- Rating arithmetic after a game and the interpolated position of a flying piece: floating point.
- The rest of `doctest.h`: macros, filters, reporters, signals, and in the run loop exceptions and the limit on failed assertions.
- Accessors, `reset`, the setters the client uses, and `Board::move_piece`, which the engine never calls; null `state` or `board` arguments, which the engine never passes.
- Two pieces with one id: the arbiter identifies pieces by id, and the factory that builds playing boards gives each its own. The text parser does not, so `BoardText` keeps men without ids.
- Negative update times: the game loops only pass positive ones.
- 32-bit wrap-around in the engine: times only decrease from at most 500 a square and scores are bounded by the pieces on the board, so integers are unbounded there; the text formats do check the range when they read a number.
- Arbiter.RealTimeArbiter.AdvanceTime: the entries of the three lists hold ids and the objects are found through a fixed roster, where the source holds shared pointers; ids are unique, so the two agree. The object returned by the sort is that of `Schedule.Sort`, an insertion sort standing for the library's, and the contract says no more than that it is sorted.
- Arbiter.RealTimeArbiter.Catch: the bounce branches, the capture in mid-air and the landings are methods of their own, where the source has one long loop body.
- JumpImmunity.JumpProtects: an accepted move request for the jumping piece takes it off the square, as in the source, and ends the claim; `JumpImmunity.SafeInTick` takes it up again if the piece comes back.
- FrameRate.FramesAsOne: cooldowns are left out of the comparison; `FrameRate.AdvanceInTwo` says how they differ.
- TieBreak.AnyFrameRate: cooldowns are left out of the comparison; `TieBreak.FixedTickInTwo` says how they differ.
- Matchmaking.ProcessMatchmaking: the messages sent to the players and the creation of the engine for a match; the clock is a parameter.
- Wildcard.Wildcmp: `tolower` is that of the ASCII letters; pointers are positions in the strings.
- UserTable.UserManager.Load: file access is a parameter.
- UserTable.UserManager.Save: file access is a parameter.
- BoardText.Parse: the stream operator is modelled as splitting at white space; the board is a map of squares, so that the object of `Pieces.Board` with its unique ids is not needed.
