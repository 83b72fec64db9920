# Board game platform: a Dafny model of the game engines

This project models the in-memory game logic of a small multiplayer board-game
server and its browser clients, and proves properties of that model:

- **Four-player chess** (`FourChessBoard`, `FourChess`): the 14x14 board with four
  3x3 corner cut-outs and four 16-piece armies, the clockwise turn cursor that skips
  eliminated colours, and `processAction` ('getState' and 'move'). Seats are never
  bound, so the engine always runs in single-player testing mode. Validation checks
  only that the source square holds a piece of the validated colour.
- **Carrom server** (`CarromServer`): the coin layout, up to four seats, the waiting
  and active phases, the turn gate, 'shoot' (records the striker's x), and 'endTurn'
  (adopts the state the client reports and optionally passes the turn on).
- **Two-player chess** (`ChessServer`): seat assignment and the turn gate around the
  chess.js library. The library is a parameter (`ChessLib`): turn, move, check and
  checkmate are functions of the position, and the draw and game-over tests also
  take the game's earlier positions, which the state keeps as chess.js does.
- **Room dispatcher** (`GameManager`): picks the engine from the game type, and
  turns each engine result into an outbox of socket events. A value is broadcast to
  the room, null is dropped, and an exception goes to the acting player.
- **Stockfish wrapper** (`ChessAi`): the readiness gate, the two commands
  `getBestMove` posts, the clamped search depth, the stack of temporary message
  handlers, and the parser for the UCI "bestmove" reply. The UCI protocol is the
  Universal Chess Interface; the reply is in its section "Engine to GUI".
- **Carrom computer player** (`CarromAi`): the first cheapest (active coin, pocket)
  pairing, with the origin clamped to the baseline, power capped at 50, and the
  angle jittered by a random draw.
- **Carrom client physics** (`CarromPhysics`), over real numbers:
  - the board layout and the drag-to-shoot input;
  - one animation frame: movement, friction, wall bounce, pocketing with the striker
    foul, the mass-weighted elastic collision along the line of centres, and the
    separation push. The end-of-frame stop test is modelled both as written
    (`UpdateAsWritten`) and as evidently intended (`Update`); see Findings.
- **Client board helpers** (`FourChessClient`, `StandardChessClient`): the cut-out
  test, square naming and colouring, the drop guards, `attemptMove` and
  `updateState`.

Shared pieces:
- `Protocol`: actions, replies and errors.
- `Geometry`: cos, sin, atan2, hypot and pi as a `Trig` parameter, plus the pockets.
- `Text`: the JavaScript string operations used (decimal rendering, `startsWith`,
  `substring`, and `split`/`join` on one character).

Every operation is a pure function on immutable datatypes. Where JavaScript mutates
an object, the function returns the new state. Exceptions are the `Thrown` case of
`Reply`, and null is `Returned(None)`.

## Model

| member | source | states |
|---|---|---|
| FourChessBoard.SetupArmyFrom | server/games/fourPlayerChess.js:40-46 | setupArmy puts back-rank piece c - startCol on backRow and a pawn on pawnRow in each of its eight columns, all unmoved and of the given colour; every other cell is unchanged |
| FourChessBoard.SetupArmyRotatedFrom | server/games/fourPlayerChess.js:48-54 | setupArmyRotated lays the same army along backCol and pawnCol for rows startRow..startRow+7, leaving every other cell unchanged |
| FourChessBoard.InitialCellLayered | server/games/fourPlayerChess.js:13-38 | each cell of the initial board is what the last of the five construction steps to write it left there |
| FourChessBoard.InitialBoardCells | server/games/fourPlayerChess.js:13-38 | the initial board agrees on all 196 cells with an independent description: 'X' on the cut-outs, each numbered piece unmoved on its home square, null elsewhere |
| FourChessBoard.InitialIsStartingPosition | server/games/fourPlayerChess.js:13-38 | initializeBoard produces a 14x14 starting position |
| FourChessBoard.InitialStrayEmpty | server/games/fourPlayerChess.js:15-35 | no write during construction lands outside the 14 columns |
| FourChessBoard.StartingCutCount | server/games/fourPlayerChess.js:17-25 | a starting position has exactly 36 'X' cells, the four 3x3 corners |
| FourChessBoard.HomeSquareRoundTrip | server/games/fourPlayerChess.js:28-35 | every home square is on the grid and off the cut-outs, and maps back to its own (colour, piece), so the 64 home squares are distinct and no two armies overlap |
| FourChessBoard.HomeOfRoundTrip | server/games/fourPlayerChess.js:28-35 | every square that is someone's home is the home square of the piece it names |
| FourChessBoard.ArmyComposition | server/games/fourPlayerChess.js:41-44 | an army is one king, one queen, two rooks, two bishops, two knights and eight pawns, as multisets |
| FourChessBoard.StartingPlacement | server/games/fourPlayerChess.js:40-54 | on a starting position all 64 pieces stand unmoved on their home squares, and every occupied cell is a home square |
| FourChess.Initial | server/games/fourPlayerChess.js:2-11 | the constructed engine satisfies the invariant: a 14-row board, cursor below 4, and a colour still in play |
| FourChess.PlayerColor | server/games/fourPlayerChess.js:144-149 | getPlayerColor returns the first seat, in the order white, black, red, blue, bound to the id, and null when there is none |
| FourChess.NextTurn | server/games/fourPlayerChess.js:136-142 | the cursor moves to the first colour after the current one, clockwise, that is not eliminated; every colour skipped is eliminated; with no eliminations it is (i + 1) mod 4 |
| FourChess.IsValidMove | server/games/fourPlayerChess.js:111-125 | valid exactly when the source cell holds a piece of the given colour, or is 'X' when the colour is undefined; the destination plays no part |
| FourChess.ExecuteMove | server/games/fourPlayerChess.js:127-134 | the source becomes empty, the destination (when different) holds the source's piece marked as moved, and every other cell is unchanged |
| FourChess.MoveAction | server/games/fourPlayerChess.js:67-107 | a move keeps the invariant and never changes the seats, the eliminated list, gameOver or winner |
| FourChess.ProcessAction | server/games/fourPlayerChess.js:56-109 | getState returns the snapshot and changes nothing; unknown actions return null; 'Not your turn' and 'Invalid move' leave the state unchanged; seats, eliminated, gameOver and winner never change |
| FourChess.NotYourTurnRefused | server/games/fourPlayerChess.js:71-77 | with more than one seat bound, anyone not seated on the colour to move gets 'Not your turn' and nothing changes |
| FourChess.AcceptedMove | server/games/fourPlayerChess.js:90-103 | a move from a square holding a piece of the validated colour is applied with executeMove followed by exactly one nextTurn, and the new snapshot is returned |
| FourChess.InvalidMoveRefused | server/games/fourPlayerChess.js:93-106 | an empty source, or a piece of the wrong colour in a seated game, gets 'Invalid move' with board and turn unchanged |
| FourChess.DestinationIgnored | server/games/fourPlayerChess.js:119-124 | whether a move is accepted does not depend on its destination square |
| FourChess.CutoutSourceQuirk | server/games/fourPlayerChess.js:119-131 | in testing mode a move from an 'X' cell passes validation, writes the board ('X' to the destination, null to the source), then throws on piece.moved, so the turn does not advance |
| FourChess.SelfMoveDeletes | server/games/fourPlayerChess.js:127-131 | moving a piece onto its own square is accepted and leaves that square empty |
| FourChess.AlwaysTesting | server/games/fourPlayerChess.js:71 | with the constructor's empty seats, no action ever binds a seat, so the game stays in testing mode |
| FourChessClient.IsInvalidSquare | public/js/games/fourPlayerChess.js:57-63 | on the 14x14 grid, a square is invalid exactly when both its row and its column lie in 0-2 or 11-13 |
| FourChessClient.ClientCutoutsMatchServer | public/js/games/fourPlayerChess.js:57-63 | the client hides exactly the cells that hold 'X' on the server's starting board |
| FourChessClient.InvalidSquareSymmetric | public/js/games/fourPlayerChess.js:57-63 | the cut-out test is unchanged by r to 13 - r and by c to 13 - c |
| FourChessClient.Drop | public/js/games/fourPlayerChess.js:92-98 | a drop emits a 'move' with the two coordinates exactly when source and target differ |
| FourChessClient.DropIsAccepted | public/js/games/fourPlayerChess.js:84-99 | in the unseated game, dragging a piece to another on-board square is accepted by the server, the piece (now moved) lands on the target and the source empties |
| FourChessClient.UpdateState | public/js/games/fourPlayerChess.js:102-107 | the cached board is replaced by the incoming one when there is one, and kept otherwise |
| FourChessClient.ClientFollowsServer | public/js/games/fourPlayerChess.js:102-107 | after any server reply carrying a snapshot, the client's cached board is the server's board |
| StandardChessClient.ToSquare | public/js/games/standardChess.js:45-48 | every name is two characters, a file letter a-h followed by a rank digit 1-8 |
| StandardChessClient.ToSquareRoundTrip | public/js/games/standardChess.js:45-48 | parsing the name of grid square (row, col) in algebraic notation gives (row, col) back |
| StandardChessClient.FromSquareRoundTrip | public/js/games/standardChess.js:45-48 | every algebraic square name is the name of the grid square it denotes |
| StandardChessClient.ToSquareInjective | public/js/games/standardChess.js:45-48 | distinct grid squares get distinct names |
| StandardChessClient.IsLight | public/js/games/standardChess.js:27 | a square is drawn light exactly when its file number (a = 1) plus its rank is odd, the usual chessboard colouring |
| StandardChessClient.ColouringIsStandard | public/js/games/standardChess.js:27 | squares next to each other along a rank or a file have opposite colours; a1 is dark and a8 and h1 are light, with a8 at (0, 0) and h1 at (7, 7) |
| StandardChessClient.Drop | public/js/games/standardChess.js:70-78 | a move can be emitted only when both square names are present and differ, and then it is whatever attemptMove emits |
| StandardChessClient.DropOnSameSquareIgnored | public/js/games/standardChess.js:75 | a drop back onto the starting square emits nothing |
| StandardChessClient.AttemptMove | public/js/games/standardChess.js:81-94 | a move is sent exactly when the local library accepts it with promotion 'q', and the message carries the same squares and 'q' |
| StandardChessClient.UpdateState | public/js/games/standardChess.js:96-101 | a non-empty fen in the message replaces the local position; otherwise the position is kept |
| StandardChessClient.EmittedMovesAreAccepted | public/js/games/standardChess.js:81-94 | a client in sync with the server and seated on the side to move only sends moves that the server plays |
| ChessServer.AssignPlayer | server/games/chess.js:9-18 | white is returned exactly when the white seat is free, black exactly when white is taken and black free; the seat returned now holds the id and nothing else changes; otherwise null and no change |
| ChessServer.AssignKeepsTakenSeats | server/games/chess.js:9-18 | a taken seat is never reassigned |
| ChessServer.ThreeArrivals | server/games/chess.js:9-18 | from two empty seats the first caller gets 'w', the second 'b', the third null, and the seats hold the first two |
| ChessServer.SeatedSide | server/games/chess.js:28 | a player's side is white exactly when they hold the white seat, and black exactly when they hold only the black seat |
| ChessServer.Promotion | server/games/chess.js:35 | the promotion sent is never empty, and is the client's choice when one was given |
| ChessServer.ProcessAction | server/games/chess.js:20-52 | getState returns fen, turn and seats unchanged; unknown actions return null; the seats never change; the position and the history change only on a move by the player seated on the side to move, and the history only grows by the old position; a throw leaves the state unchanged |
| ChessServer.TurnGateBeforeLibrary | server/games/chess.js:27-32 | a mover not seated on the side to move gets 'Not your turn' whatever the library would say about the move |
| ChessServer.SpectatorsCannotMove | server/games/chess.js:28-32 | a player holding no seat always gets 'Not your turn' |
| ChessServer.DefaultPromotionIsQueen | server/games/chess.js:35 | a move with no or an empty promotion is the same request as one promoting to 'q' |
| ChessServer.MoveOutcomes | server/games/chess.js:34-49 | for the seated side to move, an accepted move adopts the new fen, appends the old one to the game's history, and reports the side to move, the move record and the library's check and checkmate flags for the new position and its draw and game-over flags for the new position in that history; a library throw becomes 'Invalid move' with the position kept; a falsy result returns null |
| GameManager.Create | server/gameManager.js:6-27 | 'chess', 'four-chess' and 'carrom' each get their fresh engine, and any other type leaves the room without one |
| GameManager.Deliver | server/gameManager.js:35-44 | a truthy result becomes exactly one broadcast to the room, null emits nothing, and an exception becomes exactly one error to the acting player |
| GameManager.HandleAction | server/gameManager.js:29-45 | with no engine nothing is emitted; otherwise the room's engine becomes the state its processAction returned, a result is broadcast to the room once, null emits nothing, and a throw becomes one error event to the actor with the error's message; the room's id, type and player list do not change |
| GameManager.AddPlayer | server/gameManager.js:47-54 | the id is appended to the room list; the chess and carrom engines also seat it; a room with no engine or with four-player chess keeps its engine as it was |
| GameManager.GetStateBroadcasts | server/gameManager.js:36-40 | getState to any engine is broadcast to the room exactly once and changes nothing |
| GameManager.UnknownActionIsSilent | server/gameManager.js:36-40 | an action no engine knows emits nothing and changes nothing |
| GameManager.OutOfTurnMoveAnsweredPrivately | server/gameManager.js:41-44 | an out-of-turn chess move produces only a 'Not your turn' error to the mover and leaves the room unchanged |
| GameManager.CarromRoomNeverErrors | server/gameManager.js:35-44 | a carrom room never sends an error event |
| GameManager.ChessRoomSeatsFirstTwo | server/gameManager.js:47-54 | in a fresh chess room the first two arrivals take white and black, and all three are on the room list |
| CarromServer.SetupCoins | server/games/carrom.js:12-44 | 19 coins, all active, at rest, radius 14 and mass 1: the queen at the centre, six inner-ring coins at 60-degree steps, twelve outer-ring coins at 30-degree steps |
| CarromServer.SetupColorsLayered | server/games/carrom.js:12-44 | the colours in order are red, then white and black alternating on each ring |
| CarromServer.SetupColors | server/games/carrom.js:12-44 | the layout holds exactly one red coin, nine white and nine black |
| CarromServer.SetupOnRings | server/games/carrom.js:12-44 | the queen is at the centre, and every other coin lies at distance 29 or 54 from it, by ring |
| CarromServer.RingCoinOnRing | server/games/carrom.js:19-42 | a ring coin lies at the ring's distance from the centre whenever cos^2 + sin^2 = 1 |
| CarromServer.PrefixedIdsDistinct | server/games/carrom.js:22-35 | ids built from one prefix and two different numbers differ |
| CarromServer.SetupIdsDistinct | server/games/carrom.js:12-44 | the nineteen coin ids are pairwise distinct |
| CarromServer.InitialValid | server/games/carrom.js:2-10 | the constructed game satisfies the invariant: at most four players, the turn index in range, and active exactly when two have joined |
| CarromServer.AssignPlayer | server/games/carrom.js:46-52 | a newcomer is appended only while there are fewer than four players and gets the new last index; a full table is unchanged and returns 3; the game is active exactly when two or more have joined |
| CarromServer.IndexOf | server/games/carrom.js:66 | indexOf is -1 exactly when the id is absent, and otherwise the first seat holding it |
| CarromServer.AssignedSeatIsFound | server/games/carrom.js:46-52 | a newcomer who found room is looked up at the seat assignPlayer returned |
| CarromServer.IndexOfSeat | server/games/carrom.js:66 | with distinct ids, every seated player is found at their own seat |
| CarromServer.DistinctSeatsFound | server/games/carrom.js:66-70 | with distinct ids, every seat's id is looked up to that seat |
| CarromServer.ProcessAction | server/games/carrom.js:54-106 | never throws; keeps the invariant; players, phase and scores never change; getState returns the full state unchanged; outside testing mode, anyone but the current player gets null and no change; unknown actions return null |
| CarromServer.ShootOnlyMovesStriker | server/games/carrom.js:72-83 | 'shoot' changes only the striker's x, to positionX, and echoes angle, power, positionX and the shooter's index |
| CarromServer.EndTurnAdopts | server/games/carrom.js:85-103 | 'endTurn' replaces coins and striker only when supplied; with switchTurn the index becomes (index + 1) mod the number of players, and without it stays; the reply is a 'stateUpdate' with the adopted coins and striker and the new turn |
| CarromServer.EndOwnTurn | server/games/carrom.js:93-95 | a turn-switching endTurn from the current player keeps the game active and moves the turn to the next seat, wrapping around |
| CarromServer.SwitchTurns | server/games/carrom.js:93-95 | successive turn switches keep the invariant, the players and the active phase |
| CarromServer.NextSeatIsModular | server/games/carrom.js:94 | the next seat after c at a table of n is (c + 1) mod n |
| CarromServer.SeatIsModular | server/games/carrom.js:94 | k seats on from c is (c + k) mod n |
| CarromServer.SeatFullCircle | server/games/carrom.js:94 | n seats on from c is c again |
| CarromServer.RoundFrom | server/games/carrom.js:93-95 | after k turn switches the turn is k seats on from where it started |
| CarromServer.TurnsGoRound | server/games/carrom.js:93-95 | with distinct ids, after k turn switches the turn is (start + k) mod the number of players |
| CarromServer.FullRound | server/games/carrom.js:93-95 | with distinct ids, after one switch per player the turn is back where it started |
| CarromAi.Clamp | server/ai/carromEngine.js:31-33 | the striker's x always lies in [100, 700]; it is the impact x when that is in range, 100 when the impact x is left of it and 700 when right of it |
| CarromAi.Evaluate | server/ai/carromEngine.js:20-48 | a pairing's position is in [100, 700]: the impact x when that is in range, otherwise the nearer end of the baseline; its score is coin-pocket plus striker-impact distance; power is min(0.18 score, 50), so at most 50; the angle points from the striker to the impact point |
| CarromAi.ImpactAtContact | server/ai/carromEngine.js:25-27 | the impact point lies exactly 34, a coin radius plus a striker radius, from the coin's centre, on the far side from the pocket |
| CarromAi.Targets | server/ai/carromEngine.js:8 | the targets are exactly the active coins |
| CarromAi.TargetsAppend | server/ai/carromEngine.js:8 | filtering distributes over concatenation |
| CarromAi.InactiveCoinIgnored | server/ai/carromEngine.js:8-11 | adding an inactive coin anywhere leaves the targets, hence the chosen shot, unchanged |
| CarromAi.Candidates | server/ai/carromEngine.js:18-51 | the loops consider four pairings per active coin |
| CarromAi.CandidateAt | server/ai/carromEngine.js:18-51 | pairing 4i + p is target i aimed at pocket p, coin-major as the nested forEach visits them |
| CarromAi.RunningBest | server/ai/carromEngine.js:40-49 | after n pairings the recorded best is the first of the cheapest, because replacement needs a strict improvement; nothing is recorded only before the first pairing |
| CarromAi.FirstCheapestUnique | server/ai/carromEngine.js:40-49 | the first cheapest pairing is unique, so the choice depends only on the scores |
| CarromAi.CalculateShot | server/ai/carromEngine.js:6-65 | null exactly when no coin is active; any shot returned starts in [100, 700] and has power at most 50 |
| CarromAi.ShotIsCheapest | server/ai/carromEngine.js:40-57 | with an active coin the result is the first cheapest pairing's shot, with its position and power, and its angle moved by less than 0.025 for a draw in [0, 1); the fallback is never returned |
| ChessAi.SearchDepth | server/ai/chessEngine.js:81 | the depth is always in [1, 15], equals the difficulty when that is in range, and is 1 below the range and 15 above it |
| ChessAi.GetBestMove | server/ai/chessEngine.js:51-84 | without an engine or before 'readyok' nothing is posted, no handler is installed and the result is null; otherwise one handler is pushed and exactly "position fen <fen>" and a "go depth " command are posted |
| ChessAi.PostedDepth | server/ai/chessEngine.js:80-82 | the depth in the go command is the clamped difficulty in decimal, one or two digits |
| ChessAi.Decode | server/ai/chessEngine.js:69-73 | for a token of at least four letters, from is letters 0-1 and to is letters 2-3; a promotion is present exactly when the token is longer than four |
| ChessAi.DecodeRoundTrip | server/ai/chessEngine.js:69-73 | from + to (+ promotion) rebuilds any four- or five-letter token |
| ChessAi.ParseBestMove | server/ai/chessEngine.js:63-76 | a move is produced exactly when the second space-separated token exists, is non-empty and is not '(none)', and it is that token decoded |
| ChessAi.SecondToken | server/ai/chessEngine.js:64-65 | splitting a space-joined line of space-free words gives back its second word |
| ChessAi.ParseSecond | server/ai/chessEngine.js:64-76 | a line whose second token is m yields m decoded, or null when m is empty or '(none)' |
| ChessAi.ParseWellFormedReply | server/ai/chessEngine.js:63-73 | a reply "bestmove m [ponder p]" yields the move m |
| ChessAi.NoneReplyIsNull | server/ai/chessEngine.js:68-76 | "bestmove (none)" with any trailing words yields null |
| ChessAi.OnLine | server/ai/chessEngine.js:60-78 | with calls waiting, a bestmove line resolves the most recent call and pops its handler, and any other line is ignored; with none waiting, only 'readyok' changes anything, and it sets ready |
| ChessAi.HandlerRestored | server/ai/chessEngine.js:60-66 | a getBestMove answered by a bestmove line resolves with that move and leaves the wrapper exactly as before, with the 'readyok' handler back in place |
| Text.NatToString | server/ai/chessEngine.js:82 | a template literal prints a number as one or more decimal digits, one digit exactly below 10 |
| Text.NatToStringValue | server/ai/chessEngine.js:82 | reading the printed digits back as a decimal numeral, most significant first, gives the number |
| Text.NatToStringInjective | server/games/carrom.js:22 | different numbers print differently |
| Text.Substring | server/ai/chessEngine.js:70-71 | substring within bounds is the slice, and never longer than the string |
| Text.Split | server/ai/chessEngine.js:64 | split yields at least one part, and no part contains the separator |
| Text.JoinSplit | server/ai/chessEngine.js:64 | joining the parts of a split with the separator gives back the line |
| Text.SplitJoin | server/ai/chessEngine.js:64 | splitting a join of separator-free words gives back the words |
| CarromPhysics.EffectiveMass | public/js/games/carrom.js:261-262 | mass or 1: a zero mass becomes 1, a non-zero mass is kept, and the result is positive for non-negative masses |
| CarromPhysics.ResetStriker | public/js/games/carrom.js:98-104 | the striker is at (400, 660), at rest and in play, with its size, mass and colour kept |
| CarromPhysics.SetupBoard | public/js/games/carrom.js:61-96 | 19 coins, all active, at rest, mass 1 and radius 14, the red queen at (400, 400), and the striker reset; no other field of the table changes |
| CarromPhysics.SetupColoursLayered | public/js/games/carrom.js:61-92 | the colours in order are red, the inner ring alternating white and black, and the outer ring in the pattern white, white, black |
| CarromPhysics.LayoutColourCounts | public/js/games/carrom.js:66-92 | that colour sequence holds one red, eleven white and seven black coins |
| CarromPhysics.SetupColours | public/js/games/carrom.js:61-92 | the client's layout has exactly one red coin, the queen, eleven white and seven black |
| CarromPhysics.DragStart | public/js/games/carrom.js:130-146 | ignored while the striker is out of play or animating; otherwise a press within two striker radii starts a drag with start and current point at the press, and any other press with y in (620, 700) moves the striker along the baseline to max(100, min(700, x)); nothing else changes |
| CarromPhysics.DragMove | public/js/games/carrom.js:148-152 | the drag follows the mouse only while dragging |
| CarromPhysics.ShotPower | public/js/games/carrom.js:163-165 | power is 0.15 times the drag length, capped at 40; so it never exceeds 40 and is above 1.5 for any launching drag |
| CarromPhysics.DragEnd | public/js/games/carrom.js:154-175 | a release always ends the drag and leaves the coins; a drag longer than 10 starts the animation and gives the striker velocity (cos a, sin a) times min(0.15 d, 40), with d the drag length and a the angle from the current point to the start; a shorter drag changes nothing else; the animation starts only that way |
| CarromPhysics.LaunchSpeed | public/js/games/carrom.js:162-169 | a launched striker's speed is exactly the shot power, so at most 40 |
| CarromPhysics.Damp | public/js/games/carrom.js:204-208 | friction never increases a velocity component's magnitude; a component becomes 0.985 times itself when that is still at least 0.1 in magnitude, and 0 otherwise |
| CarromPhysics.Walls | public/js/games/carrom.js:210-214 | the wall checks never increase a velocity component's magnitude; a body of radius at most 350 ends within [50 + r, 750 - r] on both axes; on each axis such a body over a rail is put back against it with its velocity reversed and scaled by 0.7, and a body already inside is untouched |
| CarromPhysics.PocketCheck | public/js/games/carrom.js:216-229 | a body within 35 of the pocket is pocketed: the striker is reset, a coin leaves play where it is; any other body is untouched |
| CarromPhysics.PocketPassFacts | public/js/games/carrom.js:217-230 | the pocket pass never speeds a body up, never takes the striker out of play, and at most deactivates a coin |
| CarromPhysics.StepBody | public/js/games/carrom.js:195-231 | a body at rest is left alone; a step never changes a body's size, mass or colour |
| CarromPhysics.StepNeverSpeedsUp | public/js/games/carrom.js:196-229 | one step never increases the magnitude of either velocity component |
| CarromPhysics.StepPocketing | public/js/games/carrom.js:216-229 | the striker is never out of play after its own step |
| CarromPhysics.Exchange | public/js/games/carrom.js:259-265 | the exchange along the line of centres conserves m1 v1 + m2 v2 and reverses the relative velocity |
| CarromPhysics.EqualMassesSwap | public/js/games/carrom.js:264-265 | equal masses swap their velocities along the line of centres |
| CarromPhysics.ExchangeConservesEnergy | public/js/games/carrom.js:264-265 | the exchange also conserves kinetic energy |
| CarromPhysics.RotateRoundTrip | public/js/games/carrom.js:253-272 | rotating a velocity into the collision frame and back gives it back when cos^2 + sin^2 = 1 |
| CarromPhysics.UnrotateRoundTrip | public/js/games/carrom.js:253-272 | rotating back and then into the collision frame also gives the vector back |
| CarromPhysics.RotateLinear | public/js/games/carrom.js:253-257 | rotating each velocity then weighting by mass equals rotating the weighted sum |
| CarromPhysics.UnrotateLinear | public/js/games/carrom.js:268-272 | the same holds for the rotation back |
| CarromPhysics.ExchangeCombine | public/js/games/carrom.js:264-265 | the exchange conserves the pair's momentum in the collision frame on both axes |
| CarromPhysics.PairResponseMomentum | public/js/games/carrom.js:253-272 | rotate, exchange and rotate back conserves the pair's momentum on the board's axes |
| CarromPhysics.Respond | public/js/games/carrom.js:249-272 | the collision response changes only the two velocities |
| CarromPhysics.RespondElastic | public/js/games/carrom.js:253-272 | in the frame of the line of centres the response reverses the relative velocity along the line and keeps each body's velocity across it |
| CarromPhysics.RespondConservesMomentum | public/js/games/carrom.js:249-272 | the collision response conserves the pair's momentum, with mass or 1 as the mass |
| CarromPhysics.Separate | public/js/games/carrom.js:274-284 | the push changes only positions; the two displacements differ by exactly the overlap along the line of centres; their mass-weighted sum is zero, so the centre of mass stays put |
| CarromPhysics.HeavierMovesLess | public/js/games/carrom.js:279-284 | the two shares m2/(m1 + m2) and m1/(m1 + m2) sum to 1, and the heavier body gets the smaller one |
| CarromPhysics.Interact | public/js/games/carrom.js:237-285 | a pair farther apart than the sum of their radii is untouched; an interaction never changes mass, size, colour or whether a body is in play |
| CarromPhysics.InteractTouching | public/js/games/carrom.js:242-272 | for a pair closer than the sum of their radii, the interaction reverses the relative velocity along the line of centres and keeps the velocities across it |
| CarromPhysics.InteractPushesApart | public/js/games/carrom.js:242-284 | a touching pair is pushed apart along the line of centres by the overlap plus one, and the centre of mass stays put |
| CarromPhysics.InteractConservesMomentum | public/js/games/carrom.js:237-285 | every pair interaction conserves the pair's momentum |
| CarromPhysics.PairStepConserves | public/js/games/carrom.js:237-285 | one pair interaction leaves the momentum of the whole entity list unchanged |
| CarromPhysics.Row | public/js/games/carrom.js:236-286 | the inner collision loop changes only positions and velocities |
| CarromPhysics.RowConservesMomentum | public/js/games/carrom.js:236-286 | the inner collision loop conserves the total momentum |
| CarromPhysics.Sweep | public/js/games/carrom.js:235-287 | the collision pass changes only positions and velocities |
| CarromPhysics.SweepConservesMomentum | public/js/games/carrom.js:235-287 | the whole collision pass conserves the total momentum of the frame's entity list, which includes coins pocketed earlier in this frame |
| CarromPhysics.Active | public/js/games/carrom.js:193 | a coin is in play exactly when it is a coin of the board and active; never more than there are coins |
| CarromPhysics.Merge | public/js/games/carrom.js:193-232 | writing the processed entities back keeps the coin count and leaves every inactive coin as it was |
| CarromPhysics.MergeUnchanged | public/js/games/carrom.js:193 | writing back unprocessed entities gives the coins back |
| CarromPhysics.ActiveAppend | public/js/games/carrom.js:193 | filtering distributes over concatenation, so the coins in play keep the board's order |
| CarromPhysics.MergeActive | public/js/games/carrom.js:193-229 | after write-back the coins in play are exactly the processed entities still active |
| CarromPhysics.StepAll | public/js/games/carrom.js:195-232 | the movement pass leaves bodies at rest alone, never speeds a body up along either axis, keeps every body's size, mass and colour, keeps the striker in play, and can only take a coin out of play |
| CarromPhysics.Entities | public/js/games/carrom.js:193 | the entity list is the striker followed by the active coins in order |
| CarromPhysics.Frame | public/js/games/carrom.js:189-287 | a frame keeps the entity count and non-negative masses, and whether a body is in play is decided by its own step |
| CarromPhysics.Apply | public/js/games/carrom.js:193-292 | the frame's first entity becomes the striker (reset when the frame stops) and the rest go back into the coin array in place of the active coins |
| CarromPhysics.UpdateAsWritten | public/js/games/carrom.js:189-294 | the frame as written: nothing happens unless animating; inactive coins and the drag are kept; the coins are the frame's output merged back and the striker is the frame's first entity, reset when the frame stops; the animation stops exactly when no body was stepped and the striker's velocity is exactly zero |
| CarromPhysics.LoneStrikerFrame | public/js/games/carrom.js:193-287 | with no coin in play and the striker below the rest threshold, the frame leaves the one entity unchanged |
| CarromPhysics.CreepStallsAsWritten | public/js/games/carrom.js:196-197 | as written, a lone striker creeping below the threshold makes update() a no-op that keeps animating for ever |
| CarromPhysics.HeadOnHitLeavesCreep | public/js/games/carrom.js:235-286 | through the collision code, the striker at 0.3 hitting a resting coin head-on leaves at 0.1 along x, not above the threshold, and the coin leaves at 0.4 |
| CarromPhysics.Update | public/js/games/carrom.js:189-294 | the frame with the stop test corrected (see Findings): nothing happens unless animating; inactive coins are untouched; the drag is kept; the new striker and coins are the frame's output; the animation stops exactly when no body was stepped and the striker is not above the threshold, and the striker is then reset |
| CarromPhysics.CreepSettles | public/js/games/carrom.js:289-292 | with the corrected test, the creeping lone striker stops the animation and is put back on the baseline in one frame |
| CarromPhysics.StopsRefinesAsWritten | public/js/games/carrom.js:289-292 | whenever the code as written stops the animation, the corrected frame stops it with the same result |
| CarromPhysics.FrameConservesCollisionMomentum | public/js/games/carrom.js:234-287 | the collision pass of a frame conserves the momentum the movement pass left |
| CarromPhysics.PocketedCoinsLeavePlay | public/js/games/carrom.js:193-229 | a coin pocketed in a frame is not an entity of the next frame |

## Findings

| source | as written | input that shows it | evidently intended | confidence | as-written member | corrected member |
|---|---|---|---|---|---|---|
| public/js/games/carrom.js:289 | the animation stops only when no body was stepped and the striker's vx and vy are exactly 0, but line 196 never steps a body whose components are both at most 0.1, so a striker left at, say, vx = 0.05 is never stepped and never counts as stopped; `animating` stays true and handleDragStart (line 131) ignores every later press | an animating table with no coin in play and the striker at (400, 400) with vx = 0.05, vy = 0; such a striker arises from a head-on hit at 0.3 on a resting coin (it keeps 0.1, `HeadOnHitLeavesCreep`) or from a wall bounce at low speed | stop once no body was stepped and the striker is itself not above the 0.1 threshold, then reset it | high; not executed | CarromPhysics.CreepStallsAsWritten | CarromPhysics.CreepSettles |

## Left out

- Socket.IO, HTTP, the lobby, routes, database models, scripts, the DOM, canvas
  rendering, the requestAnimationFrame loop with its time step, sounds and console
  logging are not modelled. The time step `dt` is a parameter of `Update`.
- The chess.js library and the Stockfish engine are not modelled. chess.js is the
  `ChessLib` parameter; Stockfish appears only as the lines it sends to `OnLine`.
- The `ChessAI` constructor and `init` are not modelled: creating the engine,
  awaiting its promise, and posting 'uci', the skill option and 'isready'. Whether
  an engine exists is the `present` flag, and the installed 'readyok' handler is
  `OnLine` with no call waiting.
- The promise of `getBestMove` is not modelled. Its resolution is the `Resolution`
  value `OnLine` returns.
- IEEE floating point is not modelled; all carrom arithmetic is over reals. Without
  NaN, the fallback shot of the carrom AI is unreachable (`ShotIsCheapest`).
- `Math.cos`, `Math.sin`, `Math.atan2`, `Math.hypot` and `Math.PI` are not modelled.
  They are the `Trig` parameter; the momentum and distance lemmas assume only
  cos^2 + sin^2 = 1.
- `Math.random()` is not modelled; it is the `rand` parameter in [0, 1).
- The `difficulty` field of the carrom AI is not modelled: the code never reads it.
- Missing `data` objects and missing fields in them are not modelled. In JavaScript
  they throw a TypeError while destructuring; `Action` always carries its fields.
  The four-player 'move' does model an absent or off-board row as a TypeError.
- The text of runtime TypeErrors is not modelled; the model sends the fixed message
  "TypeError".
- Four-player chess has no `assignPlayer`, so `AddPlayer` leaves that engine
  unchanged, and the seated branches of its `processAction` are reachable only from
  states no operation builds. They are modelled anyway, because that is what the
  code does.
- The client and server carrom layouts differ, and each is modelled as written. The
  client has 11 white and 7 black coins with ring distances 29.4 and 57.4; the
  server has 9 and 9, with rings 29 and 54.
- FourChessClient.IsInvalidSquare: the equivalence with the corner blocks is stated
  only for 0 <= r, c < 14, the grid the renderer walks.
- StandardChessClient.ToSquare: stated only for 0 <= row, col < 8, the grid the
  renderer walks; outside it the JavaScript produces names such as "undefined9".
- CarromServer.TurnsGoRound: stated for distinct player ids. With a repeated id,
  `indexOf` finds only the first seat, so the holder of a later seat is gated out.
- FourChess.NextTurn: requires a colour still in play. With all four eliminated, the
  source loops forever; nothing ever eliminates a colour.
- CarromPhysics.StepBody: states only that a body at rest is untouched and that a
  step keeps size, mass and colour. The movement itself is the definition.
- CarromPhysics.Walls: the bound on the final position and the exact position and
  velocity are stated for radii up to 350. A larger body cannot fit between the
  rails, and both checks on one axis would then fire in turn.
- CarromPhysics.Frame: conservation is stated for the collision pass only
  (`FrameConservesCollisionMomentum`). Friction, wall bounces and the striker foul
  do not conserve momentum.
