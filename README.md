# Chapaev match controller, modelled in Dafny

This project models the match controller of a browser game of Chapaev, the
game where players flick checkers at each other. The controller is the class
`Checkers` in `src/app/game/Engine/Checkers.ts`, and the project also models
the state enumeration and the layout arithmetic in
`src/app/game/Engine/const.ts`.

The controller keeps two ordered lists of live pieces:
- the player's light pieces;
- the enemy's (or bot's) dark pieces.

It also keeps an optional selected piece and the shared match state:
`init`, `ready`, `playerTurn`, `playerTurnAnimation`, `enemyTurn`,
`enemyTurnAnimation` or `gameOver`. Three things change this state:
- **Left and right clicks.** A left click selects a piece of the side to
  move, or throws the selected piece. A right click cancels the selection.
- **The per-tick `update(dt)`.** On the first tick it creates the pieces.
  On later ticks it:
  1. removes the pieces that left the board;
  2. advances every piece;
  3. runs the collision pass over every ordered pair of distinct pieces;
  4. hands the turn over once every piece is still;
  5. ends the game when a side has no pieces.
- **The bot (with `withBot`).** It takes its turn right after the player's
  shot has come to rest. It picks the first closest (enemy, player) pair,
  selects its piece, and schedules a deferred throw.

Modules, one concept each:

| file | module | models |
|---|---|---|
| `constants.dfy` | `Constants` | `GameState` and the canvas, area, radius and speed formulas of `const.ts` |
| `placement.dfy` | `Placement` | where the sixteen initial pieces are centred |
| `pieces.dfy` | `Pieces` | a piece as an object identity; the calls the controller makes into pieces, as `Event`s |
| `scans.dfy` | `Scans` | the first-hit search of the hit test |
| `survivors.dfy` | `Survivors` | the garbage collector's filtering, and the removal loop that realises it |
| `collisions.dfy` | `Collisions` | which `collide` calls one collision pass makes, and that the nested loops make exactly those |
| `botsearch.dfy` | `BotSearch` | the bot's nested-loop running minimum |
| `turns.dfy` | `Turns` | the score, the click decision, the turn hand-over and the end of a tick, as values |
| `checkers.dfy` | `Controller` | the class `Checkers`, with fields updated in place by its methods |

Pieces and their physics live in `Checker.ts`, which is not part of this
model. The controller asks a piece
four things:
- `isOutOfBoundaries`;
- `isStill`;
- `pointFromHere`;
- `distTo`.

Each question becomes a function parameter of the method that asks it. The
parameter stands for the pieces' answers at that point of the tick. The
controller's calls into pieces (`update`, `collide`, `throw`, `makeActive`,
`makeInactive`) are appended, in order, to the field `events`.
The state accessors passed in by the engine become the field `state`.

`Math.random()` becomes a parameter `r` in `[0, 1)`. `setTimeout(botThrow, 700)` becomes
a queue `pending` of scheduled shots, and `BotFire` fires the oldest one.

The comment above `botPickCheckers` calls `players2` the second minimum by
distance. The loop actually keeps the player piece that the last improvement
displaced, and the model follows the code. When the first pair is already the
closest, that piece is the target itself (`BotSearch.SecondCanBeTarget`).

The bot aims at `players2` when the random draw exceeds 0.65, and at
`players1` otherwise.

## Model

| member | source | states |
|---|---|---|
| Constants.Ordinal | src/app/game/Engine/const.ts:8-16 | every state has one of the values 0..6 |
| Constants.FromOrdinal | src/app/game/Engine/const.ts:8-16 | each value 0..6 names the state with that value |
| Constants.OrdinalIsBijective | src/app/game/Engine/const.ts:8-16 | the numbering is a bijection: seven distinct states |
| Constants.CanvasWidth | src/app/game/Engine/const.ts:21-23 | the canvas side is at least 270 and at least the smaller of 90% of the screen width and 75% of (height − 100). When it is larger than 270 it equals one of them and exceeds neither, so it is max(min(0.9·W, 0.75·(H − 100)), 270) |
| Constants.AreaWidth | src/app/game/Engine/const.ts:25-27 | the playing area is at least 202.5 and strictly narrower than the canvas |
| Constants.CheckerRadius | src/app/game/Engine/const.ts:29-31 | the radius is positive, and a piece's diameter is less than one eighth of the area, the width of a cell |
| Constants.StartCoord | src/app/game/Engine/const.ts:33-35 | the offset is positive, and it centres the area in the canvas (2·offset + area = canvas) |
| Constants.MaxSpeed | src/app/game/Engine/const.ts:37-39 | the largest throw speed is at least 337.5 and exceeds the canvas side |
| Constants.MaxSpeedDist | src/app/game/Engine/const.ts:41-43 | the drag distance for the largest speed is positive and below that speed |
| Placement.InitialPiecesInsideArea | src/app/game/Engine/Checkers.ts:98-109 | every initial piece's disc lies inside the playing area on both axes |
| Placement.InitialPiecesApart | src/app/game/Engine/Checkers.ts:67-85 | neighbouring columns are one step apart and the two rows seven steps apart. A step exceeds a diameter, so no initial pieces overlap |
| Controller.RowOfSnoc | src/app/game/Engine/Checkers.ts:98-112 | appending a new piece of the next column keeps a row well formed: distinct pieces, centres at x + step/2 + step·i and y + step/2 |
| Controller.RowsAreInitial | src/app/game/Engine/Checkers.ts:67-85 | a dark row at the area corner plus a light row seven steps lower form the two rows of a new match |
| Pieces.Piece.constructor | src/app/game/Engine/Checkers.ts:99-109 | a new piece remembers the centre, radius and colour it was created with |
| Controller.Checkers.constructor | src/app/game/Engine/Checkers.ts:30-46 | a new controller has empty lists, no selection, the given bot flag and state, and no calls made |
| Controller.Checkers.IsGameOver | src/app/game/Engine/Checkers.ts:264-266 | the game is over exactly when the enemy list or the player list is empty |
| Controller.Checkers.GetScore | src/app/game/Engine/Checkers.ts:268-273 | the score is the `Turns.Score` of the list lengths, within [−400, 800] while each side has at most 8 pieces |
| Turns.Score | src/app/game/Engine/Checkers.ts:268-273 | within [−400, 800] for at most 8 pieces a side. 800 exactly when every enemy piece is captured and none of the player's lost; −400 exactly in the opposite case |
| Turns.ScoreExamples | src/app/game/Engine/Checkers.ts:268-273 | the starting position scores 0, three captures score 300, five losses score −250 |
| Turns.ScoreIncrements | src/app/game/Engine/Checkers.ts:268-273 | each captured enemy piece is worth +100, each lost own piece −50 |
| Scans.FirstHitIndex | src/app/game/Engine/Checkers.ts:166-171 | the index returned is the first position whose piece contains the point, or the length when none does |
| Scans.FirstHitIndexIs | src/app/game/Engine/Checkers.ts:166-171 | the first-hit index is unique: any index with no earlier hit and a hit there (or at the end) is it |
| Scans.FirstHitConcat | src/app/game/Engine/Checkers.ts:165-173 | searching enemy then player equals searching the concatenation. It finds nothing iff no piece of either list contains the point |
| Turns.TakesClicks | src/app/game/Engine/Checkers.ts:135-137 | a left click is handled only in the two turn states. With the bot on, only in playerTurn; without it, in playerTurn and enemyTurn |
| Controller.FindIn | src/app/game/Engine/Checkers.ts:166-168 | one loop of the hit test returns the first piece of its list that contains the point, or nothing |
| Controller.Checkers.FindCheckerByCords | src/app/game/Engine/Checkers.ts:165-173 | the result is the first enemy piece containing (x, y), else the first player piece containing it. A piece found contains the point and is live; nothing is found iff no live piece contains it |
| Controller.Checkers.AreCheckersStill | src/app/game/Engine/Checkers.ts:204-212 | true iff every player piece and every enemy piece is still |
| Pieces.Release | src/app/game/Engine/Checkers.ts:119 | `selectedChecker?.makeInactive()` calls `makeInactive` on the selection if there is one, and makes no call otherwise |
| Controller.Checkers.RightClick | src/app/game/Engine/Checkers.ts:116-122 | outside the bot's turn, the selection is released and cleared. During the bot's turn nothing changes. Lists, state and pending shots are untouched |
| Turns.Click | src/app/game/Engine/Checkers.ts:134-163 | the click decision. It is ignored exactly outside the two turns and during the bot's turn. It selects exactly a hit piece of the side to move. Otherwise it throws the selection, if there is one |
| Turns.Animating | src/app/game/Engine/Checkers.ts:159-161 | a shot in playerTurn starts playerTurnAnimation, and a shot in enemyTurn starts enemyTurnAnimation |
| Turns.SelectionBelongsToMover | src/app/game/Engine/Checkers.ts:146-155 | a click only selects the piece the hit test found, and only a piece of the side to move, never during the bot's turn |
| Controller.Checkers.Click | src/app/game/Engine/Checkers.ts:134-163 | the new selection, state and calls in each of the four decisions of `Turns.Click`. When not ignored, the old selection is released first. A throw moves the turn into its animation; the lists never change |
| Controller.Checkers.CreateColoredCheckers | src/app/game/Engine/Checkers.ts:90-114 | appends eight new distinct pieces to the list `ours` chooses, piece i centred at (x + step/2 + step·i, y + step/2) with the given radius and colour. The other list is untouched |
| Controller.Checkers.CreateAllCheckers | src/app/game/Engine/Checkers.ts:67-85 | appends eight new dark enemy pieces on the first row and eight new light player pieces on the eighth, piece k of each in column k, all distinct. The earlier contents are kept as a prefix |
| Survivors.Surviving | src/app/game/Engine/Checkers.ts:251-262 | garbage collection never makes a list longer |
| Survivors.SurvivingMembers | src/app/game/Engine/Checkers.ts:251-262 | a piece survives collection iff it was live and is not out of bounds |
| Survivors.SurvivingCounts | src/app/game/Engine/Checkers.ts:251-262 | each piece in bounds survives as many times as it occurred, and each piece out of bounds survives zero times |
| Survivors.SurvivingAppend | src/app/game/Engine/Checkers.ts:251-262 | filtering keeps the order: it distributes over concatenation |
| Survivors.SurvivingCongruent | src/app/game/Engine/Checkers.ts:251-262 | two verdicts that agree on a list's pieces leave the same survivors |
| Survivors.SurvivingTwice | src/app/game/Engine/Checkers.ts:251-262 | filtering by f and then by g is filtering by "f or g" |
| Survivors.SurvivingIdempotent | src/app/game/Engine/Checkers.ts:251-262 | collecting twice with the same verdicts removes nothing more |
| Survivors.SurvivingKeepsAll | src/app/game/Engine/Checkers.ts:251-262 | with no piece out of bounds, collection leaves the list unchanged |
| Survivors.Without | src/app/game/Engine/Checkers.ts:254 | `filter(obj => obj !== checker)` keeps exactly the elements other than the checker, each as often as before, and removes every occurrence of it |
| Survivors.RemovalStep | src/app/game/Engine/Checkers.ts:253-255 | filtering an out-of-bounds piece out of the field removes exactly the pieces seen so far that are out. A piece in bounds changes nothing |
| Survivors.AllSeen | src/app/game/Engine/Checkers.ts:252-256 | after the whole loop, the pieces removed are exactly those out of bounds |
| Survivors.NoneSeen | src/app/game/Engine/Checkers.ts:252-256 | before the loop, nothing is removed |
| Controller.Checkers.CollectSide | src/app/game/Engine/Checkers.ts:252-256 | one loop of `garbageCollector` leaves its list holding exactly its pieces in bounds, in order. The other list is untouched |
| Controller.Checkers.GarbageCollector | src/app/game/Engine/Checkers.ts:251-262 | each list keeps exactly its pieces that are not out of bounds, in order |
| Pieces.Advances | src/app/game/Engine/Checkers.ts:181-182 | one `update(dt)` call per piece of the list, in list order |
| Controller.Checkers.AdvanceAll | src/app/game/Engine/Checkers.ts:181-182 | the loop makes exactly the `update(dt)` calls of `Pieces.Advances` and changes nothing else |
| Collisions.CollisionPairsMembers | src/app/game/Engine/Checkers.ts:214-233 | a pair of positions of player + enemy is met by the pass iff its two positions differ: every ordered pair of distinct pieces, in both orders, and no piece with itself |
| Collisions.CollisionPairsNoDup | src/app/game/Engine/Checkers.ts:214-233 | no pair of positions is met twice in one pass |
| Collisions.CollisionPairsCount | src/app/game/Engine/Checkers.ts:214-233 | one pass over n + m pieces makes (n + m)(n + m − 1) collide calls |
| Collisions.CollisionCalls | src/app/game/Engine/Checkers.ts:214-233 | the pass's calls as pieces. Call k is collide(all[u], all[v]) for its pair (u, v), with u ≠ v. No pair repeats, and every pair of distinct positions occurs. The count is n·(n − 1) for n live pieces |
| Collisions.PartnersMembers | src/app/game/Engine/Checkers.ts:216-219 | the inner loop over a piece's own side meets every position of that side except its own |
| Collisions.RowMembers | src/app/game/Engine/Checkers.ts:215-223 | the two inner loops of one piece meet every other position of either side |
| Collisions.SidePairsMembers | src/app/game/Engine/Checkers.ts:215-223 | the first i iterations of one side's outer loop meet exactly the pairs from those pieces to any other position |
| Collisions.AgainstIsCalls | src/app/game/Engine/Checkers.ts:216-222 | an inner loop's calls are the collide calls of that piece's partners, skipping its own index on its own side |
| Collisions.RowIsCalls | src/app/game/Engine/Checkers.ts:215-223 | both inner loops of a piece together make the calls of its row of pairs |
| Collisions.SideIsCalls | src/app/game/Engine/Checkers.ts:215-223 | the first i outer iterations of one side make the calls of those pieces' rows of pairs |
| Collisions.PassIsCalls | src/app/game/Engine/Checkers.ts:214-233 | the player side's block followed by the enemy side's block makes exactly the calls of `CollisionCalls` |
| Controller.Checkers.CollideRow | src/app/game/Engine/Checkers.ts:216-222 | one inner loop appends a.collide(others[j]) for every j in order, except the skipped index |
| Controller.Checkers.CollideSide | src/app/game/Engine/Checkers.ts:215-223 | one side's block appends every mover's calls against its own side (itself skipped) and then against the other side |
| Controller.Checkers.CheckForCollisions | src/app/game/Engine/Checkers.ts:214-233 | the pass appends exactly the collide calls described by `CollisionCalls`, and changes nothing else |
| BotSearch.RowPairs | src/app/game/Engine/Checkers.ts:284-285 | the inner loop visits (enemy i, player j) for j = 0.. in order |
| BotSearch.FirstMinUnique | src/app/game/Engine/Checkers.ts:283-294 | there is only one first closest pair |
| BotSearch.ScanFindsFirstMin | src/app/game/Engine/Checkers.ts:283-294 | a running minimum replaced only on a strictly smaller distance ends at the first closest pair. Its "second" is the player piece of the first closest pair before it, or the first pair's when there is none |
| BotSearch.PairAt | src/app/game/Engine/Checkers.ts:283-285 | the nested loops visit enemy i with player j at step i·\|player\| + j, out of \|enemy\|·\|player\| |
| BotSearch.RowMajor | src/app/game/Engine/Checkers.ts:283-285 | every step of the nested loops is some (enemy i, player j) |
| BotSearch.BestPickIsFirstClosest | src/app/game/Engine/Checkers.ts:280-296 | `botPickCheckers` returns enemy i and player j forming the first closest pair in row-major order, with "second" as in `ScanFindsFirstMin` |
| BotSearch.BestPickIsClosest | src/app/game/Engine/Checkers.ts:280-296 | no (enemy, player) pair is closer than the one picked |
| BotSearch.BestPick | src/app/game/Engine/Checkers.ts:280-296 | the result of `botPickCheckers`: the bot piece is an enemy piece, both targets are player pieces, and the distance kept is that of the bot piece to the first target |
| BotSearch.Aim | src/app/game/Engine/Checkers.ts:300-303 | the aim is one of the two picked player pieces; when they differ, it is `players2` exactly when the draw exceeds 0.65 |
| BotSearch.SecondCanBeTarget | src/app/game/Engine/Checkers.ts:276-282 | the "second" piece can be the target itself, when the first pair is already the closest |
| BotSearch.ScanSnoc | src/app/game/Engine/Checkers.ts:286-292 | one more comparison extends the scan by one step |
| Controller.Checkers.BotPickCheckers | src/app/game/Engine/Checkers.ts:280-296 | the loops compute `BestPick`. The bot piece is an enemy piece and both targets are player pieces, and no (enemy, player) pair is closer than the one picked. It requires both lists non-empty |
| Controller.Checkers.BotTakeTurn | src/app/game/Engine/Checkers.ts:298-306 | the bot selects and activates its piece from `BestPick`. It schedules a shot at the displaced piece when r > 0.65 and at the closest piece otherwise. Lists and state are unchanged |
| Controller.Checkers.BotFire | src/app/game/Engine/Checkers.ts:321-327 | the oldest scheduled shot is thrown and the selection is released and cleared, so the enemy's shot animates. With no selection left, it fails after the throw, and the selection and the state stay as they were |
| Turns.Handover | src/app/game/Engine/Checkers.ts:187-194 | with everything still, playerTurnAnimation passes to enemyTurn and enemyTurnAnimation to playerTurn. Every other state is left alone |
| Turns.HandoverOnce | src/app/game/Engine/Checkers.ts:187-194 | handing over a still board twice is handing it over once |
| Turns.TurnsAlternate | src/app/game/Engine/Checkers.ts:187-194 | a shot of either side, once at rest, gives the turn to the other side |
| Turns.EndOfTick | src/app/game/Engine/Checkers.ts:187-198 | the bot runs iff a still board ends the player's animation with the bot on. It fails iff it then runs on an empty side, leaving enemyTurn (on an empty player list only, this assumes `distTo` fails on a missing piece). Otherwise an empty side ends the game, and a full board gets the hand-over |
| Turns.EndOfTickCrashes | src/app/game/Engine/Checkers.ts:187-198 | the failing end of tick is reachable: the player's shot knocks out the last enemy piece, or (assuming `distTo` fails on a missing piece) the last own piece |
| Turns.GuardedEndOfTick | src/app/game/Engine/Checkers.ts:187-198 | with the game-over check first, no tick fails, and an empty side ends the game without starting the bot |
| Turns.GuardedAgrees | src/app/game/Engine/Checkers.ts:187-198 | the guarded end of tick equals the one as written except where that one fails; there it ends the game |
| Turns.GameOverIsFinal | src/app/game/Engine/Checkers.ts:196-198 | no tick leaves gameOver |
| Turns.EndOfTickMoves | src/app/game/Engine/Checkers.ts:187-198 | a tick leaves the state as it was, hands the turn over, or ends the game |
| Controller.Checkers.MoveAndCollide | src/app/game/Engine/Checkers.ts:179-185 | removes the pieces out of bounds, then advances every enemy piece and then every player piece, then runs the collision pass over the survivors |
| Controller.Checkers.FinishTick | src/app/game/Engine/Checkers.ts:187-198 | the state becomes `EndOfTick`'s and the tick fails exactly when `EndOfTick` says so. When the bot runs it behaves as in `BotTakeTurn`; otherwise the selection, calls and pending shots are unchanged |
| Controller.Checkers.GuardedFinishTick | src/app/game/Engine/Checkers.ts:187-198 | the same tick end with the game-over check first. The state becomes `GuardedEndOfTick`'s and the bot only starts on two non-empty sides |
| Controller.Checkers.Update | src/app/game/Engine/Checkers.ts:175-202 | with no enemy pieces it only creates the pieces: eight new distinct dark enemy pieces on the first row and eight new light player pieces appended on the eighth, piece k of each in column k. Otherwise the lists become the survivors and the calls are the advances plus the collision pass over them. The state, the outcome and the bot's move are those of `EndOfTick` on the survivors |

## Left out

- The piece class `Checker.ts`, its physics (motion, friction, collision response, bounds and stillness tests) and `AbstractGameObject.ts` are not part of this model. Their answers are function parameters, and calls into pieces are recorded as events.
- Drawing and DOM wiring are not modelled: `init` (Checkers.ts:48-62) and `delete` (236-245) attach and remove the click, right-click, scroll and resize handlers. The scroll and resize handler (124-132) copies the canvas origin into the inherited `x`/`y`, and `draw` (247-249) is empty. None of them reads or writes the lists, the selection or the state.
- The engine around the controller (`GameEngine.ts`, `ChessBoard.ts`, `page.tsx`) is not part of this model. Its state accessors are the field `state`.
- Controller.Checkers.BotFire: the aim geometry (Checkers.ts:308-321) is left out. It uses floating-point trigonometry with a random deviation, so the aim point is a parameter.
- Controller.Checkers.BotTakeTurn: the 700 ms timer is a queue of pending shots, fired by `BotFire` at any later time. Timing and interleaving with ticks are not modelled.
- Controller.Checkers.FinishTick: when only the player list is empty, the model takes the bot's search to fail. In the source it calls `distTo` with a missing piece, and `Checker.distTo` is not part of this model. If `distTo` returned a value instead, the tick would reach gameOver and the failure would come later, in the deferred shot.
- Controller.Checkers.Update: `distTo`, `isStill` and `isOutOfBoundaries` are each sampled once, as functions, at the point where the tick asks them.
- `Math.random()` is the parameter `r`, and screen size is the parameters `screenW` and `screenH`. Positions and sizes are exact reals, not floating point.
- Controller.Checkers.CreateColoredCheckers: `checker.init()` and the canvas context passed to each piece are left out. A piece records only its creation centre, radius and colour.

## Findings

| source | as written | input that shows it | evidently intended | confidence | as-written member | corrected member |
|---|---|---|---|---|---|---|
| src/app/game/Engine/Checkers.ts:187-198 | `update` hands the turn to the bot before it checks for game over. On an emptied enemy list the bot's search takes `undefined` as its piece (281), and the call `bots.distTo(players1)` (282) throws | with the bot on, the player's shot in playerTurnAnimation knocks the last enemy piece off the board and every piece is still: `_botTakeTurn` runs on an empty enemy list, and the match stays in enemyTurn instead of reaching gameOver | check game over first, and start the bot only while both sides have pieces | not executed | Turns.EndOfTickCrashes | Turns.GuardedAgrees |
