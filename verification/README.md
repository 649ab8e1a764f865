# Three browser games, modelled in Dafny

This project models the game-state core of three small canvas games and proves
properties of that model:

* **Blockfall** (`blockfall.dfy`, module `Blockfall`) is a falling-block puzzle.
  A 10 x 20 grid of settled cells holds one falling piece from a table of seven
  letters. The player moves the piece, turns it with wall kicks, drops it one row
  or all the way, and may hold it once. A piece at rest is merged into the grid.
  Then the full rows are swept, scored with the table 100/300/500/800, and the
  next piece comes from a queue refilled four letters at a time. The script's
  module-level variables become the fields of the class `Blockfall.Game`. Each
  of its methods is proved against a ghost transition function on the value
  `State`, and lemmas show that each transition keeps `ValidState`:
  * no settled row is full;
  * the falling piece is inside the grid and free;
  * the queue holds 3 to 6 letters;
  * a hold is possible only while the slot is empty;
  * the level follows the line count, and the drop interval stays within
    50 .. 1000 ms.
* **Treasure Hunter** (`treasure.dfy`, module `TreasureHunter`) is a platform
  digger on a 28 x 16 tile grid, with ladders, breakable tiles, treasures and
  enemies that chase the player.
  * The player digs holes that close again after 5000 ms.
  * An enemy that steps into a hole is trapped for 100 frames, for 75 points.
  * A treasure is worth 100 points.
  * Touching a free enemy costs a life.
  * Collecting every treasure builds the next level.

  The grid is an `array2` updated in place. The game object is the class
  `TreasureHunter.Game`.
* **Tower Rescue** (`rescue.dfy`, module `TowerRescue`) is a climbing game on
  three floors joined by ladders. A beast throws barrels and fireballs, and the
  player collects bonus items against a countdown. Reaching the victim scores
  5000 points plus 100 per second left, and starts a harder level. The game
  object is the class `TowerRescue.Game`, and every step of its `update` is a
  method.

Two small shared modules support the games:

* `Random` (`random.dfy`) models `Math.random`. It is an oracle
  `rand: nat -> real` whose values lie in [0, 1), read at an index `drawn` that
  counts the rolls used so far. The operations that roll state which rolls they
  use. There are exceptions. The Treasure Hunter constructor bounds only how many
  rolls it uses. The whole-frame updates leave the rolls to their steps:
  `TreasureHunter.Game.Update`, and `TowerRescue.Game.MoveWorld`, `EndFrame` and
  `Update`.
* `Splice` (`splice.dfy`) holds the two sequence facts behind an in-place
  `splice` or element update made while a list is walked from the back.

Pixel positions, speeds and timers are JavaScript numbers. They are modelled as
exact `real`s, and tile indices as `int`s.

Where the source's behaviour looks accidental, the model follows it:

* The Blockfall sweep never examines row 0 unless a lower row was cleared first.
* The Blockfall queue holds 3 to 6 letters after a refill and a shift, not at
  least four.
* Blockfall's restart keeps the drop interval of the game before it, so a new
  game can start at a higher speed.
* Treasure Hunter's treasure and enemy lists are never cleared when a new level
  is built.
* Treasure Hunter's open holes are not cleared on a new level either
  (src/games/treasurehunter/game.js:354-358). A hole dug in the old level still
  closes into the new grid as a breakable tile, and until then it still traps
  enemies.
* Treasure Hunter's `checkGameConditions` builds the next level even in the frame
  in which the game ended, when the last life and the last treasure go together.
* Tower Rescue's Enter key starts a new game on the current level, keeping the
  victim where it stands.
* In Tower Rescue, a hazard that has just fallen off the canvas can still hit
  the player in the same frame.
* In Tower Rescue, the win check also runs in the frame in which the game ended.

The one exception is the order in which Blockfall settles a piece; see Findings.
The corrected order also changes which games are lost, both ways:

* On the Findings example the game ends in the model. The sweep moves row 0
  into the T's spawn place before the T is tested (`Blockfall.ExampleSettledEnds`).
* A piece that completes a row under the spawn place ends the source's game.
  There, the collision test in `playerReset` (src/games/blockfall/game.js:233-238)
  sees the unswept grid. The model sweeps that row first and goes on.

The two orders also differ in what a fatal settle counts:

* In the source's order, a next piece that the merged grid blocks empties the
  grid before the sweep. So no row is counted, and lines, level and drop interval
  stay as they were (`Blockfall.FatalSettleCountsNothing`). Restart keeps that
  drop interval, so the next game starts at the speed the lost game had before
  its last piece.
* In the model's order, the rows cleared by the last piece are counted into
  lines, level and drop interval even when the next piece ends the game
  (`Blockfall.SettledCountsCleared`). The next game can then start faster.

## Model

| member | source | states |
|---|---|---|
| Blockfall.Shape | src/games/blockfall/game.js:40-75 | every table shape is rectangular: I is one row of four, O two rows of two, every other letter two rows of three |
| Blockfall.ShapeHasTopBlock | src/games/blockfall/game.js:40-75 | every table shape is at most 4 x 4 with a block, and has a block in its top row |
| Blockfall.Spawn | src/games/blockfall/game.js:84-91 | a new piece starts on row 0 with its table shape and lies inside the grid horizontally |
| Blockfall.Collide | src/games/blockfall/game.js:134-146 | the early-exit scan reports a hit exactly when some block of the piece falls on a missing row or column or on a nonzero cell |
| Blockfall.Collides | src/games/blockfall/game.js:134-146 | defines a collision: some block of the piece is on a missing row or column or on a nonzero cell |
| Blockfall.FreeFits | src/games/blockfall/game.js:134-146 | a piece that does not collide lies wholly inside the grid |
| Blockfall.Merged | src/games/blockfall/game.js:148-156 | merging keeps the grid's dimensions, and every cell under a block or already set is set afterwards |
| Blockfall.MergedPieceCollides | src/games/blockfall/game.js:148-156 | once merged, a piece collides at its own place, so it cannot stay the falling piece |
| Blockfall.MergePiece | src/games/blockfall/game.js:148-156 | the nested loops write exactly the merged grid |
| Blockfall.MergeFillsOnlyPieceRows | src/games/blockfall/game.js:148-156 | merging into a grid without full rows can fill only rows the piece spans |
| Blockfall.ReverseAt | src/games/blockfall/game.js:171 | entry k of a reversed row is entry len-1-k of the original |
| Blockfall.Rotate | src/games/blockfall/game.js:165-172 | turning an R x C matrix gives a rectangular C x R matrix |
| Blockfall.RotateAt | src/games/blockfall/game.js:158-172 | entry (i, j) of the turn is entry (R-1-j, i), the clockwise quarter turn of the commented-out version |
| Blockfall.FourTurnsIdentity | src/games/blockfall/game.js:165-172 | four quarter turns give back the original matrix |
| Blockfall.RotatePreservesBlocks | src/games/blockfall/game.js:165-172 | a quarter turn keeps the number of blocks |
| Blockfall.RotateWellShaped | src/games/blockfall/game.js:165-172 | a quarter turn of a shape of at most 4 x 4 with a block is again such a shape |
| Blockfall.KickStep | src/games/blockfall/game.js:176-187 | the offsets 1, -2, 3, ... move the piece through shifts 0, 1, -1, 2, ...; the search stops exactly when the next offset exceeds the width |
| Blockfall.KickSearchKicked | src/games/blockfall/game.js:174-189 | the kick loop as written tests exactly the shifts KickShift(0) .. KickShift(n-1), in order, and takes the first free one |
| Blockfall.RotateOutcomeCases | src/games/blockfall/game.js:174-189 | a rotation either leaves the piece unchanged or turns it and moves it to a tested free column; the row never changes and a free piece stays free |
| Blockfall.AllKicksBlockedReverts | src/games/blockfall/game.js:183-186 | when every tested shift collides, the original shape and column are restored |
| Blockfall.Turn | src/games/blockfall/game.js:174-189 | the method with the kick loop yields the rotation outcome that RotateOutcomeCases characterises |
| Blockfall.FreeIsAboveBottom | src/games/blockfall/game.js:210-212 | a free piece with a block lies above the bottom, so the hard-drop loop ends |
| Blockfall.Dropped | src/games/blockfall/game.js:209-213 | a hard drop keeps column and shape, never rises, ends free with the next row down blocked, and every row it passes is free |
| Blockfall.Fall | src/games/blockfall/game.js:209-213 | the hard-drop loop stops exactly where Dropped says |
| Blockfall.Kept | src/games/blockfall/game.js:245-256 | the rows a sweep keeps are no more than the input and none of them is full |
| Blockfall.KeptConcat | src/games/blockfall/game.js:245-256 | rows are kept or dropped one by one, so kept rows keep their order |
| Blockfall.Swept | src/games/blockfall/game.js:243-256 | a sweep keeps the number of rows |
| Blockfall.SweptIsGrid | src/games/blockfall/game.js:243-256 | a sweep keeps a 20 x 10 grid a 20 x 10 grid |
| Blockfall.SweptClearsAll | src/games/blockfall/game.js:245-256 | rows are cleared exactly when a row below the top is full; then no full row is left, and otherwise the grid is unchanged |
| Blockfall.SweepOneRow | src/games/blockfall/game.js:252-255 | a single full row is removed, the rows above it move down one, a zero row appears on top and one row counts |
| Blockfall.SweepRemove | src/games/blockfall/game.js:252-255 | cutting a full row and re-examining the same index keeps the sweep-loop invariant |
| Blockfall.SweepKeep | src/games/blockfall/game.js:246-250 | moving up past a row that is not full keeps the sweep-loop invariant |
| Blockfall.SweepDone | src/games/blockfall/game.js:245 | when the loop stops at row 0, its grid and count are the swept grid and the cleared count |
| Blockfall.SweepLoopSweeps | src/games/blockfall/game.js:245-256 | from any state of the invariant, running the loop to its end gives the swept grid and the cleared count |
| Blockfall.RemoveFullRows | src/games/blockfall/game.js:243-256 | the sweep loop leaves the swept grid and counts the cleared rows |
| Blockfall.RowIsFull | src/games/blockfall/game.js:246-250 | a row is full exactly when none of its cells is zero |
| Blockfall.ClearedAtMostFour | src/games/blockfall/game.js:258-259 | after a settle at most four rows are cleared, so the score-table lookup is in range |
| Blockfall.LineScore | src/games/blockfall/game.js:259 | clearing n rows is worth between 100 n and 200 n points |
| Blockfall.DropInterval | src/games/blockfall/game.js:262 | the drop interval lies in 50 .. 1000 ms and reaches 50 exactly from level 19 on |
| Blockfall.Refilled | src/games/blockfall/game.js:226-228 | a refill keeps the old queue as a prefix and leaves at least four letters; from a queue of at most six, 3 to 6 remain after the shift |
| Blockfall.NoFullRowEmpty | src/games/blockfall/game.js:27 | the initial grid is 20 x 10 with no full row |
| Blockfall.SpawnFree | src/games/blockfall/game.js:84-91 | a new piece never collides with an empty grid |
| Blockfall.FullTopBlocksSpawn | src/games/blockfall/game.js:233-238 | a full top row blocks every new piece, so it ends the game |
| Blockfall.Locked | src/games/blockfall/game.js:194-196 | defines merge then sweep: the state with the piece merged, the full rows swept, and score, lines, level and interval updated |
| Blockfall.Respawned | src/games/blockfall/game.js:225-241 | defines playerReset: refill the queue, spawn its first letter, and on a collision end the game with an empty grid and score 0 |
| Blockfall.Settled | src/games/blockfall/game.js:190-218 | defines a piece coming to rest, in the corrected order: merge, sweep, then respawn |
| Blockfall.SettledGridValid | src/games/blockfall/game.js:225-264 | after a sweep, a grid that a new piece can enter has no full row |
| Blockfall.RespawnedValid | src/games/blockfall/game.js:225-241 | playerReset keeps the state valid when the grid has no full row or when any full row blocks the new piece |
| Blockfall.SettledValid | src/games/blockfall/game.js:190-218 | a piece at rest leaves a valid state; the line count never drops; the score grows, or a game over resets it to 0; the hold slot is untouched |
| Blockfall.Moved | src/games/blockfall/game.js:202-207 | defines a sideways step that is undone when the moved piece collides |
| Blockfall.MovedValid | src/games/blockfall/game.js:202-207 | a sideways step keeps the state valid |
| Blockfall.MoveBack | src/games/blockfall/game.js:202-207 | a step that succeeded is undone by the opposite step |
| Blockfall.Rotated | src/games/blockfall/game.js:174-189 | defines playerRotate: the piece becomes the rotation outcome |
| Blockfall.RotatedValid | src/games/blockfall/game.js:174-189 | a rotation keeps the state valid |
| Blockfall.DroppedOne | src/games/blockfall/game.js:190-200 | defines playerDrop: one row down, or a settle when that row collides |
| Blockfall.DroppedOneValid | src/games/blockfall/game.js:190-200 | a one-row drop keeps the state valid |
| Blockfall.HardDropped | src/games/blockfall/game.js:209-218 | defines the hard drop: straight down to rest, then a settle |
| Blockfall.HardDroppedValid | src/games/blockfall/game.js:209-218 | a hard drop keeps the state valid and comes to rest on something |
| Blockfall.KindOf | src/games/blockfall/game.js:322-323 | the table lookup of the current shape never leaves the slot empty; a found letter has exactly that shape |
| Blockfall.KindOfShape | src/games/blockfall/game.js:322-323 | an unturned piece is found under its own letter |
| Blockfall.TurnedPieceUnknown | src/games/blockfall/game.js:322-323 | a piece turned once, other than O, matches no table entry, so the slot holds an unknown letter |
| Blockfall.HalfTurnAt | src/games/blockfall/game.js:165-172 | entry (i, j) of two quarter turns is entry (R-1-i, C-1-j) |
| Blockfall.HalfTurnedPiece | src/games/blockfall/game.js:322-323 | a piece turned twice is found under its own letter when it is I, O, S or Z, and is unknown when it is T, J or L |
| Blockfall.Held | src/games/blockfall/game.js:318-335 | defines hold: when allowed, the piece's letter goes to the slot, a new piece is spawned and hold is disabled |
| Blockfall.HeldValid | src/games/blockfall/game.js:318-335 | hold keeps the state valid |
| Blockfall.HoldOnce | src/games/blockfall/game.js:319-333 | after a hold no further hold is possible, and a second hold changes nothing |
| Blockfall.Restarted | src/games/blockfall/game.js:353-363 | defines the R key: fresh grid, score, level, lines, queue and hold, then playerReset |
| Blockfall.RestartedValid | src/games/blockfall/game.js:353-363 | the R key gives a valid running game with score and lines 0 on an empty grid, and keeps the drop interval |
| Blockfall.StartValid | src/games/blockfall/game.js:391 | the first playerReset gives a valid running game; the piece is the first letter drawn and the queue holds the rest |
| Blockfall.Ticked | src/games/blockfall/game.js:337-350 | defines a frame: nothing after a game over; a drop once the counter passes the interval, otherwise the counter grows |
| Blockfall.TickedValid | src/games/blockfall/game.js:337-350 | a frame keeps the state valid; the drop counter either restarts below the interval or grows by the frame time |
| Blockfall.KeyHandled | src/games/blockfall/game.js:352-389 | defines the key dispatch: after a game over only R restarts; otherwise each key its move |
| Blockfall.KeyHandledValid | src/games/blockfall/game.js:352-389 | every key keeps the state valid, and after a game over only R changes anything |
| Blockfall.ExampleAsWritten | src/games/blockfall/game.js:190-198 | in the source's order on a concrete board, the next piece is spawned on the unswept grid and the bottom row is then cleared |
| Blockfall.SpawnBeforeSweepOverlaps | src/games/blockfall/game.js:190-241 | in the source's order the game goes on with a falling piece that overlaps settled cells, and a hard drop would write one row above the grid |
| Blockfall.SettledAsWritten | src/games/blockfall/game.js:190-218 | defines a piece coming to rest in the source's order: merge, respawn on the unswept grid, then sweep |
| Blockfall.FatalSettleCountsNothing | src/games/blockfall/game.js:190-241 | in the source's order, when the next piece collides with the merged grid the game ends with an empty grid and score 0, and lines, level and drop interval stay as they were |
| Blockfall.SettledCountsCleared | src/games/blockfall/game.js:190-218 | in the corrected order the lines grow by exactly the rows the merged piece clears, whether or not the game ends, and the level follows them |
| Blockfall.ExampleLockedBlocksT | src/games/blockfall/game.js:233-256 | on the example, the swept grid blocks the T's spawn place |
| Blockfall.ExampleSettledEnds | src/games/blockfall/game.js:190-241 | in the corrected order the example game ends, with an empty grid and score 0 |
| Blockfall.TOverlapsRowZero | src/games/blockfall/game.js:233 | a T at its spawn place overlaps that shifted row and leaves the grid one row higher |
| Blockfall.Game.constructor | src/games/blockfall/game.js:26-37 | the initial variables followed by the first playerReset, with the state valid |
| Blockfall.Game.Merge | src/games/blockfall/game.js:148-156 | the grid becomes the merged grid, and nothing else changes |
| Blockfall.Game.Sweep | src/games/blockfall/game.js:243-264 | the grid becomes the swept grid; score, lines, level and speed change as the table says |
| Blockfall.Game.PlayerReset | src/games/blockfall/game.js:225-241 | refill, spawn and game-over check as Respawned describes; RespawnedValid gives validity |
| Blockfall.Game.Lock | src/games/blockfall/game.js:194-196 | merge, then sweep, on the object's fields |
| Blockfall.Game.Settle | src/games/blockfall/game.js:193-197 | a piece at rest is merged, swept and replaced, with the state kept valid |
| Blockfall.Game.PlayerMove | src/games/blockfall/game.js:202-207 | the sideways step, undone on collision, with the state kept valid |
| Blockfall.Game.PlayerRotate | src/games/blockfall/game.js:174-189 | the rotation with kicks, with the state kept valid |
| Blockfall.Game.TurnWithKicks | src/games/blockfall/game.js:174-189 | the falling piece becomes the rotation outcome |
| Blockfall.Game.PlayerDrop | src/games/blockfall/game.js:190-200 | one row down, or at rest; the drop counter restarts and the state stays valid |
| Blockfall.Game.PlayerHardDrop | src/games/blockfall/game.js:209-218 | straight down to rest and settled, with the state kept valid |
| Blockfall.Game.Hold | src/games/blockfall/game.js:318-335 | the once-per-game hold, with the state kept valid |
| Blockfall.Game.Restart | src/games/blockfall/game.js:353-363 | fresh grid, counters, queue and hold, then playerReset, leaving a valid state |
| Blockfall.Game.Tick | src/games/blockfall/game.js:337-350 | the frame update of state and drop counter, with the state kept valid |
| Blockfall.Game.HandleKey | src/games/blockfall/game.js:352-389 | the key dispatch, with the state kept valid; only the down arrow restarts the drop counter |
| TreasureHunter.Draw | src/games/treasurehunter/game.js:93-94 | a random tile index lies in 1 .. n |
| TreasureHunter.Near | src/games/treasurehunter/game.js:338-342 | defines a touch: both distances below half a tile |
| TreasureHunter.InPlayCells | src/games/treasurehunter/game.js:229-233 | inside the clamp box a position is on an interior tile, so its neighbour lookups stay inside the level |
| TreasureHunter.LevelCell | src/games/treasurehunter/game.js:57-89 | exactly the border tiles are solid; platforms lie only on even rows and breakable tiles only on odd rows |
| TreasureHunter.PlacedCoins | src/games/treasurehunter/game.js:92-98 | ten tries place at most ten treasures, each on an empty interior tile |
| TreasureHunter.AddBorders | src/games/treasurehunter/game.js:61-68 | the border loops make exactly the edge tiles solid |
| TreasureHunter.AddPlatforms | src/games/treasurehunter/game.js:71-80 | the platform loop sets each tile to its platform or breakable roll outcome |
| TreasureHunter.AddLadders | src/games/treasurehunter/game.js:83-89 | the ladder loop completes the level createLevel builds from those rolls |
| TreasureHunter.PlaceCoins | src/games/treasurehunter/game.js:92-98 | the treasure loop pushes exactly the treasures of the ten tries |
| TreasureHunter.BuildLevel | src/games/treasurehunter/game.js:57-98 | a new grid built from the rolls, with its treasures |
| TreasureHunter.BuiltBordered | src/games/treasurehunter/game.js:61-68 | a built level has solid borders |
| TreasureHunter.Recruit | src/games/treasurehunter/game.js:101-112 | three enemies in the top-right tile, heading left, are appended to the list |
| TreasureHunter.StartTile | src/games/treasurehunter/game.js:469-471 | defines a start tile: an interior empty tile standing on solid ground or a platform |
| TreasureHunter.StartSearch | src/games/treasurehunter/game.js:457-481 | the search uses two rolls per try; it returns either the fallback tile after all tries or a tile-aligned empty tile standing on ground, always inside the play box |
| TreasureHunter.SearchStart | src/games/treasurehunter/game.js:463-480 | the search loop returns exactly what StartSearch describes |
| TreasureHunter.OnLadder | src/games/treasurehunter/game.js:173-183 | an entity is on a ladder exactly when the tile under its centre is inside the level and a ladder |
| TreasureHunter.Aged | src/games/treasurehunter/game.js:313-321 | a frame never adds holes |
| TreasureHunter.AgedKeeps | src/games/treasurehunter/game.js:315-318 | a hole stays exactly when its timer stays positive, then 16 ms older |
| TreasureHunter.AgedConcat | src/games/treasurehunter/game.js:314-320 | holes age one by one, so the kept ones keep their order |
| TreasureHunter.ClosesOnHole | src/games/treasurehunter/game.js:317 | a tile is only made breakable again where a hole was |
| TreasureHunter.CloseHoles | src/games/treasurehunter/game.js:313-321 | the backward loop leaves the aged holes; a tile becomes breakable exactly when a hole on it closes, and every other tile is untouched |
| TreasureHunter.Uncollected | src/games/treasurehunter/game.js:323-332 | collection never adds treasures |
| TreasureHunter.UncollectedKeeps | src/games/treasurehunter/game.js:327-328 | a treasure stays exactly when it was there and is out of reach |
| TreasureHunter.Collect | src/games/treasurehunter/game.js:323-332 | the backward loop leaves the treasures out of reach and scores 100 per treasure removed |
| TreasureHunter.EnemyStep | src/games/treasurehunter/game.js:262-310 | a trapped enemy only counts down and respawns top right at zero; a free one ends inside the play box and is trapped for 100 frames exactly when it stepped into a hole |
| TreasureHunter.Caught | src/games/treasurehunter/game.js:305-309 | no more enemies are trapped than there are |
| TreasureHunter.StepEnemies | src/games/treasurehunter/game.js:261-311 | every enemy takes its step in place, and the points are 75 per enemy trapped |
| TreasureHunter.Encounter | src/games/treasurehunter/game.js:336-351 | the lives never rise and fall by at most one per enemy; the game is over exactly when it was or a touch took the last life; the player stays in the play box |
| TreasureHunter.ThreatenedSplit | src/games/treasurehunter/game.js:336-340 | a list of enemies threatens a position exactly when its front or its last enemy does |
| TreasureHunter.EncounterTouches | src/games/treasurehunter/game.js:336-351 | one life goes per enemy that touches the player at its turn; some life goes exactly when a free enemy is within reach of the starting position, and otherwise nothing changes; a player who lost a life and has lives left stands on a start tile found with rolls not used before |
| TreasureHunter.AllTrappedHarmless | src/games/treasurehunter/game.js:338 | with every enemy trapped the enemy loop changes nothing |
| TreasureHunter.Encounters | src/games/treasurehunter/game.js:336-351 | the enemy loop gives exactly the Encounter outcome |
| TreasureHunter.Steered | src/games/treasurehunter/game.js:127-143 | an arrow never moves the player; up and down change the speed only on a ladder |
| TreasureHunter.Released | src/games/treasurehunter/game.js:156-165 | releasing an arrow stops the motion along its axis and leaves the other axis alone |
| TreasureHunter.Game.constructor | src/games/treasurehunter/game.js:23-55 | menu, score 0, level 1, three lives, a built level with its treasures and three enemies, the player at rest inside the play box |
| TreasureHunter.Game.CreateLevel | src/games/treasurehunter/game.js:57-115 | a new bordered grid from the next rolls; treasures and three enemies are appended to lists that are not cleared |
| TreasureHunter.Game.FindValidStartPosition | src/games/treasurehunter/game.js:457-481 | the start position and rolls used are those of StartSearch |
| TreasureHunter.Game.Dig | src/games/treasurehunter/game.js:185-197 | a breakable tile beside the player becomes empty and gets a 5000 ms hole; any other tile leaves grid and holes unchanged |
| TreasureHunter.Game.HandleCollisions | src/games/treasurehunter/game.js:227-259 | the player ends in the play box; a fall onto solid or platform, or a climb into solid, snaps to the tile and stops |
| TreasureHunter.Game.UpdateEnemies | src/games/treasurehunter/game.js:261-311 | each enemy takes its EnemyStep and the score grows by 75 per trap |
| TreasureHunter.Game.UpdateDiggedBlocks | src/games/treasurehunter/game.js:313-321 | the holes age and closed holes become breakable tiles again |
| TreasureHunter.Game.CheckTreasureCollection | src/games/treasurehunter/game.js:323-332 | treasures in reach are removed for 100 points each |
| TreasureHunter.Game.MeetEnemies | src/games/treasurehunter/game.js:336-351 | position, lives, screen and rolls become the Encounter outcome |
| TreasureHunter.Game.AdvanceLevel | src/games/treasurehunter/game.js:354-358 | 1500 points, the next level, and a new grid whose treasures and enemies are appended |
| TreasureHunter.Game.CheckGameConditions | src/games/treasurehunter/game.js:334-359 | one life goes per touching enemy, and some life goes exactly when a free enemy was within reach; with none, the player stays and the game goes on; a player who lost a life and has lives left is at a found start tile; the game is over exactly when no lives are left; a level advances exactly when no treasure was left, and then the new grid and its treasures are those built from the rolls after the ones the enemy loop used |
| TreasureHunter.Game.MovePlayer | src/games/treasurehunter/game.js:203-212 | gravity adds half a pixel of speed unless the moved player is on a ladder, or a landing stops the fall; the player stays in the play box |
| TreasureHunter.Game.MoveWorld | src/games/treasurehunter/game.js:202-222 | each enemy becomes its EnemyStep towards the moved player; the holes become the aged holes and a tile becomes breakable exactly when a hole on it closes; the treasures become those out of reach; the score grows by 75 per trap and 100 per treasure removed, so it never drops; no enemy is lost |
| TreasureHunter.Game.Update | src/games/treasurehunter/game.js:199-225 | nothing changes unless playing; the score and level never fall, the lives never rise, and enemies are never lost |
| TreasureHunter.Game.KeyDown | src/games/treasurehunter/game.js:118-151 | Space leaves the menu; while playing, arrows steer; Z and X empty a breakable tile to the left or right of the player and add a 5000 ms hole, and otherwise leave grid and holes unchanged; nothing moves otherwise |
| TreasureHunter.Game.KeyUp | src/games/treasurehunter/game.js:153-166 | while playing, releasing an arrow stops its axis |
| TowerRescue.Overlaps | src/games/tower_rescue/game.js:370-375 | defines the collision test of two boxes |
| TowerRescue.OverlapsIffSharedPoint | src/games/tower_rescue/game.js:370-375 | for boxes of positive size, the collision test holds exactly when some point lies strictly inside both |
| TowerRescue.OverlapsSymmetric | src/games/tower_rescue/game.js:370-375 | the collision test does not depend on argument order |
| TowerRescue.TouchingApart | src/games/tower_rescue/game.js:370-375 | boxes that only share an edge do not collide |
| TowerRescue.BuildPlatforms | src/games/tower_rescue/game.js:133-142 | three full-width platforms, 140 pixels apart, bottom first |
| TowerRescue.BuildLadders | src/games/tower_rescue/game.js:145-155 | three ladders per floor, left first, on every floor |
| TowerRescue.PlatformsApart | src/games/tower_rescue/game.js:133-142 | the platforms of different floors never collide |
| TowerRescue.LadderCrossesOwnFloor | src/games/tower_rescue/game.js:145-155 | a ladder crosses the platform of its own floor and no other |
| TowerRescue.NewBonusesFresh | src/games/tower_rescue/game.js:158-166 | setupLevel adds n uncollected items, each inside the canvas sideways and 100 pixels from the top and bottom |
| TowerRescue.PlaceBonuses | src/games/tower_rescue/game.js:158-166 | the bonus loop builds the five items from the next ten rolls |
| TowerRescue.OnLadder | src/games/tower_rescue/game.js:377-384 | defines being on a ladder: overlapping some ladder |
| TowerRescue.OnLadderInLayout | src/games/tower_rescue/game.js:377-384 | in the fixed layout, being on a ladder means overlapping one of the nine ladders |
| TowerRescue.PlayerLanded | src/games/tower_rescue/game.js:209-220 | landing never moves the player sideways; only a falling player changes, and then stops on top of a platform they overlapped |
| TowerRescue.KindOf | src/games/tower_rescue/game.js:356-357 | a roll in the first half picks a barrel |
| TowerRescue.Spawned | src/games/tower_rescue/game.js:222-225 | a frame throws at most one hazard, at the base speed and not below the canvas |
| TowerRescue.FirstHazards | src/games/tower_rescue/game.js:413-423 | a level starts with at most one hazard, at speed 5 plus the level |
| TowerRescue.HazardLanded | src/games/tower_rescue/game.js:232-239 | a hazard keeps kind, speed and direction; a fireball never moves sideways; a hazard that moves ends on top of a platform |
| TowerRescue.LandHazard | src/games/tower_rescue/game.js:232-239 | the platform loop for one hazard gives HazardLanded |
| TowerRescue.Respawned | src/games/tower_rescue/game.js:386-392 | defines the player restarted at (400, 550), at rest, neither jumping nor climbing |
| TowerRescue.HazardTurn | src/games/tower_rescue/game.js:228-254 | defines one hazard's turn: kept unless below the canvas; on overlap a life goes, and the player respawns or the game ends |
| TowerRescue.HazardRound | src/games/tower_rescue/game.js:227-255 | no hazard below the canvas is kept; the lives fall by at most one per hazard; the game is over exactly when it was or a hit took the last life; the player stays or restarts |
| TowerRescue.OnCanvas | src/games/tower_rescue/game.js:227-244 | the hazards a round keeps, each landed, in order, and none of them below the canvas |
| TowerRescue.HitsPlayerSplit | src/games/tower_rescue/game.js:246 | a list of hazards hits the player exactly when its first hazard or one of the rest does |
| TowerRescue.HazardRoundKeeps | src/games/tower_rescue/game.js:227-244 | the round keeps exactly the landed hazards still on the canvas, in order, after the kept ones it started with |
| TowerRescue.HazardRoundHits | src/games/tower_rescue/game.js:227-255 | one life goes per hazard that overlaps the player at its turn; some life goes exactly when a landed hazard overlaps the starting player; with none, the player and the game state are unchanged; a player who lost a life and has lives left is respawned |
| TowerRescue.HazardRoundFrom | src/games/tower_rescue/game.js:227-255 | the round from hazard i on is that hazard's turn after the round of the hazards behind it, the order of the backward loop |
| TowerRescue.RunHazards | src/games/tower_rescue/game.js:227-255 | the backward loop with its in-place splice gives the HazardRound outcome |
| TowerRescue.Collected | src/games/tower_rescue/game.js:257-263 | the bonus loop keeps the number of items |
| TowerRescue.CollectedAt | src/games/tower_rescue/game.js:258-261 | each item stays in place and ends collected exactly when it was or the player overlaps it |
| TowerRescue.CollectedOnce | src/games/tower_rescue/game.js:257-263 | a second pass changes nothing, so no item scores twice |
| TowerRescue.CollectedWaiting | src/games/tower_rescue/game.js:257-263 | the loop never uncollects an item |
| TowerRescue.CollectBonuses | src/games/tower_rescue/game.js:257-263 | the items become collected as Collected says, for 300 points per item newly collected |
| TowerRescue.RescueScore | src/games/tower_rescue/game.js:278 | a rescue in time is worth at least 5000, at most 5000 plus 100 per whole second, and still 4900 less than a second overdue |
| TowerRescue.LevelTime | src/games/tower_rescue/game.js:405 | a level gets at least 60 and at most 180 seconds, 20 fewer per level until level 6 |
| TowerRescue.VictimX | src/games/tower_rescue/game.js:410 | the victim moves to an x in [600, 700) |
| TowerRescue.Pressed | src/games/tower_rescue/game.js:79-98 | defines a key press: the key's flag is set |
| TowerRescue.Released | src/games/tower_rescue/game.js:102-120 | defines a key release: the key's flag is cleared |
| TowerRescue.ReleaseAfterPress | src/games/tower_rescue/game.js:79-120 | releasing a key undoes pressing it |
| TowerRescue.Jumped | src/games/tower_rescue/game.js:92-98 | the space bar jumps exactly when the player is neither jumping nor climbing, upwards, without moving them |
| TowerRescue.Game.constructor | src/games/tower_rescue/game.js:2-60 | menu, score 0, three lives, level 1, 180 seconds, no hazards, the first five bonus items, in a valid state |
| TowerRescue.Game.SetupLevel | src/games/tower_rescue/game.js:123-167 | the layout is rebuilt and five new items are added to the ones there are |
| TowerRescue.Game.StartGame | src/games/tower_rescue/game.js:169-173 | the game is being played |
| TowerRescue.Game.ResetPlayerPosition | src/games/tower_rescue/game.js:386-392 | the player is at (400, 550), at rest, neither jumping nor climbing |
| TowerRescue.Game.CheckLadderCollision | src/games/tower_rescue/game.js:377-384 | the player is on a ladder exactly when they overlap one |
| TowerRescue.Game.SpawnHazard | src/games/tower_rescue/game.js:355-368 | one hazard at the base speed is appended, using two rolls |
| TowerRescue.Game.Restart | src/games/tower_rescue/game.js:64-76 | a valid running game: score 0, three lives, 180 seconds, no hazards, five new items, the player restarted |
| TowerRescue.Game.KeyDown | src/games/tower_rescue/game.js:63-100 | Enter off the playing screen restarts on the current level with the victim kept; any other key sets its flag, and space may jump |
| TowerRescue.Game.KeyUp | src/games/tower_rescue/game.js:102-120 | the key's flag is cleared |
| TowerRescue.Game.MovePlayer | src/games/tower_rescue/game.js:179-207 | 5 pixels per sideways key, facing the last one; climbing only on a ladder; gravity exactly when not climbing |
| TowerRescue.Game.LandPlayer | src/games/tower_rescue/game.js:209-220 | the player becomes PlayerLanded |
| TowerRescue.Game.RollForHazard | src/games/tower_rescue/game.js:222-225 | a roll under 0.02 appends a hazard |
| TowerRescue.Game.UpdateHazards | src/games/tower_rescue/game.js:222-255 | the HazardRound outcome, whose kept hazards and lost lives HazardRoundKeeps and HazardRoundHits give; the game is over exactly when no lives are left |
| TowerRescue.Game.CheckBonusItems | src/games/tower_rescue/game.js:257-263 | the items are collected and the score grows by 300 per new one |
| TowerRescue.Game.CountDown | src/games/tower_rescue/game.js:268-274 | while playing a frame's time goes and the game ends exactly when the timer reaches zero |
| TowerRescue.Game.MoveVictim | src/games/tower_rescue/game.js:410-411 | the victim moves to x in [600, 700) and y 150, using one roll |
| TowerRescue.Game.ThrowFirstHazard | src/games/tower_rescue/game.js:414-423 | the level's first hazards are those FirstHazards describes |
| TowerRescue.Game.ResetLevel | src/games/tower_rescue/game.js:400-426 | player restarted, the level's time, the victim moved, first hazards, five new items, the layout intact |
| TowerRescue.Game.CheckWinCondition | src/games/tower_rescue/game.js:276-282 | reaching the victim scores the rescue and starts the next level; otherwise nothing changes |
| TowerRescue.Game.UpdatePlayer | src/games/tower_rescue/game.js:179-220 | the player moves 5 pixels per sideways key, and landing never moves them sideways |
| TowerRescue.Game.MoveWorld | src/games/tower_rescue/game.js:179-263 | the game goes on unless a hazard took the last life; the score does not fall and the lives do not rise |
| TowerRescue.Game.EndFrame | src/games/tower_rescue/game.js:266-282 | the player is kept in the canvas, and a playing game ends exactly when its timer runs out |
| TowerRescue.Game.Update | src/games/tower_rescue/game.js:175-283 | nothing changes unless playing; the score and level never fall, the lives never rise, and a timer within a frame of zero ends the game |

## Left out

- Drawing, the DOM, the instruction screens, the score display and the key-event plumbing are left out. The handlers are methods taking the key.
- The animation loop is left out: `requestAnimationFrame` and each game's `gameLoop`. A frame is one call of the update method. In Tower Rescue, every Enter that starts a game starts another loop, so `update` then runs more than once per frame. That is not modelled.
- Floating point is modelled as exact reals. Rounding in positions and in the 1/60 s timer step is not captured.
- `Math.random` is modelled as an oracle with an index. The constructors take the number of rolls already used, `used`, because the generator is shared with whatever ran before.
- Blockfall's piece colours and the hold and next previews are left out. They only feed drawing.
- Blockfall's `lastTime` is left out: `update` takes the frame time `delta` instead of a timestamp.
- Blockfall.Game.Restart: does not model the trailing `update()` call. That call subtracts `lastTime` from the drop counter and re-arms the animation loop, which is not modelled.
- Blockfall.KindOf: a piece turned once (other than O) is held as an unknown letter; a half-turned I, S or Z is found under its own letter. The source stores `undefined` there, which only the hold preview reads.
- TreasureHunter.EnemyStep: an enemy tile lookup outside the grid reads an empty tile. The source would throw on a missing row.
- Treasure Hunter's `isDigging` and `digDirection` player fields are left out. They are never read.
- Treasure Hunter's guard for a missing level in `findValidStartPosition` is left out. It never fires, because the level is always built before the search.
- TreasureHunter.Game.constructor: does not state which start tile is chosen. FindValidStartPosition states it, and the constructor states only that the player is at rest in the play box.
- TreasureHunter.Game.HandleCollisions: does not state the horizontal push-back. It states only the clamp, the unchanged sideways speed and the vertical landings.
- TreasureHunter.Game.MoveWorld: does not state the player's new position, as MovePlayer does not.
- TreasureHunter.Game.MovePlayer: does not state the new position. It states only the vertical speed and the play-box bound.
- TreasureHunter.Game.Update: states only the invariant and monotonicity. The exact effect of each step is stated by the step methods.
- Tower Rescue's beast is a constant box and its `throwTimer` is left out. The timer is never read or changed.
- Tower Rescue's `hazardFrequency` and `hazardSpeed` fields are modelled as constants (0.02 and 5). The source never changes them.
- TowerRescue.Game.MovePlayer: does not state the new height. LandPlayer and PlayerLanded state where a falling player ends.
- TowerRescue.Game.UpdatePlayer: states only the sideways move and facing. MovePlayer and LandPlayer state the rest.
- TowerRescue.Game.MoveWorld: states only the invariant and monotonicity. UpdatePlayer, UpdateHazards and CheckBonusItems state each part.
- TowerRescue.Game.EndFrame: states only the invariant, the timer outcome and monotonicity. CountDown and CheckWinCondition state each part.
- TowerRescue.Game.CheckWinCondition: does not restate the victim, hazards and bonus items of the new level. ResetLevel states them.
- TowerRescue.Game.Update: states only the invariant and monotonicity. The phase methods state the exact effects.

## Findings

| source | as written | input that shows it | evidently intended | confidence | as-written member | corrected member |
|---|---|---|---|---|---|---|
| src/games/blockfall/game.js:190-218 | A piece at rest is merged. Then `playerReset` spawns the next piece and tests it against the grid before `sweep` runs. Clearing rows then shifts settled cells down into the new piece. | Row 19 lacks only its two left cells and an O falls into that gap. Row 0 holds blocks under the spawn place of the next piece, a T. The T spawns free on the unswept grid. The sweep moves row 0 to row 1, inside the T, and the game goes on with an overlapping piece. Its hard drop stops at once and writes grid row -1. | Sweep before spawning: the new piece is tested against the grid it will fall in. This changes which games are lost. The example itself ends the game in the model. A piece that completes a row under the spawn place no longer ends it. The rows cleared by a game-ending piece now count in lines, level and drop interval. | high, not executed | Blockfall.SettledAsWritten, Blockfall.SpawnBeforeSweepOverlaps, Blockfall.FatalSettleCountsNothing | Blockfall.Settled, Blockfall.SettledValid, Blockfall.ExampleSettledEnds, Blockfall.SettledCountsCleared |
