# maze-3d in Dafny

A model of the logic of the maze-3d browser game. The model covers:

- the randomized depth-first maze generator;
- the expansion of its cell graph into a wall grid and the table of oriented wall faces;
- the torch directions;
- the player's collision, target and entrance tests;
- the per-frame rules of the game: health, the collision counter, the win latch, the entrance counter, debug hacks, rotation and movement;
- the older single-file version of the game, js/mazegame.js, as a variant;
- the small helpers `rotclamp`, `Direction`/`DirectionToAngle`, the URL parsers `parseDimensions`/`parseScale`, and the keyboard `InputManager`.

Everything is a pure function over immutable data, except the legacy loops, which are methods over sequences. Randomness, the ray cast, the sound-ended flag, `Math.sin`/`Math.cos` and the full turn `Math.TAU` enter as parameters:

- `rnd` for the start cell becomes a `start` cell;
- `randomElement` becomes a `choose` oracle;
- `rnd(10) === 0` becomes `pick`;
- the ray cast becomes the list of hit distances.

For fixed oracles every result is therefore determined, including the generated passage tables.

JavaScript behaviour that matters here is written out explicitly:

- Indexing `undefined` throws a TypeError, modelled as a `Failure(TypeError)` result.
- A missing array entry reads as `undefined`, which is falsy.
- `console.alert` does not exist, so the rejection of illegal dimensions is an error result.
- The legacy game assigns the number 0 to the player's position on a loss. The position is then `None`, and the next probe throws.

Modules, one per file:

| module | file | models |
|---|---|---|
| `Wrappers` | wrappers.dfy | `Result` and `Option` |
| `Utils` | utils.dfy | js/core/utils.js |
| `Input` | input.dfy | js/manager/inputManager.js |
| `Params` | params.dfy | `parseInt`, `split` and the two parsers of js/main.js |
| `Grid` | grid.dfy | cells, passages, paths, degree and spanning trees |
| `Generator` | generator.dfy | js/maze/mazeGenerator.js |
| `GeneratorProofs` | generator_proofs.dfy | the generator's loop invariant and the spanning-tree theorem |
| `Walls` | walls.dfy | `initializeWalls` and the torch `options` of js/maze/maze.js |
| `Faces` | faces.dfy | `initializeAxisWalls`, `determineAxisWalls`, `setWallPresence` |
| `Layout` | layout.dfy | the `Maze` constructor |
| `Player` | player.dfy | js/player/player.js |
| `Game` | game.dfy | js/game/mazeGame.js |
| `GameProofs` | game_proofs.dfy | properties over runs of frames |
| `LegacyMaze` | legacy_maze.dfy | the wall, face and torch loops of js/mazegame.js |
| `LegacyGame` | legacy_game.dfy | `playerCollides` and `update` of js/mazegame.js |

`addTorches` in js/maze/maze.js (lines 233–246) runs the same loop as js/mazegame.js (lines 333–356), so `LegacyMaze.LegacyTorches` describes both.

## Model

| member | source | states |
|---|---|---|
| Utils.Code | js/core/utils.js:3-9 | each direction has a code in 0..3 (East 0, North 1, West 2, South 3) |
| Utils.FromCode | js/core/utils.js:3-9 | every code in 0..3 names a direction with that code |
| Utils.CodeIsBijection | js/core/utils.js:3-9 | `Direction` maps the four names one-to-one onto {0, 1, 2, 3} |
| Utils.DirectionToAngle | js/core/utils.js:11-13 | the angle lies in [0, TAU): East 0, North TAU/4, West TAU/2, South 3TAU/4 |
| Utils.DirectionToAngleInjective | js/core/utils.js:11-13 | different directions give different angles |
| Utils.ClampDown | js/core/utils.js:39-41 | the first loop ends below TAU; from r >= TAU it ends in [0, TAU); below TAU it leaves r alone |
| Utils.ClampUp | js/core/utils.js:42-44 | the second loop ends above -TAU; from r <= -TAU it ends in (-TAU, 0]; above -TAU it leaves r alone |
| Utils.RotClamp | js/core/utils.js:38-46 | for TAU > 0, `rotclamp` terminates with a value in (-TAU, TAU), in [0, TAU) for r >= TAU, in (-TAU, 0] for r <= -TAU, and unchanged for r already in (-TAU, TAU) |
| Utils.RotClampIdempotent | js/core/utils.js:38-46 | clamping twice is clamping once |
| Utils.ClampDownShift | js/core/utils.js:39-41 | the first loop removes a whole number of turns |
| Utils.ClampUpShift | js/core/utils.js:42-44 | the second loop adds a whole number of turns |
| Utils.RotClampSameHeading | js/core/utils.js:38-46 | r - rotclamp(r) is an integer multiple of TAU |
| Input.UntouchedKeyIsUp | js/manager/inputManager.js:36-38 | a key that was never touched is neither down nor pressed |
| Input.KeyDown | js/manager/inputManager.js:19-21 | `keyDown(c)` makes c down and changes no other key and not the snapshot |
| Input.KeyUp | js/manager/inputManager.js:27-29 | `keyUp(c)` makes c up and changes no other key and not the snapshot |
| Input.Update | js/manager/inputManager.js:11-13 | `update` keeps `keys` and copies it to `oldKeys`, so right after it no key is pressed |
| Input.PressedImpliesDown | js/manager/inputManager.js:45-47 | a pressed key is down |
| Input.DeliverOthers | js/manager/inputManager.js:19-29 | events for other keys leave a key's state and snapshot alone |
| Input.DeliverLastPress | js/manager/inputManager.js:19-29 | after a batch whose last event on c presses it, whatever events on other keys follow, c is down and the snapshot is unchanged |
| Input.PressedReports | js/manager/inputManager.js:45-47 | one `isKeyPressed` answer per frame |
| Input.HeldKeyStaysQuiet | js/manager/inputManager.js:45-47 | a key down at the snapshot and not touched again is never reported pressed |
| Input.HeldKeyPressedOnce | js/manager/inputManager.js:11-13 | a key up at the snapshot, pressed in one frame (other keys may change after it) and then held, reports pressed in exactly the frame of the press |
| Params.TrimStart | js/main.js:106 | `parseInt` drops exactly the leading white space |
| Params.DigitPrefix | js/main.js:106 | the longest prefix of digits in the radix |
| Params.LeadingNumber | js/main.js:106 | a number is read iff the text starts with a digit |
| Params.WithSign | js/main.js:106 | a sign applies to a read magnitude and keeps a failed read failed |
| Params.ParseInt | js/main.js:106 | `parseInt` gives a number iff, after white space and one optional sign, the text starts with a decimal digit, or with `0x`/`0X` and a hex digit; the number is at most 0 after a minus sign and at least 0 otherwise |
| Params.IndexOfComma | js/main.js:105 | the position of the first comma, or -1 when there is none |
| Params.Split | js/main.js:105 | `split(",")` gives at least one field |
| Params.SplitNoComma | js/main.js:105 | text without a comma splits into itself |
| Params.SplitAtFirstComma | js/main.js:105 | splitting cuts at the first comma and splits the rest |
| Params.PairSplitsInTwo | js/main.js:104-105 | text matching `\d+,\d+` has at least two fields |
| Params.NullHasNoDigit | js/main.js:103 | a null input, tested as "null", has no digit |
| Params.ParseDimensions | js/main.js:100-114 | no digit (or null) gives 8 by 8; a `\d+,\d+` match gives `parseInt` of the first two fields; otherwise both sides are `parseInt` of the whole text |
| Params.CommasGiveFields | js/main.js:123 | two commas make at least three fields |
| Params.TripleSplitsInThree | js/main.js:122-123 | text matching `\d+,\d+,\d+` has at least three fields |
| Params.ParseScale | js/main.js:121-131 | a result exists iff `\d+,\d+,\d+` matches, and is then `parseInt` of the first three fields |
| Params.NatText | js/main.js:106 | the decimal text of a natural is a non-empty string of digits |
| Params.NatTextValue | js/main.js:106 | the decimal text of n reads back as n |
| Params.ParseIntOfNatText | js/main.js:106 | `parseInt` of the text of a natural up to 2^53, followed by a non-digit, gives the natural |
| Params.ParseIntOfNegative | js/main.js:106 | `parseInt("-" + n)` is -n for n up to 2^53 |
| Params.ParseIntOfLetterFirst | js/main.js:106 | text starting with a letter gives NaN (`None`) |
| Params.ParseIntOfNat | js/main.js:106 | `parseInt` inverts the decimal text of a natural up to 2^53 |
| Params.SplitTwo | js/main.js:105 | "a,b" splits into [a, b] |
| Params.SplitThree | js/main.js:123 | "a,b,c" splits into [a, b, c] |
| Params.DimensionsRoundTripPair | js/main.js:103-107 | "W,H" parses to (W, H) for W and H up to 2^53 |
| Params.DimensionsRoundTripSingle | js/main.js:103-110 | "N" parses to (N, N) for N up to 2^53 |
| Params.DimensionsIgnoreExtraFields | js/main.js:104-107 | "W,H,D" parses to (W, H) for W and H up to 2^53: extra fields are ignored |
| Params.DimensionsLeadingLetter | js/main.js:103-107 | "x3,4" passes the unanchored test but gives width NaN and height 4 |
| Params.DimensionsNegativeWidth | js/main.js:103-107 | "-W,H" (for example -3,4) gives width -W, for W and H up to 2^53 |
| Params.ScaleRoundTrip | js/main.js:121-131 | "X,Y,Z" parses to the scale (X, Y, Z) for components up to 2^53 |
| Grid.DegreeCountsLinks | js/maze/mazeGenerator.js:64-68 | the degree of a cell is the number of its four neighbours that a passage joins it to, and a passage never joins it to any other cell |
| Grid.LinkedSymmetric | js/maze/mazeGenerator.js:64-68 | a passage joins its two cells both ways |
| Grid.ConnectedRefl | js/maze/mazeGenerator.js:39-76 | every cell reaches itself |
| Grid.ConnectedMono | js/maze/mazeGenerator.js:64-68 | carving more passages keeps every connection |
| Grid.ConnectedExtend | js/maze/mazeGenerator.js:64-68 | a connection followed by a passage is a connection |
| Grid.ConnectedSymmetric | js/maze/mazeGenerator.js:39-76 | connection is symmetric |
| Grid.ConnectedTransitive | js/maze/mazeGenerator.js:39-76 | connection is transitive |
| Generator.InitUnvisited | js/maze/mazeGenerator.js:31-36 | the table has width + 2 columns of height + 1 entries, and entry (i, j) is true exactly when cell (i - 1, j - 1) lies in the grid and is not the start |
| Generator.Unvisited | js/maze/mazeGenerator.js:41-55 | the filter throws iff some probe throws; otherwise it keeps exactly the candidates still marked |
| Generator.Clear | js/maze/mazeGenerator.js:61 | clearing unmarks exactly the chosen cell |
| Generator.CarveHorizontal | js/maze/mazeGenerator.js:64-65 | a move within a column opens `horizontal[x][min(y, y')]` and nothing else |
| Generator.CarveVertical | js/maze/mazeGenerator.js:64-67 | a move within a row opens `vertical[min(x, x')][y]` and nothing else |
| Generator.Step | js/maze/mazeGenerator.js:39-76 | one iteration either carves or pops; with `here` undefined it throws a TypeError |
| Generator.Run | js/maze/mazeGenerator.js:39-76 | a loop that ends normally has n <= 0; its only error is a TypeError |
| Generator.Generate | js/maze/mazeGenerator.js:9-16 | generation is rejected iff width * height - 1 < 0, and otherwise keeps the dimensions |
| GeneratorProofs.CountRowClear | js/maze/mazeGenerator.js:59-61 | clearing a true entry lowers the column count by one |
| GeneratorProofs.CountAllClear | js/maze/mazeGenerator.js:59-61 | clearing a true entry lowers the table count by one, as `n--` does |
| GeneratorProofs.CountRowZero | js/maze/mazeGenerator.js:39 | a column counted zero has no true entry |
| GeneratorProofs.CountAllZero | js/maze/mazeGenerator.js:39 | a table counted zero has no true entry |
| GeneratorProofs.CountRowInit | js/maze/mazeGenerator.js:33-34 | count of an initial column |
| GeneratorProofs.CountRowFalse | js/maze/mazeGenerator.js:34 | a column with no true entry counts zero |
| GeneratorProofs.InitColumn | js/maze/mazeGenerator.js:31-36 | the border columns are all false; inner columns are true after entry 0, except at the start |
| GeneratorProofs.CountPrefixStep | js/maze/mazeGenerator.js:31-36 | one more column adds its count |
| GeneratorProofs.CountInitColumn | js/maze/mazeGenerator.js:33-34 | an inner initial column counts height, less one in the start's column |
| GeneratorProofs.CountInitColumns | js/maze/mazeGenerator.js:31-36 | the first k columns count (k - 1) * height, less one once the start's column is included |
| GeneratorProofs.CountInit | js/maze/mazeGenerator.js:12-36 | the initial table holds width * height - 1 true entries, the initial n |
| GeneratorProofs.InitMarked | js/maze/mazeGenerator.js:31-36 | a cell reads as unvisited in the initial table exactly when it lies in the grid and is not the start |
| GeneratorProofs.InitInv | js/maze/mazeGenerator.js:19-36 | before the loop only the start is visited, nothing is carved, and the invariant holds |
| GeneratorProofs.DegreeAddHorizontal | js/maze/mazeGenerator.js:65 | a new horizontal passage raises the degree of its two ends only |
| GeneratorProofs.DegreeAddVertical | js/maze/mazeGenerator.js:67 | a new vertical passage raises the degree of its two ends only |
| GeneratorProofs.CarveWrites | js/maze/mazeGenerator.js:64-68 | a carve adds one passage, which joins `here` and `next` |
| GeneratorProofs.CarveVisitsOne | js/maze/mazeGenerator.js:58-61 | a carve visits exactly one previously unvisited in-grid neighbour and lowers n by one |
| GeneratorProofs.CarveCountsEdge | js/maze/mazeGenerator.js:58-68 | the passage a carve adds is new |
| GeneratorProofs.CarveKeepsEdges | js/maze/mazeGenerator.js:58-71 | every passage joins two visited cells |
| GeneratorProofs.CarveKeepsReach | js/maze/mazeGenerator.js:58-71 | every visited cell stays connected to the start |
| GeneratorProofs.CarveDegrees | js/maze/mazeGenerator.js:58-71 | a carve raises the degree of `here` and `next` by one and of no other cell; `next` had none |
| GeneratorProofs.CarveKeepsDegrees | js/maze/mazeGenerator.js:58-74 | a cell carves at most one child while on the stack and one more after its pop |
| GeneratorProofs.CarveKeepsShape | js/maze/mazeGenerator.js:61 | the table keeps its shape and marks only grid cells |
| GeneratorProofs.CarveKeepsCount | js/maze/mazeGenerator.js:59-68 | n keeps counting the unvisited cells, and passages plus n stay width * height - 1 |
| GeneratorProofs.CarveInv | js/maze/mazeGenerator.js:58-71 | a carve keeps the loop invariant |
| GeneratorProofs.PopKeepsTables | js/maze/mazeGenerator.js:72-74 | a pop changes neither the table nor the passages |
| GeneratorProofs.PopKeepsStack | js/maze/mazeGenerator.js:72-74 | the popped cell was the top and is distinct from the rest; the first pop after a push returns the current cell |
| GeneratorProofs.PopInv | js/maze/mazeGenerator.js:72-74 | a pop keeps the loop invariant |
| GeneratorProofs.ProbesStayInside | js/maze/mazeGenerator.js:41-55 | under the invariant every probe reads an existing column, and every kept candidate is an unvisited grid cell |
| GeneratorProofs.StepInv | js/maze/mazeGenerator.js:39-76 | under the invariant an iteration throws iff `here` is undefined; otherwise it keeps the invariant |
| GeneratorProofs.RunInv | js/maze/mazeGenerator.js:39-76 | a loop that ends normally keeps the invariant and ends with n = 0 |
| GeneratorProofs.AllVisited | js/maze/mazeGenerator.js:39 | with n = 0 every cell is visited |
| GeneratorProofs.UnvisitedHasNoPassage | js/maze/mazeGenerator.js:64-68 | an unvisited cell has no passage |
| GeneratorProofs.FinishedTree | js/maze/mazeGenerator.js:39-79 | when the loop ends with n = 0 the passages form a spanning tree, with at most two at the start and at most three at any cell |
| GeneratorProofs.GenerateSpanningTree | js/maze/mazeGenerator.js:9-80 | for positive dimensions a normal run returns a spanning tree with width * height - 1 passages, the start with at most two passages and no cell with four; its only error is a TypeError |
| Walls.InitializeWalls | js/maze/maze.js:31-49 | 2w + 1 columns of 2h + 1 entries; pillars walled, centres open, passage positions open iff carved, column 0 walled except (0, 1), row 0 walled |
| Walls.CellEntries | js/maze/maze.js:33-45 | the parity rules of the loops for pillars, centres and passage positions |
| Walls.BorderEntries | js/maze/maze.js:33-48 | column 0 and row 0 are walled, except the forced start |
| Walls.OffCentreWalls | js/maze/maze.js:38-49 | the last column is walled and the last row is walled except the forced exit |
| Walls.BorderOpenings | js/maze/maze.js:48-49 | the only open border positions are (0, 1) and (2w - 1, 2h) |
| Walls.TorchOptions | js/maze/maze.js:236-241 | West, East, South, North are offered exactly when the in-range neighbour is walled, each at most once |
| Walls.CentreHasWall | js/maze/maze.js:38-42 | a centre whose cell has at most three passages keeps a walled side |
| Walls.PillarWalled | js/maze/maze.js:38 | every even-even position is walled |
| Walls.InnerOptions | js/maze/maze.js:236-241 | away from the border a walled neighbour is always offered |
| Walls.CentreOptions | js/maze/maze.js:236-241 | every cell centre is offered some direction |
| Walls.BordersPillar | js/maze/maze.js:236-241 | a position with one odd coordinate borders a pillar and is offered a direction |
| Walls.TorchOptionsNonEmpty | js/mazegame.js:352-353 | in a carved maze every open position is offered a direction, as the comment claims |
| Faces.InitializeAxisWalls | js/maze/maze.js:61-76 | `xw` is (aw + 1) by (ah + 2) and `zw` is (ah + 1) by (aw + 2), both empty |
| Faces.FrontBack | js/maze/maze.js:103-108 | front and back write `xw[x][z]` = flipped 1 and `xw[x][z + 1]` = flipped 0 when that neighbour is not walled |
| Faces.LeftRight | js/maze/maze.js:109-114 | left and right write `zw[z][x]` = flipped 1 and `zw[z][x + 1]` = flipped 0 when that neighbour is not walled |
| Faces.SetWallPresence | js/maze/maze.js:101-115 | the four tests write only those entries, keep the shapes, and throw only a TypeError |
| Faces.ScanColumn | js/maze/maze.js:87-91 | the inner scan keeps the shapes and throws only a TypeError |
| Faces.ScanFrom | js/maze/maze.js:86-93 | the outer scan keeps the shapes and throws only a TypeError |
| Faces.DetermineAxisWalls | js/maze/maze.js:85-94 | the faces of a non-empty grid have the pre-filled shapes |
| Faces.InitMatches | js/maze/maze.js:61-76 | before the scan no face is written |
| Faces.StepMatches | js/maze/maze.js:88-90 | one scan position writes just the faces between it and its open neighbours |
| Faces.ScanColumnMatches | js/maze/maze.js:87-91 | a column scan writes the faces of that column |
| Faces.NextColumn | js/maze/maze.js:86-87 | the end of a column is the start of the next |
| Faces.ScanFromMatches | js/maze/maze.js:86-93 | the remaining columns write their faces |
| Faces.AxisWallsFaces | js/maze/maze.js:85-115 | for at least as many columns as rows, the scan succeeds and a face lies exactly between a walled and an open position, flipped 1 on the near side and 0 on the far side; writes never conflict |
| Faces.ScanColumnThrows | js/maze/maze.js:87-88 | a column scan that reaches a missing row throws |
| Faces.AxisWallsTall | js/maze/maze.js:86-88 | with more rows than columns the transposed read throws |
| Layout.NewMaze | js/maze/maze.js:11-21 | a constructed maze has 2w + 1 by 2h + 1 walls and faces of the pre-filled shapes |
| Layout.ProductOne | js/maze/mazeGenerator.js:12-13 | a product of at least 1 with a factor below 1 has both factors negative |
| Layout.GenerateDegenerate | js/maze/mazeGenerator.js:12-55 | with a non-positive dimension generation only succeeds for -1 by -1, with no passages |
| Layout.NewMazeNonPositive | js/maze/maze.js:14-48 | a non-positive dimension never yields a maze: generation rejects it, or `walls[0][1] = false` throws |
| Layout.NewMazeFailures | js/maze/maze.js:11-21 | for positive dimensions the constructor throws only a TypeError, and always for height > width |
| Layout.NewMazeGraph | js/maze/maze.js:11-21 | a constructed maze is no taller than wide and holds the wall grid of a spanning tree with at most three passages per cell |
| Layout.NewMazeFaces | js/maze/maze.js:85-115 | a constructed maze's faces lie exactly between walled and open positions of the transposed grid |
| Layout.NewMazeTorches | js/maze/maze.js:236-243 | every open position of a constructed maze is offered a direction, so `randomElement` never draws from an empty list |
| Player.NewPlayer | js/player/player.js:17-20 | position (-1.5, 0.1, 1) * SCALE, theta 1.5 pi (the South angle), phi 0, health 3 |
| Player.CheckPlayerPosition | js/player/player.js:54-66 | at target iff within 1 of (2w - 1, 2h) in x and z; at entrance iff within 1 of the origin |
| Player.PositionIgnoresHeight | js/player/player.js:56-57 | y plays no part in the position test |
| Player.TargetAwayFromEntrance | js/player/player.js:54-66 | in a maze of at least one cell the player is never at the target and the entrance at once |
| Player.CheckCollision | js/player/player.js:78-91 | blocked iff a nearest hit d has d - 0.5 < amount; blocked calls only `onCollision`, otherwise `onWin` then `onEntrance` |
| Player.BlockedIffHit | js/player/player.js:79-82 | with hits inside the ray's range of amount + 0.14, blocked iff there is any hit |
| Game.Sounds | js/game/mazeGame.js:117-120 | the entrance sounds played up to a counter value, at most two |
| Game.TallyNone | js/game/mazeGame.js:5-7 | doing nothing keeps the bookkeeping |
| Game.WalkTally | js/game/mazeGame.js:211-215 | a step adds only the walking sound |
| Game.TallyCompose | js/game/mazeGame.js:5-7 | two stretches of play compose |
| Game.Collide | js/game/mazeGame.js:87-102 | a collision counts only when the sound ended or the counter is 0; it adds 1 to the counter and takes 1 health with no lower bound; above 0 health only the collision sound plays, otherwise the lose effects play and the player is sent to (-20000, -20000, -20000) |
| Game.Win | js/game/mazeGame.js:105-111 | the game becomes won, with the win effects, exactly when it was not won and the player is at the target |
| Game.Enter | js/game/mazeGame.js:115-122 | at the entrance the counter goes up by 1 and the sound plays iff it was 1 or 2 |
| Game.RunCallbacks | js/player/player.js:82-90 | the callbacks keep the bookkeeping and never change hacks, size, speed or view |
| Game.PlayerCollides | js/game/mazeGame.js:84-126 | blocked runs exactly `onCollision`; unblocked runs `onWin` then `onEntrance` at the pre-move position |
| Game.CollideOnly | js/player/player.js:82-85 | the blocked path is exactly `onCollision` |
| Game.WinThenEnter | js/player/player.js:87-90 | the unblocked path is `onWin` followed by `onEntrance` |
| Game.TryMove | js/game/mazeGame.js:211-214 | the probe runs, with its callbacks, whenever the key is down, even for a dead player; the step commits iff not blocked and health > 0 after the callbacks, and moves x and z by the step |
| Game.Either | js/game/mazeGame.js:211-221 | the `else if` test runs only when the first did not commit |
| Game.MovePlayer | js/game/mazeGame.js:205-235 | at most one of forward/backward and one of left/right commits, each only with its key down, never for a dead player; the bookkeeping holds |
| Game.HandleDebugHacks | js/game/mazeGame.js:150-172 | F2 pressed flips hacks; shift gives speed * 4 with hacks and * 1.7 without; with hacks, space lifts and else ctrl lowers by the new speed |
| Game.HandlePlayerRotation | js/game/mazeGame.js:178-186 | q turns left, else e turns right, and the result lies in (-TAU, TAU), unchanged when no key turns and it already did |
| Game.RotationKeepsHeading | js/game/mazeGame.js:178-186 | the wrapped yaw differs from the turned one by whole turns |
| Game.Update | js/game/mazeGame.js:132-143 | after a frame the keyboard snapshot is taken, hacks flipped iff F2 pressed, the yaw in (-TAU, TAU), and the bookkeeping holds |
| Game.ResetValues | js/game/mazeGame.js:241-245 | `gameWon`, `collisionCounter` and `entranceCounter` return to false, 0, 0 and nothing else changes |
| GameProofs.PlayTally | js/game/mazeGame.js:132-143 | any run of frames keeps the bookkeeping |
| GameProofs.WinAtMostOnce | js/game/mazeGame.js:105-111 | over any run the win sound plays at most once, and never once the game is won |
| GameProofs.EntranceSoundAtMostTwice | js/game/mazeGame.js:115-122 | after `resetValues` the entrance sound plays at most twice over any run |
| GameProofs.PlayHacks | js/game/mazeGame.js:151-153 | over a run the hacks toggle flips exactly in the frames where F2 reads as pressed |
| GameProofs.FlipsNone | js/game/mazeGame.js:151-153 | no reports, no flips |
| GameProofs.HeldF2FlipsOnce | js/game/mazeGame.js:151-153 | pressing F2 and holding it flips hacks exactly once, whatever other keys do in the meantime |
| LegacyMaze.LegacyWalls | js/mazegame.js:137-157 | the legacy wall loops compute exactly `initializeWalls` of js/maze/maze.js |
| LegacyMaze.LegacyBlank | js/mazegame.js:172-187 | the pre-filling loops build empty tables of the given shape |
| LegacyMaze.LegacySetWallPresence | js/mazegame.js:196-215 | the four inlined tests compute exactly `setWallPresence` |
| LegacyMaze.LegacyFaceColumn | js/mazegame.js:191-217 | the inner face loop over one column computes exactly the column scan of `determineAxisWalls` |
| LegacyMaze.LegacyFaces | js/mazegame.js:160-218 | the legacy face loops compute exactly `initializeAxisWalls` and `determineAxisWalls` |
| LegacyMaze.Site | js/mazegame.js:340-353 | a torch's options are the torch options; it faces an option iff there is one |
| LegacyMaze.LegacyTorchColumn | js/mazegame.js:335-355 | one column's torches: exactly the open positions where the draw succeeds |
| LegacyMaze.LegacyTorches | js/mazegame.js:333-356 | a torch at every open position where the draw succeeds, and nowhere else |
| LegacyMaze.LegacyBuild | js/mazegame.js:129-218 | the legacy constructor fails iff the module version fails, with the same error, and otherwise builds the same walls and faces; every torch has a direction |
| LegacyGame.LegacyStart | js/mazegame.js:26-32 | the same starting position, yaw and health as js/player/player.js |
| LegacyGame.LegacyTallyNone | js/mazegame.js:491 | doing nothing keeps the bookkeeping |
| LegacyGame.LegacyTallyCompose | js/mazegame.js:491 | two stretches of legacy play compose |
| LegacyGame.LegacyCollides | js/mazegame.js:495-577 | a probe from position 0 throws; blocked iff the nearest hit d has d - 0.5 < amount; a counted collision takes 1 health, adds 1 to the counter, and replaces the position by 0 at health <= 0; a blocked probe returns true either way; only an unblocked probe reaches the win latch |
| LegacyGame.LegacyTryMove | js/mazegame.js:643-653 | the step commits iff the key is down and the probe returns unblocked, with no health check; a probe from position 0 throws |
| LegacyGame.LegacyEither | js/mazegame.js:643-663 | an `else if` pair: at most one commits, each only with its key, and a throw in the first skips the second |
| LegacyGame.LegacyHacks | js/mazegame.js:595-623 | the same hacks rules as the module version; the lift of a position that is 0 is lost |
| LegacyGame.LegacyMovement | js/mazegame.js:643-687 | letters or arrows move; at most one step per axis; after a loss the frame throws iff a movement key is down |
| LegacyGame.LegacyTurn | js/mazegame.js:627-636 | q/e turn and `rotclamp` put the yaw in (-TAU, TAU) and change no flag |
| LegacyGame.LegacyUpdate | js/mazegame.js:590-694 | a frame flips hacks iff F2 is pressed, wraps the yaw, keeps the bookkeeping, and skips the snapshot exactly when a probe throws |
| LegacyGame.LegacyPlayTally | js/mazegame.js:590-694 | any run of legacy frames keeps the bookkeeping |
| LegacyGame.LegacyWinAtMostOnce | js/mazegame.js:552-553 | over any run the legacy win sound plays at most once |
| LegacyGame.LostGameFreezes | js/mazegame.js:544-647 | after a loss, the first frame with a movement key down throws and ends the run |

## Left out

- GeneratorProofs.GenerateSpanningTree: success of `Generator.Generate` is not proved. The lemma says only what a run that returns normally produces, and that a failing run fails with a TypeError. While n > 0, a pop from an empty stack would make `here` undefined, and the probes at js/maze/mazeGenerator.js:41-50 would throw. `GeneratorProofs.StepInv` shows that this is the only way an iteration can fail. The loop backtracks past a cell after that cell's second child, so a visited cell can leave the stack with an unvisited neighbour. That such a neighbour is always reached another way depends on the planar structure of the grid, and no invariant here captures it.
- `rnd` and `Array.prototype.randomElement` are not shown. They enter as oracles: the start cell, `choose`, `pick` and the torch `choose`.
- The ray cast (`THREE.Raycaster.intersectObjects`) is a library call. Its hit distances enter as a parameter.
- `Math.sin`, `Math.cos` and `Math.TAU` enter as parameters. Positions are exact reals, with no floating-point rounding. NaN is modelled as `None`; arithmetic on NaN is not modelled.
- Rendering, audio, DOM, WebXR and pointer lock are out of scope: `generateMazeGeometry`, the ceiling and floors, the torch meshes, `player.update`, `xrControls.update`, and `createHearts`/`updateHearts`. Sounds and interface changes appear only as a list of effects.
- The fixed entrance torch at (-1, 0, 0) facing East (js/maze/maze.js:249, js/mazegame.js:359) is not part of the torch loops modelled.
- LegacyMaze.LegacyTorches: the torch list is described by membership, not by its order.
- LegacyGame.LegacyPlay: ending the run at a throwing frame assumes the animation loop stops. That is library behaviour of three.js `setAnimationLoop`, which is not part of this model.
- LegacyGame.LegacyHacks: after a loss, the lift `position.y += speed` on the number 0 is ignored, as in non-strict JavaScript. The probe hands the number 0 to three.js first: the Raycaster is built on it at js/mazegame.js:499 and `intersectObjects` runs at line 502. The model assumes these library calls return or throw, rather than hang, so the probe throws by `clone()` at line 506 either way.
- Params.ParseInt: numbers are exact integers. JavaScript's `parseInt` returns a double, so above 2^53 its result can be rounded ("9007199254740993" reads as 9007199254740992); that rounding is not modelled, and the round-trip lemmas are stated only up to 2^53.
- `parseDimensions`/`parseScale` use JavaScript's Unicode white-space set for `parseInt`'s leading trim, which is written out as a list. The regexes are modelled as the predicates `HasDigit`, `HasDigitPair` and `HasDigitTriple`.
- Behaviour of the code that the model keeps:
  - faces are emitted around walled positions, not around open cells (js/maze/maze.js:88);
  - the win and entrance tests run at the position before the step, because the collision probe runs before the move (js/game/mazeGame.js:211-214);
  - the face scan reads the grid transposed, as `walls[z][x]`, so a maze taller than wide throws (js/maze/maze.js:86-88, `Faces.AxisWallsTall`).
