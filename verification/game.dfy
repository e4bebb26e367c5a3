/**
 * The game logic of js/game/mazeGame.js: the three callbacks `playerCollides` hands
 * to the collision probe, the per-frame `update` (debug hacks, rotation, movement)
 * and `resetValues`. Sounds and interface changes are recorded as a list of
 * effects. What the source computes outside this logic enters as parameters: the
 * raycast hits and whether the collision sound has ended, per probe heading; and
 * `Math.sin`/`Math.cos`.
 */
module Game {
  import opened Utils
  import opened Input
  import opened Player

  /** The sounds and interface changes the game logic triggers. */
  datatype Effect =
    | CollisionSound | LoseSound | LoseMessage | RestartButton | Hearts
    | WinSound | WinMessage | EntranceSound | WalkingSound

  /**
   * The state the game logic reads and writes: the player, the module-level flags
   * `gameWon`, `collisionCounter` and `entranceCounter`, the hacks toggle, the maze
   * size and `MOVESPEED`.
   */
  datatype GameState = GameState(
    player: PlayerState,
    gameWon: bool,
    collisionCounter: int,
    entranceCounter: int,
    hacks: bool,
    width: int,
    height: int,
    moveSpeed: real)

  /** A game state together with the effects that led to it. */
  datatype Outcome = Outcome(game: GameState, effects: seq<Effect>)

  /** Where a dead player is sent. */
  const Away: Vec3 := Vec3(-20000.0, -20000.0, -20000.0)

  /** Whether a collision counts: the previous collision sound has ended, or there was no collision yet. */
  predicate Counts(g: GameState, soundEnded: bool) {
    soundEnded || g.collisionCounter == 0
  }

  /** Only the player and the collision counter differ. */
  predicate SameFlags(g: GameState, g': GameState) {
    g'.gameWon == g.gameWon && g'.entranceCounter == g.entranceCounter && g'.hacks == g.hacks
    && g'.width == g.width && g'.height == g.height && g'.moveSpeed == g.moveSpeed
  }

  /** What the collision probes and steps never touch: the hacks toggle, the maze size, the speed and the view angles. */
  predicate Kept(g: GameState, g': GameState) {
    g'.hacks == g.hacks && g'.width == g.width && g'.height == g.height && g'.moveSpeed == g.moveSpeed
    && g'.player.theta == g.player.theta && g'.player.phi == g.player.phi
  }

  /** How many entrance sounds `onEntrance` has played once its counter, starting from 0, reaches `c`: one for each of the values 1 and 2 it has passed. */
  function Sounds(c: int): (n: int)
    ensures 0 <= n <= 2
  {
    if c <= 1 then 0 else if c >= 3 then 2 else c - 1
  }

  /** The number of times `e` occurs in `es`. */
  function Count(es: seq<Effect>, e: Effect): nat {
    multiset(es)[e]
  }

  /**
   * The bookkeeping a stretch of play from `g` to `g'` with effects `es` keeps: the
   * win latch only closes and the win sound plays at most once, and only when it
   * closes the latch; the counters only grow, and the entrance sound plays once
   * for each of the counter values 1 and 2 passed; health never rises.
   */
  predicate Tally(g: GameState, g': GameState, es: seq<Effect>) {
    (g.gameWon ==> g'.gameWon)
    && Count(es, WinSound) <= (if g.gameWon then 0 else 1)
    && (Count(es, WinSound) == 1 ==> g'.gameWon)
    && g.entranceCounter <= g'.entranceCounter
    && g.collisionCounter <= g'.collisionCounter
    && g'.player.health <= g.player.health
    && Count(es, EntranceSound) == Sounds(g'.entranceCounter) - Sounds(g.entranceCounter)
  }

  lemma TallyNone(g: GameState)
    ensures Tally(g, g, [])
  {
  }

  /** A step adds only the walking sound and changes only the position. */
  lemma WalkTally(g: GameState, g': GameState, es: seq<Effect>, v: Vec3, speed: real)
    requires Tally(g, g', es)
    ensures Tally(g, Shift(g', v, speed), es + [WalkingSound])
  {
    assert multiset(es + [WalkingSound]) == multiset(es) + multiset{WalkingSound};
  }

  /** Two consecutive stretches of play make one. */
  lemma TallyCompose(g1: GameState, g2: GameState, g3: GameState, e1: seq<Effect>, e2: seq<Effect>)
    requires Tally(g1, g2, e1) && Tally(g2, g3, e2)
    ensures Tally(g1, g3, e1 + e2)
  {
    assert multiset(e1 + e2) == multiset(e1) + multiset(e2);
  }

  /**
   * `onCollision`: a collision that counts costs one health point, with no lower
   * bound; the player survives while health stays positive and otherwise loses
   * and is sent away.
   */
  function Collide(g: GameState, soundEnded: bool): (o: Outcome)
    ensures Tally(g, o.game, o.effects)
    ensures !Counts(g, soundEnded) ==> o == Outcome(g, [])
    ensures Counts(g, soundEnded) ==>
      o.game.collisionCounter == g.collisionCounter + 1 && o.game.player.health == g.player.health - 1
      && SameFlags(g, o.game) && o.game.player.theta == g.player.theta && Hearts in o.effects
    ensures Counts(g, soundEnded) && o.game.player.health > 0 ==>
      o.effects == [CollisionSound, Hearts] && o.game.player.position == g.player.position
    ensures Counts(g, soundEnded) && o.game.player.health <= 0 ==>
      o.effects == [LoseSound, LoseMessage, RestartButton, Hearts] && o.game.player.position == Away
  {
    if Counts(g, soundEnded) then
      var p := g.player.(health := g.player.health - 1);
      var g' := g.(collisionCounter := g.collisionCounter + 1);
      if p.health > 0 then Outcome(g'.(player := p), [CollisionSound, Hearts])
      else Outcome(g'.(player := p.(position := Away)), [LoseSound, LoseMessage, RestartButton, Hearts])
    else
      Outcome(g, [])
  }

  /** `onWin`: the first time the player is found at the exit, the game is won. */
  function Win(g: GameState): (o: Outcome)
    ensures Tally(g, o.game, o.effects)
    ensures o.game == g.(gameWon := g.gameWon || CheckPlayerPosition(g.player, g.width, g.height).isAtTarget)
    ensures WinSound in o.effects <==> !g.gameWon && CheckPlayerPosition(g.player, g.width, g.height).isAtTarget
    ensures o.effects == [] || o.effects == [WinSound, WinMessage, RestartButton]
  {
    if !g.gameWon && CheckPlayerPosition(g.player, g.width, g.height).isAtTarget then
      Outcome(g.(gameWon := true), [WinSound, WinMessage, RestartButton])
    else
      Outcome(g, [])
  }

  /** `onEntrance`: each call at the entrance counts, and the second and third such calls play the entrance sound. */
  function Enter(g: GameState): (o: Outcome)
    ensures Tally(g, o.game, o.effects)
    ensures CheckPlayerPosition(g.player, g.width, g.height).isAtEntrance ==>
      o.game == g.(entranceCounter := g.entranceCounter + 1)
    ensures !CheckPlayerPosition(g.player, g.width, g.height).isAtEntrance ==> o.game == g
    ensures EntranceSound in o.effects <==>
      CheckPlayerPosition(g.player, g.width, g.height).isAtEntrance && 1 <= g.entranceCounter <= 2
    ensures o.effects == [] || o.effects == [EntranceSound]
  {
    if CheckPlayerPosition(g.player, g.width, g.height).isAtEntrance then
      Outcome(g.(entranceCounter := g.entranceCounter + 1),
              if g.entranceCounter > 0 && g.entranceCounter < 3 then [EntranceSound] else [])
    else
      Outcome(g, [])
  }

  /** Runs the callbacks `checkCollision` asked for, in order. */
  function RunCallbacks(g: GameState, calls: seq<Callback>, soundEnded: bool): (o: Outcome)
    ensures Kept(g, o.game)
    ensures Tally(g, o.game, o.effects)
    decreases |calls|
  {
    if |calls| == 0 then
      TallyNone(g);
      Outcome(g, [])
    else
      var o := match calls[0]
        case OnCollision => Collide(g, soundEnded)
        case OnWin => Win(g)
        case OnEntrance => Enter(g);
      var rest := RunCallbacks(o.game, calls[1..], soundEnded);
      TallyCompose(g, o.game, rest.game, o.effects, rest.effects);
      Outcome(rest.game, o.effects + rest.effects)
  }

  /** What the world reports to one collision probe: the raycast's hit distances, nearest first, and whether the collision sound has ended. */
  datatype Sensor = Sensor(hits: seq<real>, soundEnded: bool)

  /** The result of `playerCollides`: whether the step is blocked, and the callbacks' outcome. */
  datatype Collision = Collision(blocked: bool, game: GameState, effects: seq<Effect>)

  /**
   * `playerCollides(dir, amount)`: a blocked step runs only `onCollision`; any other
   * step runs `onWin` then `onEntrance`, both at the position before the step.
   */
  function PlayerCollides(g: GameState, amount: real, sensor: Sensor): (c: Collision)
    ensures Kept(g, c.game)
    ensures Tally(g, c.game, c.effects)
    ensures c.blocked == CheckCollision(sensor.hits, amount).blocked
    ensures c.blocked ==> Outcome(c.game, c.effects) == Collide(g, sensor.soundEnded)
    ensures !c.blocked ==>
      var w := Win(g);
      var e := Enter(w.game);
      c.game == e.game && c.effects == w.effects + e.effects
  {
    var probe := CheckCollision(sensor.hits, amount);
    var o := RunCallbacks(g, probe.calls, sensor.soundEnded);
    if probe.blocked then
      CollideOnly(g, sensor.soundEnded);
      Collision(true, o.game, o.effects)
    else
      WinThenEnter(g, sensor.soundEnded);
      Collision(false, o.game, o.effects)
  }

  lemma CollideOnly(g: GameState, soundEnded: bool)
    ensures RunCallbacks(g, [OnCollision], soundEnded) == Collide(g, soundEnded)
  {
    var o := Collide(g, soundEnded);
    assert [OnCollision][1..] == [];
    assert o.effects + [] == o.effects;
  }

  lemma WinThenEnter(g: GameState, soundEnded: bool)
    ensures var w := Win(g);
      var e := Enter(w.game);
      RunCallbacks(g, [OnWin, OnEntrance], soundEnded) == Outcome(e.game, w.effects + e.effects)
  {
    var w := Win(g);
    var e := Enter(w.game);
    assert [OnWin, OnEntrance][1..] == [OnEntrance];
    assert [OnEntrance][1..] == [];
    assert RunCallbacks(e.game, [], soundEnded) == Outcome(e.game, []);
    assert e.effects + [] == e.effects;
  }

  /** The position after a step of `speed` along `v` in the ground plane. */
  function Shift(g: GameState, v: Vec3, speed: real): GameState {
    var p := g.player.position;
    g.(player := g.player.(position := Vec3(p.x + v.x * speed, p.y, p.z + v.z * speed)))
  }

  /** One of the four movement tests: whether the step was taken, and the outcome. */
  datatype Move = Move(committed: bool, game: GameState, effects: seq<Effect>)

  /**
   * One movement test `isKeyDown(key) && !playerCollides(v, speed) && health > 0`:
   * the probe runs, with its callbacks, whenever the key is down, even for a dead
   * player; the step is taken only when it is not blocked and the player is still
   * alive after the callbacks, and then it moves the player by `speed` along `v`
   * in x and z.
   */
  function TryMove(g: GameState, down: bool, v: Vec3, speed: real, sensor: Sensor): (m: Move)
    ensures Kept(g, m.game)
    ensures Tally(g, m.game, m.effects)
    ensures m.committed ==> down && g.player.health > 0
    ensures !down ==> m == Move(false, g, [])
    ensures down ==>
      var c := PlayerCollides(g, speed, sensor);
      (m.committed <==> !c.blocked && c.game.player.health > 0)
      && (m.committed ==> m.game == Shift(c.game, v, speed) && m.effects == c.effects + [WalkingSound])
      && (!m.committed ==> m.game == c.game && m.effects == c.effects)
  {
    if !down then
      TallyNone(g);
      Move(false, g, [])
    else
      var c := PlayerCollides(g, speed, sensor);
      if !c.blocked && c.game.player.health > 0 then
        WalkTally(g, c.game, c.effects, v, speed);
        Move(true, Shift(c.game, v, speed), c.effects + [WalkingSound])
      else
        Move(false, c.game, c.effects)
  }

  /** `-v`. */
  function Neg(v: Vec3): Vec3 {
    Vec3(-v.x, -v.y, -v.z)
  }

  /** `a × b`. */
  function Cross(a: Vec3, b: Vec3): Vec3 {
    Vec3(a.y * b.z - a.z * b.y, a.z * b.x - a.x * b.z, a.x * b.y - a.y * b.x)
  }

  /** The four directions `movePlayer` probes. */
  datatype Heading = Forward | Backward | Leftward | Rightward

  const KeyW := 87
  const KeyS := 83
  const KeyA := 65
  const KeyD := 68

  /** Which steps `movePlayer` took, and the outcome. */
  datatype Moves = Moves(forward: bool, backward: bool, left: bool, right: bool, game: GameState, effects: seq<Effect>)

  /** An `if (A) … else if (B) …` pair of movement tests: B runs only when A did not commit. */
  function Either(g: GameState, keys: KeyState, first: (int, Vec3, Sensor), second: (int, Vec3, Sensor), speed: real): (r: (Move, Move))
    ensures r.0 == TryMove(g, IsKeyDown(keys, first.0), first.1, speed, first.2)
    ensures Kept(g, r.1.game)
    ensures Tally(g, r.1.game, r.0.effects + r.1.effects)
    ensures r.0.committed || r.1.committed ==> g.player.health > 0
    ensures r.0.committed ==> r.1 == Move(false, r.0.game, [])
    ensures !r.0.committed ==> r.1 == TryMove(r.0.game, IsKeyDown(keys, second.0), second.1, speed, second.2)
  {
    var a := TryMove(g, IsKeyDown(keys, first.0), first.1, speed, first.2);
    var b := if a.committed then Move(false, a.game, []) else TryMove(a.game, IsKeyDown(keys, second.0), second.1, speed, second.2);
    TallyNone(a.game);
    TallyCompose(g, a.game, b.game, a.effects, b.effects);
    (a, b)
  }

  /**
   * `movePlayer(dir, speed)`: forward (w) else backward (s), then left (a) else
   * right (d), the sideways direction being `dir × (0, 1, 0)`; the sideways probe
   * starts from the position after the forward or backward step.
   */
  function MovePlayer(g: GameState, keys: KeyState, dir: Vec3, speed: real, env: Heading -> Sensor): (r: Moves)
    ensures !(r.forward && r.backward) && !(r.left && r.right)
    ensures Kept(g, r.game)
    ensures Tally(g, r.game, r.effects)
    ensures r.forward ==> IsKeyDown(keys, KeyW)
    ensures r.backward ==> IsKeyDown(keys, KeyS)
    ensures r.left ==> IsKeyDown(keys, KeyA)
    ensures r.right ==> IsKeyDown(keys, KeyD)
    ensures g.player.health <= 0 ==> !r.forward && !r.backward && !r.left && !r.right
  {
    var side := Cross(dir, Vec3(0.0, 1.0, 0.0));
    var ahead := Either(g, keys, (KeyW, dir, env(Forward)), (KeyS, Neg(dir), env(Backward)), speed);
    var g1 := ahead.1.game;
    var lateral := Either(g1, keys, (KeyA, Neg(side), env(Leftward)), (KeyD, side, env(Rightward)), speed);
    var first, second := ahead.0.effects + ahead.1.effects, lateral.0.effects + lateral.1.effects;
    TallyCompose(g, g1, lateral.1.game, first, second);
    Moves(ahead.0.committed, ahead.1.committed, lateral.0.committed, lateral.1.committed, lateral.1.game,
          first + second)
  }

  const KeyF2 := 113
  const KeyShift := 16
  const KeySpace := 32
  const KeyCtrl := 17
  const KeyQ := 81
  const KeyE := 69

  /** The game flags, the counters, the health, the maze size and the speed are the same. */
  predicate Untouched(g: GameState, g': GameState) {
    g'.gameWon == g.gameWon && g'.collisionCounter == g.collisionCounter && g'.entranceCounter == g.entranceCounter
    && g'.player.health == g.player.health && g'.width == g.width && g'.height == g.height && g'.moveSpeed == g.moveSpeed
  }

  /**
   * `handleDebugHacks(speed)`: F2 flips the hacks toggle; with hacks on, shift
   * quadruples the speed and space (else ctrl) lifts (else lowers) the player by
   * the new speed; with hacks off, shift multiplies the speed by 1.7.
   */
  function HandleDebugHacks(g: GameState, keys: KeyState, speed: real): (r: (GameState, real))
    ensures r.0.hacks == (g.hacks != IsKeyPressed(keys, KeyF2))
    ensures r.1 == speed * (if !IsKeyDown(keys, KeyShift) then 1.0 else if r.0.hacks then 4.0 else 1.7)
    ensures r.0.player.position.y ==
      if r.0.hacks && IsKeyDown(keys, KeySpace) then g.player.position.y + r.1
      else if r.0.hacks && IsKeyDown(keys, KeyCtrl) then g.player.position.y - r.1
      else g.player.position.y
    ensures Untouched(g, r.0) && r.0.player.theta == g.player.theta && r.0.player.phi == g.player.phi
    ensures r.0.player.position.x == g.player.position.x && r.0.player.position.z == g.player.position.z
  {
    var hacks := g.hacks != IsKeyPressed(keys, KeyF2);
    var p := g.player.position;
    if hacks then
      var fast := if IsKeyDown(keys, KeyShift) then speed * 4.0 else speed;
      var y := if IsKeyDown(keys, KeySpace) then p.y + fast else if IsKeyDown(keys, KeyCtrl) then p.y - fast else p.y;
      (g.(hacks := true, player := g.player.(position := p.(y := y))), fast)
    else
      var fast := if IsKeyDown(keys, KeyShift) then speed * 1.7 else speed;
      (g.(hacks := false), fast)
  }

  /** `handlePlayerRotation(rot)`: q turns left, else e turns right, then the yaw is wrapped by `rotclamp`. */
  function HandlePlayerRotation(g: GameState, keys: KeyState, rot: real, tau: real): (g': GameState)
    requires tau > 0.0
    ensures -tau < g'.player.theta < tau
    ensures Untouched(g, g') && g'.hacks == g.hacks && g'.player.position == g.player.position && g'.player.phi == g.player.phi
    ensures !IsKeyDown(keys, KeyQ) && !IsKeyDown(keys, KeyE) && -tau < g.player.theta < tau ==> g'.player.theta == g.player.theta
  {
    var theta := if IsKeyDown(keys, KeyQ) then g.player.theta + rot
                 else if IsKeyDown(keys, KeyE) then g.player.theta - rot
                 else g.player.theta;
    g.(player := g.player.(theta := RotClamp(theta, tau)))
  }

  /** The yaw after a rotation is the turned yaw up to whole turns: the wrap never changes the heading. */
  lemma RotationKeepsHeading(g: GameState, keys: KeyState, rot: real, tau: real) returns (k: int)
    requires tau > 0.0
    ensures var turned := if IsKeyDown(keys, KeyQ) then g.player.theta + rot
                          else if IsKeyDown(keys, KeyE) then g.player.theta - rot
                          else g.player.theta;
      turned - HandlePlayerRotation(g, keys, rot, tau).player.theta == (k as real) * tau
  {
    var turned := if IsKeyDown(keys, KeyQ) then g.player.theta + rot
                  else if IsKeyDown(keys, KeyE) then g.player.theta - rot
                  else g.player.theta;
    k := RotClampSameHeading(turned, tau);
  }

  /** One frame's result: the game state, the keyboard state after `InputManager.update`, and the effects. */
  datatype Tick = Tick(game: GameState, keys: KeyState, effects: seq<Effect>)

  /** The direction the player faces for yaw `theta`, given `Math.sin` and `Math.cos`. */
  function Facing(theta: real, sin: real -> real, cos: real -> real): Vec3 {
    Vec3(-1.0 * sin(theta), 0.0, -1.0 * cos(theta))
  }

  /**
   * `update(delta)`: hacks, rotation at 1.4 radians per second, movement at
   * `MOVESPEED` per second (possibly boosted), then the keyboard snapshot.
   */
  function Update(g: GameState, keys: KeyState, delta: real, tau: real, sin: real -> real, cos: real -> real,
                  env: Heading -> Sensor): (t: Tick)
    requires tau > 0.0
    ensures t.keys == Input.Update(keys)
    ensures t.game.hacks == (g.hacks != IsKeyPressed(keys, KeyF2))
    ensures -tau < t.game.player.theta < tau
    ensures Tally(g, t.game, t.effects)
  {
    var hacked := HandleDebugHacks(g, keys, g.moveSpeed * delta);
    var turned := HandlePlayerRotation(hacked.0, keys, 1.4 * delta, tau);
    var moved := MovePlayer(turned, keys, Facing(turned.player.theta, sin, cos), hacked.1, env);
    Tick(moved.game, Input.Update(keys), moved.effects)
  }

  /** `resetValues`: the three module-level flags return to their initial values. */
  function ResetValues(g: GameState): (g': GameState)
    ensures !g'.gameWon && g'.collisionCounter == 0 && g'.entranceCounter == 0
    ensures g' == g.(gameWon := g'.gameWon, collisionCounter := g'.collisionCounter, entranceCounter := g'.entranceCounter)
  {
    g.(gameWon := false, collisionCounter := 0, entranceCounter := 0)
  }
}
