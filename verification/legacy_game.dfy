/**
 * The game half of the older single-file game, js/mazegame.js: `playerCollides`
 * with the collision, lose and win rules inlined, and the movement and rotation
 * part of `update`. It differs from js/game/mazeGame.js in four ways the model
 * keeps: there is no entrance counter, arrow keys move as well as w/a/s/d, a
 * move does not check health, and a lost game assigns the number 0 to the
 * player's position, so that the next probe throws a TypeError instead of
 * returning. `None` stands for a call that throws.
 */
module LegacyGame {
  import opened Utils
  import opened Wrappers
  import opened Input
  import opened Player
  import opened Game
  import opened GameProofs

  /**
   * The state the legacy game logic reads and writes: the position (`None` once it
   * has been replaced by the number 0), the yaw, the health, the module-level
   * `collission_counter` and `gamewon`, the hacks toggle, the maze size and `MOVESPEED`.
   */
  datatype LegacyState = LegacyState(
    position: Option<Vec3>,
    theta: real,
    health: int,
    collisionCounter: int,
    gameWon: bool,
    hacks: bool,
    width: int,
    height: int,
    moveSpeed: real)

  /** The player's starting state in the constructor: the same position, yaw and health as the module version. */
  function LegacyStart(scale: Vec3, tau: real, hacks: bool, width: int, height: int, moveSpeed: real): (g: LegacyState)
    requires tau > 0.0
    ensures var p := NewPlayer(scale, tau);
      g.position == Some(p.position) && g.theta == p.theta && g.health == p.health
    ensures !g.gameWon && g.collisionCounter == 0
  {
    LegacyState(Some(Vec3(-1.5 * scale.x, 0.1 * scale.y, 1.0 * scale.z)), tau * 1.5 / 2.0, 3, 0, false, hacks, width, height, moveSpeed)
  }

  /** The player stands within distance 1 of the exit in the ground plane. */
  predicate AtTarget(g: LegacyState, p: Vec3) {
    PlanarDistance2(p, (g.width * 2 - 1) as real, (g.height * 2) as real) < 1.0
  }

  /**
   * The legacy bookkeeping from `g` to `g'` with effects `es`: the win latch only
   * closes and the win sound plays at most once, and only when it closes the latch;
   * the collision counter only grows and health never rises.
   */
  predicate LegacyTally(g: LegacyState, g': LegacyState, es: seq<Effect>) {
    (g.gameWon ==> g'.gameWon)
    && Count(es, WinSound) <= (if g.gameWon then 0 else 1)
    && (Count(es, WinSound) == 1 ==> g'.gameWon)
    && g.collisionCounter <= g'.collisionCounter
    && g'.health <= g.health
  }

  /** What the probes and steps never touch: the yaw, the hacks toggle, the maze size and the speed. */
  predicate LegacyKept(g: LegacyState, g': LegacyState) {
    g'.theta == g.theta && g'.hacks == g.hacks && g'.width == g.width && g'.height == g.height && g'.moveSpeed == g.moveSpeed
  }

  lemma LegacyTallyNone(g: LegacyState)
    ensures LegacyTally(g, g, [])
  {
  }

  lemma LegacyTallyCompose(g1: LegacyState, g2: LegacyState, g3: LegacyState, e1: seq<Effect>, e2: seq<Effect>)
    requires LegacyTally(g1, g2, e1) && LegacyTally(g2, g3, e2)
    ensures LegacyTally(g1, g3, e1 + e2)
  {
    assert multiset(e1 + e2) == multiset(e1) + multiset(e2);
  }

  /** The result of a probe that returns: whether the step is blocked, the new state and the effects. */
  datatype LegacyProbe = LegacyProbe(blocked: bool, game: LegacyState, effects: seq<Effect>)

  /**
   * `playerCollides(dir, amount)`: a probe from a position that is no longer a vector
   * throws. A blocked step returns true, whether or not the collision counted; a
   * counted collision costs one health point, and the last one replaces the position
   * by 0. Only an unblocked step reaches the win test, at the position before the step.
   */
  function LegacyCollides(g: LegacyState, amount: real, sensor: Sensor): (r: Option<LegacyProbe>)
    ensures r.None? <==> g.position.None?
    ensures r.Some? ==> LegacyTally(g, r.value.game, r.value.effects) && LegacyKept(g, r.value.game)
    ensures r.Some? ==> r.value.blocked == CheckCollision(sensor.hits, amount).blocked
    ensures r.Some? && r.value.blocked && (sensor.soundEnded || g.collisionCounter == 0) ==>
      var h := r.value.game;
      h.health == g.health - 1 && h.collisionCounter == g.collisionCounter + 1 && h.gameWon == g.gameWon
      && (h.position.None? <==> h.health <= 0) && Hearts in r.value.effects
    ensures r.Some? && r.value.blocked && !(sensor.soundEnded || g.collisionCounter == 0) ==>
      r.value.game == g && r.value.effects == []
    ensures r.Some? && !r.value.blocked ==>
      r.value.game == g.(gameWon := g.gameWon || AtTarget(g, g.position.value))
      && (WinSound in r.value.effects <==> !g.gameWon && AtTarget(g, g.position.value))
  {
    match g.position
    case None => None
    case Some(p) =>
      if CheckCollision(sensor.hits, amount).blocked then
        if sensor.soundEnded || g.collisionCounter == 0 then
          var health := g.health - 1;
          var g' := g.(collisionCounter := g.collisionCounter + 1, health := health);
          if health > 0 then Some(LegacyProbe(true, g', [CollisionSound, Hearts]))
          else Some(LegacyProbe(true, g'.(position := None), [LoseSound, LoseMessage, Hearts]))
        else
          Some(LegacyProbe(true, g, []))
      else if !g.gameWon && AtTarget(g, p) then
        Some(LegacyProbe(false, g.(gameWon := true), [WinSound, WinMessage]))
      else
        Some(LegacyProbe(false, g, []))
  }

  /** One movement test of `update`; `thrown` when its probe threw, which leaves state and effects as they were. */
  datatype LegacyMove = LegacyMove(committed: bool, thrown: bool, game: LegacyState, effects: seq<Effect>)

  /** A step of `speed` along `v` in the ground plane. */
  function LegacyShift(g: LegacyState, v: Vec3, speed: real): LegacyState {
    match g.position
    case None => g
    case Some(p) => g.(position := Some(Vec3(p.x + v.x * speed, p.y, p.z + v.z * speed)))
  }

  /**
   * `(key down) && !this.playerCollides(v, speed)`, then the step: the probe runs
   * only when the key is down, and the step commits whenever the probe says the way
   * is free, with no health check.
   */
  function LegacyTryMove(g: LegacyState, down: bool, v: Vec3, speed: real, sensor: Sensor): (m: LegacyMove)
    ensures LegacyTally(g, m.game, m.effects) && LegacyKept(g, m.game)
    ensures m.thrown <==> down && g.position.None?
    ensures m.thrown ==> !m.committed && m.game == g && m.effects == []
    ensures m.committed <==> down && g.position.Some? && !CheckCollision(sensor.hits, speed).blocked
    ensures m.committed ==>
      m.game.position == Some(Vec3(g.position.value.x + v.x * speed, g.position.value.y, g.position.value.z + v.z * speed))
  {
    if !down then
      LegacyTallyNone(g);
      LegacyMove(false, false, g, [])
    else
      match LegacyCollides(g, speed, sensor)
      case None =>
        LegacyTallyNone(g);
        LegacyMove(false, true, g, [])
      case Some(c) =>
        if c.blocked then LegacyMove(false, false, c.game, c.effects)
        else LegacyMove(true, false, LegacyShift(c.game, v, speed), c.effects)
  }

  /** The arrow keys `update` accepts beside w, s, a and d. */
  const ArrowUp := 38
  const ArrowDown := 40
  const ArrowLeft := 37
  const ArrowRight := 39

  /** A pair of movement tests: which one committed, whether a probe threw, and the state and effects so far. */
  datatype LegacyPair = LegacyPair(first: bool, second: bool, thrown: bool, game: LegacyState, effects: seq<Effect>)

  /** An `if (A) … else if (B) …` pair of movement tests; a throw in the first skips the second. */
  function LegacyEither(g: LegacyState, first: (bool, Vec3, Sensor), second: (bool, Vec3, Sensor), speed: real): (r: LegacyPair)
    ensures LegacyTally(g, r.game, r.effects) && LegacyKept(g, r.game)
    ensures !(r.first && r.second) && (r.first ==> first.0) && (r.second ==> second.0)
    ensures r.thrown ==> !r.first && !r.second
    ensures g.position.None? ==> (r.thrown <==> first.0 || second.0)
    ensures !first.0 && !second.0 ==> r == LegacyPair(false, false, false, g, [])
  {
    var a := LegacyTryMove(g, first.0, first.1, speed, first.2);
    if a.thrown || a.committed then
      LegacyPair(a.committed, false, a.thrown, a.game, a.effects)
    else
      var b := LegacyTryMove(a.game, second.0, second.1, speed, second.2);
      LegacyTallyCompose(g, a.game, b.game, a.effects, b.effects);
      LegacyPair(false, b.committed, b.thrown, b.game, a.effects + b.effects)
  }

  /** A movement key, letter or arrow, is down. */
  predicate MoveKeyDown(keys: KeyState) {
    IsKeyDown(keys, KeyW) || IsKeyDown(keys, ArrowUp) || IsKeyDown(keys, KeyS) || IsKeyDown(keys, ArrowDown)
    || IsKeyDown(keys, KeyA) || IsKeyDown(keys, ArrowLeft) || IsKeyDown(keys, KeyD) || IsKeyDown(keys, ArrowRight)
  }

  /** The debug block of `update`: the same rules as the module version; a lift of a position that is the number 0 changes nothing. */
  function LegacyHacks(g: LegacyState, keys: KeyState, speed: real): (r: (LegacyState, real))
    ensures r.0 == g.(hacks := r.0.hacks, position := r.0.position)
    ensures r.0.hacks == (g.hacks != IsKeyPressed(keys, KeyF2))
    ensures r.1 == speed * (if !IsKeyDown(keys, KeyShift) then 1.0 else if r.0.hacks then 4.0 else 1.7)
    ensures r.0.position.None? <==> g.position.None?
  {
    var hacks := g.hacks != IsKeyPressed(keys, KeyF2);
    if hacks then
      var fast := if IsKeyDown(keys, KeyShift) then speed * 4.0 else speed;
      var position := match g.position
        case None => None
        case Some(p) =>
          Some(if IsKeyDown(keys, KeySpace) then p.(y := p.y + fast)
               else if IsKeyDown(keys, KeyCtrl) then p.(y := p.y - fast)
               else p);
      (g.(hacks := true, position := position), fast)
    else
      (g.(hacks := false), if IsKeyDown(keys, KeyShift) then speed * 1.7 else speed)
  }

  /** The four movement tests of one frame, whether a probe threw, and the state and effects so far. */
  datatype LegacySteps = LegacySteps(forward: bool, backward: bool, left: bool, right: bool, thrown: bool, game: LegacyState, effects: seq<Effect>)

  /**
   * The movement part of `update` along heading `dir`: forward or backward, then
   * left or right, where each test accepts its letter or its arrow key and the
   * lateral probes start from the position after the forward or backward step.
   * A throw ends the frame where it happens.
   */
  function LegacyMovement(g: LegacyState, keys: KeyState, dir: Vec3, speed: real, env: Heading -> Sensor): (r: LegacySteps)
    ensures LegacyTally(g, r.game, r.effects) && LegacyKept(g, r.game)
    ensures !(r.forward && r.backward) && !(r.left && r.right)
    ensures r.forward ==> IsKeyDown(keys, KeyW) || IsKeyDown(keys, ArrowUp)
    ensures r.backward ==> IsKeyDown(keys, KeyS) || IsKeyDown(keys, ArrowDown)
    ensures r.left ==> IsKeyDown(keys, KeyA) || IsKeyDown(keys, ArrowLeft)
    ensures r.right ==> IsKeyDown(keys, KeyD) || IsKeyDown(keys, ArrowRight)
    ensures !MoveKeyDown(keys) ==> !r.thrown
    ensures g.position.None? ==> (r.thrown <==> MoveKeyDown(keys))
  {
    var side := Cross(dir, Vec3(0.0, 1.0, 0.0));
    var forward := IsKeyDown(keys, KeyW) || IsKeyDown(keys, ArrowUp);
    var backward := IsKeyDown(keys, KeyS) || IsKeyDown(keys, ArrowDown);
    var left := IsKeyDown(keys, KeyA) || IsKeyDown(keys, ArrowLeft);
    var right := IsKeyDown(keys, KeyD) || IsKeyDown(keys, ArrowRight);
    var ahead := LegacyEither(g, (forward, dir, env(Forward)), (backward, Neg(dir), env(Backward)), speed);
    if ahead.thrown then
      LegacySteps(false, false, false, false, true, ahead.game, ahead.effects)
    else
      var lateral := LegacyEither(ahead.game, (left, Neg(side), env(Leftward)), (right, side, env(Rightward)), speed);
      LegacyTallyCompose(g, ahead.game, lateral.game, ahead.effects, lateral.effects);
      LegacySteps(ahead.first, ahead.second, lateral.first, lateral.second, lateral.thrown, lateral.game,
                  ahead.effects + lateral.effects)
  }

  /** The hacks block and the q/e turn at 1.4 radians per second, wrapped by `rotclamp`; also gives the frame's step length. */
  function LegacyTurn(g: LegacyState, keys: KeyState, delta: real, tau: real): (r: (LegacyState, real))
    requires tau > 0.0
    ensures r.0.hacks == (g.hacks != IsKeyPressed(keys, KeyF2))
    ensures -tau < r.0.theta < tau
    ensures r.0.gameWon == g.gameWon && r.0.collisionCounter == g.collisionCounter && r.0.health == g.health
    ensures r.0.position.None? <==> g.position.None?
  {
    var hacked := LegacyHacks(g, keys, g.moveSpeed * delta);
    var turn := 1.4 * delta;
    var theta := if IsKeyDown(keys, KeyQ) then g.theta + turn
                 else if IsKeyDown(keys, KeyE) then g.theta - turn
                 else g.theta;
    (hacked.0.(theta := RotClamp(theta, tau)), hacked.1)
  }

  /** One legacy frame's result; `thrown` when a probe threw, which skips the keyboard snapshot. */
  datatype LegacyTick = LegacyTick(game: LegacyState, keys: KeyState, effects: seq<Effect>, thrown: bool)

  /**
   * `update(delta)`: hacks, the q/e turn wrapped by `rotclamp`, the movement tests,
   * then the keyboard snapshot. A throwing probe ends the frame before the snapshot.
   */
  function LegacyUpdate(g: LegacyState, keys: KeyState, delta: real, tau: real, sin: real -> real, cos: real -> real,
                        env: Heading -> Sensor): (t: LegacyTick)
    requires tau > 0.0
    ensures t.keys == if t.thrown then keys else Input.Update(keys)
    ensures t.game.hacks == (g.hacks != IsKeyPressed(keys, KeyF2))
    ensures -tau < t.game.theta < tau
    ensures LegacyTally(g, t.game, t.effects)
    ensures !MoveKeyDown(keys) ==> !t.thrown
    ensures g.position.None? ==> (t.thrown <==> MoveKeyDown(keys))
  {
    var turned := LegacyTurn(g, keys, delta, tau);
    var m := LegacyMovement(turned.0, keys, Facing(turned.0.theta, sin, cos), turned.1, env);
    LegacyTick(m.game, if m.thrown then keys else Input.Update(keys), m.effects, m.thrown)
  }

  /** The result of a run of legacy frames: the last state, keyboard and all effects, and whether a frame threw and ended the run. */
  datatype LegacyRun = LegacyRun(game: LegacyState, keys: KeyState, effects: seq<Effect>, thrown: bool)

  /** The game loop over the legacy `update`: each frame delivers its key events and runs `update`; a throwing frame ends the animation loop. */
  function LegacyPlay(g: LegacyState, keys: KeyState, frames: seq<Frame>, tau: real, sin: real -> real, cos: real -> real): LegacyRun
    requires tau > 0.0
    decreases |frames|
  {
    if |frames| == 0 then LegacyRun(g, keys, [], false)
    else
      var t := LegacyUpdate(g, DeliverAll(keys, frames[0].events), frames[0].delta, tau, sin, cos, frames[0].env);
      if t.thrown then LegacyRun(t.game, t.keys, t.effects, true)
      else
        var rest := LegacyPlay(t.game, t.keys, frames[1..], tau, sin, cos);
        LegacyRun(rest.game, rest.keys, t.effects + rest.effects, rest.thrown)
  }

  lemma {:induction false} LegacyPlayTally(g: LegacyState, keys: KeyState, frames: seq<Frame>, tau: real, sin: real -> real, cos: real -> real)
    requires tau > 0.0
    ensures var r := LegacyPlay(g, keys, frames, tau, sin, cos);
      LegacyTally(g, r.game, r.effects)
    decreases |frames|
  {
    if |frames| == 0 {
      LegacyTallyNone(g);
    } else {
      var t := LegacyUpdate(g, DeliverAll(keys, frames[0].events), frames[0].delta, tau, sin, cos, frames[0].env);
      if !t.thrown {
        var rest := LegacyPlay(t.game, t.keys, frames[1..], tau, sin, cos);
        LegacyPlayTally(t.game, t.keys, frames[1..], tau, sin, cos);
        LegacyTallyCompose(g, t.game, rest.game, t.effects, rest.effects);
      }
    }
  }

  /** `gamewon` is a one-way latch in the legacy game too: over any run of frames the win sound plays at most once, and not at all once the game is won. */
  lemma LegacyWinAtMostOnce(g: LegacyState, keys: KeyState, frames: seq<Frame>, tau: real, sin: real -> real, cos: real -> real)
    requires tau > 0.0
    ensures var r := LegacyPlay(g, keys, frames, tau, sin, cos);
      Count(r.effects, WinSound) <= 1
      && (g.gameWon ==> r.game.gameWon && Count(r.effects, WinSound) == 0)
  {
    LegacyPlayTally(g, keys, frames, tau, sin, cos);
  }

  /**
   * Once a legacy game is lost, the first frame in which a movement key is down
   * throws and ends the run; the module version instead keeps probing and never moves.
   */
  lemma LostGameFreezes(g: LegacyState, keys: KeyState, frames: seq<Frame>, tau: real, sin: real -> real, cos: real -> real)
    requires tau > 0.0 && g.position.None? && |frames| > 0
    requires MoveKeyDown(DeliverAll(keys, frames[0].events))
    ensures LegacyPlay(g, keys, frames, tau, sin, cos).thrown
  {
  }
}
