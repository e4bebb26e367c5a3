/**
 * js/player/player.js: the player's state, the target and entrance tests, and the
 * collision probe. Positions are exact reals; the raycast against the wall meshes
 * is outside this model and enters as the distances of the hits it reports,
 * nearest first.
 */
module Player {
  import opened Utils

  datatype Vec3 = Vec3(x: real, y: real, z: real)

  /** The fields of a `Player` that the game logic reads and writes. */
  datatype PlayerState = PlayerState(position: Vec3, theta: real, phi: real, health: int)

  /** The position, yaw, pitch and health a new `Player` starts with, for the world scale `scale` and the full turn `tau`. */
  function NewPlayer(scale: Vec3, tau: real): (p: PlayerState)
    requires tau > 0.0
    ensures p.position.x == -1.5 * scale.x && p.position.y == 0.1 * scale.y && p.position.z == scale.z
    ensures p.theta == DirectionToAngle(South, tau)
    ensures p.phi == 0.0 && p.health == 3
  {
    PlayerState(Vec3(-1.5 * scale.x, 0.1 * scale.y, 1.0 * scale.z), tau * 1.5 / 2.0, 0.0, 3)
  }

  /** The squared distance in the ground plane (y ignored) from `p` to (x, z). */
  function PlanarDistance2(p: Vec3, x: real, z: real): (d: real)
    ensures d >= 0.0
  {
    (p.x - x) * (p.x - x) + (p.z - z) * (p.z - z)
  }

  /** The result of `checkPlayerPosition`. */
  datatype Where = Where(isAtTarget: bool, isAtEntrance: bool)

  /**
   * `checkPlayerPosition` for a maze of `width` by `height` cells: within distance
   * 1 in the ground plane of the exit (2 width - 1, 2 height), and of the origin.
   * Comparing squared distances with 1 is comparing distances with 1.
   */
  function CheckPlayerPosition(p: PlayerState, width: int, height: int): (w: Where)
    ensures w.isAtTarget <==> PlanarDistance2(p.position, 2.0 * (width as real) - 1.0, 2.0 * (height as real)) < 1.0
    ensures w.isAtEntrance <==> PlanarDistance2(p.position, 0.0, 0.0) < 1.0
  {
    Where(PlanarDistance2(p.position, (width * 2 - 1) as real, (height * 2) as real) < 1.0,
          PlanarDistance2(p.position, 0.0, 0.0) < 1.0)
  }

  /** The height of the player plays no part in the position test. */
  lemma PositionIgnoresHeight(p: PlayerState, y: real, width: int, height: int)
    ensures CheckPlayerPosition(p.(position := p.position.(y := y)), width, height) == CheckPlayerPosition(p, width, height)
  {
    var q := p.(position := p.position.(y := y));
    var tx, tz := (width * 2 - 1) as real, (height * 2) as real;
    assert PlanarDistance2(q.position, tx, tz) == PlanarDistance2(p.position, tx, tz);
    assert PlanarDistance2(q.position, 0.0, 0.0) == PlanarDistance2(p.position, 0.0, 0.0);
  }

  /** Squares of numbers beyond 1 are beyond 1. */
  lemma SquareBounds(a: real)
    ensures a >= 1.0 ==> a * a >= 1.0
    ensures a > 1.0 ==> a * a > 1.0
    ensures a * a >= 0.0
  {
    assert a * a - a == a * (a - 1.0);
  }

  /** In a maze of at least one cell the exit is too far from the entrance for the player to be near both. */
  lemma TargetAwayFromEntrance(p: PlayerState, width: int, height: int)
    requires width >= 1 && height >= 1
    ensures CheckPlayerPosition(p, width, height).isAtEntrance ==> !CheckPlayerPosition(p, width, height).isAtTarget
  {
    var x, z := p.position.x, p.position.z;
    var tx, tz := 2.0 * (width as real) - 1.0, 2.0 * (height as real);
    SquareBounds(x);
    SquareBounds(z);
    SquareBounds(x - tx);
    SquareBounds(tz - z);
    assert (z - tz) * (z - tz) == (tz - z) * (tz - z);
    if CheckPlayerPosition(p, width, height).isAtEntrance {
      assert z * z < 1.0;
      assert z < 1.0;
      assert (tz - z) * (tz - z) > 1.0;
    }
  }

  /** Which callbacks `checkCollision` invokes, in order. */
  datatype Callback = OnCollision | OnWin | OnEntrance

  /** The result of `checkCollision`. */
  datatype Probe = Probe(blocked: bool, calls: seq<Callback>)

  /** The ray's far limit: the step length plus 0.14. */
  function RayFar(amount: real): real {
    amount + 0.14
  }

  /**
   * `checkCollision` with the raycast's hit distances `hits`, nearest first: the step
   * is blocked when the nearest hit is closer than the step length plus 0.5; a
   * blocked step reports a collision, any other step runs the win and entrance
   * callbacks in that order.
   */
  function CheckCollision(hits: seq<real>, amount: real): (r: Probe)
    ensures r.blocked <==> |hits| > 0 && hits[0] - 0.5 < amount
    ensures r.blocked ==> r.calls == [OnCollision]
    ensures !r.blocked ==> r.calls == [OnWin, OnEntrance]
    ensures |r.calls| >= 1 && (OnCollision in r.calls <==> r.blocked)
  {
    if |hits| > 0 && hits[0] - 0.5 < amount then Probe(true, [OnCollision]) else Probe(false, [OnWin, OnEntrance])
  }

  /** The hits a ray from 0 to `RayFar(amount)` can report. */
  predicate WithinRay(hits: seq<real>, amount: real) {
    forall i :: 0 <= i < |hits| ==> 0.0 <= hits[i] <= RayFar(amount)
  }

  /**
   * Because the ray reaches only 0.14 beyond the step while the test allows 0.5,
   * every hit the ray can report blocks: the step is blocked exactly when the ray
   * hits anything.
   */
  lemma BlockedIffHit(hits: seq<real>, amount: real)
    requires WithinRay(hits, amount)
    ensures CheckCollision(hits, amount).blocked <==> |hits| > 0
  {
  }
}
