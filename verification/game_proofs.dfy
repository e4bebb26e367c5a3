/**
 * Properties of the game logic across whole frames and runs of frames: the win
 * fires at most once, the entrance sound plays at most twice after a reset, a
 * dead player never moves, and a held F2 flips the hacks toggle once.
 */
module GameProofs {
  import opened Utils
  import opened Input
  import opened Player
  import opened Game

  /** What the world supplies to one frame: the key events since the last frame, the time step and the probe sensors. */
  datatype Frame = Frame(events: seq<KeyEvent>, delta: real, env: Heading -> Sensor)

  /** The game loop: each frame delivers its key events, then runs `update`. */
  function Play(g: GameState, keys: KeyState, frames: seq<Frame>, tau: real, sin: real -> real, cos: real -> real): Tick
    requires tau > 0.0
    decreases |frames|
  {
    if |frames| == 0 then Tick(g, keys, [])
    else
      var t := Game.Update(g, DeliverAll(keys, frames[0].events), frames[0].delta, tau, sin, cos, frames[0].env);
      var rest := Play(t.game, t.keys, frames[1..], tau, sin, cos);
      Tick(rest.game, rest.keys, t.effects + rest.effects)
  }

  lemma {:induction false} PlayTally(g: GameState, keys: KeyState, frames: seq<Frame>, tau: real, sin: real -> real, cos: real -> real)
    requires tau > 0.0
    ensures var t := Play(g, keys, frames, tau, sin, cos);
      Tally(g, t.game, t.effects)
    decreases |frames|
  {
    if |frames| == 0 {
      TallyNone(g);
    } else {
      var t := Game.Update(g, DeliverAll(keys, frames[0].events), frames[0].delta, tau, sin, cos, frames[0].env);
      var rest := Play(t.game, t.keys, frames[1..], tau, sin, cos);
      PlayTally(t.game, t.keys, frames[1..], tau, sin, cos);
      TallyCompose(g, t.game, rest.game, t.effects, rest.effects);
    }
  }

  /**
   * `gameWon` is a one-way latch: over any run of frames the win sound plays at most
   * once, not at all once the game is won, and the game stays won.
   */
  lemma WinAtMostOnce(g: GameState, keys: KeyState, frames: seq<Frame>, tau: real, sin: real -> real, cos: real -> real)
    requires tau > 0.0
    ensures var t := Play(g, keys, frames, tau, sin, cos);
      Count(t.effects, WinSound) <= 1
      && (g.gameWon ==> t.game.gameWon && Count(t.effects, WinSound) == 0)
  {
    PlayTally(g, keys, frames, tau, sin, cos);
  }

  /** After `resetValues`, the entrance sound plays at most twice over any run of frames, however often the player returns to the entrance. */
  lemma EntranceSoundAtMostTwice(g: GameState, keys: KeyState, frames: seq<Frame>, tau: real, sin: real -> real, cos: real -> real)
    requires tau > 0.0
    ensures var t := Play(ResetValues(g), keys, frames, tau, sin, cos);
      Count(t.effects, EntranceSound) <= 2
  {
    PlayTally(ResetValues(g), keys, frames, tau, sin, cos);
  }

  /** The key events of each frame, in order. */
  function Events(frames: seq<Frame>): (r: seq<seq<KeyEvent>>)
    ensures |r| == |frames| && forall f :: 0 <= f < |frames| ==> r[f] == frames[f].events
  {
    seq(|frames|, f requires 0 <= f < |frames| => frames[f].events)
  }

  /** A toggle that starts at `b` and is flipped once for each `true` report. */
  function Flips(b: bool, reports: seq<bool>): bool
    decreases |reports|
  {
    if |reports| == 0 then b else Flips(b != reports[0], reports[1..])
  }

  /** Over a run of frames, the hacks toggle is flipped exactly in the frames where `isKeyPressed(F2)` answers true. */
  lemma {:induction false} PlayHacks(g: GameState, keys: KeyState, frames: seq<Frame>, tau: real, sin: real -> real, cos: real -> real)
    requires tau > 0.0
    ensures Play(g, keys, frames, tau, sin, cos).game.hacks == Flips(g.hacks, PressedReports(keys, Events(frames), KeyF2))
    decreases |frames|
  {
    if |frames| > 0 {
      var s := DeliverAll(keys, frames[0].events);
      var t := Game.Update(g, s, frames[0].delta, tau, sin, cos, frames[0].env);
      PlayHacks(t.game, t.keys, frames[1..], tau, sin, cos);
      assert Events(frames)[1..] == Events(frames[1..]);
      assert PressedReports(keys, Events(frames), KeyF2)
        == [IsKeyPressed(s, KeyF2)] + PressedReports(Input.Update(s), Events(frames[1..]), KeyF2);
    }
  }

  lemma {:induction false} FlipsNone(b: bool, n: nat)
    ensures Flips(b, seq(n, _ => false)) == b
  {
    if n > 0 {
      assert seq(n, _ => false)[1..] == seq(n - 1, _ => false);
      FlipsNone(b, n - 1);
    }
  }

  /**
   * Pressing F2 and holding it flips the hacks toggle once, however many frames
   * pass while it is held and whatever other keys are pressed and released meanwhile,
   * because only the frame that delivers the press reports it.
   */
  lemma HeldF2FlipsOnce(g: GameState, keys: KeyState, frames: seq<Frame>, tau: real, sin: real -> real, cos: real -> real)
    requires tau > 0.0
    requires !WasDown(keys, KeyF2)
    requires |frames| > 0 && LastTouchPresses(frames[0].events, KeyF2)
    requires forall f, i :: 1 <= f < |frames| && 0 <= i < |frames[f].events| ==> !Touches(frames[f].events[i], KeyF2)
    ensures Play(g, keys, frames, tau, sin, cos).game.hacks == !g.hacks
  {
    var ev := Events(frames);
    var rest := ev[1..];
    assert ev == [ev[0]] + rest;
    forall f, i | 0 <= f < |rest| && 0 <= i < |rest[f]|
      ensures !Touches(rest[f][i], KeyF2)
    {
      assert rest[f] == frames[f + 1].events;
    }
    HeldKeyPressedOnce(keys, ev[0], rest, KeyF2);
    PlayHacks(g, keys, frames, tau, sin, cos);
    var reports := [true] + seq(|rest|, _ => false);
    assert reports[1..] == seq(|rest|, _ => false);
    FlipsNone(!g.hacks, |rest|);
  }
}
