/**
 * js/manager/inputManager.js: the keyboard state and its once-per-frame edge
 * detection. `keys` holds the state set by the key events since the start,
 * `oldKeys` the snapshot taken at the end of the previous frame. A key that
 * was never touched has no entry, which the source reads as `undefined`.
 */
module Input {

  datatype KeyState = KeyState(keys: map<int, bool>, oldKeys: map<int, bool>)

  /** A key event delivered by the browser between two frames. */
  datatype KeyEvent = Press(code: int) | Release(code: int)

  /** The state before any event: both tables empty. */
  const Initial: KeyState := KeyState(map[], map[])

  /** `isKeyDown`: `!!keys[code]`, so an untouched key reads as up. */
  predicate IsKeyDown(s: KeyState, code: int) {
    code in s.keys && s.keys[code]
  }

  /** Whether `code` was down at the previous frame's snapshot. */
  predicate WasDown(s: KeyState, code: int) {
    code in s.oldKeys && s.oldKeys[code]
  }

  /** `isKeyPressed`: down now, but not at the previous snapshot. */
  predicate IsKeyPressed(s: KeyState, code: int) {
    IsKeyDown(s, code) && !WasDown(s, code)
  }

  /** Every key that was never touched reads as up. */
  lemma UntouchedKeyIsUp(code: int)
    ensures !IsKeyDown(Initial, code) && !IsKeyPressed(Initial, code)
  {
  }

  /** `keyDown`: marks `code` down and leaves every other key and the snapshot alone. */
  function KeyDown(s: KeyState, code: int): (s': KeyState)
    ensures IsKeyDown(s', code)
    ensures s'.oldKeys == s.oldKeys
    ensures forall c :: c != code ==> (c in s'.keys <==> c in s.keys)
    ensures forall c :: c != code && c in s.keys ==> s'.keys[c] == s.keys[c]
  {
    KeyState(s.keys[code := true], s.oldKeys)
  }

  /** `keyUp`: marks `code` up (an explicit `false` entry) and leaves everything else alone. */
  function KeyUp(s: KeyState, code: int): (s': KeyState)
    ensures !IsKeyDown(s', code) && code in s'.keys
    ensures s'.oldKeys == s.oldKeys
    ensures forall c :: c != code ==> (c in s'.keys <==> c in s.keys)
    ensures forall c :: c != code && c in s.keys ==> s'.keys[c] == s.keys[c]
  {
    KeyState(s.keys[code := false], s.oldKeys)
  }

  /** `update`: the snapshot becomes a copy of the current keys, which stay as they are. */
  function Update(s: KeyState): (s': KeyState)
    ensures s'.keys == s.keys
    ensures forall c :: IsKeyDown(s', c) <==> IsKeyDown(s, c)
    ensures forall c :: !IsKeyPressed(s', c)
  {
    KeyState(s.keys, s.keys)
  }

  /** A key reported as just pressed is also reported as down. */
  lemma PressedImpliesDown(s: KeyState, code: int)
    requires IsKeyPressed(s, code)
    ensures IsKeyDown(s, code)
  {
  }

  /** Delivers one key event. */
  function Deliver(s: KeyState, e: KeyEvent): KeyState {
    match e
    case Press(c) => KeyDown(s, c)
    case Release(c) => KeyUp(s, c)
  }

  /** Delivers a frame's events in order. */
  function DeliverAll(s: KeyState, es: seq<KeyEvent>): KeyState
    decreases |es|
  {
    if |es| == 0 then s else DeliverAll(Deliver(s, es[0]), es[1..])
  }

  /** Whether an event concerns `code`. */
  predicate Touches(e: KeyEvent, code: int) {
    match e
    case Press(c) => c == code
    case Release(c) => c == code
  }

  /** Events that do not concern `code` leave its current and snapshot state alone. */
  lemma {:induction false} DeliverOthers(s: KeyState, es: seq<KeyEvent>, code: int)
    requires forall i :: 0 <= i < |es| ==> !Touches(es[i], code)
    ensures IsKeyDown(DeliverAll(s, es), code) == IsKeyDown(s, code)
    ensures DeliverAll(s, es).oldKeys == s.oldKeys
    decreases |es|
  {
    if |es| > 0 {
      DeliverOthers(Deliver(s, es[0]), es[1..], code);
    }
  }

  /**
   * The per-frame answers of `isKeyPressed(code)`: each frame delivers its events,
   * asks the question, then runs `update` as the game loop does at the end of a frame.
   */
  function PressedReports(s: KeyState, frames: seq<seq<KeyEvent>>, code: int): (r: seq<bool>)
    ensures |r| == |frames|
    decreases |frames|
  {
    if |frames| == 0 then []
    else
      var t := DeliverAll(s, frames[0]);
      [IsKeyPressed(t, code)] + PressedReports(Update(t), frames[1..], code)
  }

  /** While nobody touches a key that is down at the snapshot, it is never reported as pressed. */
  lemma {:induction false} HeldKeyStaysQuiet(s: KeyState, frames: seq<seq<KeyEvent>>, code: int)
    requires IsKeyDown(s, code) && WasDown(s, code)
    requires forall f, i :: 0 <= f < |frames| && 0 <= i < |frames[f]| ==> !Touches(frames[f][i], code)
    ensures forall f :: 0 <= f < |frames| ==> !PressedReports(s, frames, code)[f]
    decreases |frames|
  {
    if |frames| > 0 {
      var t := DeliverAll(s, frames[0]);
      DeliverOthers(s, frames[0], code);
      HeldKeyStaysQuiet(Update(t), frames[1..], code);
      var r := PressedReports(s, frames, code);
      assert r == [IsKeyPressed(t, code)] + PressedReports(Update(t), frames[1..], code);
      forall f | 0 <= f < |frames|
        ensures !r[f]
      {
        if f > 0 {
          assert r[f] == PressedReports(Update(t), frames[1..], code)[f - 1];
        }
      }
    }
  }

  /**
   * A key pressed once and then held reports `pressed` in exactly one frame:
   * the frame in which the press arrives. This is what lets a held F2 flip the
   * debug toggle only once.
   */
  lemma HeldKeyPressedOnce(s: KeyState, press: seq<KeyEvent>, rest: seq<seq<KeyEvent>>, code: int)
    requires !WasDown(s, code) && LastTouchPresses(press, code)
    requires forall f, i :: 0 <= f < |rest| && 0 <= i < |rest[f]| ==> !Touches(rest[f][i], code)
    ensures PressedReports(s, [press] + rest, code) == [true] + seq(|rest|, _ => false)
  {
    var frames := [press] + rest;
    var t := DeliverAll(s, press);
    DeliverLastPress(s, press, code);
    assert frames[1..] == rest;
    HeldKeyStaysQuiet(Update(t), rest, code);
    var r := PressedReports(s, frames, code);
    assert r == [IsKeyPressed(t, code)] + PressedReports(Update(t), rest, code);
  }

  /** The last event of `es` that concerns `code` presses it; events on other keys may follow. */
  predicate LastTouchPresses(es: seq<KeyEvent>, code: int) {
    exists p :: 0 <= p < |es| && es[p] == Press(code) && forall i :: p < i < |es| ==> !Touches(es[i], code)
  }

  /** After a batch of events whose last one on `code` presses it, the key is down and the snapshot is untouched. */
  lemma {:induction false} DeliverLastPress(s: KeyState, es: seq<KeyEvent>, code: int)
    requires LastTouchPresses(es, code)
    ensures IsKeyDown(DeliverAll(s, es), code)
    ensures DeliverAll(s, es).oldKeys == s.oldKeys
    decreases |es|
  {
    var p :| 0 <= p < |es| && es[p] == Press(code) && forall i :: p < i < |es| ==> !Touches(es[i], code);
    var tail := es[1..];
    if p == 0 {
      assert forall i :: 0 <= i < |tail| ==> !Touches(tail[i], code) by {
        forall i | 0 <= i < |tail| ensures !Touches(tail[i], code) {
          assert tail[i] == es[i + 1];
        }
      }
      DeliverOthers(Deliver(s, es[0]), tail, code);
    } else {
      assert tail[p - 1] == es[p];
      assert forall i :: p - 1 < i < |tail| ==> !Touches(tail[i], code) by {
        forall i | p - 1 < i < |tail| ensures !Touches(tail[i], code) {
          assert tail[i] == es[i + 1];
        }
      }
      DeliverLastPress(Deliver(s, es[0]), tail, code);
    }
  }
}
