/** The mouse-look bookkeeping of the camera assignment: `clamp`, and the part of
    `moveCamera` that updates CameraControls (firstMouse, prevMouseX/Y, yaw, pitch)
    from the right mouse button and the cursor position. The GLFW queries become
    parameters; the forward/right/up vectors and the position update are not part of
    this model. Angles are in degrees and are computed exactly (reals). */
module CameraControl {

  /** The pitch limit moveCamera clamps to, in degrees. */
  const PitchLimit: real := 89.0

  /** clamp(value, min, max): raise to min, then lower to max, in that order. */
  function Clamp(value: real, min: real, max: real): (r: real)
    ensures min <= max ==> min <= r <= max
    ensures min <= value <= max ==> r == value
    ensures value < min && min <= max ==> r == min
    ensures value > max ==> r == max
    ensures max < min ==> r == max
  {
    var raised := if value < min then min else value;
    if raised > max then max else raised
  }

  /** Clamping a clamped value changes nothing, whatever the bounds. */
  lemma ClampIdempotent(value: real, min: real, max: real)
    ensures Clamp(Clamp(value, min, max), min, max) == Clamp(value, min, max)
  {
  }

  /** Clamping preserves order. */
  lemma ClampMonotone(v: real, w: real, min: real, max: real)
    requires v <= w
    ensures Clamp(v, min, max) <= Clamp(w, min, max)
  {
  }

  /** What moveCamera reads from GLFW in one frame: whether the right button is held,
      and the cursor position. */
  datatype MouseInput = MouseInput(rightHeld: bool, x: real, y: real)

  /** The aiming state moveCamera updates. */
  datatype Look = Look(prevMouseX: real, prevMouseY: real, yaw: real, pitch: real, firstMouse: bool)

  predicate PitchInRange(l: Look) {
    -PitchLimit <= l.pitch <= PitchLimit
  }

  /** The angle, in degrees, a cursor movement of `delta` pixels turns the camera by. */
  function Scaled(delta: real, sensitivity: real): real {
    delta * sensitivity
  }

  /** Turning by two cursor movements in a row is turning by their sum. */
  lemma ScaledAdds(a: real, b: real, c: real, sensitivity: real)
    ensures Scaled(b - a, sensitivity) + Scaled(c - b, sensitivity) == Scaled(c - a, sensitivity)
  {
    assert (b - a) * sensitivity + (c - b) * sensitivity == ((b - a) + (c - b)) * sensitivity;
  }

  /** The first held frame of a grab: remember the cursor, so that this frame's deltas are zero. */
  function Grab(l: Look, input: MouseInput): Look {
    if l.firstMouse then l.(firstMouse := false, prevMouseX := input.x, prevMouseY := input.y) else l
  }

  /** A held frame after Grab: turn by the cursor's travel times the sensitivity, clamp the
      pitch, remember the cursor. */
  function Turn(l: Look, input: MouseInput, sensitivity: real): Look {
    var yaw := l.yaw + Scaled(input.x - l.prevMouseX, sensitivity);
    var pitch := l.pitch + Scaled(input.y - l.prevMouseY, sensitivity);
    Look(input.x, input.y, yaw, Clamp(pitch, -PitchLimit, PitchLimit), l.firstMouse)
  }

  /** One call of moveCamera on the aiming state, with `sensitivity` the global the
      source multiplies the deltas by. */
  function Step(l: Look, input: MouseInput, sensitivity: real): (r: Look)
    // Released: only firstMouse changes, it becomes true.
    ensures !input.rightHeld ==> r == l.(firstMouse := true)
    // Held: the grab is registered and the cursor remembered.
    ensures input.rightHeld ==> !r.firstMouse && r.prevMouseX == input.x && r.prevMouseY == input.y
    // Held: the pitch is always inside [-89, 89].
    ensures input.rightHeld ==> PitchInRange(r)
    // The first held frame turns nothing: both deltas are zero.
    ensures input.rightHeld && l.firstMouse ==> r.yaw == l.yaw && r.pitch == Clamp(l.pitch, -PitchLimit, PitchLimit)
    // Later held frames turn by the cursor's travel since the previous frame.
    ensures input.rightHeld && !l.firstMouse ==>
      && r.yaw == l.yaw + Scaled(input.x - l.prevMouseX, sensitivity)
      && r.pitch == Clamp(l.pitch + Scaled(input.y - l.prevMouseY, sensitivity), -PitchLimit, PitchLimit)
  {
    if !input.rightHeld then l.(firstMouse := true) else Turn(Grab(l, input), input, sensitivity)
  }

  /** The state after one moveCamera call per frame, in order. */
  function Run(l: Look, frames: seq<MouseInput>, sensitivity: real): Look
    decreases |frames|
  {
    if |frames| == 0 then l else Run(Step(l, frames[0], sensitivity), frames[1..], sensitivity)
  }

  predicate AllHeld(frames: seq<MouseInput>) {
    forall k :: 0 <= k < |frames| ==> frames[k].rightHeld
  }

  /** Every call keeps the pitch in [-89, 89] once it is there, so it stays there for any
      sequence of frames. */
  lemma {:induction false} RunKeepsPitchInRange(l: Look, frames: seq<MouseInput>, sensitivity: real)
    requires PitchInRange(l)
    ensures PitchInRange(Run(l, frames, sensitivity))
    decreases |frames|
  {
    if |frames| > 0 {
      RunKeepsPitchInRange(Step(l, frames[0], sensitivity), frames[1..], sensitivity);
    }
  }

  /** Where a drag measures cursor travel from: the first frame's cursor on a fresh grab,
      the remembered position otherwise. */
  function DragOrigin(l: Look, first: MouseInput): real {
    if l.firstMouse then first.x else l.prevMouseX
  }

  /** Over a drag (the button held in every frame), the yaw turns by the total horizontal
      travel of the cursor times the sensitivity: the per-frame deltas add up, so the yaw
      depends only on where the drag starts and ends, and a fresh grab never jumps. */
  lemma {:induction false} DragTurnsYawByTravel(l: Look, frames: seq<MouseInput>, sensitivity: real)
    requires |frames| > 0 && AllHeld(frames)
    ensures Run(l, frames, sensitivity).yaw
      == l.yaw + Scaled(frames[|frames| - 1].x - DragOrigin(l, frames[0]), sensitivity)
    ensures Run(l, frames, sensitivity).prevMouseX == frames[|frames| - 1].x
    ensures !Run(l, frames, sensitivity).firstMouse
    decreases |frames|
  {
    var next := Step(l, frames[0], sensitivity);
    if |frames| > 1 {
      var rest := frames[1..];
      assert AllHeld(rest) by {
        forall k | 0 <= k < |rest| ensures rest[k].rightHeld {
          assert rest[k] == frames[k + 1];
        }
      }
      DragTurnsYawByTravel(next, rest, sensitivity);
      var a, b, c := DragOrigin(l, frames[0]), frames[0].x, frames[|frames| - 1].x;
      assert rest[|rest| - 1] == frames[|frames| - 1];
      ScaledAdds(a, b, c, sensitivity);
    }
  }

  /** A release followed by a fresh grab starts over: whatever the cursor did while the
      button was up, the first held frame turns nothing. */
  lemma ReleaseThenGrabDoesNotJump(l: Look, release: MouseInput, grab: MouseInput, sensitivity: real)
    requires !release.rightHeld && grab.rightHeld
    ensures Run(l, [release, grab], sensitivity).yaw == l.yaw
    ensures Run(l, [release, grab], sensitivity).prevMouseX == grab.x
    ensures Run(l, [release, grab], sensitivity).prevMouseY == grab.y
  {
    var released := Step(l, release, sensitivity);
    assert [release, grab][1..] == [grab];
    assert [grab][1..] == [];
    assert Run(l, [release, grab], sensitivity) == Run(released, [grab], sensitivity);
    assert Run(released, [grab], sensitivity) == Step(released, grab, sensitivity);
  }

  /** The CameraControls struct. prevMouseX and prevMouseY start out uninitialised in the
      source; here they take whatever values the caller supplies. */
  class CameraControls {
    var prevMouseX: real
    var prevMouseY: real
    var yaw: real
    var pitch: real
    var mouseSensitivity: real
    var firstMouse: bool
    var moveSpeed: real

    constructor(initialPrevX: real, initialPrevY: real)
      ensures prevMouseX == initialPrevX && prevMouseY == initialPrevY
      ensures yaw == 0.0 && pitch == 0.0 && firstMouse
      ensures mouseSensitivity == 0.1 && moveSpeed == 5.0
      ensures PitchInRange(Snapshot())
    {
      prevMouseX := initialPrevX;
      prevMouseY := initialPrevY;
      yaw := 0.0;
      pitch := 0.0;
      mouseSensitivity := 0.1;
      firstMouse := true;
      moveSpeed := 5.0;
    }

    /** The aiming part of the state. */
    function Snapshot(): Look
      reads this
    {
      Look(prevMouseX, prevMouseY, yaw, pitch, firstMouse)
    }

    /** The CameraControls updates of moveCamera. `sensitivity` is the global the source
        multiplies by; the struct's own mouseSensitivity is never read. */
    method MoveCamera(rightHeld: bool, mouseX: real, mouseY: real, sensitivity: real)
      modifies this
      ensures Snapshot() == Step(old(Snapshot()), MouseInput(rightHeld, mouseX, mouseY), sensitivity)
      ensures mouseSensitivity == old(mouseSensitivity) && moveSpeed == old(moveSpeed)
      ensures old(PitchInRange(Snapshot())) ==> PitchInRange(Snapshot())
    {
      ghost var input := MouseInput(rightHeld, mouseX, mouseY);
      ghost var before := Snapshot();
      if !rightHeld {
        firstMouse := true;
        assert Snapshot() == before.(firstMouse := true);
        return;
      }
      if firstMouse {
        firstMouse := false;
        prevMouseX := mouseX;
        prevMouseY := mouseY;
      }
      ghost var grabbed := Snapshot();
      assert grabbed == Grab(before, input);
      var xDelta := mouseX - prevMouseX;
      var yDelta := mouseY - prevMouseY;
      yaw := yaw + Scaled(xDelta, sensitivity);
      pitch := pitch + Scaled(yDelta, sensitivity);
      pitch := Clamp(pitch, -PitchLimit, PitchLimit);
      prevMouseX := mouseX;
      prevMouseY := mouseY;
      assert Snapshot() == Turn(grabbed, input, sensitivity);
    }
  }
}
