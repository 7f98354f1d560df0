/**
 * The small modes of the walk-through: which camera preset is in use, the
 * flashlight switch, the keys that change them, and the bounds on the
 * flashlight cone.
 */
module Modes {

  /** A camera preset: height above the player and look-angle multiplier. */
  datatype CameraPreset = CameraPreset(heightAdd: real, angleMultiplier: real)

  const CameraPresets: seq<CameraPreset> :=
    [CameraPreset(0.5, 1.0), CameraPreset(5.0, 10.0), CameraPreset(50.0, 100.0)]

  const InitialCameraIdx: int := 1

  /**
   * The preset after `idx`: the next one when the preset list has an entry
   * there, otherwise the first.  The result is always a valid index; within
   * range it advances by one and wraps from the last preset to the first.
   */
  function NextCameraIdx(idx: int): (r: int)
    ensures 0 <= r < |CameraPresets|
    ensures 0 <= idx < |CameraPresets| - 1 ==> r == idx + 1
    ensures idx == |CameraPresets| - 1 ==> r == 0
  {
    if 0 <= idx + 1 < |CameraPresets| then idx + 1 else 0
  }

  /** Three toggles bring every preset back. */
  lemma CameraCycle(idx: int)
    requires 0 <= idx < |CameraPresets|
    ensures NextCameraIdx(NextCameraIdx(NextCameraIdx(idx))) == idx
    ensures NextCameraIdx(idx) != idx && NextCameraIdx(NextCameraIdx(idx)) != idx
  {
  }

  // ---------------------------------------------------------------------
  // Keys

  function LowerChar(c: char): char
  {
    if 'A' <= c <= 'Z' then (c as int - 'A' as int + 'a' as int) as char else c
  }

  /** Lower-casing of a key name (ASCII letters only). */
  function ToLower(s: string): (r: string)
    ensures |r| == |s|
    ensures forall i :: 0 <= i < |s| ==> r[i] == LowerChar(s[i])
  {
    seq(|s|, i requires 0 <= i < |s| => LowerChar(s[i]))
  }

  function UpperOf(c: char): char
    requires 'a' <= c <= 'z'
  {
    (c as int - 'a' as int + 'A' as int) as char
  }

  /** A key name lower-cases to a single lower-case letter exactly when it is that letter in either case. */
  lemma LowerIsLetter(key: string, c: char)
    requires 'a' <= c <= 'z'
    ensures ToLower(key) == [c] <==> key == [c] || key == [UpperOf(c)]
  {
    if ToLower(key) == [c] {
      assert |key| == 1;
      assert LowerChar(key[0]) == c;
      assert key == [key[0]];
    }
    if key == [UpperOf(c)] {
      assert ToLower(key)[0] == c;
    }
  }

  /** The mode state that key presses change. */
  datatype ModeState = ModeState(cameraIdx: int, flashlightOn: bool)

  /**
   * A key press: 'f' or 'F' flips the flashlight, 'c' or 'C' selects the
   * next camera preset, any other key changes nothing.
   */
  function OnKeyDown(m: ModeState, key: string): (r: ModeState)
    ensures r.flashlightOn == (m.flashlightOn != (key == "f" || key == "F"))
    ensures r.cameraIdx == if key == "c" || key == "C" then NextCameraIdx(m.cameraIdx) else m.cameraIdx
  {
    LowerIsLetter(key, 'f');
    LowerIsLetter(key, 'c');
    var flashlightOn := if ToLower(key) == "f" then !m.flashlightOn else m.flashlightOn;
    var cameraIdx := if ToLower(key) == "c" then NextCameraIdx(m.cameraIdx) else m.cameraIdx;
    ModeState(cameraIdx, flashlightOn)
  }

  /** Pressing the same key twice restores the flashlight; a key press keeps the camera index in range. */
  lemma KeyPressesRestore(m: ModeState, key: string)
    ensures OnKeyDown(OnKeyDown(m, key), key).flashlightOn == m.flashlightOn
    ensures 0 <= m.cameraIdx < |CameraPresets| ==> 0 <= OnKeyDown(m, key).cameraIdx < |CameraPresets|
    ensures 0 <= m.cameraIdx < |CameraPresets| ==>
      OnKeyDown(OnKeyDown(OnKeyDown(m, key), key), key) == m || key == "f" || key == "F"
  {
    if 0 <= m.cameraIdx < |CameraPresets| {
      CameraCycle(m.cameraIdx);
    }
  }

  // ---------------------------------------------------------------------
  // Flashlight cone

  /** Pi as the shortest decimal of the double `Math.PI`. */
  const Pi: real := 3.141592653589793

  const MinFocus: real := Pi / 20.0
  const MaxFocus: real := Pi / 2.5
  const InitialFocus: real := Pi / 2.0

  /** The cone angle clamped into [pi/20, pi/2.5]: values inside are kept, the others go to the nearer bound. */
  function ClampFocus(f: real): (r: real)
    ensures MinFocus <= r <= MaxFocus
    ensures MinFocus <= f <= MaxFocus ==> r == f
    ensures f < MinFocus ==> r == MinFocus
    ensures f > MaxFocus ==> r == MaxFocus
  {
    var upper := if MaxFocus < f then MaxFocus else f;
    if MinFocus > upper then MinFocus else upper
  }

  lemma ClampIdempotent(f: real)
    ensures ClampFocus(ClampFocus(f)) == ClampFocus(f)
  {
  }
}
