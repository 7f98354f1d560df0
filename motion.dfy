/**
 * One frame of player movement: turning, a proposed forward/backward
 * displacement, per-axis collision resolution, and the toy jump.
 * The direction of travel (the sine and cosine of the new heading) is an
 * input: trigonometry is not modelled.
 */
module Motion {
  import opened RoomLayout
  import opened Collision

  /** Which keys are held: a key absent from the map has never been pressed. */
  type Keys = map<string, bool>

  predicate Held(keys: Keys, key: string) { key in keys && keys[key] }

  predicate LeftHeld(keys: Keys) { Held(keys, "ArrowLeft") || Held(keys, "a") || Held(keys, "A") }
  predicate RightHeld(keys: Keys) { Held(keys, "ArrowRight") || Held(keys, "d") || Held(keys, "D") }
  predicate ForwardHeld(keys: Keys) { Held(keys, "ArrowUp") || Held(keys, "w") || Held(keys, "W") }
  predicate BackHeld(keys: Keys) { Held(keys, "ArrowDown") || Held(keys, "s") || Held(keys, "S") }
  predicate JumpHeld(keys: Keys) { Held(keys, " ") }

  const TurnSpeed: real := 0.05
  const Speed: real := 0.1
  const GroundLevel: real := 0.5
  const JumpSpeed: real := 0.2
  const Gravity: real := 0.01

  /** The player's position, heading, vertical velocity and jumping flag. */
  datatype Player = Player(x: real, y: real, z: real, rotation: real, vy: real, jumping: bool)

  /** The heading after this frame's turn keys. */
  function Turn(rotation: real, keys: Keys): (r: real)
    ensures LeftHeld(keys) == RightHeld(keys) ==> r == rotation
    ensures LeftHeld(keys) && !RightHeld(keys) ==> r == rotation - TurnSpeed
    ensures RightHeld(keys) && !LeftHeld(keys) ==> r == rotation + TurnSpeed
  {
    var turned := if LeftHeld(keys) then rotation - TurnSpeed else rotation;
    if RightHeld(keys) then turned + TurnSpeed else turned
  }

  /**
   * The proposed position: forward adds (sin, -cos) * Speed, backward
   * subtracts it, so holding both proposes no move at all.
   */
  function Propose(x: real, z: real, sinR: real, cosR: real, keys: Keys): (r: (real, real))
    ensures ForwardHeld(keys) == BackHeld(keys) ==> r == (x, z)
    ensures ForwardHeld(keys) && !BackHeld(keys) ==> r == (x + sinR * Speed, z - cosR * Speed)
    ensures BackHeld(keys) && !ForwardHeld(keys) ==> r == (x - sinR * Speed, z + cosR * Speed)
  {
    var dx, dz := sinR * Speed, cosR * Speed;
    var forward := if ForwardHeld(keys) then (x + dx, z - dz) else (x, z);
    if BackHeld(keys) then (forward.0 - dx, forward.1 + dz) else forward
  }

  /**
   * Per-axis resolution: the x move is tried against the old z, then the z
   * move against the committed x.  A blocked axis never cancels the other,
   * each axis only ever takes its proposed value or keeps its old one, and
   * a free starting position stays free.
   */
  function Resolve(walls: seq<Wall>, x: real, z: real, newX: real, newZ: real): (r: (real, real))
    ensures !Collides(walls, newX, z) ==> r.0 == newX
    ensures Collides(walls, newX, z) ==> r.0 == x
    ensures !Collides(walls, r.0, newZ) ==> r.1 == newZ
    ensures Collides(walls, r.0, newZ) ==> r.1 == z
    ensures !Collides(walls, x, z) ==> !Collides(walls, r.0, r.1)
  {
    var x' := if !Collides(walls, newX, z) then newX else x;
    var z' := if !Collides(walls, x', newZ) then newZ else z;
    (x', z')
  }

  predicate IsOnGround(y: real) { y <= GroundLevel }

  /** The vertical part of the player state. */
  datatype Vertical = Vertical(y: real, vy: real, jumping: bool)

  const Standing: Vertical := Vertical(GroundLevel, 0.0, false)

  function StartJump(v: Vertical, space: bool): Vertical
  {
    if space && !v.jumping && IsOnGround(v.y) then v.(jumping := true, vy := JumpSpeed) else v
  }

  function Fall(v: Vertical): Vertical
  {
    if !v.jumping then v
    else
      var y, vy := v.y + v.vy, v.vy - Gravity;
      if y <= GroundLevel then Standing else Vertical(y, vy, true)
  }

  /**
   * The vertical update of one frame: a jump starts only with space held,
   * not already jumping and on the ground; while airborne the height takes
   * the velocity and the velocity loses one unit of gravity; reaching the
   * ground snaps to it and clears the jump.
   */
  function VerticalStep(v: Vertical, space: bool): (r: Vertical)
    ensures v.y >= GroundLevel ==> r.y >= GroundLevel
    ensures r.jumping ==> r.y > GroundLevel
    ensures v.jumping && r.jumping ==> r.vy == v.vy - Gravity && r.y == v.y + v.vy
    ensures !r.jumping ==> r == v || r == Standing
    ensures !v.jumping && r.jumping ==> space && IsOnGround(v.y) && r.vy == JumpSpeed - Gravity
    ensures v.jumping ==> (r.jumping <==> v.y + v.vy > GroundLevel)
  {
    Fall(StartJump(v, space))
  }

  function VerticalOf(p: Player): Vertical { Vertical(p.y, p.vy, p.jumping) }

  /**
   * One frame of the player: turn, propose, start a jump, resolve the
   * move per axis, then integrate the jump.
   */
  function Step(walls: seq<Wall>, keys: Keys, p: Player, sinR: real, cosR: real): (r: Player)
    ensures !Collides(walls, p.x, p.z) ==> !Collides(walls, r.x, r.z)
    ensures p.y >= GroundLevel ==> r.y >= GroundLevel
    ensures r.jumping ==> r.y > GroundLevel
  {
    var rotation := Turn(p.rotation, keys);
    var proposed := Propose(p.x, p.z, sinR, cosR, keys);
    var started := StartJump(VerticalOf(p), JumpHeld(keys));
    var moved := Resolve(walls, p.x, p.z, proposed.0, proposed.1);
    var v := Fall(started);
    assert v == VerticalStep(VerticalOf(p), JumpHeld(keys));
    Player(moved.0, v.y, moved.1, rotation, v.vy, v.jumping)
  }

  /**
   * Moving diagonally into a corner where only the x move is blocked
   * still applies the z move, and the other way round.
   */
  lemma Sliding(walls: seq<Wall>, keys: Keys, p: Player, sinR: real, cosR: real)
    ensures var proposed, r := Propose(p.x, p.z, sinR, cosR, keys), Step(walls, keys, p, sinR, cosR);
      (Collides(walls, proposed.0, p.z) && !Collides(walls, p.x, proposed.1) ==> r.x == p.x && r.z == proposed.1) &&
      (!Collides(walls, proposed.0, p.z) && !Collides(walls, proposed.0, proposed.1) ==> r.x == proposed.0 && r.z == proposed.1) &&
      (!Collides(walls, proposed.0, p.z) && Collides(walls, proposed.0, proposed.1) ==> r.x == proposed.0 && r.z == p.z)
  {
  }

  // ---------------------------------------------------------------------
  // The jump arc

  /** Frames a jump stays airborne before the frame that lands it. */
  const AirFrames: nat := 40

  /** Height above the ground k frames into a jump, in units of 1/200: k(41-k). */
  function ArcUnits(k: int): int { k * (41 - k) }

  lemma {:induction false} ProductAtLeastOne(a: nat, b: nat)
    requires a >= 1 && b >= 1
    ensures a * b >= 1
  {
    if a > 1 {
      ProductAtLeastOne(a - 1, b);
    }
  }

  /**
   * The vertical state k frames into a jump (k = 0 standing): height
   * 0.5 + k(41-k)/200 and velocity (20-k)/100, in exact arithmetic.
   */
  function Phase(k: nat): Vertical
    requires k <= AirFrames
  {
    if k == 0 then Standing
    else Vertical(GroundLevel + ArcUnits(k) as real / 200.0, (20 - k) as real / 100.0, true)
  }

  /** Every phase of the arc is strictly above the ground. */
  lemma PhaseAboveGround(k: nat)
    requires 1 <= k <= AirFrames
    ensures Phase(k).jumping && Phase(k).y > GroundLevel
  {
    ProductAtLeastOne(k, 41 - k);
  }

  function NextPhase(k: nat, space: bool): nat
  {
    if k == 0 then (if space then 1 else 0) else if k == AirFrames then 0 else k + 1
  }

  /**
   * The jump is a fixed automaton: standing, it starts exactly when space
   * is held; airborne, it advances one phase per frame whatever the keys,
   * and the frame after phase 40 lands it with its state reset.
   */
  lemma PhaseStep(k: nat, space: bool)
    requires k <= AirFrames
    ensures NextPhase(k, space) <= AirFrames
    ensures VerticalStep(Phase(k), space) == Phase(NextPhase(k, space))
  {
    if k > 0 {
      assert ArcUnits(k + 1) == ArcUnits(k) + 2 * (20 - k);
      if k < AirFrames {
        PhaseAboveGround(k + 1);
      }
    }
  }

  /** The vertical state after a sequence of frames, one jump-key sample each. */
  function Run(v: Vertical, spaces: seq<bool>): Vertical
    decreases |spaces|
  {
    if spaces == [] then v else Run(VerticalStep(v, spaces[0]), spaces[1..])
  }

  /**
   * A jump always lands: from phase k of the arc, the next 41-k frames bring
   * the player back to the ground with velocity zero and the flag cleared,
   * whatever keys are held meanwhile.
   */
  lemma {:induction false} AlwaysLands(k: nat, spaces: seq<bool>)
    requires 1 <= k <= AirFrames && |spaces| == AirFrames + 1 - k
    ensures Run(Phase(k), spaces) == Standing
    decreases |spaces|
  {
    PhaseStep(k, spaces[0]);
    if k < AirFrames {
      AlwaysLands(k + 1, spaces[1..]);
    }
  }

  /** While airborne the player stays above the ground: phase k of the arc, k = 1 .. 40. */
  lemma {:induction false} Airborne(k: nat, spaces: seq<bool>)
    requires 1 <= k && k + |spaces| <= AirFrames
    ensures Run(Phase(k), spaces) == Phase(k + |spaces|)
    ensures Run(Phase(k), spaces).jumping && Run(Phase(k), spaces).y > GroundLevel
    decreases |spaces|
  {
    if spaces != [] {
      PhaseStep(k, spaces[0]);
      Airborne(k + 1, spaces[1..]);
    } else {
      PhaseAboveGround(k);
    }
  }

  /** A jump from the ground lasts exactly 41 frames. */
  lemma JumpLasts41Frames(spaces: seq<bool>)
    requires |spaces| == AirFrames + 1 && spaces[0]
    ensures Run(Standing, spaces) == Standing
    ensures forall n :: 1 <= n <= AirFrames ==> Run(Standing, spaces[..n]).jumping
  {
    PhaseStep(0, true);
    assert Run(Standing, spaces) == Run(Phase(1), spaces[1..]);
    AlwaysLands(1, spaces[1..]);
    forall n | 1 <= n <= AirFrames
      ensures Run(Standing, spaces[..n]).jumping
    {
      assert spaces[..n][1..] == spaces[1..n];
      Airborne(1, spaces[1..n]);
    }
  }
}
