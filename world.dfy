/**
 * The module-level state of the walk-through page and the handlers that
 * update it in place: the wall list rebuilt by the room layout, the held
 * keys, the player, the camera preset and the flashlight.
 */
module Walkthrough {
  import opened Options
  import opened RoomLayout
  import opened Collision
  import opened Motion
  import opened Modes

  /** The grid the page lays out on load: 2 x 2 rooms of size 30. */
  const InitialGrid: Grid := Grid(2, 2, 30.0)

  class World {
    var walls: seq<Wall>
    var labels: seq<Label>
    var keys: Keys
    var x: real
    var y: real
    var z: real
    var rotation: real
    var vy: real
    var jumping: bool
    var cameraIdx: int
    var flashlightOn: bool
    var flashlightFocus: real
    /** How many frames into the current jump the player is (0 when standing). */
    ghost var phase: nat

    ghost predicate Valid()
      reads this
    {
      && 0 <= cameraIdx < |CameraPresets|
      && phase <= AirFrames
      && Vertical(y, vy, jumping) == Phase(phase)
    }

    function PlayerState(): Player
      reads this
    {
      Player(x, y, z, rotation, vy, jumping)
    }

    function Mode(): ModeState
      reads this
    {
      ModeState(cameraIdx, flashlightOn)
    }

    /** The page as loaded: the player at (-20, 0.5, -20) in a 2 x 2 grid of rooms of size 30. */
    constructor ()
      ensures Valid()
      ensures walls == LayoutWalls(InitialGrid) && labels == LayoutLabels(InitialGrid)
      ensures PlayerState() == Player(-20.0, GroundLevel, -20.0, 0.0, 0.0, false)
      ensures keys == map[] && cameraIdx == InitialCameraIdx && !flashlightOn && flashlightFocus == InitialFocus
      ensures !Collides(walls, x, z)
    {
      walls, labels, keys := [], [], map[];
      x, y, z := -20.0, GroundLevel, -20.0;
      rotation, vy, jumping, phase := 0.0, 0.0, false, 0;
      cameraIdx, flashlightOn, flashlightFocus := InitialCameraIdx, false, InitialFocus;
      new;
      assert Valid() by {
        assert Phase(0) == Standing;
      }
      var options := RoomsOptions(Some(2), Some(2), Some(30.0));
      assert ResolveOptions(options) == InitialGrid;
      CreateRooms(options);
      InitialPositionFree();
    }

    /** Adds one wall box to the wall list. */
    method CreateWall(wx: real, wy: real, wz: real, sx: real, sy: real, sz: real)
      modifies this`walls
      ensures walls == old(walls) + [Wall(wx, wy, wz, sx, sy, sz)]
    {
      walls := walls + [Wall(wx, wy, wz, sx, sy, sz)];
    }

    /** Adds one floor label. */
    method AddLabelToFloor(lx: real, lz: real, text: string)
      modifies this`labels
      ensures labels == old(labels) + [Label(lx, lz, text)]
    {
      labels := labels + [Label(lx, lz, text)];
    }

    /**
     * Replaces the wall and label lists by those of a fresh grid of rooms:
     * nothing of an earlier layout survives, and nothing else changes.
     */
    method CreateRooms(o: RoomsOptions)
      modifies this`walls, this`labels
      ensures walls == LayoutWalls(ResolveOptions(o))
      ensures labels == LayoutLabels(ResolveOptions(o))
    {
      var g := ResolveOptions(o);
      walls := [];
      labels := [];
      var row := 0;
      while row < g.rows
        invariant 0 <= row <= Rows(g)
        invariant walls == GridWalls(g, row)
        invariant labels == GridLabels(g, row)
      {
        BuildRow(g, row);
        row := row + 1;
      }
      assert row == Rows(g);
    }

    /** The column loop of one row: the rooms of row `row`, left to right. */
    method BuildRow(g: Grid, row: nat)
      modifies this`walls, this`labels
      ensures walls == old(walls) + RowWalls(g, row, Cols(g))
      ensures labels == old(labels) + RowLabels(g, row, Cols(g))
    {
      var col := 0;
      while col < g.cols
        invariant 0 <= col <= Cols(g)
        invariant walls == old(walls) + RowWalls(g, row, col)
        invariant labels == old(labels) + RowLabels(g, row, col)
      {
        BuildRoom(g, row, col);
        col := col + 1;
      }
      assert col == Cols(g);
    }

    /** One pass of the room loop: the four walls of room (row, col), then its label. */
    method BuildRoom(g: Grid, row: nat, col: nat)
      requires g.cols > 0
      modifies this`walls, this`labels
      ensures walls == old(walls) + RoomWalls(g, row, col)
      ensures labels == old(labels) + [RoomLabel(g, row, col)]
    {
      var roomX, roomZ := RoomCentre(g, row, col);
      var half := g.roomSize / 2.0;
      var height := WallHeight;
      CreateWall(roomX, height / 2.0, roomZ - half, g.roomSize, height, WallThickness);
      CreateWall(roomX, height / 2.0, roomZ + half, g.roomSize, height, WallThickness);
      CreateWall(roomX - half, height / 2.0, roomZ, WallThickness, height, g.roomSize);
      CreateWall(roomX + half, height / 2.0, roomZ, WallThickness, height, g.roomSize);
      AddLabelToFloor(roomX, roomZ, RoomName(row * g.cols + col + 1));
    }

    /** Centre of the room at (row, col), computed as the room loop does. */
    static method RoomCentre(g: Grid, row: int, col: int) returns (roomX: real, roomZ: real)
      ensures roomX == CentreX(g, col) && roomZ == CentreZ(g, row)
    {
      var startX := -(g.cols as real * g.roomSize) / 2.0 + g.roomSize / 2.0;
      var startZ := -(g.rows as real * g.roomSize) / 2.0 + g.roomSize / 2.0;
      roomX := startX + col as real * g.roomSize;
      roomZ := startZ + row as real * g.roomSize;
    }

    /** The linear scan over the walls: true as soon as one wall blocks (px, pz). */
    method CheckCollision(px: real, pz: real) returns (hit: bool)
      ensures hit == Collides(walls, px, pz)
    {
      var i := 0;
      while i < |walls|
        invariant 0 <= i <= |walls|
        invariant !Collides(walls[..i], px, pz)
      {
        var w := walls[i];
        var dx := Abs(px - w.x);
        var dz := Abs(pz - w.z);
        var combinedX := w.sx / 2.0 + PlayerRadius;
        var combinedZ := w.sz / 2.0 + PlayerRadius;
        if dx < combinedX && dz < combinedZ {
          assert Blocks(walls[i], px, pz);
          return true;
        }
        assert walls[..i + 1] == walls[..i] + [w];
        CollidesAppend(walls[..i], [w], px, pz);
        i := i + 1;
      }
      assert walls[..i] == walls;
      return false;
    }

    method KeyDown(key: string)
      requires Valid()
      modifies this`keys, this`flashlightOn, this`cameraIdx
      ensures Valid()
      ensures keys == old(keys)[key := true]
      ensures Mode() == OnKeyDown(old(Mode()), key)
    {
      keys := keys[key := true];
      LowerIsLetter(key, 'f');
      LowerIsLetter(key, 'c');
      if ToLower(key) == "f" {
        flashlightOn := !flashlightOn;
      }
      if ToLower(key) == "c" {
        ToggleCamera();
      }
    }

    method KeyUp(key: string)
      modifies this`keys
      ensures keys == old(keys)[key := false]
    {
      keys := keys[key := false];
    }

    method ToggleCamera()
      modifies this`cameraIdx
      ensures cameraIdx == NextCameraIdx(old(cameraIdx))
    {
      cameraIdx := NextCameraIdx(cameraIdx);
    }

    /** Turning by the arrow / A / D keys. */
    method TurnPlayer()
      modifies this`rotation
      ensures rotation == Turn(old(rotation), keys)
    {
      if LeftHeld(keys) {
        rotation := rotation - TurnSpeed;
      }
      if RightHeld(keys) {
        rotation := rotation + TurnSpeed;
      }
    }

    /** The position the forward / backward keys ask for. */
    method ProposeMove(sinR: real, cosR: real) returns (newX: real, newZ: real)
      ensures (newX, newZ) == Propose(x, z, sinR, cosR, keys)
    {
      var dx := sinR * Speed;
      var dz := cosR * Speed;
      newX := x;
      newZ := z;
      if ForwardHeld(keys) {
        newX := newX + dx;
        newZ := newZ - dz;
      }
      if BackHeld(keys) {
        newX := newX - dx;
        newZ := newZ + dz;
      }
    }

    /** Starts a jump when space is held, no jump is under way and the player is on the ground. */
    method MaybeStartJump()
      modifies this`jumping, this`vy
      ensures Vertical(y, vy, jumping) == StartJump(old(Vertical(y, vy, jumping)), JumpHeld(keys))
    {
      if JumpHeld(keys) && !jumping && IsOnGround(y) {
        jumping := true;
        vy := JumpSpeed;
      }
    }

    /** Commits x if (newX, z) is free, then z if (x, newZ) is free. */
    method MovePlayer(newX: real, newZ: real)
      modifies this`x, this`z
      ensures (x, z) == Resolve(walls, old(x), old(z), newX, newZ)
    {
      var blockedX := CheckCollision(newX, z);
      if !blockedX {
        x := newX;
      }
      var blockedZ := CheckCollision(x, newZ);
      if !blockedZ {
        z := newZ;
      }
    }

    /** Integrates an airborne jump and lands it on the ground. */
    method ApplyGravity()
      modifies this`y, this`vy, this`jumping
      ensures Vertical(y, vy, jumping) == Fall(old(Vertical(y, vy, jumping)))
    {
      if jumping {
        y := y + vy;
        vy := vy - Gravity;
        if y <= GroundLevel {
          y := GroundLevel;
          jumping := false;
          vy := 0.0;
        }
      }
    }

    /**
     * One animation frame, rendering left out.  `sinR` and `cosR` are the
     * sine and cosine of the heading after this frame's turn.  The player
     * takes the step of `Motion.Step`, the jump advances one phase, a free
     * position stays free, and the flashlight cone is clamped.
     */
    method Frame(sinR: real, cosR: real)
      requires Valid()
      modifies this`x, this`y, this`z, this`rotation, this`vy, this`jumping, this`phase, this`flashlightFocus
      ensures Valid()
      ensures PlayerState() == Step(walls, keys, old(PlayerState()), sinR, cosR)
      ensures phase == NextPhase(old(phase), JumpHeld(keys))
      ensures !old(Collides(walls, x, z)) ==> !Collides(walls, x, z)
      ensures flashlightFocus == ClampFocus(old(flashlightFocus))
    {
      ghost var p := PlayerState();
      PhaseStep(phase, JumpHeld(keys));
      TurnPlayer();
      var newX, newZ := ProposeMove(sinR, cosR);
      MaybeStartJump();
      MovePlayer(newX, newZ);
      ApplyGravity();
      phase := NextPhase(phase, JumpHeld(keys));
      flashlightFocus := ClampFocus(flashlightFocus);
      assert PlayerState() == Step(walls, keys, p, sinR, cosR);
    }
  }

  /** The starting position (-20, -20) is clear of every wall of the initial 2 x 2 layout of size 30. */
  lemma InitialPositionFree()
    ensures !Collides(LayoutWalls(InitialGrid), -20.0, -20.0)
  {
    var g := InitialGrid;
    forall k | 0 <= k <= Cols(g)
      ensures Abs(-20.0 - LineX(g, k)) >= Clearance
    {
      assert k == 0 || k == 1 || k == 2;
    }
    forall k | 0 <= k <= Rows(g)
      ensures Abs(-20.0 - LineZ(g, k)) >= Clearance
    {
      assert k == 0 || k == 1 || k == 2;
    }
    FreeAwayFromLines(g, -20.0, -20.0);
  }
}
