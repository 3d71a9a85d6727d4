/**
 * The player sprite: a 32x32 rectangle that moves by a fixed speed in the
 * direction of the held keys and is kept inside the 800x600 window.
 */
module Players {
  import opened Geometry
  import opened Input

  const ScreenWidth: int := 800
  const ScreenHeight: int := 600

  datatype Direction = FacingUp | FacingDown | FacingLeft | FacingRight

  datatype Velocity = Velocity(x: int, y: int)

  predicate LeftHeld(keys: set<Key>) { ArrowLeft in keys || LetterA in keys }
  predicate RightHeld(keys: set<Key>) { ArrowRight in keys || LetterD in keys }
  predicate UpHeld(keys: set<Key>) { ArrowUp in keys || LetterW in keys }
  predicate DownHeld(keys: set<Key>) { ArrowDown in keys || LetterS in keys }

  function Sign(v: int): int
  {
    if v > 0 then 1 else if v < 0 then -1 else 0
  }

  /**
   * The velocity the four key checks leave, before normalisation: each
   * check assigns its component, so on each axis the later check wins.
   */
  function RawVelocity(keys: set<Key>, speed: int): Velocity
  {
    Velocity(
      if RightHeld(keys) then speed else if LeftHeld(keys) then -speed else 0,
      if DownHeld(keys) then speed else if UpHeld(keys) then -speed else 0)
  }

  /**
   * The whole-pixel shift of one frame for a non-zero velocity: along one
   * axis `velocity.normalize() * speed` is exact. A diagonal vector becomes
   * about `speed / sqrt 2` per axis, a fraction that pygame drops when it
   * stores the moved position; how many pixels that leaves depends on the
   * direction (and on the position), so the diagonal shift is the caller's
   * `diagonalShift`.
   */
  function Normalise(v: Velocity, speed: int, diagonalShift: Velocity): Velocity
  {
    if v == Velocity(0, 0) then v
    else if v.x != 0 && v.y != 0 then diagonalShift
    else Velocity(Sign(v.x) * speed, Sign(v.y) * speed)
  }

  /** The facing direction the four key checks leave; later checks override earlier ones. */
  function Facing(keys: set<Key>, was: Direction): Direction
  {
    if DownHeld(keys) then FacingDown
    else if UpHeld(keys) then FacingUp
    else if RightHeld(keys) then FacingRight
    else if LeftHeld(keys) then FacingLeft
    else was
  }

  /**
   * The four clamps of `update`, applied in order: left edge, right edge,
   * top edge, bottom edge. A rectangle that fits in the window ends inside
   * it, with its size kept and its position moved as little as possible.
   */
  function ClampToScreen(r: Rect): (c: Rect)
    ensures c.w == r.w && c.h == r.h
    ensures r.w <= ScreenWidth ==> 0 <= c.Left() && c.Right() <= ScreenWidth
    ensures r.h <= ScreenHeight ==> 0 <= c.Top() && c.Bottom() <= ScreenHeight
    ensures 0 <= r.Left() && r.Right() <= ScreenWidth ==> c.x == r.x
    ensures 0 <= r.Top() && r.Bottom() <= ScreenHeight ==> c.y == r.y
  {
    var r1 := if r.Left() < 0 then r.(x := 0) else r;
    var r2 := if r1.Right() > ScreenWidth then r1.(x := ScreenWidth - r1.w) else r1;
    var r3 := if r2.Top() < 0 then r2.(y := 0) else r2;
    if r3.Bottom() > ScreenHeight then r3.(y := ScreenHeight - r3.h) else r3
  }

  class Player {
    var rect: Rect
    var velocity: Velocity
    var speed: int
    var direction: Direction

    /** A 32x32 square centred at (x, y), at rest, speed 5, facing down. */
    constructor (x: int, y: int)
      ensures rect.w == 32 && rect.h == 32
      ensures rect.x + rect.w / 2 == x && rect.y + rect.h / 2 == y
      ensures velocity == Velocity(0, 0) && speed == 5 && direction == FacingDown
    {
      rect := Rect(x - 32 / 2, y - 32 / 2, 32, 32);
      velocity := Velocity(0, 0);
      speed := 5;
      direction := FacingDown;
    }

    /** One frame of movement for the keys held in `keys`. */
    method Update(keys: set<Key>, diagonalShift: Velocity)
      modifies this
      ensures speed == old(speed)
      ensures direction == Facing(keys, old(direction))
      ensures velocity == Normalise(RawVelocity(keys, speed), speed, diagonalShift)
      ensures rect == ClampToScreen(old(rect).Translate(velocity.x, velocity.y))
    {
      var v := Velocity(0, 0);
      var d := direction;

      if LeftHeld(keys) {
        v := v.(x := -speed);
        d := FacingLeft;
      }
      if RightHeld(keys) {
        v := v.(x := speed);
        d := FacingRight;
      }
      if UpHeld(keys) {
        v := v.(y := -speed);
        d := FacingUp;
      }
      if DownHeld(keys) {
        v := v.(y := speed);
        d := FacingDown;
      }
      assert v == RawVelocity(keys, speed);
      assert d == Facing(keys, old(direction));

      if v != Velocity(0, 0) {
        v := Normalise(v, speed, diagonalShift);
      }

      var r := rect.Translate(v.x, v.y);
      ghost var moved := r;
      if r.Left() < 0 {
        r := r.(x := 0);
      }
      if r.Right() > ScreenWidth {
        r := r.(x := ScreenWidth - r.w);
      }
      if r.Top() < 0 {
        r := r.(y := 0);
      }
      if r.Bottom() > ScreenHeight {
        r := r.(y := ScreenHeight - r.h);
      }
      assert r == ClampToScreen(moved);

      velocity, direction, rect := v, d, r;
    }
  }

  /** Vertical keys decide the facing, down over up; otherwise right over left; otherwise it is kept. */
  lemma FacingRules(keys: set<Key>, was: Direction)
    ensures (UpHeld(keys) || DownHeld(keys)) ==> Facing(keys, was) in {FacingUp, FacingDown}
    ensures DownHeld(keys) ==> Facing(keys, was) == FacingDown
    ensures UpHeld(keys) && !DownHeld(keys) ==> Facing(keys, was) == FacingUp
    ensures !UpHeld(keys) && !DownHeld(keys) && RightHeld(keys) ==> Facing(keys, was) == FacingRight
    ensures !UpHeld(keys) && !DownHeld(keys) && !RightHeld(keys) && LeftHeld(keys) ==> Facing(keys, was) == FacingLeft
    ensures !UpHeld(keys) && !DownHeld(keys) && !LeftHeld(keys) && !RightHeld(keys) ==> Facing(keys, was) == was
  {
  }

  /**
   * With left and right both held the right check, coming later, wins: the
   * horizontal velocity is +speed whatever else is held, and with no
   * vertical key the frame's shift is exactly (speed, 0).
   */
  lemma BothHorizontalMovesRight(keys: set<Key>, speed: int, diagonalShift: Velocity)
    requires LeftHeld(keys) && RightHeld(keys)
    ensures RawVelocity(keys, speed).x == speed
    ensures speed > 0 && !UpHeld(keys) && !DownHeld(keys) ==>
      Normalise(RawVelocity(keys, speed), speed, diagonalShift) == Velocity(speed, 0)
  {
  }

  /** Without a movement key the velocity is zero, so only the clamp can move the rectangle. */
  lemma NoKeyNoMove(keys: set<Key>, speed: int, diagonalShift: Velocity, r: Rect)
    requires !LeftHeld(keys) && !RightHeld(keys) && !UpHeld(keys) && !DownHeld(keys)
    ensures Normalise(RawVelocity(keys, speed), speed, diagonalShift) == Velocity(0, 0)
    ensures var v := Normalise(RawVelocity(keys, speed), speed, diagonalShift);
      ClampToScreen(r.Translate(v.x, v.y)) == ClampToScreen(r)
  {
  }

  /** A move along one axis shifts the player exactly `speed` pixels in the held direction. */
  lemma StraightMoveIsSpeed(keys: set<Key>, speed: int, diagonalShift: Velocity)
    requires speed > 0
    ensures RightHeld(keys) && !UpHeld(keys) && !DownHeld(keys) ==>
      Normalise(RawVelocity(keys, speed), speed, diagonalShift) == Velocity(speed, 0)
    ensures LeftHeld(keys) && !RightHeld(keys) && !UpHeld(keys) && !DownHeld(keys) ==>
      Normalise(RawVelocity(keys, speed), speed, diagonalShift) == Velocity(-speed, 0)
    ensures DownHeld(keys) && !LeftHeld(keys) && !RightHeld(keys) ==>
      Normalise(RawVelocity(keys, speed), speed, diagonalShift) == Velocity(0, speed)
    ensures UpHeld(keys) && !DownHeld(keys) && !LeftHeld(keys) && !RightHeld(keys) ==>
      Normalise(RawVelocity(keys, speed), speed, diagonalShift) == Velocity(0, -speed)
  {
  }

  /** A player rectangle of any size that fits the window stays inside it after a frame. */
  lemma UpdateStaysOnScreen(r: Rect, v: Velocity)
    requires r.w <= ScreenWidth && r.h <= ScreenHeight
    ensures var c := ClampToScreen(r.Translate(v.x, v.y));
      && 0 <= c.Left() && c.Right() <= ScreenWidth
      && 0 <= c.Top() && c.Bottom() <= ScreenHeight
      && c.w == r.w && c.h == r.h
  {
  }
}
