/** Lite.Graphics.Camera: a perspective camera looking down the z axis at
    the world plane, whose zoom is a scale clamped to [1, 64] and whose
    distance z follows from the scale. */
module Cameras {
  import opened Primitives
  import opened Xna
  import opened Screens

  const MinScale: real := 1.0
  const MaxScale: real := 64.0
  const MinZ: real := 1.0
  const MaxZ: real := 4096.0

  /** The Scale setter clamps into [MinScale, MaxScale]. */
  function ClampScale(value: real): (r: real)
    ensures MinScale <= r <= MaxScale
    ensures MinScale <= value <= MaxScale ==> r == value
  {
    Clamp(value, MinScale, MaxScale)
  }

  /** The distance at which a perspective camera with this field of view sees
      exactly the given height. */
  function ZFromHeight(height: real, fieldOfView: real): real
    requires Tan(fieldOfView * 0.5) != 0.0
  {
    (height * 0.5) / Tan(fieldOfView * 0.5)
  }

  /** The height a camera at distance z sees: 2 z tan(fieldOfView / 2). */
  function HeightFromZ(z: real, fieldOfView: real): real {
    z * Tan(fieldOfView * 0.5) * 2.0
  }

  /** ZFromHeight and HeightFromZ are inverse to each other. */
  lemma HeightAndZAreInverse(height: real, z: real, fieldOfView: real)
    requires Tan(fieldOfView * 0.5) != 0.0
    ensures HeightFromZ(ZFromHeight(height, fieldOfView), fieldOfView) == height
    ensures ZFromHeight(HeightFromZ(z, fieldOfView), fieldOfView) == z
  {
    var t := Tan(fieldOfView * 0.5);
    QuotientTimes(height * 0.5, t);
    assert HeightFromZ(z, fieldOfView) * 0.5 == z * t;
    HalfProductQuotient(z, t);
  }

  lemma HalfProductQuotient(z: real, t: real)
    requires t != 0.0
    ensures (z * t) / t == z
  {
  }

  /** Scaling the distance by 1 / scale scales the visible height the same way. */
  lemma ScaledDistanceScalesHeight(baseZ: real, scale: real, height: real, fieldOfView: real)
    requires Tan(fieldOfView * 0.5) != 0.0 && scale != 0.0
    requires baseZ == ZFromHeight(height, fieldOfView)
    ensures HeightFromZ(baseZ / scale, fieldOfView) == height / scale
  {
    var t := Tan(fieldOfView * 0.5);
    HeightAndZAreInverse(height, 0.0, fieldOfView);
    assert HeightFromZ(baseZ / scale, fieldOfView) == (baseZ * t * 2.0) / scale;
  }

  class Camera {
    const screen: Screen
    var z: real
    /** Set only by the constructor. */
    const baseZ: real
    var position: Vector2
    var rotation: real
    var scale: real
    const fieldOfView: real
    const aspectRatio: real

    /** The scale lies in [MinScale, MaxScale], the rotation strictly within
        one turn either way, the base distance is the one at which the whole
        screen height is visible, and the aspect ratio is the screen's. */
    ghost predicate Valid()
      reads this
    {
      MinScale <= scale <= MaxScale &&
      -TwoPi < rotation < TwoPi &&
      screen.height != 0 &&
      Tan(fieldOfView * 0.5) != 0.0 &&
      baseZ == ZFromHeight(screen.height as real, fieldOfView) &&
      aspectRatio == Aspect(screen.width, screen.height)
    }

    /** The view and projection matrices the constructor also sets are not
        part of this model. */
    constructor (screen: Screen)
      requires screen.height != 0 && Tan(PiOver2 * 0.5) != 0.0
      ensures Valid()
      ensures this.screen == screen && position == Vector2(0.0, 0.0) && rotation == 0.0 && scale == 1.0
      ensures fieldOfView == PiOver2 && z == baseZ
      ensures GetVisibleHeight() == screen.height as real
    {
      this.screen := screen;
      this.position := Vector2(0.0, 0.0);
      this.rotation := 0.0;
      this.scale := 1.0;
      this.fieldOfView := PiOver2;
      this.aspectRatio := screen.width as real / screen.height as real;
      this.baseZ := ZFromHeight(screen.height as real, PiOver2);
      this.z := ZFromHeight(screen.height as real, PiOver2);
      new;
      HeightAndZAreInverse(screen.height as real, 0.0, fieldOfView);
    }

    function GetZFromHeight(height: real): real
      requires Tan(fieldOfView * 0.5) != 0.0
    {
      ZFromHeight(height, fieldOfView)
    }

    function GetHeightFromZ(z: real): real {
      HeightFromZ(z, fieldOfView)
    }

    /** The height of the world plane the camera sees from its distance z. */
    function GetVisibleHeight(): real
      reads this
    {
      HeightFromZ(z, fieldOfView)
    }

    /** The private Scale setter. */
    method StoreScale(value: real)
      modifies this`scale
      ensures scale == ClampScale(value)
    {
      scale := Clamp(value, MinScale, MaxScale);
    }

    /** The private Rotation setter: the angle modulo one turn, with C#'s float remainder. */
    method StoreRotation(value: real)
      modifies this`rotation
      ensures rotation == FloatRem(value, TwoPi)
      ensures -TwoPi < rotation < TwoPi
    {
      rotation := FloatRem(value, TwoPi);
      FloatRemBounds(value, TwoPi);
    }

    /** SetZ ignores a distance outside [MinZ, MaxZ] and stores any other. */
    method SetZ(value: real)
      modifies this`z
      ensures if value < MinZ || value > MaxZ then z == old(z) else z == value
    {
      if value < MinZ || value > MaxZ {
        return;
      }
      z := value;
    }

    method Move(amount: Vector2)
      modifies this`position
      ensures position == Vector2(old(position).x + amount.x, old(position).y + amount.y)
    {
      position := Vector2(position.x + amount.x, position.y + amount.y);
    }

    method MoveTo(position: Vector2)
      modifies this`position
      ensures this.position == position
    {
      this.position := position;
    }

    method SetRotation(value: real)
      requires Valid()
      modifies this`rotation
      ensures Valid() && rotation == FloatRem(value, TwoPi)
    {
      StoreRotation(value);
    }

    method AddRotation(value: real)
      requires Valid()
      modifies this`rotation
      ensures Valid() && rotation == FloatRem(old(rotation) + value, TwoPi)
    {
      StoreRotation(rotation + value);
    }

    /** After a scale change the distance is baseZ / scale, so the camera sees
        the screen height divided by the scale. */
    method SetScale(value: real)
      requires Valid()
      modifies this`scale, this`z
      ensures Valid() && scale == ClampScale(value)
      ensures z == baseZ / scale && GetVisibleHeight() == screen.height as real / scale
    {
      StoreScale(value);
      z := baseZ * (1.0 / scale);
      ScaledDistanceScalesHeight(baseZ, scale, screen.height as real, fieldOfView);
    }

    method IncScale()
      requires Valid()
      modifies this`scale, this`z
      ensures Valid() && scale == ClampScale(old(scale) + 1.0)
      ensures z == baseZ / scale && GetVisibleHeight() == screen.height as real / scale
    {
      StoreScale(scale + 1.0);
      z := baseZ * (1.0 / scale);
      ScaledDistanceScalesHeight(baseZ, scale, screen.height as real, fieldOfView);
    }

    method DecScale()
      requires Valid()
      modifies this`scale, this`z
      ensures Valid() && scale == ClampScale(old(scale) - 1.0)
      ensures z == baseZ / scale && GetVisibleHeight() == screen.height as real / scale
    {
      StoreScale(scale - 1.0);
      z := baseZ * (1.0 / scale);
      ScaledDistanceScalesHeight(baseZ, scale, screen.height as real, fieldOfView);
    }

    /** The visible width and height: the width keeps the screen's aspect
        ratio, and at the distance a scale sets, the camera sees the screen
        size divided by the scale. */
    method GetExtents() returns (width: real, height: real)
      requires Valid()
      ensures height == GetVisibleHeight() && width == height * aspectRatio
      ensures z == baseZ / scale ==>
        height == screen.height as real / scale && width == screen.width as real / scale
    {
      height := GetVisibleHeight();
      width := height * aspectRatio;
      if z == baseZ / scale {
        ScaledDistanceScalesHeight(baseZ, scale, screen.height as real, fieldOfView);
        ScaledAspect(screen.width as real, screen.height as real, scale);
      }
    }

    /** The visible rectangle as edges around the camera position. */
    method GetEdges() returns (top: real, left: real, right: real, bottom: real)
      requires Valid()
      ensures right - left == GetVisibleHeight() * aspectRatio && bottom - top == GetVisibleHeight()
      ensures left + right == 2.0 * position.x && top + bottom == 2.0 * position.y
    {
      var width, height := GetExtents();
      left := position.x - width * 0.5;
      right := left + width;
      top := position.y - height * 0.5;
      bottom := top + height;
    }

    /** The visible rectangle as two corners: min holds the left and bottom
        edges, max the right and top edges. */
    method GetCorners() returns (min: Vector2, max: Vector2)
      requires Valid()
      ensures max.x - min.x == GetVisibleHeight() * aspectRatio && min.y - max.y == GetVisibleHeight()
      ensures min.x + max.x == 2.0 * position.x && min.y + max.y == 2.0 * position.y
    {
      var top, left, right, bottom := GetEdges();
      min := Vector2(left, bottom);
      max := Vector2(right, top);
    }
  }

  /** (h / s) * (w / h) == w / s. */
  lemma ScaledAspect(w: real, h: real, s: real)
    requires h != 0.0 && s != 0.0
    ensures (h / s) * (w / h) == w / s
  {
  }
}
