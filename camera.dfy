/**
 * The camera of `src/camera.rs`: a position and a near-plane pixel grid
 * (the centre of pixel (0, 0) and the steps to the next pixel along a row
 * and down a column). `move_to` translates the grid; `look_at` rebuilds it
 * for a new view direction at the current position.
 */
module Camera {
  import opened LinearAlgebra
  import opened Rays

  /** Height of the near plane, one unit in front of the camera. */
  const ViewportHeight3D: real := 2.0

  const WorldUp := Vector3(0.0, 1.0, 0.0)

  /** The initial view direction. */
  const Forward := Vector3(0.0, 0.0, -1.0)

  /** The four results of `calc_near_plane_values`. */
  datatype NearPlane = NearPlane(pixel0Loc: Vector3, pixelDeltaU: Vector3, pixelDeltaV: Vector3, viewportSize: (real, real))

  /** The near plane for view direction `dir` once `left` has been normalised. */
  function PlaneFrom(center: Vector3, dir: Vector3, left: Vector3, aspectRatio: real, frameSize: (nat, nat)): NearPlane
    requires frameSize.1 > 0
  {
    var up := Cross(dir, left);
    var viewportSize := (ViewportHeight3D * aspectRatio, ViewportHeight3D);
    var pixelSize := 2.0 / frameSize.1 as real;
    var topLeft := Add(Add(Add(center, dir), Scale(viewportSize.0 / 2.0, left)), Scale(viewportSize.1 / 2.0, up));
    var deltaU := Scale(pixelSize, Neg(left));
    var deltaV := Scale(pixelSize, Neg(up));
    NearPlane(Add(topLeft, Scale(0.5, Add(deltaU, deltaV))), deltaU, deltaV, viewportSize)
  }

  /** The point of the grid at fractional pixel coordinates (x, y). */
  function GridPoint(np: NearPlane, x: real, y: real): Vector3 {
    Add(Add(np.pixel0Loc, Scale(x, np.pixelDeltaU)), Scale(y, np.pixelDeltaV))
  }

  /** Moving the camera moves the anchor by the same amount and leaves the steps alone. */
  lemma PlaneFromTranslates(center: Vector3, offset: Vector3, dir: Vector3, left: Vector3, aspectRatio: real, frameSize: (nat, nat))
    requires frameSize.1 > 0
    ensures var a, b := PlaneFrom(center, dir, left, aspectRatio, frameSize), PlaneFrom(Add(center, offset), dir, left, aspectRatio, frameSize);
      b.pixel0Loc == Add(a.pixel0Loc, offset) && b.pixelDeltaU == a.pixelDeltaU && b.pixelDeltaV == a.pixelDeltaV && b.viewportSize == a.viewportSize
  {
  }

  /**
   * When the aspect ratio is width / height, the middle of the pixel grid
   * is the point one unit along the view direction, whatever `left` is.
   */
  lemma PlaneFromCentred(center: Vector3, dir: Vector3, left: Vector3, frameSize: (nat, nat))
    requires frameSize.1 > 0
    ensures var w, h := frameSize.0 as real, frameSize.1 as real;
      GridPoint(PlaneFrom(center, dir, left, w / h, frameSize), (w - 1.0) / 2.0, (h - 1.0) / 2.0) == Add(center, dir)
  {
    var w, h := frameSize.0 as real, frameSize.1 as real;
    var up := Cross(dir, left);
    var ps := 2.0 / h;
    var aspect := w / h;
    var np := PlaneFrom(center, dir, left, aspect, frameSize);
    // The anchor and the steps, written per unit vector: the coefficients of `left` and `up` cancel.
    var cl := ViewportHeight3D * aspect / 2.0 - 0.5 * ps - (w - 1.0) / 2.0 * ps;
    var cu := ViewportHeight3D / 2.0 - 0.5 * ps - (h - 1.0) / 2.0 * ps;
    assert cl == 0.0 by {
      assert ps * h == 2.0;
      assert aspect * h == w;
      assert cl * h == w - 0.5 * 2.0 - (w - 1.0) / 2.0 * 2.0;
    }
    assert cu == 0.0 by {
      assert ps * h == 2.0;
    }
    var g := GridPoint(np, (w - 1.0) / 2.0, (h - 1.0) / 2.0);
    assert g.x == center.x + dir.x + cl * left.x + cu * up.x;
    assert g.y == center.y + dir.y + cl * left.y + cu * up.y;
    assert g.z == center.z + dir.z + cl * left.z + cu * up.z;
  }

  /**
   * Both pixel steps are orthogonal to the view direction and to each other,
   * provided `left` is a multiple of `WorldUp × dir` (as `normalize` makes it).
   */
  lemma PlaneFromOrthogonal(center: Vector3, dir: Vector3, k: real, aspectRatio: real, frameSize: (nat, nat))
    requires frameSize.1 > 0
    ensures var np := PlaneFrom(center, dir, Scale(k, Cross(WorldUp, dir)), aspectRatio, frameSize);
      Dot(np.pixelDeltaU, dir) == 0.0 && Dot(np.pixelDeltaV, dir) == 0.0 && Dot(np.pixelDeltaU, np.pixelDeltaV) == 0.0
  {
    var left := Scale(k, Cross(WorldUp, dir));
    var up := Cross(dir, left);
    var ps := 2.0 / frameSize.1 as real;
    var np := PlaneFrom(center, dir, left, aspectRatio, frameSize);
    CrossOrthogonal(WorldUp, dir);
    DotScale(k, Cross(WorldUp, dir), dir);
    assert Dot(left, dir) == 0.0;
    CrossOrthogonal(dir, left);
    DotScale(-ps, left, dir);
    assert np.pixelDeltaU == Scale(-ps, left);
    assert np.pixelDeltaV == Scale(-ps, up);
    DotScale(-ps, up, dir);
    DotScale(-ps, left, Scale(-ps, up));
    DotScale(-ps, left, up);
    assert Dot(left, up) == 0.0;
  }

  /**
   * `Camera::calc_near_plane_values`: the near plane one unit along
   * `viewDir`, `2·aspect` wide and 2 high, sampled by `frameSize` pixels.
   */
  function CalcNearPlaneValues(center: Vector3, viewDir: Vector3, aspectRatio: real, frameSize: (nat, nat), invLength: ReciprocalLength): (np: NearPlane)
    requires frameSize.1 > 0
    ensures np.viewportSize == (2.0 * aspectRatio, 2.0)
    ensures var left := Normalize(Cross(WorldUp, viewDir), invLength);
      && np.pixelDeltaU == Scale(2.0 / frameSize.1 as real, Neg(left))
      && np.pixelDeltaV == Scale(2.0 / frameSize.1 as real, Neg(Cross(viewDir, left)))
      && np.pixel0Loc == Add(Add(Add(Add(center, viewDir), Scale(aspectRatio, left)), Cross(viewDir, left)), Scale(0.5, Add(np.pixelDeltaU, np.pixelDeltaV)))
    ensures Dot(np.pixelDeltaU, viewDir) == 0.0 && Dot(np.pixelDeltaV, viewDir) == 0.0 && Dot(np.pixelDeltaU, np.pixelDeltaV) == 0.0
    ensures aspectRatio == frameSize.0 as real / frameSize.1 as real ==>
      GridPoint(np, (frameSize.0 as real - 1.0) / 2.0, (frameSize.1 as real - 1.0) / 2.0) == Add(center, viewDir)
  {
    var left := Normalize(Cross(WorldUp, viewDir), invLength);
    PlaneFromOrthogonal(center, viewDir, invLength(Cross(WorldUp, viewDir)), aspectRatio, frameSize);
    PlaneFromCentred(center, viewDir, left, frameSize);
    PlaneFrom(center, viewDir, left, aspectRatio, frameSize)
  }

  /**
   * A view direction along the world's up axis leaves no left vector:
   * over the reals the near plane degenerates to a grid with zero steps,
   * all of whose points are `center + viewDir`.
   */
  lemma VerticalViewCollapses(center: Vector3, k: real, aspectRatio: real, frameSize: (nat, nat), invLength: ReciprocalLength)
    requires frameSize.1 > 0
    ensures var np := CalcNearPlaneValues(center, Scale(k, WorldUp), aspectRatio, frameSize, invLength);
      np.pixelDeltaU == Zero && np.pixelDeltaV == Zero && np.pixel0Loc == Add(center, Scale(k, WorldUp))
  {
    var dir := Scale(k, WorldUp);
    assert Cross(WorldUp, dir) == Zero;
    var left := Normalize(Cross(WorldUp, dir), invLength);
    assert left == Zero;
    assert Cross(dir, left) == Zero;
    var np := PlaneFrom(center, dir, left, aspectRatio, frameSize);
    assert np == CalcNearPlaneValues(center, dir, aspectRatio, frameSize, invLength);
    assert np.pixelDeltaU == Zero && np.pixelDeltaV == Zero;
  }

  class Camera {
    const aspectRatio: real
    const frameSize: (nat, nat)
    var position: Vector3
    var pixelDeltaU: Vector3
    var pixelDeltaV: Vector3
    var pixel0Loc: Vector3
    /** Size of the near plane. */
    const viewportSize: (real, real)

    /** The direction the grid was last built for, and its normalised left vector. */
    ghost var viewDir: Vector3
    ghost var left: Vector3
    ghost var leftScale: real

    /** The grid fields are the near plane for `viewDir` at the current position. */
    ghost predicate Valid()
      reads this
    {
      && frameSize.1 > 0
      && aspectRatio == frameSize.0 as real / frameSize.1 as real
      && viewportSize == (ViewportHeight3D * aspectRatio, ViewportHeight3D)
      && left == Scale(leftScale, Cross(WorldUp, viewDir))
      && Grid() == PlaneFrom(position, viewDir, left, aspectRatio, frameSize)
    }

    function Grid(): NearPlane
      reads this
    {
      NearPlane(pixel0Loc, pixelDeltaU, pixelDeltaV, viewportSize)
    }

    /** `Camera::new`: at the origin, looking down -z, with a `width` × `height` frame. */
    constructor (width: nat, height: nat, invLength: ReciprocalLength)
      requires height > 0
      ensures Valid()
      ensures position == Zero && frameSize == (width, height) && viewDir == Forward
      ensures aspectRatio == width as real / height as real
      ensures viewportSize == (2.0 * aspectRatio, 2.0)
      ensures Grid() == CalcNearPlaneValues(Zero, Forward, aspectRatio, frameSize, invLength)
    {
      var aspect := width as real / height as real;
      var np := CalcNearPlaneValues(Zero, Forward, aspect, (width, height), invLength);
      aspectRatio := aspect;
      frameSize := (width, height);
      position := Zero;
      pixel0Loc := np.pixel0Loc;
      pixelDeltaU := np.pixelDeltaU;
      pixelDeltaV := np.pixelDeltaV;
      viewportSize := np.viewportSize;
      viewDir := Forward;
      leftScale := invLength(Cross(WorldUp, Forward));
      left := Normalize(Cross(WorldUp, Forward), invLength);
    }

    /** `Camera::move_to`: shifts the grid by the displacement; orientation is kept. */
    method MoveTo(pos: Vector3)
      requires Valid()
      modifies this`pixel0Loc, this`position
      ensures Valid()
      ensures position == pos
      ensures pixel0Loc == Add(old(pixel0Loc), Sub(pos, old(position)))
      ensures pixelDeltaU == old(pixelDeltaU) && pixelDeltaV == old(pixelDeltaV)
      ensures viewDir == old(viewDir)
    {
      PlaneFromTranslates(position, Sub(pos, position), viewDir, left, aspectRatio, frameSize);
      assert Add(position, Sub(pos, position)) == pos;
      pixel0Loc := Add(pixel0Loc, Sub(pos, position));
      position := pos;
    }

    /** `Camera::look_at`: rebuilds the grid at the current position for the direction to `target`. */
    method LookAt(target: Vector3, invLength: ReciprocalLength)
      requires Valid()
      modifies this`pixel0Loc, this`pixelDeltaU, this`pixelDeltaV, this`viewDir, this`left, this`leftScale
      ensures Valid()
      ensures position == old(position)
      ensures viewDir == Normalize(Sub(target, position), invLength)
      ensures Grid() == CalcNearPlaneValues(position, viewDir, aspectRatio, frameSize, invLength)
    {
      var dir := Normalize(Sub(target, position), invLength);
      var np := CalcNearPlaneValues(position, dir, aspectRatio, frameSize, invLength);
      pixel0Loc := np.pixel0Loc;
      pixelDeltaU := np.pixelDeltaU;
      pixelDeltaV := np.pixelDeltaV;
      viewDir := dir;
      leftScale := invLength(Cross(WorldUp, dir));
      left := Normalize(Cross(WorldUp, dir), invLength);
    }

    /**
     * `Camera::get_ray_at`: the ray from the camera through pixel (u, v),
     * jittered by `drawX - 0.5` and `drawY - 0.5`, where the draws are the
     * two random numbers in [0, 1).
     */
    function GetRayAt(u: nat, v: nat, drawX: real, drawY: real, invLength: ReciprocalLength): (r: Ray)
      reads this
      ensures r.origin == position
      ensures var d := Sub(GridPoint(Grid(), u as real + (drawX - 0.5), v as real + (drawY - 0.5)), position);
        r.direction == Scale(invLength(d), d)
    {
      var randX := drawX - 0.5;
      var randY := drawY - 0.5;
      var dir := Sub(Add(Add(pixel0Loc, Scale(u as real + randX, pixelDeltaU)), Scale(v as real + randY, pixelDeltaV)), position);
      Ray(position, Normalize(dir, invLength))
    }

    /** `Camera::frame_size`: the size given at construction, which nothing changes. */
    function FrameSize(): (size: (nat, nat))
      ensures size == frameSize
    {
      frameSize
    }

    /**
     * For a consistent camera, the ray through the middle of the frame
     * (before normalisation) points exactly along the view direction, and
     * both pixel steps are orthogonal to it.
     */
    lemma CentreRayFollowsView()
      requires Valid()
      ensures Sub(GridPoint(Grid(), (frameSize.0 as real - 1.0) / 2.0, (frameSize.1 as real - 1.0) / 2.0), position) == viewDir
      ensures Dot(pixelDeltaU, viewDir) == 0.0 && Dot(pixelDeltaV, viewDir) == 0.0
    {
      PlaneFromCentred(position, viewDir, left, frameSize);
      PlaneFromOrthogonal(position, viewDir, leftScale, aspectRatio, frameSize);
    }
  }

  /** A camera moved and then turned: the ray through the frame's middle runs from the new position toward the target. */
  method MoveThenLook(camera: Camera, pos: Vector3, target: Vector3, invLength: ReciprocalLength) returns (centre: Vector3)
    requires camera.Valid()
    modifies camera
    ensures camera.Valid() && camera.position == pos
    ensures centre == Add(pos, Normalize(Sub(target, pos), invLength))
  {
    camera.MoveTo(pos);
    camera.LookAt(target, invLength);
    camera.CentreRayFollowsView();
    centre := GridPoint(camera.Grid(), (camera.frameSize.0 as real - 1.0) / 2.0, (camera.frameSize.1 as real - 1.0) / 2.0);
    assert centre == Add(pos, Sub(centre, pos));
  }
}
