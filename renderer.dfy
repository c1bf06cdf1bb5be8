/**
 * The renderer of `src/renderer.rs`, with the fixed camera and the scene
 * type it defines: a scene that answers with the FIRST geometry, in
 * insertion order, whose test reports a hit in `0.0..5.0` (not the nearest
 * one), and a render pass that shades one pixel per camera ray, row by row,
 * and packs the pixels into RGBA8 bytes.
 */
module Renderer {
  import opened Wrappers
  import opened LinearAlgebra
  import opened Rays
  import opened Colors

  /** The fixed camera: a 1280 × 720 frame, looking down -z from the origin. */
  datatype Camera = Camera(
    aspectRatio: real,
    frameSize: (nat, nat),
    center: Vector3,
    pixelDeltaU: Vector3,
    pixelDeltaV: Vector3,
    pixel0Loc: Vector3,
    viewportSize: (real, real))

  /** `Camera::new` of this file. */
  function NewCamera(): (c: Camera)
    ensures c.frameSize == (1280, 720) && c.center == Zero
    ensures c.aspectRatio == 16.0 / 9.0 && c.viewportSize == (32.0 / 9.0, 2.0)
    ensures c.pixelDeltaU == Vector3(1.0 / 360.0, 0.0, 0.0) && c.pixelDeltaV == Vector3(0.0, -1.0 / 360.0, 0.0)
    ensures c.pixel0Loc == Vector3(-16.0 / 9.0 + 1.0 / 720.0, 1.0 - 1.0 / 720.0, -1.0)
  {
    var aspectRatio := 16.0 / 9.0;
    var frameWidth := 1280;
    var frameHeight := 720;
    var center := Zero;
    var viewportSize := (2.0 * aspectRatio, 2.0);
    var pixelSize := 2.0 / frameHeight as real;
    var viewportTopLeft := Add(Add(center, Vector3(0.0, 0.0, -1.0)), Vector3(-viewportSize.0 / 2.0, viewportSize.1 / 2.0, 0.0));
    var pixelDeltaU := Vector3(pixelSize, 0.0, 0.0);
    var pixelDeltaV := Vector3(0.0, -pixelSize, 0.0);
    var pixel0Loc := Add(viewportTopLeft, Scale(0.5, Add(pixelDeltaU, pixelDeltaV)));
    assert pixel0Loc.x == -16.0 / 9.0 + 1.0 / 720.0;
    assert pixel0Loc.y == 1.0 - 1.0 / 720.0;
    assert pixel0Loc.z == -1.0;
    Camera(aspectRatio, (frameWidth, frameHeight), center, pixelDeltaU, pixelDeltaV, pixel0Loc, viewportSize)
  }

  /** The centre of pixel (u, v) on the near plane. */
  function PixelCentre(c: Camera, u: nat, v: nat): Vector3 {
    Add(Add(c.pixel0Loc, Scale(u as real, c.pixelDeltaU)), Scale(v as real, c.pixelDeltaV))
  }

  /** `Camera::get_ray_at` of this file: no jitter, the ray through the pixel's centre. */
  function CameraRayAt(c: Camera, u: nat, v: nat, invLength: ReciprocalLength): (r: Ray)
    ensures r.origin == c.center
    ensures r.direction == Normalize(Sub(PixelCentre(c, u, v), c.center), invLength)
  {
    var dir := Sub(Add(Add(c.pixel0Loc, Scale(u as real, c.pixelDeltaU)), Scale(v as real, c.pixelDeltaV)), c.center);
    Ray(c.center, Normalize(dir, invLength))
  }

  /**
   * With the grid `NewCamera` sets up, pixel (u, v) is seen through the
   * point (-16/9 + (2u+1)/720, 1 - (2v+1)/720, -1): the 1280 × 720 pixel
   * centres tile the near plane z = -1 symmetrically about the -z axis.
   */
  lemma FixedGridPixelCentre(c: Camera, u: nat, v: nat)
    requires c.pixel0Loc == Vector3(-16.0 / 9.0 + 1.0 / 720.0, 1.0 - 1.0 / 720.0, -1.0)
    requires c.pixelDeltaU == Vector3(1.0 / 360.0, 0.0, 0.0) && c.pixelDeltaV == Vector3(0.0, -1.0 / 360.0, 0.0)
    requires u < 1280 && v < 720
    ensures PixelCentre(c, u, v) == Vector3(-16.0 / 9.0 + (2 * u + 1) as real / 720.0, 1.0 - (2 * v + 1) as real / 720.0, -1.0)
    ensures PixelCentre(c, u, v).x == -PixelCentre(c, 1279 - u, 719 - v).x
    ensures PixelCentre(c, u, v).y == -PixelCentre(c, 1279 - u, 719 - v).y
  {
    var p, q := PixelCentre(c, u, v), PixelCentre(c, 1279 - u, 719 - v);
    assert (2 * (1279 - u) + 1) as real == 2559.0 - 2.0 * u as real;
    assert (2 * (719 - v) + 1) as real == 1439.0 - 2.0 * v as real;
  }

  /** The range every geometry is tested over. */
  const CastInterval := Interval(0.0, Finite(5.0))

  /** The answer of this file's `Scene::ray_cast`: the first geometry whose test succeeds. */
  function FirstHit(gs: seq<Geometry>, ray: Ray, hit: HitTest): Option<HitRecord> {
    if |gs| == 0 then None
    else match hit(gs[0], ray, CastInterval)
      case Some(r) => Some(r)
      case None => FirstHit(gs[1..], ray, hit)
  }

  /** Geometry `k` reports `rec`, and no earlier geometry reports anything. */
  ghost predicate FirstAt(gs: seq<Geometry>, ray: Ray, hit: HitTest, k: int, rec: HitRecord) {
    && 0 <= k < |gs|
    && hit(gs[k], ray, CastInterval) == Some(rec)
    && forall j :: 0 <= j < k ==> hit(gs[j], ray, CastInterval).None?
  }

  /** `None` exactly when no geometry is hit; otherwise the hit of the first geometry hit. */
  lemma {:induction false} FirstHitCharacterised(gs: seq<Geometry>, ray: Ray, hit: HitTest)
    ensures FirstHit(gs, ray, hit).None? <==> forall k :: 0 <= k < |gs| ==> hit(gs[k], ray, CastInterval).None?
    ensures FirstHit(gs, ray, hit).Some? ==> exists k :: FirstAt(gs, ray, hit, k, FirstHit(gs, ray, hit).value)
  {
    if |gs| > 0 && hit(gs[0], ray, CastInterval).None? {
      var tail := gs[1..];
      FirstHitCharacterised(tail, ray, hit);
      var r := FirstHit(tail, ray, hit);
      if r.Some? {
        var k :| FirstAt(tail, ray, hit, k, r.value);
        assert FirstAt(gs, ray, hit, k + 1, r.value) by {
          forall j | 0 <= j < k + 1
            ensures hit(gs[j], ray, CastInterval).None?
          {
            if j > 0 {
              assert gs[j] == tail[j - 1];
            }
          }
        }
      } else {
        forall j | 0 <= j < |gs|
          ensures hit(gs[j], ray, CastInterval).None?
        {
          if j > 0 {
            assert gs[j] == tail[j - 1];
          }
        }
      }
    } else if |gs| > 0 {
      assert FirstAt(gs, ray, hit, 0, FirstHit(gs, ray, hit).value);
    }
  }

  /**
   * Geometries after the first one hit are never consulted; if none of
   * `gs` is hit, the answer is that of what follows.
   */
  lemma {:induction false} FirstHitAppend(gs: seq<Geometry>, rest: seq<Geometry>, ray: Ray, hit: HitTest)
    ensures FirstHit(gs + rest, ray, hit) == if FirstHit(gs, ray, hit).Some? then FirstHit(gs, ray, hit) else FirstHit(rest, ray, hit)
  {
    if |gs| == 0 {
      assert gs + rest == rest;
    } else {
      assert (gs + rest)[0] == gs[0];
      assert (gs + rest)[1..] == gs[1..] + rest;
      FirstHitAppend(gs[1..], rest, ray, hit);
    }
  }

  /** Of two geometries that are both hit, the one added first wins, however far away it is. */
  lemma FirstHitIgnoresDistance(a: Geometry, b: Geometry, ray: Ray, hit: HitTest)
    requires hit(a, ray, CastInterval).Some? && hit(b, ray, CastInterval).Some?
    ensures FirstHit([a, b], ray, hit) == hit(a, ray, CastInterval)
    ensures FirstHit([b, a], ray, hit) == hit(b, ray, CastInterval)
  {
  }

  /** A test that honours its range only lets hits with 0 <= t < 5 through. */
  lemma FirstHitWithinRange(gs: seq<Geometry>, ray: Ray, hit: HitTest)
    requires RespectsInterval(hit)
    ensures FirstHit(gs, ray, hit).Some? ==> 0.0 <= FirstHit(gs, ray, hit).value.t < 5.0
  {
    FirstHitCharacterised(gs, ray, hit);
    if FirstHit(gs, ray, hit).Some? {
      var k :| FirstAt(gs, ray, hit, k, FirstHit(gs, ray, hit).value);
      assert hit(gs[k], ray, CastInterval).Some?;
    }
  }

  class Scene {
    var geometries: seq<Geometry>

    /** `Scene::new`: no geometry yet. */
    constructor ()
      ensures geometries == []
    {
      geometries := [];
    }

    /** `Scene::add`: appends one geometry, keeping the earlier ones in place. */
    method Add(g: Geometry)
      modifies this
      ensures geometries == old(geometries) + [g]
    {
      geometries := geometries + [g];
    }

    /** `Scene::ray_cast`: scans in insertion order and returns at the first hit. */
    method RayCast(ray: Ray, hit: HitTest) returns (r: Option<HitRecord>)
      ensures r == FirstHit(geometries, ray, hit)
      ensures r.None? <==> forall k :: 0 <= k < |geometries| ==> hit(geometries[k], ray, CastInterval).None?
      ensures r.Some? ==> exists k :: FirstAt(geometries, ray, hit, k, r.value)
    {
      FirstHitCharacterised(geometries, ray, hit);
      var i := 0;
      while i < |geometries|
        invariant 0 <= i <= |geometries|
        invariant FirstHit(geometries, ray, hit) == FirstHit(geometries[i..], ray, hit)
      {
        var res := hit(geometries[i], ray, CastInterval);
        if res.Some? {
          return res;
        }
        assert geometries[i..][1..] == geometries[i + 1..];
        i := i + 1;
      }
      return None;
    }
  }

  /** The colour of one pixel: white on a miss, the normal mapped from [-1, 1] to [0, 1] on a hit. */
  function Shade(d: Option<HitRecord>): (c: Color)
    ensures c.a == 1.0
    ensures d.None? ==> c == Color(1.0, 1.0, 1.0, 1.0)
    ensures d.Some? ==> var n := d.value.normal;
      2.0 * c.r - 1.0 == n.x && 2.0 * c.g - 1.0 == n.y && 2.0 * c.b - 1.0 == n.z
  {
    if d.Some? then
      var r := d.value;
      Color(r.normal.x * 0.5 + 0.5, r.normal.y * 0.5 + 0.5, r.normal.z * 0.5 + 0.5, 1.0)
    else
      Color(1.0, 1.0, 1.0, 1.0)
  }

  /** A normal with components in [-1, 1] (a unit normal, say) shades to a colour in [0, 1]. */
  lemma ShadeInRange(d: Option<HitRecord>)
    requires d.Some? ==> var n := d.value.normal; -1.0 <= n.x <= 1.0 && -1.0 <= n.y <= 1.0 && -1.0 <= n.z <= 1.0
    ensures var c := Shade(d); 0.0 <= c.r <= 1.0 && 0.0 <= c.g <= 1.0 && 0.0 <= c.b <= 1.0
  {
  }

  /** The colour of pixel (i, j). */
  function PixelColor(c: Camera, gs: seq<Geometry>, hit: HitTest, invLength: ReciprocalLength, i: nat, j: nat): Color {
    Shade(FirstHit(gs, CameraRayAt(c, i, j, invLength), hit))
  }

  /** Row `j`'s first `n` pixels. */
  function Row(shade: (nat, nat) -> Color, j: nat, n: nat): (row: seq<Color>)
    ensures |row| == n
  {
    seq(n, i requires 0 <= i < n => shade(i, j))
  }

  /** Rows `0 .. n-1` of width `w`, one after the other. */
  function Rows(shade: (nat, nat) -> Color, w: nat, n: nat): seq<Color> {
    if n == 0 then [] else Rows(shade, w, n - 1) + Row(shade, n - 1, w)
  }

  /** Row-major index of pixel (i, j) in a `w` × `h` frame. */
  function PixelIndex(i: nat, j: nat, w: nat, h: nat): (k: nat)
    requires i < w && j < h
    ensures k < w * h
  {
    RowMajorBound(i, j, w, h);
    j * w + i
  }

  lemma RowMajorBound(i: nat, j: nat, w: nat, h: nat)
    requires i < w && j < h
    ensures j * w + i < w * h
  {
    var m: nat := h - 1 - j;
    calc {
      w * h;
      == { assert h == j + 1 + m; }
      w * (j + 1 + m);
      == 
      w * j + w + w * m;
    }
    assert w * m >= 0;
  }

  /** A frame of `n` rows of width `w` holds `n * w` pixels. */
  lemma {:induction false} RowsLength(shade: (nat, nat) -> Color, w: nat, n: nat)
    ensures |Rows(shade, w, n)| == n * w
  {
    if n > 0 {
      RowsLength(shade, w, n - 1);
      assert (n - 1) * w + w == n * w;
    }
  }

  /** Row-major order: pixel (i, j) sits at index `j * w + i`. */
  lemma {:induction false} RowsAt(shade: (nat, nat) -> Color, w: nat, n: nat, i: nat, j: nat)
    requires i < w && j < n
    ensures j * w + i < |Rows(shade, w, n)| && Rows(shade, w, n)[j * w + i] == shade(i, j)
  {
    RowsLength(shade, w, n);
    RowsLength(shade, w, n - 1);
    if j < n - 1 {
      RowsAt(shade, w, n - 1, i, j);
    } else {
      assert j * w + i == |Rows(shade, w, n - 1)| + i;
    }
  }

  class Renderer {
    const camera: Camera
    const scene: Scene

    /** `Renderer::new`: keeps the camera and the scene it is given. */
    constructor (camera: Camera, scene: Scene)
      ensures this.camera == camera && this.scene == scene
    {
      this.camera := camera;
      this.scene := scene;
    }

    /**
     * `Renderer::render`, up to the image encoding: the frame's pixels,
     * row by row, each shaded from the ray through it, and the RGBA8 bytes
     * of those pixels.
     */
    method Render(hit: HitTest, invLength: ReciprocalLength, encode: Rgba8Encoder) returns (pixels: seq<Color>, buffer: seq<byte>)
      ensures |pixels| == camera.frameSize.0 * camera.frameSize.1
      ensures forall i: nat, j: nat :: i < camera.frameSize.0 && j < camera.frameSize.1 ==>
        pixels[PixelIndex(i, j, camera.frameSize.0, camera.frameSize.1)] == PixelColor(camera, scene.geometries, hit, invLength, i, j)
      ensures |buffer| == 4 * |pixels|
      ensures forall k :: 0 <= k < |pixels| ==> buffer[4 * k .. 4 * k + 4] == Bytes(encode(pixels[k]))
      ensures buffer == Flatten(pixels, encode)
    {
      var w, h := camera.frameSize.0, camera.frameSize.1;
      var gs := scene.geometries;
      ghost var shade := (i: nat, j: nat) => PixelColor(camera, gs, hit, invLength, i, j);
      pixels := [];
      for j := 0 to h
        invariant pixels == Rows(shade, w, j)
      {
        for i := 0 to w
          invariant pixels == Rows(shade, w, j) + Row(shade, j, i)
        {
          var ray := CameraRayAt(camera, i, j, invLength);
          var d := scene.RayCast(ray, hit);
          var color := Shade(d);
          assert Row(shade, j, i) + [color] == Row(shade, j, i + 1);
          pixels := pixels + [color];
        }
      }
      RowsLength(shade, w, h);
      forall i: nat, j: nat | i < w && j < h
        ensures pixels[PixelIndex(i, j, w, h)] == PixelColor(camera, gs, hit, invLength, i, j)
      {
        RowsAt(shade, w, h, i, j);
      }

      buffer := [];
      for k := 0 to |pixels|
        invariant buffer == Flatten(pixels[..k], encode)
      {
        assert pixels[..k + 1] == pixels[..k] + [pixels[k]];
        FlattenAppend(pixels[..k], pixels[k], encode);
        buffer := buffer + Bytes(encode(pixels[k]));
      }
      assert pixels[..|pixels|] == pixels;
      FlattenLength(pixels, encode);
      forall k | 0 <= k < |pixels|
        ensures buffer[4 * k .. 4 * k + 4] == Bytes(encode(pixels[k]))
      {
        FlattenAt(pixels, encode, k);
      }
    }
  }
}
