/**
 * The renderer object: the sampler counter, the palette table and the frame
 * of accumulated radiance, with the operations that update them in place.
 */
module Runner {
  import opened Vectors
  import opened Sampler
  import opened Tracing
  import opened ToneMap

  /** A ray whose origin and direction the tracer overwrites as it bounces. */
  class Ray {
    var origin: Vec3
    var direction: Vec3
  }

  /** A mutable vector used as a radiance accumulator. */
  class Vector {
    var value: Vec3

    constructor ()
      ensures value == Zero
    {
      value := Zero;
    }

    method Add(d: Vec3)
      modifies this
      ensures value == old(value).Plus(d)
    {
      value := value.Plus(d);
    }
  }

  /** One printed pixel: the glyph index and the palette color index. */
  datatype Cell = Cell(glyph: int, color: int)

  /** The values of channel `c` of the frame's first `y` rows and the first `x` pixels of row `y`, in scan order. */
  ghost function Scanned(px: array2<Vec3>, c: nat, y: nat, x: nat): seq<real>
    requires c < 3
    requires y <= px.Length0 && x <= px.Length1 && (x > 0 ==> y < px.Length0)
    reads px
    decreases y, x
  {
    if x == 0 then (if y == 0 then [] else Scanned(px, c, y - 1, px.Length1))
    else Scanned(px, c, y, x - 1) + [px[y, x - 1].Channel(c)]
  }

  /** Per-channel brightest value of the scanned part of the frame. */
  ghost function BrightestSoFar(px: array2<Vec3>, y: nat, x: nat): Vec3
    requires y <= px.Length0 && x <= px.Length1 && (x > 0 ==> y < px.Length0)
    reads px
  {
    Vec3(Brightest(Scanned(px, 0, y, x)), Brightest(Scanned(px, 1, y, x)), Brightest(Scanned(px, 2, y, x)))
  }

  /** Per-channel darkest value of the scanned part of the frame. */
  ghost function DarkestSoFar(px: array2<Vec3>, y: nat, x: nat): Vec3
    requires y <= px.Length0 && x <= px.Length1 && (x > 0 ==> y < px.Length0)
    reads px
  {
    Vec3(Darkest(Scanned(px, 0, y, x)), Darkest(Scanned(px, 1, y, x)), Darkest(Scanned(px, 2, y, x)))
  }

  /** Scanning one more pixel updates channel `c`'s bounds with that pixel's value. */
  lemma ScanStep(px: array2<Vec3>, c: nat, y: nat, x: nat)
    requires c < 3 && y < px.Length0 && x < px.Length1
    ensures Brightest(Scanned(px, c, y, x + 1)) == Max(px[y, x].Channel(c), Brightest(Scanned(px, c, y, x)))
    ensures Darkest(Scanned(px, c, y, x + 1))
         == var m := Min(px[y, x].Channel(c), Darkest(Scanned(px, c, y, x))); if m < 0.0 then 0.0 else m
  {
    var s, v := Scanned(px, c, y, x), px[y, x].Channel(c);
    assert (s + [v])[..|s|] == s;
  }

  /** Channel `c` of every pixel in the scanned part of the frame occurs among the scanned values. */
  lemma {:induction false} ScannedHolds(px: array2<Vec3>, c: nat, y: nat, x: nat, j: nat, i: nat)
    requires c < 3
    requires y <= px.Length0 && x <= px.Length1 && (x > 0 ==> y < px.Length0)
    requires i < px.Length1 && (j < y || (j == y && i < x))
    ensures px[j, i].Channel(c) in Scanned(px, c, y, x)
    decreases y, x
  {
    if x == 0 {
      ScannedHolds(px, c, y - 1, px.Length1, j, i);
    } else if j != y || i != x - 1 {
      ScannedHolds(px, c, y, x - 1, j, i);
    }
  }

  /** Channel `c` of the frame-wide bounds is the fold over that channel's scanned values. */
  lemma BoundsChannel(px: array2<Vec3>, c: nat)
    requires c < 3
    ensures BrightestSoFar(px, px.Length0, 0).Channel(c) == Brightest(Scanned(px, c, px.Length0, 0))
    ensures DarkestSoFar(px, px.Length0, 0).Channel(c) == Darkest(Scanned(px, c, px.Length0, 0))
  {
  }

  /**
   * The frame-wide bounds the tone mapper finds: per channel, no pixel
   * exceeds the brightest value, the darkest value is at most any pixel's
   * value clamped at 0, and 0 <= darkest <= brightest.
   */
  lemma FrameBounds(px: array2<Vec3>, c: nat, j: nat, i: nat)
    requires c < 3 && j < px.Length0 && i < px.Length1
    ensures px[j, i].Channel(c) <= BrightestSoFar(px, px.Length0, 0).Channel(c)
    ensures DarkestSoFar(px, px.Length0, 0).Channel(c) <= Max(0.0, px[j, i].Channel(c))
    ensures 0.0 <= DarkestSoFar(px, px.Length0, 0).Channel(c) <= BrightestSoFar(px, px.Length0, 0).Channel(c)
  {
    var s := Scanned(px, c, px.Length0, 0);
    ScannedHolds(px, c, px.Length0, 0, j, i);
    var k :| 0 <= k < |s| && s[k] == px[j, i].Channel(c);
    BrightestIsClampedMax(s);
    DarkestIsClampedMin(s);
    BoundsChannel(px, c);
    assert s[k] <= Brightest(s) && Darkest(s) <= Max(0.0, s[k]);
  }

  /** Every scanned value of channel `c` is that channel of some pixel of the frame. */
  lemma {:induction false} ScannedFrom(px: array2<Vec3>, c: nat, y: nat, x: nat, k: nat)
    requires c < 3
    requires y <= px.Length0 && x <= px.Length1 && (x > 0 ==> y < px.Length0)
    requires k < |Scanned(px, c, y, x)|
    ensures exists j, i :: 0 <= j < px.Length0 && 0 <= i < px.Length1 && Scanned(px, c, y, x)[k] == px[j, i].Channel(c)
    decreases y, x
  {
    if x == 0 {
      ScannedFrom(px, c, y - 1, px.Length1, k);
    } else {
      var s := Scanned(px, c, y, x - 1);
      if k < |s| {
        ScannedFrom(px, c, y, x - 1, k);
        assert Scanned(px, c, y, x)[k] == s[k];
      } else {
        assert Scanned(px, c, y, x)[k] == px[y, x - 1].Channel(c);
      }
    }
  }

  /**
   * The frame-wide bounds are reached: per channel, the brightest value is 0
   * or some pixel's value, and the darkest value is MaxDouble (an empty
   * frame) or some pixel's value clamped at 0.
   */
  lemma FrameBoundsReached(px: array2<Vec3>, c: nat)
    requires c < 3
    ensures BrightestSoFar(px, px.Length0, 0).Channel(c) == 0.0 ||
      exists j, i :: 0 <= j < px.Length0 && 0 <= i < px.Length1 &&
        BrightestSoFar(px, px.Length0, 0).Channel(c) == px[j, i].Channel(c)
    ensures DarkestSoFar(px, px.Length0, 0).Channel(c) == MaxDouble ||
      exists j, i :: 0 <= j < px.Length0 && 0 <= i < px.Length1 &&
        DarkestSoFar(px, px.Length0, 0).Channel(c) == Max(0.0, px[j, i].Channel(c))
  {
    var s := Scanned(px, c, px.Length0, 0);
    BrightestIsClampedMax(s);
    DarkestIsClampedMin(s);
    BoundsChannel(px, c);
    if Brightest(s) != 0.0 {
      var k :| 0 <= k < |s| && s[k] == Brightest(s);
      ScannedFrom(px, c, px.Length0, 0, k);
    }
    if Darkest(s) != MaxDouble {
      var k :| 0 <= k < |s| && Darkest(s) == Max(0.0, s[k]);
      ScannedFrom(px, c, px.Length0, 0, k);
    }
  }

  /** A pixel's printed cell: the glyph for its grayscale and the nearest palette color to its raw value. */
  ghost predicate Shaded(hdr: (real, real, real) -> real, p: Vec3, darkest: Vec3, brightest: Vec3,
                         palette: seq<Rgb>, cell: Cell)
  {
    && cell.glyph == GlyphIndex(Gray(hdr, p, darkest, brightest))
    && IsNearestColor(PaletteDistances(p, palette), cell.color)
  }

  /** Logarithmic grayscale of a pixel: the mean of the three mapped channels. */
  function Gray(hdr: (real, real, real) -> real, p: Vec3, darkest: Vec3, brightest: Vec3): real
  {
    (hdr(p.x, darkest.x, brightest.x) + hdr(p.y, darkest.y, brightest.y) + hdr(p.z, darkest.z, brightest.z)) / 3.0
  }

  class PathtracerRunner {
    const width: int := 500
    const height: int := 500
    /** Samples per pixel. */
    const spp: int := 1024

    /** The sampler index, shared by every base. */
    var HI: int
    /** The palette table. */
    const colors: array<Rgb>
    /** Accumulated radiance, indexed [row, column]. */
    const pixels: array2<Vec3>

    /**
     * The field initialisers, with every pixel set to a zero vector as the
     * setup routine does before rendering.
     */
    /** The table and the frame have the sizes the field initialisers give them. */
    ghost predicate Valid()
    {
      colors.Length == 9 && pixels.Length0 == height && pixels.Length1 == width
    }

    constructor ()
      ensures Valid()
      ensures HI == 1
      ensures fresh(colors) && colors.Length == 9 && forall c :: 0 <= c < 9 ==> colors[c] == Rgb(0, 0, 0)
      ensures fresh(pixels) && pixels.Length0 == height && pixels.Length1 == width
      ensures forall y, x :: 0 <= y < height && 0 <= x < width ==> pixels[y, x] == Zero
    {
      HI := 1;
      colors := new Rgb[9](_ => Rgb(0, 0, 0));
      pixels := new Vec3[height, width]((_, _) => Zero);
    }

    /**
     * Next sample in base `b`: the radical inverse of the current index,
     * which then advances by one whatever the base.
     */
    method Halton(b: int) returns (r: real)
      requires b >= 2
      modifies this
      ensures HI == old(HI) + 1
      ensures r == Sample(old(HI), b)
      ensures 0.0 <= r < 1.0 && (old(HI) >= 1 ==> 0.0 < r)
    {
      var f := 1.0;
      r := 0.0;
      var i := HI;
      while i > 0
        invariant HI == old(HI) && f > 0.0
        invariant r + f * Sample(i, b) == Sample(HI, b)
        decreases i
      {
        i, f, r := DigitStep(i, b, f, r);
      }
      RadicalInverseBounds(HI, b);
      HI := HI + 1;
    }

    /**
     * Traces `ray` through `scene` from bounce `depth`, adding the gathered
     * radiance to `clr`. The ghost result is the path followed: the ray, the
     * accumulator and the sampler index end up as that path determines.
     */
    method Trace(ray: Ray, scene: seq<Sphere>, depth: int, clr: Vector, ext: Externals)
      returns (ghost path: seq<Bounce>)
      modifies this, ray, clr
      decreases if depth < MaxDepth then MaxDepth - depth else 0, 3
      ensures Traced(scene, ext, depth, old(HI), old(ray.origin), old(ray.direction), path)
      ensures clr.value == old(clr.value).Plus(Radiance(path))
      ensures (ray.origin, ray.direction) == EndRay(old(ray.origin), old(ray.direction), path)
      ensures HI == old(HI) + 2 * DiffuseCount(path)
    {
      if depth >= MaxDepth {
        return [];
      }
      var ts := Distances(scene, ext, ray.origin, ray.direction);
      var id, mint := NearestHit(ts);
      if id == -1 {
        return [];
      }
      path := TraceHit(ray, scene, depth, clr, ext, id, mint);
    }

    /**
     * The part of `Trace` after the scan found sphere `id` at distance
     * `mint`: the ray moves to the hit point, the sphere's emission is added
     * to `clr`, and a scattering material sends the ray one level deeper.
     */
    method TraceHit(ray: Ray, scene: seq<Sphere>, depth: int, clr: Vector, ext: Externals, id: nat, mint: real)
      returns (ghost path: seq<Bounce>)
      requires depth < MaxDepth
      requires id == NearestIndex(Distances(scene, ext, ray.origin, ray.direction))
      requires mint == Distances(scene, ext, ray.origin, ray.direction)[id]
      modifies this, ray, clr
      decreases MaxDepth - depth, 2
      ensures Traced(scene, ext, depth, old(HI), old(ray.origin), old(ray.direction), path)
      ensures clr.value == old(clr.value).Plus(Radiance(path))
      ensures (ray.origin, ray.direction) == EndRay(old(ray.origin), old(ray.direction), path)
      ensures HI == old(HI) + 2 * DiffuseCount(path)
    {
      ghost var origin, dir, h, acc := ray.origin, ray.direction, HI, clr.value;
      var s := scene[id];
      var m := s.material;
      var hp := ray.origin.Plus(ray.direction.Times(mint));
      var n := ext.normal(s, hp);
      ray.origin := hp;
      clr.Add(m.color.Times(m.emission));
      ghost var out, rest := dir, [];
      if Scatters(m.kind) {
        var gathered;
        out, gathered, rest := Scatter(ray, scene, depth, n, m, ext);
        clr.Add(gathered);
      }
      ghost var b := Bounce(id, s, mint, hp, n, out);
      HitPath(scene, ext, depth, h, origin, dir, b, rest, acc, clr.value, (ray.origin, ray.direction), HI);
      path := [b] + rest;
    }

    /**
     * The scattering branches of `Trace`, from a hit with unit normal `n` on
     * a sphere of material `m`: the ray leaves in a new direction `dir` (a
     * diffuse bounce draws it from two sampler values), is traced one level
     * deeper, and what that gathers comes back weighted by the material.
     */
    method Scatter(ray: Ray, scene: seq<Sphere>, depth: int, n: Vec3, m: Material, ext: Externals)
      returns (dir: Vec3, gathered: Vec3, ghost rest: seq<Bounce>)
      requires depth < MaxDepth && Scatters(m.kind)
      modifies this, ray
      decreases MaxDepth - depth, 1
      ensures m.kind == Diffuse ==>
        dir == n.Plus(ext.hemisphere(Sample(old(HI), FirstBase), Sample(old(HI) + 1, SecondBase)))
      ensures Traced(scene, ext, depth + 1, old(HI) + (if m.kind == Diffuse then 2 else 0), old(ray.origin), dir, rest)
      ensures gathered == Scattered(m, n, dir, Radiance(rest))
      ensures (ray.origin, ray.direction) == EndRay(old(ray.origin), dir, rest)
      ensures HI == old(HI) + (if m.kind == Diffuse then 2 else 0) + 2 * DiffuseCount(rest)
    {
      if m.kind == Diffuse {
        ray.direction := DiffuseDirection(n, ext);
        dir := ray.direction;
        var cost := ray.direction.Dot(n);
        var inner;
        inner, rest := TraceDeeper(ray, scene, depth, ext);
        gathered := inner.Mul(m.color).Times(cost * DiffuseDamping);
      } else if m.kind == Specular {
        // mirror reflection with a roughness perturbation, renormalised: left opaque
        ray.direction := *;
        dir := ray.direction;
        var inner;
        inner, rest := TraceDeeper(ray, scene, depth, ext);
        gathered := inner;
      } else {
        // Schlick-weighted random choice of refraction or reflection: left opaque
        ray.direction := *;
        dir := ray.direction;
        var inner;
        inner, rest := TraceDeeper(ray, scene, depth, ext);
        gathered := inner.Times(RefractiveGain);
      }
    }

    /**
     * The outgoing direction of a diffuse bounce: the unit normal `n` plus a
     * hemisphere sample drawn from the next two sampler values, in bases 3
     * and 2.
     */
    method DiffuseDirection(n: Vec3, ext: Externals) returns (dir: Vec3)
      modifies this
      ensures HI == old(HI) + 2
      ensures dir == n.Plus(ext.hemisphere(Sample(old(HI), FirstBase), Sample(old(HI) + 1, SecondBase)))
    {
      var u1 := Halton(FirstBase);
      var u2 := Halton(SecondBase);
      dir := n.Plus(ext.hemisphere(u1, u2));
    }

    /**
     * The recursive step shared by the scattering branches: the ray, as the
     * branch left it, is traced one level deeper into a fresh accumulator,
     * whose final value is returned.
     */
    method TraceDeeper(ray: Ray, scene: seq<Sphere>, depth: int, ext: Externals)
      returns (inner: Vec3, ghost rest: seq<Bounce>)
      requires depth < MaxDepth
      modifies this, ray
      decreases MaxDepth - depth, 0
      ensures Traced(scene, ext, depth + 1, old(HI), old(ray.origin), old(ray.direction), rest)
      ensures inner == Radiance(rest)
      ensures (ray.origin, ray.direction) == EndRay(old(ray.origin), old(ray.direction), rest)
      ensures HI == old(HI) + 2 * DiffuseCount(rest)
    {
      var tmp := new Vector();
      rest := Trace(ray, scene, depth + 1, tmp, ext);
      ZeroPlus(Radiance(rest));
      inner := tmp.value;
    }

    /**
     * The first pass of the tone mapper: the frame-wide brightest and
     * darkest value of each channel, in one row-by-row scan.
     */
    method FindBounds() returns (brightest: Vec3, darkest: Vec3)
      ensures brightest == BrightestSoFar(pixels, pixels.Length0, 0)
      ensures darkest == DarkestSoFar(pixels, pixels.Length0, 0)
    {
      brightest := Zero;
      darkest := Vec3(MaxDouble, MaxDouble, MaxDouble);
      var y := 0;
      while y < pixels.Length0
        invariant 0 <= y <= pixels.Length0
        invariant brightest == BrightestSoFar(pixels, y, 0)
        invariant darkest == DarkestSoFar(pixels, y, 0)
      {
        var x := 0;
        while x < pixels.Length1
          invariant 0 <= x <= pixels.Length1
          invariant brightest == BrightestSoFar(pixels, y, x)
          invariant darkest == DarkestSoFar(pixels, y, x)
        {
          ScanStep(pixels, 0, y, x);
          ScanStep(pixels, 1, y, x);
          ScanStep(pixels, 2, y, x);
          var p := pixels[y, x];
          brightest := brightest.(x := Max(p.x, brightest.x));
          darkest := darkest.(x := Min(p.x, darkest.x));
          if darkest.x < 0.0 {
            darkest := darkest.(x := 0.0);
          }
          brightest := brightest.(y := Max(p.y, brightest.y));
          darkest := darkest.(y := Min(p.y, darkest.y));
          if darkest.y < 0.0 {
            darkest := darkest.(y := 0.0);
          }
          brightest := brightest.(z := Max(p.z, brightest.z));
          darkest := darkest.(z := Min(p.z, darkest.z));
          if darkest.z < 0.0 {
            darkest := darkest.(z := 0.0);
          }
          x := x + 1;
        }
        y := y + 1;
      }
    }

    /**
     * The tone mapper: after the bounds pass, each pixel becomes a cell
     * holding the glyph index of its logarithmic grayscale (the map `hdr`
     * applied per channel to value, darkest and brightest) and the index of
     * the palette color nearest to its raw value. Rows are in frame order.
     */
    method DrawPixels(hdr: (real, real, real) -> real) returns (rows: seq<seq<Cell>>)
      ensures |rows| == pixels.Length0
      ensures forall y :: 0 <= y < |rows| ==> |rows[y]| == pixels.Length1
      ensures forall y, x :: 0 <= y < pixels.Length0 && 0 <= x < pixels.Length1 ==>
        Shaded(hdr, pixels[y, x], DarkestSoFar(pixels, pixels.Length0, 0), BrightestSoFar(pixels, pixels.Length0, 0),
               colors[..], rows[y][x])
    {
      var brightest, darkest := FindBounds();
      rows := [];
      var y := 0;
      while y < pixels.Length0
        invariant 0 <= y <= pixels.Length0 && |rows| == y
        invariant forall j :: 0 <= j < y ==> |rows[j]| == pixels.Length1
        invariant forall j, i :: 0 <= j < y && 0 <= i < pixels.Length1 ==>
          Shaded(hdr, pixels[j, i], darkest, brightest, colors[..], rows[j][i])
      {
        var row: seq<Cell> := [];
        var x := 0;
        while x < pixels.Length1
          invariant 0 <= x <= pixels.Length1 && |row| == x
          invariant forall i :: 0 <= i < x ==> Shaded(hdr, pixels[y, i], darkest, brightest, colors[..], row[i])
        {
          var p := pixels[y, x];
          var hdrRed := hdr(p.x, darkest.x, brightest.x);
          var hdrGreen := hdr(p.y, darkest.y, brightest.y);
          var hdrBlue := hdr(p.z, darkest.z, brightest.z);
          var grayscale := (hdrRed + hdrGreen + hdrBlue) / 3.0;
          var glyph := GlyphIndex(grayscale);
          var colorIndex := NearestColor(p, colors[..]);
          row := row + [Cell(glyph, colorIndex)];
          x := x + 1;
        }
        rows := rows + [row];
        y := y + 1;
      }
    }

    /** Adds one sample's radiance, divided by the sample count, to a pixel. */
    method AddSample(y: int, x: int, c: Vec3)
      requires 0 <= y < pixels.Length0 && 0 <= x < pixels.Length1
      modifies pixels
      ensures pixels[y, x] == old(pixels[y, x]).Plus(c.Div(spp as real))
      ensures forall j, i :: 0 <= j < pixels.Length0 && 0 <= i < pixels.Length1 && (j != y || i != x) ==>
        pixels[j, i] == old(pixels[j, i])
    {
      pixels[y, x] := pixels[y, x].Plus(c.Div(spp as real));
    }

    /** Fills the palette table with the nine fixed colors. */
    method SetColors()
      requires Valid()
      modifies colors
      ensures colors[..] == Palette
    {
      colors[0] := Rgb(0, 0, 0);
      colors[1] := Rgb(240, 82, 79);
      colors[2] := Rgb(92, 150, 44);
      colors[3] := Rgb(166, 138, 13);
      colors[4] := Rgb(57, 147, 212);
      colors[5] := Rgb(167, 113, 191);
      colors[6] := Rgb(0, 163, 163);
      colors[7] := Rgb(128, 128, 128);
      colors[8] := Rgb(187, 187, 187);
    }
  }
}
