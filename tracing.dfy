/**
 * The control skeleton of the recursive path tracer: the depth cap, the
 * nearest-hit selection over the scene's spheres, the unconditional emission
 * term and the per-material weighting of the bounce that follows. The
 * geometry (ray-sphere intersection, surface normal) and the hemisphere
 * sample are supplied from outside as functions.
 */
module Tracing {
  import opened Vectors
  import opened Sampler

  /** Bounce cap: a trace at this depth or deeper contributes nothing. */
  const MaxDepth: int := 4

  /** Material kinds, as the material's integer type code. */
  const Diffuse: int := 1
  const Specular: int := 2
  const Refractive: int := 3

  /** Energy damping of the diffuse bounce and brightness gain of the refractive bounce. */
  const DiffuseDamping: real := 0.1
  const RefractiveGain: real := 1.15

  /** Sampler bases for the two hemisphere coordinates of a diffuse bounce. */
  const FirstBase: int := 3
  const SecondBase: int := 2

  datatype Material = Material(color: Vec3, emission: real, roughness: real, kind: int)

  datatype Sphere = Sphere(center: Vec3, radius: real, material: Material)

  /**
   * The collaborators the tracer calls but which are not modelled: the
   * sphere's intersection distance along a ray (origin, direction), its unit
   * surface normal at a point, and the hemisphere sample built from two
   * sampler values.
   */
  datatype Externals = Externals(
    intersect: (Sphere, Vec3, Vec3) -> real,
    normal: (Sphere, Vec3) -> Vec3,
    hemisphere: (real, real) -> Vec3)

  /** Does a material of this kind send the ray on to a deeper bounce? */
  predicate Scatters(kind: int) {
    kind == Diffuse || kind == Specular || kind == Refractive
  }

  /** Each sphere's intersection distance along the ray, in scene order. */
  function Distances(scene: seq<Sphere>, ext: Externals, origin: Vec3, dir: Vec3): seq<real>
  {
    seq(|scene|, o requires 0 <= o < |scene| => ext.intersect(scene[o], origin, dir))
  }

  /**
   * `id` is the nearest hit among distances `ts`: only distances t with
   * 0 < t < MaxDouble count as hits; -1 exactly when there is none;
   * otherwise the smallest hit, the earliest index among equal ones.
   */
  ghost predicate IsNearest(ts: seq<real>, id: int) {
    && -1 <= id < |ts|
    && (id == -1 <==> forall o :: 0 <= o < |ts| ==> !(0.0 < ts[o] < MaxDouble))
    && (id >= 0 ==>
          && 0.0 < ts[id] < MaxDouble
          && (forall o :: 0 <= o < |ts| && 0.0 < ts[o] ==> ts[id] <= ts[o])
          && (forall o :: 0 <= o < id && 0.0 < ts[o] ==> ts[id] < ts[o]))
  }

  /**
   * The tracer's scan over the spheres as a function: the index it holds
   * after seeing the first `k` distances of `ts`, replacing the running
   * minimum (MaxDouble at first) only on a strictly smaller positive
   * distance.
   */
  function NearestUpTo(ts: seq<real>, k: nat): (id: int)
    requires k <= |ts|
    ensures -1 <= id < k
    ensures id >= 0 ==> 0.0 < ts[id] < MaxDouble
  {
    if k == 0 then -1
    else
      var id := NearestUpTo(ts, k - 1);
      if 0.0 < ts[k - 1] && ts[k - 1] < (if id == -1 then MaxDouble else ts[id]) then k - 1 else id
  }

  /** The index the scan ends with. */
  function NearestIndex(ts: seq<real>): int
  {
    NearestUpTo(ts, |ts|)
  }

  /** The scan of a prefix finds the nearest hit among the first `k` distances. */
  lemma {:induction false} NearestUpToIsNearest(ts: seq<real>, k: nat)
    requires k <= |ts|
    ensures IsNearest(ts[..k], NearestUpTo(ts, k))
  {
    if k > 0 {
      NearestUpToIsNearest(ts, k - 1);
      assert forall o :: 0 <= o < k - 1 ==> ts[..k - 1][o] == ts[..k][o];
    }
  }

  /** The scan finds the nearest hit: the smallest hit distance, the earliest among equals, -1 on a miss. */
  lemma NearestIndexIsNearest(ts: seq<real>)
    ensures IsNearest(ts, NearestIndex(ts))
  {
    NearestUpToIsNearest(ts, |ts|);
    assert ts[..|ts|] == ts;
  }

  /**
   * The tracer's scan over the spheres: keeps the running minimum `mint`,
   * starting from MaxDouble, and replaces it only on a strictly smaller
   * positive distance.
   */
  method NearestHit(ts: seq<real>) returns (id: int, mint: real)
    ensures id == NearestIndex(ts)
    ensures id == -1 ==> mint == MaxDouble
    ensures id >= 0 ==> mint == ts[id]
  {
    id, mint := -1, MaxDouble;
    for o := 0 to |ts|
      invariant id == NearestUpTo(ts, o)
      invariant id == -1 ==> mint == MaxDouble
      invariant id >= 0 ==> mint == ts[id]
    {
      if 0.0 < ts[o] && ts[o] < mint {
        mint, id := ts[o], o;
      }
    }
  }

  /** The nearest hit is unique: `IsNearest` determines the index. */
  lemma NearestIsUnique(ts: seq<real>, a: int, b: int)
    requires IsNearest(ts, a) && IsNearest(ts, b)
    ensures a == b
  {
  }

  /**
   * One bounce of a traced path: the sphere hit (and its index), the
   * distance to it, the hit point, the unit normal there and the direction
   * the ray leaves in.
   */
  datatype Bounce = Bounce(id: nat, sphere: Sphere, t: real, point: Vec3, normal: Vec3, out: Vec3)

  /** Number of diffuse bounces on a path: each draws two sampler values. */
  function DiffuseCount(path: seq<Bounce>): nat
  {
    if path == [] then 0
    else (if path[0].sphere.material.kind == Diffuse then 1 else 0) + DiffuseCount(path[1..])
  }

  /**
   * `b` is the bounce a trace at `depth`, with sampler index `h`, makes on
   * the ray (origin, dir): below the depth cap, it hits the nearest sphere
   * at origin + dir * t, takes the sphere's unit normal there, and a diffuse
   * bounce leaves along normal + hemisphere(sample(h, 3), sample(h + 1, 2)).
   */
  ghost predicate FirstBounce(scene: seq<Sphere>, ext: Externals, depth: int, h: int,
                              origin: Vec3, dir: Vec3, b: Bounce)
  {
    var ts := Distances(scene, ext, origin, dir);
    && depth < MaxDepth
    && b.id == NearestIndex(ts)
    && b.sphere == scene[b.id]
    && b.t == ts[b.id]
    && b.point == origin.Plus(dir.Times(b.t))
    && b.normal == ext.normal(b.sphere, b.point)
    && (b.sphere.material.kind == Diffuse ==>
          b.out == b.normal.Plus(ext.hemisphere(Sample(h, FirstBase), Sample(h + 1, SecondBase))))
  }

  /** Sampler index after a bounce: a diffuse bounce draws two values. */
  function NextIndex(h: int, b: Bounce): int
  {
    if b.sphere.material.kind == Diffuse then h + 2 else h
  }

  /**
   * `path` is what a trace at `depth`, with sampler index `h`, does to a
   * ray (origin, dir) in `scene`: nothing at the depth cap or on a miss;
   * otherwise a first bounce as `FirstBounce` says, after which a
   * non-scattering material keeps the direction and ends the path, and a
   * scattering one continues one level deeper from the hit point.
   */
  ghost predicate TracedPath(scene: seq<Sphere>, ext: Externals, depth: int, h: int,
                             origin: Vec3, dir: Vec3, path: seq<Bounce>)
    decreases |path|
  {
    if depth >= MaxDepth then path == []
    else if path == [] then NearestIndex(Distances(scene, ext, origin, dir)) == -1
    else
      var b := path[0];
      && FirstBounce(scene, ext, depth, h, origin, dir, b)
      && (if Scatters(b.sphere.material.kind)
          then TracedPath(scene, ext, depth + 1, NextIndex(h, b), b.point, b.out, path[1..])
          else b.out == dir && path[1..] == [])
  }

  /**
   * `TracedPath` as the tracer's method contracts state it. Naming it
   * through this non-recursive predicate keeps the verifier from unfolding
   * the recursion at every call site.
   */
  ghost predicate Traced(scene: seq<Sphere>, ext: Externals, depth: int, h: int,
                         origin: Vec3, dir: Vec3, path: seq<Bounce>)
  {
    TracedPath(scene, ext, depth, h, origin, dir, path)
  }

  /** A first bounce followed by the path traced from where it leaves is a traced path. */
  lemma TracedPathCons(scene: seq<Sphere>, ext: Externals, depth: int, h: int,
                       origin: Vec3, dir: Vec3, b: Bounce, rest: seq<Bounce>)
    requires FirstBounce(scene, ext, depth, h, origin, dir, b)
    requires Scatters(b.sphere.material.kind) ==>
               TracedPath(scene, ext, depth + 1, NextIndex(h, b), b.point, b.out, rest)
    requires !Scatters(b.sphere.material.kind) ==> b.out == dir && rest == []
    ensures TracedPath(scene, ext, depth, h, origin, dir, [b] + rest)
  {
    assert ([b] + rest)[0] == b && ([b] + rest)[1..] == rest;
  }

  /** The ray (origin, direction) left behind after following `path` from (origin, dir). */
  function EndRay(origin: Vec3, dir: Vec3, path: seq<Bounce>): (Vec3, Vec3)
  {
    if path == [] then (origin, dir) else (path[|path| - 1].point, path[|path| - 1].out)
  }

  /**
   * What a bounce on material `m`, with unit normal `normal` and outgoing
   * direction `out`, adds on top of the material's emission, given the
   * radiance `inner` gathered by the deeper trace.
   */
  function Scattered(m: Material, normal: Vec3, out: Vec3, inner: Vec3): Vec3
  {
    if m.kind == Diffuse then inner.Mul(m.color).Times(out.Dot(normal) * DiffuseDamping)
    else if m.kind == Specular then inner
    else if m.kind == Refractive then inner.Times(RefractiveGain)
    else Zero
  }

  /** The bookkeeping functions of a path, taken apart at its first bounce. */
  lemma PathCons(origin: Vec3, dir: Vec3, b: Bounce, rest: seq<Bounce>)
    ensures Radiance([b] + rest)
         == b.sphere.material.color.Times(b.sphere.material.emission).Plus(Scattered(b.sphere.material, b.normal, b.out, Radiance(rest)))
    ensures DiffuseCount([b] + rest) == DiffuseCount(rest) + (if b.sphere.material.kind == Diffuse then 1 else 0)
    ensures EndRay(origin, dir, [b] + rest) == EndRay(b.point, b.out, rest)
  {
    assert ([b] + rest)[0] == b && ([b] + rest)[1..] == rest;
  }

  /**
   * The closing step of a trace that hit something: given the first bounce
   * `b` and, for a scattering material, the path `rest` traced from where it
   * leaves, the accumulator value `total` (started from `acc`), the ray `end`
   * and the sample index `hi` left behind are those of the path [b] + rest.
   */
  lemma HitPath(scene: seq<Sphere>, ext: Externals, depth: int, h: int, origin: Vec3, dir: Vec3,
                b: Bounce, rest: seq<Bounce>, acc: Vec3, total: Vec3, end: (Vec3, Vec3), hi: int)
    requires FirstBounce(scene, ext, depth, h, origin, dir, b)
    requires Scatters(b.sphere.material.kind) ==>
      && Traced(scene, ext, depth + 1, NextIndex(h, b), b.point, b.out, rest)
      && total == acc.Plus(b.sphere.material.color.Times(b.sphere.material.emission))
                     .Plus(Scattered(b.sphere.material, b.normal, b.out, Radiance(rest)))
      && end == EndRay(b.point, b.out, rest)
      && hi == NextIndex(h, b) + 2 * DiffuseCount(rest)
    requires !Scatters(b.sphere.material.kind) ==>
      && b.out == dir && rest == []
      && total == acc.Plus(b.sphere.material.color.Times(b.sphere.material.emission))
      && end == (b.point, dir)
      && hi == h
    ensures Traced(scene, ext, depth, h, origin, dir, [b] + rest)
    ensures total == acc.Plus(Radiance([b] + rest))
    ensures end == EndRay(origin, dir, [b] + rest)
    ensures hi == h + 2 * DiffuseCount([b] + rest)
  {
    var m := b.sphere.material;
    var emitted := m.color.Times(m.emission);
    ZeroPlus(emitted);
    PlusAssociative(acc, emitted, Scattered(m, b.normal, b.out, Radiance(rest)));
    TracedPathCons(scene, ext, depth, h, origin, dir, b, rest);
    PathCons(origin, dir, b, rest);
  }

  /**
   * Radiance gathered along a path: each bounce contributes its sphere's
   * color times its emission, plus the weighted radiance of the rest.
   */
  function Radiance(path: seq<Bounce>): Vec3
  {
    if path == [] then Zero
    else
      var m := path[0].sphere.material;
      m.color.Times(m.emission).Plus(Scattered(m, path[0].normal, path[0].out, Radiance(path[1..])))
  }

  /**
   * The recursion is at most MaxDepth - depth levels deep, and each
   * diffuse bounce on it is one of those levels.
   */
  lemma {:induction false} PathIsShort(scene: seq<Sphere>, ext: Externals, depth: int, h: int,
                                       origin: Vec3, dir: Vec3, path: seq<Bounce>)
    requires TracedPath(scene, ext, depth, h, origin, dir, path)
    ensures depth >= MaxDepth ==> path == []
    ensures depth < MaxDepth ==> |path| <= MaxDepth - depth
    ensures DiffuseCount(path) <= |path|
    decreases |path|
  {
    if path != [] {
      var b := path[0];
      var kind := b.sphere.material.kind;
      if Scatters(kind) {
        PathIsShort(scene, ext, depth + 1, NextIndex(h, b), b.point, b.out, path[1..]);
      }
    }
  }

  /** With no spheres nothing is hit, so no radiance is gathered, at any depth. */
  lemma EmptySceneIsBlack(ext: Externals, depth: int, h: int, origin: Vec3, dir: Vec3, path: seq<Bounce>)
    requires TracedPath([], ext, depth, h, origin, dir, path)
    ensures path == [] && Radiance(path) == Zero
  {
  }

  /** On a ray that hits no sphere the trace follows no bounce: it gathers nothing and leaves the ray and the sample index as they were. */
  lemma MissIsBlack(scene: seq<Sphere>, ext: Externals, depth: int, h: int, origin: Vec3, dir: Vec3, path: seq<Bounce>)
    requires Traced(scene, ext, depth, h, origin, dir, path)
    requires NearestIndex(Distances(scene, ext, origin, dir)) == -1
    ensures path == [] && Radiance(path) == Zero
    ensures EndRay(origin, dir, path) == (origin, dir) && DiffuseCount(path) == 0
  {
  }

  /** If no sphere on the path emits, the path gathers no radiance, whatever the materials' weights. */
  lemma {:induction false} NoEmissionIsBlack(path: seq<Bounce>)
    requires forall k :: 0 <= k < |path| ==> path[k].sphere.material.emission == 0.0
    ensures Radiance(path) == Zero
  {
    if path != [] {
      NoEmissionIsBlack(path[1..]);
    }
  }
}
