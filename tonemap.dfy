/**
 * The bookkeeping of the tone mapper: the frame-wide brightest and darkest
 * value of a channel, the index into the glyph ramp chosen from a grayscale
 * value, and the nearest of the nine palette colors.
 */
module ToneMap {
  import opened Vectors

  /**
   * Running maximum of a channel, in scan order, starting from 0:
   * each value v updates the bound to max(v, bound).
   */
  function Brightest(s: seq<real>): real
  {
    if s == [] then 0.0 else Max(s[|s| - 1], Brightest(s[..|s| - 1]))
  }

  /**
   * Running minimum of a channel, in scan order, starting from MaxDouble:
   * each value v updates the bound to min(v, bound), then a negative bound
   * is reset to 0.
   */
  function Darkest(s: seq<real>): real
  {
    if s == [] then MaxDouble
    else
      var m := Min(s[|s| - 1], Darkest(s[..|s| - 1]));
      if m < 0.0 then 0.0 else m
  }

  /**
   * The brightest value is max(0, largest value): it is non-negative, no
   * value exceeds it, and unless it is 0 some value equals it.
   */
  lemma {:induction false} BrightestIsClampedMax(s: seq<real>)
    ensures 0.0 <= Brightest(s)
    ensures forall i :: 0 <= i < |s| ==> s[i] <= Brightest(s)
    ensures Brightest(s) == 0.0 || exists i :: 0 <= i < |s| && s[i] == Brightest(s)
  {
    if s != [] {
      var init := s[..|s| - 1];
      BrightestIsClampedMax(init);
      assert forall i :: 0 <= i < |init| ==> s[i] == init[i];
      if Brightest(s) != 0.0 && Brightest(s) != s[|s| - 1] {
        var i :| 0 <= i < |init| && init[i] == Brightest(init);
        assert s[i] == Brightest(s);
      }
    }
  }

  /**
   * The darkest value is max(0, min(MaxDouble, smallest value)): it lies in
   * [0, MaxDouble], is at most max(0, v) for every value v, and equals
   * max(0, v) for some value v unless it is still MaxDouble.
   */
  lemma {:induction false} DarkestIsClampedMin(s: seq<real>)
    ensures 0.0 <= Darkest(s) <= MaxDouble
    ensures forall i :: 0 <= i < |s| ==> Darkest(s) <= Max(0.0, s[i])
    ensures Darkest(s) == MaxDouble || exists i :: 0 <= i < |s| && Darkest(s) == Max(0.0, s[i])
  {
    if s != [] {
      var init := s[..|s| - 1];
      DarkestIsClampedMin(init);
      assert forall i :: 0 <= i < |init| ==> s[i] == init[i];
      var last := |s| - 1;
      if Darkest(s) != MaxDouble && Darkest(s) != Max(0.0, s[last]) {
        assert Darkest(s) == Darkest(init);
        var i :| 0 <= i < |init| && Darkest(init) == Max(0.0, init[i]);
        assert Darkest(s) == Max(0.0, s[i]);
      }
    }
  }

  /** For a non-empty frame the bounds are ordered: 0 <= darkest <= brightest. */
  lemma DarkestBelowBrightest(s: seq<real>)
    requires |s| > 0
    ensures 0.0 <= Darkest(s) <= Brightest(s)
  {
    BrightestIsClampedMax(s);
    DarkestIsClampedMin(s);
    assert Darkest(s) <= Max(0.0, s[0]);
  }

  /**
   * A frame whose channel is the same value v everywhere, with
   * v <= MaxDouble, has brightest == darkest == max(0, v).
   */
  lemma {:induction false} UniformFrameBounds(s: seq<real>, v: real)
    requires |s| > 0 && v <= MaxDouble
    requires forall i :: 0 <= i < |s| ==> s[i] == v
    ensures Brightest(s) == Max(0.0, v) && Darkest(s) == Max(0.0, v)
  {
    if |s| > 1 {
      UniformFrameBounds(s[..|s| - 1], v);
    } else {
      assert s[..0] == [];
    }
  }

  /**
   * The bounds of a non-empty channel whose values are at most MaxDouble
   * coincide, the case in which the logarithmic map divides zero by zero,
   * exactly when every value is at most 0 or all values are equal.
   */
  lemma BoundsMeet(s: seq<real>)
    requires |s| > 0
    requires forall i :: 0 <= i < |s| ==> s[i] <= MaxDouble
    ensures Brightest(s) == Darkest(s) <==>
      (forall i :: 0 <= i < |s| ==> s[i] <= 0.0) || (forall i :: 0 <= i < |s| ==> s[i] == s[0])
  {
    BrightestIsClampedMax(s);
    DarkestIsClampedMin(s);
    assert Darkest(s) <= Max(0.0, s[0]);
    if forall i :: 0 <= i < |s| ==> s[i] == s[0] {
      UniformFrameBounds(s, s[0]);
    }
    if Brightest(s) == Darkest(s) && Brightest(s) > 0.0 {
      forall i | 0 <= i < |s|
        ensures s[i] == s[0]
      {
        assert Darkest(s) <= Max(0.0, s[i]);
      }
    }
  }

  /**
   * The glyph ramp, ordered dark to light, exactly as the source file
   * stores it: its first glyph, a full block, is stored as the three
   * characters of its double-encoded UTF-8 bytes.
   */
  const Ramp: string := "â–ˆ.`:,;'_^\"></-!~=)(|j?}{][ti+l7v1%yrfcJ32uIC$zwo96sngaT5qpkYVOL40&mG8*xhedbZUSAQPFDXWK#RNEHBM@"

  /** Width of one glyph band of grayscale: 255 / |Ramp| in integer division. */
  function BandWidth(): (w: int)
    ensures w == 2
  {
    255 / |Ramp|
  }

  /** Conversion of a double to an int by truncation toward zero. */
  function Truncate(x: real): int
  {
    if x >= 0.0 then x.Floor else -((-x).Floor)
  }

  /** The glyph index: grayscale / band width, truncated, clamped above to the last glyph. */
  function GlyphIndex(gray: real): int
  {
    var raw := Truncate(gray / (BandWidth() as real));
    if raw > |Ramp| - 1 then |Ramp| - 1 else raw
  }

  /**
   * The glyph index never passes the last glyph, and it is a valid index
   * exactly when the grayscale value is above minus one band width; there
   * is no lower clamp.
   */
  lemma GlyphIndexRange(gray: real)
    ensures GlyphIndex(gray) <= |Ramp| - 1
    ensures 0 <= GlyphIndex(gray) <==> gray > -(BandWidth() as real)
  {
  }

  /** Brighter grayscale never selects a darker glyph. */
  lemma GlyphIndexMonotone(g1: real, g2: real)
    requires g1 <= g2
    ensures GlyphIndex(g1) <= GlyphIndex(g2)
  {
  }

  /** A palette entry: an integer RGB triple. */
  datatype Rgb = Rgb(r: int, g: int, b: int)

  /** The nine palette entries; entry 0 is black. */
  const Palette: seq<Rgb> := [
    Rgb(0, 0, 0), Rgb(240, 82, 79), Rgb(92, 150, 44), Rgb(166, 138, 13), Rgb(57, 147, 212),
    Rgb(167, 113, 191), Rgb(0, 163, 163), Rgb(128, 128, 128), Rgb(187, 187, 187)]

  function Square(v: real): real {
    v * v
  }

  /** Squared Euclidean distance from a raw pixel to a palette entry. */
  function ColorDistance(p: Vec3, c: Rgb): real
  {
    Square(p.x - c.r as real) + Square(p.y - c.g as real) + Square(p.z - c.b as real)
  }

  /** The pixel's squared distance to every palette entry, in palette order. */
  function PaletteDistances(p: Vec3, palette: seq<Rgb>): seq<real>
  {
    seq(|palette|, c requires 0 <= c < |palette| => ColorDistance(p, palette[c]))
  }

  /**
   * `k` is the nearest palette index for distances `ds`: if some distance
   * is below MaxDouble, the smallest distance, the earliest index among
   * equal ones; otherwise index 0.
   */
  ghost predicate IsNearestColor(ds: seq<real>, k: int) {
    && 0 <= k
    && if forall c :: 0 <= c < |ds| ==> MaxDouble <= ds[c] then k == 0
       else
         && k < |ds|
         && ds[k] < MaxDouble
         && (forall c :: 0 <= c < |ds| ==> ds[k] <= ds[c])
         && (forall c :: 0 <= c < k ==> ds[k] < ds[c])
  }

  /**
   * The palette scan: keeps the least distance so far, starting from
   * MaxDouble, and moves to an entry only when it is strictly closer.
   */
  method NearestColor(p: Vec3, palette: seq<Rgb>) returns (k: int)
    ensures IsNearestColor(PaletteDistances(p, palette), k)
    ensures |palette| > 0 ==> k < |palette|
  {
    ghost var ds := PaletteDistances(p, palette);
    var least := MaxDouble;
    k := 0;
    for c := 0 to |palette|
      invariant IsNearestColor(ds[..c], k)
      invariant k < |palette|  || k == 0
      invariant least == if forall j :: 0 <= j < c ==> MaxDouble <= ds[j] then MaxDouble else ds[k]
    {
      var d := ColorDistance(p, palette[c]);
      if d < least {
        least, k := d, c;
      }
    }
    assert ds[..|palette|] == ds;
  }

  /** The palette entry as a pixel value. */
  function AsPixel(e: Rgb): Vec3 {
    Vec3(e.r as real, e.g as real, e.b as real)
  }

  /** Every palette entry, taken as a pixel, is its own nearest palette color. */
  lemma PaletteEntryIsItsOwnNearest(c: nat)
    requires c < |Palette|
    ensures IsNearestColor(PaletteDistances(AsPixel(Palette[c]), Palette), c)
  {
    var ds := PaletteDistances(AsPixel(Palette[c]), Palette);
    assert ds[c] == 0.0;
    forall j | 0 <= j < |ds|
      ensures ds[c] <= ds[j]
      ensures j < c ==> ds[c] < ds[j]
    {
    }
  }
}
