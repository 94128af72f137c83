/** WallpaperColorResources: the colour-resource overlay computed from a
    wallpaper. A seed colour is chosen from two secure settings, a dynamic
    colour scheme (kept abstract: a function from seed to five swatches of 8-bit
    RGB shades) is derived from it, and every swatch is written as twelve
    consecutive resource ids with forced opaque alpha. */
module WallpaperColorResources {
  import opened Common

  /** The shades written for every swatch, in key order. */
  const SHADES: seq<int> := [10, 50, 100, 200, 300, 400, 500, 600, 700, 800, 900, 1000]
  /** `0xff shl 24`. */
  const OPAQUE_ALPHA: bv32 := 0xFF00_0000
  const DEFAULT_CUSTOM_COLOR: int := 0
  const DEFAULT_COLOR_OVERRIDE: int := -1

  /** A shade converted to sRGB, as `toRgb8()` returns it. */
  type Rgb8 = x: int | 0 <= x < 0x100_0000

  /** The five swatches of a dynamic colour scheme, each mapping a shade to
      its colour. */
  datatype ColorScheme = ColorScheme(
    neutral1: map<int, Rgb8>, neutral2: map<int, Rgb8>,
    accent1: map<int, Rgb8>, accent2: map<int, Rgb8>, accent3: map<int, Rgb8>)
  {
    function Swatches(): seq<map<int, Rgb8>> {
      [neutral1, neutral2, accent1, accent2, accent3]
    }
  }

  /** The first resource id (shade 10) of each swatch, in the same order. */
  datatype BaseIds = BaseIds(neutral1: int, neutral2: int, accent1: int, accent2: int, accent3: int)
  {
    function Bases(): seq<int> {
      [neutral1, neutral2, accent1, accent2, accent3]
    }
  }

  /** The seed: the override colour when it is set (not -1) and the custom
      colour switch is on (non-zero); otherwise the wallpaper's primary colour. */
  function SeedColor(customColor: int, colorOverride: int, wallpaperPrimary: int): (seed: int)
    ensures colorOverride != DEFAULT_COLOR_OVERRIDE && customColor != DEFAULT_CUSTOM_COLOR ==> seed == colorOverride
    ensures colorOverride == DEFAULT_COLOR_OVERRIDE || customColor == DEFAULT_CUSTOM_COLOR ==> seed == wallpaperPrimary
  {
    if colorOverride != -1 && customColor != 0 then colorOverride else wallpaperPrimary
  }

  /** With both settings unset (read with their defaults) the wallpaper
      decides, whatever the override would have been under a set switch. */
  lemma UnsetSettingsUseWallpaper(wallpaperPrimary: int, colorOverride: int)
    ensures SeedColor(DEFAULT_CUSTOM_COLOR, DEFAULT_COLOR_OVERRIDE, wallpaperPrimary) == wallpaperPrimary
    ensures SeedColor(DEFAULT_CUSTOM_COLOR, colorOverride, wallpaperPrimary) == wallpaperPrimary
  {
  }

  /** The stored value: the 24-bit colour under an opaque alpha byte. */
  function OpaqueArgb(rgb: Rgb8): (argb: bv32)
    ensures argb >> 24 == 0xFF
    ensures argb & 0xFF_FFFF == rgb as bv32
  {
    (rgb as bv32) | OPAQUE_ALPHA
  }

  /** `k` is one of the twelve keys of the swatch starting at `base`. */
  predicate InBlock(base: int, k: int) {
    base <= k < base + |SHADES|
  }

  predicate HasAllShades(swatch: map<int, Rgb8>) {
    forall j :: 0 <= j < |SHADES| ==> SHADES[j] in swatch
  }

  /** addOverlayColor: twelve entries at keys base, base+1, ..., base+11,
      holding shades 10, 50, ..., 1000 in that order; every other key keeps
      its value. A `SparseIntArray` append is a put, so the table is a map.
      The source's `swatch[shade]!!` throws on a missing shade, and the
      exception leaves the constructor, so no table survives: None. */
  method AddOverlayColor(overlay: map<int, bv32>, swatch: map<int, Rgb8>, base: int) returns (res: Option<map<int, bv32>>)
    ensures res.Some? <==> HasAllShades(swatch)
    ensures res.Some? ==> forall k :: k in res.value <==> k in overlay || InBlock(base, k)
    ensures res.Some? ==> forall j :: 0 <= j < |SHADES| ==>
      base + j in res.value && res.value[base + j] == OpaqueArgb(swatch[SHADES[j]])
    ensures res.Some? ==> forall k :: k in overlay && !InBlock(base, k) ==> res.value[k] == overlay[k]
  {
    var r := overlay;
    var key := base;
    for i := 0 to |SHADES|
      invariant key == base + i
      invariant forall j :: 0 <= j < i ==> SHADES[j] in swatch
      invariant forall k :: k in r <==> k in overlay || base <= k < base + i
      invariant forall j :: 0 <= j < i ==> r[base + j] == OpaqueArgb(swatch[SHADES[j]])
      invariant forall k :: k in overlay && !(base <= k < base + i) ==> r[k] == overlay[k]
    {
      if SHADES[i] !in swatch {
        return None;
      }
      r := r[key := OpaqueArgb(swatch[SHADES[i]])];
      key := key + 1;
    }
    res := Some(r);
  }

  /** The reference table: key `k` after the first `w` swatches holds the
      shade of the last swatch whose range contains it, and is absent when no
      range does. */
  function Expected(swatches: seq<map<int, Rgb8>>, bases: seq<int>, w: nat, k: int): Option<bv32>
    requires w <= |swatches| == |bases|
    requires forall v :: 0 <= v < |swatches| ==> HasAllShades(swatches[v])
  {
    if w == 0 then None
    else if InBlock(bases[w - 1], k) then
      assert HasAllShades(swatches[w - 1]);
      Some(OpaqueArgb(swatches[w - 1][SHADES[k - bases[w - 1]]]))
    else Expected(swatches, bases, w - 1, k)
  }

  /** `overlay` is the reference table after the first `w` swatches. */
  ghost predicate Matches(overlay: map<int, bv32>, swatches: seq<map<int, Rgb8>>, bases: seq<int>, w: nat)
    requires w <= |swatches| == |bases|
    requires forall v :: 0 <= v < |swatches| ==> HasAllShades(swatches[v])
  {
    forall k :: (k in overlay <==> Expected(swatches, bases, w, k).Some?) &&
                (k in overlay ==> overlay[k] == Expected(swatches, bases, w, k).value)
  }

  /** One addOverlayColor call advances the reference table by one swatch. */
  lemma AddOverlayColorStep(before: map<int, bv32>, after: map<int, bv32>,
                            swatches: seq<map<int, Rgb8>>, bases: seq<int>, w: nat)
    requires w < |swatches| == |bases|
    requires forall v :: 0 <= v < |swatches| ==> HasAllShades(swatches[v])
    requires Matches(before, swatches, bases, w)
    requires forall k :: k in after <==> k in before || InBlock(bases[w], k)
    requires forall j :: 0 <= j < |SHADES| ==> bases[w] + j in after && after[bases[w] + j] == OpaqueArgb(swatches[w][SHADES[j]])
    requires forall k :: k in before && !InBlock(bases[w], k) ==> after[k] == before[k]
    ensures Matches(after, swatches, bases, w + 1)
  {
  }

  /** No two swatches' key ranges overlap. */
  predicate Separated(bases: seq<int>) {
    forall a, b :: 0 <= a < |bases| && 0 <= b < |bases| && a != b ==>
      bases[a] + |SHADES| <= bases[b] || bases[b] + |SHADES| <= bases[a]
  }

  /** A key is in the reference table exactly when some written range holds it. */
  lemma {:induction false} ExpectedKeys(swatches: seq<map<int, Rgb8>>, bases: seq<int>, w: nat, k: int)
    requires w <= |swatches| == |bases|
    requires forall v :: 0 <= v < |swatches| ==> HasAllShades(swatches[v])
    ensures Expected(swatches, bases, w, k).Some? <==> exists v :: 0 <= v < w && InBlock(bases[v], k)
  {
    if w > 0 {
      ExpectedKeys(swatches, bases, w - 1, k);
    }
  }

  /** When the ranges do not overlap, every written key holds the shade of
      its own swatch: no later swatch overwrites it. */
  lemma {:induction false} ExpectedOwnShade(swatches: seq<map<int, Rgb8>>, bases: seq<int>, w: nat, v: nat, j: nat)
    requires w <= |swatches| == |bases|
    requires forall u :: 0 <= u < |swatches| ==> HasAllShades(swatches[u])
    requires Separated(bases) && v < w && j < |SHADES|
    ensures Expected(swatches, bases, w, bases[v] + j) == Some(OpaqueArgb(swatches[v][SHADES[j]]))
  {
    if v < w - 1 {
      ExpectedOwnShade(swatches, bases, w - 1, v, j);
      assert !InBlock(bases[w - 1], bases[v] + j);
    }
  }

  /** The swatches written in order, each over the table so far; None as
      soon as one lacks a shade. */
  method WriteSwatches(swatches: seq<map<int, Rgb8>>, bases: seq<int>) returns (overlay: Option<map<int, bv32>>)
    requires |swatches| == |bases|
    ensures overlay.Some? <==> forall v :: 0 <= v < |swatches| ==> HasAllShades(swatches[v])
    ensures overlay.Some? ==> Matches(overlay.value, swatches, bases, |swatches|)
  {
    ghost var complete := forall v :: 0 <= v < |swatches| ==> HasAllShades(swatches[v]);
    var table := map[];
    for w := 0 to |swatches|
      invariant forall v :: 0 <= v < w ==> HasAllShades(swatches[v])
      invariant complete ==> Matches(table, swatches, bases, w)
    {
      var next := AddOverlayColor(table, swatches[w], bases[w]);
      if next.None? {
        assert !HasAllShades(swatches[w]);
        return None;
      }
      if complete {
        AddOverlayColorStep(table, next.value, swatches, bases, w);
      }
      table := next.value;
    }
    overlay := Some(table);
  }

  /** The constructor: the five swatches of the seed's scheme are written in
      order neutral1, neutral2, accent1, accent2, accent3, each over the
      table so far. A swatch missing a shade makes the constructor throw:
      None. */
  method BuildColorOverlay(customColor: int, colorOverride: int, wallpaperPrimary: int,
                           scheme: int -> ColorScheme, ids: BaseIds) returns (overlay: Option<map<int, bv32>>)
    ensures var s := scheme(SeedColor(customColor, colorOverride, wallpaperPrimary)).Swatches();
      overlay.Some? <==> forall w :: 0 <= w < |s| ==> HasAllShades(s[w])
    ensures overlay.Some? ==>
      Matches(overlay.value, scheme(SeedColor(customColor, colorOverride, wallpaperPrimary)).Swatches(), ids.Bases(), 5)
  {
    var seed := SeedColor(customColor, colorOverride, wallpaperPrimary);
    overlay := WriteSwatches(scheme(seed).Swatches(), ids.Bases());
  }

  /** With non-overlapping id ranges, the built table holds each swatch's
      twelve shades at its own ids, and no key outside the five ranges. */
  lemma OverlayTableLayout(swatches: seq<map<int, Rgb8>>, ids: BaseIds, overlay: map<int, bv32>, w: nat, j: nat, k: int)
    requires |swatches| == 5 && forall v :: 0 <= v < 5 ==> HasAllShades(swatches[v])
    requires Matches(overlay, swatches, ids.Bases(), 5)
    requires Separated(ids.Bases()) && w < 5 && j < |SHADES|
    ensures ids.Bases()[w] + j in overlay && overlay[ids.Bases()[w] + j] == OpaqueArgb(swatches[w][SHADES[j]])
    ensures k in overlay <==> exists v :: 0 <= v < 5 && InBlock(ids.Bases()[v], k)
  {
    ExpectedOwnShade(swatches, ids.Bases(), 5, w, j);
    ExpectedKeys(swatches, ids.Bases(), 5, k);
  }
}
