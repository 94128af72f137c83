/** A preset colour option (ColorBundle): its preview colours, resolved for
    day or night with an optional override pair, and the builder that
    assembles it from overlay packages, colours, icons and a style. */
module ColorBundle {
  import opened Common

  /** `Color.TRANSPARENT`, which also marks an override as unset. */
  const TRANSPARENT: int := 0

  // Bits of `Configuration.uiMode`.
  const UI_MODE_TYPE_MASK: bv32 := 0x0f
  const UI_MODE_NIGHT_MASK: bv32 := 0x30
  const UI_MODE_NIGHT_UNDEFINED: bv32 := 0x00
  const UI_MODE_NIGHT_NO: bv32 := 0x10
  const UI_MODE_NIGHT_YES: bv32 := 0x20

  /** The theme styles of `com.android.systemui.monet.Style`. */
  datatype Style = Spritz | TonalSpot | Vibrant | Expressive | Rainbow | FruitSalad | Content

  /** An Android drawable, known only by identity. */
  datatype Drawable = Drawable(id: int)

  /** The night test shared by both resolvers. */
  predicate IsNight(uiMode: bv32) {
    uiMode & UI_MODE_NIGHT_MASK == UI_MODE_NIGHT_YES
  }

  /** Night mode is read from the night bits alone: the UI-mode type bits do
      not matter, and of the three night values only "yes" is night. */
  lemma NightReadsOnlyNightBits(uiMode: bv32)
    ensures IsNight(uiMode) <==> IsNight(uiMode & UI_MODE_NIGHT_MASK)
    ensures IsNight(uiMode) <==> IsNight(uiMode | UI_MODE_TYPE_MASK)
    ensures IsNight(UI_MODE_NIGHT_YES) && !IsNight(UI_MODE_NIGHT_NO) && !IsNight(UI_MODE_NIGHT_UNDEFINED)
  {
  }

  /** ColorBundle.PreviewInfo, with its four override colours. */
  datatype PreviewInfo = PreviewInfo(
    secondaryColorLight: int,
    secondaryColorDark: int,
    primaryColorLight: int,
    primaryColorDark: int,
    icons: seq<Drawable>,
    shapeDrawable: Option<Drawable>,
    bottomSheetCornerRadius: int,
    overrideSecondaryColorLight: int,
    overrideSecondaryColorDark: int,
    overridePrimaryColorLight: int,
    overridePrimaryColorDark: int)

  /** resolveSecondaryColor: once either secondary override is set, the
      override for the current mode is used, even when that one is unset;
      otherwise the bundle's own colour for the current mode. */
  function ResolveSecondaryColor(info: PreviewInfo, uiMode: bv32): (r: int)
    ensures info.overrideSecondaryColorDark == TRANSPARENT && info.overrideSecondaryColorLight == TRANSPARENT ==>
      r == (if IsNight(uiMode) then info.secondaryColorDark else info.secondaryColorLight)
    ensures info.overrideSecondaryColorDark != TRANSPARENT || info.overrideSecondaryColorLight != TRANSPARENT ==>
      r == (if IsNight(uiMode) then info.overrideSecondaryColorDark else info.overrideSecondaryColorLight)
  {
    var night := IsNight(uiMode);
    if info.overrideSecondaryColorDark != TRANSPARENT || info.overrideSecondaryColorLight != TRANSPARENT then
      if night then info.overrideSecondaryColorDark else info.overrideSecondaryColorLight
    else
      if night then info.secondaryColorDark else info.secondaryColorLight
  }

  /** resolvePrimaryColor: the same rule over the primary colours and the
      palette overrides. */
  function ResolvePrimaryColor(info: PreviewInfo, uiMode: bv32): (r: int)
    ensures info.overridePrimaryColorDark == TRANSPARENT && info.overridePrimaryColorLight == TRANSPARENT ==>
      r == (if IsNight(uiMode) then info.primaryColorDark else info.primaryColorLight)
    ensures info.overridePrimaryColorDark != TRANSPARENT || info.overridePrimaryColorLight != TRANSPARENT ==>
      r == (if IsNight(uiMode) then info.overridePrimaryColorDark else info.overridePrimaryColorLight)
  {
    var night := IsNight(uiMode);
    if info.overridePrimaryColorDark != TRANSPARENT || info.overridePrimaryColorLight != TRANSPARENT then
      if night then info.overridePrimaryColorDark else info.overridePrimaryColorLight
    else
      if night then info.primaryColorDark else info.primaryColorLight
  }

  /** setOverrideAccentColors: replaces the secondary overrides only, so the
      primary colour resolves as before in every mode; a pair that is not
      all-transparent then decides the secondary colour outright. */
  function SetOverrideAccentColors(info: PreviewInfo, light: int, dark: int): (r: PreviewInfo)
    ensures forall m: bv32 :: ResolvePrimaryColor(r, m) == ResolvePrimaryColor(info, m)
    ensures light != TRANSPARENT || dark != TRANSPARENT ==>
      forall m: bv32 :: ResolveSecondaryColor(r, m) == (if IsNight(m) then dark else light)
    ensures light == TRANSPARENT && dark == TRANSPARENT ==>
      forall m: bv32 :: ResolveSecondaryColor(r, m) == (if IsNight(m) then info.secondaryColorDark else info.secondaryColorLight)
  {
    info.(overrideSecondaryColorLight := light, overrideSecondaryColorDark := dark)
  }

  /** setOverridePaletteColors: replaces the primary overrides only. */
  function SetOverridePaletteColors(info: PreviewInfo, light: int, dark: int): (r: PreviewInfo)
    ensures forall m: bv32 :: ResolveSecondaryColor(r, m) == ResolveSecondaryColor(info, m)
    ensures light != TRANSPARENT || dark != TRANSPARENT ==>
      forall m: bv32 :: ResolvePrimaryColor(r, m) == (if IsNight(m) then dark else light)
    ensures light == TRANSPARENT && dark == TRANSPARENT ==>
      forall m: bv32 :: ResolvePrimaryColor(r, m) == (if IsNight(m) then info.primaryColorDark else info.primaryColorLight)
  {
    info.(overridePrimaryColorLight := light, overridePrimaryColorDark := dark)
  }

  /** Overriding only one mode still switches the other mode to its (unset,
      transparent) override: night gets the dark override even when it is 0. */
  lemma OneSidedOverrideHidesOtherMode(info: PreviewInfo, light: int, uiMode: bv32)
    requires light != TRANSPARENT && IsNight(uiMode)
    ensures ResolveSecondaryColor(SetOverrideAccentColors(info, light, TRANSPARENT), uiMode) == TRANSPARENT
  {
  }

  // ---------------------------------------------------------------------------
  // The builder

  /** ColorBundle.Builder; a null title is None. */
  datatype Builder = Builder(
    title: Option<string>,
    secondaryColorLight: int,
    secondaryColorDark: int,
    primaryColorLight: int,
    primaryColorDark: int,
    icons: seq<Drawable>,
    isDefault: bool,
    style: Style,
    index: int,
    packages: map<string, string>)

  /** A ColorBundle as built. */
  datatype Bundle = Bundle(
    title: string,
    packages: map<string, string>,
    isDefault: bool,
    style: Style,
    index: int,
    previewInfo: PreviewInfo)

  /** A fresh builder: field initialisers of ColorBundle.Builder. */
  function NewBuilder(): Builder {
    Builder(None, TRANSPARENT, TRANSPARENT, TRANSPARENT, TRANSPARENT, [], false, TonalSpot, 0, map[])
  }

  function SetTitle(b: Builder, title: Option<string>): Builder { b.(title := title) }
  function SetColorSecondaryLight(b: Builder, c: int): Builder { b.(secondaryColorLight := c) }
  function SetColorSecondaryDark(b: Builder, c: int): Builder { b.(secondaryColorDark := c) }
  function SetColorPrimaryLight(b: Builder, c: int): Builder { b.(primaryColorLight := c) }
  function SetColorPrimaryDark(b: Builder, c: int): Builder { b.(primaryColorDark := c) }
  function AddIcon(b: Builder, icon: Drawable): Builder { b.(icons := b.icons + [icon]) }
  function SetStyle(b: Builder, style: Style): Builder { b.(style := style) }
  function SetIndex(b: Builder, index: int): Builder { b.(index := index) }
  function AsDefault(b: Builder): Builder { b.(isDefault := true) }
  function GetPackages(b: Builder): map<string, string> { b.packages }

  /** asDefault marks the bundle default, touches nothing else, and marking
      twice is marking once. */
  lemma AsDefaultIsIdempotent(b: Builder)
    ensures AsDefault(b).isDefault
    ensures AsDefault(b).(isDefault := b.isDefault) == b
    ensures AsDefault(AsDefault(b)) == AsDefault(b)
  {
  }

  /** addOverlayPackage: a map put. The category now maps to the package, every
      other category keeps its package, and no other field changes. */
  function AddOverlayPackage(b: Builder, category: string, packageName: string): (r: Builder)
    ensures r.packages.Keys == b.packages.Keys + {category}
    ensures r.packages[category] == packageName
    ensures forall c :: c in b.packages && c != category ==> r.packages[c] == b.packages[c]
    ensures r.(packages := b.packages) == b
  {
    b.(packages := b.packages[category := packageName])
  }

  /** The last package written for a category wins. */
  lemma OverlayPackageLastWins(b: Builder, category: string, p1: string, p2: string)
    ensures AddOverlayPackage(AddOverlayPackage(b, category, p1), category, p2) == AddOverlayPackage(b, category, p2)
    ensures GetPackages(AddOverlayPackage(AddOverlayPackage(b, category, p1), category, p2))[category] == p2
  {
  }

  /** Writes to different categories do not interfere. */
  lemma OverlayPackagesCommute(b: Builder, c1: string, p1: string, c2: string, p2: string)
    requires c1 != c2
    ensures AddOverlayPackage(AddOverlayPackage(b, c1, p1), c2, p2) == AddOverlayPackage(AddOverlayPackage(b, c2, p2), c1, p1)
  {
  }

  /** createPreviewInfo: the builder's colours and icons, the shape drawn from
      the system icon mask when that path is non-empty, the system corner
      radius, and no overrides. */
  function CreatePreviewInfo(b: Builder, iconMask: string, maskShape: Drawable, cornerRadius: int): (info: PreviewInfo)
    ensures info.secondaryColorLight == b.secondaryColorLight && info.secondaryColorDark == b.secondaryColorDark
    ensures info.primaryColorLight == b.primaryColorLight && info.primaryColorDark == b.primaryColorDark
    ensures info.icons == b.icons && info.bottomSheetCornerRadius == cornerRadius
    ensures info.shapeDrawable.Some? <==> iconMask != ""
    ensures forall m: bv32 ::
      ResolveSecondaryColor(info, m) == (if IsNight(m) then b.secondaryColorDark else b.secondaryColorLight) &&
      ResolvePrimaryColor(info, m) == (if IsNight(m) then b.primaryColorDark else b.primaryColorLight)
  {
    var shape := if iconMask != "" then Some(maskShape) else None;
    PreviewInfo(b.secondaryColorLight, b.secondaryColorDark, b.primaryColorLight, b.primaryColorDark,
                b.icons, shape, cornerRadius, TRANSPARENT, TRANSPARENT, TRANSPARENT, TRANSPARENT)
  }

  /** build: the default title replaces a null title, and is also written back
      into the builder; every other field is carried over. */
  function Build(b: Builder, defaultTitle: string, iconMask: string, maskShape: Drawable, cornerRadius: int): (r: (Bundle, Builder))
    ensures b.title.Some? ==> r.0.title == b.title.value
    ensures b.title.None? ==> r.0.title == defaultTitle
    ensures r.1 == b.(title := Some(r.0.title))
    ensures r.0.packages == b.packages && r.0.isDefault == b.isDefault
    ensures r.0.style == b.style && r.0.index == b.index
    ensures r.0.previewInfo == CreatePreviewInfo(b, iconMask, maskShape, cornerRadius)
  {
    var title := if b.title.None? then defaultTitle else b.title.value;
    var b' := b.(title := Some(title));
    (Bundle(title, b.packages, b.isDefault, b.style, b.index, CreatePreviewInfo(b, iconMask, maskShape, cornerRadius)), b')
  }

  /** Building again from the builder `build` left behind gives the same
      bundle, whatever default title is offered the second time. */
  lemma BuildIsStable(b: Builder, t1: string, t2: string, iconMask: string, maskShape: Drawable, cornerRadius: int)
    ensures var (bundle, b') := Build(b, t1, iconMask, maskShape, cornerRadius);
      Build(b', t2, iconMask, maskShape, cornerRadius) == (bundle, b')
  {
  }

  /** A fresh builder builds a non-default TONAL_SPOT bundle with the default
      title, no overlay packages, no icons, and transparent colours in both
      modes. */
  lemma FreshBuilderBuildsBlankBundle(defaultTitle: string, iconMask: string, maskShape: Drawable, cornerRadius: int, uiMode: bv32)
    ensures var bundle := Build(NewBuilder(), defaultTitle, iconMask, maskShape, cornerRadius).0;
      && bundle.title == defaultTitle
      && bundle.packages == map[]
      && !bundle.isDefault
      && bundle.style == TonalSpot
      && bundle.previewInfo.icons == []
      && ResolveSecondaryColor(bundle.previewInfo, uiMode) == TRANSPARENT
      && ResolvePrimaryColor(bundle.previewInfo, uiMode) == TRANSPARENT
  {
  }

  /** Each colour setter lands in the matching field of the built preview. */
  lemma SettersReachPreview(b: Builder, sl: int, sd: int, pl: int, pd: int, t: string, iconMask: string, maskShape: Drawable, cornerRadius: int)
    ensures var b' := SetColorPrimaryDark(SetColorPrimaryLight(SetColorSecondaryDark(SetColorSecondaryLight(b, sl), sd), pl), pd);
      var info := Build(b', t, iconMask, maskShape, cornerRadius).0.previewInfo;
      info.secondaryColorLight == sl && info.secondaryColorDark == sd &&
      info.primaryColorLight == pl && info.primaryColorDark == pd
  {
  }
}
