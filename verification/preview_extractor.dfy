/** ColorBundlePreviewExtractor: fills a ColorBundle builder from a colour
    resource. Monet's colour scheme (`new ColorScheme(color, dark)
    .getAccentColor()`) and `ColorUtils.toColorString` are passed in as
    functions; the icon lookup is a partial function from name to drawable. */
module PreviewExtractor {
  import opened Common
  import opened ColorBundle

  const OVERLAY_CATEGORY_COLOR: string := "android.theme.customization.accent_color"
  const OVERLAY_CATEGORY_SYSTEM_PALETTE: string := "android.theme.customization.system_palette"

  /** The enum constant name of a style. */
  function StyleName(s: Style): string {
    match s
    case Spritz => "SPRITZ"
    case TonalSpot => "TONAL_SPOT"
    case Vibrant => "VIBRANT"
    case Expressive => "EXPRESSIVE"
    case Rainbow => "RAINBOW"
    case FruitSalad => "FRUIT_SALAD"
    case Content => "CONTENT"
  }

  /** `Style.valueOf`: None where Java throws IllegalArgumentException. */
  function StyleValueOf(name: string): Option<Style> {
    if name == "SPRITZ" then Some(Spritz)
    else if name == "TONAL_SPOT" then Some(TonalSpot)
    else if name == "VIBRANT" then Some(Vibrant)
    else if name == "EXPRESSIVE" then Some(Expressive)
    else if name == "RAINBOW" then Some(Rainbow)
    else if name == "FRUIT_SALAD" then Some(FruitSalad)
    else if name == "CONTENT" then Some(Content)
    else None
  }

  /** The style addColorStyle picks: a null or empty name and an unknown name
      both give TONAL_SPOT (the exception is swallowed); a known name gives
      its own style. */
  function ParseStyle(styleName: Option<string>): (s: Style)
    ensures styleName.None? || styleName.value == "" ==> s == TonalSpot
    ensures styleName.Some? && (exists t :: StyleName(t) == styleName.value) ==> StyleName(s) == styleName.value
    ensures styleName.Some? && (forall t :: StyleName(t) != styleName.value) ==> s == TonalSpot
  {
    if styleName.None? || styleName.value == "" then TonalSpot
    else StyleValueOf(styleName.value).GetOr(TonalSpot)
  }

  /** Every style survives the trip through its name. */
  lemma StyleNameRoundTrip(s: Style)
    ensures ParseStyle(Some(StyleName(s))) == s
  {
  }

  /** addColorStyle: sets the parsed style and nothing else. */
  function AddColorStyle(b: Builder, styleName: Option<string>): (r: Builder)
    ensures r.(style := b.style) == b
    ensures styleName.Some? && (exists t :: StyleName(t) == styleName.value) ==> StyleName(r.style) == styleName.value
    ensures styleName.None? || (forall t :: StyleName(t) != styleName.value) ==> r.style == TonalSpot
  {
    SetStyle(b, ParseStyle(styleName))
  }

  /** addSecondaryColor: writes the colour's string under the accent-colour
      category, light secondary from the light scheme and dark secondary from
      the dark scheme, and nothing else. */
  function AddSecondaryColor(b: Builder, color: int, accent: (int, bool) -> int, colorString: int -> string): (r: Builder)
    ensures r.packages == b.packages[OVERLAY_CATEGORY_COLOR := colorString(color)]
    ensures r.secondaryColorLight == accent(color, false) && r.secondaryColorDark == accent(color, true)
    ensures r.(packages := b.packages, secondaryColorLight := b.secondaryColorLight, secondaryColorDark := b.secondaryColorDark) == b
  {
    var darkSecondary := accent(color, true);
    var lightSecondary := accent(color, false);
    SetColorSecondaryDark(SetColorSecondaryLight(AddOverlayPackage(b, OVERLAY_CATEGORY_COLOR, colorString(color)), lightSecondary), darkSecondary)
  }

  /** addPrimaryColor: the same under the system-palette category, for the
      primary colours. */
  function AddPrimaryColor(b: Builder, color: int, accent: (int, bool) -> int, colorString: int -> string): (r: Builder)
    ensures r.packages == b.packages[OVERLAY_CATEGORY_SYSTEM_PALETTE := colorString(color)]
    ensures r.primaryColorLight == accent(color, false) && r.primaryColorDark == accent(color, true)
    ensures r.(packages := b.packages, primaryColorLight := b.primaryColorLight, primaryColorDark := b.primaryColorDark) == b
  {
    var darkPrimary := accent(color, true);
    var lightPrimary := accent(color, false);
    SetColorPrimaryDark(SetColorPrimaryLight(AddOverlayPackage(b, OVERLAY_CATEGORY_SYSTEM_PALETTE, colorString(color)), lightPrimary), darkPrimary)
  }

  /** The two helpers touch disjoint parts of the builder, so their order does
      not matter, and after both the built preview resolves each colour pair
      from its own seed. */
  lemma SecondaryAndPrimaryIndependent(b: Builder, c1: int, c2: int, accent: (int, bool) -> int, colorString: int -> string,
                                       t: string, iconMask: string, maskShape: Drawable, cornerRadius: int, uiMode: bv32)
    ensures AddPrimaryColor(AddSecondaryColor(b, c1, accent, colorString), c2, accent, colorString)
         == AddSecondaryColor(AddPrimaryColor(b, c2, accent, colorString), c1, accent, colorString)
    ensures var info := Build(AddPrimaryColor(AddSecondaryColor(b, c1, accent, colorString), c2, accent, colorString),
                              t, iconMask, maskShape, cornerRadius).0.previewInfo;
      ResolveSecondaryColor(info, uiMode) == accent(c1, IsNight(uiMode)) &&
      ResolvePrimaryColor(info, uiMode) == accent(c2, IsNight(uiMode))
  {
  }

  /** How many preview icons load before the first lookup failure. */
  function LoadablePrefix(names: seq<string>, load: string -> Option<Drawable>): (k: nat)
    ensures k <= |names|
    ensures forall i :: 0 <= i < k ==> load(names[i]).Some?
    ensures k < |names| ==> load(names[k]).None?
  {
    if |names| == 0 || load(names[0]).None? then 0
    else 1 + LoadablePrefix(names[1..], load)
  }

  /** addSystemDefaultIcons: adds icons in order until a lookup fails; the
      failure is swallowed, the icons added before it stay, and the later names
      are not looked at. Nothing but the icon list changes. */
  method AddSystemDefaultIcons(b: Builder, names: seq<string>, load: string -> Option<Drawable>) returns (r: Builder)
    ensures r.(icons := b.icons) == b
    ensures |r.icons| == |b.icons| + LoadablePrefix(names, load)
    ensures r.icons[..|b.icons|] == b.icons
    ensures forall i :: 0 <= i < LoadablePrefix(names, load) ==> r.icons[|b.icons| + i] == load(names[i]).value
  {
    var k := LoadablePrefix(names, load);
    r := b;
    var i := 0;
    while i < |names|
      invariant 0 <= i <= k
      invariant r.(icons := b.icons) == b
      invariant |r.icons| == |b.icons| + i
      invariant r.icons[..|b.icons|] == b.icons
      invariant forall j :: 0 <= j < i ==> r.icons[|b.icons| + j] == load(names[j]).value
    {
      var icon := load(names[i]);
      if icon.None? {
        break;
      }
      r := AddIcon(r, icon.value);
      i := i + 1;
    }
  }
}
