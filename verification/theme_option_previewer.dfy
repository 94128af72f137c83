/** ThemeOptionPreviewer: the index arithmetic and small decisions behind the
    theme preview card. Views are reduced to the values written into them:
    which preview icon each slot shows, the clock text, the corner radii and
    the button tint list. */
module ThemeOptionPreviewer {
  import opened Common

  // Positions in the preview icon list.
  const ICON_WIFI: nat := 0
  const ICON_BLUETOOTH: nat := 1
  const ICON_FLASHLIGHT: nat := 3
  const ICON_AUTO_ROTATE: nat := 4
  const ICON_CELLULAR_SIGNAL: nat := 6
  const ICON_BATTERY: nat := 7

  /** The preview icon shown by each top-bar child, in order. */
  const TOP_BAR_ICONS: seq<nat> := [ICON_WIFI, ICON_CELLULAR_SIGNAL, ICON_BATTERY]
  /** The number of app-icon shape slots. */
  const SHAPE_SLOTS: nat := 4
  /** The preview icon drawn on each quick-settings colour tile, in order. */
  const COLOR_TILE_ICONS: seq<nat> := [ICON_WIFI, ICON_BLUETOOTH, ICON_FLASHLIGHT, ICON_AUTO_ROTATE]

  // ---------------------------------------------------------------------
  // Clock text
  // ---------------------------------------------------------------------

  /** `StringBuffer.delete(start, end)`: None where Java throws
      StringIndexOutOfBoundsException; an end past the length is clamped. */
  function Delete(s: string, start: int, end: int): (r: Option<string>)
    ensures r.Some? <==> 0 <= start <= |s| && start <= end
    ensures r.Some? ==> r.value == s[..start] + s[Min(end, |s|)..]
  {
    if start < 0 || start > |s| || start > end then None
    else Some(s[..start] + s[Min(end, |s|)..])
  }

  /** getFormattedTime after formatting: the AM/PM field is removed only when
      it starts after position 0. */
  function StripAmPm(time: string, begin: int, end: int): (r: Option<string>)
    ensures begin <= 0 ==> r == Some(time)
    ensures begin > 0 ==> r == Delete(time, begin, end)
  {
    if begin > 0 then Delete(time, begin, end) else Some(time)
  }

  /** A removed field can be put back: the stripped text is the original with
      exactly the characters [begin, end) cut out. */
  lemma StripAmPmCutsField(time: string, begin: int, end: int)
    requires 0 < begin <= end <= |time|
    ensures StripAmPm(time, begin, end).Some?
    ensures |StripAmPm(time, begin, end).value| == |time| - (end - begin)
    ensures StripAmPm(time, begin, end).value[..begin] + time[begin..end] + StripAmPm(time, begin, end).value[begin..] == time
  {
  }

  // ---------------------------------------------------------------------
  // Icon slots
  // ---------------------------------------------------------------------

  /** What the top bar shows: for each child the preview icon it displays,
      or None when it is hidden. */
  function TopBarSlot(i: nat, iconCount: nat): Option<nat>
    requires i < |TOP_BAR_ICONS|
  {
    if TOP_BAR_ICONS[i] < iconCount then Some(TOP_BAR_ICONS[i]) else None
  }

  /** setTopBarIcons: child `i` shows `icons[[0, 6, 7][i]]` when that index
      exists and is hidden otherwise. A container with more than three
      children overruns the index table: None. */
  method SetTopBarIcons(childCount: nat, iconCount: nat) returns (slots: Option<seq<Option<nat>>>)
    ensures slots.None? <==> childCount > |TOP_BAR_ICONS|
    ensures slots.Some? ==> |slots.value| == childCount
    ensures slots.Some? ==> forall i :: 0 <= i < childCount ==>
      (slots.value[i].Some? <==> TOP_BAR_ICONS[i] < iconCount) &&
      (slots.value[i].Some? ==> slots.value[i].value == TOP_BAR_ICONS[i])
  {
    var shown: seq<Option<nat>> := [];
    var i := 0;
    while i < childCount
      invariant 0 <= i <= childCount && i <= |TOP_BAR_ICONS|
      invariant |shown| == i
      invariant forall j :: 0 <= j < i ==> shown[j] == TopBarSlot(j, iconCount)
    {
      if i >= |TOP_BAR_ICONS| {
        return None;
      }
      var iconIndex := TOP_BAR_ICONS[i];
      if iconIndex < iconCount {
        shown := shown + [Some(iconIndex)];
      } else {
        shown := shown + [None];
      }
      i := i + 1;
    }
    slots := Some(shown);
  }

  /** setAppIconShape: the shape slots filled, slot `i` with app icon `i`;
      exactly the first min(4, count) slots. */
  method SetAppIconShape(appIconCount: nat) returns (filled: seq<nat>)
    ensures |filled| == Min(SHAPE_SLOTS, appIconCount)
    ensures forall i :: 0 <= i < |filled| ==> filled[i] == i
  {
    filled := [];
    var i := 0;
    while i < SHAPE_SLOTS && i < appIconCount
      invariant 0 <= i <= Min(SHAPE_SLOTS, appIconCount)
      invariant |filled| == i
      invariant forall j :: 0 <= j < i ==> filled[j] == j
    {
      filled := filled + [i];
      i := i + 1;
    }
  }

  /** setColorAndIconsSection as written: the loop runs while `i < 4` and
      `i < icons.size()`, but reads `icons[[0, 1, 3, 4][i]]`; a read past the
      list is an IndexOutOfBoundsException, modelled as None. */
  method ColorTileIconsAsWritten(iconCount: nat) returns (tiles: Option<seq<nat>>)
    ensures tiles.Some? ==> |tiles.value| == Min(|COLOR_TILE_ICONS|, iconCount)
    ensures tiles.Some? ==> forall i :: 0 <= i < |tiles.value| ==> tiles.value[i] == COLOR_TILE_ICONS[i] < iconCount
    ensures tiles.None? <==> exists i :: 0 <= i < Min(|COLOR_TILE_ICONS|, iconCount) && COLOR_TILE_ICONS[i] >= iconCount
  {
    var shown: seq<nat> := [];
    var i := 0;
    while i < |COLOR_TILE_ICONS| && i < iconCount
      invariant 0 <= i <= Min(|COLOR_TILE_ICONS|, iconCount)
      invariant |shown| == i
      invariant forall j :: 0 <= j < i ==> shown[j] == COLOR_TILE_ICONS[j] < iconCount
    {
      if COLOR_TILE_ICONS[i] >= iconCount {
        return None;
      }
      shown := shown + [COLOR_TILE_ICONS[i]];
      i := i + 1;
    }
    tiles := Some(shown);
  }

  /** A tile inside the written loop's bound reads past the list exactly when
      there are three or four preview icons. */
  lemma ColorTilesOverrunWithFewIcons(iconCount: nat)
    ensures (exists i :: 0 <= i < Min(|COLOR_TILE_ICONS|, iconCount) && COLOR_TILE_ICONS[i] >= iconCount)
        <==> iconCount == 3 || iconCount == 4
  {
    if iconCount == 3 {
      assert COLOR_TILE_ICONS[2] >= 3;
    } else if iconCount == 4 {
      assert COLOR_TILE_ICONS[3] >= 4;
    }
  }

  /** The tiles as evidently intended: tile `i` is drawn while its own icon
      `[0, 1, 3, 4][i]` exists, so no read leaves the list. */
  method ColorTileIcons(iconCount: nat) returns (tiles: seq<nat>)
    ensures |tiles| <= |COLOR_TILE_ICONS|
    ensures forall i :: 0 <= i < |tiles| ==> tiles[i] == COLOR_TILE_ICONS[i] && tiles[i] < iconCount
    ensures |tiles| < |COLOR_TILE_ICONS| ==> COLOR_TILE_ICONS[|tiles|] >= iconCount
  {
    tiles := [];
    var i := 0;
    while i < |COLOR_TILE_ICONS| && COLOR_TILE_ICONS[i] < iconCount
      invariant 0 <= i <= |COLOR_TILE_ICONS|
      invariant |tiles| == i
      invariant forall j :: 0 <= j < i ==> tiles[j] == COLOR_TILE_ICONS[j] && tiles[j] < iconCount
    {
      tiles := tiles + [COLOR_TILE_ICONS[i]];
      i := i + 1;
    }
  }

  /** With at least five preview icons the written loop and the intended one
      draw the same four tiles. */
  method ColorTilesAgreeWithEnoughIcons(iconCount: nat) returns (asWritten: Option<seq<nat>>, intended: seq<nat>)
    requires iconCount > ICON_AUTO_ROTATE
    ensures asWritten == Some(intended)
    ensures intended == COLOR_TILE_ICONS
  {
    asWritten := ColorTileIconsAsWritten(iconCount);
    intended := ColorTileIcons(iconCount);
    assert !(exists i :: 0 <= i < Min(|COLOR_TILE_ICONS|, iconCount) && COLOR_TILE_ICONS[i] >= iconCount);
    assert intended == COLOR_TILE_ICONS;
    assert asWritten.value == COLOR_TILE_ICONS;
  }

  // ---------------------------------------------------------------------
  // Radii and tints
  // ---------------------------------------------------------------------

  /** useRoundedQSB. */
  predicate UseRoundedQsb(cornerRadius: int, roundCornerThreshold: int) {
    cornerRadius >= roundCornerThreshold
  }

  /** setQsbRadius: the eight corner radii given to the search bar's
      background, or None when the bar is absent, not visible or its
      background is not a gradient. The radius is half the bar's height when
      the corner radius reaches the threshold, the corner radius otherwise. */
  function SetQsbRadius(present: bool, visible: bool, gradient: bool,
                        cornerRadius: int, roundCornerThreshold: int, height: int): (radii: Option<seq<real>>)
    ensures radii.Some? <==> present && visible && gradient
    ensures radii.Some? ==> |radii.value| == 8 && forall i :: 0 <= i < 8 ==> radii.value[i] == radii.value[0]
    ensures radii.Some? && UseRoundedQsb(cornerRadius, roundCornerThreshold) ==> radii.value[0] * 2.0 == height as real
    ensures radii.Some? && !UseRoundedQsb(cornerRadius, roundCornerThreshold) ==> radii.value[0] == cornerRadius as real
  {
    if present && visible && gradient then
      var radius := if UseRoundedQsb(cornerRadius, roundCornerThreshold) then height as real / 2.0 else cornerRadius as real;
      Some([radius, radius, radius, radius, radius, radius, radius, radius])
    else None
  }

  /** The view states a tint list entry tests. */
  datatype ViewState = ViewState(selected: bool, checked: bool, enabled: bool)

  /** One state spec of a ColorStateList: a single attribute required on or
      (negated) required off. */
  datatype StateSpec = SelectedOn | CheckedOn | EnabledOff

  predicate SpecMatches(spec: StateSpec, s: ViewState) {
    match spec
    case SelectedOn => s.selected
    case CheckedOn => s.checked
    case EnabledOff => !s.enabled
  }

  /** getColorStateList: selected, then checked, then not enabled. */
  function GetColorStateList(accentColor: int, controlGreyColor: int): (list: seq<(StateSpec, int)>)
    ensures |list| == 3 && list[0].0 == SelectedOn && list[1].0 == CheckedOn && list[2].0 == EnabledOff
    ensures forall i :: 0 <= i < |list| ==> list[i].1 == (if list[i].0 == EnabledOff then controlGreyColor else accentColor)
  {
    [(SelectedOn, accentColor), (CheckedOn, accentColor), (EnabledOff, controlGreyColor)]
  }

  /** `ColorStateList.getColorForState`: the colour of the first matching
      spec; with no match, the list's default, which for a list without an
      empty spec is its first colour. */
  function ColorForState(list: seq<(StateSpec, int)>, s: ViewState, default: int): (c: int)
    ensures (exists i :: 0 <= i < |list| && SpecMatches(list[i].0, s)) ==>
      exists i :: 0 <= i < |list| && SpecMatches(list[i].0, s) && c == list[i].1 &&
                  (forall j :: 0 <= j < i ==> !SpecMatches(list[j].0, s))
    ensures (forall i :: 0 <= i < |list| ==> !SpecMatches(list[i].0, s)) ==> c == default
  {
    if |list| == 0 then default
    else if SpecMatches(list[0].0, s) then list[0].1
    else
      var c := ColorForState(list[1..], s, default);
      assert forall i :: 1 <= i < |list| ==> list[i] == list[1..][i - 1];
      c
  }

  /** The preview's buttons: a selected or checked button takes the accent
      colour even when disabled; an unselected, unchecked, disabled one is
      grey; any other takes the list's first colour, the accent. */
  lemma TintFollowsState(accentColor: int, controlGreyColor: int, s: ViewState)
    ensures var list := GetColorStateList(accentColor, controlGreyColor);
      ColorForState(list, s, list[0].1) == (if s.selected || s.checked || s.enabled then accentColor else controlGreyColor)
  {
    var list := GetColorStateList(accentColor, controlGreyColor);
    assert list[1..][1..] == [list[2]];
    assert list[1..][1..][1..] == [];
  }
}
