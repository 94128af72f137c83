/** The decision rules of the colour section controller: how the loaded colour
    options are split into the wallpaper and preset lists, how each list is cut
    into pages, which option starts selected, which tab opens, how often a colour
    may be applied, and which analytics action an apply reports. */
module ColorSection {
  import opened Common

  /** The value of `ColorOption.getSource()`. */
  datatype ColorSource = Preset | Home | Lock | OtherSource

  /** The runtime class of a loaded option. */
  datatype OptionKind =
    | Seed(seedSource: ColorSource)      // ColorSeedOption: colours taken from a wallpaper
    | Bundle                             // ColorBundle: a preset; its source is always PRESET
    | OtherKind(otherSource: ColorSource)

  /** A colour option; `active` is the manager's `isActive` answer for it. */
  datatype ColorOption = ColorOption(kind: OptionKind, active: bool, id: int) {
    function Source(): ColorSource {
      match kind
      case Seed(s) => s
      case Bundle => Preset
      case OtherKind(s) => s
    }
  }

  const MIN_COLOR_APPLY_PERIOD: int := 500
  const WALLPAPER_TAB_INDEX: int := 0
  const PRESET_TAB_INDEX: int := 1
  const KEY_COLOR_TAB_POSITION: string := "COLOR_TAB_POSITION"

  // ---------------------------------------------------------------------------
  // Pages

  /** `(int) Math.ceil((float) total / perPage)`, on integers. For a positive
      page size this is the ceiling (see NumPagesIsCeiling); a zero page size
      divides to NaN (no options) or +Infinity, which the cast turns into 0 or
      Integer.MAX_VALUE; a negative one rounds the negative quotient up. */
  function NumPages(perPage: int, total: nat): (pages: int)
    ensures perPage > 0 ==> pages >= 0
    ensures perPage == 0 ==> pages == (if total == 0 then 0 else INT_MAX)
    ensures perPage < 0 ==> pages <= 0
  {
    if perPage > 0 then (total + perPage - 1) / perPage
    else if perPage == 0 then (if total == 0 then 0 else INT_MAX)
    else -(total / -perPage)
  }

  /** For a positive page size the page count is the least count of full pages
      that holds every option, and no options means no pages. */
  lemma NumPagesIsCeiling(perPage: int, total: nat)
    requires perPage > 0
    ensures NumPages(perPage, total) * perPage >= total
    ensures NumPages(perPage, total) == 0 || (NumPages(perPage, total) - 1) * perPage < total
    ensures NumPages(perPage, total) == 0 <==> total == 0
  {
  }

  /** The options shown on page `index` (the `subList` of setupColorOptions).
      The source's `subList` throws unless the page starts inside the list. */
  function PageSlice<T>(options: seq<T>, perPage: nat, index: nat): (page: seq<T>)
    requires perPage * index <= |options|
    ensures |page| == Min(perPage, |options| - perPage * index)
    ensures forall j :: 0 <= j < |page| ==> page[j] == options[perPage * index + j]
  {
    assert perPage * (index + 1) == perPage * index + perPage;
    options[perPage * index .. Min(perPage * (index + 1), |options|)]
  }

  /** What one page of the pager binds: nothing for an empty list, otherwise
      either that page's slice (paging on) or the whole list (paging off). */
  datatype PageContent<T> = NothingSetUp | Shows(shown: seq<T>)

  function SetupColorOptions<T>(options: seq<T>, paged: bool, index: nat, perPage: nat): (r: PageContent<T>)
    requires paged && |options| > 0 ==> perPage * index <= |options|
    ensures r.NothingSetUp? <==> |options| == 0
    ensures r.Shows? && !paged ==> r.shown == options
    ensures r.Shows? && paged ==> |r.shown| == Min(perPage, |options| - perPage * index)
    ensures r.Shows? && paged ==> forall j :: 0 <= j < |r.shown| ==> r.shown[j] == options[perPage * index + j]
  {
    if |options| == 0 then NothingSetUp
    else if paged then Shows(PageSlice(options, perPage, index))
    else Shows(options)
  }

  /** Pages 0 .. k-1 laid end to end, each clamped to the list. */
  function PagesUpTo<T>(options: seq<T>, perPage: nat, k: nat): seq<T>
  {
    if k == 0 then []
    else
      assert perPage * (k - 1) <= perPage * k by { assert perPage * k == perPage * (k - 1) + perPage; }
      PagesUpTo(options, perPage, k - 1) + options[Min(perPage * (k - 1), |options|) .. Min(perPage * k, |options|)]
  }

  lemma {:induction false} PagesUpToIsPrefix<T>(options: seq<T>, perPage: nat, k: nat)
    ensures PagesUpTo(options, perPage, k) == options[..Min(perPage * k, |options|)]
  {
    if k > 0 {
      PagesUpToIsPrefix(options, perPage, k - 1);
      assert perPage * k == perPage * (k - 1) + perPage;
      var a := Min(perPage * (k - 1), |options|);
      var b := Min(perPage * k, |options|);
      assert options[..a] + options[a..b] == options[..b];
    }
  }

  /** Adding a page that starts inside the list appends exactly the slice the
      pager binds for it. */
  lemma PagesUpToStep<T>(options: seq<T>, perPage: nat, k: nat)
    requires perPage * k <= |options|
    ensures PagesUpTo(options, perPage, k + 1) == PagesUpTo(options, perPage, k) + PageSlice(options, perPage, k)
  {
  }

  /** With a positive page size, every page the indicator counts starts
      inside the list, so its slice can be taken. */
  lemma PageStartsInList(total: nat, perPage: nat, i: nat)
    requires perPage > 0 && i < NumPages(perPage, total)
    ensures perPage * i < total
  {
    NumPagesIsCeiling(perPage, total);
    MulMonotone(perPage, i, NumPages(perPage, total) - 1);
  }

  /** The pages the indicator counts, laid end to end, are exactly the option
      list in order. */
  lemma PagesCoverOptions<T>(options: seq<T>, perPage: nat)
    requires perPage > 0
    ensures PagesUpTo(options, perPage, NumPages(perPage, |options|)) == options
  {
    NumPagesIsCeiling(perPage, |options|);
    PagesUpToIsPrefix(options, perPage, NumPages(perPage, |options|));
  }

  lemma MulMonotone(p: nat, a: nat, b: nat)
    requires a <= b
    ensures p * a <= p * b
  {
  }

  // ---------------------------------------------------------------------------
  // The page holding the selected option

  /** `List.indexOf`: the first position of `x`, or -1. */
  function IndexOf<T(==)>(s: seq<T>, x: T): (i: int)
    ensures -1 <= i < |s|
    ensures i == -1 <==> x !in s
    ensures i >= 0 ==> s[i] == x && forall j :: 0 <= j < i ==> s[j] != x
  {
    if |s| == 0 then -1
    else if s[0] == x then 0
    else
      var k := IndexOf(s[1..], x);
      if k < 0 then -1 else k + 1
  }

  /** The page the pager jumps to so that the selected option is visible;
      None when the option is not in this list or the page size is zero.
      (The index is never negative, where Java's truncating division and
      Dafny's Euclidean one agree.) */
  function PageToShow<T(==)>(options: seq<T>, selected: T, perPage: nat): (page: Option<int>)
    ensures page.Some? <==> selected in options && perPage != 0
  {
    var selectedIndex := IndexOf(options, selected);
    if selectedIndex >= 0 && perPage != 0 then Some(selectedIndex / perPage) else None
  }

  /** The page jumped to exists and its slice shows the selected option. */
  lemma SelectedPageHoldsSelection<T>(options: seq<T>, selected: T, perPage: nat, page: int)
    requires PageToShow(options, selected, perPage) == Some(page)
    ensures 0 <= page < NumPages(perPage, |options|)
    ensures perPage * page <= |options|
    ensures selected in PageSlice(options, perPage, page)
  {
    var k := IndexOf(options, selected);
    var n := NumPages(perPage, |options|);
    NumPagesIsCeiling(perPage, |options|);
    assert k == page * perPage + k % perPage;
    assert perPage * page <= k;
    if page >= n {
      MulMonotone(perPage, n, page);
      assert false;
    }
    var slice := PageSlice(options, perPage, page);
    assert k - perPage * page < perPage;
    assert slice[k - perPage * page] == options[k];
  }

  // ---------------------------------------------------------------------------
  // Loading: splitting the options into the two tabs

  /** The wallpaper-colour options of `s`, in order. */
  function Seeds(s: seq<ColorOption>): (r: seq<ColorOption>)
    ensures forall o :: o in r <==> o in s && o.kind.Seed?
  {
    if |s| == 0 then []
    else
      assert s == s[..|s| - 1] + [s[|s| - 1]];
      Seeds(s[..|s| - 1]) + (if s[|s| - 1].kind.Seed? then [s[|s| - 1]] else [])
  }

  /** The preset options of `s`, in order. */
  function Bundles(s: seq<ColorOption>): (r: seq<ColorOption>)
    ensures forall o :: o in r <==> o in s && o.kind.Bundle?
  {
    if |s| == 0 then []
    else
      assert s == s[..|s| - 1] + [s[|s| - 1]];
      Bundles(s[..|s| - 1]) + (if s[|s| - 1].kind.Bundle? then [s[|s| - 1]] else [])
  }

  /** The split keeps input order: the wallpaper list of a concatenation is
      the concatenation of the parts' wallpaper lists. */
  lemma {:induction false} SeedsKeepOrder(a: seq<ColorOption>, b: seq<ColorOption>)
    ensures Seeds(a + b) == Seeds(a) + Seeds(b)
    decreases |b|
  {
    if |b| == 0 {
      assert a + b == a;
    } else {
      var init, last := b[..|b| - 1], b[|b| - 1];
      SeedsKeepOrder(a, init);
      assert b == init + [last];
      assert a + b == (a + init) + [last];
      SplitAppend(a + init, last);
      SplitAppend(init, last);
    }
  }

  /** The same for the preset list. */
  lemma {:induction false} BundlesKeepOrder(a: seq<ColorOption>, b: seq<ColorOption>)
    ensures Bundles(a + b) == Bundles(a) + Bundles(b)
    decreases |b|
  {
    if |b| == 0 {
      assert a + b == a;
    } else {
      var init, last := b[..|b| - 1], b[|b| - 1];
      BundlesKeepOrder(a, init);
      assert b == init + [last];
      assert a + b == (a + init) + [last];
      SplitAppend(a + init, last);
      SplitAppend(init, last);
    }
  }

  /** One more option extends the list of its class and leaves the other. */
  lemma SplitAppend(s: seq<ColorOption>, o: ColorOption)
    ensures Seeds(s + [o]) == Seeds(s) + (if o.kind.Seed? then [o] else [])
    ensures Bundles(s + [o]) == Bundles(s) + (if o.kind.Bundle? then [o] else [])
  {
    assert (s + [o])[..|s|] == s;
  }

  /** Each seed option is kept as often as it occurs in the input, and each
      bundle likewise; nothing of the other class is kept. */
  lemma {:induction false} SplitKeepsMultiplicity(s: seq<ColorOption>, o: ColorOption)
    ensures multiset(Seeds(s))[o] == (if o.kind.Seed? then multiset(s)[o] else 0)
    ensures multiset(Bundles(s))[o] == (if o.kind.Bundle? then multiset(s)[o] else 0)
  {
    if |s| > 0 {
      var init := s[..|s| - 1];
      SplitKeepsMultiplicity(init, o);
      assert s == init + [s[|s| - 1]];
      assert multiset(s) == multiset(init) + multiset{s[|s| - 1]};
    }
  }

  /** onOptionsLoaded: both lists start empty; each seed option goes to the
      wallpaper list, each bundle to the preset list, anything else is dropped. */
  method LoadColorOptions(options: seq<ColorOption>) returns (wallpaper: seq<ColorOption>, preset: seq<ColorOption>)
    ensures wallpaper == Seeds(options)
    ensures preset == Bundles(options)
  {
    wallpaper, preset := [], [];
    var i := 0;
    while i < |options|
      invariant 0 <= i <= |options|
      invariant wallpaper == Seeds(options[..i])
      invariant preset == Bundles(options[..i])
    {
      var option := options[i];
      assert options[..i + 1][..i] == options[..i];
      if option.kind.Seed? {
        wallpaper := wallpaper + [option];
      } else if option.kind.Bundle? {
        preset := preset + [option];
      }
      i := i + 1;
    }
    assert options[..i] == options;
  }

  /** Nothing but the options of neither class is lost by the split. */
  lemma {:induction false} SplitLosesOnlyOthers(s: seq<ColorOption>)
    ensures |Seeds(s)| + |Bundles(s)| <= |s|
    ensures |Seeds(s)| + |Bundles(s)| == |s| <==> forall o :: o in s ==> o.kind.Seed? || o.kind.Bundle?
  {
    if |s| > 0 {
      var init := s[..|s| - 1];
      SplitLosesOnlyOthers(init);
      assert s == init + [s[|s| - 1]];
      assert forall o :: o in s <==> o in init || o == s[|s| - 1];
    }
  }

  // ---------------------------------------------------------------------------
  // The option that starts selected

  /** findActiveColorOption: the first active option, wallpaper list first;
      failing that the first wallpaper option, else the first preset. With no
      option at all the source's `get(0)` throws: None. */
  method FindActiveColorOption(wallpaper: seq<ColorOption>, preset: seq<ColorOption>) returns (r: Option<ColorOption>)
    ensures r.None? <==> |wallpaper| + |preset| == 0
    ensures r.Some? ==> r.value in wallpaper + preset
    ensures (exists o :: o in wallpaper + preset && o.active) ==>
      r.Some? && (exists i :: 0 <= i < |wallpaper + preset| && (wallpaper + preset)[i] == r.value && r.value.active &&
                              forall j :: 0 <= j < i ==> !(wallpaper + preset)[j].active)
    ensures (forall o :: o in wallpaper + preset ==> !o.active) && |wallpaper| + |preset| > 0 ==>
      r == Some(if |wallpaper| > 0 then wallpaper[0] else preset[0])
  {
    var all := wallpaper + preset;
    var i := 0;
    while i < |all|
      invariant 0 <= i <= |all|
      invariant forall j :: 0 <= j < i ==> !all[j].active
    {
      if all[i].active {
        return Some(all[i]);
      }
      i := i + 1;
    }
    if |wallpaper| == 0 && |preset| == 0 {
      return None;
    }
    r := Some(if |wallpaper| == 0 then preset[0] else wallpaper[0]);
  }

  // ---------------------------------------------------------------------------
  // The tab that opens

  datatype TabState = TabState(tabCount: nat, current: int, wallpaperTabEnabled: bool)

  /** onSaveInstanceState: the pager's current tab, when there is a pager. */
  function SaveTabPosition(pagerCurrent: Option<int>): (saved: map<string, int>)
    ensures pagerCurrent.Some? <==> KEY_COLOR_TAB_POSITION in saved
  {
    if pagerCurrent.Some? then map[KEY_COLOR_TAB_POSITION := pagerCurrent.value] else map[]
  }

  /** The constructor: the tab to restore, when the saved state holds one. */
  function RestoreTabPosition(savedInstanceState: Option<map<string, int>>): (restore: Option<int>)
    ensures restore.Some? <==> savedInstanceState.Some? && KEY_COLOR_TAB_POSITION in savedInstanceState.value
  {
    if savedInstanceState.Some? && KEY_COLOR_TAB_POSITION in savedInstanceState.value
    then Some(savedInstanceState.value[KEY_COLOR_TAB_POSITION])
    else None
  }

  /** setUpColorViewPager: the two tabs are added once; an empty wallpaper list
      forces the preset tab and disables the wallpaper tab; otherwise the saved
      tab wins, and failing that the preset tab is chosen exactly when the
      current colour source is the preset one. */
  function SetUpColorViewPager(s: TabState, wallpaperCount: nat, restore: Option<int>, currentSource: ColorSource): (t: TabState)
    ensures t.tabCount == (if s.tabCount == 0 then 2 else s.tabCount)
    ensures wallpaperCount == 0 ==> t.current == PRESET_TAB_INDEX && !t.wallpaperTabEnabled
    ensures wallpaperCount > 0 ==> t.wallpaperTabEnabled == s.wallpaperTabEnabled
    ensures wallpaperCount > 0 && restore.Some? ==> t.current == restore.value
    ensures wallpaperCount > 0 && restore.None? ==>
      t.current in {WALLPAPER_TAB_INDEX, PRESET_TAB_INDEX} && (t.current == PRESET_TAB_INDEX <==> currentSource == Preset)
  {
    var tabCount := if s.tabCount == 0 then 2 else s.tabCount;
    if wallpaperCount == 0 then
      TabState(tabCount, PRESET_TAB_INDEX, false)
    else
      TabState(tabCount, restore.GetOr(if currentSource == Preset then PRESET_TAB_INDEX else WALLPAPER_TAB_INDEX),
               s.wallpaperTabEnabled)
  }

  /** A tab saved before a configuration change is the tab shown after it,
      unless the wallpaper list has become empty. */
  lemma SavedTabIsRestored(s: TabState, current: int, wallpaperCount: nat, source: ColorSource)
    ensures var t := SetUpColorViewPager(s, wallpaperCount, RestoreTabPosition(Some(SaveTabPosition(Some(current)))), source);
      t.current == (if wallpaperCount == 0 then PRESET_TAB_INDEX else current)
  {
  }

  // ---------------------------------------------------------------------------
  // Applying a colour

  /** The time of the last accepted apply; it starts at 0. */
  datatype Throttle = Throttle(lastApply: int)

  /** applyColor: a request less than 500 ms after the last accepted one is
      dropped and changes nothing; an accepted one records its time. */
  function TryApply(t: Throttle, now: int): (r: (bool, Throttle))
    ensures r.0 <==> now - t.lastApply >= MIN_COLOR_APPLY_PERIOD
    ensures r.0 ==> r.1.lastApply == now
    ensures !r.0 ==> r.1 == t
  {
    if now - t.lastApply < MIN_COLOR_APPLY_PERIOD then (false, t)
    else (true, Throttle(now))
  }

  /** The times of the requests that get through, for requests at `times`. */
  function Accepted(t: Throttle, times: seq<int>): seq<int>
    decreases |times|
  {
    if |times| == 0 then []
    else
      var (ok, t') := TryApply(t, times[0]);
      (if ok then [times[0]] else []) + Accepted(t', times[1..])
  }

  /** Whatever the request times, accepted applies are at least 500 ms apart,
      and the first is at least 500 ms after the throttle's last apply. */
  lemma {:induction false} AcceptedAreSpaced(t: Throttle, times: seq<int>)
    ensures var acc := Accepted(t, times);
      (|acc| > 0 ==> acc[0] - t.lastApply >= MIN_COLOR_APPLY_PERIOD) &&
      forall k :: 0 <= k < |acc| - 1 ==> acc[k + 1] - acc[k] >= MIN_COLOR_APPLY_PERIOD
    decreases |times|
  {
    if |times| > 0 {
      var (ok, t') := TryApply(t, times[0]);
      AcceptedAreSpaced(t', times[1..]);
      var rest := Accepted(t', times[1..]);
      if ok {
        assert Accepted(t, times) == [times[0]] + rest;
      } else {
        assert Accepted(t, times) == rest;
      }
    }
  }

  /** The analytics action of an applied option (StyleEnums). */
  datatype ColorAction = DefaultAction | PresetApplied | HomeLockApplied | HomeApplied | LockApplied

  /** getColorAction: a preset is a preset whatever the wallpapers; otherwise
      colours count for both screens when there are no lock colours or they
      equal the home ones; otherwise the option's own screen decides. */
  function GetColorAction(source: ColorSource, home: Option<WallpaperColors>, lock: Option<WallpaperColors>): (r: ColorAction)
    ensures source == Preset ==> r == PresetApplied
    ensures r == HomeLockApplied <==> source != Preset && (lock.None? || lock == home)
    ensures r == HomeApplied <==> source == Home && lock.Some? && lock != home
    ensures r == LockApplied <==> source == Lock && lock.Some? && lock != home
    ensures r == DefaultAction <==> source == OtherSource && lock.Some? && lock != home
  {
    var isForBoth := lock.None? || lock == home;
    if source == Preset then PresetApplied
    else if isForBoth then HomeLockApplied
    else match source
      case Home => HomeApplied
      case Lock => LockApplied
      case _ => DefaultAction
  }

  /** A bundle reports a preset apply whatever the wallpaper colours. */
  lemma BundleApplyIsPreset(o: ColorOption, home: Option<WallpaperColors>, lock: Option<WallpaperColors>)
    requires o.kind.Bundle?
    ensures GetColorAction(o.Source(), home, lock) == PresetApplied
  {
  }
}
