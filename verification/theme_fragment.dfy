/** ThemeFragment: which theme bundle the theme picker selects, what it saves
    across recreation, and how it reacts to results from the activities it
    starts. The theme manager's `isActive` answer is captured on each bundle;
    the option list, the bottom action bar and the activity are left to the
    caller, which receives the decision as a value. */
module ThemeFragment {
  import opened Common

  const FULL_PREVIEW_REQUEST_CODE: int := 1000
  /** `android.app.Activity.RESULT_OK`. */
  const RESULT_OK: int := -1

  datatype ThemeKind = Custom(defined: bool) | Plain

  /** A theme bundle: title, serialized overlay packages, whether the manager
      reports it active, and whether it is a (possibly undefined) custom theme. */
  datatype Theme = Theme(title: string, serializedPackages: string, active: bool, kind: ThemeKind)

  /** The request and result codes of the custom-theme activity. */
  datatype CustomThemeCodes = CustomThemeCodes(request: int, deleted: int, applied: int)

  // ---------------------------------------------------------------------
  // The selection scan of setUpOptions and reloadOptions
  // ---------------------------------------------------------------------

  /** The theme carries the packages saved before recreation. */
  predicate SavedMatch(saved: Option<string>, t: Theme) {
    saved.Some? && saved.value == t.serializedPackages
  }

  /** The theme ends the scan: it is active and not a saved match. */
  predicate Stops(saved: Option<string>, t: Theme) {
    !SavedMatch(saved, t) && t.active
  }

  /** The scan, front to back: a saved match becomes the selection and the
      scan goes on; the first other active theme becomes the selection and
      ends it. */
  function ScanFrom(current: Option<Theme>, saved: Option<string>, options: seq<Theme>): Option<Theme>
    decreases |options|
  {
    if |options| == 0 then current
    else if SavedMatch(saved, options[0]) then ScanFrom(Some(options[0]), saved, options[1..])
    else if options[0].active then Some(options[0])
    else ScanFrom(current, saved, options[1..])
  }

  /** The loop of setUpOptions (and, with no saved string, of reloadOptions),
      starting from the fragment's current selection. */
  method Scan(current: Option<Theme>, saved: Option<string>, options: seq<Theme>) returns (selected: Option<Theme>)
    ensures selected == ScanFrom(current, saved, options)
  {
    selected := current;
    var i := 0;
    while i < |options|
      invariant 0 <= i <= |options|
      invariant ScanFrom(selected, saved, options[i..]) == ScanFrom(current, saved, options)
    {
      var theme := options[i];
      if SavedMatch(saved, theme) {
        selected := Some(theme);
      } else if theme.active {
        selected := Some(theme);
        break;
      }
      i := i + 1;
    }
  }

  /** The first stopping theme is what the scan picks, even over an
      earlier saved match. */
  lemma {:induction false} ScanStopsAtFirstActive(current: Option<Theme>, saved: Option<string>, options: seq<Theme>, i: nat)
    requires i < |options| && Stops(saved, options[i])
    requires forall j :: 0 <= j < i ==> !Stops(saved, options[j])
    ensures ScanFrom(current, saved, options) == Some(options[i])
    decreases i
  {
    if i > 0 {
      var rest := options[1..];
      assert !Stops(saved, options[0]);
      assert forall j :: 0 <= j < |rest| ==> rest[j] == options[j + 1];
      var next := if SavedMatch(saved, options[0]) then Some(options[0]) else current;
      ScanStopsAtFirstActive(next, saved, rest, i - 1);
    }
  }

  /** With no stopping theme, the last saved match is what the scan picks. */
  lemma {:induction false} ScanKeepsLastSaved(current: Option<Theme>, saved: Option<string>, options: seq<Theme>, i: nat)
    requires forall j :: 0 <= j < |options| ==> !Stops(saved, options[j])
    requires i < |options| && SavedMatch(saved, options[i])
    requires forall j :: i < j < |options| ==> !SavedMatch(saved, options[j])
    ensures ScanFrom(current, saved, options) == Some(options[i])
    decreases i
  {
    var rest := options[1..];
    assert forall j :: 0 <= j < |rest| ==> rest[j] == options[j + 1];
    if i == 0 {
      NoMatchKeepsCurrent(Some(options[0]), saved, rest);
    } else {
      assert !Stops(saved, options[0]);
      var next := if SavedMatch(saved, options[0]) then Some(options[0]) else current;
      ScanKeepsLastSaved(next, saved, rest, i - 1);
    }
  }

  /** With neither a saved match nor a stopping theme the scan keeps what it
      started from. */
  lemma {:induction false} NoMatchKeepsCurrent(current: Option<Theme>, saved: Option<string>, options: seq<Theme>)
    requires forall i :: 0 <= i < |options| ==> !Stops(saved, options[i]) && !SavedMatch(saved, options[i])
    ensures ScanFrom(current, saved, options) == current
  {
    if |options| > 0 {
      assert !Stops(saved, options[0]) && !SavedMatch(saved, options[0]);
      forall i | 0 <= i < |options| - 1
        ensures !Stops(saved, options[1..][i]) && !SavedMatch(saved, options[1..][i])
      {
        assert options[1..][i] == options[i + 1];
      }
      NoMatchKeepsCurrent(current, saved, options[1..]);
    }
  }

  /** reloadOptions: with no saved string the scan selects the first active
      theme, and keeps the starting selection when none is active. */
  lemma ReloadSelectsFirstActive(current: Option<Theme>, options: seq<Theme>, i: nat)
    requires i < |options| && options[i].active && forall j :: 0 <= j < i ==> !options[j].active
    ensures ScanFrom(current, None, options) == Some(options[i])
  {
    ScanStopsAtFirstActive(current, None, options, i);
  }

  /** findDefaultThemeBundle: the first theme whose title is the default
      title, or None. */
  function FindDefaultThemeBundle(options: seq<Theme>, defaultTitle: string): (r: Option<Theme>)
    ensures r.Some? <==> exists i :: 0 <= i < |options| && options[i].title == defaultTitle
    ensures r.Some? ==> r.value.title == defaultTitle
    ensures r.Some? ==> exists i :: 0 <= i < |options| && options[i] == r.value &&
                                    (forall j :: 0 <= j < i ==> options[j].title != defaultTitle)
  {
    if |options| == 0 then None
    else if options[0].title == defaultTitle then Some(options[0])
    else
      var r := FindDefaultThemeBundle(options[1..], defaultTitle);
      assert forall i :: 1 <= i < |options| ==> options[i] == options[1..][i - 1];
      assert r.Some? ==> exists i :: 1 <= i < |options| && options[i] == r.value &&
                                     (forall j :: 0 <= j < i ==> options[j].title != defaultTitle);
      r
  }

  /** What the options-loaded callback ends with: the selected theme and the
      one marked applied. */
  datatype Setup = Setup(selected: Option<Theme>, applied: Option<Theme>)

  /** The callback's tail: a scan result is selected and marked applied; with
      none, the default theme is selected and nothing is marked applied. */
  function FinishSetup(scanned: Option<Theme>, options: seq<Theme>, defaultTitle: string): (s: Setup)
    ensures scanned.Some? ==> s.selected == scanned && s.applied == scanned
    ensures scanned.None? ==> s.selected == FindDefaultThemeBundle(options, defaultTitle) && s.applied.None?
  {
    if scanned.None? then Setup(FindDefaultThemeBundle(options, defaultTitle), None)
    else Setup(scanned, scanned)
  }

  /** setUpOptions after the fetch: scan from the current selection with the
      saved string, then fall back to the default theme. The first active
      theme that is not a saved match is selected and marked applied. */
  method SetUpOptions(current: Option<Theme>, saved: Option<string>, options: seq<Theme>, defaultTitle: string)
    returns (s: Setup)
    ensures s == FinishSetup(ScanFrom(current, saved, options), options, defaultTitle)
    ensures s.applied.Some? ==> s.applied == s.selected
    ensures s.applied.None? ==> s.selected == FindDefaultThemeBundle(options, defaultTitle)
    ensures current.None? && s.selected.Some? ==> s.selected.value in options
    ensures forall i :: 0 <= i < |options| && Stops(saved, options[i]) &&
                        (forall j :: 0 <= j < i ==> !Stops(saved, options[j])) ==>
      s == Setup(Some(options[i]), Some(options[i]))
  {
    var scanned := Scan(current, saved, options);
    ScanStaysInList(current, saved, options);
    forall i | 0 <= i < |options| && Stops(saved, options[i]) && (forall j :: 0 <= j < i ==> !Stops(saved, options[j]))
      ensures scanned == Some(options[i])
    {
      ScanStopsAtFirstActive(current, saved, options, i);
    }
    s := FinishSetup(scanned, options, defaultTitle);
  }

  /** reloadOptions after the fetch: the same without a saved string, so the
      first active theme is selected and marked applied. */
  method ReloadOptions(current: Option<Theme>, options: seq<Theme>, defaultTitle: string) returns (s: Setup)
    ensures s == FinishSetup(ScanFrom(current, None, options), options, defaultTitle)
    ensures forall i :: 0 <= i < |options| && options[i].active && (forall j :: 0 <= j < i ==> !options[j].active) ==>
      s == Setup(Some(options[i]), Some(options[i]))
    ensures (exists i :: 0 <= i < |options| && options[i].active) ==> s.selected.Some? && s.selected.value.active
    ensures current.None? && (forall i :: 0 <= i < |options| ==> !options[i].active) ==>
      s.selected == FindDefaultThemeBundle(options, defaultTitle) && s.applied.None?
  {
    var scanned := Scan(current, None, options);
    ReloadFindsActive(current, options);
    forall i | 0 <= i < |options| && options[i].active && (forall j :: 0 <= j < i ==> !options[j].active)
      ensures scanned == Some(options[i])
    {
      ReloadSelectsFirstActive(current, options, i);
    }
    s := FinishSetup(scanned, options, defaultTitle);
  }

  /** Each scan result is either the start or a theme of the list. */
  lemma {:induction false} ScanStaysInList(current: Option<Theme>, saved: Option<string>, options: seq<Theme>)
    decreases |options|
    ensures ScanFrom(current, saved, options) == current ||
      (ScanFrom(current, saved, options).Some? && ScanFrom(current, saved, options).value in options)
  {
    if |options| > 0 {
      ScanStaysInList(current, saved, options[1..]);
      ScanStaysInList(Some(options[0]), saved, options[1..]);
    }
  }

  /** Without a saved string, an active theme in the list is always found,
      and with none the start is kept. */
  lemma {:induction false} ReloadFindsActive(current: Option<Theme>, options: seq<Theme>)
    ensures (exists i :: 0 <= i < |options| && options[i].active) ==>
      ScanFrom(current, None, options).Some? && ScanFrom(current, None, options).value.active
    ensures (forall i :: 0 <= i < |options| ==> !options[i].active) ==> ScanFrom(current, None, options) == current
  {
    if |options| > 0 {
      ReloadFindsActive(current, options[1..]);
      if !options[0].active {
        assert forall i :: 1 <= i < |options| ==> options[i] == options[1..][i - 1];
      }
    }
  }

  // ---------------------------------------------------------------------
  // Saved state
  // ---------------------------------------------------------------------

  /** onSaveInstanceState: the selected theme's packages are saved only when
      a theme is selected and it is not the active one. */
  function SavedState(selected: Option<Theme>): (saved: Option<string>)
    ensures saved.Some? <==> selected.Some? && !selected.value.active
    ensures saved.Some? ==> saved.value == selected.value.serializedPackages
  {
    if selected.Some? && !selected.value.active then Some(selected.value.serializedPackages) else None
  }

  /** The saved selection comes back after recreation when no theme is active
      and no other theme carries the same packages. */
  lemma SavedSelectionRestored(t: Theme, options: seq<Theme>, current: Option<Theme>)
    requires t in options && !t.active
    requires forall i :: 0 <= i < |options| ==> !options[i].active
    requires forall i :: 0 <= i < |options| && options[i].serializedPackages == t.serializedPackages ==> options[i] == t
    ensures ScanFrom(current, SavedState(Some(t)), options) == Some(t)
  {
    var saved := SavedState(Some(t));
    var k := LastIndexOf(options, t);
    ScanKeepsLastSaved(current, saved, options, k);
  }

  /** The last position of a list member. */
  function LastIndexOf(options: seq<Theme>, t: Theme): (k: nat)
    requires t in options
    ensures k < |options| && options[k] == t
    ensures forall j :: k < j < |options| ==> options[j] != t
  {
    if options[|options| - 1] == t then |options| - 1
    else LastIndexOf(options[..|options| - 1], t)
  }

  /** But an active theme with other packages anywhere in the list wins over
      the saved selection, since the scan stops at it. */
  lemma ActiveThemeOverridesSaved(t: Theme, options: seq<Theme>, current: Option<Theme>, k: nat)
    requires !t.active && k < |options| && options[k].active
    requires options[k].serializedPackages != t.serializedPackages
    ensures ScanFrom(current, SavedState(Some(t)), options) != Some(t)
  {
    var saved := SavedState(Some(t));
    var s := FirstStop(saved, options, k);
    ScanStopsAtFirstActive(current, saved, options, s);
  }

  /** The first stopping position, given that `k` stops. */
  function FirstStop(saved: Option<string>, options: seq<Theme>, k: nat): (s: nat)
    requires k < |options| && Stops(saved, options[k])
    ensures s <= k && Stops(saved, options[s])
    ensures forall j :: 0 <= j < s ==> !Stops(saved, options[j])
  {
    if exists j :: 0 <= j < k && Stops(saved, options[j]) then
      var j :| 0 <= j < k && Stops(saved, options[j]);
      FirstStop(saved, options, j)
    else k
  }

  // ---------------------------------------------------------------------
  // Activity results and option clicks
  // ---------------------------------------------------------------------

  /** What onActivityResult sets off. */
  datatype ResultEffect =
    | ReloadThemes           // reloadOptions()
    | FinishActivity         // getActivity().finish()
    | Reselect(theme: Theme) // setSelectedOption, then hide the action bar
    | ApplyTheme             // applyTheme()
    | NoEffect

  /** onActivityResult: the new selection and the effect. */
  function OnActivityResult(selected: Option<Theme>, codes: CustomThemeCodes, requestCode: int, resultCode: int)
    : (r: (Option<Theme>, ResultEffect))
    ensures requestCode == codes.request && resultCode == codes.deleted ==> r == (None, ReloadThemes)
    ensures requestCode == codes.request && resultCode != codes.deleted && resultCode == codes.applied ==>
      r == (selected, FinishActivity)
    ensures requestCode == codes.request && resultCode != codes.deleted && resultCode != codes.applied ==>
      r.0 == selected && (if selected.Some? then r.1 == Reselect(selected.value) else r.1 == ReloadThemes)
    ensures requestCode != codes.request ==> r.0 == selected
    ensures requestCode != codes.request ==>
      (r.1 == ApplyTheme <==> requestCode == FULL_PREVIEW_REQUEST_CODE && resultCode == RESULT_OK)
    ensures requestCode != codes.request ==> r.1 == ApplyTheme || r.1 == NoEffect
  {
    if requestCode == codes.request then
      if resultCode == codes.deleted then (None, ReloadThemes)
      else if resultCode == codes.applied then (selected, FinishActivity)
      else if selected.Some? then (selected, Reselect(selected.value))
      else (selected, ReloadThemes)
    else if requestCode == FULL_PREVIEW_REQUEST_CODE && resultCode == RESULT_OK then (selected, ApplyTheme)
    else (selected, NoEffect)
  }

  /** reloadOptions is only ever started with no current selection, so its
      scan cannot keep a stale theme. */
  lemma ReloadStartsUnselected(selected: Option<Theme>, codes: CustomThemeCodes, requestCode: int, resultCode: int)
    ensures OnActivityResult(selected, codes, requestCode, resultCode).1 == ReloadThemes ==>
      OnActivityResult(selected, codes, requestCode, resultCode).0.None?
  {
  }

  /** The bottom action bar's buttons. */
  datatype BarAction = Information | Customize | Apply

  datatype SelectEffect = NavigateToCustomTheme(theme: Theme) | ShowActions(actions: set<BarAction>)

  /** The option listener: an undefined custom theme opens the custom-theme
      editor and leaves the selection alone; any other theme becomes the
      selection, with CUSTOMIZE offered only for custom themes. */
  function OnOptionSelected(selected: Option<Theme>, picked: Theme): (r: (Option<Theme>, SelectEffect))
    ensures picked.kind.Custom? && !picked.kind.defined ==> r == (selected, NavigateToCustomTheme(picked))
    ensures !(picked.kind.Custom? && !picked.kind.defined) ==> r.0 == Some(picked) && r.1.ShowActions?
    ensures r.1.ShowActions? ==> Information in r.1.actions && Apply in r.1.actions
    ensures r.1.ShowActions? ==> (Customize in r.1.actions <==> picked.kind.Custom?)
  {
    if picked.kind.Custom? && !picked.kind.defined then (selected, NavigateToCustomTheme(picked))
    else if picked.kind.Custom? then (Some(picked), ShowActions({Information, Customize, Apply}))
    else (Some(picked), ShowActions({Information, Apply}))
  }

  /** onCustomizeClicked: only a selected custom theme opens the editor. */
  function OnCustomizeClicked(selected: Option<Theme>): (target: Option<Theme>)
    ensures target.Some? <==> selected.Some? && selected.value.kind.Custom?
    ensures target.Some? ==> target == selected
  {
    if selected.Some? && selected.value.kind.Custom? then selected else None
  }
}
