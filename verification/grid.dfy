/** GridOptionsManager: the launcher-grid manager's decisions on the provider's
    answers. The provider, the event logger and the background executor are
    outside the model; the manager's outcome is returned as a value. */
module GridOptionsManager {
  import opened Common

  /** A grid option and whether the manager reports it active. */
  datatype GridOption = GridOption(name: string, active: bool)

  /** What `apply` reports back. */
  datatype ApplyOutcome = ApplyOutcome(logged: bool, success: bool)

  /** apply: exactly one updated row is a success and is logged; any other
      count is `onError(null)` and nothing is logged. */
  function Apply(updatedRows: int): (o: ApplyOutcome)
    ensures o.success <==> updatedRows == 1
    ensures o.logged <==> o.success
  {
    if updatedRows == 1 then ApplyOutcome(true, true) else ApplyOutcome(false, false)
  }

  /** What the fetch callback receives. */
  datatype Delivery = NothingDelivered | OptionsLoaded(options: seq<GridOption>) | LoadError

  /** fetchOptions, on the main thread: a null callback receives nothing; a
      non-null, non-empty list is delivered unchanged; a null or empty list is
      `onError(null)`. */
  function FetchDispatch(hasCallback: bool, fetched: Option<seq<GridOption>>): (d: Delivery)
    ensures !hasCallback <==> d.NothingDelivered?
    ensures d.OptionsLoaded? <==> hasCallback && fetched.Some? && |fetched.value| > 0
    ensures d.OptionsLoaded? ==> d.options == fetched.value
  {
    if !hasCallback then NothingDelivered
    else if fetched.Some? && |fetched.value| > 0 then OptionsLoaded(fetched.value)
    else LoadError
  }

  /** A manager instance, identified by the provider it was built over. */
  datatype Manager = Manager(metadataName: string)

  /** getInstance: the static field is filled on the first call and returned
      on every call. Returns the new field value and the instance. */
  function GetInstance(field: Option<Manager>, built: Manager): (r: (Option<Manager>, Manager))
    ensures r.0 == Some(r.1)
    ensures field.Some? ==> r.1 == field.value
    ensures field.None? ==> r.1 == built
  {
    if field.None? then (Some(built), built) else (field, field.value)
  }

  /** Once built, every later call returns the first instance, whatever it
      would have built. */
  lemma GetInstanceIsSingleton(built1: Manager, built2: Manager, built3: Manager)
    ensures var (f1, m1) := GetInstance(None, built1);
      var (f2, m2) := GetInstance(f1, built2);
      var (f3, m3) := GetInstance(f2, built3);
      m1 == m2 == m3 == built1 && f3 == f1
  {
  }
}

/** GridFragment: the grid picker's selection rule and the flag that keeps
    the re-selection after a successful apply from acting like a user click. */
module GridFragment {
  import opened Common
  import opened GridOptionsManager

  const FULL_PREVIEW_REQUEST_CODE: int := 1000
  /** `android.app.Activity.RESULT_OK`. */
  const RESULT_OK: int := -1

  /** The first active option, as a sequential stream's `findAny` finds it. */
  function FindAnyActive(options: seq<GridOption>): (r: Option<GridOption>)
    ensures r.Some? <==> exists i :: 0 <= i < |options| && options[i].active
    ensures r.Some? ==> r.value in options && r.value.active
  {
    if |options| == 0 then None
    else if options[0].active then Some(options[0])
    else
      var r := FindAnyActive(options[1..]);
      assert forall i :: 1 <= i < |options| ==> options[i] == options[1..][i - 1];
      r
  }

  /** getSelectedOption: an active option if there is one, otherwise the
      first. `options.get(0)` is evaluated eagerly, so an empty list throws:
      None. */
  function GetSelectedOption(options: seq<GridOption>): (r: Option<GridOption>)
    ensures r.Some? <==> |options| > 0
    ensures r.Some? ==> r.value in options
    ensures (exists i :: 0 <= i < |options| && options[i].active) ==> r.Some? && r.value.active
    ensures (forall i :: 0 <= i < |options| ==> !options[i].active) && |options| > 0 ==> r == Some(options[0])
  {
    if |options| == 0 then None
    else Some(FindAnyActive(options).GetOr(options[0]))
  }

  /** Whatever the manager delivers to the fragment has a selection. */
  lemma LoadedOptionsHaveSelection(hasCallback: bool, fetched: Option<seq<GridOption>>)
    ensures FetchDispatch(hasCallback, fetched).OptionsLoaded? ==>
      GetSelectedOption(FetchDispatch(hasCallback, fetched).options).Some?
  {
  }

  /** The fragment's state: the shown options, the selection, the reload flag,
      the action bar (actions enabled, bar shown), the option the preview
      shows, and the selections logged so far. */
  datatype GridState = GridState(
    options: seq<GridOption>,
    selected: Option<GridOption>,
    reloadAfterApplying: bool,
    actionsEnabled: bool,
    barShown: bool,
    preview: Option<GridOption>,
    logged: seq<GridOption>)

  /** The option listener: the selection always follows; with the flag set it
      is cleared and nothing else happens; otherwise the bar is shown, the
      selection logged and the preview rebuilt for it. */
  function OnOptionSelected(st: GridState, picked: GridOption): (r: GridState)
    ensures r.selected == Some(picked) && !r.reloadAfterApplying
    ensures st.reloadAfterApplying ==> r == st.(selected := Some(picked), reloadAfterApplying := false)
    ensures !st.reloadAfterApplying ==>
      r == st.(selected := Some(picked), barShown := true, preview := Some(picked), logged := st.logged + [picked])
  {
    if st.reloadAfterApplying then st.(selected := Some(picked), reloadAfterApplying := false)
    else st.(selected := Some(picked), barShown := true, preview := Some(picked), logged := st.logged + [picked])
  }

  /** applyGridOption: the actions are disabled before the manager is asked
      to apply; the option to apply is returned. */
  function ApplyGridOption(st: GridState, option: GridOption): (r: (GridState, GridOption))
    ensures !r.0.actionsEnabled && r.1 == option
    ensures r.0.(actionsEnabled := st.actionsEnabled) == st
  {
    (st.(actionsEnabled := false), option)
  }

  /** The apply callback's success path after the reload: the options are
      replaced, the flag is set, the re-selection fires the listener, and the
      actions are enabled and the bar hidden. So the selection is the reloaded
      list's choice, the flag has been consumed by that one re-selection, and
      neither the log nor the preview took it. */
  function OnApplySuccessReloaded(st: GridState, options: seq<GridOption>): (r: GridState)
    requires |options| > 0
    ensures r.options == options && r.selected == GetSelectedOption(options)
    ensures !r.reloadAfterApplying && r.actionsEnabled && !r.barShown
    ensures r.logged == st.logged && r.preview == st.preview
  {
    var chosen := GetSelectedOption(options).value;
    var flagged := st.(options := options, selected := Some(chosen), reloadAfterApplying := true);
    OnOptionSelected(flagged, chosen).(actionsEnabled := true, barShown := false)
  }

  /** The flag swallows exactly one selection: the next user click after the
      reload shows the bar, is logged and rebuilds the preview. */
  lemma NextSelectionActsAgain(st: GridState, options: seq<GridOption>, picked: GridOption)
    requires |options| > 0
    ensures var r := OnOptionSelected(OnApplySuccessReloaded(st, options), picked);
      r.barShown && r.preview == Some(picked) && r.logged == st.logged + [picked]
  {
  }

  /** onActivityResult: the option returned by the full preview is applied
      only for the full-preview request with RESULT_OK. */
  function OnActivityResult(st: GridState, requestCode: int, resultCode: int, returned: GridOption)
    : (r: (GridState, Option<GridOption>))
    ensures r.1.Some? <==> requestCode == FULL_PREVIEW_REQUEST_CODE && resultCode == RESULT_OK
    ensures r.1.Some? ==> r == (st.(actionsEnabled := false), Some(returned))
    ensures r.1.None? ==> r.0 == st
  {
    if requestCode == FULL_PREVIEW_REQUEST_CODE && resultCode == RESULT_OK then
      var (s, o) := ApplyGridOption(st, returned);
      (s, Some(o))
    else (st, None)
  }

  /** A whole successful apply round: actions disabled while the manager
      works, and back on, with the bar hidden, once the reload lands. */
  lemma ApplyRoundRestoresActions(st: GridState, option: GridOption, updatedRows: int, options: seq<GridOption>)
    requires |options| > 0
    ensures !ApplyGridOption(st, option).0.actionsEnabled
    ensures Apply(updatedRows).success ==>
      var r := OnApplySuccessReloaded(ApplyGridOption(st, option).0, options);
      r.actionsEnabled && !r.barShown && !r.reloadAfterApplying
  {
  }
}
