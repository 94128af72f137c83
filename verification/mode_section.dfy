/** ModeSection: the dark-theme toggle section. The section's state is the
    context it holds (dropped on release), whether it observes the lifecycle,
    whether its toggle view has been created, the toggle's enabled state, the
    system night mode and whether its battery-saver receiver is registered.
    The toggle view is taken to pass its enabled state to the switch it
    contains. */
module ModeSection {
  import opened Common

  datatype Section = Section(
    hasContext: bool,
    observing: bool,
    hasView: bool,
    toggleEnabled: bool,
    nightMode: bool,
    receiverRegistered: bool)

  /** isAvailable: no context means unavailable; otherwise available exactly
      when MODIFY_DAY_NIGHT_MODE is granted. */
  function IsAvailable(context: Option<bool>): (ok: bool)
    ensures ok <==> context.Some? && context.value
  {
    if context.None? then false else context.value
  }

  /** createView: the section now holds a toggle view, enabled exactly when
      power saving is off. */
  function CreateView(s: Section, powerSaveMode: bool): (r: Section)
    ensures r.hasView && r.toggleEnabled == !powerSaveMode
    ensures r.(hasView := s.hasView, toggleEnabled := s.toggleEnabled) == s
  {
    s.(hasView := true, toggleEnabled := !powerSaveMode)
  }

  /** onBatterySaverStateChanged: the toggle follows the saver, inverted.
      Before createView there is no view to enable and the call throws: None. */
  function OnBatterySaverStateChanged(s: Section, saverOn: bool): (r: Option<Section>)
    ensures r.Some? <==> s.hasView
    ensures r.Some? ==> r.value.toggleEnabled == !saverOn && r.value.(toggleEnabled := s.toggleEnabled) == s
  {
    if s.hasView then Some(s.(toggleEnabled := !saverOn)) else None
  }

  /** The section after a sequence of battery-saver reports; None once one of
      them has thrown. */
  function SaverReports(s: Section, reports: seq<bool>): Option<Section>
    decreases |reports|
  {
    if |reports| == 0 then Some(s)
    else
      var before := SaverReports(s, reports[..|reports| - 1]);
      if before.None? then None else OnBatterySaverStateChanged(before.value, reports[|reports| - 1])
  }

  /** Once the view exists every report is handled, the last one decides the
      toggle whatever the state at view creation, and nothing else changes. */
  lemma {:induction false} LastSaverReportDecides(s: Section, powerSave: bool, reports: seq<bool>)
    ensures var v := CreateView(s, powerSave);
      SaverReports(v, reports).Some? &&
      SaverReports(v, reports).value.(toggleEnabled := v.toggleEnabled) == v &&
      (|reports| > 0 ==> SaverReports(v, reports).value.toggleEnabled == !reports[|reports| - 1])
    decreases |reports|
  {
    if |reports| > 0 {
      LastSaverReportDecides(s, powerSave, reports[..|reports| - 1]);
    }
  }

  /** A report that arrives before the view is created throws, and so does
      every sequence of reports that starts then. */
  lemma {:induction false} ReportBeforeViewThrows(s: Section, reports: seq<bool>)
    requires !s.hasView && |reports| > 0
    ensures SaverReports(s, reports).None?
    decreases |reports|
  {
    if |reports| > 1 {
      ReportBeforeViewThrows(s, reports[..|reports| - 1]);
    }
  }

  datatype Activation = NoContext | DisabledToast | NightModeSet(activated: bool) | NullContextCrash

  /** onViewActivated: nothing without a context; with the switch disabled
      the night mode stays and a toast is shown (through the section's own
      context, which after release is null and throws); otherwise the night
      mode is set to the switch's new state. */
  function OnViewActivated(s: Section, hasContext: bool, viewActivated: bool): (r: (Section, Activation))
    ensures !hasContext ==> r == (s, NoContext)
    ensures hasContext && !s.toggleEnabled ==> r.0 == s && (r.1 == DisabledToast <==> s.hasContext)
    ensures hasContext && s.toggleEnabled ==> r == (s.(nightMode := viewActivated), NightModeSet(viewActivated))
    ensures r.0.nightMode != s.nightMode ==> hasContext && s.toggleEnabled
  {
    if !hasContext then (s, NoContext)
    else if !s.toggleEnabled then (s, if s.hasContext then DisabledToast else NullContextCrash)
    else (s.(nightMode := viewActivated), NightModeSet(viewActivated))
  }

  /** release: stops observing the lifecycle and drops the context. */
  function Release(s: Section): (r: Section)
    ensures !r.observing && !r.hasContext
    ensures r.(observing := s.observing, hasContext := s.hasContext) == s
  {
    s.(observing := false, hasContext := false)
  }

  /** The task onStart submits: register while holding a context and at least
      STARTED. */
  function OnStartTask(s: Section, atLeastStarted: bool): (r: Section)
    ensures r.receiverRegistered <==> s.receiverRegistered || (s.hasContext && atLeastStarted)
    ensures r.(receiverRegistered := s.receiverRegistered) == s
  {
    if s.hasContext && atLeastStarted then s.(receiverRegistered := true) else s
  }

  /** The task onStop submits: unregister while holding a context. */
  function OnStopTask(s: Section): (r: Section)
    ensures r.receiverRegistered <==> s.receiverRegistered && !s.hasContext
    ensures r.(receiverRegistered := s.receiverRegistered) == s
  {
    if s.hasContext then s.(receiverRegistered := false) else s
  }

  /** After release a start no longer registers the receiver. */
  lemma ReleasedSectionSkipsRegistration(s: Section, atLeastStarted: bool)
    requires !s.receiverRegistered
    ensures !OnStartTask(Release(s), atLeastStarted).receiverRegistered
  {
  }

  /** With a context, a start then a stop leaves the receiver unregistered. */
  lemma StartStopUnregisters(s: Section, atLeastStarted: bool)
    requires s.hasContext
    ensures !OnStopTask(OnStartTask(s, atLeastStarted)).receiverRegistered
  {
  }
}
