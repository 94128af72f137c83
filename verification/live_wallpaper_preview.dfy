/** WallpaperColorThemePreview: the gates a wallpaper preview applies before
    recolouring, and the workspace-preview refresh. The surface view is
    reduced to the calls made on it, the workspace callback to the state those
    calls leave. */
module WallpaperColorThemePreview {
  import opened Common

  const GONE: int := 8

  /** determineThemedIconsSupport: the themed-icon switch provider reports the
      feature both available and enabled. */
  function ThemedIconsSupported(available: bool, enabled: bool): (supported: bool)
    ensures supported <==> available && enabled
  {
    available && enabled
  }

  /** The hosting activity as the gate sees it. */
  datatype Activity = Activity(finishing: bool, monetEnabled: bool)

  /** shouldApplyWallpaperColors: false with no activity or a finishing one,
      false when Monet is off, true otherwise. */
  function ShouldApplyWallpaperColors(activity: Option<Activity>): (ok: bool)
    ensures ok <==> activity.Some? && !activity.value.finishing && activity.value.monetEnabled
  {
    if activity.None? || activity.value.finishing then false
    else if !activity.value.monetEnabled then false
    else true
  }

  /** A call made on the workspace surface view. */
  datatype SurfaceCall = SetVisibility(visibility: int) | SetUseAlpha | SetAlpha(alpha: real)

  datatype Surface = Surface(visibility: int, useAlpha: bool, alpha: real)

  /** The surface after a sequence of calls. */
  function Perform(s: Surface, calls: seq<SurfaceCall>): Surface
    decreases |calls|
  {
    if |calls| == 0 then s
    else
      var t := Perform(s, calls[..|calls| - 1]);
      match calls[|calls| - 1]
      case SetVisibility(v) => t.(visibility := v)
      case SetUseAlpha => t.(useAlpha := true)
      case SetAlpha(a) => t.(alpha := a)
  }

  /** The workspace render callback: the colours it will render with, how
      often it was cleaned up, and whether a render listener is installed. */
  datatype WorkspaceCallback = WorkspaceCallback(colors: Option<WallpaperColors>, cleanUps: nat, listening: bool)

  /** updateWorkspacePreview: nothing when workspace colours are not to be
      updated; otherwise the surface is hidden, the callback (if any) is
      cleaned up, given exactly the passed colours and a render listener, the
      surface made transparent, and the visibility read on entry restored. */
  function UpdateWorkspacePreview(shouldUpdate: bool, entryVisibility: int,
                                  callback: Option<WorkspaceCallback>, colors: Option<WallpaperColors>)
    : (r: (seq<SurfaceCall>, Option<WorkspaceCallback>))
    ensures !shouldUpdate ==> r == ([], callback)
    ensures shouldUpdate ==> |r.0| > 0 && r.0[0] == SetVisibility(GONE) && r.0[|r.0| - 1] == SetVisibility(entryVisibility)
    ensures r.1.Some? <==> callback.Some?
    ensures shouldUpdate && callback.Some? ==>
      r.1.value == WorkspaceCallback(colors, callback.value.cleanUps + 1, true) &&
      SetAlpha(0.0) in r.0
  {
    if !shouldUpdate then ([], callback)
    else if callback.Some? then
      ([SetVisibility(GONE), SetUseAlpha, SetAlpha(0.0), SetVisibility(entryVisibility)],
       Some(WorkspaceCallback(colors, callback.value.cleanUps + 1, true)))
    else ([SetVisibility(GONE), SetVisibility(entryVisibility)], callback)
  }

  /** Whatever the refresh does, the surface leaves it as visible as it came. */
  lemma UpdateRestoresVisibility(s: Surface, shouldUpdate: bool, callback: Option<WorkspaceCallback>,
                                 colors: Option<WallpaperColors>)
    ensures Perform(s, UpdateWorkspacePreview(shouldUpdate, s.visibility, callback, colors).0).visibility == s.visibility
  {
  }
}

/** LiveWallpaperColorThemePreviewFragment: recolours the preview when a live
    wallpaper reports new colours, ignoring the first report of a fresh
    preview. */
module LiveWallpaperColorThemePreviewFragment {
  import opened Common
  import opened WallpaperColorThemePreview

  const KEY_PREVIEW_MODE: string := "preview_mode"

  /** The fragment's state: the ignore flag, the themed-icon support captured
      at attach time, the last colours applied, every recolour so far, and the
      workspace callback. */
  datatype Fragment = Fragment(
    ignoreInitialColorChange: bool,
    themedIconSupported: bool,
    wallpaperColors: Option<WallpaperColors>,
    recolours: seq<WallpaperColors>,
    callback: Option<WorkspaceCallback>)

  /** onAttach. */
  function OnAttach(f: Fragment, available: bool, enabled: bool): Fragment {
    f.(themedIconSupported := ThemedIconsSupported(available, enabled))
  }

  /** shouldUpdateWorkspaceColors. */
  function ShouldUpdateWorkspaceColors(f: Fragment): bool {
    f.themedIconSupported
  }

  /** The workspace is recoloured exactly when themed icons were both
      available and enabled at attach time. */
  lemma WorkspaceUpdatesFollowAttach(f: Fragment, available: bool, enabled: bool)
    ensures ShouldUpdateWorkspaceColors(OnAttach(f, available, enabled)) <==> available && enabled
  {
  }

  /** `Bundle.getInt(key)`: 0 when the key is absent. */
  function GetInt(args: map<string, int>, key: string): int {
    if key in args then args[key] else 0
  }

  /** onCreate: the flag is raised when there are arguments and their preview
      mode (0 when absent) is 0; otherwise it is left as it was. */
  function OnCreate(f: Fragment, arguments: Option<map<string, int>>): (r: Fragment)
    ensures arguments.Some? && GetInt(arguments.value, KEY_PREVIEW_MODE) == 0 ==> r == f.(ignoreInitialColorChange := true)
    ensures !(arguments.Some? && GetInt(arguments.value, KEY_PREVIEW_MODE) == 0) ==> r == f
  {
    if arguments.Some? && GetInt(arguments.value, KEY_PREVIEW_MODE) == 0 then f.(ignoreInitialColorChange := true) else f
  }

  /** A fresh fragment ignores its first report exactly when it has arguments
      whose preview mode is 0 or missing. */
  lemma IgnoreFlagOnCreate(f: Fragment, arguments: Option<map<string, int>>)
    requires !f.ignoreInitialColorChange
    ensures OnCreate(f, arguments).ignoreInitialColorChange <==>
      arguments.Some? && (KEY_PREVIEW_MODE !in arguments.value || arguments.value[KEY_PREVIEW_MODE] == 0)
  {
  }

  /** onWallpaperColorsChanged: while ignoring, or for null colours, only the
      workspace preview is refreshed with no colours; new colours are applied
      and stored only when they differ from the stored ones and the activity
      gate allows it. The flag is always lowered. */
  function OnWallpaperColorsChanged(f: Fragment, colors: Option<WallpaperColors>, activity: Option<Activity>)
    : (r: Fragment)
    ensures !r.ignoreInitialColorChange
    ensures |r.recolours| <= |f.recolours| + 1
    ensures |r.recolours| == |f.recolours| + 1 <==>
      !f.ignoreInitialColorChange && colors.Some? && colors != f.wallpaperColors && ShouldApplyWallpaperColors(activity)
    ensures |r.recolours| == |f.recolours| + 1 ==>
      r.recolours == f.recolours + [colors.value] && r.wallpaperColors == colors
    ensures |r.recolours| == |f.recolours| ==> r.recolours == f.recolours && r.wallpaperColors == f.wallpaperColors
    ensures f.ignoreInitialColorChange || colors.None? ==>
      r.callback == UpdateWorkspacePreview(ShouldUpdateWorkspaceColors(f), 0, f.callback, None).1
  {
    if f.ignoreInitialColorChange || colors.None? then
      var (_, cb) := UpdateWorkspacePreview(ShouldUpdateWorkspaceColors(f), 0, f.callback, None);
      f.(callback := cb, ignoreInitialColorChange := false)
    else if colors != f.wallpaperColors && ShouldApplyWallpaperColors(activity) then
      var (_, cb) := UpdateWorkspacePreview(ShouldUpdateWorkspaceColors(f), 0, f.callback, colors);
      f.(wallpaperColors := colors, recolours := f.recolours + [colors.value], callback := cb,
         ignoreInitialColorChange := false)
    else f.(ignoreInitialColorChange := false)
  }

  /** Only the first report can be ignored: the second one of a fresh preview
      with new colours and an open gate recolours. */
  lemma OnlyFirstReportIgnored(f: Fragment, first: Option<WallpaperColors>, second: WallpaperColors, activity: Option<Activity>)
    requires Some(second) != OnWallpaperColorsChanged(f, first, activity).wallpaperColors
    requires ShouldApplyWallpaperColors(activity)
    ensures var g := OnWallpaperColorsChanged(OnWallpaperColorsChanged(f, first, activity), Some(second), activity);
      |g.recolours| == |OnWallpaperColorsChanged(f, first, activity).recolours| + 1
  {
  }

  /** Delivering the same colours twice recolours at most once. */
  lemma SameColorsRecolourOnce(f: Fragment, colors: WallpaperColors, a1: Option<Activity>, a2: Option<Activity>)
    ensures var g := OnWallpaperColorsChanged(OnWallpaperColorsChanged(f, Some(colors), a1), Some(colors), a2);
      |g.recolours| <= |f.recolours| + 1
  {
  }
}
