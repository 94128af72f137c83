# Decision rules of the launcher's customization picker, in Dafny

This project models the small decision rules inside the Android customization picker and launcher of riteshm321/launcher3. The rules are written as pure functions over plain data, with loop methods proved against recursive reference definitions. The areas modelled:

- **Colour section** (`ColorSection`): the page count and page slices of an option list, and the page that holds the selection. Also how loaded options are split into the wallpaper and preset tabs, which option starts selected, which tab opens, the 500 ms apply throttle, and the analytics action an apply reports.
- **Colour bundles** (`ColorBundle`, `PreviewExtractor`): day/night resolution of preview colours by the `uiMode` night bits, where an override pair takes precedence. Also the builder's defaults, setters and overlay-package map, `build`, style-name parsing, the two colour helpers, and partial icon loading.
- **Wallpaper colour resources** (`WallpaperColorResources`): the seed colour chosen from two secure settings, and the overlay table of five swatches. Each swatch is twelve consecutive resource ids, stored with forced opaque alpha.
- **Theme picker** (`ThemeFragment`, `ThemeOptionPreviewer`): the saved-versus-active selection scan, the default-theme fallback, the save-state rule, activity-result dispatch and the option listener. The preview card contributes its AM/PM removal, icon index tables, search-bar radii and button tint list.
- **Grid picker** (`GridFragment`, `GridOptionsManager`): the "active, else first" selection, the one-shot reload-after-apply flag, and the manager's apply and fetch outcomes and singleton.
- **Themed icons** (`ThemedIcons`): the package-to-drawable map read from an XML event stream, with its caching, and the fallback, configuration-bit and wrapping decisions of `getIcon`.
- **Live wallpaper preview** (`WallpaperColorThemePreview`, `LiveWallpaperColorThemePreviewFragment`): the recolour gates, the ignore-first-report flag, and the workspace refresh that restores the surface's visibility.
- **Small state machines** (`ModeSection`, `UpdateItemTask`, `RecentWallpapersProvider`, `ApiWrapper`): dark-mode toggle gating and receiver registration, the hidden-app set update, content-provider path dispatch, and the hotseat offset in Java `int` arithmetic.

Java `null` is `Option.None`. An exception that the source lets escape is usually also `None` or a dedicated result constructor. Examples are an index out of range, a `StringBuffer.delete` with bad bounds, and a missing colour shade. A few members instead exclude the throwing input with a precondition; each is listed under "Left out". Answers from managers and the platform, such as `isActive`, permission checks, Monet being enabled or the power-save mode, become fields or parameters. Colour science, string formatting of colours and resource lookups are function-typed parameters.

Two points of behaviour are worth noting:

- **`ModeSection.onViewActivated` after `release`.** The disabled-switch branch shows its toast through the section's own context. `release` sets that context to null, so this branch then throws. The model returns `NullContextCrash` for this case.
- **The saved theme selection.** The scan ends at the first active theme whose packages differ from the saved ones, so such a theme always wins over the saved selection (`ThemeFragment.ActiveThemeOverridesSaved`). An active theme with the saved packages counts as a saved match and does not end the scan. With no active theme at all, the saved selection comes back (`ThemeFragment.SavedSelectionRestored`).

## Model

| member | source | states |
|---|---|---|
| ColorSection.NumPages | src/com/android/customization/model/color/ColorSectionController.java:101-103 | The page count is non-negative for a positive page size, at most 0 for a negative one, and 0 or Integer.MAX_VALUE for a zero page size, as Java's float NaN or Infinity casts to int |
| ColorSection.NumPagesIsCeiling | src/com/android/customization/model/color/ColorSectionController.java:101-103 | For a positive page size the count is the least number of pages that holds every option, and it is 0 exactly for no options |
| ColorSection.PageSlice | src/com/android/customization/model/color/ColorSectionController.java:288-291 | Page `index` holds min(perPage, remaining) options, and its j-th entry is option perPage*index+j |
| ColorSection.SetupColorOptions | src/com/android/customization/model/color/ColorSectionController.java:281-294 | An empty list sets up nothing. With paging off the page shows the whole list. With paging on, page i shows min(perPage, remaining) options, and its j-th entry is option perPage*i+j |
| ColorSection.PagesUpToIsPrefix | src/com/android/customization/model/color/ColorSectionController.java:290-291 | The first k pages laid end to end are the list's prefix of length min(perPage*k, size) |
| ColorSection.PagesUpToStep | src/com/android/customization/model/color/ColorSectionController.java:288-291 | Adding a page that starts inside the list appends exactly the slice the pager binds for that page |
| ColorSection.PageStartsInList | src/com/android/customization/model/color/ColorSectionController.java:288-291 | With a positive page size, every page the indicator counts starts inside the list, so `subList` does not throw |
| ColorSection.PagesCoverOptions | src/com/android/customization/model/color/ColorSectionController.java:283-291 | The pages the indicator counts, laid end to end, are exactly the option list in order |
| ColorSection.IndexOf | src/com/android/customization/model/color/ColorSectionController.java:233 | `indexOf` is -1 exactly when the option is absent; otherwise it is the first position holding the option |
| ColorSection.PageToShow | src/com/android/customization/model/color/ColorSectionController.java:233-237 | The pager jumps exactly when the selected option is in the list and the page size is non-zero |
| ColorSection.SelectedPageHoldsSelection | src/com/android/customization/model/color/ColorSectionController.java:233-238 | The page jumped to lies in [0, page count) and its slice contains the selected option |
| ColorSection.Seeds | src/com/android/customization/model/color/ColorSectionController.java:178-180 | An option is in the wallpaper list exactly when it is a seed option of the input |
| ColorSection.Bundles | src/com/android/customization/model/color/ColorSectionController.java:178-182 | An option is in the preset list exactly when it is a bundle of the input |
| ColorSection.LoadColorOptions | src/com/android/customization/model/color/ColorSectionController.java:175-184 | Starting from empty lists, the loop fills the wallpaper list with the seed options and the preset list with the bundles, each in input order |
| ColorSection.SplitLosesOnlyOthers | src/com/android/customization/model/color/ColorSectionController.java:178-184 | The two lists together are never longer than the input, and they hold every option exactly when each option is a seed or a bundle |
| ColorSection.SeedsKeepOrder | src/com/android/customization/model/color/ColorSectionController.java:178-180 | The wallpaper list keeps input order: the list for a concatenation is the concatenation of the parts' lists |
| ColorSection.BundlesKeepOrder | src/com/android/customization/model/color/ColorSectionController.java:181-182 | The preset list keeps input order in the same sense |
| ColorSection.SplitAppend | src/com/android/customization/model/color/ColorSectionController.java:178-183 | One more option is appended to the list of its own class and leaves the other list unchanged |
| ColorSection.SplitKeepsMultiplicity | src/com/android/customization/model/color/ColorSectionController.java:178-183 | Each seed option occurs in the wallpaper list as often as in the input, each bundle likewise in the preset list, and no option of another class is kept |
| ColorSection.FindActiveColorOption | src/com/android/customization/model/color/ColorSectionController.java:302-320 | With no option at all, `get(0)` throws: None. Otherwise the first active option in wallpaper-then-preset order wins; with none active, the first wallpaper option, else the first preset |
| ColorSection.SaveTabPosition | src/com/android/customization/model/color/ColorSectionController.java:157-162 | The tab key is saved exactly when a pager exists |
| ColorSection.RestoreTabPosition | src/com/android/customization/model/color/ColorSectionController.java:115-117 | A tab to restore exists exactly when a saved state holding the key is passed |
| ColorSection.SetUpColorViewPager | src/com/android/customization/model/color/ColorSectionController.java:199-221 | Two tabs are added once; an empty wallpaper list forces the preset tab and disables the wallpaper tab; otherwise the saved tab wins, and failing that the preset tab opens exactly when the current source is the preset one |
| ColorSection.SavedTabIsRestored | src/com/android/customization/model/color/ColorSectionController.java:209-221 | A tab saved before recreation is the tab that opens after it, unless the wallpaper list became empty |
| ColorSection.TryApply | src/com/android/customization/model/color/ColorSectionController.java:339-343 | An apply is accepted exactly when 500 ms have passed since the last accepted one; an accepted apply records its time, and a dropped one changes nothing |
| ColorSection.AcceptedAreSpaced | src/com/android/customization/model/color/ColorSectionController.java:339-343 | For any sequence of request times, accepted applies are at least 500 ms apart, and the first is at least 500 ms after the starting time |
| ColorSection.GetColorAction | src/com/android/customization/model/color/ColorSectionController.java:359-379 | Preset source gives PRESET; otherwise HOME_LOCK exactly when the lock colours are null or equal the home ones; otherwise HOME, LOCK or DEFAULT by source, each as an if-and-only-if |
| ColorSection.BundleApplyIsPreset | src/com/android/customization/model/color/ColorSectionController.java:364-365 | A bundle reports a preset apply whatever the wallpaper colours |
| ColorBundle.NightReadsOnlyNightBits | src/com/android/customization/model/color/ColorBundle.java:136-137 | Night is decided by the night bits alone: type bits do not matter, and only UI_MODE_NIGHT_YES is night |
| ColorBundle.ResolveSecondaryColor | src/com/android/customization/model/color/ColorBundle.java:135-143 | With both overrides transparent the bundle colour for the mode is used; with either set, the override for the current mode is used |
| ColorBundle.ResolvePrimaryColor | src/com/android/customization/model/color/ColorBundle.java:151-160 | The same rule over the primary colours and palette overrides |
| ColorBundle.SetOverrideAccentColors | src/com/android/customization/model/color/ColorBundle.java:165-169 | Primary resolution is unchanged in every mode; a non-transparent pair decides the secondary colour in every mode; an all-transparent pair falls back to the bundle's colours |
| ColorBundle.SetOverridePaletteColors | src/com/android/customization/model/color/ColorBundle.java:174-178 | Secondary resolution is unchanged in every mode; the pair decides the primary colour as above |
| ColorBundle.OneSidedOverrideHidesOtherMode | src/com/android/customization/model/color/ColorBundle.java:138-141 | Overriding only the light colour still makes night resolve to the unset, transparent dark override |
| ColorBundle.AsDefaultIsIdempotent | src/com/android/customization/model/color/ColorBundle.java:345-348 | `asDefault` sets the default flag, touches nothing else, and applying it twice equals applying it once |
| ColorBundle.AddOverlayPackage | src/com/android/customization/model/color/ColorBundle.java:316-319 | The category maps to the new package, other categories keep theirs, the key set grows by the category only, and no other builder field changes |
| ColorBundle.OverlayPackageLastWins | src/com/android/customization/model/color/ColorBundle.java:238-240 | Writing a category twice equals writing the second package once, and `getPackages` shows the last one |
| ColorBundle.OverlayPackagesCommute | src/com/android/customization/model/color/ColorBundle.java:316-319 | Writes to different categories can be swapped |
| ColorBundle.CreatePreviewInfo | src/com/android/customization/model/color/ColorBundle.java:215-236 | The four builder colours and the icons land in their own fields; a shape exists exactly when the mask path is non-empty; no override is set, so resolution gives the builder colours |
| ColorBundle.Build | src/com/android/customization/model/color/ColorBundle.java:202-208 | A null title becomes the default title and is written back to the builder; a set title is kept; packages, default flag, style, index and preview are carried over |
| ColorBundle.BuildIsStable | src/com/android/customization/model/color/ColorBundle.java:203-205 | Building again from the builder left behind gives the same bundle, whatever default title is then offered |
| ColorBundle.FreshBuilderBuildsBlankBundle | src/com/android/customization/model/color/ColorBundle.java:185-195 | A fresh builder builds a non-default TONAL_SPOT bundle with the default title, no packages, no icons, and transparent colours in every mode |
| ColorBundle.SettersReachPreview | src/com/android/customization/model/color/ColorBundle.java:265-300 | Each colour setter's value lands in the matching field of the built preview |
| PreviewExtractor.ParseStyle | src/com/android/customization/model/color/ColorBundlePreviewExtractor.java:72-82 | A null or empty name and an unknown name give TONAL_SPOT; a known name gives the style of that name |
| PreviewExtractor.StyleNameRoundTrip | src/com/android/customization/model/color/ColorBundlePreviewExtractor.java:76 | Every style is recovered from its own name |
| PreviewExtractor.AddColorStyle | src/com/android/customization/model/color/ColorBundlePreviewExtractor.java:72-82 | Only the style changes. A recognised name yields the style of that name; a null or unknown name yields TONAL_SPOT |
| PreviewExtractor.AddSecondaryColor | src/com/android/customization/model/color/ColorBundlePreviewExtractor.java:52-60 | Writes the colour string under the accent-colour category, the light secondary from the light scheme and the dark from the dark scheme, and nothing else |
| PreviewExtractor.AddPrimaryColor | src/com/android/customization/model/color/ColorBundlePreviewExtractor.java:62-70 | The same under the system-palette category for the primary colours |
| PreviewExtractor.SecondaryAndPrimaryIndependent | src/com/android/customization/model/color/ColorBundlePreviewExtractor.java:52-70 | The two helpers commute, and after both the built preview resolves each pair from its own seed colour |
| PreviewExtractor.LoadablePrefix | src/com/android/customization/model/color/ColorBundlePreviewExtractor.java:88-96 | Counts the names that load before the first failed lookup, which is the first unloadable name |
| PreviewExtractor.AddSystemDefaultIcons | src/com/android/customization/model/color/ColorBundlePreviewExtractor.java:88-96 | The icons loaded before the first failure are appended in order; later names are skipped, the failure is swallowed, and nothing else changes |
| WallpaperColorResources.SeedColor | src/com/android/customization/model/color/WallpaperColorResources.kt:53-57 | The override colour is the seed exactly when it is set and the custom-colour switch is on; otherwise the wallpaper's primary colour |
| WallpaperColorResources.UnsetSettingsUseWallpaper | src/com/android/customization/model/color/WallpaperColorResources.kt:43-57 | With both settings at their defaults, or the switch off, the wallpaper colour is the seed |
| WallpaperColorResources.OpaqueArgb | src/com/android/customization/model/color/WallpaperColorResources.kt:75 | The stored value has alpha byte 0xFF and its low 24 bits are the shade's RGB |
| WallpaperColorResources.AddOverlayColor | src/com/android/customization/model/color/WallpaperColorResources.kt:72-78 | Throws (None) exactly when the swatch lacks a shade. Otherwise keys base..base+11 hold shades 10..1000 in order, the key set grows by exactly that range, and every other key keeps its value |
| WallpaperColorResources.WriteSwatches | src/com/android/customization/model/color/WallpaperColorResources.kt:65-69 | Writing the swatches in turn succeeds exactly when every swatch has all shades, and then gives the reference table |
| WallpaperColorResources.BuildColorOverlay | src/com/android/customization/model/color/WallpaperColorResources.kt:41-70 | The constructor throws exactly when a swatch of the seed's scheme lacks a shade. Otherwise the table after the five writes is the reference table, in which each key holds the shade of the last swatch whose range contains it |
| WallpaperColorResources.OverlayTableLayout | src/com/android/customization/model/color/WallpaperColorResources.kt:65-78 | With non-overlapping id ranges, each swatch's twelve shades sit at its own ids, and the table has no key outside the five ranges |
| ThemeFragment.Scan | src/com/android/customization/picker/theme/ThemeFragment.java:293-301 | The loop computes the reference front-to-back scan from the current selection |
| ThemeFragment.ScanStopsAtFirstActive | src/com/android/customization/picker/theme/ThemeFragment.java:294-299 | The first active theme that is not a saved match is selected, even over an earlier saved match |
| ThemeFragment.ScanKeepsLastSaved | src/com/android/customization/picker/theme/ThemeFragment.java:294-296 | With no such active theme, the last saved match is selected |
| ThemeFragment.NoMatchKeepsCurrent | src/com/android/customization/picker/theme/ThemeFragment.java:293-301 | With neither kind of theme, the starting selection is kept |
| ThemeFragment.ScanStaysInList | src/com/android/customization/picker/theme/ThemeFragment.java:293-301 | The scan's result is the starting selection or a theme of the list |
| ThemeFragment.ReloadSelectsFirstActive | src/com/android/customization/picker/theme/ThemeFragment.java:327-332 | The reload scan selects the first active theme |
| ThemeFragment.ReloadFindsActive | src/com/android/customization/picker/theme/ThemeFragment.java:327-332 | An active theme in the list is always found; with none, the start is kept |
| ThemeFragment.FindDefaultThemeBundle | src/com/android/customization/picker/theme/ThemeFragment.java:347-356 | Returns the first theme with the default title, and null exactly when no theme has it |
| ThemeFragment.FinishSetup | src/com/android/customization/picker/theme/ThemeFragment.java:302-308 | A scan result is selected and marked applied; with none, the default theme is selected and nothing is marked applied |
| ThemeFragment.SetUpOptions | src/com/android/customization/picker/theme/ThemeFragment.java:291-309 | The result is the scan's outcome, finished with the default-theme fallback. So the first active theme without the saved packages is selected and marked applied, and an applied theme is always the selected one |
| ThemeFragment.ReloadOptions | src/com/android/customization/picker/theme/ThemeFragment.java:324-341 | The result is the scan's outcome with no saved string. So the first active theme is selected and marked applied; from no selection with no active theme, the default is selected and nothing is applied |
| ThemeFragment.SavedState | src/com/android/customization/picker/theme/ThemeFragment.java:212-218 | Packages are saved exactly when a theme is selected and not active, and they are that theme's packages |
| ThemeFragment.SavedSelectionRestored | src/com/android/customization/picker/theme/ThemeFragment.java:291-301 | A saved selection is selected again after recreation when no theme is active and its packages are unique |
| ThemeFragment.ActiveThemeOverridesSaved | src/com/android/customization/picker/theme/ThemeFragment.java:297-299 | An active theme with other packages anywhere in the list prevents the saved selection from being restored |
| ThemeFragment.OnActivityResult | src/com/android/customization/picker/theme/ThemeFragment.java:221-242 | For the custom-theme request: deleted clears and reloads, applied finishes, otherwise the selection is re-selected or, with none, reloaded. For another request, RESULT_OK on the full preview applies and anything else does nothing |
| ThemeFragment.ReloadStartsUnselected | src/com/android/customization/picker/theme/ThemeFragment.java:222-236 | Every reload starts with no selection |
| ThemeFragment.OnOptionSelected | src/com/android/customization/picker/theme/ThemeFragment.java:268-288 | An undefined custom theme opens the editor and keeps the selection; any other theme is selected, and the bar shows INFORMATION and APPLY, plus CUSTOMIZE exactly for custom themes |
| ThemeFragment.OnCustomizeClicked | src/com/android/customization/picker/theme/ThemeFragment.java:244-248 | The editor opens exactly when a custom theme is selected, and it opens for that theme |
| ThemeOptionPreviewer.Delete | src/com/android/customization/picker/theme/ThemeOptionPreviewer.java:227 | `StringBuffer.delete` succeeds exactly when 0 <= start <= length and start <= end, and removes [start, min(end, length)) |
| ThemeOptionPreviewer.StripAmPm | src/com/android/customization/picker/theme/ThemeOptionPreviewer.java:221-230 | The AM/PM field is removed only when it begins after position 0; otherwise the text is unchanged |
| ThemeOptionPreviewer.StripAmPmCutsField | src/com/android/customization/picker/theme/ThemeOptionPreviewer.java:226-229 | For a field inside the text, the result is length minus the field length, and putting the field back gives the original text |
| ThemeOptionPreviewer.SetTopBarIcons | src/com/android/customization/picker/theme/ThemeOptionPreviewer.java:149-161 | Child i shows icon [0,6,7][i] exactly when that index exists, and is hidden otherwise; more than three children overrun the table |
| ThemeOptionPreviewer.SetAppIconShape | src/com/android/customization/picker/theme/ThemeOptionPreviewer.java:163-168 | Exactly the first min(4, icon count) shape slots are filled, slot i with app icon i |
| ThemeOptionPreviewer.ColorTileIconsAsWritten | src/com/android/customization/picker/theme/ThemeOptionPreviewer.java:170-183 | As written, the loop fails exactly when some tile below min(4, icon count) maps to an icon index past the list; otherwise tile i shows icon [0,1,3,4][i] |
| ThemeOptionPreviewer.ColorTilesOverrunWithFewIcons | src/com/android/customization/picker/theme/ThemeOptionPreviewer.java:170-175 | For any icon count, a tile inside the written loop's bound reads past the list exactly when there are three or four icons |
| ThemeOptionPreviewer.ColorTileIcons | src/com/android/customization/picker/theme/ThemeOptionPreviewer.java:170-183 | Corrected: tiles are drawn while their own icon exists, so every read is in range and drawing stops at the first missing icon |
| ThemeOptionPreviewer.ColorTilesAgreeWithEnoughIcons | src/com/android/customization/picker/theme/ThemeOptionPreviewer.java:173-175 | With more than four icons, the written and the corrected loops draw the same four tiles |
| ThemeOptionPreviewer.SetQsbRadius | src/com/android/customization/picker/theme/ThemeOptionPreviewer.java:201-213 | Radii are set exactly for a present, visible, gradient background; all eight are equal, half the height when rounded, else the corner radius |
| ThemeOptionPreviewer.TintFollowsState | src/com/android/customization/picker/theme/ThemeOptionPreviewer.java:237-251 | Selected or checked buttons take the accent even when disabled, and disabled, unselected, unchecked ones take grey |
| ThemeOptionPreviewer.GetColorStateList | src/com/android/customization/picker/theme/ThemeOptionPreviewer.java:237-251 | Three specs in the order selected, checked, not enabled; the not-enabled spec takes the grey, the other two the accent |
| GridOptionsManager.Apply | src/com/android/customization/model/grid/GridOptionsManager.java:74-83 | Success exactly when one row was updated, and logging exactly on success |
| GridOptionsManager.FetchDispatch | src/com/android/customization/model/grid/GridOptionsManager.java:86-99 | A null callback gets nothing; a non-null, non-empty list is delivered unchanged; otherwise the callback gets an error |
| GridOptionsManager.GetInstance | src/com/android/customization/model/grid/GridOptionsManager.java:49-61 | The field is filled on the first call, and the instance returned is the stored one when it exists |
| GridOptionsManager.GetInstanceIsSingleton | src/com/android/customization/model/grid/GridOptionsManager.java:49-61 | Every later call returns the first instance, whatever it would build |
| GridFragment.FindAnyActive | src/com/android/customization/picker/grid/GridFragment.java:255-257 | Some active option is found exactly when the list has one |
| GridFragment.GetSelectedOption | src/com/android/customization/picker/grid/GridFragment.java:254-260 | An empty list fails. Otherwise the result is a list member: an active one if any exists, else the first |
| GridFragment.LoadedOptionsHaveSelection | src/com/android/customization/picker/grid/GridFragment.java:240 | Whatever the manager delivers has a selection |
| GridFragment.OnOptionSelected | src/com/android/customization/picker/grid/GridFragment.java:229-238 | The selection always follows and the flag is cleared; with the flag set nothing else happens; otherwise the bar is shown, the selection logged and the preview rebuilt |
| GridFragment.ApplyGridOption | src/com/android/customization/picker/grid/GridFragment.java:206-209 | Only the actions change, to disabled, and the option passed is the one handed to the manager |
| GridFragment.OnApplySuccessReloaded | src/com/android/customization/picker/grid/GridFragment.java:103-113 | After the reload the options and selection are the reloaded ones, the flag is consumed, the actions are back, the bar is hidden, and neither log nor preview took the re-selection |
| GridFragment.NextSelectionActsAgain | src/com/android/customization/picker/grid/GridFragment.java:229-238 | The flag swallows only one selection: the next click shows the bar, logs and rebuilds the preview |
| GridFragment.OnActivityResult | src/com/android/customization/picker/grid/GridFragment.java:190-196 | The returned option is applied exactly for the full-preview request with RESULT_OK, with actions disabled first; otherwise nothing changes |
| GridFragment.ApplyRoundRestoresActions | src/com/android/customization/picker/grid/GridFragment.java:206-209 | Actions are disabled while applying and re-enabled, with the bar hidden, once a successful apply's reload lands |
| ThemedIcons.FoldLastWins | src/com/android/launcher3/icons/ThirdPartyIconProvider.java:82-87 | A package is in the map exactly when a qualifying icon tag names it, and it maps to the drawable of the last such tag |
| ThemedIcons.RootIndex | src/com/android/launcher3/icons/ThirdPartyIconProvider.java:74-75 | The skip loop stops at the first start tag or failure, else at the end of the document |
| ThemedIcons.Examined | src/com/android/launcher3/icons/ThirdPartyIconProvider.java:77-78 | The body loop examines events up to the first failure or closing end tag |
| ThemedIcons.ParseThemedIconMap | src/com/android/launcher3/icons/ThirdPartyIconProvider.java:64-93 | The two loops compute the reference parse: no root means an empty map, and otherwise the fold of the examined body, partial on failure |
| ThemedIcons.ParseIgnoresTail | src/com/android/launcher3/icons/ThirdPartyIconProvider.java:77-92 | Events after a failure or after the closing tag never change the map |
| ThemedIcons.ThemedIconMap | src/com/android/launcher3/icons/ThirdPartyIconProvider.java:60-95 | A cached map is returned as is; a missing resource gives an empty map; otherwise the parse result is cached and returned |
| ThemedIcons.ThemedIconMapIsMemoised | src/com/android/launcher3/icons/ThirdPartyIconProvider.java:61-63 | The second lookup answers from the cache, whatever the resource says by then |
| ThemedIcons.WithHintKeepsBits | src/com/android/launcher3/icons/ThirdPartyIconProvider.java:52 | The no-wrap hint is set, every earlier configuration bit is kept, and adding it twice equals adding it once |
| ThemedIcons.GetIcon | src/com/android/launcher3/icons/ThirdPartyIconProvider.java:43-58 | A null lookup uses the fallback, the hint is added to its bits, and the icon is wrapped exactly when themed icons are on and the package is in the map |
| WallpaperColorThemePreview.ShouldApplyWallpaperColors | src_override/com/android/wallpaper/picker/WallpaperColorThemePreview.java:26-37 | True exactly for an existing, non-finishing activity with Monet enabled |
| WallpaperColorThemePreview.ThemedIconsSupported | src_override/com/android/wallpaper/picker/WallpaperColorThemePreview.java:21-24 | Themed icons are supported exactly when the switch provider reports them both available and enabled |
| WallpaperColorThemePreview.UpdateWorkspacePreview | src_override/com/android/wallpaper/picker/WallpaperColorThemePreview.java:48-67 | Nothing happens when workspace colours are not updated. Otherwise the surface is hidden first and its entry visibility restored last, and a callback is cleaned up once, given exactly the passed colours and a listener |
| WallpaperColorThemePreview.UpdateRestoresVisibility | src_override/com/android/wallpaper/picker/WallpaperColorThemePreview.java:50-65 | The surface leaves the refresh with its entry visibility |
| LiveWallpaperColorThemePreviewFragment.WorkspaceUpdatesFollowAttach | src_override/com/android/wallpaper/picker/LiveWallpaperColorThemePreviewFragment.java:29-33 | The workspace is recoloured exactly when themed icons were available and enabled at attach time |
| LiveWallpaperColorThemePreviewFragment.OnCreate | src_override/com/android/wallpaper/picker/LiveWallpaperColorThemePreviewFragment.java:35-42 | The flag is raised when arguments exist with preview mode 0, or with the mode missing; otherwise nothing changes |
| LiveWallpaperColorThemePreviewFragment.IgnoreFlagOnCreate | src_override/com/android/wallpaper/picker/LiveWallpaperColorThemePreviewFragment.java:38-41 | From a lowered flag, the flag is raised exactly when arguments exist whose preview mode is 0 or missing |
| LiveWallpaperColorThemePreviewFragment.OnWallpaperColorsChanged | src_override/com/android/wallpaper/picker/LiveWallpaperColorThemePreviewFragment.java:44-76 | The flag is always lowered. A recolour happens, storing the colours, exactly for new non-null colours under an open gate while not ignoring; otherwise the stored colours stay. Ignored or null reports refresh the workspace with no colours |
| LiveWallpaperColorThemePreviewFragment.OnlyFirstReportIgnored | src_override/com/android/wallpaper/picker/LiveWallpaperColorThemePreviewFragment.java:46-74 | A second report with new colours under an open gate always recolours |
| LiveWallpaperColorThemePreviewFragment.SameColorsRecolourOnce | src_override/com/android/wallpaper/picker/LiveWallpaperColorThemePreviewFragment.java:48-49 | Delivering the same colours twice recolours at most once |
| ModeSection.IsAvailable | src/com/android/customization/model/mode/ModeSection.java:94-101 | Available exactly with a context that holds the day/night permission |
| ModeSection.CreateView | src/com/android/customization/model/mode/ModeSection.java:103-111 | The section now has a view, whose toggle is enabled exactly when power saving is off; nothing else changes |
| ModeSection.OnBatterySaverStateChanged | src/com/android/customization/model/mode/ModeSection.java:128-131 | Throws exactly when no view has been created. Otherwise the toggle is enabled exactly when the saver is off, and nothing else changes |
| ModeSection.LastSaverReportDecides | src/com/android/customization/model/mode/ModeSection.java:103-131 | After the view is created, every report is handled, the last one decides the toggle whatever the state at creation, and nothing else changes |
| ModeSection.ReportBeforeViewThrows | src/com/android/customization/model/mode/ModeSection.java:128-131 | A report that arrives before the view exists throws |
| ModeSection.OnViewActivated | src/com/android/customization/model/mode/ModeSection.java:113-126 | No context does nothing. A disabled switch keeps night mode and toasts, or crashes once the section's context is released. Otherwise night mode follows the switch, and night mode changes only on that path |
| ModeSection.Release | src/com/android/customization/model/mode/ModeSection.java:88-92 | Stops observing and drops the context; nothing else changes |
| ModeSection.OnStartTask | src/com/android/customization/model/mode/ModeSection.java:66-76 | The receiver becomes registered exactly with a context and at least STARTED |
| ModeSection.OnStopTask | src/com/android/customization/model/mode/ModeSection.java:78-86 | The receiver is unregistered whenever a context is held |
| ModeSection.ReleasedSectionSkipsRegistration | src/com/android/customization/model/mode/ModeSection.java:66-92 | After release a start no longer registers the receiver |
| ModeSection.StartStopUnregisters | src/com/android/customization/model/mode/ModeSection.java:66-86 | With a context, a start followed by a stop leaves the receiver unregistered |
| UpdateItemTask.DoInBackground | src/com/android/launcher3/lineage/trust/UpdateItemTask.java:36-52 | An empty argument list answers false and leaves the set alone. Otherwise only the first component counts: its package is hidden exactly when the component is, no other package changes, and the answer is true |
| UpdateItemTask.OnPostExecute | src/com/android/launcher3/lineage/trust/UpdateItemTask.java:54-57 | The callback receives exactly the background result |
| UpdateItemTask.HideThenShowRestores | src/com/android/launcher3/lineage/trust/UpdateItemTask.java:42-51 | Hiding then showing a package that was not hidden restores the set, and repeating a hide changes nothing |
| RecentWallpapersProvider.Query | src/com/google/android/apps/wallpaper/provider/RecentWallpapersProvider.java:23-30 | A cursor is returned exactly for the listing path; it has the four recent columns and no rows |
| RecentWallpapersProvider.Update | src/com/google/android/apps/wallpaper/provider/RecentWallpapersProvider.java:32-38 | One row exactly for the set-recent path, else zero |
| RecentWallpapersProvider.Delete | src/com/google/android/apps/wallpaper/provider/RecentWallpapersProvider.java:40-43 | Deletes nothing, for any path |
| RecentWallpapersProvider.Insert | src/com/google/android/apps/wallpaper/provider/RecentWallpapersProvider.java:45-48 | Returns no URI, for any path |
| RecentWallpapersProvider.GetType | src/com/google/android/apps/wallpaper/provider/RecentWallpapersProvider.java:18-21 | The recent-wallpapers directory type, for any path |
| RecentWallpapersProvider.QueryAndUpdatePathsDisjoint | src/com/google/android/apps/wallpaper/provider/RecentWallpapersProvider.java:23-38 | No path is answered by both query and update |
| ApiWrapper.GetPersons | quickstep/src/com/android/launcher3/uioverrides/ApiWrapper.java:34-37 | A null array becomes the empty array; any other is returned unchanged |
| ApiWrapper.IsInternalDisplay | quickstep/src/com/android/launcher3/uioverrides/ApiWrapper.java:42-44 | A display is internal exactly when its type is TYPE_INTERNAL |
| ApiWrapper.OnlyBuiltInPanelIsInternal | quickstep/src/com/android/launcher3/uioverrides/ApiWrapper.java:42-44 | The built-in panel is internal; unknown, external, Wi-Fi, overlay and virtual displays are not |
| ApiWrapper.GetHotseatEndOffset | quickstep/src/com/android/launcher3/uioverrides/ApiWrapper.java:49-58 | 0 outside three-button mode; in it, 2*spacing + 3*size reduced to a 32-bit int |
| ApiWrapper.HotseatOffsetExact | quickstep/src/com/android/launcher3/uioverrides/ApiWrapper.java:50-53 | For dimensions up to 2^28 the offset is exactly 2*spacing + 3*size and grows with either |
| ApiWrapper.HotseatOffsetWraps | quickstep/src/com/android/launcher3/uioverrides/ApiWrapper.java:52-53 | Whenever both products fit in an int but their sum does not, the offset is the sum less 2^32, as Java's int wraps, and so is negative |

## Left out

- Views, toasts, logging, accessibility announcements, animations, Glide and view inflation. Only the values written into views are modelled: the selection, the tab, the icon indices, the radii and the tint list.
- Threading. The executors and `Handler.post`/`postDelayed` calls are left out, and each callback is modelled at the point where its result is delivered.
- Colour science. The dynamic colour scheme, `ColorScheme.getAccentColor`, `toColorString` and the sRGB conversion are function-typed parameters, because they are floating-point and not part of this model.
- ColorSection.NumPages: computes the ceiling on integers. It leaves out the float rounding of `(float) total / perPage` for option counts above 2^24.
- The XML pull parser. It is replaced by the sequence of events it reports. The end of the sequence stands for END_DOCUMENT and a `Failure` event for an exception; attribute lookups are fields of the start-tag event.
- Builder aliasing. `build` writes the default title back into the builder, which is modelled by returning the updated builder. The shared mutable icon list and package map between a builder and its bundle are not modelled.
- Resource lookups. The default title, the icon mask path, the corner radius, the round-corner threshold, the control grey colour and the resource ids are parameters.
- The surface plumbing of WallpaperColorThemePreview. It is reduced to the calls on the surface and the callback's state. The render listener's later alpha animation is left out.
- The lock-screen previewer, tab and toolbar rebuild of the live wallpaper fragment. They are left out as view work; the recolour is recorded in the fragment's list of recolours.
- Constants not defined in the modelled files:
  - The request and result codes of the custom-theme activity are a parameter.
  - The no-wrap configuration hint is a parameter.
  - The overlay category strings and the monet style names are taken from the platform library.
  - The first cursor column `FlagManager.FIELD_ID` is taken to be "id".
- ColorSection.PageSlice: `subList` throws when a page starts past the list. The model requires the page to start inside the list instead. `ColorSection.PageStartsInList` and `ColorSection.SelectedPageHoldsSelection` show that the pages the pager counts and jumps to always do.
- ColorSection.SetupColorOptions: with paging on, the same `subList` precondition applies.
- ColorSection.TryApply: the source reads `elapsedRealtime()` twice, once for the check and once to record the time. The model records the time of the check. The clock does not run backwards, so the recorded time could only be later, and the spacing between accepted applies could only grow.
- ModeSection.OnViewActivated: the toggle view is taken to pass `setEnabled` on to its switch, so the switch's enabled state is the section's `toggleEnabled`.
- ModeSection.OnStopTask: unregistering a receiver that is not registered throws inside the executor, where the exception is swallowed. The model just leaves the receiver unregistered.
- UpdateItemTask.DoInBackground: the trust database's hidden-app table is taken to be a set of package names, with insertion for `addHiddenApp` and removal for `removeHiddenApp`.
- GridFragment.OnApplySuccessReloaded: `setSelectedOption` is taken to fire the option listener, as the source's comment says. The model also requires a non-empty list, since `getSelectedOption` would throw on an empty one. The manager only delivers non-empty lists (`GridOptionsManager.FetchDispatch`).
- ThemeOptionPreviewer.TintFollowsState: `ColorStateList` falls back to its first colour when no spec matches. This is framework behaviour, modelled by `ColorForState`.
- ThemeOptionPreviewer.ColorTileIconsAsWritten: a null shape drawable, which `createPreviewInfo` yields for an empty icon mask, would also throw inside the tile loop. That case is not modelled.
- ThemeFragment.OnOptionSelected: the wallpaper override, the event log and the theme info view are left out.
- Theme and grid option previews (`setPreviewInfo`, `updatePreview`) are recorded only as the option the preview shows.

## Findings

| source | as written | input that shows it | evidently intended | confidence | as-written member | corrected member |
|---|---|---|---|---|---|---|
| src/com/android/customization/picker/theme/ThemeOptionPreviewer.java:173-174 | The tile loop is bounded by `i < icons.size()`, but tile `i` reads `icons.get([0,1,3,4][i])` | A preview with 3 or 4 icons: tile 2 or tile 3 reads index 3 or 4, past the list, and `get` throws | A tile is drawn only while its own icon index is inside the list | medium, not executed | ThemeOptionPreviewer.ColorTileIconsAsWritten | ThemeOptionPreviewer.ColorTileIcons |
