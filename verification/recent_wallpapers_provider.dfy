/** RecentWallpapersProvider: a content provider stub that answers by URI
    path. A null path (a URI without one) is None. */
module RecentWallpapersProvider {
  import opened Common

  const LIST_RECENT_PATH: string := "/list_recent"
  const SET_RECENT_WALLPAPER_PATH: string := "/set_recent_wallpaper"
  const CONTENT_TYPE: string := "vnd.android.cursor.dir/recent_wallpapers"
  /** The first column; the SystemUI flag manager's id field name. */
  const FIELD_ID: string := "id"
  const RECENT_COLUMNS: seq<string> := [FIELD_ID, "placeholder_color", "component", "title"]

  /** A matrix cursor: its column names and its rows. */
  datatype Cursor = Cursor(columns: seq<string>, rows: seq<seq<string>>)

  /** query: an empty four-column cursor for the listing path, null for any
      other path. */
  function Query(path: Option<string>): (c: Option<Cursor>)
    ensures c.Some? <==> path == Some(LIST_RECENT_PATH)
    ensures c.Some? ==> c.value.columns == RECENT_COLUMNS && |c.value.rows| == 0
  {
    if path != Some(LIST_RECENT_PATH) then None else Some(Cursor(RECENT_COLUMNS, []))
  }

  /** update: one row for the set-recent path, none otherwise. */
  function Update(path: Option<string>): (n: int)
    ensures n == 1 <==> path == Some(SET_RECENT_WALLPAPER_PATH)
    ensures n == 0 || n == 1
  {
    if path != Some(SET_RECENT_WALLPAPER_PATH) then 0 else 1
  }

  /** delete, insert, getType and onCreate do not look at their arguments. */
  function Delete(path: Option<string>): (n: int)
    ensures n == 0
  {
    0
  }

  function Insert(path: Option<string>): (uri: Option<string>)
    ensures uri.None?
  {
    None
  }

  function GetType(path: Option<string>): (t: string)
    ensures t == CONTENT_TYPE
  {
    CONTENT_TYPE
  }

  /** No path is answered by both query and update, so the provider never
      lists and records through the same URI. */
  lemma QueryAndUpdatePathsDisjoint(path: Option<string>)
    ensures !(Query(path).Some? && Update(path) == 1)
  {
  }
}
