/** ApiWrapper: small platform shims of the launcher's quickstep build. */
module ApiWrapper {
  import opened Common

  /** `Display.TYPE_INTERNAL`. */
  const TYPE_INTERNAL: int := 1

  datatype NavigationMode = ThreeButtons | TwoButtons | NoButton

  /** getPersons: a null array becomes the shared empty array; any other is
      returned as is. */
  function GetPersons<P>(persons: Option<seq<P>>): (r: seq<P>)
    ensures persons.None? ==> r == []
    ensures persons.Some? ==> r == persons.value
  {
    persons.GetOr([])
  }

  /** The other `Display` types: unknown, external, Wi-Fi, overlay, virtual. */
  const OTHER_DISPLAY_TYPES: set<int> := {0, 2, 3, 4, 5}

  /** isInternalDisplay: the display's type is TYPE_INTERNAL. */
  function IsInternalDisplay(displayType: int): (internal: bool)
    ensures internal <==> displayType == TYPE_INTERNAL
  {
    displayType == TYPE_INTERNAL
  }

  /** Only the built-in panel counts as internal: an unknown, external, Wi-Fi,
      overlay or virtual display does not. */
  lemma OnlyBuiltInPanelIsInternal()
    ensures IsInternalDisplay(TYPE_INTERNAL)
    ensures forall t :: t in OTHER_DISPLAY_TYPES ==> !IsInternalDisplay(t)
  {
  }

  /** getHotseatEndOffset: room for two spacings and three buttons in
      three-button navigation, nothing otherwise; Java `int` arithmetic. */
  function GetHotseatEndOffset(mode: NavigationMode, spacing: int, size: int): (offset: int)
    requires IsInt32(spacing) && IsInt32(size)
    ensures IsInt32(offset)
    ensures mode != ThreeButtons ==> offset == 0
    ensures mode == ThreeButtons ==> (offset - (2 * spacing + 3 * size)) % 0x1_0000_0000 == 0
  {
    if mode == ThreeButtons then Wrap32(Wrap32(2 * spacing) + Wrap32(3 * size)) else 0
  }

  /** For pixel sizes a display can have the sum does not wrap: the offset is
      exactly two spacings and three buttons, and grows with either. */
  lemma HotseatOffsetExact(spacing: int, size: int, spacing2: int, size2: int)
    requires 0 <= spacing <= spacing2 <= 0x1000_0000 && 0 <= size <= size2 <= 0x1000_0000
    ensures GetHotseatEndOffset(ThreeButtons, spacing, size) == 2 * spacing + 3 * size
    ensures GetHotseatEndOffset(ThreeButtons, spacing, size) <= GetHotseatEndOffset(ThreeButtons, spacing2, size2)
  {
  }

  /** When both products fit in an `int` but their sum does not, the sum
      wraps around like Java's `int`: the offset is the true sum less 2^32,
      which is negative. */
  lemma HotseatOffsetWraps(spacing: int, size: int)
    requires 0 <= spacing && 0 <= size && 2 * spacing <= INT_MAX && 3 * size <= INT_MAX
    requires 2 * spacing + 3 * size > INT_MAX
    ensures GetHotseatEndOffset(ThreeButtons, spacing, size) == 2 * spacing + 3 * size - 0x1_0000_0000
    ensures GetHotseatEndOffset(ThreeButtons, spacing, size) < 0
  {
  }
}
