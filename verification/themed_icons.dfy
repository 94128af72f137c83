/** ThirdPartyIconProvider: the themed-icon map read from the
    `grayscale_icon_map` XML resource, and the decisions `getIcon` takes with
    it. The XML parser is replaced by the sequence of events it would report;
    the end of the sequence is END_DOCUMENT and a `Failure` event is an
    exception thrown while reading. A ThemeData is kept as its drawable id. */
module ThemedIcons {
  import opened Common

  const TAG_ICON: string := "icon"
  const ICON_TYPE_DEFAULT: int := 0

  /** One step of the pull parser: a start tag with its `package` and
      `drawable` attributes (drawable 0 when absent), an end tag with the
      parser's depth there, anything else, or an exception. */
  datatype XmlEvent =
    | StartTag(name: string, pkg: Option<string>, drawable: int)
    | EndTag(depth: int)
    | Other
    | Failure

  /** An entry-producing tag: `icon` with a non-empty package and a non-zero
      drawable. */
  predicate Qualifies(e: XmlEvent) {
    e.StartTag? && e.name == TAG_ICON && e.pkg.Some? && e.pkg.value != "" && e.drawable != 0
  }

  /** The map after putting every qualifying tag of `es`, in order, into
      `acc`. */
  function Fold(acc: map<string, int>, es: seq<XmlEvent>): map<string, int>
    decreases |es|
  {
    if |es| == 0 then acc
    else
      var m := Fold(acc, es[..|es| - 1]);
      var e := es[|es| - 1];
      if Qualifies(e) then m[e.pkg.value := e.drawable] else m
  }

  /** A package is in the map exactly when it was there or some qualifying tag
      names it, and then it maps to the drawable of the LAST such tag. */
  lemma {:induction false} FoldLastWins(acc: map<string, int>, es: seq<XmlEvent>, pkg: string)
    ensures pkg in Fold(acc, es) <==>
      pkg in acc || exists i :: 0 <= i < |es| && Qualifies(es[i]) && es[i].pkg.value == pkg
    ensures forall i :: (0 <= i < |es| && Qualifies(es[i]) && es[i].pkg.value == pkg &&
                         (forall j :: i < j < |es| ==> !(Qualifies(es[j]) && es[j].pkg.value == pkg))) ==>
      pkg in Fold(acc, es) && Fold(acc, es)[pkg] == es[i].drawable
    ensures (forall i :: 0 <= i < |es| ==> !(Qualifies(es[i]) && es[i].pkg.value == pkg)) && pkg in acc ==>
      Fold(acc, es)[pkg] == acc[pkg]
    decreases |es|
  {
    if |es| > 0 {
      var init := es[..|es| - 1];
      FoldLastWins(acc, init, pkg);
      assert forall i :: 0 <= i < |init| ==> init[i] == es[i];
    }
  }

  /** The event that ends the body loop: an exception, or the end tag that
      closes the level the parser started at. */
  predicate Ends(e: XmlEvent, startDepth: int) {
    e.Failure? || (e.EndTag? && e.depth <= startDepth)
  }

  /** How many body events are examined before the loop ends. */
  function Examined(es: seq<XmlEvent>, startDepth: int): (k: nat)
    ensures k <= |es|
    ensures forall i :: 0 <= i < k ==> !Ends(es[i], startDepth)
    ensures k < |es| ==> Ends(es[k], startDepth)
  {
    if |es| == 0 || Ends(es[0], startDepth) then 0
    else
      var k := 1 + Examined(es[1..], startDepth);
      assert forall i :: 1 <= i < |es| ==> es[i] == es[1..][i - 1];
      k
  }

  /** Where the skip loop stops: the first start tag (the root) or the first
      exception, else the end of the document. */
  function RootIndex(es: seq<XmlEvent>): (k: nat)
    ensures k <= |es|
    ensures forall i :: 0 <= i < k ==> !es[i].StartTag? && !es[i].Failure?
    ensures k < |es| ==> es[k].StartTag? || es[k].Failure?
  {
    if |es| == 0 || es[0].StartTag? || es[0].Failure? then 0
    else
      var k := 1 + RootIndex(es[1..]);
      assert forall i :: 1 <= i < |es| ==> es[i] == es[1..][i - 1];
      k
  }

  /** The reference parse: nothing when no root is reached or reading it
      throws; otherwise the fold over the body events examined after the root. */
  function Parse(es: seq<XmlEvent>, startDepth: int): map<string, int> {
    var r := RootIndex(es);
    if r == |es| || es[r].Failure? then map[]
    else
      var body := es[r + 1..];
      Fold(map[], body[..Examined(body, startDepth)])
  }

  /** The two loops of getThemedIconMap over the event sequence; an exception
      leaves the entries put so far. */
  method ParseThemedIconMap(es: seq<XmlEvent>, startDepth: int) returns (m: map<string, int>)
    ensures m == Parse(es, startDepth)
  {
    m := map[];
    var i := 0;
    while i < |es| && !es[i].StartTag? && !es[i].Failure?
      invariant 0 <= i <= RootIndex(es)
    {
      i := i + 1;
    }
    if i == |es| || es[i].Failure? {
      return;
    }
    var body := es[i + 1..];
    var k := Examined(body, startDepth);
    var j := 0;
    while j < |body| && !Ends(body[j], startDepth)
      invariant 0 <= j <= k
      invariant m == Fold(map[], body[..j])
    {
      var e := body[j];
      if e.StartTag? && e.name == TAG_ICON {
        if e.drawable != 0 && e.pkg.Some? && e.pkg.value != "" {
          m := m[e.pkg.value := e.drawable];
        }
      }
      assert body[..j + 1][..j] == body[..j];
      j := j + 1;
    }
  }

  /** Once the loop has ended, later events are never read: an exception
      keeps the partial map, and so does anything after the closing tag. */
  lemma ParseIgnoresTail(es: seq<XmlEvent>, startDepth: int, more: seq<XmlEvent>)
    requires RootIndex(es) < |es| && es[RootIndex(es)].StartTag?
    requires Examined(es[RootIndex(es) + 1..], startDepth) < |es| - RootIndex(es) - 1
    ensures Parse(es + more, startDepth) == Parse(es, startDepth)
  {
    var r := RootIndex(es);
    RootIndexOfExtension(es, more);
    var body := es[r + 1..];
    var body2 := (es + more)[r + 1..];
    assert body2 == body + more;
    ExaminedOfExtension(body, more, startDepth);
    assert body2[..Examined(body2, startDepth)] == body[..Examined(body, startDepth)];
  }

  lemma {:induction false} RootIndexOfExtension(es: seq<XmlEvent>, more: seq<XmlEvent>)
    requires RootIndex(es) < |es|
    ensures RootIndex(es + more) == RootIndex(es)
  {
    if !(es[0].StartTag? || es[0].Failure?) {
      assert (es + more)[1..] == es[1..] + more;
      RootIndexOfExtension(es[1..], more);
    }
  }

  lemma {:induction false} ExaminedOfExtension(es: seq<XmlEvent>, more: seq<XmlEvent>, startDepth: int)
    requires Examined(es, startDepth) < |es|
    ensures Examined(es + more, startDepth) == Examined(es, startDepth)
  {
    if !Ends(es[0], startDepth) {
      assert (es + more)[1..] == es[1..] + more;
      ExaminedOfExtension(es[1..], more, startDepth);
    }
  }

  /** getThemedIconMap with its cache: a built map is returned as is without
      reading again; a missing resource (id 0) gives an empty map; otherwise
      the parse result, partial or not, is cached and returned. */
  function ThemedIconMap(cache: Option<map<string, int>>, resId: int, es: seq<XmlEvent>, startDepth: int)
    : (r: (Option<map<string, int>>, map<string, int>))
    ensures r.0 == Some(r.1)
    ensures cache.Some? ==> r.1 == cache.value
    ensures cache.None? && resId == 0 ==> r.1 == map[]
    ensures cache.None? && resId != 0 ==> r.1 == Parse(es, startDepth)
  {
    if cache.Some? then (cache, cache.value)
    else
      var m := if resId != 0 then Parse(es, startDepth) else map[];
      (Some(m), m)
  }

  /** The second lookup answers from the cache, whatever the resource says by
      then. */
  lemma ThemedIconMapIsMemoised(resId: int, es: seq<XmlEvent>, startDepth: int, resId2: int, es2: seq<XmlEvent>)
    ensures var (c1, m1) := ThemedIconMap(None, resId, es, startDepth);
      ThemedIconMap(c1, resId2, es2, startDepth) == (c1, m1)
  {
  }

  /** A launcher icon: its drawable, its changing-configuration bits, and the
      themed drawable it is wrapped with, if any. */
  datatype Icon = Icon(drawable: int, configs: bv32, themedWith: Option<int>)

  /** The configuration bits after `setChangingConfigurations(bits | hint)`. */
  function WithHint(configs: bv32, hint: bv32): bv32 {
    configs | hint
  }

  /** The hint is set and every bit the icon had is kept. */
  lemma WithHintKeepsBits(configs: bv32, hint: bv32)
    ensures WithHint(configs, hint) & configs == configs
    ensures WithHint(configs, hint) & hint == hint
    ensures WithHint(WithHint(configs, hint), hint) == WithHint(configs, hint)
  {
  }

  /** getIcon: the fallback replaces a null lookup, the no-wrap hint is added
      to the configuration bits, and the icon is wrapped only when themed
      icons are on and the package has an entry in the themed-icon map (which
      the caller obtains from ThemedIconMap, and only when themed icons are on). */
  function GetIcon(lookup: Option<Icon>, fallback: Icon, noWrapHint: bv32, themedEnabled: bool,
                   themedMap: map<string, int>, pkg: string): (r: Icon)
    ensures r.drawable == lookup.GetOr(fallback).drawable
    ensures r.configs == WithHint(lookup.GetOr(fallback).configs, noWrapHint)
    ensures themedEnabled && pkg in themedMap ==> r.themedWith == Some(themedMap[pkg])
    ensures !(themedEnabled && pkg in themedMap) ==> r.themedWith == lookup.GetOr(fallback).themedWith
  {
    var icon := lookup.GetOr(fallback);
    var themedWith := if themedEnabled && pkg in themedMap then Some(themedMap[pkg]) else icon.themedWith;
    Icon(icon.drawable, WithHint(icon.configs, noWrapHint), themedWith)
  }
}
