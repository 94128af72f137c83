/** UpdateItemTask: hides or shows one app in the trust database. The
    database's hidden-app table is taken to be a set of package names, with
    `addHiddenApp` an insertion and `removeHiddenApp` a removal. */
module UpdateItemTask {

  datatype TrustComponent = TrustComponent(packageName: string, hidden: bool)

  /** doInBackground: an empty argument list returns false and leaves the
      table alone; otherwise only the first component counts: its package is
      added when it is hidden and removed when it is not, and the answer is
      true. */
  function DoInBackground(hiddenApps: set<string>, components: seq<TrustComponent>): (r: (set<string>, bool))
    ensures r.1 <==> |components| > 0
    ensures |components| == 0 ==> r.0 == hiddenApps
    ensures |components| > 0 ==>
      (components[0].packageName in r.0 <==> components[0].hidden) &&
      (forall p :: p != components[0].packageName ==> (p in r.0 <==> p in hiddenApps))
  {
    if |components| < 1 then (hiddenApps, false)
    else
      var component := components[0];
      if component.hidden then (hiddenApps + {component.packageName}, true)
      else (hiddenApps - {component.packageName}, true)
  }

  /** onPostExecute: the callback receives exactly the background result. */
  function OnPostExecute(result: bool): (delivered: bool)
    ensures delivered == result
  {
    result
  }

  /** Hiding an app and then showing it again restores the table when it was
      not hidden before; repeating an update changes nothing. */
  lemma HideThenShowRestores(hiddenApps: set<string>, pkg: string, rest1: seq<TrustComponent>, rest2: seq<TrustComponent>)
    requires pkg !in hiddenApps
    ensures var (afterHide, _) := DoInBackground(hiddenApps, [TrustComponent(pkg, true)] + rest1);
      DoInBackground(afterHide, [TrustComponent(pkg, false)] + rest2).0 == hiddenApps
    ensures var (once, _) := DoInBackground(hiddenApps, [TrustComponent(pkg, true)] + rest1);
      DoInBackground(once, [TrustComponent(pkg, true)] + rest2).0 == once
  {
  }
}
