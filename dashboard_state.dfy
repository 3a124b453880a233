// The navigation part of the dashboard hook: the current folder and the
// breadcrumb trail above it, updated by opening a folder and by clicking a
// crumb. Calls are sequential; React's batching is not modelled.

module DashboardState {
  import opened Js

  /** `{ id, name }`; the Home crumb has a null id. */
  datatype Crumb = Crumb(id: Option<string>, name: string)

  const Home := Crumb(None, "Home")

  /** The two state cells as one value. */
  datatype View = View(currentFolder: Option<string>, breadcrumbs: seq<Crumb>)

  const Initial := View(None, [Home])

  /** The trail starts at Home, every later crumb names a folder, and the
      current folder is the last crumb's. */
  predicate Consistent(v: View)
  {
    && |v.breadcrumbs| > 0
    && v.breadcrumbs[0] == Home
    && (forall k :: 1 <= k < |v.breadcrumbs| ==> v.breadcrumbs[k].id.Some?)
    && v.currentFolder == v.breadcrumbs[|v.breadcrumbs| - 1].id
  }

  /** `navigateToFolder(folderId, folderName)` */
  function OpenFolder(v: View, folderId: string, folderName: string): (w: View)
    ensures |w.breadcrumbs| == |v.breadcrumbs| + 1
    ensures w.breadcrumbs[..|v.breadcrumbs|] == v.breadcrumbs
    ensures w.breadcrumbs[|v.breadcrumbs|] == Crumb(Some(folderId), folderName)
    ensures w.currentFolder == Some(folderId)
    ensures Consistent(v) ==> Consistent(w)
  {
    View(Some(folderId), v.breadcrumbs + [Crumb(Some(folderId), folderName)])
  }

  /** `breadcrumbs.slice(0, index + 1)` for a non-negative index. */
  function KeepThrough(crumbs: seq<Crumb>, index: nat): (kept: seq<Crumb>)
    ensures |kept| == if index + 1 < |crumbs| then index + 1 else |crumbs|
    ensures kept == crumbs[..|kept|]
  {
    if index + 1 < |crumbs| then crumbs[..index + 1] else crumbs
  }

  /** `navigateToBreadcrumb(index)`: keep the crumbs up to `index` and make
      the last kept one current. A trail that is empty would make the source
      crash, which `Consistent` rules out. */
  function OpenCrumb(v: View, index: nat): (w: View)
    requires Consistent(v)
    ensures w.breadcrumbs == KeepThrough(v.breadcrumbs, index)
    ensures Consistent(w)
  {
    var kept := KeepThrough(v.breadcrumbs, index);
    View(kept[|kept| - 1].id, kept)
  }

  lemma InitialConsistent()
    ensures Consistent(Initial)
  {
  }

  /** Clicking the first crumb (what the Home button does) goes back to the start. */
  lemma HomeResets(v: View)
    requires Consistent(v)
    ensures OpenCrumb(v, 0) == Initial
  {
  }

  /** Clicking the last crumb changes nothing. */
  lemma LastCrumbIsNoOp(v: View)
    requires Consistent(v)
    ensures OpenCrumb(v, |v.breadcrumbs| - 1) == v
  {
  }

  /** Clicking the same crumb twice is clicking it once. */
  lemma OpenCrumbIdempotent(v: View, index: nat)
    requires Consistent(v)
    ensures OpenCrumb(OpenCrumb(v, index), index) == OpenCrumb(v, index)
  {
  }

  /** Opening a folder and then clicking the crumb that was last before it
      returns to the previous state. */
  lemma OpenThenBack(v: View, folderId: string, folderName: string)
    requires Consistent(v)
    ensures OpenCrumb(OpenFolder(v, folderId, folderName), |v.breadcrumbs| - 1) == v
  {
    var w := OpenFolder(v, folderId, folderName);
    assert KeepThrough(w.breadcrumbs, |v.breadcrumbs| - 1) == v.breadcrumbs;
  }

  /** Only the Home crumb has a null id, so no folder is open exactly when
      the trail is Home alone. */
  lemma NoFolderIffAtHome(v: View)
    requires Consistent(v)
    ensures v.currentFolder.None? <==> v.breadcrumbs == [Home]
  {
    if v.currentFolder.None? {
      var n := |v.breadcrumbs|;
      assert v.breadcrumbs[n - 1].id.None?;
      assert n == 1;
      assert v.breadcrumbs == [v.breadcrumbs[0]];
    }
  }

  /** The hook's state cells. */
  class Dashboard {
    var currentFolder: Option<string>
    var breadcrumbs: seq<Crumb>

    function State(): View
      reads this
    {
      View(currentFolder, breadcrumbs)
    }

    ghost predicate Valid()
      reads this
    {
      Consistent(State())
    }

    /** `useState(null)` and `useState([{ id: null, name: "Home" }])` */
    constructor ()
      ensures Valid()
      ensures State() == Initial
    {
      currentFolder := None;
      breadcrumbs := [Home];
    }

    method NavigateToFolder(folderId: string, folderName: string)
      requires Valid()
      modifies this
      ensures Valid()
      ensures State() == OpenFolder(old(State()), folderId, folderName)
    {
      currentFolder := Some(folderId);
      breadcrumbs := breadcrumbs + [Crumb(Some(folderId), folderName)];
    }

    method NavigateToBreadcrumb(index: nat)
      requires Valid()
      modifies this
      ensures Valid()
      ensures State() == OpenCrumb(old(State()), index)
    {
      var newBreadcrumbs := if index + 1 < |breadcrumbs| then breadcrumbs[..index + 1] else breadcrumbs;
      var targetFolder := newBreadcrumbs[|newBreadcrumbs| - 1];
      breadcrumbs := newBreadcrumbs;
      currentFolder := targetFolder.id;
    }
  }
}
