/**
 * The editor preference of `src/pages/Settings.tsx`: the list of editors shown,
 * the selected executable path, and the two settings `default_editor_path` and
 * `default_editor_name` in the key/value settings store.
 */
module EditorSettings {
  import opened Wrappers
  import opened KeyValue

  datatype EditorInfo = EditorInfo(name: string, slug: string, path: string)

  const PathKey: string := "default_editor_path"
  const NameKey: string := "default_editor_name"
  const CustomName: string := "Custom Editor"
  const CustomSlug: string := "custom"
  const ManualSlug: string := "custom-manual"

  /** `editors.some(e => e.path === path)`. */
  predicate IsKnown(editors: seq<EditorInfo>, path: string) {
    exists i :: 0 <= i < |editors| && editors[i].path == path
  }

  /** The index `editors.find(e => e.path === path)` stops at: the first entry with that path, or |editors|. */
  function FindIndex(editors: seq<EditorInfo>, path: string): (k: nat)
    ensures k <= |editors|
    ensures forall i :: 0 <= i < k ==> editors[i].path != path
    ensures k < |editors| ==> editors[k].path == path
    ensures k == |editors| <==> !IsKnown(editors, path)
  {
    if editors == [] then 0
    else if editors[0].path == path then 0
    else
      var k := 1 + FindIndex(editors[1..], path);
      assert forall i :: 1 <= i < |editors| ==> editors[i] == editors[1..][i - 1];
      k
  }

  /** No entry before index `i` has the path entry `i` has. */
  ghost predicate IsFirstWithPath(editors: seq<EditorInfo>, i: nat)
    requires i < |editors|
  {
    forall j :: 0 <= j < i ==> editors[j].path != editors[i].path
  }

  /** `editors.find(e => e.path === path)?.name || "Custom Editor"`: the first match's name, unless it is empty or there is no match. */
  function NameFor(editors: seq<EditorInfo>, path: string): (r: string)
    ensures r != ""
    ensures !IsKnown(editors, path) ==> r == CustomName
    ensures forall i :: 0 <= i < |editors| && editors[i].path == path && IsFirstWithPath(editors, i) ==>
      r == (if editors[i].name != "" then editors[i].name else CustomName)
  {
    var k := FindIndex(editors, path);
    if k < |editors| && editors[k].name != "" then editors[k].name else CustomName
  }

  /** Entries before the extras keep their first match: a path found in `d` is found at the same place in `d + extra`. */
  lemma {:induction false} FindIndexInPrefix(d: seq<EditorInfo>, extra: seq<EditorInfo>, path: string)
    requires IsKnown(d, path)
    ensures FindIndex(d + extra, path) == FindIndex(d, path)
  {
    var k := FindIndex(d, path);
    var k' := FindIndex(d + extra, path);
    assert (d + extra)[k] == d[k];
  }

  /** The last segment of a path split on '/' and '\': what `path.split(/[/\\]/).pop()` returns. */
  function LastSegment(path: string): (r: string)
    ensures |r| <= |path| && path[|path| - |r|..] == r
    ensures forall i :: 0 <= i < |r| ==> r[i] != '/' && r[i] != '\\'
    ensures |r| < |path| ==> path[|path| - |r| - 1] == '/' || path[|path| - |r| - 1] == '\\'
  {
    if path == [] then []
    else if path[|path| - 1] == '/' || path[|path| - 1] == '\\' then []
    else
      var r := LastSegment(path[..|path| - 1]) + [path[|path| - 1]];
      assert path[..|path| - 1][|path| - |r|..] + [path[|path| - 1]] == path[|path| - |r|..];
      r
  }

  /** The display name of a manually located executable: its file name, or "Custom Editor" when that is empty. */
  function FileName(path: string): (r: string)
    ensures r != ""
    ensures || (&& |r| <= |path| && path[|path| - |r|..] == r
                && (forall i :: 0 <= i < |r| ==> r[i] != '/' && r[i] != '\\')
                && (|r| == |path| || path[|path| - |r| - 1] == '/' || path[|path| - |r| - 1] == '\\'))
            || (r == CustomName && (path == "" || path[|path| - 1] == '/' || path[|path| - 1] == '\\'))
  {
    var last := LastSegment(path);
    if last == "" then CustomName else last
  }

  /** The two state variables of the page. */
  datatype View = View(editors: seq<EditorInfo>, selected: string)

  /** The page's state on first render: no editors, nothing selected. */
  const InitialView: View := View([], "")

  /** Nothing is selected, or the selection is the path of an entry in the list. */
  ghost predicate Coherent(v: View) {
    v.selected == "" || IsKnown(v.editors, v.selected)
  }

  /**
   * What `initData` leaves on the freshly rendered page, given what editor
   * detection returned (None when it threw) and the settings store.
   */
  function Initialised(detected: Option<seq<EditorInfo>>, store: map<string, string>): (r: View)
    ensures Coherent(r)
    ensures detected.None? ==> r == InitialView
    ensures detected.Some? ==>
      |detected.value| <= |r.editors| <= |detected.value| + 1 && r.editors[..|detected.value|] == detected.value
  {
    match detected
    case None => InitialView
    case Some(d) =>
      var saved := Get(store, PathKey);
      if Truthy(saved) then
        if IsKnown(d, saved.value) then View(d, saved.value)
        else
          var savedName := if Truthy(Get(store, NameKey)) then store[NameKey] else CustomName;
          var es := d + [EditorInfo(savedName, CustomSlug, saved.value)];
          assert es[|d|].path == saved.value && es[..|d|] == d;
          View(es, saved.value)
      else if |d| > 0 then View(d, d[0].path)
      else View(d, "")
  }

  /** The outcome of `initData` when detection succeeded: the saved path wins, else the first detected editor. */
  lemma InitialisedSelection(d: seq<EditorInfo>, store: map<string, string>)
    ensures var v := Initialised(Some(d), store);
            && (Truthy(Get(store, PathKey)) ==> v.selected == store[PathKey])
            && (!Truthy(Get(store, PathKey)) && |d| > 0 ==> v.selected == d[0].path)
            && (!Truthy(Get(store, PathKey)) && |d| == 0 ==> v.selected == "")
            && Coherent(v)
  {
    var v := Initialised(Some(d), store);
    if Truthy(Get(store, PathKey)) && !IsKnown(d, store[PathKey]) {
      assert v.editors[|d|].path == store[PathKey];
    } else if !Truthy(Get(store, PathKey)) && |d| > 0 {
      assert v.editors[0].path == d[0].path;
    }
  }

  /**
   * The editor list after `initData`: the detected list, plus one "custom"
   * entry for a saved path detection did not find, named by the saved name or
   * "Custom Editor".
   */
  lemma InitialisedEditors(d: seq<EditorInfo>, store: map<string, string>)
    ensures var v := Initialised(Some(d), store);
            var saved := Get(store, PathKey);
            && (Truthy(saved) && !IsKnown(d, saved.value) ==>
                  |v.editors| == |d| + 1 && v.editors[..|d|] == d
                  && v.editors[|d|].slug == CustomSlug && v.editors[|d|].path == saved.value
                  && v.editors[|d|].name == (if Truthy(Get(store, NameKey)) then store[NameKey] else CustomName))
            && (!(Truthy(saved) && !IsKnown(d, saved.value)) ==> v.editors == d)
  {
    var v := Initialised(Some(d), store);
    var saved := Get(store, PathKey);
    if Truthy(saved) && !IsKnown(d, saved.value) {
      assert v.editors[..|d|] == d;
    }
  }

  /** What `handleManualLocate` does with a picked file: append an entry for it and select it. */
  function Located(v: View, path: string): (r: View)
    ensures r.selected == path && IsKnown(r.editors, path)
    ensures |r.editors| == |v.editors| + 1 && r.editors[..|v.editors|] == v.editors
    ensures r.editors[|v.editors|] == EditorInfo(FileName(path), ManualSlug, path)
  {
    var e := EditorInfo(FileName(path), ManualSlug, path);
    var es := v.editors + [e];
    assert es[|v.editors|] == e && es[..|v.editors|] == v.editors;
    View(es, path)
  }

  /** Locating a file manually keeps the page coherent, and the new entry is the selection. */
  lemma LocatedCoherent(v: View, path: string)
    ensures Coherent(Located(v, path))
    ensures Located(v, path).editors[..|v.editors|] == v.editors
    ensures !IsKnown(v.editors, path) ==> NameFor(Located(v, path).editors, path) == FileName(path)
    ensures IsKnown(v.editors, path) ==> NameFor(Located(v, path).editors, path) == NameFor(v.editors, path)
  {
    var w := Located(v, path);
    assert w.editors[|v.editors|].path == path;
    assert w.editors[..|v.editors|] == v.editors;
    if !IsKnown(v.editors, path) {
      FindIndexAfterPrefix(v.editors, w.editors[|v.editors|]);
    } else {
      FindIndexInPrefix(v.editors, [w.editors[|v.editors|]], path);
    }
  }

  /** The settings store after `handleSave`: nothing with no selection, else the selected path and its display name. */
  function Saved(store: map<string, string>, v: View): (r: map<string, string>)
    ensures v.selected == "" ==> r == store
    ensures v.selected != "" ==>
      && r.Keys == store.Keys + {PathKey, NameKey}
      && r[PathKey] == v.selected
      && r[NameKey] == NameFor(v.editors, v.selected)
    ensures forall k :: k in store && k != PathKey && k != NameKey ==> k in r && r[k] == store[k]
  {
    if v.selected == "" then store
    else store[PathKey := v.selected][NameKey := NameFor(v.editors, v.selected)]
  }

  /**
   * Save, then open the page again with the same detected editors: the same
   * path is selected, and it is shown under the same name.
   */
  lemma {:induction false} SaveThenReinit(d: seq<EditorInfo>, extra: seq<EditorInfo>, selected: string, store: map<string, string>)
    requires selected != "" && IsKnown(d + extra, selected)
    ensures var v := View(d + extra, selected);
            var w := Initialised(Some(d), Saved(store, v));
            && w.selected == selected
            && NameFor(w.editors, selected) == NameFor(v.editors, selected)
  {
    var v := View(d + extra, selected);
    var s := Saved(store, v);
    var w := Initialised(Some(d), s);
    if IsKnown(d, selected) {
      FindIndexInPrefix(d, extra, selected);
    } else {
      var name := NameFor(v.editors, selected);
      assert s[NameKey] == name;
      assert w.editors == d + [EditorInfo(name, CustomSlug, selected)];
      assert w.editors[|d|].path == selected;
      FindIndexAfterPrefix(d, EditorInfo(name, CustomSlug, selected));
    }
  }

  /** A path that is not in `d` is first found in the entry appended after it. */
  lemma FindIndexAfterPrefix(d: seq<EditorInfo>, e: EditorInfo)
    requires !IsKnown(d, e.path)
    ensures FindIndex(d + [e], e.path) == |d|
  {
    var k := FindIndex(d + [e], e.path);
    assert (d + [e])[|d|].path == e.path;
  }

  /** The settings page: its two state variables and the settings store it reads and writes. */
  class SettingsPage {
    var editors: seq<EditorInfo>
    var selected: string
    var store: map<string, string>

    ghost predicate Valid()
      reads this
    {
      Coherent(View(editors, selected))
    }

    function CurrentView(): View
      reads this
    {
      View(editors, selected)
    }

    /** The page mounting over `store`: first render, then the `initData` mount effect. */
    constructor (store: map<string, string>, detected: Option<seq<EditorInfo>>)
      ensures Valid()
      ensures this.store == store
      ensures CurrentView() == Initialised(detected, store)
    {
      this.store := store;
      editors := [];
      selected := "";
      new;
      InitData(detected);
    }

    /** `initData`, run once on mount, from the first-render state. */
    method InitData(detected: Option<seq<EditorInfo>>)
      requires CurrentView() == InitialView
      modifies this`editors, this`selected
      ensures Valid()
      ensures CurrentView() == Initialised(detected, store)
    {
      if detected.None? {
        return;
      }
      var d := detected.value;
      editors := d;
      var savedPath := Get(store, PathKey);
      if Truthy(savedPath) {
        selected := savedPath.value;
        if !IsKnown(d, savedPath.value) {
          var storedName := Get(store, NameKey);
          var savedName := if Truthy(storedName) then storedName.value else CustomName;
          editors := editors + [EditorInfo(savedName, CustomSlug, savedPath.value)];
        }
      } else if |d| > 0 {
        selected := d[0].path;
      }
      InitialisedSelection(d, store);
    }

    /** Clicking an editor's radio button selects its path. */
    method Choose(i: nat)
      requires Valid() && i < |editors|
      modifies this`selected
      ensures Valid()
      ensures selected == editors[i].path
    {
      selected := editors[i].path;
    }

    /** `handleManualLocate`: `picked` is what the file dialog returned (None when it was cancelled). */
    method ManualLocate(picked: Option<string>)
      requires Valid()
      modifies this`editors, this`selected
      ensures Valid()
      ensures Truthy(picked) ==> CurrentView() == Located(old(CurrentView()), picked.value)
      ensures !Truthy(picked) ==> CurrentView() == old(CurrentView())
    {
      if Truthy(picked) {
        var path := picked.value;
        var filename := FileName(path);
        editors := editors + [EditorInfo(filename, ManualSlug, path)];
        selected := path;
        LocatedCoherent(old(CurrentView()), path);
      }
    }

    /** `handleSave`: with no selection nothing is written; else the path, then its display name. */
    method HandleSave()
      requires Valid()
      modifies this`store
      ensures Valid()
      ensures store == Saved(old(store), CurrentView())
    {
      if selected == "" {
        return;
      }
      store := store[PathKey := selected];
      var editorName := NameFor(editors, selected);
      store := store[NameKey := editorName];
    }
  }
}
