/**
 * The de-duplicating tab renamer (`AutoTabName`): for each tab of a pane update it
 * names the tab after the title of the tab's first focused pane, behind a
 * configurable prefix, and calls `rename_tab` only when that name differs from
 * the last one it gave the tab.
 */
module AutoTabName {
  import opened Wrappers
  import opened Strings
  import opened ZellijTile

  /** `iter().find(|p| p.is_focused)`: the index of the first focused pane. */
  function FirstFocused(panes: seq<Pane>): (r: Option<nat>)
    ensures r.Some? ==>
      (&& r.value < |panes| && panes[r.value].isFocused
       && forall j | 0 <= j < r.value :: !panes[j].isFocused)
    ensures r.None? ==> forall j | 0 <= j < |panes| :: !panes[j].isFocused
  {
    if panes == [] then None
    else if panes[0].isFocused then Some(0)
    else
      var rest := FirstFocused(panes[1..]);
      if rest.Some? then Some(rest.value + 1) else None
  }

  /** The name a tab should have: the prefix and the first focused pane's title, or
      nothing when there is no focused pane or its title is empty. */
  function Wanted(prefix: string, entry: TabPanes): (name: Option<string>)
    ensures name.Some? <==> exists k :: FirstFocused(entry.panes) == Some(k) && entry.panes[k].title != ""
    ensures name.Some? ==> name.value == prefix + entry.panes[FirstFocused(entry.panes).value].title
  {
    var focused := FirstFocused(entry.panes);
    if focused.Some? && entry.panes[focused.value].title != "" then Some(prefix + entry.panes[focused.value].title)
    else None
  }

  /** `last_tab_names.get(&tab_id) == Some(&new_name)`. */
  predicate Remembered(names: map<nat, string>, id: nat, name: string) {
    id in names && names[id] == name
  }

  /** One iteration of the loop of `update`: the names afterwards and the renames issued.
      A rename is issued exactly when the tab has a wanted name it does not already
      have; afterwards the tab has that name, and no other tab's name changes. */
  function Step(prefix: string, names: map<nat, string>, entry: TabPanes): (r: (map<nat, string>, seq<Rename>))
    ensures var id := TabId(entry.tab);
      var wanted := Wanted(prefix, entry);
      && (r.1 != [] <==> wanted.Some? && !Remembered(names, id, wanted.value))
      && (r.1 != [] ==> r.1 == [Rename(id, wanted.value)])
      && (wanted.Some? ==> Remembered(r.0, id, wanted.value))
      && (r.1 == [] ==> r.0 == names)
      && (forall k | k != id :: (k in r.0 <==> k in names) && (k in names ==> r.0[k] == names[k]))
  {
    var id := TabId(entry.tab);
    match Wanted(prefix, entry)
    case None => (names, [])
    case Some(name) =>
      if Remembered(names, id, name) then (names, []) else (names[id := name], [Rename(id, name)])
  }

  /** The whole loop of `update` over the manifest's entries, in order. */
  function UpdateFrom(prefix: string, names: map<nat, string>, manifest: seq<TabPanes>): (map<nat, string>, seq<Rename>)
    decreases |manifest|
  {
    if manifest == [] then (names, [])
    else
      var first := Step(prefix, names, manifest[0]);
      var rest := UpdateFrom(prefix, first.0, manifest[1..]);
      (rest.0, first.1 + rest.1)
  }

  /** The plugin's state. `Default` gives an empty prefix and no names. */
  class AutoTabName {
    var prefix: string
    var lastTabNames: map<nat, string>

    constructor ()
      ensures prefix == "" && lastTabNames == map[]
    {
      prefix := "";
      lastTabNames := map[];
    }

    /** `load`: the prefix from the configuration, "> " when it has none. */
    method Load(config: map<string, string>)
      modifies this
      ensures prefix == if "prefix" in config then config["prefix"] else "> "
      ensures lastTabNames == old(lastTabNames)
    {
      prefix := if "prefix" in config then config["prefix"] else "> ";
    }

    /** `update`: always answers true; a pane update renames, in manifest order, each tab
        whose wanted name differs from the one it last got, and remembers the new name. */
    method Update(event: Event) returns (handled: bool, renames: seq<Rename>)
      modifies this
      ensures handled
      ensures prefix == old(prefix)
      ensures event.OtherEvent? ==> lastTabNames == old(lastTabNames) && renames == []
      ensures event.PaneUpdate? ==> (lastTabNames, renames) == UpdateFrom(prefix, old(lastTabNames), event.manifest)
    {
      renames := [];
      if event.PaneUpdate? {
        var manifest := event.manifest;
        assert manifest[0..] == manifest;
        ghost var whole := UpdateFrom(prefix, old(lastTabNames), manifest);
        for i := 0 to |manifest|
          invariant prefix == old(prefix)
          invariant whole.0 == UpdateFrom(prefix, lastTabNames, manifest[i..]).0
          invariant whole.1 == renames + UpdateFrom(prefix, lastTabNames, manifest[i..]).1
        {
          var entry := manifest[i];
          ghost var before := renames;
          ghost var names := lastTabNames;
          var focused := FirstFocused(entry.panes);
          if focused.Some? {
            var pane := entry.panes[focused.value];
            if pane.title != "" {
              var newName := prefix + pane.title;
              var tabId := TabId(entry.tab);
              if !Remembered(lastTabNames, tabId, newName) {
                renames := renames + [Rename(tabId, newName)];
                lastTabNames := lastTabNames[tabId := newName];
              }
            }
          }
          ghost var step := Step(prefix, names, entry);
          assert lastTabNames == step.0 && renames == before + step.1;
          UpdateFromAt(prefix, names, manifest, i);
          AppendAssoc(before, step.1, UpdateFrom(prefix, step.0, manifest[i + 1..]).1);
        }
        assert manifest[|manifest|..] == [];
        assert renames + [] == renames;
      }
      handled := true;
    }
  }

  /** The loop's unfolding at entry `i`. */
  lemma UpdateFromAt(prefix: string, names: map<nat, string>, manifest: seq<TabPanes>, i: nat)
    requires i < |manifest|
    ensures var step := Step(prefix, names, manifest[i]);
      var rest := UpdateFrom(prefix, step.0, manifest[i + 1..]);
      UpdateFrom(prefix, names, manifest[i..]) == (rest.0, step.1 + rest.1)
  {
    assert manifest[i..][0] == manifest[i] && manifest[i..][1..] == manifest[i + 1..];
  }

  lemma AppendAssoc(a: seq<Rename>, b: seq<Rename>, c: seq<Rename>)
    ensures a + (b + c) == (a + b) + c
  {
  }

  /** Only the first focused pane counts: when its title is empty the tab is left alone,
      even when a later focused pane has a title. */
  lemma FirstFocusedOnly(prefix: string, names: map<nat, string>, entry: TabPanes, k: nat, later: nat)
    requires FirstFocused(entry.panes) == Some(k) && entry.panes[k].title == ""
    requires k < later < |entry.panes| && entry.panes[later].isFocused && entry.panes[later].title != ""
    ensures Step(prefix, names, entry) == (names, [])
  {
  }

  /** A tab the manifest does not mention keeps its remembered name, or its lack of one. */
  lemma {:induction false} UpdateFromFrame(prefix: string, names: map<nat, string>, manifest: seq<TabPanes>, id: nat)
    requires forall i | 0 <= i < |manifest| :: TabId(manifest[i].tab) != id
    ensures var after := UpdateFrom(prefix, names, manifest).0;
      (id in after <==> id in names) && (id in names ==> after[id] == names[id])
    decreases |manifest|
  {
    if manifest != [] {
      var first := Step(prefix, names, manifest[0]);
      UpdateFromFrame(prefix, first.0, manifest[1..], id);
    }
  }

  /** After an update every tab with a wanted name is remembered under that name, when
      no two entries share a tab. */
  lemma {:induction false} UpdateFromSettles(prefix: string, names: map<nat, string>, manifest: seq<TabPanes>)
    requires DistinctTabIds(manifest)
    ensures var after := UpdateFrom(prefix, names, manifest).0;
      forall i | 0 <= i < |manifest| :: Wanted(prefix, manifest[i]).Some? ==>
        Remembered(after, TabId(manifest[i].tab), Wanted(prefix, manifest[i]).value)
    decreases |manifest|
  {
    if manifest != [] {
      var first := Step(prefix, names, manifest[0]);
      var tail := manifest[1..];
      assert DistinctTabIds(tail) by {
        forall i, j | 0 <= i < j < |tail|
          ensures TabId(tail[i].tab) != TabId(tail[j].tab)
        {
          assert tail[i] == manifest[i + 1] && tail[j] == manifest[j + 1];
        }
      }
      UpdateFromSettles(prefix, first.0, tail);
      var id := TabId(manifest[0].tab);
      forall i | 0 <= i < |tail|
        ensures TabId(tail[i].tab) != id
      {
        assert tail[i] == manifest[i + 1];
      }
      UpdateFromFrame(prefix, first.0, tail, id);
      var after := UpdateFrom(prefix, names, manifest).0;
      forall i | 0 <= i < |manifest| && Wanted(prefix, manifest[i]).Some?
        ensures Remembered(after, TabId(manifest[i].tab), Wanted(prefix, manifest[i]).value)
      {
        if i > 0 {
          assert manifest[i] == tail[i - 1];
        }
      }
    }
  }

  /** An update whose wanted names are all remembered already issues no rename and
      changes nothing. */
  lemma {:induction false} UpdateFromSettled(prefix: string, names: map<nat, string>, manifest: seq<TabPanes>)
    requires forall i | 0 <= i < |manifest| :: Wanted(prefix, manifest[i]).Some? ==>
      Remembered(names, TabId(manifest[i].tab), Wanted(prefix, manifest[i]).value)
    ensures UpdateFrom(prefix, names, manifest) == (names, [])
    decreases |manifest|
  {
    if manifest != [] {
      assert Step(prefix, names, manifest[0]) == (names, []);
      var tail := manifest[1..];
      forall i | 0 <= i < |tail| && Wanted(prefix, tail[i]).Some?
        ensures Remembered(names, TabId(tail[i].tab), Wanted(prefix, tail[i]).value)
      {
        assert tail[i] == manifest[i + 1];
      }
      UpdateFromSettled(prefix, names, tail);
      var rest := UpdateFrom(prefix, names, tail);
      assert rest == (names, []);
      var none: seq<Rename> := [];
      assert none + rest.1 == none;
      assert UpdateFrom(prefix, names, manifest) == (rest.0, none + rest.1);
    }
  }

  /** Idempotence: the same pane update a second time renames nothing and leaves the
      remembered names as the first time made them. */
  lemma UpdateIdempotent(prefix: string, names: map<nat, string>, manifest: seq<TabPanes>)
    requires DistinctTabIds(manifest)
    ensures var first := UpdateFrom(prefix, names, manifest);
      UpdateFrom(prefix, first.0, manifest) == (first.0, [])
  {
    UpdateFromSettles(prefix, names, manifest);
    UpdateFromSettled(prefix, UpdateFrom(prefix, names, manifest).0, manifest);
  }

  /** Every rename an update issues gives a tab of the manifest its wanted name, the
      prefix followed by a title, and there is at most one per entry. */
  lemma {:induction false} UpdateRenamesWanted(prefix: string, names: map<nat, string>, manifest: seq<TabPanes>)
    ensures var renames := UpdateFrom(prefix, names, manifest).1;
      && |renames| <= |manifest|
      && forall r | r in renames :: StartsWith(r.name, prefix)
           && exists i | 0 <= i < |manifest| :: TabId(manifest[i].tab) == r.tabId && Wanted(prefix, manifest[i]) == Some(r.name)
    decreases |manifest|
  {
    if manifest != [] {
      var first := Step(prefix, names, manifest[0]);
      var tail := manifest[1..];
      UpdateRenamesWanted(prefix, first.0, tail);
      var renames := UpdateFrom(prefix, names, manifest).1;
      assert renames == first.1 + UpdateFrom(prefix, first.0, tail).1;
      forall r | r in renames
        ensures StartsWith(r.name, prefix)
          && exists i | 0 <= i < |manifest| :: TabId(manifest[i].tab) == r.tabId && Wanted(prefix, manifest[i]) == Some(r.name)
      {
        if r in first.1 {
          var w := Wanted(prefix, manifest[0]).value;
          assert r == Rename(TabId(manifest[0].tab), w);
          var t := manifest[0].panes[FirstFocused(manifest[0].panes).value].title;
          assert r.name == prefix + t;
          assert r.name[..|prefix|] == prefix;
        } else {
          var i :| 0 <= i < |tail| && TabId(tail[i].tab) == r.tabId && Wanted(prefix, tail[i]) == Some(r.name);
          assert tail[i] == manifest[i + 1];
        }
      }
    }
  }
}
