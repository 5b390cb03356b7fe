/**
 * The stateless tab renamer (`AutoTab`): on every pane update it renames each tab
 * after the first pane that is focused and has a title, behind the fixed prefix
 * "> ", without remembering what it did before.
 */
module AutoTab {
  import opened Wrappers
  import opened Strings
  import opened ZellijTile
  import AutoTabName

  const PREFIX: string := "> "

  /** A pane `update` can name a tab after. */
  predicate Qualifies(p: Pane) {
    p.isFocused && p.title != ""
  }

  /** `find(|p| p.is_focused && !p.title.is_empty())`: the index of the first qualifying pane. */
  function FirstQualifying(panes: seq<Pane>): (r: Option<nat>)
    ensures r.Some? ==>
      (&& r.value < |panes| && Qualifies(panes[r.value])
       && forall j | 0 <= j < r.value :: !Qualifies(panes[j]))
    ensures r.None? ==> forall j | 0 <= j < |panes| :: !Qualifies(panes[j])
  {
    if panes == [] then None
    else if Qualifies(panes[0]) then Some(0)
    else
      var rest := FirstQualifying(panes[1..]);
      if rest.Some? then Some(rest.value + 1) else None
  }

  /** The renames issued for one entry of the manifest: none when no pane qualifies,
      otherwise one, to the prefix and the first qualifying pane's title. */
  function TabRename(entry: TabPanes): (r: seq<Rename>)
    ensures |r| <= 1
    ensures r == [] <==> forall j | 0 <= j < |entry.panes| :: !Qualifies(entry.panes[j])
    ensures r != [] ==> r[0] == Rename(TabId(entry.tab), PREFIX + entry.panes[FirstQualifying(entry.panes).value].title)
  {
    var p := FirstQualifying(entry.panes);
    if p.Some? then [Rename(TabId(entry.tab), PREFIX + entry.panes[p.value].title)] else []
  }

  /** The renames of a whole pane update, entry by entry in manifest order: at most one per
      entry, and none for a manifest in which no pane qualifies. */
  function TabRenames(manifest: seq<TabPanes>): (r: seq<Rename>)
    ensures |r| <= |manifest|
    ensures (forall i, j | 0 <= i < |manifest| && 0 <= j < |manifest[i].panes| :: !Qualifies(manifest[i].panes[j])) ==> r == []
  {
    if manifest == [] then [] else TabRename(manifest[0]) + TabRenames(manifest[1..])
  }

  /** `update`: always answers true; a pane update issues the renames of its entries,
      any other event none. */
  method Update(event: Event) returns (handled: bool, renames: seq<Rename>)
    ensures handled
    ensures event.OtherEvent? ==> renames == []
    ensures event.PaneUpdate? ==> renames == TabRenames(event.manifest)
  {
    renames := [];
    if event.PaneUpdate? {
      var manifest := event.manifest;
      assert manifest[0..] == manifest;
      for i := 0 to |manifest|
        invariant TabRenames(manifest) == renames + TabRenames(manifest[i..])
      {
        var entry := manifest[i];
        ghost var before := renames;
        var p := FirstQualifying(entry.panes);
        if p.Some? {
          var wanted := PREFIX + entry.panes[p.value].title;
          renames := renames + [Rename(TabId(entry.tab), wanted)];
        }
        assert renames == before + TabRename(entry);
        TabRenamesAt(manifest, i);
        AutoTabName.AppendAssoc(before, TabRename(entry), TabRenames(manifest[i + 1..]));
      }
      assert manifest[|manifest|..] == [];
      assert renames + [] == renames;
    }
    handled := true;
  }

  /** The loop's unfolding at entry `i`. */
  lemma TabRenamesAt(manifest: seq<TabPanes>, i: nat)
    requires i < |manifest|
    ensures TabRenames(manifest[i..]) == TabRename(manifest[i]) + TabRenames(manifest[i + 1..])
  {
    assert manifest[i..][0] == manifest[i] && manifest[i..][1..] == manifest[i + 1..];
  }

  /** At most one rename per entry, every one of them to "> " and a title of a
      qualifying pane of that entry's tab. */
  lemma {:induction false} RenamesComeFromTabs(manifest: seq<TabPanes>)
    ensures var renames := TabRenames(manifest);
      && |renames| <= |manifest|
      && forall r | r in renames :: StartsWith(r.name, PREFIX)
           && exists i | 0 <= i < |manifest| :: r in TabRename(manifest[i])
  {
    if manifest != [] {
      var tail := manifest[1..];
      RenamesComeFromTabs(tail);
      var head := TabRename(manifest[0]);
      forall r | r in TabRenames(manifest)
        ensures StartsWith(r.name, PREFIX) && exists i | 0 <= i < |manifest| :: r in TabRename(manifest[i])
      {
        if r in head {
          var t := manifest[0].panes[FirstQualifying(manifest[0].panes).value].title;
          assert r.name == PREFIX + t;
          assert r.name[..|PREFIX|] == PREFIX;
        } else {
          var i :| 0 <= i < |tail| && r in TabRename(tail[i]);
          assert tail[i] == manifest[i + 1];
        }
      }
    }
  }

  /** No de-duplication: every entry with a qualifying pane gets its rename on every
      update, whatever updates came before. */
  lemma {:induction false} EveryQualifyingTabRenamed(manifest: seq<TabPanes>, i: nat, j: nat)
    requires i < |manifest| && j < |manifest[i].panes| && Qualifies(manifest[i].panes[j])
    ensures Rename(TabId(manifest[i].tab), PREFIX + manifest[i].panes[FirstQualifying(manifest[i].panes).value].title)
      in TabRenames(manifest)
  {
    if i > 0 {
      assert manifest[1..][i - 1] == manifest[i];
      EveryQualifyingTabRenamed(manifest[1..], i - 1, j);
    }
  }

  /** The two plugins choose panes differently: with an untitled focused pane before a
      titled one, `AutoTabName` leaves the tab alone while `AutoTab` renames it. */
  lemma SelectionRulesDiffer()
    ensures var entry := TabPanes(0, [Pane(true, ""), Pane(true, "vim")]);
      && AutoTabName.Step(PREFIX, map[], entry) == (map[], [])
      && TabRename(entry) == [Rename(0, "> vim")]
  {
    var entry := TabPanes(0, [Pane(true, ""), Pane(true, "vim")]);
    assert AutoTabName.FirstFocused(entry.panes) == Some(0);
    assert !Qualifies(entry.panes[0]) && Qualifies(entry.panes[1]);
    assert entry.panes[1..][0] == entry.panes[1];
    assert FirstQualifying(entry.panes[1..]) == Some(0);
    assert FirstQualifying(entry.panes) == Some(1);
    assert TabId(0) == 0;
    assert PREFIX + "vim" == "> vim";
  }

  /** Where the first focused pane of every tab has a title (or there is none), a freshly
      loaded `AutoTabName` with the default prefix issues the same renames as `AutoTab`
      on its first update, provided the manifest's tabs are distinct. */
  lemma FreshAutoTabNameAgrees(manifest: seq<TabPanes>)
    requires DistinctTabIds(manifest)
    requires forall i | 0 <= i < |manifest| :: FirstFocusedTitled(manifest[i].panes)
    ensures AutoTabName.UpdateFrom(PREFIX, map[], manifest).1 == TabRenames(manifest)
  {
    AgreeWhileUnnamed(map[], manifest);
  }

  /** The first focused pane, if any, has a title. */
  predicate FirstFocusedTitled(panes: seq<Pane>) {
    var k := AutoTabName.FirstFocused(panes);
    k.Some? ==> panes[k.value].title != ""
  }

  /** On such a pane list both rules pick the same pane. */
  lemma {:induction false} SamePane(panes: seq<Pane>)
    requires FirstFocusedTitled(panes)
    ensures AutoTabName.FirstFocused(panes) == FirstQualifying(panes)
  {
    if panes != [] && !panes[0].isFocused {
      SamePane(panes[1..]);
    }
  }

  lemma {:induction false} AgreeWhileUnnamed(names: map<nat, string>, manifest: seq<TabPanes>)
    requires DistinctTabIds(manifest)
    requires forall i | 0 <= i < |manifest| :: FirstFocusedTitled(manifest[i].panes) && TabId(manifest[i].tab) !in names
    ensures AutoTabName.UpdateFrom(PREFIX, names, manifest).1 == TabRenames(manifest)
    decreases |manifest|
  {
    if manifest != [] {
      var entry := manifest[0];
      var tail := manifest[1..];
      SamePane(entry.panes);
      var first := AutoTabName.Step(PREFIX, names, entry);
      assert first.1 == TabRename(entry);
      assert DistinctTabIds(tail) by {
        forall i, j | 0 <= i < j < |tail|
          ensures TabId(tail[i].tab) != TabId(tail[j].tab)
        {
          assert tail[i] == manifest[i + 1] && tail[j] == manifest[j + 1];
        }
      }
      forall i | 0 <= i < |tail|
        ensures FirstFocusedTitled(tail[i].panes) && TabId(tail[i].tab) !in first.0
      {
        assert tail[i] == manifest[i + 1];
      }
      AgreeWhileUnnamed(first.0, tail);
    }
  }
}
