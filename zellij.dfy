/**
 * The parts of the zellij plugin interface the two tab-naming plugins use: the
 * panes of a `PaneUpdate` event, grouped by tab, and the `rename_tab` call, which
 * the models return as a list of actions instead of performing.
 */
module ZellijTile {
  /** `PaneInfo`, reduced to the two fields the plugins read. */
  datatype Pane = Pane(isFocused: bool, title: string)

  /** One entry of `PaneManifest::panes`: a tab index and the panes of that tab. */
  datatype TabPanes = TabPanes(tab: nat, panes: seq<Pane>)

  /** `Event`: a pane update carries the manifest's entries in the order the plugin
      iterates over them; every other event is alike to these plugins. */
  datatype Event = PaneUpdate(manifest: seq<TabPanes>) | OtherEvent

  /** A `rename_tab(tab_id, name)` call. */
  datatype Rename = Rename(tabId: nat, name: string)

  const U32_MODULUS: nat := 0x1_0000_0000

  /** `tab_index as u32`: the cast keeps the low 32 bits. */
  function TabId(tab: nat): (id: nat)
    ensures id < U32_MODULUS
    ensures tab < U32_MODULUS ==> id == tab
  {
    tab % U32_MODULUS
  }

  /** No two entries of a manifest name the same tab once cast; true of the distinct
      keys of a manifest whenever the tab indices are below 2^32. */
  predicate DistinctTabIds(manifest: seq<TabPanes>) {
    forall i, j | 0 <= i < j < |manifest| :: TabId(manifest[i].tab) != TabId(manifest[j].tab)
  }

  lemma SmallTabsAreDistinct(manifest: seq<TabPanes>)
    requires forall i | 0 <= i < |manifest| :: manifest[i].tab < U32_MODULUS
    requires forall i, j | 0 <= i < j < |manifest| :: manifest[i].tab != manifest[j].tab
    ensures DistinctTabIds(manifest)
  {
  }
}
