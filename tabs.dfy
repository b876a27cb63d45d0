/**
 * A row of tab buttons over one content area. The active tab is the given
 * default, or the first item's id; a click makes the clicked item active; the
 * content shown is that of the first item whose id is the active tab.
 */
module Tabs {
  import opened Wrappers
  import opened Strings

  /** One tab; its content is kept as text. */
  datatype TabItem = TabItem(id: string, caption: string, content: string)

  /** `defaultTab || items[0]?.id`: an empty default counts as none. */
  function InitialTab(items: seq<TabItem>, defaultTab: OptString): (t: OptString)
    ensures Truthy(defaultTab) ==> t == defaultTab
    ensures !Truthy(defaultTab) && items != [] ==> t == Some(items[0].id)
    ensures t.None? <==> !Truthy(defaultTab) && items == []
  {
    if Truthy(defaultTab) then defaultTab
    else if items != [] then Some(items[0].id)
    else None
  }

  /** `items.find(item => item.id === active)`: the first item with that id, if any. */
  function FindItem(items: seq<TabItem>, active: OptString): (r: Option<nat>)
    ensures r.Some? ==> active.Some? && r.value < |items| && items[r.value].id == active.value
    ensures r.Some? ==> forall k | 0 <= k < r.value :: items[k].id != active.value
    ensures r.None? <==> active.None? || forall k | 0 <= k < |items| :: items[k].id != active.value
  {
    if active.None? then None
    else Find(items, active.value, 0)
  }

  function Find(items: seq<TabItem>, id: string, from: nat): (r: Option<nat>)
    requires from <= |items|
    ensures r.Some? ==> from <= r.value < |items| && items[r.value].id == id
    ensures r.Some? ==> forall k | from <= k < r.value :: items[k].id != id
    ensures r.None? <==> forall k | from <= k < |items| :: items[k].id != id
    decreases |items| - from
  {
    if from == |items| then None
    else if items[from].id == id then Some(from)
    else Find(items, id, from + 1)
  }

  /** No two items share an id (React's `key` asks for this). */
  predicate UniqueIds(items: seq<TabItem>) {
    forall i, j | 0 <= i < j < |items| :: items[i].id != items[j].id
  }

  class TabsState {
    const items: seq<TabItem>
    var activeTab: OptString

    /** `useState(defaultTab || items[0]?.id)`. */
    constructor (tabs: seq<TabItem>, defaultTab: OptString)
      ensures items == tabs && activeTab == InitialTab(tabs, defaultTab)
    {
      items := tabs;
      activeTab := InitialTab(tabs, defaultTab);
    }

    /** A tab button's click handler: its item becomes the active one. */
    method Click(k: nat)
      requires k < |items|
      modifies this`activeTab
      ensures activeTab == Some(items[k].id)
    {
      activeTab := Some(items[k].id);
    }

    /** Whether the button of item `k` is drawn as the active one. */
    function Highlighted(k: nat): bool
      requires k < |items|
      reads this
    {
      activeTab == Some(items[k].id)
    }

    /** `activeItem?.content`: the content drawn below the buttons. */
    function ActiveContent(): (c: Option<string>)
      reads this
      ensures c.Some? <==> activeTab.Some? && exists k | 0 <= k < |items| :: items[k].id == activeTab.value
      ensures c.Some? ==> exists k | 0 <= k < |items| :: items[k].id == activeTab.value && c.value == items[k].content
    {
      match FindItem(items, activeTab)
      case Some(k) => Some(items[k].content)
      case None => None
    }
  }

  /** With distinct ids, at most one button is drawn as the active one. */
  lemma AtMostOneHighlighted(t: TabsState, j: nat, k: nat)
    requires j < |t.items| && k < |t.items| && UniqueIds(t.items)
    requires t.Highlighted(j) && t.Highlighted(k)
    ensures j == k
  {
    ClickHighlightsItem(t.items, k);
  }

  /** With distinct ids, clicking item `k` makes item `k` the one found, so its content is shown. */
  lemma ClickShowsItem(items: seq<TabItem>, k: nat)
    requires k < |items| && UniqueIds(items)
    ensures FindItem(items, Some(items[k].id)) == Some(k)
  {
    var r := Find(items, items[k].id, 0);
    assert !(r.value < k);
  }

  /** With distinct ids, item `k`'s button is the only one drawn as active after clicking it. */
  lemma ClickHighlightsItem(items: seq<TabItem>, k: nat)
    requires k < |items| && UniqueIds(items)
    ensures forall j | 0 <= j < |items| :: items[j].id == items[k].id <==> j == k
  {
    forall j | 0 <= j < |items| && j != k ensures items[j].id != items[k].id {
      if j < k {
        assert items[j].id != items[k].id;
      } else {
        assert items[k].id != items[j].id;
      }
    }
  }

  /** Without a default, the first tab is active, so its content is the one shown. */
  lemma FirstTabShown(items: seq<TabItem>, defaultTab: OptString)
    requires !Truthy(defaultTab) && items != []
    ensures FindItem(items, InitialTab(items, defaultTab)) == Some(0)
  {
  }

  /** With no default and no items nothing is active and no content is shown. */
  lemma NoItemsNoContent(defaultTab: OptString)
    requires !Truthy(defaultTab)
    ensures InitialTab([], defaultTab) == None && FindItem([], InitialTab([], defaultTab)) == None
  {
  }

  /** A default that names no item leaves the content area empty. */
  lemma UnknownDefaultShowsNothing(items: seq<TabItem>, defaultTab: OptString)
    requires Truthy(defaultTab) && forall k | 0 <= k < |items| :: items[k].id != defaultTab.value
    ensures FindItem(items, InitialTab(items, defaultTab)) == None
  {
  }
}
