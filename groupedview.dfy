/** A scroll view of collapsible groups of thumbnail tiles
    (Controls/GroupedItemsView). */
module GroupedView {

  import opened Options
  import opened Thumbs

  /** A collapsible group: its title, whether it is expanded, and its tiles. */
  class Foldout {
    var text: string
    var value: bool
    var items: seq<ThumbItem>

    constructor (text: string, value: bool)
      ensures this.text == text && this.value == value && items == []
    {
      this.text := text;
      this.value := value;
      items := [];
    }
  }

  const DefaultItemSize := 120

  /** The tiles of the groups, group by group, each group's in insertion order. */
  function Concat(gs: seq<Foldout>): seq<ThumbItem>
    reads gs
  {
    if |gs| == 0 then [] else Concat(gs[..|gs| - 1]) + gs[|gs| - 1].items
  }

  /** A tile is listed iff some group holds it. */
  lemma {:induction false} ConcatMembers(gs: seq<Foldout>, it: ThumbItem)
    ensures it in Concat(gs) <==> exists g :: g in gs && it in g.items
  {
    if |gs| > 0 {
      var front := gs[..|gs| - 1];
      ConcatMembers(front, it);
      assert forall g :: g in gs <==> g in front || g == gs[|gs| - 1];
    }
  }

  /** Concat depends on the groups' tiles only. */
  twostate lemma {:induction false} ConcatUnchanged(gs: seq<Foldout>)
    requires forall g :: g in gs ==> g.items == old(g.items)
    ensures Concat(gs) == old(Concat(gs))
  {
    if |gs| > 0 {
      ConcatUnchanged(gs[..|gs| - 1]);
    }
  }

  /** Appending a group adds its tiles to the view's and leaves the rest. */
  twostate lemma ItemsAppend(v: GroupedItemsView, new gr: Foldout)
    requires v.groups == old(v.groups) + [gr]
    requires forall g :: g in old(v.groups) ==> g.items == old(g.items)
    ensures forall it :: it in v.Items() <==> it in old(v.Items()) || it in gr.items
  {
    forall it
      ensures it in v.Items() <==> it in old(v.Items()) || it in gr.items
    {
      if it in v.Items() {
        var g :| g in v.groups && it in g.items;
        if g != gr {
          assert g in old(v.groups);
        }
      }
    }
  }

  /** The tiles of each group are among the view's. */
  lemma GroupItemsIn(v: GroupedItemsView, i: int)
    requires 0 <= i < |v.groups|
    ensures forall it :: it in v.groups[i].items ==> it in v.Items()
  {
  }

  class GroupedItemsView {
    var autoDestroyUnusedThumbImage: bool
    var expandNewlyAdded: bool
    var groups: seq<Foldout>
    var itemSize: int

    constructor Default()
      ensures groups == [] && itemSize == DefaultItemSize
      ensures !autoDestroyUnusedThumbImage && !expandNewlyAdded
    {
      autoDestroyUnusedThumbImage := false;
      expandNewlyAdded := false;
      groups := [];
      itemSize := DefaultItemSize;
    }

    constructor (itemSize: int)
      ensures groups == [] && this.itemSize == itemSize
      ensures !autoDestroyUnusedThumbImage && !expandNewlyAdded
    {
      autoDestroyUnusedThumbImage := false;
      expandNewlyAdded := false;
      groups := [];
      this.itemSize := itemSize;
    }

    function GroupsCount(): nat
      reads this
    {
      |groups|
    }

    ghost function Items(): set<ThumbItem>
      reads this, groups
    {
      TilesOf(groups)
    }

    ghost predicate ItemsValid()
      reads this, groups, Items()
    {
      forall it :: it in Items() ==> it.Valid()
    }

    /** Appends one group, expanded iff newly added groups are. */
    method AddGroup(name: string) returns (gr: Foldout)
      modifies this
      ensures fresh(gr) && groups == old(groups) + [gr] && GroupsCount() == old(GroupsCount()) + 1
      ensures gr.text == name && gr.value == expandNewlyAdded && gr.items == []
      ensures expandNewlyAdded == old(expandNewlyAdded) && itemSize == old(itemSize)
      ensures autoDestroyUnusedThumbImage == old(autoDestroyUnusedThumbImage)
    {
      gr := new Foldout(name, false);
      gr.value := expandNewlyAdded;
      groups := groups + [gr];
    }

    /** Appends the tile to the group, sized to the current item size and
        owning its textures iff the view's tiles do. */
    method AddItemToGroup(group: Foldout, item: ThumbItem)
      requires item.Valid()
      modifies group, item
      ensures group.items == old(group.items) + [item]
      ensures group.text == old(group.text) && group.value == old(group.value)
      ensures item.Valid() && item.size == itemSize
      ensures item.autoDestroyUnusedThumbImage == autoDestroyUnusedThumbImage
      ensures item.status == old(item.status) && item.thumb == old(item.thumb)
      ensures item.userData == old(item.userData) && item.labelText == old(item.labelText)
      ensures item.destroyed == old(item.destroyed) && item.labelVisible == old(item.labelVisible)
      ensures item.loadIcon == old(item.loadIcon) && item.errorIcon == old(item.errorIcon)
    {
      group.items := group.items + [item];
      item.autoDestroyUnusedThumbImage := autoDestroyUnusedThumbImage;
      item.SetSize(itemSize);
    }

    /** Every tile now has size s, and tiles added later will too. */
    method SetItemsSize(s: int)
      requires ItemsValid()
      modifies this, Items()
      ensures itemSize == s && groups == old(groups)
      ensures expandNewlyAdded == old(expandNewlyAdded)
      ensures autoDestroyUnusedThumbImage == old(autoDestroyUnusedThumbImage)
      ensures Items() == old(Items()) && ItemsValid()
      ensures forall it :: it in Items() ==> it.size == s
      ensures forall it :: it in Items() ==> it.State() == old(it.State()).Resized(s)
    {
      itemSize := s;
      ResizeGroups(groups, s);
    }

    method CollapseAllGroups()
      modifies groups
      ensures forall g :: g in groups ==> !g.value
      ensures forall g :: g in groups ==> g.items == old(g.items) && g.text == old(g.text)
      ensures Concat(groups) == old(Concat(groups)) && Items() == old(Items())
    {
      for i := 0 to |groups|
        invariant forall j :: 0 <= j < i ==> !groups[j].value
        invariant forall g :: g in groups ==> g.items == old(g.items) && g.text == old(g.text)
      {
        groups[i].value := false;
      }
      ConcatUnchanged(groups);
    }

    method ExpandAllGroups()
      modifies groups
      ensures forall g :: g in groups ==> g.value
      ensures forall g :: g in groups ==> g.items == old(g.items) && g.text == old(g.text)
      ensures Concat(groups) == old(Concat(groups)) && Items() == old(Items())
    {
      for i := 0 to |groups|
        invariant forall j :: 0 <= j < i ==> groups[j].value
        invariant forall g :: g in groups ==> g.items == old(g.items) && g.text == old(g.text)
      {
        groups[i].value := true;
      }
      ConcatUnchanged(groups);
    }

    /** Every tile, group by group. */
    method GetAllItems() returns (res: seq<ThumbItem>)
      ensures res == Concat(groups)
      ensures forall it :: it in res <==> it in Items()
    {
      res := [];
      for gi := 0 to |groups|
        invariant res == Concat(groups[..gi])
      {
        var group := groups[gi];
        for k := 0 to |group.items|
          invariant res == Concat(groups[..gi]) + group.items[..k]
        {
          res := res + [group.items[k]];
        }
        assert groups[..gi + 1][..gi] == groups[..gi];
      }
      assert groups[..|groups|] == groups;
      forall it: ThumbItem
        ensures it in res <==> it in Items()
      {
        ConcatMembers(groups, it);
      }
    }

    /** Disposes every tile and drops every group. */
    method RemoveAllGroups()
      requires ItemsValid()
      modifies this, Items()
      ensures groups == [] && GroupsCount() == 0
      ensures forall it :: it in old(Items()) ==> it.Valid() && it.status == None && it.thumb == None
      ensures forall it :: it in old(Items()) ==> it.State() == old(it.State()).Disposed()
      ensures expandNewlyAdded == old(expandNewlyAdded) && itemSize == old(itemSize)
      ensures autoDestroyUnusedThumbImage == old(autoDestroyUnusedThumbImage)
    {
      DisposeGroups(groups);
      groups := [];
    }

    method Dispose()
      requires ItemsValid()
      modifies this, Items()
      ensures groups == []
      ensures forall it :: it in old(Items()) ==> it.Valid() && it.status == None && it.thumb == None
      ensures forall it :: it in old(Items()) ==> it.State() == old(it.State()).Disposed()
      ensures expandNewlyAdded == old(expandNewlyAdded) && itemSize == old(itemSize)
      ensures autoDestroyUnusedThumbImage == old(autoDestroyUnusedThumbImage)
    {
      RemoveAllGroups();
    }
  }

  /** The tiles of the groups, as a set. */
  ghost function TilesOf(gs: seq<Foldout>): set<ThumbItem>
    reads gs
  {
    set g, it | g in gs && it in g.items :: it
  }

  /** The groups' tile lists, read once. */
  ghost function ListsOf(gs: seq<Foldout>): (ls: seq<seq<ThumbItem>>)
    reads gs
    ensures |ls| == |gs| && forall i :: 0 <= i < |gs| ==> ls[i] == gs[i].items
  {
    seq(|gs|, i requires 0 <= i < |gs| reads gs => gs[i].items)
  }

  /** The tiles of one list, as a set. */
  function Elements(xs: seq<ThumbItem>): set<ThumbItem>
  {
    set x | x in xs
  }

  /** The tiles of the lists, as a set. */
  function Flat(ls: seq<seq<ThumbItem>>): set<ThumbItem>
  {
    if |ls| == 0 then {} else Flat(ls[..|ls| - 1]) + Elements(ls[|ls| - 1])
  }

  lemma {:induction false} FlatMembers(ls: seq<seq<ThumbItem>>, it: ThumbItem)
    ensures it in Flat(ls) <==> exists i :: 0 <= i < |ls| && it in ls[i]
  {
    if |ls| > 0 {
      FlatMembers(ls[..|ls| - 1], it);
      if it in Flat(ls[..|ls| - 1]) {
        var i :| 0 <= i < |ls| - 1 && it in ls[..|ls| - 1][i];
        assert it in ls[i];
      }
    }
  }

  lemma TilesOfFlat(gs: seq<Foldout>)
    ensures TilesOf(gs) == Flat(ListsOf(gs))
  {
    var ls := ListsOf(gs);
    forall it | it in TilesOf(gs)
      ensures it in Flat(ls)
    {
      FlatMembers(ls, it);
      var g :| g in gs && it in g.items;
      var i :| 0 <= i < |gs| && gs[i] == g;
      assert it in ls[i];
    }
    forall it | it in Flat(ls)
      ensures it in TilesOf(gs)
    {
      FlatMembers(ls, it);
      var i :| 0 <= i < |ls| && it in ls[i];
      assert gs[i] in gs && it in gs[i].items;
    }
  }

  /** Disposes the tiles of every group, group by group. */
  method DisposeGroups(gs: seq<Foldout>)
    requires forall it :: it in TilesOf(gs) ==> it.Valid()
    modifies TilesOf(gs)
    ensures forall it :: it in TilesOf(gs) ==> it.Valid() && it.State() == old(it.State()).Disposed()
  {
    ghost var lists := ListsOf(gs);
    TilesOfFlat(gs);
    ghost var all := Flat(lists);
    for gi := 0 to |gs|
      modifies all
      invariant forall i :: 0 <= i < |gs| ==> gs[i].items == lists[i]
      invariant forall it :: it in all ==> it.Valid()
      invariant forall it :: it in all ==>
          it.State() == if it in Flat(lists[..gi]) then old(it.State()).Disposed() else old(it.State())
    {
      var group := gs[gi];
      assert lists[..gi + 1][..gi] == lists[..gi];
      forall it | it in group.items
        ensures it in all
      {
        FlatMembers(lists, it);
        DisposedTwice(old(it.State()));
      }
      DisposeGroupItems(group);
    }
    assert lists[..|gs|] == lists;
  }

  /** Sizes the tiles of every group, group by group. */
  method ResizeGroups(gs: seq<Foldout>, s: int)
    requires forall it :: it in TilesOf(gs) ==> it.Valid()
    modifies TilesOf(gs)
    ensures forall it :: it in TilesOf(gs) ==> it.Valid() && it.State() == old(it.State()).Resized(s)
  {
    ghost var lists := ListsOf(gs);
    TilesOfFlat(gs);
    ghost var all := Flat(lists);
    for gi := 0 to |gs|
      modifies all
      invariant forall i :: 0 <= i < |gs| ==> gs[i].items == lists[i]
      invariant forall it :: it in all ==> it.Valid()
      invariant forall it :: it in all ==>
          it.State() == if it in Flat(lists[..gi]) then old(it.State()).Resized(s) else old(it.State())
    {
      var group := gs[gi];
      assert lists[..gi + 1][..gi] == lists[..gi];
      forall it | it in group.items
        ensures it in all
      {
        FlatMembers(lists, it);
        ResizedTwice(old(it.State()), s);
      }
      SetGroupItemsSize(group, s);
    }
    assert lists[..|gs|] == lists;
  }

  /** Sizes the tiles of one group. A tile listed twice is resized twice,
      to the same size. */
  method SetGroupItemsSize(group: Foldout, s: int)
    requires forall it :: it in group.items ==> it.Valid()
    modifies group.items
    ensures forall it :: it in group.items ==> it.Valid() && it.size == s
    ensures forall it :: it in group.items ==> it.State() == old(it.State()).Resized(s)
  {
    for k := 0 to |group.items|
      invariant forall it :: it in group.items ==> it.Valid()
      invariant forall it :: it in group.items ==>
          it.State() == if it in group.items[..k] then old(it.State()).Resized(s) else old(it.State())
    {
      var thumb := group.items[k];
      assert group.items[..k + 1] == group.items[..k] + [thumb];
      ResizedTwice(old(thumb.State()), s);
      thumb.SetSize(s);
    }
    assert group.items[..|group.items|] == group.items;
  }

  /** Disposes the tiles of one group. A tile listed twice is disposed
      twice; the second time it has nothing left to destroy. */
  method DisposeGroupItems(group: Foldout)
    requires forall it :: it in group.items ==> it.Valid()
    modifies group.items
    ensures forall it :: it in group.items ==> it.Valid() && it.status == None && it.thumb == None
    ensures forall it :: it in group.items ==> it.State() == old(it.State()).Disposed()
  {
    for k := 0 to |group.items|
      invariant forall it :: it in group.items ==> it.Valid()
      invariant forall it :: it in group.items ==>
          it.State() == if it in group.items[..k] then old(it.State()).Disposed() else old(it.State())
    {
      var thumb := group.items[k];
      assert group.items[..k + 1] == group.items[..k] + [thumb];
      DisposedTwice(old(thumb.State()));
      thumb.Dispose();
    }
    assert group.items[..|group.items|] == group.items;
  }
}
