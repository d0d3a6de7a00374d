/** What the sidebar shows (apps/desktop/src/App.tsx, `buildConnectionTree`): which branches
    there are, in which order, and which connections stand in them. */
module TreeShape {
  import opened Wrappers
  import opened Contracts
  import opened CatalogTables
  import opened ConnectionRepository
  import opened Sorting
  import opened ConnectionTree

  /** By place, then by name, then by id. */
  predicate ComesBefore(le: Locale, order1: nat, name1: string, id1: string, order2: nat, name2: string, id2: string) {
    || order1 < order2
    || (order1 == order2 && name1 != name2 && le(name1, name2))
    || (order1 == order2 && name1 == name2 && le(id1, id2))
  }

  /** Favourites first, then by place, name and id. */
  predicate StandsBefore(le: Locale, a: Item, b: Item) {
    || (a.isFavorite && !b.isFavorite)
    || (a.isFavorite == b.isFavorite
        && ComesBefore(le, a.sortOrder, a.config.name, a.config.id, b.sortOrder, b.config.name, b.config.id))
  }

  lemma {:induction false} InsertMembers<T>(before: (T, T) -> bool, x: T, xs: seq<T>, y: T)
    ensures y in Insert(before, x, xs) <==> y == x || y in xs
  {
    if !(xs == [] || before(x, xs[0])) {
      InsertMembers(before, x, xs[1..], y);
      assert xs == [xs[0]] + xs[1..];
    }
  }

  lemma {:induction false} SortMembers<T>(before: (T, T) -> bool, xs: seq<T>, y: T)
    ensures y in Sort(before, xs) <==> y in xs
  {
    if xs != [] {
      SortMembers(before, xs[1..], y);
      InsertMembers(before, xs[0], Sort(before, xs[1..]), y);
      assert xs == [xs[0]] + xs[1..];
    }
  }

  /** Any catalog: a connection is shown under its group if the catalog has that group, and otherwise among the
      ungrouped. */
  lemma ShownUnder(le: Locale, catalog: Catalog, group: Option<string>, item: Item)
    ensures item in ConnectionsOf(le, catalog, group) <==>
              && item in catalog.connections
              && if group == None
                 then item.config.groupId == None || !HasGroup(catalog, item.config.groupId.value)
                 else item.config.groupId == group && HasGroup(catalog, group.value)
  {
    SortMembers(ConnectionOrder(le), Housed(catalog, group), item);
    FilterKeeps((i: Item) => Home(catalog.groups, i) == group, catalog.connections);
  }

  predicate HasGroup(catalog: Catalog, id: string) {
    exists g :: g in catalog.groups && g.id == id
  }

  /** A branch is in order. */
  ghost predicate StandInOrder(le: Locale, items: seq<Item>) {
    forall i, j :: 0 <= i < j < |items| ==> StandsBefore(le, items[i], items[j])
  }

  lemma BranchIsInOrder(le: Locale, t: Tables, catalog: Catalog, group: Option<string>)
    requires TotalOrder(le) && WellFormed(t) && Lists(catalog, t)
    ensures StandInOrder(le, ConnectionsOf(le, catalog, group))
  {
    BranchShape(le, t, catalog, group);
    var items := ConnectionsOf(le, catalog, group);
    forall i, j | 0 <= i < j < |items| ensures StandsBefore(le, items[i], items[j]) {
      assert ConnectionOrder(le)(items[i], items[j]);
    }
  }

  /** Two group branches in a row are in order. */
  ghost predicate GroupsInOrder(le: Locale, groups: map<string, Group>, ids: seq<string>) {
    && (forall i :: 0 <= i < |ids| ==> ids[i] in groups)
    && forall i, j :: 0 <= i < j < |ids| ==>
         ids[i] != ids[j]
         && ComesBefore(le, groups[ids[i]].sortOrder, groups[ids[i]].name, ids[i],
                     groups[ids[j]].sortOrder, groups[ids[j]].name, ids[j])
  }

  function GroupIds(groups: seq<GroupItem>): seq<string> {
    seq(|groups|, i requires 0 <= i < |groups| => groups[i].id)
  }

  lemma GroupsAreInOrder(le: Locale, stored: map<string, Group>, groups: seq<GroupItem>)
    requires TotalOrder(le) && ListsGroups(groups, stored)
    ensures GroupsInOrder(le, stored, GroupIds(Sort(GroupOrder(le), groups)))
    ensures forall id :: id in stored <==> id in GroupIds(Sort(GroupOrder(le), groups))
  {
    GroupOrderIsLinear(le, groups);
    SortIsSorted(GroupOrder(le), groups);
    var sorted := Sort(GroupOrder(le), groups);
    var ids := GroupIds(sorted);
    forall i | 0 <= i < |sorted| ensures ids[i] in stored && sorted[i].group == stored[ids[i]] {
      assert sorted[i] in groups;
    }
    forall i, j | 0 <= i < j < |ids|
      ensures ids[i] != ids[j]
      ensures ComesBefore(le, stored[ids[i]].sortOrder, stored[ids[i]].name, ids[i],
                       stored[ids[j]].sortOrder, stored[ids[j]].name, ids[j])
    {
      assert GroupOrder(le)(sorted[i], sorted[j]) && sorted[i] != sorted[j];
    }
    forall id | id in stored ensures id in ids {
      assert GroupItem(id, stored[id]) in sorted;
      var i :| 0 <= i < |sorted| && sorted[i] == GroupItem(id, stored[id]);
      assert ids[i] == id;
    }
  }

  /** The whole tree of a well-formed catalog: one branch for each group, in order of place, name and id, whether
      it holds connections or not; last the ungrouped ones if there are any; and in each branch exactly the live
      connections of its group, favourites first and then in order of place, name and id. */
  lemma TreeIs(le: Locale, t: Tables, catalog: Catalog) returns (ids: seq<string>)
    requires TotalOrder(le) && WellFormed(t) && Lists(catalog, t)
    ensures GroupsInOrder(le, t.groups, ids) && forall id :: id in t.groups <==> id in ids
    ensures var tree := BuildTree(le, catalog);
            && |tree| == |ids| + (if exists id :: LiveIn(t.connections, id, None) then 1 else 0)
            && (forall k :: 0 <= k < |tree| ==>
                  && tree[k].group == (if k < |ids| then Some(ids[k]) else None)
                  && Shows(t, tree[k].group, tree[k].connections)
                  && StandInOrder(le, tree[k].connections))
  {
    var sorted := Sort(GroupOrder(le), catalog.groups);
    ids := GroupIds(sorted);
    GroupsAreInOrder(le, t.groups, catalog.groups);
    var tree := BuildTree(le, catalog);
    BranchShape(le, t, catalog, None);
    UngroupedShown(t, ConnectionsOf(le, catalog, None));
    forall k | 0 <= k < |tree|
      ensures tree[k].group == (if k < |ids| then Some(ids[k]) else None)
      ensures Shows(t, tree[k].group, tree[k].connections) && StandInOrder(le, tree[k].connections)
    {
      BranchIs(le, catalog, k);
      BranchShape(le, t, catalog, tree[k].group);
      BranchIsInOrder(le, t, catalog, tree[k].group);
    }
  }

  lemma UngroupedShown(t: Tables, items: seq<Item>)
    requires WellFormed(t) && Shows(t, None, items)
    ensures items == [] <==> !exists id :: LiveIn(t.connections, id, None)
  {
    forall id | LiveIn(t.connections, id, None) ensures items != [] {
      assert RowOk(t, id);
      assert IsShown(t, None, ItemOf(t.connections[id]));
    }
    if items != [] {
      assert IsShown(t, None, items[0]);
    }
  }

  predicate StandsAt(tree: seq<Branch>, id: string, k: nat, i: nat) {
    k < |tree| && i < |tree[k].connections| && tree[k].connections[i].config.id == id
  }

  /** Nothing is lost or shown twice: every live connection stands in exactly one branch, and once there. */
  lemma EveryConnectionOnce(le: Locale, t: Tables, catalog: Catalog, id: string) returns (k: nat, i: nat)
    requires TotalOrder(le) && WellFormed(t) && Lists(catalog, t)
    requires id in t.connections && !t.connections[id].deleted
    ensures var tree := BuildTree(le, catalog);
            StandsAt(tree, id, k, i) && forall l: nat, j: nat :: StandsAt(tree, id, l, j) ==> l == k && j == i
  {
    var ids := TreeIs(le, t, catalog);
    var tree := BuildTree(le, catalog);
    assert RowOk(t, id);
    var group := t.connections[id].config.groupId;
    var item := ItemOf(t.connections[id]);
    assert IsShown(t, group, item);
    if group.Some? {
      k :| 0 <= k < |ids| && ids[k] == group.value;
    } else {
      assert LiveIn(t.connections, id, None);
      k := |ids|;
    }
    assert tree[k].group == group && item in tree[k].connections;
    i :| 0 <= i < |tree[k].connections| && tree[k].connections[i] == item;
    forall l: nat, j: nat | StandsAt(tree, id, l, j)
      ensures l == k && j == i
    {
      var other := tree[l].connections[j];
      assert other in tree[l].connections;
      assert IsShown(t, tree[l].group, other);
      assert tree[l].group == group && other == item;
      OneBranch(ids, t.groups, le, l, k);
    }
  }

  lemma OneBranch(ids: seq<string>, groups: map<string, Group>, le: Locale, l: nat, k: nat)
    requires GroupsInOrder(le, groups, ids) && l <= |ids| && k <= |ids|
    requires (if l < |ids| then Some(ids[l]) else None) == (if k < |ids| then Some(ids[k]) else None)
    ensures l == k
  {
  }
}
