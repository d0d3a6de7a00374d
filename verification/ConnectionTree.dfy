/** The sidebar tree and the move buttons (apps/desktop/src/App.tsx, `buildConnectionTree`,
    `moveId`, `moveConnection`) over the repository's reordering. */
module ConnectionTree {
  import opened Wrappers
  import opened Text
  import opened Sequences
  import opened Contracts
  import opened CatalogTables
  import opened ConnectionRepository
  import opened OrderKeys
  import opened Sorting

  datatype Item = Item(config: ConnectionConfig, isFavorite: bool, sortOrder: nat, revision: nat)

  datatype GroupItem = GroupItem(id: string, group: Group)

  datatype Catalog = Catalog(groups: seq<GroupItem>, connections: seq<Item>)

  datatype Branch = Branch(group: Option<string>, connections: seq<Item>)

  /** `localeCompare`, as "not after". */
  type Locale = (string, string) -> bool

  ghost predicate TotalOrder(le: Locale) {
    && (forall a, b :: le(a, b) || le(b, a))
    && (forall a, b :: le(a, b) && le(b, a) ==> a == b)
    && (forall a, b, c :: le(a, b) && le(b, c) ==> le(a, c))
  }

  predicate ByPlace(le: Locale, order1: nat, name1: string, id1: string, order2: nat, name2: string, id2: string) {
    if order1 != order2 then order1 < order2
    else if name1 != name2 then le(name1, name2)
    else le(id1, id2)
  }

  predicate ConnectionBefore(le: Locale, a: Item, b: Item) {
    if a.isFavorite != b.isFavorite then a.isFavorite
    else ByPlace(le, a.sortOrder, a.config.name, a.config.id, b.sortOrder, b.config.name, b.config.id)
  }

  function ConnectionOrder(le: Locale): (Item, Item) -> bool {
    (a: Item, b: Item) => ConnectionBefore(le, a, b)
  }

  function GroupOrder(le: Locale): (GroupItem, GroupItem) -> bool {
    (a: GroupItem, b: GroupItem) => ByPlace(le, a.group.sortOrder, a.group.name, a.id, b.group.sortOrder, b.group.name,
      b.id)
  }

  /** A connection whose group is not in the catalog is shown among the ungrouped. */
  function Home(groups: seq<GroupItem>, item: Item): Option<string> {
    if item.config.groupId.Some? && exists g :: g in groups && g.id == item.config.groupId.value
    then item.config.groupId
    else None
  }

  function Housed(catalog: Catalog, group: Option<string>): seq<Item> {
    Filter((item: Item) => Home(catalog.groups, item) == group, catalog.connections)
  }

  function ConnectionsOf(le: Locale, catalog: Catalog, group: Option<string>): seq<Item> {
    Sort(ConnectionOrder(le), Housed(catalog, group))
  }

  /** One branch per group, and one more for the ungrouped if there are any. */
  function Assembled(groups: seq<GroupItem>, shown: Option<string> -> seq<Item>): seq<Branch> {
    seq(|groups|, i requires 0 <= i < |groups| => Branch(Some(groups[i].id), shown(Some(groups[i].id))))
    + if shown(None) != [] then [Branch(None, shown(None))] else []
  }

  function BuildTree(le: Locale, catalog: Catalog): seq<Branch> {
    Assembled(Sort(GroupOrder(le), catalog.groups), (group: Option<string>) => ConnectionsOf(le, catalog, group))
  }

  // The move

  function Ids(items: seq<Item>): seq<string> {
    seq(|items|, i requires 0 <= i < |items| => items[i].config.id)
  }

  function Swapped(ids: seq<string>, i: nat, j: nat): seq<string>
    requires i < |ids| && j < |ids|
  {
    ids[i := ids[j]][j := ids[i]]
  }

  function MovedIds(ids: seq<string>, id: string, direction: int): Option<seq<string>> {
    if id !in ids then None
    else
      var index := IndexOf(ids, id);
      var target := index + direction;
      if target < 0 || target >= |ids| then None else Some(Swapped(ids, index, target))
  }

  /** The ids that moved take, in order, the places of the ids that are moving. */
  function Refilled(order: seq<string>, moved: seq<string>, moving: seq<string>): seq<string> {
    if order == [] || moved == [] then order
    else if order[0] in moving then [moved[0]] + Refilled(order[1..], moved[1..], moving)
    else [order[0]] + Refilled(order[1..], moved, moving)
  }

  function Peers(siblings: seq<Item>, favorite: bool): seq<Item> {
    Filter((sibling: Item) => sibling.isFavorite == favorite, siblings)
  }

  /** The order `moveConnection` asks the backend for, if it asks at all. */
  function MovedOrder(siblings: seq<Item>, item: Item, direction: int): Option<seq<string>> {
    match MovedIds(Ids(Peers(siblings, item.isFavorite)), item.config.id, direction)
    case None => None
    case Some(moved) => Some(Refilled(Ids(siblings), moved, moved))
  }

  method MoveId(ids: array<string>, id: string, direction: int) returns (moved: bool)
    requires direction == -1 || direction == 1
    modifies ids
    ensures moved == MovedIds(old(ids[..]), id, direction).Some?
    ensures ids[..] == if moved then MovedIds(old(ids[..]), id, direction).value else old(ids[..])
  {
    var index := 0;
    while index < ids.Length && ids[index] != id
      invariant 0 <= index <= ids.Length
      invariant id !in ids[..index]
    {
      index := index + 1;
    }
    if index == ids.Length {
      assert ids[..] == ids[..index];
      return false;
    }
    assert ids[..][index] == id;
    FirstIndex(ids[..], id, index);
    var targetIndex := index + direction;
    if targetIndex < 0 || targetIndex >= ids.Length {
      return false;
    }
    ids[index], ids[targetIndex] := ids[targetIndex], ids[index];
    moved := true;
  }

  lemma {:induction false} FirstIndex(ids: seq<string>, id: string, i: nat)
    requires i < |ids| && ids[i] == id && id !in ids[..i]
    ensures id in ids && IndexOf(ids, id) == i
  {
    if i > 0 {
      assert ids[..i][0] == ids[0];
      assert ids[..i] == [ids[0]] + ids[1..][..i - 1];
      FirstIndex(ids[1..], id, i - 1);
    }
  }

  lemma RefilledStep(order: seq<string>, moved: seq<string>, moving: seq<string>)
    requires order != []
    ensures Refilled(order, moved, moving) ==
              if moved != [] && order[0] in moving then [moved[0]] + Refilled(order[1..], moved[1..], moving)
              else [order[0]] + Refilled(order[1..], moved, moving)
  {
    if moved == [] {
      assert order == [order[0]] + order[1..];
    }
  }

  /** Walk the list of ids and overwrite, in place, the ones that are moving. */
  method RefillInPlace(reordered: array<string>, ids: seq<string>)
    modifies reordered
    ensures reordered[..] == Refilled(old(reordered[..]), ids, ids)
  {
    var offset := 0;
    ghost var done: seq<string> := [];
    ghost var goal := Refilled(reordered[..], ids, ids);
    assert ids[0..] == ids && reordered[0..] == reordered[..];
    for index := 0 to reordered.Length
      invariant 0 <= offset <= |ids|
      invariant reordered[..index] == done
      invariant done + Refilled(reordered[index..], ids[offset..], ids) == goal
    {
      ghost var rest := reordered[index..];
      RefilledStep(rest, ids[offset..], ids);
      assert rest[0] == reordered[index] && rest[1..] == reordered[index + 1..];
      if reordered[index] in ids && offset < |ids| {
        assert ids[offset..][1..] == ids[offset + 1..];
        reordered[index] := ids[offset];
        offset := offset + 1;
      }
      Associates(done, [reordered[index]], Refilled(rest[1..], ids[offset..], ids));
      assert reordered[index + 1..] == rest[1..];
      done := done + [reordered[index]];
    }
    assert reordered[..] == done;
  }

  method MoveConnection(repository: Repository, item: Item, siblings: seq<Item>, direction: int, accepted: bool)
    returns (called: bool)
    requires direction == -1 || direction == 1
    modifies repository`connections
    ensures called == MovedOrder(siblings, item, direction).Some?
    ensures repository.View() ==
              if called then After(old(repository.View()),
                Reorder(item.config.groupId, MovedOrder(siblings, item, direction).value, accepted))
              else old(repository.View())
  {
    var favoriteSiblings := Peers(siblings, item.isFavorite);
    var peerIds := Ids(favoriteSiblings);
    var ids := new string[|peerIds|](i requires 0 <= i < |peerIds| => peerIds[i]);
    assert ids[..] == peerIds;
    called := MoveId(ids, item.config.id, direction);
    if !called {
      return;
    }
    var all := Ids(siblings);
    var reordered := new string[|all|](i requires 0 <= i < |all| => all[i]);
    assert reordered[..] == all;
    RefillInPlace(reordered, ids[..]);
    var _ := repository.ReorderConnections(item.config.groupId, reordered[..], accepted);
  }

  // The orders are linear

  ghost predicate DistinctItems(items: seq<Item>) {
    forall a, b :: a in items && b in items && a.config.id == b.config.id ==> a == b
  }

  lemma PlaceIsTotal(le: Locale, o1: nat, n1: string, i1: string, o2: nat, n2: string, i2: string)
    requires TotalOrder(le)
    ensures ByPlace(le, o1, n1, i1, o2, n2, i2) || ByPlace(le, o2, n2, i2, o1, n1, i1)
    ensures ByPlace(le, o1, n1, i1, o2, n2, i2) && ByPlace(le, o2, n2, i2, o1, n1, i1) ==>
              o1 == o2 && n1 == n2 && i1 == i2
  {
  }

  lemma PlaceIsTransitive(le: Locale, o1: nat, n1: string, i1: string, o2: nat, n2: string, i2: string, o3: nat,
      n3: string, i3: string)
    requires TotalOrder(le)
    requires ByPlace(le, o1, n1, i1, o2, n2, i2) && ByPlace(le, o2, n2, i2, o3, n3, i3)
    ensures ByPlace(le, o1, n1, i1, o3, n3, i3)
  {
    if o1 == o2 == o3 && n1 != n2 && n2 != n3 {
      assert le(n1, n2) && le(n2, n3) && le(n1, n3);
      assert le(n2, n1) ==> n1 == n2;
    }
  }

  lemma ConnectionOrderIsLinear(le: Locale, items: seq<Item>)
    requires TotalOrder(le) && DistinctItems(items)
    ensures Linear(ConnectionOrder(le), items)
  {
    forall a, b | a in items && b in items
      ensures ConnectionBefore(le, a, b) || ConnectionBefore(le, b, a)
      ensures ConnectionBefore(le, a, b) && ConnectionBefore(le, b, a) ==> a == b
    {
      PlaceIsTotal(le, a.sortOrder, a.config.name, a.config.id, b.sortOrder, b.config.name, b.config.id);
    }
    forall a, b, c | a in items && b in items && c in items && ConnectionBefore(le, a, b) && ConnectionBefore(le, b, c)
      ensures ConnectionBefore(le, a, c)
    {
      if a.isFavorite == b.isFavorite == c.isFavorite {
        PlaceIsTransitive(le, a.sortOrder, a.config.name, a.config.id, b.sortOrder, b.config.name, b.config.id,
                          c.sortOrder, c.config.name, c.config.id);
      }
    }
  }

  lemma GroupOrderIsLinear(le: Locale, groups: seq<GroupItem>)
    requires TotalOrder(le) && forall g, h :: g in groups && h in groups && g.id == h.id ==> g == h
    ensures Linear(GroupOrder(le), groups)
  {
    var before := GroupOrder(le);
    forall a, b | a in groups && b in groups
      ensures before(a, b) || before(b, a)
      ensures before(a, b) && before(b, a) ==> a == b
    {
      PlaceIsTotal(le, a.group.sortOrder, a.group.name, a.id, b.group.sortOrder, b.group.name, b.id);
    }
    forall a, b, c | a in groups && b in groups && c in groups && before(a, b) && before(b, c)
      ensures before(a, c)
    {
      PlaceIsTransitive(le, a.group.sortOrder, a.group.name, a.id, b.group.sortOrder, b.group.name, b.id,
                        c.group.sortOrder, c.group.name, c.id);
    }
  }

  // What the backend lists

  function ItemOf(row: Row): Item {
    Item(row.config, row.favorite, row.sortOrder, row.revision)
  }

  /** `list_catalog`: every live row once and every group once, in whatever order. */
  ghost predicate Lists(catalog: Catalog, t: Tables) {
    && Sorting.Distinct(catalog.connections)
    && ListsGroups(catalog.groups, t.groups)
    && (forall item :: item in catalog.connections <==>
          item.config.id in t.connections && IsLive(t.connections, item.config.id)
            && item == ItemOf(t.connections[item.config.id]))
  }

  predicate IsShown(t: Tables, group: Option<string>, item: Item) {
    LiveIn(t.connections, item.config.id, group) && item == ItemOf(t.connections[item.config.id])
  }

  /** Exactly the live connections of the group, each once. */
  ghost predicate Shows(t: Tables, group: Option<string>, items: seq<Item>) {
    && Sorting.Distinct(items)
    && forall item :: item in items <==> IsShown(t, group, item)
  }

  lemma HomeIsGroup(t: Tables, catalog: Catalog, item: Item)
    requires WellFormed(t) && Lists(catalog, t) && item in catalog.connections
    ensures Home(catalog.groups, item) == item.config.groupId
  {
    assert RowOk(t, item.config.id);
    if item.config.groupId.Some? {
      var id := item.config.groupId.value;
      assert GroupItem(id, t.groups[id]) in catalog.groups;
    }
  }

  lemma HousedIsLive(t: Tables, catalog: Catalog, group: Option<string>)
    requires WellFormed(t) && Lists(catalog, t)
    ensures Shows(t, group, Housed(catalog, group))
  {
    FilterKeeps((item: Item) => Home(catalog.groups, item) == group, catalog.connections);
    forall item ensures item in Housed(catalog, group) <==> IsShown(t, group, item) {
      if item in catalog.connections {
        HomeIsGroup(t, catalog, item);
      }
    }
  }

  lemma ShownIsLinear(le: Locale, t: Tables, group: Option<string>, items: seq<Item>)
    requires TotalOrder(le) && Shows(t, group, items)
    ensures Linear(ConnectionOrder(le), items)
  {
    forall a, b | a in items && b in items && a.config.id == b.config.id ensures a == b {
      assert IsShown(t, group, a) && IsShown(t, group, b);
    }
    ConnectionOrderIsLinear(le, items);
  }

  /** A branch holds exactly the live connections of its group, favourites first, then by key,
      name and id. */
  lemma BranchShape(le: Locale, t: Tables, catalog: Catalog, group: Option<string>)
    requires TotalOrder(le) && WellFormed(t) && Lists(catalog, t)
    ensures Shows(t, group, ConnectionsOf(le, catalog, group))
    ensures Sorted(ConnectionOrder(le), ConnectionsOf(le, catalog, group))
  {
    HousedIsLive(t, catalog, group);
    ShownIsLinear(le, t, group, Housed(catalog, group));
    SortIsSorted(ConnectionOrder(le), Housed(catalog, group));
  }

  lemma ShownIds(t: Tables, group: Option<string>, items: seq<Item>)
    requires WellFormed(t) && Shows(t, group, items)
    ensures NoDuplicates(Ids(items)) && (set id | id in Ids(items)) == LiveIds(t.connections, group)
  {
    forall i | 0 <= i < |items| ensures IsShown(t, group, items[i]) {
      assert items[i] in items;
    }
    forall id | id in LiveIds(t.connections, group) ensures id in Ids(items) {
      assert RowOk(t, id);
      assert IsShown(t, group, ItemOf(t.connections[id]));
      var i :| 0 <= i < |items| && items[i] == ItemOf(t.connections[id]);
      assert Ids(items)[i] == id;
    }
  }

  // The move is one swap

  /** Favourites stand together at the front. */
  ghost predicate FavoritesFirst(siblings: seq<Item>, split: nat) {
    && split <= |siblings|
    && forall i :: 0 <= i < |siblings| ==> (siblings[i].isFavorite <==> i < split)
  }

  lemma {:induction false} FavoritesSplit(le: Locale, siblings: seq<Item>) returns (split: nat)
    requires Sorted(ConnectionOrder(le), siblings)
    ensures FavoritesFirst(siblings, split)
  {
    if siblings == [] || !siblings[0].isFavorite {
      split := 0;
    } else {
      var s := FavoritesSplit(le, siblings[1..]);
      split := s + 1;
      assert forall i :: 1 <= i < |siblings| ==> siblings[i] == siblings[1..][i - 1];
    }
  }

  lemma {:induction false} PeersAreSlice(siblings: seq<Item>, split: nat, favorite: bool)
    requires FavoritesFirst(siblings, split)
    ensures Peers(siblings, favorite) == if favorite then siblings[..split] else siblings[split..]
  {
    if siblings != [] {
      PeersAreSlice(siblings[1..], if split == 0 then 0 else split - 1, favorite);
      if split > 0 {
        assert siblings[..split] == [siblings[0]] + siblings[1..][..split - 1];
      }
    }
  }

  lemma {:induction false} RefilledSlice(before: seq<string>, middle: seq<string>, after: seq<string>,
      moved: seq<string>, moving: seq<string>)
    requires |middle| == |moved|
    requires forall id :: id in middle ==> id in moving
    requires forall id :: id in before ==> id !in moving
    ensures Refilled(before + middle + after, moved, moving) == before + moved + after
  {
    var order := before + middle + after;
    if moved == [] {
      assert order == before + moved + after;
    } else if before != [] {
      assert order[1..] == before[1..] + middle + after;
      RefilledSlice(before[1..], middle, after, moved, moving);
      assert before + moved + after == [before[0]] + (before[1..] + moved + after);
    } else {
      assert order[1..] == [] + middle[1..] + after;
      RefilledSlice([], middle[1..], after, moved[1..], moving);
      assert before + moved + after == [moved[0]] + ([] + moved[1..] + after);
    }
  }

  lemma SwappedElements(ids: seq<string>, i: nat, j: nat)
    requires i < |ids| && j < |ids|
    ensures forall id :: id in Swapped(ids, i, j) <==> id in ids
    ensures NoDuplicates(ids) ==> NoDuplicates(Swapped(ids, i, j))
  {
    var s := Swapped(ids, i, j);
    assert s[i] == ids[j] && s[j] == ids[i];
    forall id | id in ids ensures id in s {
      var k :| 0 <= k < |ids| && ids[k] == id;
      assert s[if k == i then j else if k == j then i else k] == id;
    }
  }

  /** Moving inside a slice and refilling the whole list is one exchange in the whole list. */
  lemma SliceMove(all: seq<string>, lo: nat, hi: nat, i: nat, direction: int)
    requires NoDuplicates(all) && lo <= i < hi <= |all|
    ensures MovedIds(all[lo..hi], all[i], direction) ==
              if lo <= i + direction < hi then Some(Swapped(all[lo..hi], i - lo, i + direction - lo)) else None
  {
    var ids := all[lo..hi];
    assert ids[i - lo] == all[i];
    IndexOfAt(ids, i - lo);
  }

  lemma OutsideSlice(all: seq<string>, lo: nat, hi: nat, moved: seq<string>)
    requires NoDuplicates(all) && lo <= hi <= |all| && forall id :: id in moved ==> id in all[lo..hi]
    ensures forall id :: id in all[..lo] ==> id !in moved
  {
    forall k, m | 0 <= k < lo <= m < hi ensures all[k] != all[m] {
    }
    forall id | id in all[..lo] ensures id !in all[lo..hi] {
      var k :| 0 <= k < lo && all[k] == id;
      forall m | 0 <= m < hi - lo ensures all[lo..hi][m] != id {
        assert all[lo..hi][m] == all[lo + m];
      }
    }
  }

  lemma SliceRefill(all: seq<string>, lo: nat, hi: nat, i: nat, j: nat, moved: seq<string>)
    requires NoDuplicates(all) && lo <= i < hi <= |all| && lo <= j < hi
    requires moved == Swapped(all[lo..hi], i - lo, j - lo)
    ensures Refilled(all, moved, moved) == Swapped(all, i, j)
  {
    SwappedElements(all[lo..hi], i - lo, j - lo);
    OutsideSlice(all, lo, hi, moved);
    RefilledSlice(all[..lo], all[lo..hi], all[hi..], moved, moved);
    SwappedInSlice(all, lo, hi, i, j);
    assert all == all[..lo] + all[lo..hi] + all[hi..];
  }

  lemma SwappedInSlice(all: seq<string>, lo: nat, hi: nat, i: nat, j: nat)
    requires lo <= i < hi <= |all| && lo <= j < hi
    ensures all[..lo] + Swapped(all[lo..hi], i - lo, j - lo) + all[hi..] == Swapped(all, i, j)
  {
    var whole := all[..lo] + Swapped(all[lo..hi], i - lo, j - lo) + all[hi..];
    forall k | 0 <= k < |all| ensures whole[k] == Swapped(all, i, j)[k] {
    }
  }

  lemma IdsOfSlice(items: seq<Item>, lo: nat, hi: nat)
    requires lo <= hi <= |items|
    ensures Ids(items[lo..hi]) == Ids(items)[lo..hi]
  {
  }

  /** The peers of a connection are one slice of the list around it. */
  lemma PeerSlice(le: Locale, siblings: seq<Item>, i: nat) returns (lo: nat, hi: nat)
    requires Sorted(ConnectionOrder(le), siblings) && i < |siblings|
    ensures lo <= i < hi <= |siblings| && Peers(siblings, siblings[i].isFavorite) == siblings[lo..hi]
    ensures forall m :: 0 <= m < |siblings| ==> (lo <= m < hi <==> siblings[m].isFavorite == siblings[i].isFavorite)
  {
    var split := FavoritesSplit(le, siblings);
    PeersAreSlice(siblings, split, siblings[i].isFavorite);
    lo, hi := if siblings[i].isFavorite then 0 else split, if siblings[i].isFavorite then split else |siblings|;
  }

  /** The order asked for, told by the ids of the list and of the peers. */
  function SliceOrder(all: seq<string>, part: seq<string>, id: string, direction: int): Option<seq<string>> {
    match MovedIds(part, id, direction)
    case None => None
    case Some(moved) => Some(Refilled(all, moved, moved))
  }

  lemma SliceOrderSwaps(all: seq<string>, lo: nat, hi: nat, i: nat, direction: int)
    requires NoDuplicates(all) && lo <= i < hi <= |all|
    ensures SliceOrder(all, all[lo..hi], all[i], direction) ==
              if lo <= i + direction < hi then Some(Swapped(all, i, i + direction)) else None
  {
    SliceMove(all, lo, hi, i, direction);
    if lo <= i + direction < hi {
      SliceRefill(all, lo, hi, i, i + direction, Swapped(all[lo..hi], i - lo, i + direction - lo));
    }
  }

  lemma MovedOrderIsSliceOrder(siblings: seq<Item>, lo: nat, hi: nat, i: nat, direction: int)
    requires lo <= i < hi <= |siblings| && Peers(siblings, siblings[i].isFavorite) == siblings[lo..hi]
    ensures MovedOrder(siblings, siblings[i], direction) ==
              SliceOrder(Ids(siblings), Ids(siblings)[lo..hi], Ids(siblings)[i], direction)
  {
    IdsOfSlice(siblings, lo, hi);
  }

  /** One click moves a connection past its neighbour exactly when there is a neighbour on that
      side and it is a favourite just like it; otherwise the backend is not called. */
  lemma MoveIsAdjacentSwap(le: Locale, siblings: seq<Item>, i: nat, direction: int)
    requires Sorted(ConnectionOrder(le), siblings) && NoDuplicates(Ids(siblings))
    requires i < |siblings| && (direction == -1 || direction == 1)
    ensures var target := i + direction;
            MovedOrder(siblings, siblings[i], direction) ==
              if 0 <= target < |siblings| && siblings[target].isFavorite == siblings[i].isFavorite
              then Some(Swapped(Ids(siblings), i, target))
              else None
  {
    var lo, hi := PeerSlice(le, siblings, i);
    MovedOrderIsSliceOrder(siblings, lo, hi, i, direction);
    SliceOrderSwaps(Ids(siblings), lo, hi, i, direction);
  }

  /** A connection of the tree after the move: same record, new place, one revision later. */
  function Replaced(item: Item, place: nat): Item {
    item.(sortOrder := place, revision := item.revision + 1)
  }

  function Source(i: nat, j: nat, m: nat): nat {
    if m == i then j else if m == j then i else m
  }

  /** The branch as it should look: `siblings` with two neighbours exchanged, renumbered. */
  function SwappedBranch(siblings: seq<Item>, i: nat, j: nat): seq<Item>
    requires i < |siblings| && j < |siblings|
  {
    seq(|siblings|, m requires 0 <= m < |siblings| => Replaced(siblings[Source(i, j, m)], m))
  }

  /** Renumbering after exchanging two neighbours of the same kind leaves a sorted branch. */
  lemma SwappedBranchSorted(le: Locale, siblings: seq<Item>, i: nat, j: nat)
    requires Sorted(ConnectionOrder(le), siblings) && i < |siblings| && j < |siblings|
    requires siblings[i].isFavorite == siblings[j].isFavorite
    ensures Sorted(ConnectionOrder(le), SwappedBranch(siblings, i, j))
  {
    var shown := SwappedBranch(siblings, i, j);
    forall a, b | 0 <= a < b < |shown| ensures ConnectionBefore(le, shown[a], shown[b]) {
      assert ConnectionOrder(le)(siblings[a], siblings[b]);
      assert shown[a].isFavorite == siblings[a].isFavorite && shown[b].isFavorite == siblings[b].isFavorite;
    }
  }

  lemma SwappedIsShown(t: Tables, group: Option<string>, siblings: seq<Item>, i: nat, j: nat, u: Tables, m: nat)
    requires Shows(t, group, siblings) && i < |siblings| && j < |siblings| && m < |siblings|
    requires Reordered(t, group, Swapped(Ids(siblings), i, j), true) == Ok(u)
    ensures IsShown(u, group, SwappedBranch(siblings, i, j)[m])
  {
    var order := Swapped(Ids(siblings), i, j);
    ReorderAssigns(t, group, order, true);
    var origin := siblings[Source(i, j, m)];
    assert origin in siblings && order[m] == origin.config.id;
    assert IsShown(t, group, origin);
  }

  lemma PlaceInOrder(t: Tables, group: Option<string>, siblings: seq<Item>, i: nat, j: nat, u: Tables, item: Item)
      returns (m: nat)
    requires Shows(t, group, siblings) && i < |siblings| && j < |siblings|
    requires Reordered(t, group, Swapped(Ids(siblings), i, j), true) == Ok(u)
    requires IsShown(u, group, item)
    ensures m < |siblings| && siblings[Source(i, j, m)].config.id == item.config.id
    ensures u.connections[item.config.id].sortOrder == m && LiveIn(t.connections, item.config.id, group)
    ensures u.connections[item.config.id] ==
              t.connections[item.config.id].(sortOrder := m, revision := t.connections[item.config.id].revision + 1)
  {
    var order := Swapped(Ids(siblings), i, j);
    ReorderAssigns(t, group, order, true);
    m := IndexOf(order, item.config.id);
    assert order[m] == siblings[Source(i, j, m)].config.id;
  }

  lemma ShownIsSwapped(t: Tables, group: Option<string>, siblings: seq<Item>, i: nat, j: nat, u: Tables, item: Item)
    requires Shows(t, group, siblings) && i < |siblings| && j < |siblings|
    requires Reordered(t, group, Swapped(Ids(siblings), i, j), true) == Ok(u)
    requires IsShown(u, group, item)
    ensures item in SwappedBranch(siblings, i, j)
  {
    var m := PlaceInOrder(t, group, siblings, i, j, u, item);
    var origin := siblings[Source(i, j, m)];
    assert origin in siblings;
    assert IsShown(t, group, origin);
    assert SwappedBranch(siblings, i, j)[m] == item;
  }

  /** After the reordering the group's live rows are exactly the swapped branch. */
  lemma SwappedBranchIsStored(t: Tables, group: Option<string>, siblings: seq<Item>, i: nat, j: nat, u: Tables)
    requires Shows(t, group, siblings) && i < |siblings| && j < |siblings|
    requires Reordered(t, group, Swapped(Ids(siblings), i, j), true) == Ok(u)
    ensures Shows(u, group, SwappedBranch(siblings, i, j))
  {
    var shown := SwappedBranch(siblings, i, j);
    forall item ensures item in shown <==> IsShown(u, group, item) {
      if item in shown {
        var m :| 0 <= m < |shown| && shown[m] == item;
        SwappedIsShown(t, group, siblings, i, j, u, m);
      }
      if IsShown(u, group, item) {
        ShownIsSwapped(t, group, siblings, i, j, u, item);
      }
    }
    forall a, b | 0 <= a < b < |shown| ensures shown[a] != shown[b] {
      assert shown[a].sortOrder == a && shown[b].sortOrder == b;
    }
  }

  lemma BranchAfterMove(le: Locale, t: Tables, u: Tables, siblings: seq<Item>, after: Catalog, group: Option<string>,
      i: nat, j: nat)
    requires TotalOrder(le) && WellFormed(u) && Lists(after, u)
    requires Shows(t, group, siblings) && Sorted(ConnectionOrder(le), siblings)
    requires i < |siblings| && j < |siblings| && siblings[i].isFavorite == siblings[j].isFavorite
    requires Reordered(t, group, Swapped(Ids(siblings), i, j), true) == Ok(u)
    ensures ConnectionsOf(le, after, group) == SwappedBranch(siblings, i, j)
  {
    BranchShape(le, u, after, group);
    SwappedBranchIsStored(t, group, siblings, i, j, u);
    SwappedBranchSorted(le, siblings, i, j);
    ShownIsLinear(le, u, group, ConnectionsOf(le, after, group));
    SortedIsUnique(ConnectionOrder(le), ConnectionsOf(le, after, group), SwappedBranch(siblings, i, j));
  }

  lemma OtherGroupsStay(t: Tables, u: Tables, moved: Option<string>, order: seq<string>, group: Option<string>,
      item: Item)
    requires Reordered(t, moved, order, true) == Ok(u) && group != moved
    ensures IsShown(t, group, item) <==> IsShown(u, group, item)
  {
    ReorderAssigns(t, moved, order, true);
  }

  lemma OtherBranchStays(le: Locale, t: Tables, u: Tables, before: Catalog, after: Catalog, moved: Option<string>,
      order: seq<string>, group: Option<string>)
    requires TotalOrder(le) && WellFormed(t) && WellFormed(u) && Lists(before, t) && Lists(after, u)
    requires Reordered(t, moved, order, true) == Ok(u) && group != moved
    ensures ConnectionsOf(le, after, group) == ConnectionsOf(le, before, group)
  {
    HousedIsLive(t, before, group);
    HousedIsLive(u, after, group);
    ShownIsLinear(le, u, group, Housed(after, group));
    forall item ensures item in Housed(after, group) <==> item in Housed(before, group) {
      OtherGroupsStay(t, u, moved, order, group, item);
    }
    SortIgnoresOrder(ConnectionOrder(le), Housed(after, group), Housed(before, group));
  }

  ghost predicate ListsGroups(groups: seq<GroupItem>, stored: map<string, Group>) {
    Sorting.Distinct(groups) && forall g :: g in groups <==> g.id in stored && g.group == stored[g.id]
  }

  /** The groups of the tree depend on the groups table only. */
  lemma SameGroups(le: Locale, stored: map<string, Group>, before: seq<GroupItem>, after: seq<GroupItem>)
    requires TotalOrder(le) && ListsGroups(before, stored) && ListsGroups(after, stored)
    ensures Sort(GroupOrder(le), after) == Sort(GroupOrder(le), before)
    ensures DistinctGroups(Sort(GroupOrder(le), before))
  {
    GroupOrderIsLinear(le, after);
    SortIgnoresOrder(GroupOrder(le), after, before);
    GroupOrderIsLinear(le, before);
    SortIsSorted(GroupOrder(le), before);
    var sorted := Sort(GroupOrder(le), before);
    forall i, j | 0 <= i < j < |sorted| ensures sorted[i].id != sorted[j].id {
      assert sorted[i] in before && sorted[j] in before && sorted[i] != sorted[j];
    }
  }

  ghost predicate DistinctGroups(groups: seq<GroupItem>) {
    forall i, j :: 0 <= i < j < |groups| ==> groups[i].id != groups[j].id
  }

  /** Changing what is shown for the group of one branch changes that branch only. */
  lemma AssembledReplaced(groups: seq<GroupItem>, before: Option<string> -> seq<Item>,
      after: Option<string> -> seq<Item>, k: nat)
    requires DistinctGroups(groups) && k < |Assembled(groups, before)|
    requires var group := Assembled(groups, before)[k].group;
             |after(group)| == |before(group)| && forall other :: other != group ==> after(other) == before(other)
    ensures var tree := Assembled(groups, before);
            tree[k].connections == before(tree[k].group)
            && Assembled(groups, after) == tree[k := Branch(tree[k].group, after(tree[k].group))]
  {
  }

  lemma BranchIs(le: Locale, catalog: Catalog, k: nat)
    requires k < |BuildTree(le, catalog)|
    ensures BuildTree(le, catalog)[k].connections == ConnectionsOf(le, catalog, BuildTree(le, catalog)[k].group)
  {
  }

  lemma TreeAfterMove(le: Locale, t: Tables, u: Tables, before: Catalog, k: nat, i: nat, j: nat, after: Catalog)
    requires TotalOrder(le) && WellFormed(t) && Lists(before, t) && Lists(after, u) && k < |BuildTree(le, before)|
    requires i < |BuildTree(le, before)[k].connections| && j < |BuildTree(le, before)[k].connections|
    requires BuildTree(le, before)[k].connections[i].isFavorite == BuildTree(le, before)[k].connections[j].isFavorite
    requires Reordered(t, BuildTree(le, before)[k].group, Swapped(Ids(BuildTree(le, before)[k].connections), i, j),
              true) == Ok(u)
    ensures var tree := BuildTree(le, before);
            BuildTree(le, after) == tree[k := Branch(tree[k].group, SwappedBranch(tree[k].connections, i, j))]
  {
    var tree := BuildTree(le, before);
    var group, siblings := tree[k].group, tree[k].connections;
    var order := Swapped(Ids(siblings), i, j);
    BranchIs(le, before, k);
    OperationKeepsRows(t, Reorder(group, order, true));
    BranchShape(le, t, before, group);
    BranchAfterMove(le, t, u, siblings, after, group, i, j);
    forall other | other != group ensures ConnectionsOf(le, after, other) == ConnectionsOf(le, before, other) {
      OtherBranchStays(le, t, u, before, after, group, order, other);
    }
    SameGroups(le, t.groups, before.groups, after.groups);
    AssembledReplaced(Sort(GroupOrder(le), before.groups),
                      (g: Option<string>) => ConnectionsOf(le, before, g),
                        (g: Option<string>) => ConnectionsOf(le, after, g), k);
  }

  /** The order a click asks for is a permutation of what the backend stores for that group. */
  lemma MoveIsAccepted(le: Locale, t: Tables, group: Option<string>, siblings: seq<Item>, i: nat, direction: int)
    requires WellFormed(t) && Shows(t, group, siblings) && Sorted(ConnectionOrder(le), siblings)
    requires i < |siblings| && (direction == -1 || direction == 1)
    requires 0 <= i + direction < |siblings| && siblings[i + direction].isFavorite == siblings[i].isFavorite
    ensures siblings[i].config.groupId == group
    ensures MovedOrder(siblings, siblings[i], direction) == Some(Swapped(Ids(siblings), i, i + direction))
    ensures Reordered(t, group, Swapped(Ids(siblings), i, i + direction), true).Ok?
  {
    ShownIds(t, group, siblings);
    MoveIsAdjacentSwap(le, siblings, i, direction);
    var order := Swapped(Ids(siblings), i, i + direction);
    SwappedElements(Ids(siblings), i, i + direction);
    assert siblings[i] in siblings && IsShown(t, group, siblings[i]);
    assert RowOk(t, siblings[i].config.id);
    assert (set id | id in order) == LiveIds(t.connections, group);
    ReorderAcceptsPermutations(t, group, order);
  }

  /** Full stack: click the move button of the i-th connection of branch k in the tree of any
      well-formed catalog. If its neighbour on that side is a peer, the backend accepts the order
      it is sent, and the tree built from whatever listing it returns next is the old tree with
      those two exchanged in branch k and every other branch as it was. */
  lemma MoveSwapsNeighbours(le: Locale, t: Tables, before: Catalog, k: nat, i: nat, direction: int, u: Tables,
      after: Catalog)
    requires TotalOrder(le) && WellFormed(t) && Lists(before, t)
    requires k < |BuildTree(le, before)| && i < |BuildTree(le, before)[k].connections|
    requires direction == -1 || direction == 1
    requires var siblings := BuildTree(le, before)[k].connections;
             0 <= i + direction < |siblings| && siblings[i + direction].isFavorite == siblings[i].isFavorite
    ensures var siblings := BuildTree(le, before)[k].connections;
            var order := MovedOrder(siblings, siblings[i], direction);
            && order.Some?
            && Reordered(t, siblings[i].config.groupId, order.value, true).Ok?
            && (Reordered(t, siblings[i].config.groupId, order.value, true) == Ok(u) && Lists(after, u) ==>
                  BuildTree(le, after) ==
                    BuildTree(le, before)[k := Branch(BuildTree(le, before)[k].group,
                      SwappedBranch(siblings, i, i + direction))])
  {
    var group, siblings := BuildTree(le, before)[k].group, BuildTree(le, before)[k].connections;
    BranchIs(le, before, k);
    BranchShape(le, t, before, group);
    MoveIsAccepted(le, t, group, siblings, i, direction);
    if Reordered(t, group, Swapped(Ids(siblings), i, i + direction), true) == Ok(u) && Lists(after, u) {
      TreeAfterMove(le, t, u, before, k, i, i + direction, after);
    }
  }

  /** The hypotheses can be met: two ungrouped connections, the first of which is moved down. */
  lemma TwoCanMove(le: Locale) returns (t: Tables, before: Catalog)
    requires TotalOrder(le)
    ensures WellFormed(t) && Lists(before, t)
    ensures var tree := BuildTree(le, before);
            |tree| == 1 && |tree[0].connections| == 2
              && tree[0].connections[1].isFavorite == tree[0].connections[0].isFavorite
  {
    var first, second := NewConfig("a", "a", "h", "u"), NewConfig("b", "b", "h", "u");
    LettersAreValid(first);
    LettersAreValid(second);
    t := Tables(map["a" := Row(first, false, 0, false, 1), "b" := Row(second, false, 1, false, 1)], map[], {}, map[]);
    assert RowOk(t, "a") && RowOk(t, "b");
    var items := [ItemOf(t.connections["a"]), ItemOf(t.connections["b"])];
    before := Catalog([], items);
    TwoShown(le, items[0], items[1]);
  }

  lemma TwoShown(le: Locale, a: Item, b: Item)
    requires a.config.groupId.None? && b.config.groupId.None? && ConnectionBefore(le, a, b)
    ensures BuildTree(le, Catalog([], [a, b])) == [Branch(None, [a, b])]
  {
    var catalog := Catalog([], [a, b]);
    var home := (item: Item) => Home(catalog.groups, item) == None;
    assert Filter(home, [b]) == [b];
    assert [a, b][1..] == [b];
    assert Housed(catalog, None) == [a, b];
    assert Sort(ConnectionOrder(le), [b]) == [b];
    assert ConnectionsOf(le, catalog, None) == [a, b];
    assert Sort(GroupOrder(le), catalog.groups) == [];
  }
}
