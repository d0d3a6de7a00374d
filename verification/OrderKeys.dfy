/** The `sort_order` keys of the connections in one group over whole runs of the repository. */
module OrderKeys {
  import opened Wrappers
  import opened Text
  import opened Contracts
  import opened CatalogTables
  import opened ConnectionRepository

  predicate Clash(connections: Connections, a: string, b: string)
    requires a in connections && b in connections
  {
    && a != b
    && !connections[a].deleted && !connections[b].deleted
    && connections[a].config.groupId == connections[b].config.groupId
    && connections[a].sortOrder == connections[b].sortOrder
  }

  /** Live connections of one group have pairwise distinct keys. */
  ghost predicate DistinctOrders(connections: Connections) {
    forall a, b :: a in connections && b in connections ==> !Clash(connections, a, b)
  }

  /** A row that is new to its group, or comes back from deletion, goes after every live one; a
      live row saved into the group it is in keeps its place. No other row is touched. */
  lemma UpsertPlaces(connections: Connections, config: ConnectionConfig)
    ensures var after := Upserted(connections, config);
            && LiveIn(after, config.id, config.groupId)
            && after[config.id].sortOrder ==
                 (if LiveIn(connections, config.id, config.groupId) then connections[config.id].sortOrder
                  else NextOrder(connections, config.groupId))
            && (forall id :: id in connections && id != config.id ==> id in after && after[id] == connections[id])
            && (!LiveIn(connections, config.id, config.groupId) ==>
                  forall id :: id != config.id && LiveIn(after, id, config.groupId) ==>
                    after[id].sortOrder < after[config.id].sortOrder)
  {
    var after := Upserted(connections, config);
    forall id | id != config.id && LiveIn(after, id, config.groupId)
      ensures after[id].sortOrder < NextOrder(connections, config.groupId)
    {
      assert connections[id].sortOrder in LiveOrders(connections, config.groupId);
    }
  }

  lemma UpsertKeepsOrder(connections: Connections, config: ConnectionConfig)
    requires DistinctOrders(connections)
    ensures DistinctOrders(Upserted(connections, config))
  {
    var after := Upserted(connections, config);
    UpsertPlaces(connections, config);
    forall a, b | a in after && b in after ensures !Clash(after, a, b) {
      if a in connections && b in connections {
        assert !Clash(connections, a, b);
      }
    }
  }

  lemma {:induction false} ImportKeepsOrder(t: Tables, configs: seq<ConnectionConfig>)
    requires DistinctOrders(t.connections)
    ensures AllRecordsSaved(t, configs).Ok? ==> DistinctOrders(AllRecordsSaved(t, configs).value.connections)
  {
    if configs != [] {
      ImportKeepsOrder(t, configs[..|configs| - 1]);
      if AllRecordsSaved(t, configs).Ok? {
        UpsertKeepsOrder(AllRecordsSaved(t, configs[..|configs| - 1]).value.connections, configs[|configs| - 1]);
      }
    }
  }

  /** An accepted order gives exactly the listed connections the keys 0, 1, 2, .. and leaves every
      other row, and who is in which group, as it was. */
  lemma ReorderAssigns(t: Tables, group: Option<string>, ids: seq<string>, accepted: bool)
    requires Reordered(t, group, ids, accepted).Ok?
    ensures var u := Reordered(t, group, ids, accepted).value;
            && u == t.(connections := u.connections)
            && u.connections.Keys == t.connections.Keys
            && (forall i :: 0 <= i < |ids| ==>
              LiveIn(t.connections, ids[i], group) && u.connections[ids[i]].sortOrder == i)
            && (forall id :: id in t.connections ==>
                  u.connections[id] == if LiveIn(t.connections, id, group)
                                       then t.connections[id].(sortOrder := u.connections[id].sortOrder,
                                                                revision := t.connections[id].revision + 1)
                                       else t.connections[id])
            && (forall id :: LiveIn(t.connections, id, group) ==>
              id in ids && u.connections[id].sortOrder == IndexOf(ids, id))
  {
    AcceptedIsListed(t.connections, group, ids);
  }

  lemma AcceptedIsListed(connections: Connections, group: Option<string>, ids: seq<string>)
    requires OrderAccepted(LiveIds(connections, group), ids)
    ensures forall i :: 0 <= i < |ids| ==> LiveIn(connections, ids[i], group) && IndexOf(ids, ids[i]) == i
    ensures forall id :: LiveIn(connections, id, group) ==> id in ids
  {
    var stored := LiveIds(connections, group);
    DistinctCount(ids);
    SameSizeSubset(stored, set id | id in ids);
    forall i | 0 <= i < |ids| ensures LiveIn(connections, ids[i], group) && IndexOf(ids, ids[i]) == i {
      assert ids[i] in stored;
      IndexOfAt(ids, i);
    }
    forall id | LiveIn(connections, id, group) ensures id in ids {
      assert id in stored;
    }
  }

  lemma ReorderKeepsOrder(t: Tables, group: Option<string>, ids: seq<string>, accepted: bool)
    requires DistinctOrders(t.connections) && Reordered(t, group, ids, accepted).Ok?
    ensures DistinctOrders(Reordered(t, group, ids, accepted).value.connections)
  {
    ReorderAssigns(t, group, ids, accepted);
    var after := Reordered(t, group, ids, accepted).value.connections;
    forall a, b | a in after && b in after ensures !Clash(after, a, b) {
      assert !Clash(t.connections, a, b);
    }
  }

  /** Two groups are about to be merged into the ungrouped list: some live connection of the
      group has the key of a live ungrouped one. */
  ghost predicate WouldClash(connections: Connections, group: string) {
    exists a, b :: LiveIn(connections, a, Some(group)) && LiveIn(connections, b, None)
      && connections[a].sortOrder == connections[b].sortOrder
  }

  /** Deleting a group keeps every live connection, and keeps the keys distinct exactly when no
      key of the group is already taken among the ungrouped connections. */
  lemma DeleteGroupOrder(t: Tables, group: string)
    requires DistinctOrders(t.connections)
    ensures var after := GroupDeleted(t, group).connections;
            && after.Keys == t.connections.Keys
            && (forall id :: id in after ==>
                  && IsLive(after, id) == IsLive(t.connections, id)
                  && after[id].sortOrder == t.connections[id].sortOrder
                  && after[id].favorite == t.connections[id].favorite)
            && (DistinctOrders(after) <==> !WouldClash(t.connections, group))
  {
    var before, after := t.connections, GroupDeleted(t, group).connections;
    forall a, b | a in after && b in after
      ensures Clash(after, a, b) ==> WouldClash(before, group)
    {
      assert !Clash(before, a, b) && !Clash(before, b, a);
    }
    if WouldClash(before, group) {
      var a, b :| LiveIn(before, a, Some(group)) && LiveIn(before, b, None)
        && before[a].sortOrder == before[b].sortOrder;
      assert Clash(after, a, b);
    }
  }

  /** The smallest case: one connection inside the group and one outside, both first in line. */
  lemma DeleteGroupBreaksOrder() returns (t: Tables)
    ensures WellFormed(t) && DistinctOrders(t.connections)
    ensures !DistinctOrders(GroupDeleted(t, "g").connections)
  {
    var inside := NewConfig("a", "a", "h", "u").(groupId := Some("g"));
    var outside := NewConfig("b", "b", "h", "u");
    LettersAreValid(inside);
    LettersAreValid(outside);
    t := Tables(map["a" := Row(inside, false, 0, false, 1), "b" := Row(outside, false, 0, false, 1)],
                map["g" := Group("g", None, 0, false, 1)], {}, map[]);
    assert RowOk(t, "a") && RowOk(t, "b");
    DeleteGroupOrder(t, "g");
    assert LiveIn(t.connections, "a", Some("g")) && LiveIn(t.connections, "b", None);
  }

  lemma LettersAreValid(config: ConnectionConfig)
    requires |config.id| == 1 && 'a' <= config.id[0] <= 'z'
    requires config == NewConfig(config.id, config.id, "h", "u").(groupId := config.groupId)
    requires config.groupId == None || config.groupId == Some("g")
    ensures IsValid(config)
  {
    TrimmedAlready(config.id);
    TrimmedAlready("g");
    TrimmedAlready("h");
    TrimmedAlready("u");
  }

  lemma OperationKeepsOrder(t: Tables, op: Operation)
    requires DistinctOrders(t.connections)
    requires op.DeleteGroup? && op.accepted ==> !WouldClash(t.connections, op.id)
    ensures DistinctOrders(After(t, op).connections)
  {
    if Apply(t, op).Ok? {
      var after := After(t, op).connections;
      match op
      case Save(config, _, _) => UpsertKeepsOrder(t.connections, config);
      case Import(configs, _) => ImportKeepsOrder(t, configs);
      case Reorder(group, ids, accepted) => ReorderKeepsOrder(t, group, ids, accepted);
      case DeleteGroup(id, _) => DeleteGroupOrder(t, id);
      case _ =>
        forall a, b | a in after && b in after ensures !Clash(after, a, b) {
          assert !Clash(t.connections, a, b);
        }
    }
  }

  /** Over any run of saves, imports, deletions, restorations, favourites, group changes and
      reorderings the keys of one group stay distinct, as long as no group is deleted while one
      of its keys is taken among the ungrouped connections. */
  lemma {:induction false} RunKeepsOrder(t: Tables, ops: seq<Operation>)
    requires DistinctOrders(t.connections)
    requires forall i :: 0 <= i < |ops| && ops[i].DeleteGroup? && ops[i].accepted ==>
               !WouldClash(Run(t, ops[..i]).connections, ops[i].id)
    ensures DistinctOrders(Run(t, ops).connections)
  {
    if ops != [] {
      var n := |ops| - 1;
      forall i | 0 <= i < n && ops[..n][i].DeleteGroup? && ops[..n][i].accepted
        ensures !WouldClash(Run(t, ops[..n][..i]).connections, ops[..n][i].id) {
        assert ops[..n][..i] == ops[..i];
      }
      RunKeepsOrder(t, ops[..n]);
      OperationKeepsOrder(Run(t, ops[..n]), ops[n]);
    }
  }

  /** A reorder goes through exactly for a permutation of the group's live ids; otherwise nothing
      in the catalog changes. */
  lemma ReorderAcceptsPermutations(t: Tables, group: Option<string>, ids: seq<string>)
    requires WellFormed(t) && !BlankReference(group)
    ensures Reordered(t, group, ids, true).Ok? <==>
              NoDuplicates(ids) && (set id | id in ids) == LiveIds(t.connections, group)
    ensures Reordered(t, group, ids, true).Err? ==> After(t, Reorder(group, ids, true)) == t
  {
    var stored := LiveIds(t.connections, group);
    forall id | id in stored ensures !IsBlank(id) {
      StoredIdIsVisible(t, id);
    }
    AcceptedIsPermutation(stored, ids);
    assert Reordered(t, group, ids, true).Ok? <==> OrderAccepted(stored, ids);
  }

  lemma StoredIdIsVisible(t: Tables, id: string)
    requires WellFormed(t) && id in t.connections
    ensures !IsBlank(id)
  {
    assert RowOk(t, id);
  }
}
