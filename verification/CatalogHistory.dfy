/** When each repository operation goes through, and what the catalog holds after any run of them,
    told from the operations alone (crates/persistence/src/repository.rs). */
module CatalogHistory {
  import opened Wrappers
  import opened Text
  import opened Contracts
  import opened CatalogTables
  import opened ConnectionRepository
  import opened OrderKeys

  // When an operation goes through

  ghost predicate Refers(t: Tables, config: ConnectionConfig) {
    && (config.groupId == None || config.groupId.value in t.groups)
    && (config.keyReferenceId == None || config.keyReferenceId.value in t.keyReferences)
  }

  ghost predicate AllRefer(t: Tables, configs: seq<ConnectionConfig>) {
    forall i :: 0 <= i < |configs| ==> Refers(t, configs[i])
  }

  predicate IsGroup(id: string, g: Group) {
    && !IsBlank(id) && !IsBlank(g.name)
    && (g.color == None || IsColor(g.color.value))
  }

  /** What the repository itself demands of the arguments. */
  ghost predicate Sound(t: Tables, op: Operation) {
    match op
    case Save(config, _, _) => IsValid(config)
    case Import(configs, _) => forall i :: 0 <= i < |configs| ==> IsValid(configs[i])
    case SaveSettings(owner, _, _) => owner == Global || !IsBlank(owner.id)
    case Delete(id, _) => !IsBlank(id)
    case SetFavorite(id, _, _) => !IsBlank(id)
    case Reorder(group, ids, _) =>
      && (group == None || !IsBlank(group.value))
      && NoDuplicates(ids) && forall id :: id in ids <==> LiveIn(t.connections, id, group)
    case SaveGroup(id, g, _) => IsGroup(id, g)
    case DeleteGroup(id, _) => !IsBlank(id)
  }

  /** What the tables demand: references lead somewhere, a scope with settings exists, and no other group has
      the name in any case. */
  ghost predicate Storable(t: Tables, op: Operation) {
    match op
    case Save(config, _, _) => Refers(t, config)
    case Import(configs, _) => AllRefer(t, configs)
    case SaveSettings(owner, o, _) =>
      || o == NO_OVERRIDE || owner == Global
      || (owner.GroupScope? && owner.id in t.groups) || (owner.ConnectionScope? && owner.id in t.connections)
    case SaveGroup(id, g, _) =>
      forall other :: other in t.groups && EqIgnoreAsciiCase(t.groups[other].name, g.name) ==> other == id
    case _ => true
  }

  lemma {:induction false} RecordsGoThrough(t: Tables, configs: seq<ConnectionConfig>)
    ensures AllRecordsSaved(t, configs).Ok? <==> AllRefer(t, configs)
    ensures AllRecordsSaved(t, configs).Err? ==> AllRecordsSaved(t, configs).error == DatabaseOperation
    ensures AllRecordsSaved(t, configs).Ok? ==>
              AllRecordsSaved(t, configs).value.groups == t.groups
              && AllRecordsSaved(t, configs).value.keyReferences == t.keyReferences
  {
    if configs != [] {
      var n := |configs| - 1;
      RecordsGoThrough(t, configs[..n]);
      assert AllRefer(t, configs) <==> AllRefer(t, configs[..n]) && Refers(t, configs[n]) by {
        assert forall i :: 0 <= i < n ==> configs[..n][i] == configs[i];
      }
    }
  }

  lemma ListedAreLive(connections: Connections, group: Option<string>, ids: seq<string>)
    ensures (set id | id in ids) == LiveIds(connections, group) <==>
              forall id :: id in ids <==> LiveIn(connections, id, group)
  {
    var listed := set id | id in ids;
    assert forall id :: id in listed <==> id in ids;
    assert forall id :: id in LiveIds(connections, group) <==> LiveIn(connections, id, group);
  }

  /** An operation goes through exactly if its arguments are sound, the tables can hold its effect and
      SQLite does not refuse it for another reason; otherwise the error says which. */
  lemma GoesThroughWhen(t: Tables, op: Operation)
    requires WellFormed(t)
    ensures Apply(t, op).Ok? <==> Sound(t, op) && Storable(t, op) && op.accepted
    ensures Apply(t, op).Err? ==>
              Apply(t, op).error == if Sound(t, op) then DatabaseOperation else InvalidConnectionConfiguration
  {
    match op
    case Import(configs, _) =>
      RecordsGoThrough(t, configs);
    case Reorder(group, ids, _) =>
      if group == None || !IsBlank(group.value) {
        ReorderAcceptsPermutations(t, group, ids);
        ListedAreLive(t.connections, group, ids);
      }
    case SaveGroup(id, g, _) =>
    case _ =>
  }

  // Histories

  /** The last configuration of that id in a list. */
  function LastNamed(configs: seq<ConnectionConfig>, id: string): Option<ConnectionConfig> {
    if configs == [] then None
    else if configs[|configs| - 1].id == id then Some(configs[|configs| - 1])
    else LastNamed(configs[..|configs| - 1], id)
  }

  /** The configuration an operation stores for a connection, if it stores one. */
  function StoresConfig(op: Operation, id: string): Option<ConnectionConfig> {
    match op
    case Save(config, _, _) => if config.id == id then Some(config) else None
    case Import(configs, _) => LastNamed(configs, id)
    case _ => None
  }

  /** What there is to know about one connection. */
  datatype Record = Record(config: ConnectionConfig, favorite: bool, live: bool)

  function RecordOf(connections: Connections, id: string): Option<Record> {
    if id in connections
    then Some(Record(connections[id].config, connections[id].favorite, !connections[id].deleted)) else None
  }

  /** What an operation that goes through does to one connection: storing it makes it live and keeps its star,
      deleting it ends that, starring needs a live one, and a deleted group is forgotten. */
  function Changed(op: Operation, id: string, record: Option<Record>): Option<Record> {
    if StoresConfig(op, id).Some? then
      Some(Record(StoresConfig(op, id).value, record.Some? && record.value.favorite, true))
    else if record.None? then None
    else if op.Delete? && op.id == id then Some(record.value.(live := false))
    else if op.SetFavorite? && op.id == id && record.value.live then Some(record.value.(favorite := op.favorite))
    else if op.DeleteGroup? && record.value.config.groupId == Some(op.id) then
      Some(record.value.(config := record.value.config.(groupId := None)))
    else record
  }

  ghost function History(t: Tables, ops: seq<Operation>, id: string): Option<Record> {
    if ops == [] then RecordOf(t.connections, id)
    else
      var n := |ops| - 1;
      var before := History(t, ops[..n], id);
      if Apply(Run(t, ops[..n]), ops[n]).Ok? then Changed(ops[n], id, before) else before
  }

  lemma {:induction false} RecordsStore(t: Tables, configs: seq<ConnectionConfig>, id: string)
    requires AllRecordsSaved(t, configs).Ok?
    ensures RecordOf(AllRecordsSaved(t, configs).value.connections, id) ==
            Changed(Import(configs, true), id, RecordOf(t.connections, id))
  {
    if configs != [] {
      RecordsStore(t, configs[..|configs| - 1], id);
    }
  }

  lemma OneRecordStored(t: Tables, config: ConnectionConfig, o: Override, id: string)
    requires RecordSaved(t, config, o).Ok?
    ensures RecordOf(RecordSaved(t, config, o).value.connections, id) ==
            Changed(Save(config, o, true), id, RecordOf(t.connections, id))
  {
  }

  lemma GroupDeletionChanges(t: Tables, group: string, id: string)
    ensures RecordOf(GroupDeleted(t, group).connections, id) ==
            Changed(DeleteGroup(group, true), id, RecordOf(t.connections, id))
  {
  }

  lemma ReorderChangesNothing(t: Tables, group: Option<string>, ids: seq<string>, accepted: bool, id: string)
    requires Reordered(t, group, ids, accepted).Ok?
    ensures RecordOf(Reordered(t, group, ids, accepted).value.connections, id) == RecordOf(t.connections, id)
  {
  }

  lemma OperationChanges(t: Tables, op: Operation, id: string)
    requires Apply(t, op).Ok?
    ensures RecordOf(After(t, op).connections, id) == Changed(op, id, RecordOf(t.connections, id))
  {
    match op
    case Save(config, o, _) => OneRecordStored(t, config, o, id);
    case Import(configs, _) => RecordsStore(t, configs, id);
    case Reorder(group, ids, accepted) => ReorderChangesNothing(t, group, ids, accepted, id);
    case DeleteGroup(group, _) => GroupDeletionChanges(t, group, id);
    case _ =>
  }

  /** Over every run, what the table holds of a connection, whether it is live, its configuration and its star,
      is what the operations that went through made of it, in their order. */
  lemma {:induction false} TableIsHistory(t: Tables, ops: seq<Operation>, id: string)
    ensures RecordOf(Run(t, ops).connections, id) == History(t, ops, id)
  {
    if ops != [] {
      var n := |ops| - 1;
      TableIsHistory(t, ops[..n], id);
      if Apply(Run(t, ops[..n]), ops[n]).Ok? {
        OperationChanges(Run(t, ops[..n]), ops[n], id);
      }
    }
  }

  // Revisions

  function TimesNamed(configs: seq<ConnectionConfig>, id: string): nat {
    if configs == [] then 0
    else TimesNamed(configs[..|configs| - 1], id) + if configs[|configs| - 1].id == id then 1 else 0
  }

  /** How often an operation that goes through writes to the row of a connection. */
  function Writes(op: Operation, id: string, record: Option<Record>): nat {
    match op
    case Save(config, _, _) => if config.id == id then 1 else 0
    case Import(configs, _) => TimesNamed(configs, id)
    case Delete(other, _) => if other == id && record.Some? && record.value.live then 1 else 0
    case SetFavorite(other, _, _) => if other == id && record.Some? && record.value.live then 1 else 0
    case Reorder(group, _, _) =>
      if record.Some? && record.value.live && record.value.config.groupId == group then 1 else 0
    case DeleteGroup(group, _) => if record.Some? && record.value.config.groupId == Some(group) then 1 else 0
    case _ => 0
  }

  function RevisionOf(connections: Connections, id: string): nat {
    if id in connections then connections[id].revision else 0
  }

  ghost function WritesInAll(t: Tables, ops: seq<Operation>, id: string): nat {
    if ops == [] then 0
    else
      var n := |ops| - 1;
      WritesInAll(t, ops[..n], id)
      + if Apply(Run(t, ops[..n]), ops[n]).Ok? then Writes(ops[n], id, History(t, ops[..n], id)) else 0
  }

  lemma {:induction false} RecordsCount(t: Tables, configs: seq<ConnectionConfig>, id: string)
    requires AllRecordsSaved(t, configs).Ok?
    ensures RevisionOf(AllRecordsSaved(t, configs).value.connections, id) ==
            RevisionOf(t.connections, id) + TimesNamed(configs, id)
  {
    if configs != [] {
      RecordsCount(t, configs[..|configs| - 1], id);
    }
  }

  lemma ReorderCounts(t: Tables, group: Option<string>, ids: seq<string>, accepted: bool, id: string)
    requires WellFormed(t) && Reordered(t, group, ids, accepted).Ok?
    ensures RevisionOf(Reordered(t, group, ids, accepted).value.connections, id) ==
            RevisionOf(t.connections, id) + Writes(Reorder(group, ids, accepted), id, RecordOf(t.connections, id))
  {
    GoesThroughWhen(t, Reorder(group, ids, accepted));
    assert id in ids <==> LiveIn(t.connections, id, group);
  }

  lemma OperationCounts(t: Tables, op: Operation, id: string)
    requires WellFormed(t) && Apply(t, op).Ok?
    ensures RevisionOf(After(t, op).connections, id) ==
            RevisionOf(t.connections, id) + Writes(op, id, RecordOf(t.connections, id))
  {
    match op
    case Import(configs, _) => RecordsCount(t, configs, id);
    case Reorder(group, ids, accepted) => ReorderCounts(t, group, ids, accepted, id);
    case _ =>
  }

  /** Over every run, a connection's revision grows by exactly one for each time its row was written: nothing is
      written without a new revision, and no revision is given twice. */
  lemma {:induction false} RevisionsCountWrites(t: Tables, ops: seq<Operation>, id: string)
    requires WellFormed(t)
    ensures RevisionOf(Run(t, ops).connections, id) == RevisionOf(t.connections, id) + WritesInAll(t, ops, id)
  {
    if ops != [] {
      var n := |ops| - 1;
      RevisionsCountWrites(t, ops[..n], id);
      TableIsHistory(t, ops[..n], id);
      RunKeepsRows(t, ops[..n]);
      if Apply(Run(t, ops[..n]), ops[n]).Ok? {
        OperationCounts(Run(t, ops[..n]), ops[n], id);
      }
    }
  }

  // Groups

  function GroupOf(t: Tables, id: string): Option<Group> {
    if id in t.groups then Some(t.groups[id]) else None
  }

  function GroupChanged(op: Operation, id: string, group: Option<Group>): Option<Group> {
    if op.SaveGroup? && op.id == id then
      Some(op.value.(revision := if group.Some? then group.value.revision + 1 else 1))
    else if op.DeleteGroup? && op.id == id then None
    else group
  }

  ghost function GroupHistory(t: Tables, ops: seq<Operation>, id: string): Option<Group> {
    if ops == [] then GroupOf(t, id)
    else
      var n := |ops| - 1;
      var before := GroupHistory(t, ops[..n], id);
      if Apply(Run(t, ops[..n]), ops[n]).Ok? then GroupChanged(ops[n], id, before) else before
  }

  lemma OperationChangesGroup(t: Tables, op: Operation, id: string)
    requires Apply(t, op).Ok?
    ensures GroupOf(After(t, op), id) == GroupChanged(op, id, GroupOf(t, id))
  {
    match op
    case Import(configs, _) => RecordsGoThrough(t, configs);
    case _ =>
  }

  /** A group is what its last save made of it, unless it was deleted since. */
  lemma {:induction false} GroupsAreHistory(t: Tables, ops: seq<Operation>, id: string)
    ensures GroupOf(Run(t, ops), id) == GroupHistory(t, ops, id)
  {
    if ops != [] {
      var n := |ops| - 1;
      GroupsAreHistory(t, ops[..n], id);
      if Apply(Run(t, ops[..n]), ops[n]).Ok? {
        OperationChangesGroup(Run(t, ops[..n]), ops[n], id);
      }
    }
  }
}
