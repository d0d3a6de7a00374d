/** The catalog's tables and what each statement of the repository does to them
    (crates/persistence/src/repository.rs, crates/persistence/migrations). */
module CatalogTables {
  import opened Wrappers
  import opened Text
  import opened Contracts

  datatype Row = Row(config: ConnectionConfig, favorite: bool, sortOrder: nat, deleted: bool, revision: nat)

  datatype Group = Group(name: string, color: Option<string>, sortOrder: nat, collapsed: bool, revision: nat)

  datatype Owner = Global | GroupScope(id: string) | ConnectionScope(id: string)

  datatype Key = ConnectTimeout | KeepAlive

  type Connections = map<string, Row>

  type SettingRows = map<(Owner, Key), nat>

  datatype Tables = Tables(
    connections: Connections,
    groups: map<string, Group>,
    keyReferences: set<string>,
    settings: SettingRows)

  datatype Error = InvalidConnectionConfiguration | DatabaseOperation

  /** `deleted_at IS NULL AND group_id IS ?` */
  predicate LiveIn(connections: Connections, id: string, group: Option<string>) {
    id in connections && !connections[id].deleted && connections[id].config.groupId == group
  }

  function LiveIds(connections: Connections, group: Option<string>): set<string> {
    set id | id in connections && LiveIn(connections, id, group)
  }

  function LiveOrders(connections: Connections, group: Option<string>): set<nat> {
    set id | id in connections && LiveIn(connections, id, group) :: connections[id].sortOrder
  }

  /** `COALESCE(MAX(..) + 1, 0)` */
  ghost function AboveAll(numbers: set<nat>): (r: nat)
    ensures forall n :: n in numbers ==> n < r
    ensures r == 0 || r - 1 in numbers
  {
    if numbers == {} then 0
    else
      var n :| n in numbers;
      var rest := AboveAll(numbers - {n});
      assert forall m :: m in numbers ==> m == n || m in numbers - {n};
      if n < rest then rest else n + 1
  }

  ghost function NextOrder(connections: Connections, group: Option<string>): nat {
    AboveAll(LiveOrders(connections, group))
  }

  // Settings

  function Written(settings: SettingRows, owner: Owner, key: Key, value: Option<nat>): SettingRows {
    match value
    case Some(n) => settings[(owner, key) := n]
    case None => settings - {(owner, key)}
  }

  function Applied(settings: SettingRows, owner: Owner, o: Override): SettingRows {
    Written(Written(settings, owner, ConnectTimeout, o.connectTimeoutSecs), owner, KeepAlive, o.keepAliveSecs)
  }

  function Stored(settings: SettingRows, owner: Owner, key: Key): Option<nat> {
    if (owner, key) in settings then Some(settings[(owner, key)]) else None
  }

  predicate OwnerExists(t: Tables, owner: Owner) {
    match owner
    case Global => true
    case GroupScope(id) => id in t.groups
    case ConnectionScope(id) => id in t.connections
  }

  /** A scope with nothing to store is only deleted from, so it need not exist. */
  function SettingsSaved(t: Tables, owner: Owner, o: Override, accepted: bool): Result<Tables, Error> {
    if owner != Global && IsBlank(owner.id) then Err(InvalidConnectionConfiguration)
    else if !accepted || (!OwnerExists(t, owner) && o != NO_OVERRIDE) then Err(DatabaseOperation)
    else Ok(t.(settings := Applied(t.settings, owner, o)))
  }

  // Connections. `accepted` stands for whatever else can make SQLite refuse a statement.

  predicate ReferencesExist(t: Tables, config: ConnectionConfig) {
    && (config.groupId.Some? ==> config.groupId.value in t.groups)
    && (config.keyReferenceId.Some? ==> config.keyReferenceId.value in t.keyReferences)
  }

  /** The upsert: a live row that stays in its group keeps its place, every other row goes last. */
  ghost function Upserted(connections: Connections, config: ConnectionConfig): Connections {
    var last := NextOrder(connections, config.groupId);
    connections[config.id :=
      if config.id !in connections then Row(config, false, last, false, 1)
      else
        var row := connections[config.id];
        row.(config := config,
             sortOrder := if row.config.groupId == config.groupId && !row.deleted then row.sortOrder else last,
             deleted := false,
             revision := row.revision + 1)]
  }

  ghost function RecordSaved(t: Tables, config: ConnectionConfig, o: Override): Result<Tables, Error> {
    if !ReferencesExist(t, config) then Err(DatabaseOperation)
    else Ok(t.(connections := Upserted(t.connections, config),
               settings := Applied(t.settings, ConnectionScope(config.id), o)))
  }

  ghost function Saved(t: Tables, config: ConnectionConfig, o: Override, accepted: bool): Result<Tables, Error> {
    if !IsValid(config) then Err(InvalidConnectionConfiguration)
    else if !accepted then Err(DatabaseOperation)
    else RecordSaved(t, config, o)
  }

  ghost function AllRecordsSaved(t: Tables, configs: seq<ConnectionConfig>): Result<Tables, Error> {
    if configs == [] then Ok(t)
    else
      match AllRecordsSaved(t, configs[..|configs| - 1])
      case Err(e) => Err(e)
      case Ok(u) => RecordSaved(u, configs[|configs| - 1], NO_OVERRIDE)
  }

  ghost function Imported(t: Tables, configs: seq<ConnectionConfig>, accepted: bool): Result<Tables, Error> {
    if exists i :: 0 <= i < |configs| && !IsValid(configs[i]) then Err(InvalidConnectionConfiguration)
    else if !accepted then Err(DatabaseOperation)
    else AllRecordsSaved(t, configs)
  }

  predicate IsLive(connections: Connections, id: string) {
    id in connections && !connections[id].deleted
  }

  function Deleted(connections: Connections, id: string): Connections {
    if !IsLive(connections, id) then connections
    else connections[id := connections[id].(deleted := true, revision := connections[id].revision + 1)]
  }

  function FavoriteSet(connections: Connections, id: string, favorite: bool): Connections {
    if !IsLive(connections, id) then connections
    else connections[id := connections[id].(favorite := favorite, revision := connections[id].revision + 1)]
  }

  // Reordering

  ghost predicate NoDuplicates(ids: seq<string>) {
    forall i, j :: 0 <= i < j < |ids| ==> ids[i] != ids[j]
  }

  ghost predicate NoBlanks(ids: seq<string>) {
    forall i :: 0 <= i < |ids| ==> !IsBlank(ids[i])
  }

  /** What the two validators let through. */
  ghost predicate OrderAccepted(stored: set<string>, ids: seq<string>) {
    && NoBlanks(ids) && NoDuplicates(ids)
    && |stored| == |ids|
    && forall id :: id in stored ==> id in ids
  }

  function IndexOf(ids: seq<string>, id: string): (i: nat)
    requires id in ids
    ensures i < |ids| && ids[i] == id && id !in ids[..i]
  {
    if ids[0] == id then 0 else 1 + IndexOf(ids[1..], id)
  }

  function Renumbered(connections: Connections, group: Option<string>, ids: seq<string>): Connections {
    map id | id in connections ::
      if LiveIn(connections, id, group) && id in ids
      then connections[id].(sortOrder := IndexOf(ids, id), revision := connections[id].revision + 1)
      else connections[id]
  }

  ghost function Reordered(t: Tables, group: Option<string>, ids: seq<string>, accepted: bool): Result<Tables, Error> {
    if BlankReference(group) || !OrderAccepted(LiveIds(t.connections, group), ids)
      then Err(InvalidConnectionConfiguration)
    else if !accepted then Err(DatabaseOperation)
    else Ok(t.(connections := Renumbered(t.connections, group, ids)))
  }

  // Groups

  function Ungrouped(connections: Connections, group: string): Connections {
    map id | id in connections ::
      var row := connections[id];
      if row.config.groupId == Some(group)
      then row.(config := row.config.(groupId := None), revision := row.revision + 1)
      else row
  }

  /** The group's own settings go with it by cascade. */
  function GroupDeleted(t: Tables, group: string): Tables {
    t.(connections := Ungrouped(t.connections, group),
       groups := t.groups - {group},
       settings := if group in t.groups
         then t.settings - {(GroupScope(group), ConnectTimeout), (GroupScope(group), KeepAlive)} else t.settings)
  }

  predicate NameTaken(t: Tables, id: string, name: string) {
    exists other :: other in t.groups && other != id && EqIgnoreAsciiCase(t.groups[other].name, name)
  }

  function GroupSaved(t: Tables, id: string, g: Group, accepted: bool): Result<Tables, Error> {
    if IsBlank(id) || IsBlank(g.name) || (g.color.Some? && !IsHexColor(g.color.value))
      then Err(InvalidConnectionConfiguration)
    else if !accepted || NameTaken(t, id, g.name) then Err(DatabaseOperation)
    else Ok(t.(groups := t.groups[id := g.(revision := if id in t.groups then t.groups[id].revision + 1 else 1)]))
  }

  // Whole runs

  datatype Operation =
    | Save(config: ConnectionConfig, settings: Override, accepted: bool)
    | Import(configs: seq<ConnectionConfig>, accepted: bool)
    | SaveSettings(owner: Owner, settings: Override, accepted: bool)
    | Delete(id: string, accepted: bool)
    | SetFavorite(id: string, favorite: bool, accepted: bool)
    | Reorder(group: Option<string>, ids: seq<string>, accepted: bool)
    | SaveGroup(id: string, value: Group, accepted: bool)
    | DeleteGroup(id: string, accepted: bool)

  /** A statement about one id, which SQLite may still refuse. */
  function Updated(id: string, accepted: bool, after: Tables): Result<Tables, Error> {
    if IsBlank(id) then Err(InvalidConnectionConfiguration) else if !accepted then Err(DatabaseOperation) else Ok(after)
  }

  ghost function Apply(t: Tables, op: Operation): Result<Tables, Error> {
    match op
    case Save(config, o, accepted) => Saved(t, config, o, accepted)
    case Import(configs, accepted) => Imported(t, configs, accepted)
    case SaveSettings(owner, o, accepted) => SettingsSaved(t, owner, o, accepted)
    case Delete(id, accepted) => Updated(id, accepted, t.(connections := Deleted(t.connections, id)))
    case SetFavorite(id, favorite, accepted) =>
      Updated(id, accepted, t.(connections := FavoriteSet(t.connections, id, favorite)))
    case Reorder(group, ids, accepted) => Reordered(t, group, ids, accepted)
    case SaveGroup(id, g, accepted) => GroupSaved(t, id, g, accepted)
    case DeleteGroup(id, accepted) => Updated(id, accepted, GroupDeleted(t, id))
  }

  /** A refused operation is rolled back. */
  ghost function After(t: Tables, op: Operation): Tables {
    match Apply(t, op)
    case Ok(u) => u
    case Err(_) => t
  }

  ghost function Run(t: Tables, ops: seq<Operation>): Tables {
    if ops == [] then t else After(Run(t, ops[..|ops| - 1]), ops[|ops| - 1])
  }

  // What the schema and the checks keep true

  ghost predicate RowOk(t: Tables, id: string)
    requires id in t.connections
  {
    var config := t.connections[id].config;
    config.id == id && IsValid(config) && ReferencesExist(t, config)
  }

  ghost predicate WellFormed(t: Tables) {
    forall id :: id in t.connections ==> RowOk(t, id)
  }

  lemma UpsertKeepsRows(t: Tables, config: ConnectionConfig, o: Override)
    requires WellFormed(t) && IsValid(config) && RecordSaved(t, config, o).Ok?
    ensures WellFormed(RecordSaved(t, config, o).value)
  {
    var u := RecordSaved(t, config, o).value;
    forall id | id in u.connections ensures RowOk(u, id) {
      if id != config.id {
        assert RowOk(t, id);
      }
    }
  }

  lemma {:induction false} ImportKeepsRows(t: Tables, configs: seq<ConnectionConfig>)
    requires WellFormed(t) && forall i :: 0 <= i < |configs| ==> IsValid(configs[i])
    ensures AllRecordsSaved(t, configs).Ok? ==> WellFormed(AllRecordsSaved(t, configs).value)
  {
    if configs != [] {
      ImportKeepsRows(t, configs[..|configs| - 1]);
      var before := AllRecordsSaved(t, configs[..|configs| - 1]);
      if AllRecordsSaved(t, configs).Ok? {
        UpsertKeepsRows(before.value, configs[|configs| - 1], NO_OVERRIDE);
      }
    }
  }

  lemma UngroupedIsValid(config: ConnectionConfig)
    requires IsValid(config)
    ensures IsValid(config.(groupId := None))
  {
  }

  lemma DeleteGroupKeepsRows(t: Tables, group: string)
    requires WellFormed(t)
    ensures WellFormed(GroupDeleted(t, group))
  {
    var u := GroupDeleted(t, group);
    forall id | id in u.connections ensures RowOk(u, id) {
      assert RowOk(t, id);
      UngroupedIsValid(t.connections[id].config);
    }
  }

  lemma OperationKeepsRows(t: Tables, op: Operation)
    requires WellFormed(t)
    ensures WellFormed(After(t, op))
  {
    match op
    case Save(config, o, _) => if Apply(t, op).Ok? { UpsertKeepsRows(t, config, o); }
    case Import(configs, accepted) => if Apply(t, op).Ok? { ImportKeepsRows(t, configs); }
    case DeleteGroup(id, _) => DeleteGroupKeepsRows(t, id);
    case _ =>
      var u := After(t, op);
      forall id | id in u.connections ensures RowOk(u, id) {
        assert RowOk(t, id);
        assert u.connections[id].config == t.connections[id].config;
      }
  }

  /** From an empty catalog every stored connection stays valid, under its own id, and refers
      only to groups and keys that exist. */
  lemma {:induction false} RunKeepsRows(t: Tables, ops: seq<Operation>)
    requires WellFormed(t)
    ensures WellFormed(Run(t, ops))
  {
    if ops != [] {
      RunKeepsRows(t, ops[..|ops| - 1]);
      OperationKeepsRows(Run(t, ops[..|ops| - 1]), ops[|ops| - 1]);
    }
  }
}
