/** The repository's transactions as they run, statement by statement
    (crates/persistence/src/repository.rs). */
module ConnectionRepository {
  import opened Wrappers
  import opened Text
  import opened Contracts
  import opened CatalogTables

  lemma AboveAllIsUnique(numbers: set<nat>, r: nat)
    requires forall n :: n in numbers ==> n < r
    requires r == 0 || r - 1 in numbers
    ensures r == AboveAll(numbers)
  {
    var s := AboveAll(numbers);
    assert s == 0 || s - 1 in numbers;
  }

  /** `validate_order_ids`: stop at the first blank or repeated id. */
  method ValidateOrderIds(ids: seq<string>) returns (ok: bool)
    ensures ok <==> NoBlanks(ids) && NoDuplicates(ids)
  {
    var unique: set<string> := {};
    for i := 0 to |ids|
      invariant unique == set k | 0 <= k < i :: ids[k]
      invariant forall j :: 0 <= j < i ==> !IsBlank(ids[j])
      invariant forall j, k :: 0 <= j < k < i ==> ids[j] != ids[k]
    {
      if IsBlank(ids[i]) || ids[i] in unique {
        return false;
      }
      unique := unique + {ids[i]};
    }
    ok := true;
  }

  /** `validate_complete_order`: equal lengths and every stored id requested. */
  method ValidateCompleteOrder(storedIds: seq<string>, ids: seq<string>) returns (ok: bool)
    ensures ok <==> |storedIds| == |ids| && forall i :: 0 <= i < |storedIds| ==> storedIds[i] in ids
  {
    if |storedIds| != |ids| {
      return false;
    }
    var requested := set id | id in ids;
    for i := 0 to |storedIds|
      invariant forall j :: 0 <= j < i ==> storedIds[j] in ids
    {
      if storedIds[i] !in requested {
        return false;
      }
    }
    ok := true;
  }

  lemma {:induction false} DistinctCount(ids: seq<string>)
    requires NoDuplicates(ids)
    ensures |set id | id in ids| == |ids|
  {
    if ids != [] {
      var shorter := ids[..|ids| - 1];
      DistinctCount(shorter);
      assert (set id | id in ids) == (set id | id in shorter) + {ids[|ids| - 1]};
    }
  }

  lemma SameSizeSubset<T>(small: set<T>, large: set<T>)
    requires small <= large && |small| == |large|
    ensures small == large
  {
    assert |large - small| == 0;
  }

  /** Pigeonhole: the two cheap checks together accept exactly the permutations of the stored ids. */
  lemma AcceptedIsPermutation(stored: set<string>, ids: seq<string>)
    requires forall id :: id in stored ==> !IsBlank(id)
    ensures OrderAccepted(stored, ids) <==> NoDuplicates(ids) && (set id | id in ids) == stored
  {
    if NoDuplicates(ids) {
      DistinctCount(ids);
      if OrderAccepted(stored, ids) {
        SameSizeSubset(stored, set id | id in ids);
      }
    }
    if (set id | id in ids) == stored {
      forall i | 0 <= i < |ids| ensures !IsBlank(ids[i]) {
        assert ids[i] in stored;
      }
    }
  }

  lemma {:induction false} IndexOfPrefix(ids: seq<string>, i: nat, id: string)
    requires i <= |ids| && id in ids[..i]
    ensures id in ids && IndexOf(ids[..i], id) == IndexOf(ids, id)
  {
    if ids[0] != id {
      assert ids[..i][1..] == ids[1..][..i - 1];
      IndexOfPrefix(ids[1..], i - 1, id);
    }
  }

  lemma {:induction false} IndexOfAt(ids: seq<string>, i: nat)
    requires i < |ids| && NoDuplicates(ids)
    ensures IndexOf(ids, ids[i]) == i
  {
    var k := IndexOf(ids, ids[i]);
    assert ids[k] == ids[i];
  }

  class Repository {
    var connections: Connections
    var groups: map<string, Group>
    var keyReferences: set<string>
    var settings: SettingRows

    function View(): Tables
      reads this
    {
      Tables(connections, groups, keyReferences, settings)
    }

    constructor ()
      ensures View() == Tables(map[], map[], {}, map[])
    {
      connections, groups, keyReferences, settings := map[], map[], {}, map[];
    }

    /** `SELECT id FROM connections WHERE deleted_at IS NULL AND group_id IS ?` */
    method QueryIds(group: Option<string>) returns (ids: seq<string>)
      ensures NoDuplicates(ids) && (set id | id in ids) == LiveIds(connections, group)
      ensures |ids| == |LiveIds(connections, group)|
    {
      var rest := LiveIds(connections, group);
      ids := [];
      while rest != {}
        invariant NoDuplicates(ids)
        invariant forall id :: id in LiveIds(connections, group) <==> id in ids || id in rest
        invariant forall id :: id in ids ==> id !in rest
        decreases |rest|
      {
        var id :| id in rest;
        rest := rest - {id};
        ids := ids + [id];
      }
      DistinctCount(ids);
    }

    method NextSortOrder(group: Option<string>) returns (r: nat)
      ensures r == NextOrder(connections, group)
    {
      var ids := QueryIds(group);
      r := 0;
      for i := 0 to |ids|
        invariant forall j :: 0 <= j < i ==> ids[j] in connections && connections[ids[j]].sortOrder < r
        invariant r == 0 || exists j :: 0 <= j < i && ids[j] in connections && connections[ids[j]].sortOrder == r - 1
      {
        assert ids[i] in LiveIds(connections, group);
        if connections[ids[i]].sortOrder >= r {
          r := connections[ids[i]].sortOrder + 1;
        }
      }
      forall n | n in LiveOrders(connections, group) ensures n < r {
        var id :| id in connections && LiveIn(connections, id, group) && connections[id].sortOrder == n;
        assert id in LiveIds(connections, group) && id in ids;
      }
      if r > 0 {
        var j :| 0 <= j < |ids| && ids[j] in connections && connections[ids[j]].sortOrder == r - 1;
        assert ids[j] in LiveIds(connections, group);
      }
      AboveAllIsUnique(LiveOrders(connections, group), r);
    }

    method WriteSetting(owner: Owner, key: Key, value: Option<nat>)
      modifies this`settings
      ensures settings == Written(old(settings), owner, key, value)
    {
      match value {
        case Some(n) => settings := settings[(owner, key) := n];
        case None => settings := settings - {(owner, key)};
      }
    }

    method ApplySettings(owner: Owner, o: Override)
      modifies this`settings
      ensures settings == Applied(old(settings), owner, o)
    {
      WriteSetting(owner, ConnectTimeout, o.connectTimeoutSecs);
      WriteSetting(owner, KeepAlive, o.keepAliveSecs);
    }

    /** One record inside a transaction: a broken reference refuses the insert. */
    method SaveConnectionRecord(config: ConnectionConfig, o: Override) returns (ok: bool)
      modifies this`connections, this`settings
      ensures ok == RecordSaved(old(View()), config, o).Ok?
      ensures View() == if ok then RecordSaved(old(View()), config, o).value else old(View())
    {
      if (config.groupId.Some? && config.groupId.value !in groups)
         || (config.keyReferenceId.Some? && config.keyReferenceId.value !in keyReferences) {
        return false;
      }
      var last := NextSortOrder(config.groupId);
      if config.id in connections {
        var row := connections[config.id];
        var place := if row.config.groupId == config.groupId && !row.deleted then row.sortOrder else last;
        connections := connections[config.id :=
          row.(config := config, sortOrder := place, deleted := false, revision := row.revision + 1)];
      } else {
        connections := connections[config.id := Row(config, false, last, false, 1)];
      }
      ApplySettings(ConnectionScope(config.id), o);
      ok := true;
    }

    method SaveConnection(config: ConnectionConfig, o: Override, accepted: bool) returns (r: Result<(), Error>)
      modifies this`connections, this`settings
      ensures View() == After(old(View()), Save(config, o, accepted))
      ensures r.Ok? == Apply(old(View()), Save(config, o, accepted)).Ok?
    {
      if Validate(config).Some? {
        return Err(InvalidConnectionConfiguration);
      }
      if !accepted {
        return Err(DatabaseOperation);
      }
      var ok := SaveConnectionRecord(config, o);
      if !ok {
        return Err(DatabaseOperation);
      }
      r := Ok(());
    }

    /** The loop of `import_connections`, inside its transaction. */
    method SaveRecords(configs: seq<ConnectionConfig>) returns (ok: bool)
      modifies this`connections, this`settings
      ensures ok == AllRecordsSaved(old(View()), configs).Ok?
      ensures ok ==> View() == AllRecordsSaved(old(View()), configs).value
    {
      ghost var before := View();
      for i := 0 to |configs|
        invariant groups == old(groups) && keyReferences == old(keyReferences)
        invariant AllRecordsSaved(before, configs[..i]) == Ok(View())
      {
        assert configs[..i + 1][..i] == configs[..i];
        var saved := SaveConnectionRecord(configs[i], NO_OVERRIDE);
        if !saved {
          RefusedStays(before, configs, i + 1);
          return false;
        }
      }
      assert configs[..|configs|] == configs;
      ok := true;
    }

    /** Everything is validated before the transaction starts; one refused record rolls back all. */
    method ImportConnections(configs: seq<ConnectionConfig>, accepted: bool) returns (r: Result<(), Error>)
      modifies this`connections, this`settings
      ensures View() == After(old(View()), Import(configs, accepted))
      ensures r.Ok? == Apply(old(View()), Import(configs, accepted)).Ok?
    {
      for i := 0 to |configs|
        invariant forall j :: 0 <= j < i ==> IsValid(configs[j])
      {
        if Validate(configs[i]).Some? {
          return Err(InvalidConnectionConfiguration);
        }
      }
      if !accepted {
        return Err(DatabaseOperation);
      }
      var before := View();
      var ok := SaveRecords(configs);
      if !ok {
        connections, settings := before.connections, before.settings;
        return Err(DatabaseOperation);
      }
      r := Ok(());
    }

    method SaveScopedSettings(owner: Owner, o: Override, accepted: bool) returns (r: Result<(), Error>)
      modifies this`settings
      ensures View() == After(old(View()), SaveSettings(owner, o, accepted))
      ensures r.Ok? == Apply(old(View()), SaveSettings(owner, o, accepted)).Ok?
    {
      if owner != Global && IsBlank(owner.id) {
        return Err(InvalidConnectionConfiguration);
      }
      if !accepted || (!OwnerExists(View(), owner) && o != NO_OVERRIDE) {
        return Err(DatabaseOperation);
      }
      ApplySettings(owner, o);
      r := Ok(());
    }

    method DeleteConnection(id: string, accepted: bool) returns (r: Result<bool, Error>)
      modifies this`connections
      ensures View() == After(old(View()), Delete(id, accepted))
      ensures r == if IsBlank(id) then Err(InvalidConnectionConfiguration)
                   else if !accepted then Err(DatabaseOperation) else Ok(IsLive(old(connections), id))
    {
      if IsBlank(id) {
        return Err(InvalidConnectionConfiguration);
      }
      if !accepted {
        return Err(DatabaseOperation);
      }
      if id !in connections || connections[id].deleted {
        return Ok(false);
      }
      connections := connections[id := connections[id].(deleted := true, revision := connections[id].revision + 1)];
      r := Ok(true);
    }

    method SetConnectionFavorite(id: string, favorite: bool, accepted: bool) returns (r: Result<bool, Error>)
      modifies this`connections
      ensures View() == After(old(View()), SetFavorite(id, favorite, accepted))
      ensures r == if IsBlank(id) then Err(InvalidConnectionConfiguration)
                   else if !accepted then Err(DatabaseOperation) else Ok(IsLive(old(connections), id))
    {
      if IsBlank(id) {
        return Err(InvalidConnectionConfiguration);
      }
      if !accepted {
        return Err(DatabaseOperation);
      }
      if id !in connections || connections[id].deleted {
        return Ok(false);
      }
      connections := connections[id :=
        connections[id].(favorite := favorite, revision := connections[id].revision + 1)];
      r := Ok(true);
    }

    /** Both validators on the ids stored for the group. */
    method AcceptsOrder(group: Option<string>, ids: seq<string>) returns (ok: bool)
      ensures ok <==> OrderAccepted(LiveIds(connections, group), ids)
    {
      ok := ValidateOrderIds(ids);
      if ok {
        var storedIds := QueryIds(group);
        ok := ValidateCompleteOrder(storedIds, ids);
        assert forall id :: id in LiveIds(connections, group) <==> id in storedIds;
      }
    }

    /** One update per id, in order. */
    method Renumber(group: Option<string>, ids: seq<string>)
      requires NoDuplicates(ids)
      modifies this`connections
      ensures connections == Renumbered(old(connections), group, ids)
    {
      assert connections == Renumbered(connections, group, ids[..0]);
      for i := 0 to |ids|
        invariant connections == Renumbered(old(connections), group, ids[..i])
      {
        OneMoreRenumbered(old(connections), group, ids, i);
        if LiveIn(connections, ids[i], group) {
          connections := connections[ids[i] :=
            connections[ids[i]].(sortOrder := i, revision := connections[ids[i]].revision + 1)];
        }
      }
      assert ids[..|ids|] == ids;
    }

    method ReorderConnections(group: Option<string>, ids: seq<string>, accepted: bool) returns (r: Result<(), Error>)
      modifies this`connections
      ensures View() == After(old(View()), Reorder(group, ids, accepted))
      ensures r.Ok? == Apply(old(View()), Reorder(group, ids, accepted)).Ok?
    {
      if group.Some? && IsBlank(group.value) {
        return Err(InvalidConnectionConfiguration);
      }
      var valid := AcceptsOrder(group, ids);
      if !valid {
        return Err(InvalidConnectionConfiguration);
      }
      if !accepted {
        return Err(DatabaseOperation);
      }
      Renumber(group, ids);
      r := Ok(());
    }

    method RemoveGroup(group: string, accepted: bool) returns (r: Result<bool, Error>)
      modifies this
      ensures View() == After(old(View()), DeleteGroup(group, accepted))
      ensures r == if IsBlank(group) then Err(InvalidConnectionConfiguration)
                   else if !accepted then Err(DatabaseOperation) else Ok(group in old(groups))
    {
      if IsBlank(group) {
        return Err(InvalidConnectionConfiguration);
      }
      if !accepted {
        return Err(DatabaseOperation);
      }
      connections := Ungrouped(connections, group);
      var known := group in groups;
      groups := groups - {group};
      if known {
        settings := settings - {(GroupScope(group), ConnectTimeout), (GroupScope(group), KeepAlive)};
      }
      r := Ok(known);
    }

    method PutGroup(id: string, g: Group, accepted: bool) returns (r: Result<(), Error>)
      modifies this`groups
      ensures View() == After(old(View()), SaveGroup(id, g, accepted))
      ensures r.Ok? == Apply(old(View()), SaveGroup(id, g, accepted)).Ok?
    {
      if IsBlank(id) || IsBlank(g.name) || (g.color.Some? && !IsHexColor(g.color.value)) {
        return Err(InvalidConnectionConfiguration);
      }
      if !accepted || NameTaken(View(), id, g.name) {
        return Err(DatabaseOperation);
      }
      groups := groups[id := g.(revision := if id in groups then groups[id].revision + 1 else 1)];
      r := Ok(());
    }

    /** A scope with no value at all is no layer. */
    method LoadSettingOverride(owner: Owner) returns (layer: Option<Override>)
      ensures TimeoutIn(layer) == Stored(settings, owner, ConnectTimeout)
      ensures KeepAliveIn(layer) == Stored(settings, owner, KeepAlive)
      ensures layer.Some? <==> (owner, ConnectTimeout) in settings || (owner, KeepAlive) in settings
    {
      var values := NO_OVERRIDE;
      if (owner, ConnectTimeout) in settings {
        values := values.(connectTimeoutSecs := Some(settings[(owner, ConnectTimeout)]));
      }
      if (owner, KeepAlive) in settings {
        values := values.(keepAliveSecs := Some(settings[(owner, KeepAlive)]));
      }
      layer := if values == NO_OVERRIDE then None else Some(values);
    }

    method GetSettings(id: string) returns (resolved: Result<Option<Settings>, Error>)
      ensures resolved == if IsBlank(id) then Err(InvalidConnectionConfiguration)
                          else if IsLive(connections, id) then Ok(Some(Effective(View(), id)))
                          else Ok(None)
      ensures resolved.Ok? && resolved.value.Some? ==>
                id in connections && OpensWith(View(), id, resolved.value.value)
    {
      if IsBlank(id) {
        return Err(InvalidConnectionConfiguration);
      }
      if id !in connections || connections[id].deleted {
        return Ok(None);
      }
      var global := LoadSettingOverride(Global);
      var group: Option<Override> := None;
      if connections[id].config.groupId.Some? {
        group := LoadSettingOverride(GroupScope(connections[id].config.groupId.value));
      }
      var connection := LoadSettingOverride(ConnectionScope(id));
      var settled := Resolve(Layers(global, group, connection));
      resolved := Ok(Some(settled));
    }
  }

  /** The stored values of its own scope, its group's and the one for all connections, the narrowest first. */
  predicate OpensWith(t: Tables, id: string, settings: Settings)
    requires id in t.connections
  {
    && FromNarrowest(settings.connectTimeoutSecs, Stored(t.settings, ConnectionScope(id), ConnectTimeout),
      OfGroup(t, id, ConnectTimeout), Stored(t.settings, Global, ConnectTimeout), 10)
    && FromNarrowest(settings.keepAliveSecs, Stored(t.settings, ConnectionScope(id), KeepAlive),
      OfGroup(t, id, KeepAlive), Stored(t.settings, Global, KeepAlive), 30)
  }

  /** What is stored for the group the connection is in. */
  function OfGroup(t: Tables, id: string, key: Key): Option<nat>
    requires id in t.connections
  {
    var group := t.connections[id].config.groupId;
    if group.Some? then Stored(t.settings, GroupScope(group.value), key) else None
  }

  /** The settings a connection is opened with. */
  function Effective(t: Tables, id: string): Settings
    requires id in t.connections
  {
    Settings(
      EffectiveValue(t, id, ConnectTimeout, DEFAULT_CONNECT_TIMEOUT_SECS),
      EffectiveValue(t, id, KeepAlive, DEFAULT_KEEP_ALIVE_SECS))
  }

  function EffectiveValue(t: Tables, id: string, key: Key, default: nat): nat
    requires id in t.connections
  {
    Narrowest(Stored(t.settings, ConnectionScope(id), key), OfGroup(t, id, key), Stored(t.settings, Global, key),
              default)
  }

  lemma {:induction false} RefusedStays(t: Tables, configs: seq<ConnectionConfig>, i: nat)
    requires i <= |configs| && AllRecordsSaved(t, configs[..i]).Err?
    ensures AllRecordsSaved(t, configs).Err?
  {
    if i == |configs| {
      assert configs[..i] == configs;
    } else {
      assert configs[..|configs| - 1][..i] == configs[..i];
      RefusedStays(t, configs[..|configs| - 1], i);
    }
  }

  lemma OneMoreIndex(ids: seq<string>, i: nat, id: string)
    requires i < |ids| && NoDuplicates(ids)
    ensures id in ids[..i + 1] <==> id in ids[..i] || id == ids[i]
    ensures ids[i] !in ids[..i] && IndexOf(ids[..i + 1], ids[i]) == i
    ensures id in ids[..i] ==> IndexOf(ids[..i + 1], id) == IndexOf(ids[..i], id)
  {
    assert ids[..i + 1] == ids[..i] + [ids[i]];
    assert ids[..i + 1][..i] == ids[..i];
    IndexOfAt(ids[..i + 1], i);
    if id in ids[..i] {
      IndexOfPrefix(ids[..i + 1], i, id);
    }
  }

  lemma OneMoreRenumbered(connections: Connections, group: Option<string>, ids: seq<string>, i: nat)
    requires i < |ids| && NoDuplicates(ids)
    ensures var before := Renumbered(connections, group, ids[..i]);
            Renumbered(connections, group, ids[..i + 1]) ==
              if LiveIn(before, ids[i], group)
              then before[ids[i] := before[ids[i]].(sortOrder := i, revision := before[ids[i]].revision + 1)]
              else before
  {
    var before, after := Renumbered(connections, group, ids[..i]), Renumbered(connections, group, ids[..i + 1]);
    OneMoreIndex(ids, i, ids[i]);
    forall id | id in connections
      ensures after[id] == if id == ids[i] && LiveIn(before, id, group)
                           then before[id].(sortOrder := i, revision := before[id].revision + 1)
                           else before[id]
    {
      OneMoreIndex(ids, i, id);
    }
  }
}
