/** The layered settings of a connection, told from the history of writes alone. */
module SettingsHistory {
  import opened Wrappers
  import opened Text
  import opened Contracts
  import opened CatalogTables
  import opened ConnectionRepository

  function FieldOf(o: Override, key: Key): Option<nat> {
    match key
    case ConnectTimeout => o.connectTimeoutSecs
    case KeepAlive => o.keepAliveSecs
  }

  predicate Names(configs: seq<ConnectionConfig>, owner: Owner) {
    exists config :: config in configs && owner == ConnectionScope(config.id)
  }

  lemma NamesLast(configs: seq<ConnectionConfig>, owner: Owner)
    requires configs != []
    ensures Names(configs, owner) <==>
              Names(configs[..|configs| - 1], owner) || owner == ConnectionScope(configs[|configs| - 1].id)
  {
    var last := configs[|configs| - 1];
    assert configs == configs[..|configs| - 1] + [last];
    assert last in configs;
  }

  /** What an operation that went through says about one setting: nothing, a value, or that it
      is unset. */
  ghost function Says(op: Operation, owner: Owner, key: Key): Option<Option<nat>> {
    match op
    case Save(config, o, _) => if owner == ConnectionScope(config.id) then Some(FieldOf(o, key)) else None
    case Import(configs, _) =>
      if Names(configs, owner) then Some(None) else None
    case SaveSettings(scope, o, _) => if owner == scope then Some(FieldOf(o, key)) else None
    case DeleteGroup(id, _) => if owner == GroupScope(id) then Some(None) else None
    case _ => None
  }

  /** The latest word on a setting. */
  ghost function Latest(t: Tables, ops: seq<Operation>, owner: Owner, key: Key): Option<nat> {
    if ops == [] then Stored(t.settings, owner, key)
    else
      var n := |ops| - 1;
      if Apply(Run(t, ops[..n]), ops[n]).Ok? && Says(ops[n], owner, key).Some? then Says(ops[n], owner, key).value
      else Latest(t, ops[..n], owner, key)
  }

  /** Settings of a group exist only while the group does. */
  ghost predicate Owned(t: Tables) {
    forall id, key :: (GroupScope(id), key) in t.settings ==> id in t.groups
  }

  /** Writing one scope writes both of its fields and touches no other scope. */
  lemma WritesOneScope(settings: SettingRows, scope: Owner, o: Override, owner: Owner, key: Key)
    ensures Stored(Applied(settings, scope, o), owner, key) ==
              if owner == scope then FieldOf(o, key) else Stored(settings, owner, key)
  {
  }

  lemma {:induction false} ImportClears(t: Tables, configs: seq<ConnectionConfig>, owner: Owner, key: Key)
    requires AllRecordsSaved(t, configs).Ok?
    ensures Stored(AllRecordsSaved(t, configs).value.settings, owner, key) ==
              if Names(configs, owner) then None else Stored(t.settings, owner, key)
    ensures AllRecordsSaved(t, configs).value.groups == t.groups
  {
    if configs != [] {
      var n := |configs| - 1;
      ImportClears(t, configs[..n], owner, key);
      NamesLast(configs, owner);
      WritesOneScope(AllRecordsSaved(t, configs[..n]).value.settings, ConnectionScope(configs[n].id), NO_OVERRIDE,
        owner, key);
    }
  }

  lemma OperationSays(t: Tables, op: Operation, owner: Owner, key: Key)
    requires Owned(t) && Apply(t, op).Ok?
    ensures Stored(After(t, op).settings, owner, key) ==
              if Says(op, owner, key).Some? then Says(op, owner, key).value else Stored(t.settings, owner, key)
  {
    match op
    case Save(config, o, _) => WritesOneScope(t.settings, ConnectionScope(config.id), o, owner, key);
    case Import(configs, _) => ImportClears(t, configs, owner, key);
    case SaveSettings(scope, o, _) => WritesOneScope(t.settings, scope, o, owner, key);
    case _ =>
  }

  lemma OperationKeepsOwned(t: Tables, op: Operation)
    requires Owned(t)
    ensures Owned(After(t, op))
  {
    if Apply(t, op).Ok? {
      var u := After(t, op);
      forall id, key | (GroupScope(id), key) in u.settings ensures id in u.groups {
        OperationSays(t, op, GroupScope(id), key);
        assert Stored(u.settings, GroupScope(id), key).Some?;
        match op
        case SaveSettings(scope, o, _) => assert scope == GroupScope(id) ==> o != NO_OVERRIDE;
        case Import(configs, _) => ImportClears(t, configs, GroupScope(id), key);
        case _ =>
      }
    }
  }

  lemma {:induction false} RunKeepsOwned(t: Tables, ops: seq<Operation>)
    requires Owned(t)
    ensures Owned(Run(t, ops))
  {
    if ops != [] {
      RunKeepsOwned(t, ops[..|ops| - 1]);
      OperationKeepsOwned(Run(t, ops[..|ops| - 1]), ops[|ops| - 1]);
    }
  }

  /** The table holds, for every scope and field, the latest word of the history. */
  lemma {:induction false} TableIsLatest(t: Tables, ops: seq<Operation>, owner: Owner, key: Key)
    requires Owned(t)
    ensures Stored(Run(t, ops).settings, owner, key) == Latest(t, ops, owner, key)
  {
    if ops != [] {
      var n := |ops| - 1;
      TableIsLatest(t, ops[..n], owner, key);
      RunKeepsOwned(t, ops[..n]);
      if Apply(Run(t, ops[..n]), ops[n]).Ok? {
        OperationSays(Run(t, ops[..n]), ops[n], owner, key);
      }
    }
  }

  /** Whatever was saved, imported, regrouped or deleted in between, a connection is opened with
      the latest value said for it, else for the group it is in now, else for all connections,
      else with the default. */
  lemma EffectiveIsLatest(t: Tables, ops: seq<Operation>, id: string, key: Key, default: nat)
    requires Owned(t) && id in Run(t, ops).connections
    ensures var value := EffectiveValue(Run(t, ops), id, key, default);
            var group := Run(t, ops).connections[id].config.groupId;
            var own := Latest(t, ops, ConnectionScope(id), key);
            var shared := if group.Some? then Latest(t, ops, GroupScope(group.value), key) else None;
            var general := Latest(t, ops, Global, key);
            && (own.Some? ==> value == own.value)
            && (own.None? && shared.Some? ==> value == shared.value)
            && (own.None? && shared.None? && general.Some? ==> value == general.value)
            && (own.None? && shared.None? && general.None? ==> value == default)
  {
    TableIsLatest(t, ops, ConnectionScope(id), key);
    TableIsLatest(t, ops, Global, key);
    var group := Run(t, ops).connections[id].config.groupId;
    if group.Some? {
      TableIsLatest(t, ops, GroupScope(group.value), key);
    }
  }

  /** An import that goes through leaves the connections it wrote without settings of their own. */
  lemma ImportForgetsOwnSettings(t: Tables, configs: seq<ConnectionConfig>, i: nat, key: Key)
    requires Owned(t) && i < |configs| && Apply(t, Import(configs, true)).Ok?
    ensures Stored(After(t, Import(configs, true)).settings, ConnectionScope(configs[i].id), key) == None
  {
    assert configs[i] in configs;
    OperationSays(t, Import(configs, true), ConnectionScope(configs[i].id), key);
  }
}
