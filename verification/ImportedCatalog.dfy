/** What storing an OpenSSH import does to the catalog: `import_openssh_connections` over
    `import_connections` (apps/desktop/src-tauri/src/openssh_import.rs,
    crates/persistence/src/repository.rs). */
module ImportedCatalog {
  import opened Wrappers
  import opened Text
  import opened Contracts
  import opened CatalogTables
  import opened OrderKeys
  import opened Sorting
  import Parser = OpenSshParse
  import Printer = OpenSshRoundTrip
  import opened OpenSshImport

  // Which imported connections are valid

  predicate UsablePort(value: Option<string>) {
    value.Some? ==> ParseU16(value.value).Some? && ParseU16(value.value).value != 0
  }

  predicate Usable(item: PreviewItem) {
    !IsBlank(item.host) && !IsBlank(item.username) && item.port != 0
  }

  lemma ErrorList(c: Candidate, env: Environment)
    ensures ItemFor(c, env).errors ==
              (if IsBlank(OrElse(c.options.hostName, c.alias.value)) then [NoHost] else [])
              + (if IsBlank(OrElse(Parser.Or(c.options.user, env.defaultUsername), [])) then [NoUsername] else [])
              + (if UsablePort(c.options.port) then [] else [BadPort])
  {
  }

  lemma ThreeErrors(host: bool, user: bool, port: bool)
    ensures var errors := (if host then [NoHost] else []) + (if user then [NoUsername] else []) 
                          + (if port then [] else [BadPort]);
            (NoHost in errors <==> host) && (NoUsername in errors <==> user) && (BadPort in errors <==> !port)
  {
  }

  lemma ItemPort(c: Candidate, env: Environment)
    ensures ItemFor(c, env).port ==
              if c.options.port.Some? && UsablePort(c.options.port) then ParseU16(c.options.port.value).value
                else DEFAULT_CONNECTION_PORT
    ensures IdentityFileRequiresKeySetup in ItemFor(c, env).warnings <==> c.options.identityFile.Some?
  {
  }

  /** Each error, the port and the identity file warning, exactly when there is cause. */
  lemma ItemErrors(c: Candidate, env: Environment)
    ensures var item := ItemFor(c, env);
            && (NoHost in item.errors <==> IsBlank(OrElse(c.options.hostName, c.alias.value)))
            && (NoUsername in item.errors <==> IsBlank(OrElse(Parser.Or(c.options.user, env.defaultUsername), [])))
            && (BadPort in item.errors <==> !UsablePort(c.options.port))
            && (IdentityFileRequiresKeySetup in item.warnings <==> c.options.identityFile.Some?)
            && item.port ==
                 if c.options.port.Some? && UsablePort(c.options.port) then ParseU16(c.options.port.value).value
                   else DEFAULT_CONNECTION_PORT
  {
    ErrorList(c, env);
    ThreeErrors(IsBlank(OrElse(c.options.hostName, c.alias.value)),
                IsBlank(OrElse(Parser.Or(c.options.user, env.defaultUsername), [])), UsablePort(c.options.port));
    ItemPort(c, env);
  }

  /** Goes by the item's name, or leads to its endpoint. */
  predicate Resembles(x: ConnectionConfig, item: PreviewItem) {
    || EqIgnoreAsciiCase(x.name, item.alias)
    || (EqIgnoreAsciiCase(x.host, item.host) && x.port == item.port && EqIgnoreAsciiCase(x.username, item.username))
  }

  /** A duplicate is warned of and named exactly when some connection resembles the item, and the
      one named does. */
  lemma ItemDuplicate(c: Candidate, env: Environment)
    ensures var item := ItemFor(c, env);
            && (Duplicate in item.warnings <==> item.duplicateId.Some?)
            && (item.duplicateId.Some? <==> exists x :: x in env.connections && Resembles(x, item))
            && (item.duplicateId.Some? ==>
                  exists x :: x in env.connections && Resembles(x, item)
                    && item.duplicateId == Some(x.id) && item.duplicateName == Some(x.name))
  {
    var item := ItemFor(c, env);
    var duplicate := FindDuplicate(env.connections, item.alias, item.host, item.port, item.username);
    if duplicate.Some? {
      assert Resembles(duplicate.value, item);
    } else {
      assert forall x :: x in env.connections ==>
        !NamedLike(item.alias)(x) && !SameEndpoint(item.host, item.port, item.username)(x);
    }
  }

  /** A connection of the item's name is named as its duplicate rather than one that only shares its endpoint. */
  lemma NameBeforeEndpoint(c: Candidate, env: Environment, x: ConnectionConfig)
    requires x in env.connections && EqIgnoreAsciiCase(x.name, c.alias.value)
    ensures exists y :: y in env.connections && EqIgnoreAsciiCase(y.name, c.alias.value)
              && ItemFor(c, env).duplicateId == Some(y.id)
  {
    assert NamedLike(c.alias.value)(x);
  }

  /** The name, host, user and identity file of an item come from its alias and options: the host name or else
      the alias, the user or else the default one, without white space around them. */
  lemma ItemFields(c: Candidate, env: Environment)
    ensures var item := ItemFor(c, env);
            && item.sourceId == Decimal(c.alias.line) + ":" + c.alias.value && item.alias == c.alias.value
            && item.host == Trim(if c.options.hostName.Some? then c.options.hostName.value else c.alias.value)
            && item.username == (if c.options.user.Some? then Trim(c.options.user.value)
                                 else if env.defaultUsername.Some? then Trim(env.defaultUsername.value) else "")
            && (item.identityFile.Some? <==> c.options.identityFile.Some?)
  {
    assert ":" == [':'];
  }

  /** An identity file below the home directory is found there, any other is named as written, trimmed. */
  lemma ItemIdentityFile(c: Candidate, env: Environment, rest: string)
    requires c.options.identityFile.Some?
    ensures env.home.Some? && Trim(c.options.identityFile.value) in {"~/" + rest, "~\\" + rest} ==>
              ItemFor(c, env).identityFile == Some(env.home.value(rest))
    ensures env.home.None? || |Trim(c.options.identityFile.value)| < 2
              || Trim(c.options.identityFile.value)[..2] !in {"~/", "~\\"} ==>
              ItemFor(c, env).identityFile == Some(Trim(c.options.identityFile.value))
  {
    var text := Trim(c.options.identityFile.value);
    assert ("~/" + rest)[2..] == rest && ("~\\" + rest)[2..] == rest;
    if |text| >= 2 && text[0] == '~' {
      assert text[1] == '/' ==> text[..2] == "~/";
      assert text[1] == '\\' ==> text[..2] == "~\\";
    }
  }

  /** Which aliases are offered: those that are no pattern, each with its options. */
  lemma WhichAreShown(parsed: Parser.Config, env: Environment, item: PreviewItem)
    ensures item in Preview(parsed, env) <==>
              exists c :: c in Named(parsed) && item == ItemFor(c, env)
                && '*' !in c.alias.value && '?' !in c.alias.value && !("!" <= c.alias.value)
  {
    FilterKeeps(IsConcrete(), Named(parsed));
    var kept := Filter(IsConcrete(), Named(parsed));
    if item in Preview(parsed, env) {
      var i :| 0 <= i < |kept| && ItemFor(kept[i], env) == item;
      assert kept[i] in kept;
    }
    forall c | c in kept ensures ItemFor(c, env) in Preview(parsed, env) {
      var i :| 0 <= i < |kept| && kept[i] == c;
      assert Preview(parsed, env)[i] == ItemFor(c, env);
    }
  }

  /** Which items are stored: those selected, without an error, that are no duplicate or are to overwrite it. */
  lemma WhichAreStored(items: seq<PreviewItem>, ids: set<string>, strategy: Strategy, item: PreviewItem)
    ensures item in ToStore(items, ids, strategy) <==>
              && item in items && item.sourceId in ids && item.errors == []
              && (item.duplicateId == None || strategy == Overwrite)
  {
    FilterKeeps(Wants(ids), items);
    FilterKeeps(Takes(strategy), Wanted(items, ids));
  }

  /** What is stored for an item. A new connection has a fresh id, no group, color or references and uses a
      password; an overwritten one keeps all but its name, host, port, user and, where an identity file is
      given, notes. */
  lemma StoredFields(item: PreviewItem, connections: seq<ConnectionConfig>, uuid: string)
    requires Known(item, connections)
    ensures var config := ConfigFor(item, connections, uuid);
            && config.name == item.alias && config.host == item.host && config.port == item.port
            && config.username == item.username
            && (item.identityFile.Some? ==> config.notes == Some("OpenSSH IdentityFile: " + item.identityFile.value))
    ensures item.duplicateId == None ==>
              var config := ConfigFor(item, connections, uuid);
              && config.id == "connection-" + uuid && config.authMethod == Password
              && config.groupId == config.color == config.credentialRef == config.keyReferenceId == None
              && (item.identityFile.None? ==> config.notes == None)
    ensures item.duplicateId.Some? ==>
              exists existing :: existing in connections && existing.id == item.duplicateId.value
                && KeepsTheRest(existing, ConfigFor(item, connections, uuid))
                && (item.identityFile.None? ==> ConfigFor(item, connections, uuid).notes == existing.notes)
  {
    if item.duplicateId.Some? {
      var existing := ById(connections, item.duplicateId.value).value;
      assert KeepsTheRest(existing, ConfigFor(item, connections, uuid));
    }
  }

  predicate KeepsTheRest(existing: ConnectionConfig, config: ConnectionConfig) {
    && config.id == existing.id && config.groupId == existing.groupId && config.color == existing.color
    && config.authMethod == existing.authMethod && config.credentialRef == existing.credentialRef
    && config.keyReferenceId == existing.keyReferenceId
  }

  /** An item can be imported exactly when its host and user name are not blank and its port, if
      given, is a number from 1 to 65535. */
  lemma ImportableWhen(c: Candidate, env: Environment)
    ensures ItemFor(c, env).errors == [] <==>
              && !IsBlank(OrElse(c.options.hostName, c.alias.value))
              && !IsBlank(OrElse(Parser.Or(c.options.user, env.defaultUsername), []))
              && UsablePort(c.options.port)
    ensures ItemFor(c, env).errors == [] ==> Usable(ItemFor(c, env))
  {
    TrimIdempotent(OrElse(c.options.hostName, c.alias.value));
    TrimIdempotent(OrElse(Parser.Or(c.options.user, env.defaultUsername), []));
  }

  lemma FreshIdIsVisible(uuid: string)
    ensures !IsBlank("connection-" + uuid)
  {
    BlankIsAllWhitespace("connection-" + uuid);
    assert ("connection-" + uuid)[0] == 'c';
  }

  predicate AllValid(connections: seq<ConnectionConfig>) {
    forall c :: c in connections ==> IsValid(c)
  }

  lemma ConfigIsValid(item: PreviewItem, connections: seq<ConnectionConfig>, uuid: string)
    requires Usable(item) && Known(item, connections) && AllValid(connections)
    ensures IsValid(ConfigFor(item, connections, uuid)) <==> !IsBlank(item.alias)
  {
    FreshIdIsVisible(uuid);
  }

  /** Every item that is stored is usable. */
  lemma StoredIsUsable(parsed: Parser.Config, env: Environment, ids: set<string>, strategy: Strategy, item: PreviewItem)
    requires item in ToStore(Preview(parsed, env), ids, strategy)
    ensures Usable(item) && item.sourceId in ids
  {
    var items := Preview(parsed, env);
    FilterKeeps(Wants(ids), items);
    FilterKeeps(Takes(strategy), Wanted(items, ids));
    var c := ItemOrigin(parsed, env, item);
    ImportableWhen(c, env);
  }

  // The catalog after the import

  /** The listing the preview was made from shows live rows as they are stored. */
  ghost predicate ListedAsStored(t: Tables, connections: seq<ConnectionConfig>) {
    forall c :: c in connections ==> IsLive(t.connections, c.id) && t.connections[c.id].config == c
  }

  ghost predicate FreshIds(t: Tables, uuid: nat -> string) {
    forall k: nat :: "connection-" + uuid(k) !in t.connections
  }

  /** Either a live connection that stays in its group, or a new one outside all groups. */
  predicate Fits(c: Connections, config: ConnectionConfig) {
    if config.id in c then IsLive(c, config.id) && c[config.id].config.groupId == config.groupId
      else config.groupId.None?
  }

  predicate AllFit(t: Tables, configs: seq<ConnectionConfig>) {
    forall i :: 0 <= i < |configs| ==> Fits(t.connections, configs[i]) && ReferencesExist(t, configs[i])
  }

  lemma ProducedFits(t: Tables, item: PreviewItem, connections: seq<ConnectionConfig>, uuid: nat -> string, k: nat)
    requires WellFormed(t) && ListedAsStored(t, connections) && FreshIds(t, uuid) && Known(item, connections)
    ensures Fits(t.connections, ConfigFor(item, connections, uuid(k)))
              && ReferencesExist(t, ConfigFor(item, connections, uuid(k)))
  {
    if item.duplicateId.Some? {
      var existing := ById(connections, item.duplicateId.value).value;
      assert RowOk(t, existing.id);
    } else {
      assert "connection-" + uuid(k) !in t.connections;
    }
  }

  /** What the import leaves of a row that was live. */
  predicate KeptPlace(before: Row, after: Row) {
    && !after.deleted
    && after.config.groupId == before.config.groupId
    && after.sortOrder == before.sortOrder
    && after.favorite == before.favorite
  }

  predicate Mentioned(configs: seq<ConnectionConfig>, id: string) {
    exists i :: 0 <= i < |configs| && configs[i].id == id
  }

  ghost predicate SameRows(before: Connections, configs: seq<ConnectionConfig>, after: Connections) {
    && (forall id :: id in after <==> id in before || Mentioned(configs, id))
    && (forall id :: id in before && !Mentioned(configs, id) ==> after[id] == before[id])
  }

  ghost predicate SamePlaces(before: Connections, after: Connections) {
    forall id :: IsLive(before, id) ==> id in after && KeptPlace(before[id], after[id])
  }

  ghost predicate NewOutside(before: Connections, after: Connections) {
    forall id :: id in after && id !in before ==> LiveIn(after, id, None)
  }

  predicate Follows(before: Connections, after: Connections, id: string, earlier: string)
    requires id in after && earlier in before
  {
    before[earlier].sortOrder < after[id].sortOrder
  }

  ghost predicate NewLast(before: Connections, after: Connections) {
    forall id, earlier :: id in after && id !in before && LiveIn(before, earlier, None) ==>
      Follows(before, after, id, earlier)
  }

  predicate LastOfItsId(configs: seq<ConnectionConfig>, i: nat)
    requires i < |configs|
  {
    forall j :: i < j < |configs| ==> configs[j].id != configs[i].id
  }

  ghost predicate Stores(configs: seq<ConnectionConfig>, after: Connections) {
    forall i :: 0 <= i < |configs| && LastOfItsId(configs, i) ==>
      configs[i].id in after && after[configs[i].id].config == configs[i]
  }

  /** Every configuration is stored, the last one of an id if there are several. Live rows keep
      their places, rows the import does not mention do not change at all, new rows are live,
      outside all groups, and after everything that was there. */
  ghost predicate Merged(t: Tables, configs: seq<ConnectionConfig>, u: Tables) {
    && u.groups == t.groups && u.keyReferences == t.keyReferences
    && Stores(configs, u.connections)
    && SameRows(t.connections, configs, u.connections)
    && SamePlaces(t.connections, u.connections)
    && NewOutside(t.connections, u.connections)
    && NewLast(t.connections, u.connections)
  }

  lemma MentionedNow(configs: seq<ConnectionConfig>, id: string)
    requires configs != []
    ensures Mentioned(configs, id) <==> Mentioned(configs[..|configs| - 1], id) || configs[|configs| - 1].id == id
  {
    var before := configs[..|configs| - 1];
    if Mentioned(configs, id) && configs[|configs| - 1].id != id {
      var i :| 0 <= i < |configs| && configs[i].id == id;
      assert before[i].id == id;
    }
  }

  lemma OneMoreRow(c: Connections, configs: seq<ConnectionConfig>, u: Connections)
    requires configs != [] && SameRows(c, configs[..|configs| - 1], u)
    ensures SameRows(c, configs, Upserted(u, configs[|configs| - 1]))
  {
    var w := Upserted(u, configs[|configs| - 1]);
    forall id ensures id in w <==> id in c || Mentioned(configs, id) {
      MentionedNow(configs, id);
    }
    forall id | id in c && !Mentioned(configs, id) ensures w[id] == c[id] {
      MentionedNow(configs, id);
    }
  }

  lemma OneMoreConfigStored(configs: seq<ConnectionConfig>, u: Connections)
    requires configs != [] && Stores(configs[..|configs| - 1], u)
    ensures Stores(configs, Upserted(u, configs[|configs| - 1]))
  {
    var w, before := Upserted(u, configs[|configs| - 1]), configs[..|configs| - 1];
    forall i | 0 <= i < |configs| && LastOfItsId(configs, i)
      ensures configs[i].id in w && w[configs[i].id].config == configs[i] {
      if i < |before| {
        assert configs[|configs| - 1].id != configs[i].id;
        assert forall j :: i < j < |before| ==> before[j] == configs[j];
        assert LastOfItsId(before, i);
      }
    }
  }

  lemma PlacesStay(c: Connections, u: Connections, config: ConnectionConfig)
    requires SamePlaces(c, u) && Fits(c, config)
    ensures SamePlaces(c, Upserted(u, config))
  {
    var w := Upserted(u, config);
    forall id | IsLive(c, id) ensures id in w && KeptPlace(c[id], w[id]) {
      assert KeptPlace(c[id], u[id]);
    }
  }

  lemma NewStayOutside(c: Connections, u: Connections, config: ConnectionConfig)
    requires NewOutside(c, u) && Fits(c, config)
    ensures NewOutside(c, Upserted(u, config))
  {
    UpsertPlaces(u, config);
    var w := Upserted(u, config);
    forall id | id in w && id !in c ensures LiveIn(w, id, None) {
      assert id != config.id ==> LiveIn(u, id, None);
    }
  }

  lemma NewStayLast(c: Connections, u: Connections, config: ConnectionConfig)
    requires NewOutside(c, u) && NewLast(c, u) && SamePlaces(c, u) && Fits(c, config)
    ensures NewLast(c, Upserted(u, config))
  {
    UpsertPlaces(u, config);
    var w := Upserted(u, config);
    forall id, earlier | id in w && id !in c && LiveIn(c, earlier, None) ensures Follows(c, w, id, earlier) {
      if id in u {
        assert Follows(c, u, id, earlier) && LiveIn(u, id, None);
      } else {
        assert KeptPlace(c[earlier], u[earlier]);
        assert LiveIn(w, earlier, None);
      }
    }
  }

  lemma OneMoreMerged(t: Tables, configs: seq<ConnectionConfig>, u: Tables)
    requires configs != [] && AllFit(t, configs) && Merged(t, configs[..|configs| - 1], u)
    ensures RecordSaved(u, configs[|configs| - 1], NO_OVERRIDE).Ok?
    ensures Merged(t, configs, RecordSaved(u, configs[|configs| - 1], NO_OVERRIDE).value)
  {
    var config := configs[|configs| - 1];
    assert Fits(t.connections, config) && ReferencesExist(t, config);
    OneMoreRow(t.connections, configs, u.connections);
    OneMoreConfigStored(configs, u.connections);
    PlacesStay(t.connections, u.connections, config);
    NewStayOutside(t.connections, u.connections, config);
    NewStayLast(t.connections, u.connections, config);
  }

  lemma {:induction false} AllRecordsMerge(t: Tables, configs: seq<ConnectionConfig>)
    requires AllFit(t, configs)
    ensures AllRecordsSaved(t, configs).Ok? && Merged(t, configs, AllRecordsSaved(t, configs).value)
  {
    if configs != [] {
      AllRecordsMerge(t, configs[..|configs| - 1]);
      OneMoreMerged(t, configs, AllRecordsSaved(t, configs[..|configs| - 1]).value);
    }
  }

  predicate NoBlankAlias(items: seq<PreviewItem>) {
    forall i :: 0 <= i < |items| ==> !IsBlank(items[i].alias)
  }

  /** The stored configurations are all valid exactly when no alias among them is blank. */
  lemma BatchIsValid(parsed: Parser.Config, env: Environment, ids: set<string>, strategy: Strategy, uuid: nat -> string)
    requires AllValid(env.connections) && AllKnown(ToStore(Preview(parsed, env), ids, strategy), env.connections)
    ensures var stored := ToStore(Preview(parsed, env), ids, strategy);
            (forall i :: 0 <= i < |stored| ==> IsValid(ConfigsFor(stored, env.connections, uuid)[i])) <==>
              NoBlankAlias(stored)
  {
    var stored := ToStore(Preview(parsed, env), ids, strategy);
    forall i | 0 <= i < |stored|
      ensures IsValid(ConfigsFor(stored, env.connections, uuid)[i]) <==> !IsBlank(stored[i].alias)
    {
      assert stored[i] in stored;
      StoredIsUsable(parsed, env, ids, strategy, stored[i]);
      ConfigIsValid(stored[i], env.connections, uuid(i));
    }
  }

  /** The whole import. What `import_openssh_connections` hands to the repository is stored
      exactly when none of the aliases is blank; one blank alias refuses all of it. Once stored,
      every connection that was there keeps its group, place and star, what was not selected is
      untouched, and new connections follow the earlier ungrouped ones. */
  lemma ImportMerges(t: Tables, parsed: Parser.Config, env: Environment, ids: set<string>, strategy: Strategy,
                     uuid: nat -> string, batch: Batch)
    requires WellFormed(t) && ListedAsStored(t, env.connections) && FreshIds(t, uuid)
    requires BatchFits(batch, Preview(parsed, env), ids, strategy, env.connections, uuid)
    ensures Imported(t, batch.configs, true).Ok? <==> NoBlankAlias(ToStore(Preview(parsed, env), ids, strategy))
    ensures Imported(t, batch.configs, true).Err? ==>
              Imported(t, batch.configs, true).error == InvalidConnectionConfiguration
    ensures Imported(t, batch.configs, true).Ok? ==> Merged(t, batch.configs, Imported(t, batch.configs, true).value)
  {
    var stored := ToStore(Preview(parsed, env), ids, strategy);
    forall c | c in env.connections ensures IsValid(c) {
      assert RowOk(t, c.id);
    }
    BatchIsValid(parsed, env, ids, strategy, uuid);
    forall i | 0 <= i < |batch.configs|
      ensures Fits(t.connections, batch.configs[i]) && ReferencesExist(t, batch.configs[i]) {
      ProducedFits(t, stored[i], env.connections, uuid, i);
    }
    AllRecordsMerge(t, batch.configs);
  }

  // One blank alias refuses the whole import

  /** `Host "first" "second"`, with a host name and a user. */
  function PairConfig(first: string, second: string, host: string, user: string): Printer.PlainConfig {
    Printer.PlainConfig(Parser.NO_OPTIONS,
      [Printer.PlainStanza([first, second], Parser.Options(Some(host), None, Some(user), None))])
  }

  const NO_CONNECTIONS := Tables(map[], map[], {}, map[])

  const NOBODY := Environment([], None, None)

  predicate IsPlain(text: string) {
    text != [] && '\n' !in text && '"' !in text && !IsWhitespace(text[0]) && !IsWhitespace(text[|text| - 1])
  }

  lemma PlainPrints(field: Parser.Field, value: string)
    requires IsPlain(value)
    ensures Printer.PrintableValue(Some(value))
  {
    Printer.ValueRoundTrip(field, value, 1);
  }

  lemma PairPrints(first: string, second: string, host: string, user: string)
    requires first != [] && second != [] && '\n' !in first && '\n' !in second
    requires Printer.PrintableValue(Some(host)) && Printer.PrintableValue(Some(user))
    ensures Printer.Printable(PairConfig(first, second, host, user))
  {
    var s := PairConfig(first, second, host, user).stanzas[0];
    assert forall i :: 0 <= i < |s.aliases| ==> s.aliases[i] == first || s.aliases[i] == second;
    assert Printer.PrintableOptions(s.options);
  }

  /** Its parse holds the two aliases, whatever lines they are on. */
  lemma PairParses(c: Printer.PlainConfig, parsed: Parser.Config) returns (a: Candidate, b: Candidate)
    requires |c.stanzas| == 1 && |c.stanzas[0].aliases| == 2
    requires parsed.defaults == Parser.NO_OPTIONS && Printer.Erased(parsed.stanzas) == c.stanzas
    ensures Named(parsed) == [a, b]
    ensures a.alias.value == c.stanzas[0].aliases[0] && b.alias.value == c.stanzas[0].aliases[1]
    ensures a.options == b.options == c.stanzas[0].options
  {
    var stanza := parsed.stanzas[0];
    assert Printer.ErasedStanza(stanza) == Printer.Erased(parsed.stanzas)[0] == c.stanzas[0];
    assert stanza.aliases[0].value == c.stanzas[0].aliases[0] && stanza.aliases[1].value == c.stanzas[0].aliases[1];
    var found := StanzaCandidates(stanza, parsed.defaults);
    a, b := found[0], found[1];
    assert Parser.Filled(stanza.options, Parser.NO_OPTIONS) == stanza.options;
    assert Candidates([], parsed.defaults) == [];
    assert parsed.stanzas[..0] == [];
  }

  lemma ImportableCandidate(c: Candidate)
    requires c.options.hostName.Some? && c.options.user.Some? && c.options.port.None?
    requires IsPlain(c.options.hostName.value) && IsPlain(c.options.user.value)
    ensures ItemFor(c, NOBODY).errors == [] && ItemFor(c, NOBODY).duplicateId == None
  {
    TrimmedAlready(c.options.hostName.value);
    TrimmedAlready(c.options.user.value);
  }

  lemma FilterTwo<T>(keep: T -> bool, x: T, y: T)
    ensures Filter(keep, [x, y]) == (if keep(x) then [x] else []) + (if keep(y) then [y] else [])
  {
    assert [x, y][1..] == [y];
    assert Filter(keep, [y]) == if keep(y) then [y] else [];
  }

  lemma StoredOfTwo(x: PreviewItem, y: PreviewItem, ids: set<string>, strategy: Strategy)
    requires Takes(strategy)(x) && Takes(strategy)(y) && x.sourceId != y.sourceId
    ensures ids == {x.sourceId, y.sourceId} ==> ToStore([x, y], ids, strategy) == [x, y]
    ensures ids == {y.sourceId} ==> ToStore([x, y], ids, strategy) == [y]
  {
    FilterTwo(Wants(ids), x, y);
    assert [] + [y] == [y];
    FilterTwo(Takes(strategy), x, y);
    assert Filter(Takes(strategy), [y]) == [y];
  }

  /** Of two items only the second can be stored. */
  ghost predicate OnlySecond(items: seq<PreviewItem>, ids: set<string>, batch: Batch) {
    && |items| == 2 && items[0].errors == [] && items[1].errors == [] && items[0].sourceId != items[1].sourceId
    && (ids == {items[0].sourceId, items[1].sourceId} ==>
      Imported(NO_CONNECTIONS, batch.configs, true) == Err(InvalidConnectionConfiguration))
    && (ids == {items[1].sourceId} ==> |batch.configs| == 1 && Imported(NO_CONNECTIONS, batch.configs, true).Ok?)
  }

  lemma BlankOfTwo(parsed: Parser.Config, a: Candidate, b: Candidate, strategy: Strategy, uuid: nat -> string,
      ids: set<string>, batch: Batch)
    requires Named(parsed) == [a, b] && a.options == b.options
    requires IsBlank(a.alias.value) && !IsBlank(b.alias.value) && !IsHostPattern(a.alias.value)
              && !IsHostPattern(b.alias.value)
    requires a.options.hostName.Some? && a.options.user.Some? && a.options.port.None?
    requires IsPlain(a.options.hostName.value) && IsPlain(a.options.user.value)
    requires BatchFits(batch, Preview(parsed, NOBODY), ids, strategy, [], uuid)
    ensures OnlySecond(Preview(parsed, NOBODY), ids, batch)
  {
    ImportableCandidate(a);
    ImportableCandidate(b);
    FilterTwo(IsConcrete(), a, b);
    var x, y := ItemFor(a, NOBODY), ItemFor(b, NOBODY);
    assert Preview(parsed, NOBODY) == [x, y];
    if x.sourceId == y.sourceId {
      SourceIdInjective(a.alias.line, a.alias.value, b.alias.line, b.alias.value);
    }
    ImportMerges(NO_CONNECTIONS, parsed, NOBODY, ids, strategy, uuid, batch);
    StoredOfTwo(x, y, ids, strategy);
  }

  /** Take a stanza with a blank alias, in quotation marks, and a visible one that is no pattern.
      Both are offered without an error. Storing the two is refused; the visible one alone would be stored. */
  lemma BlankAliasRefusesAll(blank: string, alias: string, host: string, user: string,
                             strategy: Strategy, uuid: nat -> string, ids: set<string>, batch: Batch)
    requires blank != [] && IsBlank(blank) && '\n' !in blank && !IsHostPattern(blank)
    requires IsPlain(alias) && !IsHostPattern(alias) && IsPlain(host) && IsPlain(user)
    ensures var items := Preview(Parser.Parse(Printer.Print(PairConfig(blank, alias, host, user))), NOBODY);
            BatchFits(batch, items, ids, strategy, [], uuid) ==> OnlySecond(items, ids, batch)
  {
    var c := PairConfig(blank, alias, host, user);
    PlainPrints(Parser.HostName, host);
    PlainPrints(Parser.User, user);
    PairPrints(blank, alias, host, user);
    Printer.ConfigRoundTrip(c);
    var parsed := Parser.Parse(Printer.Print(c));
    var a, b := PairParses(c, parsed);
    TrimmedAlready(alias);
    if BatchFits(batch, Preview(parsed, NOBODY), ids, strategy, [], uuid) {
      BlankOfTwo(parsed, a, b, strategy, uuid, ids, batch);
    }
  }
}
