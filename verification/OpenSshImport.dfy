/** From a parsed OpenSSH configuration to the preview and the connections to store
    (apps/desktop/src-tauri/src/openssh_import.rs, `build_preview`, `import_openssh_connections`). */
module OpenSshImport {
  import opened Wrappers
  import opened Text
  import opened Sequences
  import opened Contracts
  import opened OpenSshScan
  import opened OpenSshParse
  import opened Sorting

  // Ports

  const MAX_PORT: nat := 65535

  predicate AllDigits(s: string) {
    forall i :: 0 <= i < |s| ==> IsDigit(s[i])
  }

  function Numeral(s: string): nat
    requires AllDigits(s)
  {
    if s == [] then 0 else 10 * Numeral(s[..|s| - 1]) + (s[|s| - 1] as int - '0' as int)
  }

  /** `str::parse::<u16>`: an optional plus sign, digits, no overflow. */
  function ParseU16(value: string): Option<nat> {
    var digits := if |value| > 1 && value[0] == '+' then value[1..] else value;
    if digits == [] || !AllDigits(digits) || Numeral(digits) > MAX_PORT then None else Some(Numeral(digits))
  }

  /** The port, and whether what was written is no port. */
  function ParsePort(value: Option<string>): (nat, bool) {
    match value
    case None => (DEFAULT_CONNECTION_PORT, false)
    case Some(text) =>
      match ParseU16(text)
      case None => (DEFAULT_CONNECTION_PORT, true)
      case Some(port) => if port == 0 then (DEFAULT_CONNECTION_PORT, true) else (port, false)
  }

  lemma {:induction false} NumeralOfDecimal(n: nat)
    ensures AllDigits(Decimal(n)) && Numeral(Decimal(n)) == n
  {
    var s := Decimal(n);
    assert s[|s| - 1] == ('0' as int + n % 10) as char;
    if n >= 10 {
      NumeralOfDecimal(n / 10);
      assert s[..|s| - 1] == Decimal(n / 10);
    } else {
      assert s[..|s| - 1] == [];
    }
  }

  /** Every port from 1 to 65535 is read back from its numeral; every other number is reported. */
  lemma PortRoundTrip(n: nat)
    ensures ParsePort(Some(Decimal(n))) == if 1 <= n <= MAX_PORT then (n, false) else (DEFAULT_CONNECTION_PORT, true)
  {
    NumeralOfDecimal(n);
    assert !IsDigit('+');
  }

  predicate Zeros(text: string) {
    forall i :: 0 <= i < |text| ==> text[i] == '0'
  }

  /** A number as it may be written: an optional plus sign, any zeros, its numeral. */
  ghost predicate Denotes(text: string, n: nat) {
    exists plus, zeros :: plus in {"", "+"} && Zeros(zeros) && text == plus + (zeros + Decimal(n))
  }

  lemma {:induction false} DigitsDenote(s: string) returns (zeros: string)
    requires s != [] && AllDigits(s)
    ensures Zeros(zeros) && s == zeros + Decimal(Numeral(s))
  {
    var front, last := s[..|s| - 1], s[|s| - 1];
    var d := last as int - '0' as int;
    if front == [] {
      zeros := [];
      assert Numeral(front) == 0 && Decimal(d) == [last];
    } else {
      var before := DigitsDenote(front);
      var m := Numeral(front);
      if m == 0 {
        zeros := before + ['0'];
        assert front == before + ['0'] && Decimal(d) == [last];
      } else {
        zeros := before;
        assert Numeral(s) / 10 == m && Numeral(s) % 10 == d;
        assert Decimal(Numeral(s)) == Decimal(m) + [last];
      }
    }
  }

  lemma {:induction false} NumeralWithZeros(zeros: string, s: string)
    requires Zeros(zeros) && AllDigits(s)
    ensures AllDigits(zeros + s) && Numeral(zeros + s) == Numeral(s)
    decreases |s|, |zeros|
  {
    var all := zeros + s;
    if s != [] {
      assert all[..|all| - 1] == zeros + s[..|s| - 1];
      NumeralWithZeros(zeros, s[..|s| - 1]);
    } else if zeros != [] {
      assert all[..|all| - 1] == zeros[..|zeros| - 1] + s;
      NumeralWithZeros(zeros[..|zeros| - 1], s);
    }
  }

  /** A text is read as a port number exactly if it denotes one up to 65535. */
  lemma PortsRead(text: string, n: nat)
    ensures ParseU16(text) == Some(n) <==> n <= 65535 && Denotes(text, n)
  {
    if ParseU16(text) == Some(n) {
      var plus := if |text| > 1 && text[0] == '+' then "+" else "";
      var digits := text[|plus|..];
      var zeros := DigitsDenote(digits);
      assert text == plus + (zeros + Decimal(n));
    }
    if n <= 65535 && Denotes(text, n) {
      var plus, zeros :| plus in {"", "+"} && Zeros(zeros) && text == plus + (zeros + Decimal(n));
      DenotedIsRead(plus, zeros, n);
    }
  }

  lemma DenotedIsRead(plus: string, zeros: string, n: nat)
    requires plus in {"", "+"} && Zeros(zeros) && n <= 65535
    ensures ParseU16(plus + (zeros + Decimal(n))) == Some(n)
  {
    var digits := zeros + Decimal(n);
    NumeralOfDecimal(n);
    NumeralWithZeros(zeros, Decimal(n));
    assert (plus + digits)[|plus|..] == digits;
    assert IsDigit(digits[0]) && !IsDigit('+');
  }

  // Candidates

  predicate IsHostPattern(alias: string) {
    (alias != [] && alias[0] == '!') || '*' in alias || '?' in alias
  }

  /** An alias with the options that hold for it: its stanza's, then those given before any Host. */
  datatype Candidate = Candidate(alias: Alias, options: Options)

  function StanzaCandidates(stanza: Stanza, defaults: Options): seq<Candidate> {
    seq(|stanza.aliases|, i requires 0 <= i < |stanza.aliases| => Candidate(stanza.aliases[i],
      Filled(stanza.options, defaults)))
  }

  function Candidates(stanzas: seq<Stanza>, defaults: Options): seq<Candidate> {
    if stanzas == [] then []
    else Candidates(stanzas[..|stanzas| - 1], defaults) + StanzaCandidates(stanzas[|stanzas| - 1], defaults)
  }

  function IsConcrete(): Candidate -> bool {
    (c: Candidate) => !IsHostPattern(c.alias.value)
  }

  // Items

  datatype ItemError = NoHost | NoUsername | BadPort

  datatype ItemWarning = Duplicate | IdentityFileRequiresKeySetup

  datatype PreviewItem = PreviewItem(
    sourceId: string,
    alias: string,
    host: string,
    port: nat,
    username: string,
    identityFile: Option<string>,
    duplicateId: Option<string>,
    duplicateName: Option<string>,
    errors: seq<ItemError>,
    warnings: seq<ItemWarning>)

  /** What the preview looks at besides the file. `home` joins a path to the home directory. */
  datatype Environment = Environment(
    connections: seq<ConnectionConfig>,
    defaultUsername: Option<string>,
    home: Option<string -> string>)

  function SourceId(line: nat, alias: string): string {
    Decimal(line) + [':'] + alias
  }

  /** Equal source ids name the same alias on the same line, whatever the alias contains. */
  lemma SourceIdInjective(line: nat, alias: string, line': nat, alias': string)
    requires SourceId(line, alias) == SourceId(line', alias')
    ensures line == line' && alias == alias'
  {
    NumeralEnds(Decimal(line), ':', alias, Decimal(line'), alias');
    DecimalInjective(line, line');
  }

  function ExpandHome(value: string, home: Option<string -> string>): string {
    var trimmed := Trim(value);
    if home.Some? && |trimmed| >= 2 && trimmed[0] == '~' && (trimmed[1] == '/' || trimmed[1] == '\\')
    then home.value(trimmed[2..])
    else trimmed
  }

  ghost predicate IsFirst(connections: seq<ConnectionConfig>, matches: ConnectionConfig -> bool, c: ConnectionConfig) {
    exists i :: 0 <= i < |connections| && connections[i] == c && matches(c) && forall j :: 0 <= j < i ==>
      !matches(connections[j])
  }

  lemma FirstOfRest(connections: seq<ConnectionConfig>, matches: ConnectionConfig -> bool, c: ConnectionConfig)
    requires connections != [] && !matches(connections[0]) && IsFirst(connections[1..], matches, c)
    ensures IsFirst(connections, matches, c)
  {
    var rest := connections[1..];
    var i :| 0 <= i < |rest| && rest[i] == c && matches(c) && forall j :: 0 <= j < i ==> !matches(rest[j]);
    assert connections[i + 1] == c;
    forall j | 0 <= j < i + 1 ensures !matches(connections[j]) {
      assert j > 0 ==> connections[j] == rest[j - 1];
    }
  }

  /** `Iterator::find` */
  function First(connections: seq<ConnectionConfig>, matches: ConnectionConfig -> bool): (r: Option<ConnectionConfig>)
    ensures r.None? <==> forall c :: c in connections ==> !matches(c)
    ensures r.Some? ==> IsFirst(connections, matches, r.value)
  {
    if connections == [] then None
    else if matches(connections[0]) then Some(connections[0])
    else
      var rest := First(connections[1..], matches);
      assert forall c :: c in connections ==> c == connections[0] || c in connections[1..];
      assert rest.Some? ==> IsFirst(connections, matches, rest.value) by {
        if rest.Some? {
          FirstOfRest(connections, matches, rest.value);
        }
      }
      rest
  }

  function NamedLike(alias: string): ConnectionConfig -> bool {
    (c: ConnectionConfig) => EqIgnoreAsciiCase(c.name, alias)
  }

  function SameEndpoint(host: string, port: nat, username: string): ConnectionConfig -> bool {
    (c: ConnectionConfig) => EqIgnoreAsciiCase(c.host, host) && c.port == port
      && EqIgnoreAsciiCase(c.username, username)
  }

  /** The first connection of that name, or else the first to that endpoint. */
  function FindDuplicate(connections: seq<ConnectionConfig>, alias: string, host: string, port: nat, username: string)
    : (r: Option<ConnectionConfig>)
    ensures r.None? <==> forall c :: c in connections ==> !NamedLike(alias)(c) && !SameEndpoint(host, port, username)(c)
    ensures r.Some? ==> r.value in connections
    ensures r.Some? ==>
              IsFirst(connections,
                      if exists c :: c in connections && NamedLike(alias)(c) then NamedLike(alias)
                        else SameEndpoint(host, port, username),
                      r.value)
  {
    var named := First(connections, NamedLike(alias));
    if named.Some? then named else First(connections, SameEndpoint(host, port, username))
  }

  function OrElse(value: Option<string>, other: string): string {
    if value.Some? then value.value else other
  }

  function ItemFor(c: Candidate, env: Environment): PreviewItem {
    var host := Trim(OrElse(c.options.hostName, c.alias.value));
    var username := Trim(OrElse(Or(c.options.user, env.defaultUsername), []));
    var (port, invalidPort) := ParsePort(c.options.port);
    var identityFile := if c.options.identityFile.Some? then Some(ExpandHome(c.options.identityFile.value, env.home))
      else None;
    var duplicate := FindDuplicate(env.connections, c.alias.value, host, port, username);
    PreviewItem(
      SourceId(c.alias.line, c.alias.value), c.alias.value, host, port, username, identityFile,
      if duplicate.Some? then Some(duplicate.value.id) else None,
      if duplicate.Some? then Some(duplicate.value.name) else None,
      (if host == [] then [NoHost] else []) + (if username == [] then [NoUsername] else []) + (if invalidPort
        then [BadPort] else []),
      (if duplicate.Some? then [Duplicate] else []) + (if identityFile.Some? then [IdentityFileRequiresKeySetup]
        else []))
  }

  function ItemsFor(cs: seq<Candidate>, env: Environment): seq<PreviewItem> {
    seq(|cs|, i requires 0 <= i < |cs| => ItemFor(cs[i], env))
  }

  function Named(parsed: Config): seq<Candidate> {
    Candidates(parsed.stanzas, parsed.defaults)
  }

  function Preview(parsed: Config, env: Environment): seq<PreviewItem> {
    ItemsFor(Filter(IsConcrete(), Named(parsed)), env)
  }

  lemma {:induction false} FilterConcat<T>(keep: T -> bool, a: seq<T>, b: seq<T>)
    ensures Filter(keep, a + b) == Filter(keep, a) + Filter(keep, b)
  {
    if a == [] {
      assert a + b == b;
    } else {
      assert (a + b)[1..] == a[1..] + b;
      FilterConcat(keep, a[1..], b);
      Associates(if keep(a[0]) then [a[0]] else [], Filter(keep, a[1..]), Filter(keep, b));
    }
  }

  lemma OneMoreKept<T>(keep: T -> bool, xs: seq<T>, x: T)
    ensures Filter(keep, xs + [x]) == Filter(keep, xs) + if keep(x) then [x] else []
  {
    FilterConcat(keep, xs, [x]);
    assert Filter(keep, [x]) == if keep(x) then [x] else [];
  }

  lemma OneMoreItem(cs: seq<Candidate>, c: Candidate, env: Environment)
    ensures ItemsFor(cs + [c], env) == ItemsFor(cs, env) + [ItemFor(c, env)]
  {
  }

  /** The inner loop of `build_preview`: the aliases of one stanza. */
  method PreviewStanza(stanza: Stanza, defaults: Options, env: Environment)
      returns (items: seq<PreviewItem>, ignored: nat)
    ensures items == ItemsFor(Filter(IsConcrete(), StanzaCandidates(stanza, defaults)), env)
    ensures |items| + ignored == |stanza.aliases|
  {
    items, ignored := [], 0;
    ghost var all := StanzaCandidates(stanza, defaults);
    for j := 0 to |stanza.aliases|
      invariant items == ItemsFor(Filter(IsConcrete(), all[..j]), env) && |items| + ignored == j
    {
      var alias := stanza.aliases[j];
      assert all[..j + 1] == all[..j] + [all[j]];
      OneMoreKept(IsConcrete(), all[..j], all[j]);
      OneMoreItem(Filter(IsConcrete(), all[..j]), all[j], env);
      if IsHostPattern(alias.value) {
        ignored := ignored + 1;
      } else {
        items := items + [ItemFor(Candidate(alias, Filled(stanza.options, defaults)), env)];
      }
    }
    assert all[..|stanza.aliases|] == all;
  }

  lemma {:induction false} ItemsConcat(a: seq<Candidate>, b: seq<Candidate>, env: Environment)
    ensures ItemsFor(a + b, env) == ItemsFor(a, env) + ItemsFor(b, env)
    decreases |b|
  {
    if b == [] {
      assert a + b == a;
    } else {
      var front, last := b[..|b| - 1], b[|b| - 1];
      assert b == front + [last];
      Associates(a, front, [last]);
      ItemsConcat(a, front, env);
      OneMoreItem(a + front, last, env);
      OneMoreItem(front, last, env);
      Associates(ItemsFor(a, env), ItemsFor(front, env), [ItemFor(last, env)]);
    }
  }

  /** Every alias is either shown or counted as a pattern, in the order of the file. */
  method BuildPreview(source: string, env: Environment) returns (items: seq<PreviewItem>, ignoredHostPatterns: nat)
    ensures items == Preview(Parse(source), env)
    ensures |items| + ignoredHostPatterns == |Named(Parse(source))|
  {
    var parsed := ParseConfig(source);
    items, ignoredHostPatterns := [], 0;
    for i := 0 to |parsed.stanzas|
      invariant items == ItemsFor(Filter(IsConcrete(), Candidates(parsed.stanzas[..i], parsed.defaults)), env)
      invariant |items| + ignoredHostPatterns == |Candidates(parsed.stanzas[..i], parsed.defaults)|
    {
      ghost var seen := Candidates(parsed.stanzas[..i], parsed.defaults);
      ghost var added := StanzaCandidates(parsed.stanzas[i], parsed.defaults);
      var more, ignored := PreviewStanza(parsed.stanzas[i], parsed.defaults, env);
      assert parsed.stanzas[..i + 1][..i] == parsed.stanzas[..i];
      FilterConcat(IsConcrete(), seen, added);
      ItemsConcat(Filter(IsConcrete(), seen), Filter(IsConcrete(), added), env);
      items := items + more;
      ignoredHostPatterns := ignoredHostPatterns + ignored;
    }
    assert parsed.stanzas[..|parsed.stanzas|] == parsed.stanzas;
  }

  // Source ids

  predicate Before(s: Stanza, t: Stanza) {
    forall i, j :: 0 <= i < |s.aliases| && 0 <= j < |t.aliases| ==> s.aliases[i].line < t.aliases[j].line
  }

  /** The aliases of a later stanza stand on later lines. */
  predicate Descending(stanzas: seq<Stanza>) {
    forall k, l :: 0 <= k < l < |stanzas| ==> Before(stanzas[k], stanzas[l])
  }

  predicate From(stanzas: seq<Stanza>, first: nat) {
    forall k :: 0 <= k < |stanzas| ==> forall i :: 0 <= i < |stanzas[k].aliases| ==> first <= stanzas[k].aliases[i].line
  }

  predicate NumberedFrom(ds: seq<Line>, first: nat) {
    forall i :: 0 <= i < |ds| ==> ds[i].HostLine? ==> ds[i].line == first + i
  }

  lemma NumberedRest(ds: seq<Line>, first: nat, k: nat)
    requires k <= |ds| && NumberedFrom(ds, first)
    ensures NumberedFrom(ds[k..], first + k)
  {
    forall i | 0 <= i < |ds[k..]| && ds[k..][i].HostLine? ensures ds[k..][i].line == first + k + i {
      assert ds[k..][i] == ds[k + i];
    }
  }

  lemma {:induction false} StanzasDescend(ds: seq<Line>, first: nat)
    requires (ds == [] || ds[0].HostLine?) && NumberedFrom(ds, first)
    ensures Descending(StanzasOf(ds)) && From(StanzasOf(ds), first)
    decreases |ds|
  {
    if ds != [] {
      var k := BlockLength(ds[1..]);
      var rest := ds[1 + k..];
      assert rest != [] ==> rest[0] == ds[1..][k];
      NumberedRest(ds, first, 1 + k);
      StanzasDescend(rest, first + 1 + k);
      assert ds[0].line == first;
      HeadDescends(Stanza(AliasesOf(ds[0].line, ds[0].words), FirstValues(ds[1..1 + k])), StanzasOf(rest), first,
        first + 1 + k);
    }
  }

  lemma HeadDescends(head: Stanza, rest: seq<Stanza>, first: nat, second: nat)
    requires first < second && Descending(rest) && From(rest, second)
    requires forall i :: 0 <= i < |head.aliases| ==> head.aliases[i].line == first
    ensures Descending([head] + rest) && From([head] + rest, first)
  {
    var all := [head] + rest;
    forall k, l | 0 <= k < l < |all| ensures Before(all[k], all[l]) {
      if k > 0 {
        assert Before(rest[k - 1], rest[l - 1]);
      } else {
        assert all[l] == rest[l - 1];
      }
    }
  }

  lemma ParsedDescends(source: string)
    ensures Descending(Parse(source).stanzas)
  {
    var ds := ReadLines(ReadLine, Lines(source), 1);
    ParserRefinesMeaning(source);
    var k := BlockLength(ds);
    NumberedLines(Lines(source), 1);
    NumberedRest(ds, 1, k);
    StanzasDescend(ds[k..], 1 + k);
  }

  lemma NumberedLines(texts: seq<string>, first: nat)
    ensures NumberedFrom(ReadLines(ReadLine, texts, first), first)
  {
  }

  /** The alias is a word of this Host line and numbered with it. */
  predicate Names(line: Line, alias: Alias) {
    line.HostLine? && line.line == alias.line && alias.value in line.words
  }

  lemma {:induction false} NamedOnce(ds: seq<Line>, s: Stanza, alias: Alias) returns (line: Line)
    requires (ds == [] || ds[0].HostLine?) && s in StanzasOf(ds) && alias in s.aliases
    ensures line in ds && Names(line, alias)
    decreases |ds|
  {
    var rest := ds[1 + BlockLength(ds[1..])..];
    assert rest != [] ==> rest[0] == ds[1..][BlockLength(ds[1..])];
    if s in StanzasOf(rest) {
      line := NamedOnce(rest, s, alias);
    } else {
      line := ds[0];
    }
  }

  /** Every alias found in a text is a word of the Host line that stands at its line number. */
  lemma AliasStandsOnItsLine(source: string, c: Candidate)
    requires c in Named(Parse(source))
    ensures 1 <= c.alias.line <= |Lines(source)|
    ensures var line := ReadLine(Lines(source)[c.alias.line - 1], c.alias.line);
            line.HostLine? && c.alias.value in line.words
  {
    var ds := ReadLines(ReadLine, Lines(source), 1);
    ParserRefinesMeaning(source);
    NumberedLines(Lines(source), 1);
    var s := StanzaBeforeDefaults(Parse(source), c, Port);
    var line := NamedOnce(ds[BlockLength(ds)..], s, c.alias);
    ReadAsHostLine(ReadLine, Lines(source), line, c.alias);
  }

  lemma ReadAsHostLine(read: (string, nat) -> Line, texts: seq<string>, line: Line, alias: Alias)
    requires NumberedFrom(ReadLines(read, texts, 1), 1)
    requires line in ReadLines(read, texts, 1) && Names(line, alias)
    ensures 1 <= alias.line <= |texts|
    ensures Names(read(texts[alias.line - 1], alias.line), alias)
  {
    var ds := ReadLines(read, texts, 1);
    var i :| 0 <= i < |ds| && ds[i] == line;
    assert ds[i].line == 1 + i && ds[i] == read(texts[i], 1 + i);
  }

  lemma {:induction false} CandidateOrigin(stanzas: seq<Stanza>, defaults: Options, c: Candidate)
      returns (k: nat, i: nat)
    requires c in Candidates(stanzas, defaults)
    ensures k < |stanzas| && i < |stanzas[k].aliases|
              && c == Candidate(stanzas[k].aliases[i], Filled(stanzas[k].options, defaults))
  {
    var last := |stanzas| - 1;
    if c in Candidates(stanzas[..last], defaults) {
      k, i := CandidateOrigin(stanzas[..last], defaults, c);
    } else {
      k := last;
      i :| 0 <= i < |StanzaCandidates(stanzas[last], defaults)| && StanzaCandidates(stanzas[last], defaults)[i] == c;
    }
  }

  lemma LaterLine(stanzas: seq<Stanza>, k: nat, i: nat, l: nat, j: nat)
    requires Descending(stanzas) && k < |stanzas| && l < |stanzas|
    requires i < |stanzas[k].aliases| && j < |stanzas[l].aliases|
    ensures k < l ==> stanzas[k].aliases[i].line < stanzas[l].aliases[j].line
  {
    if k < l {
      assert Before(stanzas[k], stanzas[l]);
    }
  }

  lemma LineDecides(stanzas: seq<Stanza>, defaults: Options, c: Candidate, d: Candidate)
    requires Descending(stanzas) && c in Candidates(stanzas, defaults) && d in Candidates(stanzas, defaults)
    requires c.alias == d.alias
    ensures c == d
  {
    var k, i := CandidateOrigin(stanzas, defaults, c);
    var l, j := CandidateOrigin(stanzas, defaults, d);
    LaterLine(stanzas, k, i, l, j);
    LaterLine(stanzas, l, j, k, i);
  }

  /** The options an alias is imported with are its stanza's, and for a field the stanza does not
      give, those before any Host. */
  lemma StanzaBeforeDefaults(parsed: Config, c: Candidate, field: Field) returns (s: Stanza)
    requires c in Named(parsed)
    ensures s in parsed.stanzas && c.alias in s.aliases
    ensures Get(c.options, field) == Or(Get(s.options, field), Get(parsed.defaults, field))
  {
    var k, i := CandidateOrigin(parsed.stanzas, parsed.defaults, c);
    s := parsed.stanzas[k];
  }

  lemma ItemOrigin(parsed: Config, env: Environment, item: PreviewItem) returns (c: Candidate)
    requires item in Preview(parsed, env)
    ensures c in Named(parsed) && !IsHostPattern(c.alias.value) && item == ItemFor(c, env)
  {
    var kept := Filter(IsConcrete(), Named(parsed));
    var i :| 0 <= i < |Preview(parsed, env)| && Preview(parsed, env)[i] == item;
    c := kept[i];
    FilterKeeps(IsConcrete(), Named(parsed));
    assert c in kept;
  }

  ghost predicate IdsDecide(items: seq<PreviewItem>) {
    forall a, b :: a in items && b in items && a.sourceId == b.sourceId ==> a == b
  }

  lemma SameCandidate(parsed: Config, env: Environment, a: PreviewItem, b: PreviewItem)
    requires Descending(parsed.stanzas) && a in Preview(parsed, env) && b in Preview(parsed, env)
    requires a.sourceId == b.sourceId
    ensures a == b
  {
    var c := ItemOrigin(parsed, env, a);
    var d := ItemOrigin(parsed, env, b);
    SourceIdInjective(c.alias.line, c.alias.value, d.alias.line, d.alias.value);
    LineDecides(parsed.stanzas, parsed.defaults, c, d);
  }

  /** A source id picks out what it means: two items of a preview with the same id are the same
      in every field, so selecting by id cannot confuse two stanzas. */
  lemma SameIdSameItem(source: string, env: Environment)
    ensures IdsDecide(Preview(Parse(source), env))
  {
    ParsedDescends(source);
    var parsed := Parse(source);
    forall a, b | a in Preview(parsed, env) && b in Preview(parsed, env) && a.sourceId == b.sourceId ensures a == b {
      SameCandidate(parsed, env, a, b);
    }
  }

  // The import

  datatype Strategy = Skip | Overwrite

  function Wants(ids: set<string>): PreviewItem -> bool {
    (item: PreviewItem) => item.sourceId in ids
  }

  /** Importable, and not a duplicate the user wants left alone. */
  function Takes(strategy: Strategy): PreviewItem -> bool {
    (item: PreviewItem) => item.errors == [] && (item.duplicateId.None? || strategy == Overwrite)
  }

  function Replaces(): PreviewItem -> bool {
    (item: PreviewItem) => item.duplicateId.Some?
  }

  function Wanted(items: seq<PreviewItem>, ids: set<string>): seq<PreviewItem> {
    Filter(Wants(ids), items)
  }

  function ToStore(items: seq<PreviewItem>, ids: set<string>, strategy: Strategy): seq<PreviewItem> {
    Filter(Takes(strategy), Wanted(items, ids))
  }

  /** The map from ids keeps the last connection of an id. */
  function ById(connections: seq<ConnectionConfig>, id: string): (r: Option<ConnectionConfig>)
    ensures r.None? <==> forall c :: c in connections ==> c.id != id
    ensures r.Some? ==> r.value in connections && r.value.id == id
  {
    if connections == [] then None
    else if connections[|connections| - 1].id == id then Some(connections[|connections| - 1])
    else
      assert forall c :: c in connections ==>
        c in connections[..|connections| - 1] || c == connections[|connections| - 1];
      ById(connections[..|connections| - 1], id)
  }

  predicate Known(item: PreviewItem, connections: seq<ConnectionConfig>) {
    item.duplicateId.Some? ==> ById(connections, item.duplicateId.value).Some?
  }

  function IdentityNote(path: Option<string>): Option<string> {
    if path.Some? then Some("OpenSSH IdentityFile: " + path.value) else None
  }

  function FreshConfig(item: PreviewItem, uuid: string): ConnectionConfig {
    NewConfig("connection-" + uuid, item.alias, item.host, item.username).(port := item.port, notes :=
      IdentityNote(item.identityFile), authMethod := Password)
  }

  function OverwriteConfig(existing: ConnectionConfig, item: PreviewItem): ConnectionConfig {
    existing.(name := item.alias, host := item.host, port := item.port, username := item.username,
              notes := if item.identityFile.Some? then IdentityNote(item.identityFile) else existing.notes)
  }

  function ConfigFor(item: PreviewItem, connections: seq<ConnectionConfig>, uuid: string): ConnectionConfig
    requires Known(item, connections)
  {
    if item.duplicateId.Some? then OverwriteConfig(ById(connections, item.duplicateId.value).value, item)
    else FreshConfig(item, uuid)
  }

  predicate AllKnown(items: seq<PreviewItem>, connections: seq<ConnectionConfig>) {
    forall i :: 0 <= i < |items| ==> Known(items[i], connections)
  }

  /** `uuid(k)` is the identifier drawn for the k-th stored connection, if one is drawn. */
  function ConfigsFor(items: seq<PreviewItem>, connections: seq<ConnectionConfig>,
      uuid: nat -> string): seq<ConnectionConfig>
    requires AllKnown(items, connections)
  {
    seq(|items|, k requires 0 <= k < |items| => ConfigFor(items[k], connections, uuid(k)))
  }

  datatype ImportResult = ImportResult(imported: nat, overwritten: nat, skipped: nat)

  datatype ImportFailure = InvalidSelection | ConfigChanged | DuplicateChanged

  datatype Batch = Batch(configs: seq<ConnectionConfig>, result: ImportResult)

  /** The connections to store are those of the selected items that are taken, in order; the
      counts say how many of them are new, how many replace one, and how many were left out. */
  predicate BatchFits(batch: Batch, items: seq<PreviewItem>, ids: set<string>, strategy: Strategy,
                      connections: seq<ConnectionConfig>, uuid: nat -> string)
  {
    var stored := ToStore(items, ids, strategy);
    && AllKnown(stored, connections)
    && batch.configs == ConfigsFor(stored, connections, uuid)
    && batch.result.overwritten == |Filter(Replaces(), stored)|
    && batch.result.imported + batch.result.overwritten == |batch.configs|
    && batch.result.imported + batch.result.overwritten + batch.result.skipped == |Wanted(items, ids)|
  }

  lemma OneMoreStored(items: seq<PreviewItem>, i: nat, ids: set<string>, strategy: Strategy)
    requires i < |items|
    ensures var item := items[i];
            var stored := ToStore(items[..i], ids, strategy);
            && Wanted(items[..i + 1], ids) == Wanted(items[..i], ids) + (if item.sourceId in ids then [item] else [])
            && ToStore(items[..i + 1], ids, strategy) ==
                 (if item.sourceId in ids && Takes(strategy)(item) then stored + [item] else stored)
            && |Filter(Replaces(), stored + [item])| == |Filter(Replaces(), stored)| + if item.duplicateId.Some? then 1
              else 0
  {
    assert items[..i + 1] == items[..i] + [items[i]];
    OneMoreKept(Wants(ids), items[..i], items[i]);
    OneMoreKept(Takes(strategy), Wanted(items[..i], ids), items[i]);
    OneMoreKept(Replaces(), ToStore(items[..i], ids, strategy), items[i]);
    assert Wanted(items[..i], ids) + [] == Wanted(items[..i], ids);
    assert ToStore(items[..i], ids, strategy) + [] == ToStore(items[..i], ids, strategy);
  }

  lemma OneMoreConfig(stored: seq<PreviewItem>, item: PreviewItem, connections: seq<ConnectionConfig>,
      uuid: nat -> string)
    requires AllKnown(stored, connections) && Known(item, connections)
    ensures AllKnown(stored + [item], connections)
    ensures ConfigsFor(stored + [item], connections, uuid) ==
              ConfigsFor(stored, connections, uuid) + [ConfigFor(item, connections, uuid(|stored|))]
  {
  }

  lemma StoredPrefix(items: seq<PreviewItem>, i: nat, ids: set<string>, strategy: Strategy)
    requires i <= |items|
    ensures ToStore(items[..i], ids, strategy) <= ToStore(items, ids, strategy)
  {
    assert items == items[..i] + items[i..];
    FilterConcat(Wants(ids), items[..i], items[i..]);
    FilterConcat(Takes(strategy), Wanted(items[..i], ids), Wanted(items[i..], ids));
  }

  /** The selection and counting loop. */
  method Collect(items: seq<PreviewItem>, ids: set<string>, strategy: Strategy,
                 connections: seq<ConnectionConfig>, uuid: nat -> string)
    returns (r: Result<Batch, ImportFailure>)
    ensures r.Ok? <==> AllKnown(ToStore(items, ids, strategy), connections)
    ensures r.Err? ==> r.error == DuplicateChanged
    ensures r.Ok? ==> BatchFits(r.value, items, ids, strategy, connections, uuid)
  {
    var configs := [];
    var result := ImportResult(0, 0, 0);
    for i := 0 to |items|
      invariant BatchFits(Batch(configs, result), items[..i], ids, strategy, connections, uuid)
    {
      var item := items[i];
      OneMoreStored(items, i, ids, strategy);
      ghost var stored := ToStore(items[..i], ids, strategy);
      if item.sourceId !in ids {
        continue;
      }
      if item.errors != [] {
        result := result.(skipped := result.skipped + 1);
        continue;
      }
      if item.duplicateId.Some? {
        if strategy == Skip {
          result := result.(skipped := result.skipped + 1);
          continue;
        }
        var existing := ById(connections, item.duplicateId.value);
        if existing.None? {
          StoredPrefix(items, i + 1, ids, strategy);
          assert ToStore(items[..i + 1], ids, strategy)[|stored|] == item;
          return Err(DuplicateChanged);
        }
        OneMoreConfig(stored, item, connections, uuid);
        configs := configs + [OverwriteConfig(existing.value, item)];
        result := result.(overwritten := result.overwritten + 1);
      } else {
        OneMoreConfig(stored, item, connections, uuid);
        configs := configs + [FreshConfig(item, uuid(|configs|))];
        result := result.(imported := result.imported + 1);
      }
    }
    assert items[..|items|] == items;
    r := Ok(Batch(configs, result));
  }

  datatype Request = Request(selectedIds: seq<string>, fingerprint: string, strategy: Strategy)

  predicate SelectionValid(ids: seq<string>) {
    && ids != []
    && (forall i :: 0 <= i < |ids| ==> !IsBlank(ids[i]))
    && (forall i, j :: 0 <= i < j < |ids| ==> ids[i] != ids[j])
  }

  /** Every selected id names an item of the preview. */
  predicate AllListed(ids: set<string>, items: seq<PreviewItem>) {
    forall id :: id in ids ==> exists item :: item in items && item.sourceId == id
  }

  function SelectedIds(request: Request): set<string> {
    set id | id in request.selectedIds
  }

  /** The catalog has not changed since `find_duplicate` looked at it. */
  lemma DuplicatesAreKnown(parsed: Config, env: Environment, ids: set<string>, strategy: Strategy)
    ensures AllKnown(ToStore(Preview(parsed, env), ids, strategy), env.connections)
  {
    var items := Preview(parsed, env);
    var stored := ToStore(items, ids, strategy);
    FilterKeeps(Wants(ids), items);
    FilterKeeps(Takes(strategy), Wanted(items, ids));
    forall i | 0 <= i < |stored| ensures Known(stored[i], env.connections) {
      assert stored[i] in stored;
      var c := ItemOrigin(parsed, env, stored[i]);
    }
  }

  /** `import_openssh_connections` up to the repository: what to store, or why not. The check
      for a duplicate that vanished never fails. */
  method ImportConnections(request: Request, source: string, digest: string -> string, env: Environment,
      uuid: nat -> string)
    returns (r: Result<Batch, ImportFailure>)
    ensures r == Err(InvalidSelection) <==> !SelectionValid(request.selectedIds)
    ensures r == Err(ConfigChanged) <==>
              && SelectionValid(request.selectedIds)
              && (request.fingerprint != digest(source)
                || !AllListed(SelectedIds(request), Preview(Parse(source), env)))
    ensures r != Err(DuplicateChanged)
    ensures r.Ok? ==> BatchFits(r.value, Preview(Parse(source), env), SelectedIds(request), request.strategy,
              env.connections, uuid)
  {
    if !SelectionValid(request.selectedIds) {
      return Err(InvalidSelection);
    }
    if request.fingerprint != digest(source) {
      return Err(ConfigChanged);
    }
    var items, _ := BuildPreview(source, env);
    var selected := SelectedIds(request);
    if !AllListed(selected, items) {
      return Err(ConfigChanged);
    }
    DuplicatesAreKnown(Parse(source), env, selected, request.strategy);
    r := Collect(items, selected, request.strategy, env.connections, uuid);
  }
}
