/** Directives, stanzas and the accumulating parser (apps/desktop/src-tauri/src/openssh_import.rs,
    `split_directive`, `unquote`, `parse_config`). */
module OpenSshParse {
  import opened Wrappers
  import opened Text
  import opened Sequences
  import opened OpenSshScan

  const BYTE_ORDER_MARK: char := '\U{FEFF}'

  function TrimMarks(s: string): string {
    if s != [] && s[0] == BYTE_ORDER_MARK then TrimMarks(s[1..]) else s
  }

  /** The keyword ends at the first white space or '='. */
  function KeyEnd(line: string): (k: nat)
    ensures k <= |line|
    ensures forall i :: 0 <= i < k ==> !IsWhitespace(line[i]) && line[i] != '='
    ensures k < |line| ==> IsWhitespace(line[k]) || line[k] == '='
  {
    if line == [] || IsWhitespace(line[0]) || line[0] == '=' then 0 else 1 + KeyEnd(line[1..])
  }

  function ValuePart(rest: string): string {
    var trimmed := TrimStart(rest);
    Trim(if trimmed != [] && trimmed[0] == '=' then trimmed[1..] else rest)
  }

  /** Keyword and argument of a line, if it has both. */
  function SplitDirective(line: string): Option<(string, string)> {
    var text := TrimMarks(Trim(StripComment(line)));
    if text == [] then None
    else
      var k := KeyEnd(text);
      var key, value := Trim(text[..k]), ValuePart(text[k..]);
      if key == [] || value == [] then None else Some((key, value))
  }

  function Unquote(value: string): string {
    var text := Trim(value);
    if |text| >= 2 && text[0] == text[|text| - 1] && IsQuote(text[0]) then text[1..|text| - 1] else text
  }

  datatype Options = Options(
    hostName: Option<string>,
    port: Option<string>,
    user: Option<string>,
    identityFile: Option<string>)

  const NO_OPTIONS := Options(None, None, None, None)

  datatype Alias = Alias(line: nat, value: string)

  datatype Stanza = Stanza(aliases: seq<Alias>, options: Options)

  datatype Config = Config(defaults: Options, stanzas: seq<Stanza>)

  datatype Field = HostName | Port | User | IdentityFile

  /** The keywords the importer knows, in any case. */
  function FieldOf(key: string): Option<Field> {
    if EqIgnoreAsciiCase(key, "hostname") then Some(HostName)
    else if EqIgnoreAsciiCase(key, "port") then Some(Port)
    else if EqIgnoreAsciiCase(key, "user") then Some(User)
    else if EqIgnoreAsciiCase(key, "identityfile") then Some(IdentityFile)
    else None
  }

  /** What one line says. */
  datatype Line = HostLine(line: nat, words: seq<string>) | Argument(field: Field, value: string) | Ignored

  function ReadLine(text: string, line: nat): Line {
    match SplitDirective(text)
    case None => Ignored
    case Some((key, value)) =>
      if EqIgnoreAsciiCase(key, "host") then HostLine(line, SplitWords(value))
      else if FieldOf(key).Some? then Argument(FieldOf(key).value, Unquote(Trim(value)))
      else Ignored
  }

  /** The lines of a text whose first line has the given number. */
  function ReadLines(read: (string, nat) -> Line, texts: seq<string>, first: nat): seq<Line> {
    seq(|texts|, i requires 0 <= i < |texts| => read(texts[i], first + i))
  }

  function Get(o: Options, field: Field): Option<string> {
    match field
    case HostName => o.hostName
    case Port => o.port
    case User => o.user
    case IdentityFile => o.identityFile
  }

  function Put(o: Options, field: Field, value: Option<string>): Options {
    match field
    case HostName => o.(hostName := value)
    case Port => o.(port := value)
    case User => o.(user := value)
    case IdentityFile => o.(identityFile := value)
  }

  /** `RawOptionsRef::set`: a field that has a value keeps it. */
  function Set(o: Options, field: Field, value: string): Options {
    if Get(o, field).None? then Put(o, field, Some(value)) else o
  }

  function AliasesOf(line: nat, words: seq<string>): seq<Alias> {
    seq(|words|, i requires 0 <= i < |words| => Alias(line, words[i]))
  }

  // What the loop does, one line at a time

  /** The locals of the loop: the finished part and the stanza being filled. */
  datatype Reader = Reader(defaults: Options, stanzas: seq<Stanza>, current: Option<Stanza>)

  const NEW_READER := Reader(NO_OPTIONS, [], None)

  function FinishedStanzas(r: Reader): seq<Stanza> {
    if r.current.Some? then r.stanzas + [r.current.value] else r.stanzas
  }

  function Taken(r: Reader, d: Line): Reader {
    match d
    case Ignored => r
    case HostLine(line, words) => Reader(r.defaults, FinishedStanzas(r),
      Some(Stanza(AliasesOf(line, words), NO_OPTIONS)))
    case Argument(field, value) =>
      if r.current.Some? then r.(current :=
        Some(r.current.value.(options := Set(r.current.value.options, field, value))))
      else r.(defaults := Set(r.defaults, field, value))
  }

  function TakenAll(r: Reader, ds: seq<Line>): Reader
    decreases |ds|
  {
    if ds == [] then r else TakenAll(Taken(r, ds[0]), ds[1..])
  }

  function Closed(r: Reader): Config {
    Config(r.defaults, FinishedStanzas(r))
  }

  function Parse(source: string): Config {
    Closed(TakenAll(NEW_READER, ReadLines(ReadLine, Lines(source), 1)))
  }

  lemma {:induction false} TakenConcat(r: Reader, a: seq<Line>, b: seq<Line>)
    ensures TakenAll(r, a + b) == TakenAll(TakenAll(r, a), b)
    decreases |a|
  {
    if a == [] {
      assert a + b == b;
    } else {
      assert (a + b)[1..] == a[1..] + b;
      TakenConcat(Taken(r, a[0]), a[1..], b);
    }
  }

  lemma TakenPrefix(r: Reader, ds: seq<Line>, i: nat)
    requires i < |ds|
    ensures TakenAll(r, ds[..i + 1]) == Taken(TakenAll(r, ds[..i]), ds[i])
  {
    assert ds[..i + 1] == ds[..i] + [ds[i]];
    TakenConcat(r, ds[..i], [ds[i]]);
    assert TakenAll(Taken(TakenAll(r, ds[..i]), ds[i]), []) == Taken(TakenAll(r, ds[..i]), ds[i]);
  }

  /** The loop of `parse_config`. */
  method ParseConfig(source: string) returns (parsed: Config)
    ensures parsed == Parse(source)
  {
    var defaults, stanzas := NO_OPTIONS, [];
    var current: Option<Stanza> := None;
    var lines := Lines(source);
    ghost var ds := ReadLines(ReadLine, lines, 1);
    for index := 0 to |lines|
      invariant Reader(defaults, stanzas, current) == TakenAll(NEW_READER, ds[..index])
    {
      TakenPrefix(NEW_READER, ds, index);
      assert ds[index] == ReadLine(lines[index], index + 1);
      defaults, stanzas, current := ParseLine(lines[index], index + 1, defaults, stanzas, current);
    }
    assert ds[..|lines|] == ds;
    if current.Some? {
      stanzas := stanzas + [current.value];
    }
    parsed := Config(defaults, stanzas);
  }

  /** The body of the loop. */
  method ParseLine(rawLine: string, line: nat, defaults: Options, stanzas: seq<Stanza>, current: Option<Stanza>)
    returns (defaults': Options, stanzas': seq<Stanza>, current': Option<Stanza>)
    ensures Reader(defaults', stanzas', current') == Taken(Reader(defaults, stanzas, current), ReadLine(rawLine, line))
  {
    defaults', stanzas', current' := defaults, stanzas, current;
    match SplitDirective(rawLine)
    case None =>
    case Some((key, value)) =>
      if EqIgnoreAsciiCase(key, "host") {
        if current.Some? {
          stanzas' := stanzas + [current.value];
        }
        var words := SplitWordsLoop(value);
        current' := Some(Stanza(AliasesOf(line, words), NO_OPTIONS));
        return;
      }
      var field := FieldOf(key);
      if field.Some? {
        if current.Some? {
          current' := Some(current.value.(options := Set(current.value.options, field.value, Unquote(Trim(value)))));
        } else {
          defaults' := Set(defaults, field.value, Unquote(Trim(value)));
        }
      }
  }

  // What a configuration means

  /** The first argument given for a field. */
  function FirstValue(ds: seq<Line>, field: Field): Option<string> {
    if ds == [] then None
    else if ds[0].Argument? && ds[0].field == field then Some(ds[0].value)
    else FirstValue(ds[1..], field)
  }

  function FirstValues(ds: seq<Line>): Options {
    Options(FirstValue(ds, HostName), FirstValue(ds, Port), FirstValue(ds, User), FirstValue(ds, IdentityFile))
  }

  /** How many lines come before the next Host line. */
  function BlockLength(ds: seq<Line>): (k: nat)
    ensures k <= |ds|
    ensures forall i :: 0 <= i < k ==> !ds[i].HostLine?
    ensures k < |ds| ==> ds[k].HostLine?
  {
    if ds == [] || ds[0].HostLine? then 0 else 1 + BlockLength(ds[1..])
  }

  /** Each Host line opens a stanza that holds the first value of every field up to the next. */
  function StanzasOf(ds: seq<Line>): seq<Stanza>
    requires ds == [] || ds[0].HostLine?
    decreases |ds|
  {
    if ds == [] then []
    else
      var k := BlockLength(ds[1..]);
      [Stanza(AliasesOf(ds[0].line, ds[0].words), FirstValues(ds[1..1 + k]))] + StanzasOf(ds[1 + k..])
  }

  function Meaning(ds: seq<Line>): Config {
    var k := BlockLength(ds);
    Config(FirstValues(ds[..k]), StanzasOf(ds[k..]))
  }

  function Or(a: Option<string>, b: Option<string>): Option<string> {
    if a.Some? then a else b
  }

  function Filled(o: Options, more: Options): Options {
    Options(Or(o.hostName, more.hostName), Or(o.port, more.port), Or(o.user, more.user),
      Or(o.identityFile, more.identityFile))
  }

  /** A block with no Host line fills the options it is read into. */
  lemma {:induction false} BlockFills(r: Reader, ds: seq<Line>)
    requires forall i :: 0 <= i < |ds| ==> !ds[i].HostLine?
    ensures TakenAll(r, ds) ==
              if r.current.Some?
              then r.(current := Some(r.current.value.(options := Filled(r.current.value.options, FirstValues(ds)))))
              else r.(defaults := Filled(r.defaults, FirstValues(ds)))
    decreases |ds|
  {
    if ds != [] {
      BlockFills(Taken(r, ds[0]), ds[1..]);
    }
  }

  /** One Host line and its block add one stanza. */
  lemma StanzaRead(r: Reader, head: Line, block: seq<Line>)
    requires head.HostLine? && forall i :: 0 <= i < |block| ==> !block[i].HostLine?
    ensures var s := TakenAll(Taken(r, head), block);
            && s.defaults == r.defaults
            && FinishedStanzas(s) == FinishedStanzas(r) + [Stanza(AliasesOf(head.line, head.words), FirstValues(block))]
  {
    BlockFills(Taken(r, head), block);
    assert Filled(NO_OPTIONS, FirstValues(block)) == FirstValues(block);
  }

  lemma {:induction false} StanzasRead(r: Reader, ds: seq<Line>)
    requires ds == [] || ds[0].HostLine?
    ensures Closed(TakenAll(r, ds)) == Config(r.defaults, FinishedStanzas(r) + StanzasOf(ds))
    decreases |ds|
  {
    if ds != [] {
      var k := BlockLength(ds[1..]);
      var block, rest := ds[1..1 + k], ds[1 + k..];
      assert ds[1..] == block + rest;
      TakenConcat(Taken(r, ds[0]), block, rest);
      StanzaRead(r, ds[0], block);
      StanzasRead(TakenAll(Taken(r, ds[0]), block), rest);
      Associates(FinishedStanzas(r), [Stanza(AliasesOf(ds[0].line, ds[0].words), FirstValues(block))], StanzasOf(rest));
    }
  }

  lemma ReaderRefinesMeaning(ds: seq<Line>)
    ensures Closed(TakenAll(NEW_READER, ds)) == Meaning(ds)
  {
    var k := BlockLength(ds);
    assert ds == ds[..k] + ds[k..];
    TakenConcat(NEW_READER, ds[..k], ds[k..]);
    BlockFills(NEW_READER, ds[..k]);
    assert Filled(NO_OPTIONS, FirstValues(ds[..k])) == FirstValues(ds[..k]);
    StanzasRead(TakenAll(NEW_READER, ds[..k]), ds[k..]);
  }

  /** The mutable accumulator computes the declarative meaning: the first value of every known
      keyword before any Host line, and after each Host line up to the next. */
  lemma ParserRefinesMeaning(source: string)
    ensures Parse(source) == Meaning(ReadLines(ReadLine, Lines(source), 1))
  {
    ReaderRefinesMeaning(ReadLines(ReadLine, Lines(source), 1));
  }

  // Concatenation

  function ShiftedAliases(aliases: seq<Alias>, shift: nat): seq<Alias> {
    seq(|aliases|, i requires 0 <= i < |aliases| => aliases[i].(line := aliases[i].line + shift))
  }

  function ShiftedStanza(stanza: Stanza, shift: nat): Stanza {
    stanza.(aliases := ShiftedAliases(stanza.aliases, shift))
  }

  function Shifted(stanzas: seq<Stanza>, shift: nat): seq<Stanza> {
    seq(|stanzas|, i requires 0 <= i < |stanzas| => ShiftedStanza(stanzas[i], shift))
  }

  function Later(d: Line, shift: nat): Line {
    if d.HostLine? then d.(line := d.line + shift) else d
  }

  function AllLater(ds: seq<Line>, shift: nat): seq<Line> {
    seq(|ds|, i requires 0 <= i < |ds| => Later(ds[i], shift))
  }

  lemma LaterConcat(a: seq<Line>, b: seq<Line>, shift: nat)
    ensures AllLater(a + b, shift) == AllLater(a, shift) + AllLater(b, shift)
  {
  }

  lemma {:induction false} ValuesLater(ds: seq<Line>, shift: nat, field: Field)
    ensures FirstValue(AllLater(ds, shift), field) == FirstValue(ds, field)
  {
    if ds != [] {
      assert AllLater(ds, shift)[1..] == AllLater(ds[1..], shift);
      ValuesLater(ds[1..], shift, field);
    }
  }

  lemma OptionsLater(ds: seq<Line>, shift: nat)
    ensures FirstValues(AllLater(ds, shift)) == FirstValues(ds)
  {
    ValuesLater(ds, shift, HostName);
    ValuesLater(ds, shift, Port);
    ValuesLater(ds, shift, User);
    ValuesLater(ds, shift, IdentityFile);
  }

  lemma {:induction false} BlockEnds(block: seq<Line>, rest: seq<Line>)
    requires (forall i :: 0 <= i < |block| ==> !block[i].HostLine?) && (rest == [] || rest[0].HostLine?)
    ensures BlockLength(block + rest) == |block|
  {
    if block == [] {
      assert block + rest == rest;
    } else {
      assert (block + rest)[1..] == block[1..] + rest;
      BlockEnds(block[1..], rest);
    }
  }

  lemma StanzasOfCons(head: Line, block: seq<Line>, rest: seq<Line>)
    requires head.HostLine? && (forall i :: 0 <= i < |block| ==> !block[i].HostLine?)
              && (rest == [] || rest[0].HostLine?)
    ensures StanzasOf([head] + block + rest) ==
              [Stanza(AliasesOf(head.line, head.words), FirstValues(block))] + StanzasOf(rest)
  {
    var ds := [head] + block + rest;
    assert ds[1..] == block + rest;
    BlockEnds(block, rest);
    assert ds[1..1 + |block|] == block && ds[1 + |block|..] == rest;
  }

  lemma BlockIsLater(head: Line, block: seq<Line>, rest: seq<Line>, shift: nat)
    ensures AllLater([head] + block + rest, shift) ==
              [Later(head, shift)] + AllLater(block, shift) + AllLater(rest, shift)
  {
    LaterConcat([head] + block, rest, shift);
    LaterConcat([head], block, shift);
    assert AllLater([head], shift) == [Later(head, shift)];
  }

  lemma OneStanzaLater(line: nat, words: seq<string>, block: seq<Line>, shift: nat)
    ensures Stanza(AliasesOf(line + shift, words), FirstValues(AllLater(block, shift))) ==
              ShiftedStanza(Stanza(AliasesOf(line, words), FirstValues(block)), shift)
  {
    OptionsLater(block, shift);
    assert AliasesOf(line + shift, words) == ShiftedAliases(AliasesOf(line, words), shift);
  }

  lemma LaterHeads(rest: seq<Line>, shift: nat)
    ensures (rest == [] <==> AllLater(rest, shift) == [])
    ensures rest != [] ==> AllLater(rest, shift)[0] == Later(rest[0], shift)
    ensures forall i :: 0 <= i < |rest| ==> AllLater(rest, shift)[i].HostLine? == rest[i].HostLine?
  {
  }

  lemma LateStanzas(head: Line, block: seq<Line>, rest: seq<Line>, shift: nat)
    requires head.HostLine? && (forall i :: 0 <= i < |block| ==> !block[i].HostLine?)
              && (rest == [] || rest[0].HostLine?)
    ensures var late := AllLater(rest, shift);
            && (late == [] || late[0].HostLine?)
            && AllLater([head] + block + rest, shift)[0].HostLine?
            && StanzasOf(AllLater([head] + block + rest, shift)) ==
                 [Stanza(AliasesOf(head.line + shift, head.words),
                   FirstValues(AllLater(block, shift)))] + StanzasOf(late)
  {
    LaterHeads(rest, shift);
    LaterHeads(block, shift);
    BlockIsLater(head, block, rest, shift);
    StanzasOfCons(Later(head, shift), AllLater(block, shift), AllLater(rest, shift));
  }

  lemma ShiftTogether(all: seq<Stanza>, stanza: Stanza, rest: seq<Stanza>,
                      late: seq<Stanza>, lateStanza: Stanza, lateRest: seq<Stanza>, shift: nat)
    requires all == [stanza] + rest && late == [lateStanza] + lateRest
    requires lateStanza == ShiftedStanza(stanza, shift) && lateRest == Shifted(rest, shift)
    ensures late == Shifted(all, shift)
  {
    ShiftedCons(stanza, rest, shift);
  }

  lemma StanzaLater(head: Line, block: seq<Line>, rest: seq<Line>, shift: nat)
    requires head.HostLine? && (forall i :: 0 <= i < |block| ==> !block[i].HostLine?)
              && (rest == [] || rest[0].HostLine?)
    requires AllLater(rest, shift) == [] || AllLater(rest, shift)[0].HostLine?
    requires StanzasOf(AllLater(rest, shift)) == Shifted(StanzasOf(rest), shift)
    ensures AllLater([head] + block + rest, shift)[0].HostLine?
    ensures StanzasOf(AllLater([head] + block + rest, shift)) == Shifted(StanzasOf([head] + block + rest), shift)
  {
    var stanza, lateStanza := Stanza(AliasesOf(head.line, head.words), FirstValues(block)),
                              Stanza(AliasesOf(head.line + shift, head.words), FirstValues(AllLater(block, shift)));
    LateStanzas(head, block, rest, shift);
    StanzasOfCons(head, block, rest);
    OneStanzaLater(head.line, head.words, block, shift);
    ShiftTogether(StanzasOf([head] + block + rest), stanza, StanzasOf(rest),
                  StanzasOf(AllLater([head] + block + rest, shift)), lateStanza, StanzasOf(AllLater(rest, shift)),
                    shift);
  }

  lemma {:induction false} StanzasLater(ds: seq<Line>, shift: nat)
    requires ds == [] || ds[0].HostLine?
    ensures StanzasOf(AllLater(ds, shift)) == Shifted(StanzasOf(ds), shift)
    decreases |ds|
  {
    if ds != [] {
      var k := BlockLength(ds[1..]);
      var block, rest := ds[1..1 + k], ds[1 + k..];
      assert ds == [ds[0]] + block + rest;
      StanzasLater(rest, shift);
      StanzaLater(ds[0], block, rest, shift);
    }
  }

  lemma ShiftedCons(stanza: Stanza, stanzas: seq<Stanza>, shift: nat)
    ensures Shifted([stanza] + stanzas, shift) == [ShiftedStanza(stanza, shift)] + Shifted(stanzas, shift)
  {
  }

  lemma {:induction false} IgnoredStay(r: Reader, ds: seq<Line>, shift: nat)
    requires forall i :: 0 <= i < |ds| ==> ds[i].Ignored?
    ensures TakenAll(r, AllLater(ds, shift)) == r && TakenAll(r, ds) == r
    decreases |ds|
  {
    if ds != [] {
      assert AllLater(ds, shift)[1..] == AllLater(ds[1..], shift);
      IgnoredStay(r, ds[1..], shift);
    }
  }

  /** No option comes before the first Host line. */
  ghost predicate HostFirst(ds: seq<Line>) {
    forall i :: 0 <= i < BlockLength(ds) ==> ds[i].Ignored?
  }

  /** A reader that meets a Host line first leaves its defaults and finished stanzas alone. */
  lemma ReadersConcat(da: seq<Line>, db: seq<Line>, shift: nat)
    requires HostFirst(db)
    ensures Closed(TakenAll(NEW_READER, da + AllLater(db, shift))) ==
              Config(Closed(TakenAll(NEW_READER, da)).defaults,
                     Closed(TakenAll(NEW_READER, da)).stanzas + Shifted(Closed(TakenAll(NEW_READER, db)).stanzas,
                       shift))
  {
    var k := BlockLength(db);
    var silent, rest := db[..k], db[k..];
    var r := TakenAll(NEW_READER, da);
    TakenConcat(NEW_READER, da, AllLater(db, shift));
    assert db == silent + rest;
    LaterConcat(silent, rest, shift);
    TakenConcat(r, AllLater(silent, shift), AllLater(rest, shift));
    TakenConcat(NEW_READER, silent, rest);
    IgnoredStay(r, silent, shift);
    IgnoredStay(NEW_READER, silent, shift);
    StanzasRead(r, AllLater(rest, shift));
    StanzasLater(rest, shift);
    StanzasRead(NEW_READER, rest);
    assert [] + StanzasOf(rest) == StanzasOf(rest);
  }

  /** Reading a line at a later position changes its number and nothing else. */
  lemma ReadLater(text: string, line: nat, shift: nat)
    ensures ReadLine(text, line + shift) == Later(ReadLine(text, line), shift)
  {
  }

  lemma ReadAppend(read: (string, nat) -> Line, a: seq<string>, b: seq<string>, first: nat)
    ensures ReadLines(read, a + b, first) == ReadLines(read, a, first) + ReadLines(read, b, first + |a|)
  {
  }

  lemma ReadShifted(read: (string, nat) -> Line, texts: seq<string>, shift: nat)
    requires forall text, line: nat, shift: nat :: read(text, line + shift) == Later(read(text, line), shift)
    ensures ReadLines(read, texts, 1 + shift) == AllLater(ReadLines(read, texts, 1), shift)
  {
    forall i | 0 <= i < |texts| ensures ReadLines(read, texts, 1 + shift)[i] ==
      Later(ReadLines(read, texts, 1)[i], shift) {
      assert read(texts[i], (1 + i) + shift) == Later(read(texts[i], 1 + i), shift);
    }
  }

  ghost predicate OpensWithHost(source: string) {
    HostFirst(ReadLines(ReadLine, Lines(source), 1))
  }

  lemma ReadConcat(a: seq<string>, b: seq<string>)
    ensures ReadLines(ReadLine, a + b, 1) == ReadLines(ReadLine, a, 1) + AllLater(ReadLines(ReadLine, b, 1), |a|)
  {
    forall text, line: nat, shift: nat ensures ReadLine(text, line + shift) == Later(ReadLine(text, line), shift) {
      ReadLater(text, line, shift);
    }
    ReadAppend(ReadLine, a, b, 1);
    ReadShifted(ReadLine, b, |a|);
  }

  /** A file with no option before its first Host line can be appended to any file: its stanzas
      follow, their lines counted on, and the defaults stay those of the first file. */
  lemma ParseConcat(a: string, b: string)
    requires EndsLine(a) && OpensWithHost(b)
    ensures Parse(a + b) == Config(Parse(a).defaults, Parse(a).stanzas + Shifted(Parse(b).stanzas, |Lines(a)|))
  {
    LinesConcat(a, b);
    ReadConcat(Lines(a), Lines(b));
    ReadersConcat(ReadLines(ReadLine, Lines(a), 1), ReadLines(ReadLine, Lines(b), 1), |Lines(a)|);
  }
}
