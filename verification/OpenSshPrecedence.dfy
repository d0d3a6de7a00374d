/** The options an alias is imported with (apps/desktop/src-tauri/src/openssh_import.rs,
    `build_preview`) against the rule of ssh_config(5): of all the values given before any Host and
    in the Host blocks that match the name, the first one in the file is used; but of IdentityFile
    every value is used, in order. */
module OpenSshPrecedence {
  import opened Wrappers
  import opened Sequences
  import opened OpenSshScan
  import opened OpenSshParse
  import opened OpenSshImport
  import Printer = OpenSshRoundTrip

  // Which blocks apply to a name

  /** `*` stands for any text, `?` for any one character. */
  predicate WildMatch(pattern: string, text: string)
    decreases |pattern| + |text|
  {
    if pattern == [] then text == []
    else if pattern[0] == '*' then WildMatch(pattern[1..], text) || (text != [] && WildMatch(pattern, text[1..]))
    else text != [] && (pattern[0] == '?' || pattern[0] == text[0]) && WildMatch(pattern[1..], text[1..])
  }

  predicate IsNegated(pattern: string) {
    pattern != [] && pattern[0] == '!'
  }

  predicate Admits(pattern: string, name: string) {
    !IsNegated(pattern) && WildMatch(pattern, name)
  }

  predicate Excludes(pattern: string, name: string) {
    IsNegated(pattern) && WildMatch(pattern[1..], name)
  }

  /** Some pattern of the Host line admits the name and none excludes it. */
  predicate HostMatches(aliases: seq<Alias>, name: string) {
    && (exists i :: 0 <= i < |aliases| && Admits(aliases[i].value, name))
    && (forall i :: 0 <= i < |aliases| ==> !Excludes(aliases[i].value, name))
  }

  lemma {:induction false} PlainPatternIsName(pattern: string, text: string)
    requires '*' !in pattern && '?' !in pattern
    ensures WildMatch(pattern, text) <==> pattern == text
    decreases |pattern|
  {
    if pattern != [] {
      assert pattern[0] in pattern;
      if text != [] {
        PlainPatternIsName(pattern[1..], text[1..]);
        assert pattern == [pattern[0]] + pattern[1..] && text == [text[0]] + text[1..];
      }
    }
  }

  lemma {:induction false} StarMatchesAll(text: string)
    ensures WildMatch("*", text)
    decreases |text|
  {
    assert "*"[1..] == [];
    if text != [] {
      StarMatchesAll(text[1..]);
    }
  }

  /** An alias that is no pattern is matched by its own Host line unless a negated pattern there
      excludes it. */
  lemma OwnHostMatches(aliases: seq<Alias>, i: nat)
    requires i < |aliases| && !IsHostPattern(aliases[i].value)
    ensures HostMatches(aliases, aliases[i].value) <==>
              forall j :: 0 <= j < |aliases| ==> !Excludes(aliases[j].value, aliases[i].value)
  {
    var name := aliases[i].value;
    PlainPatternIsName(name, name);
    assert Admits(aliases[i].value, name);
  }

  // The values ssh_config(5) obtains

  /** A Host line with every line up to the next one; a stanza keeps the first value of each field only. */
  datatype Block = Block(aliases: seq<Alias>, lines: seq<Line>)

  datatype File = File(opening: seq<Line>, blocks: seq<Block>)

  function BlocksOf(ds: seq<Line>): seq<Block>
    decreases |ds|
  {
    if ds == [] || !ds[0].HostLine? then []
    else
      var k := BlockLength(ds[1..]);
      [Block(AliasesOf(ds[0].line, ds[0].words), ds[1..1 + k])] + BlocksOf(ds[1 + k..])
  }

  function FileOf(ds: seq<Line>): File {
    var k := BlockLength(ds);
    File(ds[..k], BlocksOf(ds[k..]))
  }

  function SourceFile(source: string): File {
    FileOf(ReadLines(ReadLine, Lines(source), 1))
  }

  /** Every value given for a field, in order. */
  function Values(ds: seq<Line>, field: Field): seq<string> {
    if ds == [] then []
    else (if ds[0].Argument? && ds[0].field == field then [ds[0].value] else []) + Values(ds[1..], field)
  }

  /** The values in the blocks that match. */
  function MatchedValues(blocks: seq<Block>, name: string, field: Field): seq<string> {
    if blocks == [] then []
    else (if HostMatches(blocks[0].aliases, name) then Values(blocks[0].lines, field) else [])
         + MatchedValues(blocks[1..], name, field)
  }

  /** The first value, or for IdentityFile all of them. */
  function Obtained(f: File, name: string, field: Field): seq<string> {
    var all := Values(f.opening, field) + MatchedValues(f.blocks, name, field);
    if field == IdentityFile || all == [] then all else [all[0]]
  }

  // What the importer keeps of a file

  function StanzaOf(b: Block): Stanza {
    Stanza(b.aliases, FirstValues(b.lines))
  }

  function Parsed(f: File): Config {
    Config(FirstValues(f.opening), seq(|f.blocks|, i requires 0 <= i < |f.blocks| => StanzaOf(f.blocks[i])))
  }

  lemma {:induction false} BlocksAreStanzas(ds: seq<Line>)
    requires ds == [] || ds[0].HostLine?
    ensures |StanzasOf(ds)| == |BlocksOf(ds)|
    ensures forall i :: 0 <= i < |BlocksOf(ds)| ==> StanzasOf(ds)[i] == StanzaOf(BlocksOf(ds)[i])
    decreases |ds|
  {
    if ds != [] {
      BlocksAreStanzas(ds[1 + BlockLength(ds[1..])..]);
    }
  }

  lemma MeaningIsParsed(ds: seq<Line>)
    ensures Meaning(ds) == Parsed(FileOf(ds))
  {
    BlocksAreStanzas(ds[BlockLength(ds)..]);
    assert Meaning(ds).stanzas == Parsed(FileOf(ds)).stanzas;
  }

  /** The importer's parser sees the first value of each field in each block of the file. */
  lemma ParserSeesFile(source: string)
    ensures Parse(source) == Parsed(SourceFile(source))
  {
    ParserRefinesMeaning(source);
    MeaningIsParsed(ReadLines(ReadLine, Lines(source), 1));
  }

  lemma {:induction false} FirstOfValues(ds: seq<Line>, field: Field)
    ensures FirstValue(ds, field) == if Values(ds, field) == [] then None else Some(Values(ds, field)[0])
  {
    if ds != [] {
      FirstOfValues(ds[1..], field);
    }
  }

  lemma {:induction false} MatchedConcat(a: seq<Block>, b: seq<Block>, name: string, field: Field)
    ensures MatchedValues(a + b, name, field) == MatchedValues(a, name, field) + MatchedValues(b, name, field)
  {
    if a == [] {
      assert a + b == b;
    } else {
      assert (a + b)[1..] == a[1..] + b;
      MatchedConcat(a[1..], b, name, field);
      Associates(if HostMatches(a[0].aliases, name) then Values(a[0].lines, field) else [],
                 MatchedValues(a[1..], name, field), MatchedValues(b, name, field));
    }
  }

  lemma MatchedThree(blocks: seq<Block>, k: nat, name: string, field: Field)
    requires k < |blocks|
    ensures var own := if HostMatches(blocks[k].aliases, name) then Values(blocks[k].lines, field) else [];
            MatchedValues(blocks, name, field) ==
              MatchedValues(blocks[..k], name, field) + (own + MatchedValues(blocks[k + 1..], name, field))
  {
    assert blocks == blocks[..k] + blocks[k..];
    MatchedConcat(blocks[..k], blocks[k..], name, field);
    assert blocks[k..][1..] == blocks[k + 1..];
  }

  // When the import and ssh_config(5) agree

  /** The values given before any Host, in earlier matching blocks, in the alias's own block and in
      later matching ones; `applies` tells whether the own block matches. */
  datatype Given = Given(opening: seq<string>, before: seq<string>, own: seq<string>, after: seq<string>, applies: bool)

  function GivenAt(f: File, k: nat, name: string, field: Field): Given
    requires k < |f.blocks|
  {
    Given(Values(f.opening, field), MatchedValues(f.blocks[..k], name, field), Values(f.blocks[k].lines, field),
          MatchedValues(f.blocks[k + 1..], name, field), HostMatches(f.blocks[k].aliases, name))
  }

  /** A field with one value. If the alias's own block gives it, no earlier value in force may differ,
      and if a negated pattern excludes the alias from its block the value that is used instead must be the
      same. If its block does not give it, it is given before any Host or in no matching block. */
  predicate AgreeOnFirst(g: Given) {
    if g.own == [] then g.opening != [] || g.before + g.after == []
    else if g.applies then g.opening + g.before == [] || (g.opening + g.before)[0] == g.own[0]
    else
      var others := g.opening + g.before + g.after;
      others != [] && others[0] == g.own[0]
  }

  /** IdentityFile. There is at most one value in force, and it is given in the alias's own block or before
      any Host; if a negated pattern excludes the alias from a block that gives one, then the
      only value in force is the first that block gives. */
  predicate AgreeOnAll(g: Given) {
    if g.own == [] || g.applies then g.before + g.after == [] && |g.opening| + |g.own| <= 1
    else g.opening + g.before + g.after == [g.own[0]]
  }

  predicate Agree(f: File, k: nat, name: string, field: Field)
    requires k < |f.blocks|
  {
    var g := GivenAt(f, k, name, field);
    if field == IdentityFile then AgreeOnAll(g) else AgreeOnFirst(g)
  }

  function Kept(value: Option<string>): seq<string> {
    if value.Some? then [value.value] else []
  }

  /** The value the import takes, and the values in force, told by where they are given. */
  function Imported(g: Given): seq<string> {
    if g.own != [] then [g.own[0]] else if g.opening != [] then [g.opening[0]] else []
  }

  function InForce(g: Given): seq<string> {
    g.opening + (g.before + ((if g.applies then g.own else []) + g.after))
  }

  lemma FirstAgrees(g: Given)
    ensures Imported(g) == (if InForce(g) == [] then [] else [InForce(g)[0]]) <==> AgreeOnFirst(g)
  {
  }

  lemma AllAgree(g: Given)
    ensures Imported(g) == InForce(g) <==> AgreeOnAll(g)
  {
    var all := InForce(g);
    assert |all| == |g.opening| + |g.before| + (if g.applies then |g.own| else 0) + |g.after|;
    if g.own == [] || g.applies {
      if AgreeOnAll(g) {
        assert g.before == [] && g.after == [];
        assert all == g.opening + g.own;
      } else if Imported(g) == all {
        OneSource(g);
      }
    } else {
      assert all == g.opening + g.before + g.after;
    }
  }

  /** A single value that the import takes from its own block or from before any Host is in force there. */
  lemma OneSource(g: Given)
    requires (g.own == [] || g.applies) && Imported(g) == InForce(g)
    ensures AgreeOnAll(g)
  {
    var all := InForce(g);
    assert |all| == |g.opening| + |g.before| + |g.own| + |g.after|;
    assert |all| <= 1;
  }

  function CandidateAt(parsed: Config, k: nat, i: nat): Candidate
    requires k < |parsed.stanzas| && i < |parsed.stanzas[k].aliases|
  {
    Candidate(parsed.stanzas[k].aliases[i], OpenSshParse.Filled(parsed.stanzas[k].options, parsed.defaults))
  }

  lemma {:induction false} StanzaIsListed(stanzas: seq<Stanza>, defaults: Options, k: nat, c: Candidate)
    requires k < |stanzas| && c in StanzaCandidates(stanzas[k], defaults)
    ensures c in Candidates(stanzas, defaults)
  {
    var last := |stanzas| - 1;
    if k < last {
      StanzaIsListed(stanzas[..last], defaults, k, c);
    }
  }

  lemma ImportedAt(f: File, k: nat, i: nat, field: Field)
    requires k < |f.blocks| && i < |f.blocks[k].aliases|
    ensures Kept(Get(CandidateAt(Parsed(f), k, i).options, field)) ==
              Imported(GivenAt(f, k, f.blocks[k].aliases[i].value, field))
  {
    FirstOfValues(f.opening, field);
    FirstOfValues(f.blocks[k].lines, field);
    assert Get(FirstValues(f.opening), field) == FirstValue(f.opening, field);
    assert Get(FirstValues(f.blocks[k].lines), field) == FirstValue(f.blocks[k].lines, field);
  }

  lemma InForceAt(f: File, k: nat, name: string, field: Field)
    requires k < |f.blocks|
    ensures InForce(GivenAt(f, k, name, field)) == Values(f.opening, field) + MatchedValues(f.blocks, name, field)
  {
    MatchedThree(f.blocks, k, name, field);
  }

  lemma CandidateIsListed(f: File, k: nat, i: nat)
    requires k < |f.blocks| && i < |f.blocks[k].aliases|
    ensures CandidateAt(Parsed(f), k, i) in Named(Parsed(f))
    ensures CandidateAt(Parsed(f), k, i).alias == f.blocks[k].aliases[i]
  {
    var parsed := Parsed(f);
    assert StanzaCandidates(parsed.stanzas[k], parsed.defaults)[i] == CandidateAt(parsed, k, i);
    StanzaIsListed(parsed.stanzas, parsed.defaults, k, CandidateAt(parsed, k, i));
  }

  lemma GivenAgree(g: Given, field: Field)
    ensures Imported(g) == (if field == IdentityFile || InForce(g) == [] then InForce(g) else [InForce(g)[0]]) <==>
              if field == IdentityFile then AgreeOnAll(g) else AgreeOnFirst(g)
  {
    FirstAgrees(g);
    AllAgree(g);
  }

  /** Each field of each alias in any file: what is imported is what ssh_config(5) obtains exactly
      when they agree as above. */
  lemma ImportedIsObtained(f: File, k: nat, i: nat, field: Field)
    requires k < |f.blocks| && i < |f.blocks[k].aliases|
    ensures CandidateAt(Parsed(f), k, i) in Named(Parsed(f))
    ensures CandidateAt(Parsed(f), k, i).alias == f.blocks[k].aliases[i]
    ensures var name := f.blocks[k].aliases[i].value;
            Kept(Get(CandidateAt(Parsed(f), k, i).options, field)) == Obtained(f, name, field) <==>
              Agree(f, k, name, field)
  {
    var name := f.blocks[k].aliases[i].value;
    CandidateIsListed(f, k, i);
    ImportedAt(f, k, i, field);
    InForceAt(f, k, name, field);
    GivenAgree(GivenAt(f, k, name, field), field);
  }

  // Printed files

  lemma {:induction false} ValuesConcat(a: seq<Line>, b: seq<Line>, field: Field)
    ensures Values(a + b, field) == Values(a, field) + Values(b, field)
  {
    if a == [] {
      assert a + b == b;
    } else {
      assert (a + b)[1..] == a[1..] + b;
      ValuesConcat(a[1..], b, field);
      var first := if a[0].Argument? && a[0].field == field then [a[0].value] else [];
      Associates(first, Values(a[1..], field), Values(b, field));
    }
  }

  lemma OneFieldValues(given: Field, value: Option<string>, field: Field)
    ensures Values(Printer.FieldArguments(given, value), field) == if given == field then Kept(value) else []
  {
  }

  lemma ArgumentValues(o: Options, field: Field)
    ensures Values(Printer.Arguments(o), field) == Kept(Get(o, field))
  {
    var h, p := Printer.FieldArguments(HostName, o.hostName), Printer.FieldArguments(Port, o.port);
    var u, i := Printer.FieldArguments(User, o.user), Printer.FieldArguments(IdentityFile, o.identityFile);
    ValuesConcat(h, p, field);
    ValuesConcat(h + p, u, field);
    ValuesConcat(h + p + u, i, field);
    OneFieldValues(HostName, o.hostName, field);
    OneFieldValues(Port, o.port, field);
    OneFieldValues(User, o.user, field);
    OneFieldValues(IdentityFile, o.identityFile, field);
  }

  ghost predicate BlockPrints(b: Block, s: Printer.PlainStanza) {
    b.lines == Printer.Arguments(s.options) && exists line: nat :: b.aliases == AliasesOf(line, s.aliases)
  }

  lemma BlockThenRest(head: Line, block: seq<Line>, rest: seq<Line>)
    requires head.HostLine? && (forall i :: 0 <= i < |block| ==> !block[i].HostLine?)
    requires rest == [] || rest[0].HostLine?
    ensures BlocksOf([head] + block + rest) == [Block(AliasesOf(head.line, head.words), block)] + BlocksOf(rest)
  {
    var ds := [head] + block + rest;
    assert ds[1..] == block + rest;
    BlockEnds(block, rest);
    assert ds[1..1 + |block|] == block && ds[1 + |block|..] == rest;
  }

  ghost predicate AllPrint(blocks: seq<Block>, stanzas: seq<Printer.PlainStanza>) {
    |blocks| == |stanzas| && forall i :: 0 <= i < |stanzas| ==> BlockPrints(blocks[i], stanzas[i])
  }

  lemma OneMorePrints(b: Block, s: Printer.PlainStanza, blocks: seq<Block>, stanzas: seq<Printer.PlainStanza>)
    requires BlockPrints(b, s) && AllPrint(blocks, stanzas)
    ensures AllPrint([b] + blocks, [s] + stanzas)
  {
  }

  lemma RecordThenRest(s: Printer.PlainStanza, first: nat, rest: seq<Line>) returns (b: Block)
    requires rest == [] || rest[0].HostLine?
    ensures (Printer.StanzaRecord(s, first) + rest)[0].HostLine?
    ensures BlocksOf(Printer.StanzaRecord(s, first) + rest) == [b] + BlocksOf(rest) && BlockPrints(b, s)
  {
    Printer.ArgumentsMean(s.options);
    BlockThenRest(HostLine(first, s.aliases), Printer.Arguments(s.options), rest);
    b := Block(AliasesOf(first, s.aliases), Printer.Arguments(s.options));
  }

  predicate AtHost(ds: seq<Line>) {
    ds == [] || ds[0].HostLine?
  }

  /** The record of a stanza, put before other blocks, is one more block. */
  ghost predicate AddsBlock(split: seq<Line> -> seq<Block>, record: seq<Line>, s: Printer.PlainStanza,
      rest: seq<Line>) {
    AtHost(record + rest) && exists b :: split(record + rest) == [b] + split(rest) && BlockPrints(b, s)
  }

  lemma {:induction false} RecordedAsBlocks(split: seq<Line> -> seq<Block>,
      record: (Printer.PlainStanza, nat) -> seq<Line>,
      stanzas: seq<Printer.PlainStanza>, first: nat)
    requires split([]) == []
    requires forall s, n: nat, rest {:trigger AddsBlock(split, record(s, n), s, rest)} ::
               AtHost(rest) ==> AddsBlock(split, record(s, n), s, rest)
    ensures AtHost(Printer.Recorded(record, stanzas, first))
    ensures AllPrint(split(Printer.Recorded(record, stanzas, first)), stanzas)
    decreases |stanzas|
  {
    if stanzas != [] {
      var head := record(stanzas[0], first);
      var rest := Printer.Recorded(record, stanzas[1..], first + |head|);
      RecordedAsBlocks(split, record, stanzas[1..], first + |head|);
      assert AddsBlock(split, head, stanzas[0], rest);
      var b :| split(head + rest) == [b] + split(rest) && BlockPrints(b, stanzas[0]);
      OneMorePrints(b, stanzas[0], split(rest), stanzas[1..]);
      assert stanzas == [stanzas[0]] + stanzas[1..];
    }
  }

  lemma RecordedBlocks(stanzas: seq<Printer.PlainStanza>, first: nat)
    ensures AtHost(Printer.StanzasRecord(stanzas, first))
    ensures AllPrint(BlocksOf(Printer.StanzasRecord(stanzas, first)), stanzas)
  {
    forall s, n: nat, rest | AtHost(rest) ensures AddsBlock(BlocksOf, Printer.StanzaRecord(s, n), s, rest) {
      var b := RecordThenRest(s, n, rest);
    }
    RecordedAsBlocks(BlocksOf, Printer.StanzaRecord, stanzas, first);
  }

  lemma RecordedFile(c: Printer.PlainConfig, first: nat)
    ensures var f := FileOf(Printer.Arguments(c.defaults) + Printer.StanzasRecord(c.stanzas, first));
            && f.opening == Printer.Arguments(c.defaults) && AllPrint(f.blocks, c.stanzas)
  {
    var opening, rest := Printer.Arguments(c.defaults), Printer.StanzasRecord(c.stanzas, first);
    Printer.ArgumentsMean(c.defaults);
    RecordedBlocks(c.stanzas, first);
    BlockEnds(opening, rest);
    assert (opening + rest)[..|opening|] == opening && (opening + rest)[|opening|..] == rest;
  }

  /** The blocks of a printed configuration are its stanzas. */
  lemma PrintedFile(c: Printer.PlainConfig)
    requires Printer.Printable(c)
    ensures var f := SourceFile(Printer.Print(c));
            && f.opening == Printer.Arguments(c.defaults) && AllPrint(f.blocks, c.stanzas)
  {
    Printer.PrintedIsClean(c);
    Printer.ReaderUndoesPrinter();
    Printer.LinesAreRead(ReadLine, c);
    RecordedFile(c, 1 + |Printer.Arguments(c.defaults)|);
  }

  // Files on which they differ

  predicate OneLineText(text: string) {
    text != [] && '\n' !in text && '"' !in text
  }

  function Only(field: Field, value: string): Options {
    Put(NO_OPTIONS, field, Some(value))
  }

  /** Two Host lines with one pattern each. */
  function TwoHosts(pattern: string, options: Options, pattern': string, options': Options): Printer.PlainConfig {
    Printer.PlainConfig(NO_OPTIONS,
      [Printer.PlainStanza([pattern], options), Printer.PlainStanza([pattern'], options')])
  }

  lemma OnlyPrints(field: Field, value: string)
    requires OneLineText(value)
    ensures Printer.PrintableOptions(Only(field, value)) && Printer.PrintableOptions(NO_OPTIONS)
  {
    Printer.ValueRoundTrip(field, value, 1);
  }

  lemma TwoHostsPrint(pattern: string, options: Options, pattern': string, options': Options)
    requires OneLineText(pattern) && OneLineText(pattern')
    requires Printer.PrintableOptions(options) && Printer.PrintableOptions(options')
    ensures Printer.Printable(TwoHosts(pattern, options, pattern', options'))
  {
    var stanzas := TwoHosts(pattern, options, pattern', options').stanzas;
    assert Printer.PrintableStanza(stanzas[0]) && Printer.PrintableStanza(stanzas[1]);
  }

  lemma OnePattern(b: Block, pattern: string, options: Options, name: string, field: Field)
    requires BlockPrints(b, Printer.PlainStanza([pattern], options)) && !IsNegated(pattern)
    ensures |b.aliases| == 1 && b.aliases[0].value == pattern
    ensures HostMatches(b.aliases, name) <==> WildMatch(pattern, name)
    ensures Values(b.lines, field) == Kept(Get(options, field))
  {
    ArgumentValues(options, field);
    assert b.aliases[0].value == pattern;
  }

  lemma TwoMatched(blocks: seq<Block>, pattern: string, options: Options, pattern': string, options': Options,
      name: string, field: Field)
    requires |blocks| == 2 && !IsNegated(pattern) && !IsNegated(pattern')
    requires BlockPrints(blocks[0], Printer.PlainStanza([pattern], options))
    requires BlockPrints(blocks[1], Printer.PlainStanza([pattern'], options'))
    requires WildMatch(pattern, name) && WildMatch(pattern', name)
    ensures MatchedValues(blocks, name, field) == Kept(Get(options, field)) + Kept(Get(options', field))
  {
    OnePattern(blocks[0], pattern, options, name, field);
    OnePattern(blocks[1], pattern', options', name, field);
    assert blocks[1..][1..] == [];
    assert MatchedValues(blocks[1..], name, field) == Kept(Get(options', field)) + [];
  }

  /** What is in force in such a file, and what is imported for the alias of its block `k`. */
  lemma TwoHostsFile(f: File, pattern: string, options: Options, pattern': string, options': Options, k: nat,
      field: Field)
    requires f.opening == [] && |f.blocks| == 2 && k < 2 && !IsNegated(pattern) && !IsNegated(pattern')
    requires BlockPrints(f.blocks[0], Printer.PlainStanza([pattern], options))
    requires BlockPrints(f.blocks[1], Printer.PlainStanza([pattern'], options'))
    requires WildMatch(pattern, [pattern, pattern'][k]) && WildMatch(pattern', [pattern, pattern'][k])
    ensures |f.blocks[k].aliases| == 1 && f.blocks[k].aliases[0].value == [pattern, pattern'][k]
    ensures CandidateAt(Parsed(f), k, 0) in Named(Parsed(f))
    ensures Kept(Get(CandidateAt(Parsed(f), k, 0).options, field)) == Kept(Get([options, options'][k], field))
    ensures var all := Kept(Get(options, field)) + Kept(Get(options', field));
            Obtained(f, [pattern, pattern'][k], field) == if field == IdentityFile || all == [] then all else [all[0]]
  {
    var name := [pattern, pattern'][k];
    TwoMatched(f.blocks, pattern, options, pattern', options', name, field);
    OnePattern(f.blocks[k], name, [options, options'][k], name, field);
    CandidateIsListed(f, k, 0);
    ImportedAt(f, k, 0, field);
    assert [] + MatchedValues(f.blocks, name, field) == MatchedValues(f.blocks, name, field);
  }

  /** The alias is offered for import with the first values and obtains the second ones. */
  ghost predicate Differs(source: string, name: string, field: Field, imported: seq<string>, obtained: seq<string>) {
    && imported != obtained && Obtained(SourceFile(source), name, field) == obtained
    && exists c :: c in Named(Parse(source)) && c.alias.value == name && Kept(Get(c.options, field)) == imported
  }

  lemma TwoHostsDiffer(pattern: string, options: Options, pattern': string, options': Options, k: nat, field: Field)
    requires OneLineText(pattern) && OneLineText(pattern') && k < 2 && !IsNegated(pattern) && !IsNegated(pattern')
    requires Printer.PrintableOptions(options) && Printer.PrintableOptions(options')
    requires WildMatch(pattern, [pattern, pattern'][k]) && WildMatch(pattern', [pattern, pattern'][k])
    ensures var all := Kept(Get(options, field)) + Kept(Get(options', field));
            var obtained := if field == IdentityFile || all == [] then all else [all[0]];
            var imported := Kept(Get([options, options'][k], field));
            imported != obtained ==>
              Differs(Printer.Print(TwoHosts(pattern, options, pattern', options')), [pattern, pattern'][k], field,
                imported, obtained)
  {
    var c := TwoHosts(pattern, options, pattern', options');
    TwoHostsPrint(pattern, options, pattern', options');
    PrintedFile(c);
    var source := Printer.Print(c);
    var f := SourceFile(source);
    assert BlockPrints(f.blocks[0], c.stanzas[0]) && BlockPrints(f.blocks[1], c.stanzas[1]);
    TwoHostsFile(f, pattern, options, pattern', options', k, field);
    ParserSeesFile(source);
  }

  /** `Host` pattern with one value, then `Host` name with another: for all fields but IdentityFile the
      first is obtained and the second imported. */
  lemma EarlierBlockIgnored(pattern: string, first: string, name: string, second: string, field: Field)
    requires OneLineText(pattern) && OneLineText(first) && OneLineText(name) && OneLineText(second)
    requires !IsHostPattern(name) && Admits(pattern, name) && first != second && field != IdentityFile
    ensures Differs(Printer.Print(TwoHosts(pattern, Only(field, first), name, Only(field, second))), name, field,
              [second], [first])
  {
    PlainPatternIsName(name, name);
    OnlyPrints(field, first);
    OnlyPrints(field, second);
    TwoHostsDiffer(pattern, Only(field, first), name, Only(field, second), 1, field);
  }

  /** `Host` name without a value, then `Host` pattern with one: it is obtained, and none is imported. */
  lemma LaterBlockIgnored(name: string, pattern: string, value: string, field: Field)
    requires OneLineText(name) && OneLineText(pattern) && OneLineText(value)
    requires !IsHostPattern(name) && Admits(pattern, name)
    ensures Differs(Printer.Print(TwoHosts(name, NO_OPTIONS, pattern, Only(field, value))), name, field, [], [value])
  {
    PlainPatternIsName(name, name);
    OnlyPrints(field, value);
    TwoHostsDiffer(name, NO_OPTIONS, pattern, Only(field, value), 0, field);
  }

  /** Two identity files, one in the alias's own block and one in a later block that matches: both are
      obtained, one is imported. */
  lemma SecondIdentityIgnored(name: string, first: string, pattern: string, second: string)
    requires OneLineText(name) && OneLineText(first) && OneLineText(pattern) && OneLineText(second)
    requires !IsHostPattern(name) && Admits(pattern, name)
    ensures Differs(Printer.Print(TwoHosts(name, Only(IdentityFile, first), pattern, Only(IdentityFile, second))), name,
                    IdentityFile, [first], [first, second])
  {
    PlainPatternIsName(name, name);
    OnlyPrints(IdentityFile, first);
    OnlyPrints(IdentityFile, second);
    TwoHostsDiffer(name, Only(IdentityFile, first), pattern, Only(IdentityFile, second), 0, IdentityFile);
  }

  /** `Host *` and a repeated Host line are such patterns. */
  lemma StarAndRepeatAdmit(name: string)
    requires !IsHostPattern(name)
    ensures Admits("*", name) && Admits(name, name)
  {
    StarMatchesAll(name);
    PlainPatternIsName(name, name);
  }
}
