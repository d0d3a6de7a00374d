/** A printer for the configurations the importer understands, and the round trip through the
    parser. */
module OpenSshRoundTrip {
  import opened Wrappers
  import opened Text
  import opened Sequences
  import opened OpenSshScan
  import opened OpenSshParse

  /** A configuration without line numbers. */
  datatype PlainStanza = PlainStanza(aliases: seq<string>, options: Options)

  datatype PlainConfig = PlainConfig(defaults: Options, stanzas: seq<PlainStanza>)

  function ErasedStanza(s: Stanza): PlainStanza {
    PlainStanza(seq(|s.aliases|, i requires 0 <= i < |s.aliases| => s.aliases[i].value), s.options)
  }

  function Erased(stanzas: seq<Stanza>): seq<PlainStanza> {
    seq(|stanzas|, i requires 0 <= i < |stanzas| => ErasedStanza(stanzas[i]))
  }

  // Printing

  function Quoted(value: string): string {
    ['"'] + value + ['"']
  }

  function Escaped(alias: string): string {
    if alias == [] then []
    else (if alias[0] == '"' || alias[0] == '\\' then ['\\', alias[0]] else [alias[0]]) + Escaped(alias[1..])
  }

  function Quotations(aliases: seq<string>): string {
    if aliases == [] then []
    else Quoted(Escaped(aliases[0])) + (if |aliases| > 1 then [' '] + Quotations(aliases[1..]) else [])
  }

  function Keyword(field: Field): string {
    match field
    case HostName => "HostName"
    case Port => "Port"
    case User => "User"
    case IdentityFile => "IdentityFile"
  }

  function OptionLine(field: Field, value: string): string {
    Keyword(field) + ([' '] + Quoted(value))
  }

  function HostText(aliases: seq<string>): string {
    "Host" + ([' '] + Quotations(aliases))
  }

  function FieldLines(field: Field, value: Option<string>): seq<string> {
    if value.Some? then [OptionLine(field, value.value)] else []
  }

  function OptionLines(o: Options): seq<string> {
    FieldLines(HostName, o.hostName) + FieldLines(Port, o.port) + FieldLines(User, o.user)
    + FieldLines(IdentityFile, o.identityFile)
  }

  function StanzaLines(s: PlainStanza): seq<string> {
    [HostText(s.aliases)] + OptionLines(s.options)
  }

  function Flattened(lines: PlainStanza -> seq<string>, stanzas: seq<PlainStanza>): seq<string> {
    if stanzas == [] then [] else lines(stanzas[0]) + Flattened(lines, stanzas[1..])
  }

  function StanzasLines(stanzas: seq<PlainStanza>): seq<string> {
    Flattened(StanzaLines, stanzas)
  }

  function ConfigLines(c: PlainConfig): seq<string> {
    OptionLines(c.defaults) + StanzasLines(c.stanzas)
  }

  function Joined(lines: seq<string>): string {
    if lines == [] then [] else lines[0] + ['\n'] + Joined(lines[1..])
  }

  function Print(c: PlainConfig): string {
    Joined(ConfigLines(c))
  }

  // The scanners on printed text

  const IN_QUOTES := State(Some('"'), false)

  predicate IsLetter(c: char) {
    'a' <= c <= 'z' || 'A' <= c <= 'Z'
  }

  ghost predicate IsWord(text: string) {
    text != [] && forall i :: 0 <= i < |text| ==> IsLetter(text[i])
  }

  lemma WordIsKept(text: string)
    requires forall i :: 0 <= i < |text| ==> IsLetter(text[i]) || text[i] == ' '
    ensures Kept(PLAIN, text) == text && Scanned(PLAIN, text) == PLAIN
  {
    UnmarkedIsKept(text);
  }

  /** A value without quotation marks survives the comment scanner once it is quoted, whatever
      backslashes and '#' it holds. */
  lemma QuotedIsKept(value: string)
    requires '"' !in value
    ensures StripComment(Quoted(value)) == Quoted(value)
  {
    var tail := value + ['"'];
    InQuotesKept(IN_QUOTES, value);
    KeptConcat(IN_QUOTES, value, ['"']);
    assert Quoted(value) == ['"'] + tail;
    assert Quoted(value)[1..] == tail;
    assert Kept(Scanned(IN_QUOTES, value), ['"']) == ['"'];
  }

  /** Inside quotation marks an escaped alias is kept by the one scanner and put together again
      by the other. */
  lemma {:induction false} EscapedIsRead(alias: string, current: string, words: seq<string>)
    ensures Kept(IN_QUOTES, Escaped(alias)) == Escaped(alias) && Scanned(IN_QUOTES, Escaped(alias)) == IN_QUOTES
    ensures FedAll(Splitter(IN_QUOTES, current, words), Escaped(alias)) == Splitter(IN_QUOTES, current + alias, words)
    decreases |alias|
  {
    if alias == [] {
      assert current + alias == current;
    } else {
      var head := if alias[0] == '"' || alias[0] == '\\' then ['\\', alias[0]] else [alias[0]];
      var rest := Escaped(alias[1..]);
      HeadIsRead(alias[0], current, words);
      EscapedIsRead(alias[1..], current + [alias[0]], words);
      KeptConcat(IN_QUOTES, head, rest);
      ScannedConcat(IN_QUOTES, head, rest);
      FedConcat(Splitter(IN_QUOTES, current, words), head, rest);
      assert (current + [alias[0]]) + alias[1..] == current + alias;
    }
  }

  lemma HeadIsRead(c: char, current: string, words: seq<string>)
    ensures var head := if c == '"' || c == '\\' then ['\\', c] else [c];
            && Kept(IN_QUOTES, head) == head && Scanned(IN_QUOTES, head) == IN_QUOTES
            && FedAll(Splitter(IN_QUOTES, current, words), head) == Splitter(IN_QUOTES, current + [c], words)
  {
    var p := Splitter(IN_QUOTES, current, words);
    OneCharacter(p, c);
    if c == '"' || c == '\\' {
      assert ['\\', c][1..] == [c];
      OneCharacter(p.(state := State(Some('"'), true)), c);
    }
  }

  lemma OneCharacter(p: Splitter, c: char)
    ensures FedAll(p, [c]) == Fed(p, c) && Scanned(p.state, [c]) == Next(p.state, c)
    ensures !StartsComment(p.state, c) ==> Kept(p.state, [c]) == [c]
  {
    assert [c][1..] == [];
    assert FedAll(Fed(p, c), []) == Fed(p, c) && Scanned(Next(p.state, c), []) == Next(p.state, c);
  }

  lemma QuotedAliasIsRead(alias: string, current: string, words: seq<string>)
    ensures var text := Quoted(Escaped(alias));
            && Kept(PLAIN, text) == text && Scanned(PLAIN, text) == PLAIN
            && FedAll(Splitter(PLAIN, current, words), text) == Splitter(PLAIN, current + alias, words)
  {
    var inner := Escaped(alias);
    var text := Quoted(inner);
    assert text == ['"'] + (inner + ['"']) && text[1..] == inner + ['"'];
    EscapedIsRead(alias, current, words);
    KeptConcat(IN_QUOTES, inner, ['"']);
    ScannedConcat(IN_QUOTES, inner, ['"']);
    FedConcat(Splitter(IN_QUOTES, current, words), inner, ['"']);
    assert FedAll(Splitter(IN_QUOTES, current + alias, words), ['"']) == Splitter(PLAIN, current + alias, words) by {
      assert FedAll(Splitter(PLAIN, current + alias, words), []) == Splitter(PLAIN, current + alias, words);
    }
    assert Scanned(IN_QUOTES, ['"']) == PLAIN by {
      assert Scanned(PLAIN, []) == PLAIN;
    }
    assert Kept(IN_QUOTES, ['"']) == ['"'];
  }

  function NonEmpty(words: seq<string>): seq<string> {
    if words == [] then [] else (if words[0] == [] then [] else [words[0]]) + NonEmpty(words[1..])
  }

  lemma {:induction false} QuotationsAreKept(aliases: seq<string>)
    ensures Kept(PLAIN, Quotations(aliases)) == Quotations(aliases) && Scanned(PLAIN, Quotations(aliases)) == PLAIN
  {
    if aliases != [] {
      var head := Quoted(Escaped(aliases[0]));
      QuotedAliasIsRead(aliases[0], [], []);
      if |aliases| > 1 {
        var rest := Quotations(aliases[1..]);
        QuotationsAreKept(aliases[1..]);
        KeptConcat(PLAIN, head, [' '] + rest);
        ScannedConcat(PLAIN, head, [' '] + rest);
        assert ([' '] + rest)[1..] == rest;
      } else {
        assert head + [] == head;
      }
    }
  }

  function WithWord(words: seq<string>, word: string): seq<string> {
    if word == [] then words else words + [word]
  }

  lemma OneMoreWord(alias: string, rest: string, words: seq<string>)
    ensures FedAll(Splitter(PLAIN, [], words), Quoted(Escaped(alias)) + ([' '] + rest)) ==
              FedAll(Splitter(PLAIN, [], WithWord(words, alias)), rest)
  {
    QuotedAliasIsRead(alias, [], words);
    assert [] + alias == alias;
    FedConcat(Splitter(PLAIN, [], words), Quoted(Escaped(alias)), [' '] + rest);
    assert ([' '] + rest)[1..] == rest;
    assert Fed(Splitter(PLAIN, alias, words), ' ') == Splitter(PLAIN, [], WithWord(words, alias));
  }

  lemma LastWord(alias: string, words: seq<string>)
    ensures Ended(FedAll(Splitter(PLAIN, [], words), Quoted(Escaped(alias)))) == WithWord(words, alias)
  {
    QuotedAliasIsRead(alias, [], words);
    assert [] + alias == alias;
  }

  lemma NonEmptyStep(words: seq<string>, aliases: seq<string>)
    requires aliases != []
    ensures WithWord(words, aliases[0]) + NonEmpty(aliases[1..]) == words + NonEmpty(aliases)
  {
  }

  lemma {:induction false} QuotationsAreSplit(aliases: seq<string>, words: seq<string>)
    ensures Ended(FedAll(Splitter(PLAIN, [], words), Quotations(aliases))) == words + NonEmpty(aliases)
    decreases |aliases|
  {
    if aliases != [] {
      NonEmptyStep(words, aliases);
      if |aliases| > 1 {
        OneMoreWord(aliases[0], Quotations(aliases[1..]), words);
        QuotationsAreSplit(aliases[1..], WithWord(words, aliases[0]));
      } else {
        assert Quotations(aliases) == Quoted(Escaped(aliases[0]));
        LastWord(aliases[0], words);
        assert NonEmpty(aliases[1..]) == [];
      }
    }
  }

  /** Whatever the aliases contain, splitting their printed form gives back all but the empty ones. */
  lemma WordsRoundTrip(aliases: seq<string>)
    ensures SplitWords(Quotations(aliases)) == NonEmpty(aliases)
  {
    QuotationsAreSplit(aliases, []);
    assert [] + NonEmpty(aliases) == NonEmpty(aliases);
  }

  lemma {:induction false} NothingEmpty(aliases: seq<string>)
    requires forall i :: 0 <= i < |aliases| ==> aliases[i] != []
    ensures NonEmpty(aliases) == aliases
  {
    if aliases != [] {
      NothingEmpty(aliases[1..]);
    }
  }

  // One printed line

  /** Visible at both ends. */
  ghost predicate Framed(text: string) {
    text != [] && text[0] == '"' && !IsWhitespace(text[|text| - 1])
  }

  lemma {:induction false} WordIsKey(word: string, rest: string)
    requires forall i :: 0 <= i < |word| ==> IsLetter(word[i])
    ensures KeyEnd(word + ([' '] + rest)) == |word|
  {
    if word != [] {
      assert (word + ([' '] + rest))[1..] == word[1..] + ([' '] + rest);
      WordIsKey(word[1..], rest);
    }
  }

  /** A keyword, a space and a quoted argument come apart where they were put together. */
  lemma DirectiveIsSplit(word: string, argument: string)
    requires IsWord(word) && Framed(argument)
    requires StripComment(word + ([' '] + argument)) == word + ([' '] + argument)
    ensures SplitDirective(word + ([' '] + argument)) == Some((word, argument))
  {
    TextIsSplit(word, argument);
    TrimmedAlready(word + ([' '] + argument));
  }

  lemma TextIsSplit(word: string, argument: string)
    requires IsWord(word) && Framed(argument)
    ensures var text := word + ([' '] + argument);
            && TrimMarks(text) == text && KeyEnd(text) == |word|
            && Trim(text[..|word|]) == word && ValuePart(text[|word|..]) == argument
  {
    var text := word + ([' '] + argument);
    WordIsKey(word, argument);
    assert text[..|word|] == word && text[|word|..] == [' '] + argument;
    assert IsLetter(text[0]);
    TrimmedAlready(word);
    TrimmedAlready(argument);
    assert ([' '] + argument)[1..] == argument;
    assert TrimStart([' '] + argument) == argument;
  }

  lemma WordThenArgument(word: string, argument: string)
    requires IsWord(word)
    ensures StripComment(word + ([' '] + argument)) == word + ([' '] + StripComment(argument))
  {
    WordIsKept(word);
    KeptConcat(PLAIN, word, [' '] + argument);
    assert ([' '] + argument)[1..] == argument;
  }

  lemma OtherWord(a: string, b: string)
    requires |a| != |b| || (a != [] && Lower(a[0]) != Lower(b[0]))
    ensures !EqIgnoreAsciiCase(a, b)
  {
  }

  lemma HostNameIsWord()
    ensures IsWord("HostName") && EqIgnoreAsciiCase("HostName", "hostname") && !EqIgnoreAsciiCase("HostName", "host")
  {
    OtherWord("HostName", "host");
  }

  lemma PortIsWord()
    ensures IsWord("Port") && EqIgnoreAsciiCase("Port", "port")
    ensures !EqIgnoreAsciiCase("Port", "host") && !EqIgnoreAsciiCase("Port", "hostname")
  {
    OtherWord("Port", "host");
    OtherWord("Port", "hostname");
  }

  lemma UserIsWord()
    ensures IsWord("User") && EqIgnoreAsciiCase("User", "user") && !EqIgnoreAsciiCase("User", "host")
    ensures !EqIgnoreAsciiCase("User", "hostname") && !EqIgnoreAsciiCase("User", "port")
  {
    OtherWord("User", "host");
    OtherWord("User", "hostname");
    OtherWord("User", "port");
  }

  lemma IdentityFileIsWord()
    ensures IsWord("IdentityFile") && EqIgnoreAsciiCase("IdentityFile", "identityfile")
              && !EqIgnoreAsciiCase("IdentityFile", "host")
    ensures !EqIgnoreAsciiCase("IdentityFile", "hostname") && !EqIgnoreAsciiCase("IdentityFile", "port")
              && !EqIgnoreAsciiCase("IdentityFile", "user")
  {
    OtherWord("IdentityFile", "host");
    OtherWord("IdentityFile", "hostname");
    OtherWord("IdentityFile", "port");
    OtherWord("IdentityFile", "user");
  }

  lemma KeywordIsWord(field: Field)
    ensures IsWord(Keyword(field)) && FieldOf(Keyword(field)) == Some(field)
              && !EqIgnoreAsciiCase(Keyword(field), "host")
  {
    match field
    case HostName => HostNameIsWord();
    case Port => PortIsWord();
    case User => UserIsWord();
    case IdentityFile => IdentityFileIsWord();
  }

  lemma UnquotedAgain(value: string)
    ensures Unquote(Trim(Quoted(value))) == value
  {
    TrimmedAlready(Quoted(value));
    assert Quoted(value)[1..|Quoted(value)| - 1] == value;
  }

  /** A '#' where the scanner, started inside the quotation marks, is neither quoted nor escaped. */
  predicate Exposed(value: string, i: nat)
    requires i < |value|
  {
    StartsComment(Scanned(IN_QUOTES, value[..i]), value[i])
  }

  /** No '#' of the value stands outside quotation marks: an unescaped '"' of the value closes them,
      and a later mark of either kind opens new ones. */
  predicate Survives(value: string) {
    forall i :: 0 <= i < |value| ==> !Exposed(value, i)
  }

  lemma QuotedState(value: string, i: nat)
    requires 0 < i <= |value| + 1
    ensures Scanned(PLAIN, Quoted(value)[..i]) == Scanned(IN_QUOTES, value[..i - 1])
  {
    assert Quoted(value)[..i] == ['"'] + value[..i - 1];
    assert (['"'] + value[..i - 1])[1..] == value[..i - 1];
  }

  lemma QuotedComment(value: string, i: nat)
    requires i < |Quoted(value)|
    ensures StartsComment(Scanned(PLAIN, Quoted(value)[..i]), Quoted(value)[i]) <==>
              1 <= i <= |value| && Exposed(value, i - 1)
  {
    if 1 <= i <= |value| {
      QuotedState(value, i);
      assert Quoted(value)[i] == value[i - 1];
    }
  }

  lemma FirstExposed(value: string, i: nat) returns (first: nat)
    requires i < |value| && Exposed(value, i)
    ensures first <= i && Exposed(value, first) && forall j :: 0 <= j < first ==> !Exposed(value, j)
  {
    first := 0;
    while !Exposed(value, first)
      invariant first <= i && forall j :: 0 <= j < first ==> !Exposed(value, j)
      decreases i - first
    {
      first := first + 1;
    }
  }

  /** So the comment scanner leaves the quoted value whole exactly then. */
  lemma SurvivorIsKept(value: string)
    ensures StripComment(Quoted(value)) == Quoted(value) <==> Survives(value)
  {
    var q := Quoted(value);
    forall i | 0 <= i < |q| ensures StartsComment(Scanned(PLAIN, q[..i]), q[i]) <==>
      1 <= i <= |value| && Exposed(value, i - 1) {
      QuotedComment(value, i);
    }
    if Survives(value) {
      KeptIsPrefix(PLAIN, q, |q|);
    } else {
      var i: nat :| i < |value| && Exposed(value, i);
      var first := FirstExposed(value, i);
      KeptIsPrefix(PLAIN, q, first + 1);
    }
  }

  /** The smallest value that does not: a letter, a quotation mark and a '#'. */
  lemma MarkExposesComment()
    ensures !Survives("a\"#")
    ensures ReadLine(OptionLine(User, "a\"#"), 1) != Argument(User, "a\"#")
  {
    var value := "a\"#";
    assert value[..2] == ['a', '"'] && ['a', '"'][1..] == ['"'] && ['"'][1..] == [];
    assert Scanned(IN_QUOTES, ['a', '"']) == Scanned(IN_QUOTES, ['"']) == PLAIN;
    assert Exposed(value, 2);
    ValueRoundTrip(User, value, 1);
  }

  lemma SurvivorIsRead(field: Field, value: string, line: nat)
    requires Survives(value)
    ensures ReadLine(OptionLine(field, value), line) == Argument(field, value)
  {
    KeywordIsWord(field);
    SurvivorIsKept(value);
    WordThenArgument(Keyword(field), Quoted(value));
    DirectiveIsSplit(Keyword(field), Quoted(value));
    UnquotedAgain(value);
  }

  lemma {:induction false} KeptShorter(s: State, text: string) returns (cut: nat)
    ensures cut <= |text| && Kept(s, text) == text[..cut] && (cut < |text| ==> text[cut] == '#')
    decreases |text|
  {
    if text == [] || StartsComment(s, text[0]) {
      cut := 0;
    } else {
      var c := KeptShorter(Next(s, text[0]), text[1..]);
      cut := c + 1;
      assert text[..cut] == [text[0]] + text[1..][..c];
    }
  }

  /** What is read when the scanner cuts the quoted value short is never the value. */
  lemma CutIsNotValue(value: string, cut: nat, last: nat)
    requires 1 <= last <= cut <= |value| && Quoted(value)[cut] == '#'
    ensures Quoted(value)[..last] != value
    ensures |Quoted(value)[..last]| - 2 < |value|
  {
    var q := Quoted(value);
    assert q[|value|] == value[|value| - 1];
    if q[..last] == value {
      AllMarks(value, |value| - 1);
    }
  }

  lemma {:induction false} AllMarks(value: string, i: nat)
    requires i < |value| && Quoted(value)[..|value|] == value
    ensures value[i] == '"'
  {
    assert value[i] == Quoted(value)[..|value|][i] == Quoted(value)[i];
    if i > 0 {
      AllMarks(value, i - 1);
    }
  }

  /** A line the scanner cuts is read as if it ended at the last visible character before the cut. */
  lemma ShortenedIsSplit(word: string, argument: string, kept: string, last: nat)
    requires IsWord(word) && StripComment(argument) == kept
    requires 1 <= last <= |kept| && TrimEnd(kept) == kept[..last] && Framed(kept[..last])
    ensures SplitDirective(word + ([' '] + argument)) == Some((word, kept[..last]))
  {
    WordThenArgument(word, argument);
    TrimmedLine(word, kept, last);
    TextIsSplit(word, kept[..last]);
  }

  lemma CutIsRead(field: Field, value: string, line: nat)
    requires !Survives(value)
    ensures ReadLine(OptionLine(field, value), line) != Argument(field, value)
  {
    var q := Quoted(value);
    SurvivorIsKept(value);
    var cut := KeptShorter(PLAIN, q);
    assert 1 <= cut <= |value|;
    var last := TrimEndPrefix(q[..cut]);
    assert q[..cut][0] == '"';
    assert last >= 1 && q[..cut][..last] == q[..last];
    KeywordIsWord(field);
    ShortenedIsSplit(Keyword(field), q, q[..cut], last);
    CutIsNotValue(value, cut, last);
    TrimmedAlready(q[..last]);
  }

  lemma {:induction false} TrimEndConcat(a: string, b: string)
    requires TrimEnd(b) != []
    ensures TrimEnd(a + b) == a + TrimEnd(b)
    decreases |b|
  {
    if IsWhitespace(b[|b| - 1]) {
      assert (a + b)[..|a + b| - 1] == a + b[..|b| - 1];
      TrimEndConcat(a, b[..|b| - 1]);
    }
  }

  lemma TrimmedLine(word: string, kept: string, last: nat)
    requires IsWord(word) && 1 <= last <= |kept| && TrimEnd(kept) == kept[..last]
    ensures Trim(word + ([' '] + kept)) == word + ([' '] + kept[..last])
  {
    Associates(word, [' '], kept);
    Associates(word, [' '], kept[..last]);
    TrimEndConcat(word + [' '], kept);
    StartsVisible(word + ([' '] + kept));
  }

  lemma StartsVisible(text: string)
    requires text != [] && IsLetter(text[0])
    ensures TrimStart(text) == text
  {
  }

  /** A printed option is read back exactly when no '#' of its value stands outside the quotation
      marks: always without quotation marks in the value. */
  lemma ValueRoundTrip(field: Field, value: string, line: nat)
    ensures ReadLine(OptionLine(field, value), line) == Argument(field, value) <==> Survives(value)
    ensures '"' !in value ==> Survives(value)
  {
    if Survives(value) {
      SurvivorIsRead(field, value, line);
    } else {
      CutIsRead(field, value, line);
    }
    if '"' !in value {
      QuotedIsKept(value);
      SurvivorIsKept(value);
    }
  }

  lemma {:induction false} QuotationsFramed(aliases: seq<string>)
    requires aliases != []
    ensures Framed(Quotations(aliases)) && Quotations(aliases)[|Quotations(aliases)| - 1] == '"'
  {
    if |aliases| > 1 {
      QuotationsFramed(aliases[1..]);
    }
  }

  lemma HostIsWord()
    ensures IsWord("Host") && EqIgnoreAsciiCase("Host", "host")
  {
  }

  lemma HostLineIsRead(argument: string, line: nat)
    requires Framed(argument) && StripComment(argument) == argument
    ensures ReadLine("Host" + ([' '] + argument), line) == HostLine(line, SplitWords(argument))
  {
    HostIsWord();
    WordThenArgument("Host", argument);
    DirectiveIsSplit("Host", argument);
  }

  lemma HostIsRead(aliases: seq<string>, line: nat)
    requires aliases != [] && forall i :: 0 <= i < |aliases| ==> aliases[i] != []
    ensures ReadLine(HostText(aliases), line) == HostLine(line, aliases)
  {
    QuotationsFramed(aliases);
    QuotationsAreKept(aliases);
    HostLineIsRead(Quotations(aliases), line);
    WordsRoundTrip(aliases);
    NothingEmpty(aliases);
  }

  // The whole file

  ghost predicate OneLine(text: string) {
    '\n' !in text
  }

  ghost predicate PrintableValue(value: Option<string>) {
    value.Some? ==> OneLine(value.value) && Survives(value.value)
  }

  ghost predicate PrintableOptions(o: Options) {
    PrintableValue(o.hostName) && PrintableValue(o.port) && PrintableValue(o.user) && PrintableValue(o.identityFile)
  }

  ghost predicate PrintableStanza(s: PlainStanza) {
    && s.aliases != []
    && (forall i :: 0 <= i < |s.aliases| ==> s.aliases[i] != [] && OneLine(s.aliases[i]))
    && PrintableOptions(s.options)
  }

  /** At least one alias per stanza, no alias empty, nothing with a line break in it, and no value
      that exposes a '#' (none without quotation marks does). */
  ghost predicate Printable(c: PlainConfig) {
    PrintableOptions(c.defaults) && forall i :: 0 <= i < |c.stanzas| ==> PrintableStanza(c.stanzas[i])
  }

  ghost predicate Clean(lines: seq<string>) {
    forall i :: 0 <= i < |lines| ==> OneLine(lines[i]) && lines[i] != [] && lines[i][|lines[i]| - 1] == '"'
  }

  lemma {:induction false} JoinedLines(lines: seq<string>)
    requires Clean(lines)
    ensures Lines(Joined(lines)) == lines
  {
    if lines != [] {
      FirstLine(lines[0], Joined(lines[1..]));
      JoinedLines(lines[1..]);
    }
  }

  lemma CleanConcat(a: seq<string>, b: seq<string>)
    requires Clean(a) && Clean(b)
    ensures Clean(a + b)
  {
  }

  lemma FieldLinesClean(field: Field, value: Option<string>)
    requires PrintableValue(value)
    ensures Clean(FieldLines(field, value))
  {
    if value.Some? {
      var line := OptionLine(field, value.value);
      assert line[|line| - 1] == '"';
    }
  }

  lemma OptionLinesClean(o: Options)
    requires PrintableOptions(o)
    ensures Clean(OptionLines(o))
  {
    FieldLinesClean(HostName, o.hostName);
    FieldLinesClean(Port, o.port);
    FieldLinesClean(User, o.user);
    FieldLinesClean(IdentityFile, o.identityFile);
    CleanConcat(FieldLines(HostName, o.hostName), FieldLines(Port, o.port));
    CleanConcat(FieldLines(HostName, o.hostName) + FieldLines(Port, o.port), FieldLines(User, o.user));
    CleanConcat(FieldLines(HostName, o.hostName) + FieldLines(Port, o.port) + FieldLines(User, o.user),
      FieldLines(IdentityFile, o.identityFile));
  }

  lemma {:induction false} EscapedOneLine(alias: string)
    requires OneLine(alias)
    ensures OneLine(Escaped(alias))
  {
    if alias != [] {
      assert alias[0] in alias;
      EscapedOneLine(alias[1..]);
    }
  }

  lemma {:induction false} QuotationsOneLine(aliases: seq<string>)
    requires forall i :: 0 <= i < |aliases| ==> OneLine(aliases[i])
    ensures OneLine(Quotations(aliases))
  {
    if aliases != [] {
      EscapedOneLine(aliases[0]);
      QuotationsOneLine(aliases[1..]);
    }
  }

  lemma StanzaLinesClean(s: PlainStanza)
    requires PrintableStanza(s)
    ensures Clean(StanzaLines(s))
  {
    QuotationsOneLine(s.aliases);
    QuotationsFramed(s.aliases);
    HostTextClean(Quotations(s.aliases));
    OptionLinesClean(s.options);
    CleanConcat([HostText(s.aliases)], OptionLines(s.options));
  }

  lemma HostTextClean(argument: string)
    requires OneLine(argument) && Framed(argument) && argument[|argument| - 1] == '"'
    ensures Clean(["Host" + ([' '] + argument)])
  {
    var text := "Host" + ([' '] + argument);
    assert text[|text| - 1] == argument[|argument| - 1];
  }

  lemma {:induction false} FlattenedClean(lines: PlainStanza -> seq<string>, stanzas: seq<PlainStanza>)
    requires forall i :: 0 <= i < |stanzas| ==> Clean(lines(stanzas[i]))
    ensures Clean(Flattened(lines, stanzas))
  {
    if stanzas != [] {
      FlattenedClean(lines, stanzas[1..]);
      CleanConcat(lines(stanzas[0]), Flattened(lines, stanzas[1..]));
    }
  }

  lemma StanzasLinesClean(stanzas: seq<PlainStanza>)
    requires forall i :: 0 <= i < |stanzas| ==> PrintableStanza(stanzas[i])
    ensures Clean(StanzasLines(stanzas))
  {
    forall i | 0 <= i < |stanzas| ensures Clean(StanzaLines(stanzas[i])) {
      StanzaLinesClean(stanzas[i]);
    }
    FlattenedClean(StanzaLines, stanzas);
  }

  // Reading the printed lines. `read` is only known to undo the printing of one line.

  ghost predicate ReadsOptions(read: (string, nat) -> Line) {
    forall field, value, line: nat :: Survives(value) ==> read(OptionLine(field, value), line) == Argument(field, value)
  }

  ghost predicate ReadsHosts(read: (string, nat) -> Line) {
    forall aliases: seq<string>, line: nat ::
      aliases != [] && (forall i :: 0 <= i < |aliases| ==> aliases[i] != []) ==>
        read(HostText(aliases), line) == HostLine(line, aliases)
  }

  function FieldArguments(field: Field, value: Option<string>): seq<Line> {
    if value.Some? then [Argument(field, value.value)] else []
  }

  function Arguments(o: Options): seq<Line> {
    FieldArguments(HostName, o.hostName) + FieldArguments(Port, o.port)
    + FieldArguments(User, o.user) + FieldArguments(IdentityFile, o.identityFile)
  }

  lemma {:induction false} FirstValueConcat(a: seq<Line>, b: seq<Line>, field: Field)
    ensures FirstValue(a + b, field) == Or(FirstValue(a, field), FirstValue(b, field))
  {
    if a == [] {
      assert a + b == b;
    } else {
      assert (a + b)[1..] == a[1..] + b;
      FirstValueConcat(a[1..], b, field);
    }
  }

  lemma FieldMeans(field: Field, value: Option<string>, other: Field)
    ensures FirstValue(FieldArguments(field, value), other) == if other == field then value else None
  {
  }

  lemma ArgumentMeans(o: Options, field: Field)
    ensures FirstValue(Arguments(o), field) == Get(o, field)
  {
    var h, p := FieldArguments(HostName, o.hostName), FieldArguments(Port, o.port);
    var u, i := FieldArguments(User, o.user), FieldArguments(IdentityFile, o.identityFile);
    FirstValueConcat(h, p, field);
    FirstValueConcat(h + p, u, field);
    FirstValueConcat(h + p + u, i, field);
    FieldMeans(HostName, o.hostName, field);
    FieldMeans(Port, o.port, field);
    FieldMeans(User, o.user, field);
    FieldMeans(IdentityFile, o.identityFile, field);
  }

  lemma ArgumentsMean(o: Options)
    ensures FirstValues(Arguments(o)) == o
    ensures forall i :: 0 <= i < |Arguments(o)| ==> !Arguments(o)[i].HostLine?
  {
    ArgumentMeans(o, HostName);
    ArgumentMeans(o, Port);
    ArgumentMeans(o, User);
    ArgumentMeans(o, IdentityFile);
  }

  lemma FieldIsRead(read: (string, nat) -> Line, field: Field, value: Option<string>, first: nat)
    requires ReadsOptions(read) && PrintableValue(value)
    ensures ReadLines(read, FieldLines(field, value), first) == FieldArguments(field, value)
  {
  }

  lemma OptionsAreRead(read: (string, nat) -> Line, o: Options, first: nat)
    requires ReadsOptions(read) && PrintableOptions(o)
    ensures ReadLines(read, OptionLines(o), first) == Arguments(o)
  {
    var h, p := FieldLines(HostName, o.hostName), FieldLines(Port, o.port);
    var u, i := FieldLines(User, o.user), FieldLines(IdentityFile, o.identityFile);
    ReadAppend(read, h, p, first);
    ReadAppend(read, h + p, u, first);
    ReadAppend(read, h + p + u, i, first);
    FieldIsRead(read, HostName, o.hostName, first);
    FieldIsRead(read, Port, o.port, first + |h|);
    FieldIsRead(read, User, o.user, first + |h + p|);
    FieldIsRead(read, IdentityFile, o.identityFile, first + |h + p + u|);
  }

  /** The lines of a configuration as they are read. */
  function StanzaRecord(s: PlainStanza, first: nat): seq<Line> {
    [HostLine(first, s.aliases)] + Arguments(s.options)
  }

  function Recorded(record: (PlainStanza, nat) -> seq<Line>, stanzas: seq<PlainStanza>, first: nat): seq<Line>
    decreases |stanzas|
  {
    if stanzas == [] then []
    else record(stanzas[0], first) + Recorded(record, stanzas[1..], first + |record(stanzas[0], first)|)
  }

  function StanzasRecord(stanzas: seq<PlainStanza>, first: nat): seq<Line> {
    Recorded(StanzaRecord, stanzas, first)
  }

  lemma HeadThenOptions(read: (string, nat) -> Line, head: string, line: Line, o: Options, first: nat)
    requires ReadsOptions(read) && PrintableOptions(o) && read(head, first) == line
    ensures ReadLines(read, [head] + OptionLines(o), first) == [line] + Arguments(o)
  {
    ReadAppend(read, [head], OptionLines(o), first);
    OptionsAreRead(read, o, first + 1);
  }

  lemma StanzaLinesRead(read: (string, nat) -> Line, s: PlainStanza, first: nat)
    requires ReadsOptions(read) && ReadsHosts(read) && PrintableStanza(s)
    ensures ReadLines(read, StanzaLines(s), first) == StanzaRecord(s, first)
  {
    HeadThenOptions(read, HostText(s.aliases), HostLine(first, s.aliases), s.options, first);
  }

  lemma {:induction false} FlattenedRead(read: (string, nat) -> Line, lines: PlainStanza -> seq<string>,
                                         record: (PlainStanza, nat) -> seq<Line>, stanzas: seq<PlainStanza>, first: nat)
    requires forall s, n: nat :: PrintableStanza(s) ==> ReadLines(read, lines(s), n) == record(s, n)
    requires forall i :: 0 <= i < |stanzas| ==> PrintableStanza(stanzas[i])
    ensures ReadLines(read, Flattened(lines, stanzas), first) == Recorded(record, stanzas, first)
    decreases |stanzas|
  {
    if stanzas != [] {
      var head := lines(stanzas[0]);
      assert ReadLines(read, head, first) == record(stanzas[0], first);
      ReadAppend(read, head, Flattened(lines, stanzas[1..]), first);
      FlattenedRead(read, lines, record, stanzas[1..], first + |head|);
    }
  }

  lemma StanzasLinesRead(read: (string, nat) -> Line, stanzas: seq<PlainStanza>, first: nat)
    requires ReadsOptions(read) && ReadsHosts(read) && forall i :: 0 <= i < |stanzas| ==> PrintableStanza(stanzas[i])
    ensures ReadLines(read, StanzasLines(stanzas), first) == StanzasRecord(stanzas, first)
  {
    forall s, n: nat | PrintableStanza(s) ensures ReadLines(read, StanzaLines(s), n) == StanzaRecord(s, n) {
      StanzaLinesRead(read, s, n);
    }
    FlattenedRead(read, StanzaLines, StanzaRecord, stanzas, first);
  }

  /** Reading `record` of a stanza adds the stanza. */
  ghost predicate AddsStanza(record: (PlainStanza, nat) -> seq<Line>, r: Reader, s: PlainStanza, first: nat) {
    var t := TakenAll(r, record(s, first));
    t.defaults == r.defaults && Erased(FinishedStanzas(t)) == Erased(FinishedStanzas(r)) + [s]
  }

  lemma StanzaIsTaken(r: Reader, s: PlainStanza, first: nat)
    ensures AddsStanza(StanzaRecord, r, s, first)
  {
    var head := HostLine(first, s.aliases);
    ArgumentsMean(s.options);
    assert StanzaRecord(s, first)[0] == head && StanzaRecord(s, first)[1..] == Arguments(s.options);
    StanzaRead(r, head, Arguments(s.options));
    assert ErasedStanza(Stanza(AliasesOf(first, s.aliases), s.options)) == s;
  }

  lemma OneThenRest(taken: seq<PlainStanza>, stanzas: seq<PlainStanza>)
    requires stanzas != []
    ensures taken + [stanzas[0]] + stanzas[1..] == taken + stanzas
  {
  }

  lemma {:induction false} RecordedIsTaken(record: (PlainStanza, nat) -> seq<Line>, r: Reader,
      stanzas: seq<PlainStanza>, first: nat)
    requires forall r, s, n: nat :: AddsStanza(record, r, s, n)
    ensures var t := TakenAll(r, Recorded(record, stanzas, first));
            t.defaults == r.defaults && Erased(FinishedStanzas(t)) == Erased(FinishedStanzas(r)) + stanzas
    decreases |stanzas|
  {
    if stanzas != [] {
      var head := record(stanzas[0], first);
      TakenConcat(r, head, Recorded(record, stanzas[1..], first + |head|));
      assert AddsStanza(record, r, stanzas[0], first);
      RecordedIsTaken(record, TakenAll(r, head), stanzas[1..], first + |head|);
      OneThenRest(Erased(FinishedStanzas(r)), stanzas);
    }
  }

  lemma StanzasAreTaken(r: Reader, stanzas: seq<PlainStanza>, first: nat)
    ensures var t := TakenAll(r, StanzasRecord(stanzas, first));
            t.defaults == r.defaults && Erased(FinishedStanzas(t)) == Erased(FinishedStanzas(r)) + stanzas
  {
    forall r, s, n: nat ensures AddsStanza(StanzaRecord, r, s, n) {
      StanzaIsTaken(r, s, n);
    }
    RecordedIsTaken(StanzaRecord, r, stanzas, first);
  }

  lemma RecordMeans(c: PlainConfig, first: nat)
    ensures var parsed := Closed(TakenAll(NEW_READER, Arguments(c.defaults) + StanzasRecord(c.stanzas, first)));
            parsed.defaults == c.defaults && Erased(parsed.stanzas) == c.stanzas
  {
    ArgumentsMean(c.defaults);
    BlockFills(NEW_READER, Arguments(c.defaults));
    TakenConcat(NEW_READER, Arguments(c.defaults), StanzasRecord(c.stanzas, first));
    StanzasAreTaken(TakenAll(NEW_READER, Arguments(c.defaults)), c.stanzas, first);
    assert Erased([]) + c.stanzas == c.stanzas;
  }

  lemma LinesAreRead(read: (string, nat) -> Line, c: PlainConfig)
    requires ReadsOptions(read) && ReadsHosts(read) && Printable(c)
    ensures ReadLines(read, ConfigLines(c), 1) ==
              Arguments(c.defaults) + StanzasRecord(c.stanzas, 1 + |Arguments(c.defaults)|)
  {
    ReadAppend(read, OptionLines(c.defaults), StanzasLines(c.stanzas), 1);
    OptionsAreRead(read, c.defaults, 1);
    StanzasLinesRead(read, c.stanzas, 1 + |OptionLines(c.defaults)|);
  }

  lemma PrintedIsClean(c: PlainConfig)
    requires Printable(c)
    ensures Lines(Print(c)) == ConfigLines(c)
  {
    OptionLinesClean(c.defaults);
    StanzasLinesClean(c.stanzas);
    CleanConcat(OptionLines(c.defaults), StanzasLines(c.stanzas));
    JoinedLines(ConfigLines(c));
  }

  lemma ReaderUndoesPrinter()
    ensures ReadsOptions(ReadLine) && ReadsHosts(ReadLine)
  {
    forall field, value, line: nat | Survives(value)
      ensures ReadLine(OptionLine(field, value), line) == Argument(field, value) {
      SurvivorIsRead(field, value, line);
    }
    forall aliases: seq<string>, line: nat | aliases != [] && (forall i :: 0 <= i < |aliases| ==> aliases[i] != [])
      ensures ReadLine(HostText(aliases), line) == HostLine(line, aliases)
    {
      HostIsRead(aliases, line);
    }
  }

  lemma ReadBack(read: (string, nat) -> Line, c: PlainConfig, lines: seq<string>)
    requires ReadsOptions(read) && ReadsHosts(read) && Printable(c) && lines == ConfigLines(c)
    ensures var parsed := Closed(TakenAll(NEW_READER, ReadLines(read, lines, 1)));
            parsed.defaults == c.defaults && Erased(parsed.stanzas) == c.stanzas
  {
    LinesAreRead(read, c);
    RecordMeans(c, 1 + |Arguments(c.defaults)|);
  }

  /** Parsing what was printed gives the configuration back, up to line numbers. */
  lemma ConfigRoundTrip(c: PlainConfig)
    requires Printable(c)
    ensures Parse(Print(c)).defaults == c.defaults
    ensures Erased(Parse(Print(c)).stanzas) == c.stanzas
  {
    PrintedIsClean(c);
    ReaderUndoesPrinter();
    ReadBack(ReadLine, c, Lines(Print(c)));
  }
}
