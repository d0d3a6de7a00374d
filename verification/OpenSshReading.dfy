/** How lines as people write them are read (apps/desktop/src-tauri/src/openssh_import.rs,
    `split_directive`, `unquote`, `split_words`): any case of a keyword, any separator, bare or
    quoted arguments, trailing comments. */
module OpenSshReading {
  import opened Wrappers
  import opened Text
  import opened Sequences
  import opened OpenSshScan
  import opened OpenSshParse

  // What may be written

  /** A keyword, each letter in either case. */
  predicate InEitherCase(key: string, lower: string, upper: string) {
    |key| == |lower| == |upper| && forall i :: 0 <= i < |key| ==> key[i] == lower[i] || key[i] == upper[i]
  }

  predicate NamesField(key: string, field: Field) {
    match field
    case HostName => InEitherCase(key, "hostname", "HOSTNAME")
    case Port => InEitherCase(key, "port", "PORT")
    case User => InEitherCase(key, "user", "USER")
    case IdentityFile => InEitherCase(key, "identityfile", "IDENTITYFILE")
  }

  predicate IsHostKeyword(key: string) {
    InEitherCase(key, "host", "HOST")
  }

  predicate Blanks(text: string) {
    forall i :: 0 <= i < |text| ==> IsWhitespace(text[i])
  }

  predicate Visible(text: string) {
    text != [] && !IsWhitespace(text[0]) && !IsWhitespace(text[|text| - 1])
  }

  predicate Marks(text: string) {
    forall i :: 0 <= i < |text| ==> text[i] == BYTE_ORDER_MARK
  }

  predicate IsComment(text: string) {
    text == [] || text[0] == '#'
  }

  /** What is between a keyword and its argument: white space, or an equals sign with or without it. */
  datatype Separator = Space(blanks: string) | Equals(before: string, after: string)

  predicate IsSeparator(s: Separator) {
    match s
    case Space(blanks) => blanks != [] && Blanks(blanks)
    case Equals(before, after) => Blanks(before) && Blanks(after)
  }

  function Separating(s: Separator): string {
    match s
    case Space(blanks) => blanks
    case Equals(before, after) => before + ['='] + after
  }

  /** Where the separator is white space an argument must not look like another separator. */
  predicate CanFollow(s: Separator, argument: string) {
    Visible(argument) && (s.Space? ==> argument[0] != '=')
  }

  /** White space and byte order marks may come first, white space and a comment last. */
  datatype Layout = Layout(lead: string, marks: string, separator: Separator, trail: string, comment: string)

  predicate IsLayout(l: Layout) {
    Blanks(l.lead) && Marks(l.marks) && IsSeparator(l.separator) && Blanks(l.trail) && IsComment(l.comment)
  }

  function LineText(l: Layout, key: string, argument: string): string {
    l.lead + (l.marks + (key + (Separating(l.separator) + argument))) + l.trail + l.comment
  }

  // The pieces

  predicate IsKeyText(key: string) {
    key != [] && forall i :: 0 <= i < |key| ==> 'a' <= key[i] <= 'z' || 'A' <= key[i] <= 'Z'
  }

  lemma EitherCaseIsText(key: string, lower: string, upper: string)
    requires InEitherCase(key, lower, upper) && lower != []
    requires forall i :: 0 <= i < |lower| ==> 'a' <= lower[i] <= 'z' && upper[i] == (lower[i] as int - 32) as char
    ensures IsKeyText(key) && EqIgnoreAsciiCase(key, lower)
  {
  }

  lemma {:induction false} TrimStartBlanks(blanks: string, text: string)
    requires Blanks(blanks) && (text == [] || !IsWhitespace(text[0]))
    ensures TrimStart(blanks + text) == text
  {
    if blanks == [] {
      assert blanks + text == text;
    } else {
      assert (blanks + text)[1..] == blanks[1..] + text;
      TrimStartBlanks(blanks[1..], text);
    }
  }

  lemma {:induction false} TrimEndBlanks(text: string, blanks: string)
    requires Blanks(blanks) && (text == [] || !IsWhitespace(text[|text| - 1]))
    ensures TrimEnd(text + blanks) == text
  {
    if blanks == [] {
      assert text + blanks == text;
    } else {
      assert (text + blanks)[..|text + blanks| - 1] == text + blanks[..|blanks| - 1];
      TrimEndBlanks(text, blanks[..|blanks| - 1]);
    }
  }

  lemma TrimAround(lead: string, text: string, trail: string)
    requires Blanks(lead) && Visible(text) && Blanks(trail)
    ensures Trim(lead + text + trail) == text
  {
    assert lead + text + trail == lead + (text + trail);
    TrimStartBlanks(lead, text + trail);
    TrimEndBlanks(text, trail);
  }

  lemma {:induction false} MarksAreTrimmed(marks: string, text: string)
    requires Marks(marks) && text != [] && text[0] != BYTE_ORDER_MARK
    ensures TrimMarks(marks + text) == text
  {
    if marks == [] {
      assert marks + text == text;
    } else {
      assert (marks + text)[1..] == marks[1..] + text;
      MarksAreTrimmed(marks[1..], text);
    }
  }

  lemma {:induction false} KeyEnds(key: string, rest: string)
    requires (forall i :: 0 <= i < |key| ==> 'a' <= key[i] <= 'z' || 'A' <= key[i] <= 'Z')
    requires rest != [] && (IsWhitespace(rest[0]) || rest[0] == '=')
    ensures KeyEnd(key + rest) == |key|
  {
    if key == [] {
      assert key + rest == rest;
    } else {
      assert (key + rest)[1..] == key[1..] + rest;
      KeyEnds(key[1..], rest);
    }
  }

  lemma SeparatorIsSkipped(s: Separator, argument: string)
    requires IsSeparator(s) && CanFollow(s, argument)
    ensures ValuePart(Separating(s) + argument) == argument
  {
    match s
    case Space(blanks) =>
      TrimStartBlanks(blanks, argument);
      TrimAround(blanks, argument, []);
      assert blanks + argument + [] == blanks + argument;
    case Equals(before, after) =>
      assert Separating(s) + argument == before + (['='] + after + argument);
      TrimStartBlanks(before, ['='] + after + argument);
      assert (['='] + after + argument)[1..] == after + argument;
      TrimAround(after, argument, []);
      assert after + argument + [] == after + argument;
  }

  /** Keyword and argument come apart where they were put together. */
  lemma LineIsSplit(l: Layout, key: string, argument: string)
    requires IsLayout(l) && IsKeyText(key) && CanFollow(l.separator, argument)
    requires StripComment(LineText(l, key, argument)) ==
             l.lead + (l.marks + (key + (Separating(l.separator) + argument))) + l.trail
    ensures SplitDirective(LineText(l, key, argument)) == Some((key, argument))
  {
    var rest := Separating(l.separator) + argument;
    var text := key + rest;
    var body := l.marks + text;
    assert body[0] == (if l.marks == [] then key[0] else l.marks[0]);
    assert body[|body| - 1] == argument[|argument| - 1];
    TrimAround(l.lead, body, l.trail);
    MarksAreTrimmed(l.marks, text);
    KeyEnds(key, rest);
    assert text[..|key|] == key && text[|key|..] == rest;
    TrimmedAlready(key);
    SeparatorIsSkipped(l.separator, argument);
  }

  // What the comment scanner leaves

  lemma LeadIsUnmarked(l: Layout, key: string)
    requires IsLayout(l) && IsKeyText(key)
    ensures Unmarked(l.lead + l.marks + key + Separating(l.separator)) && Unmarked(l.trail)
  {
  }

  /** An argument that the comment scanner goes through without remembering anything. */
  ghost predicate LeavesPlain(argument: string) {
    Kept(PLAIN, argument) == argument && Scanned(PLAIN, argument) == PLAIN
  }

  lemma PlainConcat(a: string, b: string)
    requires LeavesPlain(a) && LeavesPlain(b)
    ensures LeavesPlain(a + b)
  {
    KeptConcat(PLAIN, a, b);
    ScannedConcat(PLAIN, a, b);
  }

  lemma Regrouped(a: string, b: string, c: string, d: string, e: string)
    ensures a + b + c + d + e == a + (b + (c + (d + e)))
  {
  }

  lemma CommentIsStripped(l: Layout, key: string, argument: string)
    requires IsLayout(l) && IsKeyText(key) && LeavesPlain(argument)
    ensures StripComment(LineText(l, key, argument)) ==
            l.lead + (l.marks + (key + (Separating(l.separator) + argument))) + l.trail
  {
    var front := l.lead + l.marks + key + Separating(l.separator);
    LeadIsUnmarked(l, key);
    UnmarkedIsKept(front);
    UnmarkedIsKept(l.trail);
    PlainConcat(front, argument);
    PlainConcat(front + argument, l.trail);
    Regrouped(l.lead, l.marks, key, Separating(l.separator), argument);
    var text := front + argument + l.trail;
    KeptConcat(PLAIN, text, l.comment);
    assert Kept(PLAIN, l.comment) == [];
    assert text + [] == text;
  }

  lemma QuotedLeavesPlain(mark: char, value: string)
    requires IsQuote(mark) && mark !in value && '\\' !in value
    ensures LeavesPlain([mark] + value + [mark])
  {
    var inside := State(Some(mark), false);
    var text := [mark] + (value + [mark]);
    assert [mark] + value + [mark] == text && text[1..] == value + [mark];
    InQuotesKept(inside, value);
    KeptConcat(inside, value, [mark]);
    ScannedConcat(inside, value, [mark]);
    assert [mark][1..] == [];
    assert Kept(inside, [mark]) == [mark] + Kept(PLAIN, []);
    assert Scanned(inside, [mark]) == Scanned(PLAIN, []);
  }

  // Options

  lemma KeywordOfField(key: string, field: Field)
    requires NamesField(key, field)
    ensures IsKeyText(key) && !EqIgnoreAsciiCase(key, "host") && OpenSshParse.FieldOf(key) == Some(field)
  {
    match field
    case HostName => EitherCaseIsText(key, "hostname", "HOSTNAME");
    case Port =>
      EitherCaseIsText(key, "port", "PORT");
      assert Lower(key[0]) == 'p';
    case User =>
      EitherCaseIsText(key, "user", "USER");
      assert Lower(key[0]) == 'u';
    case IdentityFile => EitherCaseIsText(key, "identityfile", "IDENTITYFILE");
  }

  lemma ArgumentIsRead(l: Layout, key: string, field: Field, argument: string, line: nat)
    requires IsLayout(l) && NamesField(key, field) && CanFollow(l.separator, argument) && LeavesPlain(argument)
    ensures ReadLine(LineText(l, key, argument), line) == Argument(field, Unquote(argument))
  {
    KeywordOfField(key, field);
    CommentIsStripped(l, key, argument);
    LineIsSplit(l, key, argument);
    TrimmedAlready(argument);
  }

  /** A value without quotation marks, backslashes and hash signs is read as it is written: after any keyword in
      any case, any separator, and before any comment. */
  lemma BareValueIsRead(l: Layout, key: string, field: Field, value: string, line: nat)
    requires IsLayout(l) && NamesField(key, field) && CanFollow(l.separator, value) && Unmarked(value)
    ensures ReadLine(LineText(l, key, value), line) == Argument(field, value)
  {
    UnmarkedIsKept(value);
    ArgumentIsRead(l, key, field, value, line);
    TrimmedAlready(value);
  }

  /** In quotation marks of either kind a value that does not hold that mark, and no backslash, is read as what is
      between the marks: white space at its ends, hash signs and the other mark included, or nothing at all. */
  lemma QuotedValueIsRead(l: Layout, key: string, field: Field, mark: char, value: string, line: nat)
    requires IsLayout(l) && NamesField(key, field)
    requires mark == '"' || mark == '\''
    requires mark !in value && '\\' !in value
    ensures ReadLine(LineText(l, key, [mark] + value + [mark]), line) == Argument(field, value)
  {
    var argument := [mark] + value + [mark];
    QuotedLeavesPlain(mark, value);
    ArgumentIsRead(l, key, field, argument, line);
    TrimmedAlready(argument);
    assert argument[1..|argument| - 1] == value;
  }

  // Host lines

  /** How a word of a Host line is written. */
  datatype Spelling = Plain | InMarks(mark: char) | Escaped

  predicate CanBe(word: string, how: Spelling) {
    word != [] &&
    match how
    case Plain => Unmarked(word) && forall i :: 0 <= i < |word| ==> !IsWhitespace(word[i])
    case InMarks(mark) => (mark == '"' || mark == '\'') && mark !in word && '\\' !in word
    case Escaped => !IsWhitespace(word[|word| - 1])
  }

  /** Every character after a backslash. */
  function Backslashed(word: string): string {
    if word == [] then [] else ['\\', word[0]] + Backslashed(word[1..])
  }

  function Spelt(word: string, how: Spelling): string {
    match how
    case Plain => word
    case InMarks(mark) => [mark] + word + [mark]
    case Escaped => Backslashed(word)
  }

  datatype Token = Token(word: string, how: Spelling)

  /** The words with white space between them. */
  function WordRow(tokens: seq<Token>, gaps: seq<string>): string
    requires |gaps| == |tokens|
  {
    if tokens == [] then []
    else Spelt(tokens[0].word, tokens[0].how)
         + if |tokens| == 1 then [] else gaps[0] + WordRow(tokens[1..], gaps[1..])
  }

  predicate IsWordRow(tokens: seq<Token>, gaps: seq<string>) {
    && |gaps| == |tokens|
    && (forall i :: 0 <= i < |tokens| ==> CanBe(tokens[i].word, tokens[i].how))
    && (forall i :: 0 <= i < |gaps| ==> gaps[i] != [] && Blanks(gaps[i]))
  }

  function WordsOf(tokens: seq<Token>): seq<string> {
    seq(|tokens|, i requires 0 <= i < |tokens| => tokens[i].word)
  }

  lemma {:induction false} PlainIsFed(word: string, current: string, words: seq<string>)
    requires Unmarked(word) && forall i :: 0 <= i < |word| ==> !IsWhitespace(word[i])
    ensures FedAll(Splitter(PLAIN, current, words), word) == Splitter(PLAIN, current + word, words)
    decreases |word|
  {
    if word == [] {
      assert current + word == current;
    } else {
      PlainIsFed(word[1..], current + [word[0]], words);
      assert (current + [word[0]]) + word[1..] == current + word;
    }
  }

  lemma {:induction false} InMarksIsFed(mark: char, word: string, current: string, words: seq<string>)
    requires IsQuote(mark) && mark !in word && '\\' !in word
    ensures FedAll(Splitter(State(Some(mark), false), current, words), word) ==
            Splitter(State(Some(mark), false), current + word, words)
    decreases |word|
  {
    if word == [] {
      assert current + word == current;
    } else {
      assert word[0] in word;
      InMarksIsFed(mark, word[1..], current + [word[0]], words);
      assert (current + [word[0]]) + word[1..] == current + word;
    }
  }

  lemma {:induction false} BackslashedIsFed(word: string, current: string, words: seq<string>)
    ensures FedAll(Splitter(PLAIN, current, words), Backslashed(word)) == Splitter(PLAIN, current + word, words)
    decreases |word|
  {
    if word == [] {
      assert current + word == current;
    } else {
      var text, rest := ['\\', word[0]] + Backslashed(word[1..]), Backslashed(word[1..]);
      var open := State(None, true);
      BackslashedIsFed(word[1..], current + [word[0]], words);
      assert text[1..] == [word[0]] + rest && text[1..][1..] == rest;
      assert Fed(Splitter(PLAIN, current, words), '\\') == Splitter(open, current, words);
      assert Fed(Splitter(open, current, words), word[0]) == Splitter(PLAIN, current + [word[0]], words);
      assert FedAll(Splitter(open, current, words), text[1..]) ==
             FedAll(Splitter(PLAIN, current + [word[0]], words), rest);
      assert (current + [word[0]]) + word[1..] == current + word;
    }
  }

  lemma {:induction false} BackslashedLeavesPlain(word: string)
    ensures LeavesPlain(Backslashed(word))
    ensures word != [] && !IsWhitespace(word[|word| - 1]) ==> Visible(Backslashed(word))
  {
    if word != [] {
      var rest := Backslashed(word[1..]);
      var text, open := ['\\', word[0]] + rest, State(None, true);
      BackslashedLeavesPlain(word[1..]);
      assert text[1..] == [word[0]] + rest && text[1..][1..] == rest;
      assert Kept(open, text[1..]) == [word[0]] + Kept(PLAIN, rest);
      assert Scanned(open, text[1..]) == Scanned(PLAIN, rest);
      if |word| == 1 {
        assert text == ['\\', word[0]];
      } else {
        assert rest[|rest| - 1] == text[|text| - 1];
      }
    }
  }

  lemma {:induction false} BlanksAreFed(blanks: string, words: seq<string>)
    requires Blanks(blanks)
    ensures FedAll(Splitter(PLAIN, [], words), blanks) == Splitter(PLAIN, [], words)
    decreases |blanks|
  {
    if blanks != [] {
      BlanksAreFed(blanks[1..], words);
    }
  }

  ghost predicate AddsWord(text: string, word: string) {
    && (forall words: seq<string> ::
          FedAll(Splitter(PLAIN, [], words), text) == Splitter(PLAIN, word, words))
    && LeavesPlain(text)
    && Visible(text)
  }

  lemma PlainAddsWord(word: string)
    requires CanBe(word, Plain)
    ensures AddsWord(word, word)
  {
    forall words: seq<string> ensures FedAll(Splitter(PLAIN, [], words), word) == Splitter(PLAIN, word, words) {
      PlainIsFed(word, [], words);
      assert [] + word == word;
    }
    UnmarkedIsKept(word);
  }

  lemma MarkedIsFed(mark: char, word: string, words: seq<string>)
    requires IsQuote(mark) && mark !in word && '\\' !in word
    ensures FedAll(Splitter(PLAIN, [], words), [mark] + word + [mark]) == Splitter(PLAIN, word, words)
  {
    var text := [mark] + (word + [mark]);
    assert [mark] + word + [mark] == text && text[1..] == word + [mark];
    var inside := Splitter(State(Some(mark), false), [], words);
    assert Fed(Splitter(PLAIN, [], words), mark) == inside;
    InMarksIsFed(mark, word, [], words);
    assert [] + word == word;
    FedConcat(inside, word, [mark]);
    MarkCloses(mark, word, words);
  }

  lemma MarkCloses(mark: char, word: string, words: seq<string>)
    requires IsQuote(mark)
    ensures FedAll(Splitter(State(Some(mark), false), word, words), [mark]) == Splitter(PLAIN, word, words)
  {
    assert [mark][1..] == [];
    assert FedAll(Splitter(PLAIN, word, words), []) == Splitter(PLAIN, word, words);
  }

  lemma InMarksAddsWord(mark: char, word: string)
    requires CanBe(word, InMarks(mark))
    ensures AddsWord([mark] + word + [mark], word)
  {
    forall words: seq<string>
      ensures FedAll(Splitter(PLAIN, [], words), [mark] + word + [mark]) == Splitter(PLAIN, word, words)
    {
      MarkedIsFed(mark, word, words);
    }
    QuotedLeavesPlain(mark, word);
  }

  lemma EscapedAddsWord(word: string)
    requires CanBe(word, Escaped)
    ensures AddsWord(Backslashed(word), word)
  {
    forall words: seq<string>
      ensures FedAll(Splitter(PLAIN, [], words), Backslashed(word)) == Splitter(PLAIN, word, words)
    {
      BackslashedIsFed(word, [], words);
      assert [] + word == word;
    }
    BackslashedLeavesPlain(word);
  }

  lemma SpeltAddsWord(e: Token)
    requires CanBe(e.word, e.how)
    ensures AddsWord(Spelt(e.word, e.how), e.word)
  {
    match e.how
    case Plain => PlainAddsWord(e.word);
    case InMarks(mark) => InMarksAddsWord(mark, e.word);
    case Escaped => EscapedAddsWord(e.word);
  }

  lemma GapIsFed(gap: string, word: string, words: seq<string>)
    requires gap != [] && Blanks(gap) && word != []
    ensures FedAll(Splitter(PLAIN, word, words), gap) == Splitter(PLAIN, [], words + [word])
  {
    BlanksAreFed(gap[1..], words + [word]);
  }

  lemma RowStep(tokens: seq<Token>, gaps: seq<string>)
    requires |tokens| > 1 && IsWordRow(tokens, gaps)
    ensures IsWordRow(tokens[1..], gaps[1..])
    ensures WordRow(tokens, gaps) == Spelt(tokens[0].word, tokens[0].how) + (gaps[0] + WordRow(tokens[1..], gaps[1..]))
  {
  }

  lemma OneMoreIsFed(e: Token, gap: string, rest: string, words: seq<string>)
    requires CanBe(e.word, e.how) && gap != [] && Blanks(gap)
    ensures FedAll(Splitter(PLAIN, [], words), Spelt(e.word, e.how) + (gap + rest)) ==
            FedAll(Splitter(PLAIN, [], words + [e.word]), rest)
  {
    SpeltAddsWord(e);
    FedConcat(Splitter(PLAIN, [], words), Spelt(e.word, e.how), gap + rest);
    FedConcat(Splitter(PLAIN, e.word, words), gap, rest);
    GapIsFed(gap, e.word, words);
  }

  lemma LastIsFed(tokens: seq<Token>, gaps: seq<string>, words: seq<string>)
    requires IsWordRow(tokens, gaps) && |tokens| == 1
    ensures Ended(FedAll(Splitter(PLAIN, [], words), WordRow(tokens, gaps))) == words + WordsOf(tokens)
  {
    var text := Spelt(tokens[0].word, tokens[0].how);
    SpeltAddsWord(tokens[0]);
    assert WordRow(tokens, gaps) == text + [] == text;
    assert WordsOf(tokens) == [tokens[0].word];
  }

  lemma {:induction false} RowIsFed(tokens: seq<Token>, gaps: seq<string>, words: seq<string>)
    requires IsWordRow(tokens, gaps) && tokens != []
    ensures Ended(FedAll(Splitter(PLAIN, [], words), WordRow(tokens, gaps))) == words + WordsOf(tokens)
    decreases |tokens|
  {
    if |tokens| == 1 {
      LastIsFed(tokens, gaps, words);
    } else {
      RowStep(tokens, gaps);
      OneMoreIsFed(tokens[0], gaps[0], WordRow(tokens[1..], gaps[1..]), words);
      RowIsFed(tokens[1..], gaps[1..], words + [tokens[0].word]);
      assert WordsOf(tokens) == [tokens[0].word] + WordsOf(tokens[1..]);
      Associates(words, [tokens[0].word], WordsOf(tokens[1..]));
    }
  }

  lemma {:induction false} RowLeavesPlain(tokens: seq<Token>, gaps: seq<string>)
    requires IsWordRow(tokens, gaps) && tokens != []
    ensures LeavesPlain(WordRow(tokens, gaps)) && Visible(WordRow(tokens, gaps))
    ensures WordRow(tokens, gaps)[0] == Spelt(tokens[0].word, tokens[0].how)[0]
    decreases |tokens|
  {
    var first := Spelt(tokens[0].word, tokens[0].how);
    SpeltAddsWord(tokens[0]);
    if |tokens| == 1 {
      assert first + [] == first;
    } else {
      RowStep(tokens, gaps);
      RowLeavesPlain(tokens[1..], gaps[1..]);
      UnmarkedIsKept(gaps[0]);
      PlainConcat(gaps[0], WordRow(tokens[1..], gaps[1..]));
      PlainConcat(first, gaps[0] + WordRow(tokens[1..], gaps[1..]));
    }
  }

  lemma WordsAreRead(l: Layout, key: string, argument: string, line: nat)
    requires IsLayout(l) && IsHostKeyword(key) && CanFollow(l.separator, argument) && LeavesPlain(argument)
    ensures ReadLine(LineText(l, key, argument), line) == HostLine(line, SplitWords(argument))
  {
    EitherCaseIsText(key, "host", "HOST");
    CommentIsStripped(l, key, argument);
    LineIsSplit(l, key, argument);
  }

  /** A Host line is read as exactly its words: bare, in either quotation marks or backslashed, with any white
      space between them, after `Host` in any case. */
  lemma HostLineIsRead(l: Layout, key: string, tokens: seq<Token>, gaps: seq<string>, line: nat)
    requires IsLayout(l) && IsHostKeyword(key) && tokens != [] && IsWordRow(tokens, gaps)
    requires l.separator.Space? ==> Spelt(tokens[0].word, tokens[0].how)[0] != '='
    ensures ReadLine(LineText(l, key, WordRow(tokens, gaps)), line) == HostLine(line, WordsOf(tokens))
  {
    RowLeavesPlain(tokens, gaps);
    RowIsFed(tokens, gaps, []);
    WordsAreRead(l, key, WordRow(tokens, gaps), line);
    assert [] + WordsOf(tokens) == WordsOf(tokens);
  }

  /** A backslash at the very end of a Host line is part of its last word. */
  lemma FinalBackslash(l: Layout, key: string, word: string, line: nat)
    requires IsLayout(l) && IsHostKeyword(key) && l.trail == [] && l.comment == []
    requires CanBe(word, Plain) && (l.separator.Space? ==> word[0] != '=')
    ensures ReadLine(LineText(l, key, word + ['\\']), line) == HostLine(line, [word + ['\\']])
  {
    EitherCaseIsText(key, "host", "HOST");
    BackslashIsKept(l, key, word);
    LineIsSplit(l, key, word + ['\\']);
    PlainIsFed(word, [], []);
    assert [] + word == word;
    FedConcat(Splitter(PLAIN, [], []), word, ['\\']);
    assert ['\\'][1..] == [];
    var open := Splitter(State(None, true), word, []);
    assert Fed(Splitter(PLAIN, word, []), '\\') == open && FedAll(open, []) == open;
  }

  lemma BackslashIsKept(l: Layout, key: string, word: string)
    requires IsLayout(l) && IsKeyText(key) && l.trail == [] && l.comment == [] && Unmarked(word)
    ensures StripComment(LineText(l, key, word + ['\\'])) ==
            l.lead + (l.marks + (key + (Separating(l.separator) + (word + ['\\'])))) + l.trail
  {
    var front := l.lead + l.marks + key + Separating(l.separator);
    var text := front + (word + ['\\']);
    LeadIsUnmarked(l, key);
    UnmarkedIsKept(front + word);
    LastBackslashIsKept(front + word);
    Associates(front, word, ['\\']);
    Regrouped(l.lead, l.marks, key, Separating(l.separator), word + ['\\']);
    assert text + [] == text;
  }

  lemma LastBackslashIsKept(text: string)
    requires Unmarked(text)
    ensures StripComment(text + ['\\']) == text + ['\\']
  {
    UnmarkedIsKept(text);
    KeptConcat(PLAIN, text, ['\\']);
    assert ['\\'][1..] == [];
    assert Kept(PLAIN, ['\\']) == ['\\'];
  }

  // Lines that say nothing

  /** None of the five keywords. */
  predicate IsUnknown(key: string) {
    IsKeyText(key) && !IsHostKeyword(key) && forall field :: !NamesField(key, field)
  }

  lemma LowerLetters(key: string, lower: string, upper: string)
    requires IsKeyText(key) && EqIgnoreAsciiCase(key, lower) && |upper| == |lower|
    requires forall i :: 0 <= i < |lower| ==> 'a' <= lower[i] <= 'z' && upper[i] == (lower[i] as int - 32) as char
    ensures InEitherCase(key, lower, upper)
  {
    forall i | 0 <= i < |key| ensures key[i] == lower[i] || key[i] == upper[i] {
      assert Lower(key[i]) == Lower(lower[i]);
    }
  }

  lemma UnknownHasNoField(key: string)
    requires IsUnknown(key)
    ensures !EqIgnoreAsciiCase(key, "host") && OpenSshParse.FieldOf(key) == None
  {
    assert !NamesField(key, HostName) && !NamesField(key, Port);
    assert !NamesField(key, User) && !NamesField(key, IdentityFile);
    assert !EqIgnoreAsciiCase(key, "host") by {
      if EqIgnoreAsciiCase(key, "host") {
        LowerLetters(key, "host", "HOST");
      }
    }
    assert !EqIgnoreAsciiCase(key, "hostname") by {
      if EqIgnoreAsciiCase(key, "hostname") {
        LowerLetters(key, "hostname", "HOSTNAME");
      }
    }
    assert !EqIgnoreAsciiCase(key, "port") by {
      if EqIgnoreAsciiCase(key, "port") {
        LowerLetters(key, "port", "PORT");
      }
    }
    assert !EqIgnoreAsciiCase(key, "user") by {
      if EqIgnoreAsciiCase(key, "user") {
        LowerLetters(key, "user", "USER");
      }
    }
    assert !EqIgnoreAsciiCase(key, "identityfile") by {
      if EqIgnoreAsciiCase(key, "identityfile") {
        LowerLetters(key, "identityfile", "IDENTITYFILE");
      }
    }
  }

  /** A line with any other keyword is ignored. */
  lemma UnknownIsIgnored(l: Layout, key: string, argument: string, line: nat)
    requires IsLayout(l) && IsUnknown(key) && CanFollow(l.separator, argument) && LeavesPlain(argument)
    ensures ReadLine(LineText(l, key, argument), line) == Ignored
  {
    UnknownHasNoField(key);
    CommentIsStripped(l, key, argument);
    LineIsSplit(l, key, argument);
  }

  predicate IsLoneSeparator(s: Separator) {
    match s
    case Space(blanks) => Blanks(blanks)
    case Equals(before, after) => Blanks(before) && Blanks(after)
  }

  /** A keyword with no argument, with or without an equals sign, says nothing. */
  lemma KeywordAloneIsIgnored(lead: string, key: string, separator: Separator, comment: string, line: nat)
    requires Blanks(lead) && IsKeyText(key) && IsComment(comment) && IsLoneSeparator(separator)
    ensures ReadLine(lead + key + Separating(separator) + comment, line) == Ignored
  {
    CommentIsDropped(lead + key + Separating(separator), comment);
    match separator
    case Space(blanks) =>
      TrimAround(lead, key, blanks);
      NothingFollows(key);
    case Equals(before, after) => EqualsAndNothing(lead, key, before, after);
  }

  lemma CommentIsDropped(text: string, comment: string)
    requires Unmarked(text) && IsComment(comment)
    ensures StripComment(text + comment) == text
  {
    UnmarkedIsKept(text);
    KeptConcat(PLAIN, text, comment);
    assert Kept(PLAIN, comment) == [] && text + [] == text;
  }

  lemma EqualsAndNothing(lead: string, key: string, before: string, after: string)
    requires Blanks(lead) && IsKeyText(key) && Blanks(before) && Blanks(after)
    ensures var text := TrimMarks(Trim(lead + key + (before + ['='] + after)));
            KeyEnd(text) == |key| && text != [] && ValuePart(text[|key|..]) == []
  {
    var sign := before + ['='];
    var text := key + sign;
    assert lead + key + (before + ['='] + after) == lead + text + after;
    TrimAround(lead, text, after);
    KeyEnds(key, sign);
    assert text[|key|..] == sign;
    assert TrimMarks(text) == text;
    TrimStartBlanks(before, ['=']);
    assert Trim([]) == [] && ['='][1..] == [];
  }

  lemma {:induction false} KeyToTheEnd(key: string)
    requires forall i :: 0 <= i < |key| ==> 'a' <= key[i] <= 'z' || 'A' <= key[i] <= 'Z'
    ensures KeyEnd(key) == |key|
  {
    if key != [] {
      KeyToTheEnd(key[1..]);
    }
  }

  lemma NothingFollows(key: string)
    requires IsKeyText(key)
    ensures TrimMarks(key) == key && KeyEnd(key) == |key| && ValuePart(key[|key|..]) == []
  {
    KeyToTheEnd(key);
    assert key[|key|..] == [];
    assert Trim([]) == [];
  }

  /** So is a line with white space and a comment only. */
  lemma CommentIsIgnored(lead: string, comment: string, line: nat)
    requires Blanks(lead) && IsComment(comment)
    ensures ReadLine(lead + comment, line) == Ignored
  {
    CommentIsDropped(lead, comment);
    BlankIsAllWhitespace(lead);
  }

  // Line breaks

  /** Lines end with a line feed, after a carriage return or not; the last one may end with neither. */
  lemma LinesAre(line: string, rest: string)
    requires '\n' !in line && (line == [] || line[|line| - 1] != '\r')
    ensures Lines(line + ['\n'] + rest) == [line] + Lines(rest)
    ensures Lines(line + ['\r', '\n'] + rest) == [line] + Lines(rest)
    ensures Lines(line) == if line == [] then [] else [line]
  {
    FirstLine(line, rest);
    FirstLine(line + ['\r'], rest);
    assert line + ['\r', '\n'] + rest == line + ['\r'] + ['\n'] + rest;
  }
}
