/** The two hand-written scanners of the OpenSSH importer and the lines they run on
    (apps/desktop/src-tauri/src/openssh_import.rs, `strip_comment`, `split_words`). */
module OpenSshScan {
  import opened Wrappers
  import opened Text
  import opened Sequences

  /** The open quotation mark, and whether the last character was an active backslash. */
  datatype State = State(quote: Option<char>, escaped: bool)

  const PLAIN := State(None, false)

  predicate IsQuote(c: char) {
    c == '\'' || c == '"'
  }

  /** How both scanners see one character. */
  function Next(s: State, c: char): State {
    if s.escaped then s.(escaped := false)
    else if c == '\\' then s.(escaped := true)
    else if IsQuote(c) then
      if s.quote == Some(c) then s.(quote := None)
      else if s.quote.None? then s.(quote := Some(c))
      else s
    else s
  }

  function Scanned(s: State, text: string): State
    decreases |text|
  {
    if text == [] then s else Scanned(Next(s, text[0]), text[1..])
  }

  lemma {:induction false} ScannedConcat(s: State, a: string, b: string)
    ensures Scanned(s, a + b) == Scanned(Scanned(s, a), b)
    decreases |a|
  {
    if a == [] {
      assert a + b == b;
    } else {
      assert (a + b)[1..] == a[1..] + b;
      ScannedConcat(Next(s, a[0]), a[1..], b);
    }
  }

  lemma ScannedNext(s: State, text: string, i: nat)
    requires i < |text|
    ensures Scanned(s, text[..i + 1]) == Next(Scanned(s, text[..i]), text[i])
  {
    assert text[..i + 1] == text[..i] + [text[i]];
    ScannedConcat(s, text[..i], [text[i]]);
  }

  /** A '#' outside quotation marks, not escaped. */
  predicate StartsComment(s: State, c: char) {
    c == '#' && !s.escaped && s.quote.None?
  }

  function Kept(s: State, text: string): string
    decreases |text|
  {
    if text == [] || StartsComment(s, text[0]) then [] else [text[0]] + Kept(Next(s, text[0]), text[1..])
  }

  function StripComment(line: string): string {
    Kept(PLAIN, line)
  }

  /** Where the comment starts, if there is one. */
  ghost predicate CommentAt(s: State, text: string, i: nat) {
    && i <= |text|
    && (forall j :: 0 <= j < i ==> !StartsComment(Scanned(s, text[..j]), text[j]))
    && (i < |text| ==> StartsComment(Scanned(s, text[..i]), text[i]))
  }

  /** Stripping keeps exactly what precedes the first '#' that is neither quoted nor escaped. */
  lemma {:induction false} KeptIsPrefix(s: State, text: string, i: nat)
    requires CommentAt(s, text, i)
    ensures Kept(s, text) == text[..i]
    decreases |text|
  {
    if text != [] {
      assert text[..0] == [];
      if i > 0 {
        var rest := text[1..];
        forall j | 0 <= j < i - 1 ensures !StartsComment(Scanned(Next(s, text[0]), rest[..j]), rest[j]) {
          assert text[..j + 1] == [text[0]] + rest[..j];
          assert !StartsComment(Scanned(s, text[..j + 1]), text[j + 1]);
        }
        assert text[..i] == [text[0]] + rest[..i - 1];
        KeptIsPrefix(Next(s, text[0]), rest, i - 1);
      }
    }
  }

  method StripCommentLoop(line: string) returns (kept: string)
    ensures kept == StripComment(line)
  {
    var quote: Option<char> := None;
    var escaped := false;
    for index := 0 to |line|
      invariant State(quote, escaped) == Scanned(PLAIN, line[..index])
      invariant forall j :: 0 <= j < index ==> !StartsComment(Scanned(PLAIN, line[..j]), line[j])
    {
      var character := line[index];
      ScannedNext(PLAIN, line, index);
      if escaped {
        escaped := false;
      } else if character == '\\' {
        escaped := true;
      } else if character == '\'' || character == '"' {
        if quote == Some(character) {
          quote := None;
        } else if quote.None? {
          quote := Some(character);
        }
      } else if character == '#' && quote.None? {
        KeptIsPrefix(PLAIN, line, index);
        return line[..index];
      }
    }
    KeptIsPrefix(PLAIN, line, |line|);
    kept := line;
  }

  lemma {:induction false} KeptConcat(s: State, a: string, b: string)
    requires Kept(s, a) == a
    ensures Kept(s, a + b) == a + Kept(Scanned(s, a), b)
    decreases |a|
  {
    if a == [] {
      assert a + b == b;
    } else {
      assert (a + b)[1..] == a[1..] + b;
      KeptConcat(Next(s, a[0]), a[1..], b);
    }
  }

  /** Neither quoting nor escaping nor starting a comment. */
  predicate Unmarked(text: string) {
    forall i :: 0 <= i < |text| ==> !IsQuote(text[i]) && text[i] != '\\' && text[i] != '#'
  }

  lemma {:induction false} UnmarkedIsKept(text: string)
    requires Unmarked(text)
    ensures Kept(PLAIN, text) == text && Scanned(PLAIN, text) == PLAIN
  {
    if text != [] {
      UnmarkedIsKept(text[1..]);
    }
  }

  lemma {:induction false} InQuotesKept(s: State, value: string)
    requires s.quote.Some? && IsQuote(s.quote.value) && s.quote.value !in value
    ensures Kept(s, value) == value && Scanned(s, value).quote == s.quote
    ensures !s.escaped && '\\' !in value ==> Scanned(s, value) == s
    decreases |value|
  {
    if value != [] {
      assert value[0] in value;
      InQuotesKept(Next(s, value[0]), value[1..]);
    }
  }

  // Words

  datatype Splitter = Splitter(state: State, current: string, words: seq<string>)

  function Fed(p: Splitter, c: char): Splitter {
    var onward := p.(state := Next(p.state, c));
    if p.state.escaped then onward.(current := p.current + [c])
    else if c == '\\' then onward
    else if IsQuote(c) then
      if p.state.quote == Some(c) || p.state.quote.None? then onward else onward.(current := p.current + [c])
    else if IsWhitespace(c) && p.state.quote.None? then
      if p.current == [] then onward else onward.(current := [], words := p.words + [p.current])
    else onward.(current := p.current + [c])
  }

  function FedAll(p: Splitter, text: string): Splitter
    decreases |text|
  {
    if text == [] then p else FedAll(Fed(p, text[0]), text[1..])
  }

  /** A backslash at the very end stands for itself. */
  function Ended(p: Splitter): seq<string> {
    var last := if p.state.escaped then p.current + ['\\'] else p.current;
    if last == [] then p.words else p.words + [last]
  }

  function SplitWords(value: string): seq<string> {
    Ended(FedAll(Splitter(PLAIN, [], []), value))
  }

  lemma {:induction false} FedConcat(p: Splitter, a: string, b: string)
    ensures FedAll(p, a + b) == FedAll(FedAll(p, a), b)
    decreases |a|
  {
    if a == [] {
      assert a + b == b;
    } else {
      assert (a + b)[1..] == a[1..] + b;
      FedConcat(Fed(p, a[0]), a[1..], b);
    }
  }

  /** On every prefix the word splitter is in the state the comment scanner would be in. */
  lemma {:induction false} SameStates(p: Splitter, text: string)
    ensures FedAll(p, text).state == Scanned(p.state, text)
    decreases |text|
  {
    if text != [] {
      SameStates(Fed(p, text[0]), text[1..]);
    }
  }

  method SplitWordsLoop(value: string) returns (words: seq<string>)
    ensures words == SplitWords(value)
  {
    words := [];
    var current: string := [];
    var quote: Option<char> := None;
    var escaped := false;
    ghost var start := Splitter(PLAIN, [], []);
    for index := 0 to |value|
      invariant Splitter(State(quote, escaped), current, words) == FedAll(start, value[..index])
      invariant State(quote, escaped) == Scanned(PLAIN, value[..index])
    {
      var character := value[index];
      assert value[..index + 1] == value[..index] + [character];
      FedConcat(start, value[..index], [character]);
      SameStates(start, value[..index + 1]);
      if escaped {
        current := current + [character];
        escaped := false;
      } else if character == '\\' {
        escaped := true;
      } else if character == '\'' || character == '"' {
        if quote == Some(character) {
          quote := None;
        } else if quote.None? {
          quote := Some(character);
        } else {
          current := current + [character];
        }
      } else if IsWhitespace(character) && quote.None? {
        if current != [] {
          words, current := words + [current], [];
        }
      } else {
        current := current + [character];
      }
    }
    assert value[..|value|] == value;
    if escaped {
      current := current + ['\\'];
    }
    if current != [] {
      words := words + [current];
    }
  }

  // Lines

  /** A carriage return right before a line feed belongs to the line break. */
  function WithoutReturn(line: string): string {
    if line != [] && line[|line| - 1] == '\r' then line[..|line| - 1] else line
  }

  function BreakAt(source: string): (k: nat)
    ensures k <= |source|
    ensures forall i :: 0 <= i < k ==> source[i] != '\n'
    ensures k < |source| ==> source[k] == '\n'
  {
    if source == [] || source[0] == '\n' then 0 else 1 + BreakAt(source[1..])
  }

  /** `str::lines` */
  function Lines(source: string): seq<string> {
    if source == [] then []
    else
      var k := BreakAt(source);
      if k == |source| then [source] else [WithoutReturn(source[..k])] + Lines(source[k + 1..])
  }

  lemma FirstLine(line: string, rest: string)
    requires '\n' !in line
    ensures Lines(line + ['\n'] + rest) == [WithoutReturn(line)] + Lines(rest)
  {
    var source := line + ['\n'] + rest;
    var k := BreakAt(source);
    assert source[|line|] == '\n';
    assert forall i :: 0 <= i < |line| ==> source[i] == line[i] && line[i] in line;
    assert source[..k] == line && source[k + 1..] == rest;
  }

  ghost predicate EndsLine(source: string) {
    source == [] || source[|source| - 1] == '\n'
  }

  lemma TwoParts(a: string) returns (line: string, rest: string)
    requires EndsLine(a) && a != []
    ensures a == line + ['\n'] + rest && '\n' !in line && EndsLine(rest)
  {
    var k := BreakAt(a);
    line, rest := a[..k], a[k + 1..];
    assert rest != [] ==> rest[|rest| - 1] == a[|a| - 1];
  }

  /** Text that ends its last line can be followed by more text. */
  lemma {:induction false} LinesConcat(a: string, b: string)
    requires EndsLine(a)
    ensures Lines(a + b) == Lines(a) + Lines(b)
    decreases |a|
  {
    if a == [] {
      assert a + b == b;
    } else {
      var line, rest := TwoParts(a);
      Associates(line + ['\n'], rest, b);
      FirstLine(line, rest);
      FirstLine(line, rest + b);
      LinesConcat(rest, b);
      Associates([WithoutReturn(line)], Lines(rest), Lines(b));
    }
  }
}
