// Printing an argument list as one line that a POSIX shell splits back into the same arguments.
module ShellQuote {
  import opened Common

  predicate IsSafe(c: char) {
    || 'a' <= c <= 'z' || 'A' <= c <= 'Z' || '0' <= c <= '9'
    || c == '-' || c == '_' || c == '.' || c == '/' || c == '=' || c == '+' || c == ':' || c == '@'
  }

  predicate AllSafe(s: string) { forall i :: 0 <= i < |s| ==> IsSafe(s[i]) }

  /** Every single quote becomes: end of quoting, an escaped quote, start of quoting. */
  function EscapeQuotes(s: string): string {
    if s == "" then "" else (if s[0] == '\'' then ['\'', '\\', '\'', '\''] else [s[0]]) + EscapeQuotes(s[1..])
  }

  function Quote(s: string): string {
    if s == "" then ['\'', '\'']
    else if AllSafe(s) then s
    else ['\''] + EscapeQuotes(s) + ['\'']
  }

  function Join(parts: seq<string>): string {
    if parts == [] then ""
    else if |parts| == 1 then Quote(parts[0])
    else Quote(parts[0]) + [' '] + Join(parts[1..])
  }

  // ---- Token recognition: sections 2.2 and 2.3 of the POSIX shell command language ----

  /** Characters that the shell treats specially when they are not quoted, apart from blanks and quoting itself. */
  predicate IsOperator(c: char) {
    || c == '|' || c == '&' || c == ';' || c == '<' || c == '>' || c == '(' || c == ')' || c == '$' || c == '`'
    || c == '"' || c == '*' || c == '?' || c == '[' || c == '#' || c == '~' || c == '%' || c == '!' || c == '{'
    || c == '}' || c == '\n'
  }

  predicate IsBlank(c: char) { c == ' ' || c == '\t' }

  /** Between words, inside a word, or inside single quotes of a word. */
  datatype State = Between | InWord(word: string) | InQuotes(word: string)

  function Word(st: State): string { if st.Between? then "" else st.word }

  /** The words of `s`; nothing for an open quote or a character outside this fragment of the language. */
  function Split(s: string, st: State): Option<seq<string>>
    decreases |s|
  {
    if st.InQuotes? then
      if s == "" then None
      else if s[0] == '\'' then Split(s[1..], InWord(st.word))
      else Split(s[1..], InQuotes(st.word + [s[0]]))
    else if s == "" then Some(if st.InWord? then [st.word] else [])
    else if IsBlank(s[0]) then
      var rest := Split(s[1..], Between);
      if rest.None? then None else Some((if st.InWord? then [st.word] else []) + rest.value)
    else if s[0] == '\'' then Split(s[1..], InQuotes(Word(st)))
    else if s[0] == '\\' then
      if |s| < 2 || s[1] == '\n' then None else Split(s[2..], InWord(Word(st) + [s[1]]))
    else if IsOperator(s[0]) then None
    else Split(s[1..], InWord(Word(st) + [s[0]]))
  }

  lemma SafeStep(c: char, rest: string, st: State)
    requires IsSafe(c) && !st.InQuotes?
    ensures Split([c] + rest, st) == Split(rest, InWord(Word(st) + [c]))
  {
    assert ([c] + rest)[1..] == rest;
  }

  lemma {:induction false} SafeRun(s: string, rest: string, word: string)
    requires AllSafe(s)
    ensures Split(s + rest, InWord(word)) == Split(rest, InWord(word + s))
    decreases |s|
  {
    if s == "" {
      assert s + rest == rest && word + s == word;
    } else {
      assert s + rest == [s[0]] + (s[1..] + rest);
      SafeStep(s[0], s[1..] + rest, InWord(word));
      SafeRun(s[1..], rest, word + [s[0]]);
      assert word + [s[0]] + s[1..] == word + s;
    }
  }

  lemma QuoteInside(rest: string, word: string)
    ensures Split(['\'', '\\', '\'', '\''] + rest, InQuotes(word)) == Split(rest, InQuotes(word + ['\'']))
  {
    var text := ['\'', '\\', '\'', '\''] + rest;
    assert text[1..][2..] == ['\''] + rest;
    assert (['\''] + rest)[1..] == rest;
    assert Split(text, InQuotes(word)) == Split(text[1..], InWord(word));
    assert Split(text[1..], InWord(word)) == Split(['\''] + rest, InWord(word + ['\'']));
  }

  lemma {:induction false} QuotedRun(s: string, rest: string, word: string)
    ensures Split(EscapeQuotes(s) + ['\''] + rest, InQuotes(word)) == Split(rest, InWord(word + s))
    decreases |s|
  {
    var text := EscapeQuotes(s) + ['\''] + rest;
    if s == "" {
      assert text == ['\''] + rest && text[1..] == rest && word + s == word;
    } else {
      var tail := EscapeQuotes(s[1..]) + ['\''] + rest;
      assert word + [s[0]] + s[1..] == word + s;
      QuotedRun(s[1..], rest, word + [s[0]]);
      if s[0] == '\'' {
        assert text == ['\'', '\\', '\'', '\''] + tail;
        QuoteInside(tail, word);
      } else {
        assert text == [s[0]] + tail && text[1..] == tail;
      }
    }
  }

  lemma OpenQuote(rest: string)
    ensures Split(['\''] + rest, Between) == Split(rest, InQuotes(""))
  {
    assert (['\''] + rest)[1..] == rest;
  }

  lemma QuotedWord(s: string, rest: string)
    ensures Split(['\''] + EscapeQuotes(s) + ['\''] + rest, Between) == Split(rest, InWord(s))
  {
    var tail := EscapeQuotes(s) + ['\''] + rest;
    assert ['\''] + EscapeQuotes(s) + ['\''] + rest == ['\''] + tail;
    OpenQuote(tail);
    QuotedRun(s, rest, "");
    assert "" + s == s;
  }

  lemma SafeWord(s: string, rest: string)
    requires AllSafe(s) && s != ""
    ensures Split(s + rest, Between) == Split(rest, InWord(s))
  {
    assert s + rest == [s[0]] + (s[1..] + rest);
    SafeStep(s[0], s[1..] + rest, Between);
    SafeRun(s[1..], rest, "" + [s[0]]);
    assert "" + [s[0]] + s[1..] == s;
  }

  /** One quoted argument is one word, whatever its characters. */
  lemma OneWord(s: string, rest: string)
    ensures Split(Quote(s) + rest, Between) == Split(rest, InWord(s))
  {
    if AllSafe(s) && s != "" {
      SafeWord(s, rest);
    } else {
      QuotedWord(s, rest);
      assert Quote(s) == ['\''] + EscapeQuotes(s) + ['\''];
    }
  }

  lemma BlankEndsWord(word: string, rest: string, words: seq<string>)
    requires Split(rest, Between) == Some(words)
    ensures Split([' '] + rest, InWord(word)) == Some([word] + words)
    ensures Split("", InWord(word)) == Some([word])
  {
    assert ([' '] + rest)[1..] == rest;
  }

  lemma LastWord(word: string)
    ensures Split(Quote(word), Between) == Some([word])
  {
    OneWord(word, "");
    assert Quote(word) + "" == Quote(word);
    BlankEndsWord(word, "", []);
  }

  lemma FirstWord(word: string, rest: string, words: seq<string>)
    requires Split(rest, Between) == Some(words)
    ensures Split(Quote(word) + ([' '] + rest), Between) == Some([word] + words)
  {
    OneWord(word, [' '] + rest);
    BlankEndsWord(word, rest, words);
  }

  lemma JoinStep(parts: seq<string>)
    requires |parts| > 1
    ensures Join(parts) == Quote(parts[0]) + ([' '] + Join(parts[1..]))
  {
    Associative(Quote(parts[0]), [' '], Join(parts[1..]));
  }

  /** The printed line splits back into exactly the arguments, for every list of arguments. */
  lemma {:induction false} SplitAfterJoin(parts: seq<string>)
    ensures Split(Join(parts), Between) == Some(parts)
  {
    if parts == [] {
    } else if |parts| == 1 {
      LastWord(parts[0]);
      assert parts == [parts[0]];
    } else {
      SplitAfterJoin(parts[1..]);
      FirstWord(parts[0], Join(parts[1..]), parts[1..]);
      JoinStep(parts);
      assert [parts[0]] + parts[1..] == parts;
    }
  }
}
