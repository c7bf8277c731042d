/** Building a POSIX shell command line, and the shell's own reading of it. */
module Shell {
  import opened Strings
  import opened Wrappers

  const QUOTED_QUOTE := "'\"'\"'"

  /** `value.replace('\'', "'\"'\"'")` */
  function EscapeQuotes(value: string): string {
    if value == "" then ""
    else (if value[0] == '\'' then QUOTED_QUOTE else [value[0]]) + EscapeQuotes(value[1..])
  }

  function ShellQuote(value: string): string {
    if value == "" then "''" else "'" + EscapeQuotes(value) + "'"
  }

  function QuoteAll(args: seq<string>): (quoted: seq<string>)
    ensures |quoted| == |args|
    ensures forall i :: 0 <= i < |args| ==> quoted[i] == ShellQuote(args[i])
  {
    seq(|args|, i requires 0 <= i < |args| => ShellQuote(args[i]))
  }

  function BuildShellCommand(command: string, args: seq<string>): string {
    Join([ShellQuote(command)] + QuoteAll(args), " ")
  }

  // The reader: token recognition (section 2.3 of the POSIX.1-2017 Shell Command Language)
  // with the quoting rules of sections 2.2.1 to 2.2.3 and quote removal. `word` is the token
  // under construction. `None` means that the input is not a plain list of words: it has an
  // operator, a newline, an expansion or pattern character outside quotes, or an open quote.

  function Words(input: string): Option<seq<string>> {
    Unquoted(input, None)
  }

  function Extend(word: Option<string>, c: char): Option<string> {
    match word case None => Some([c]) case Some(w) => Some(w + [c])
  }

  function Started(word: Option<string>): string {
    match word case None => "" case Some(w) => w
  }

  function Emit(word: Option<string>, later: Option<seq<string>>): Option<seq<string>> {
    match (word, later)
    case (Some(w), Some(ws)) => Some([w] + ws)
    case _ => later
  }

  function Unquoted(s: string, word: Option<string>): Option<seq<string>>
    decreases |s|
  {
    if s == "" then Emit(word, Some([]))
    else if s[0] == '\'' then InSingleQuotes(s[1..], Started(word))
    else if s[0] == '"' then InDoubleQuotes(s[1..], Started(word))
    else if s[0] == '\\' then
      if |s| == 1 then None
      else if s[1] == '\n' then Unquoted(s[2..], word)
      else Unquoted(s[2..], Extend(word, s[1]))
    else if s[0] == ' ' || s[0] == '\t' then Emit(word, Unquoted(s[1..], None))
    else if s[0] in "\n|&;<>()$`*?[~" then None
    else if s[0] == '#' && word == None then Comment(s[1..])
    else Unquoted(s[1..], Extend(word, s[0]))
  }

  /** A comment runs up to the next newline, which is itself not part of it. */
  function Comment(s: string): Option<seq<string>> {
    if s == "" then Some([]) else if s[0] == '\n' then None else Comment(s[1..])
  }

  function InSingleQuotes(s: string, word: string): Option<seq<string>>
    decreases |s|
  {
    if s == "" then None
    else if s[0] == '\'' then Unquoted(s[1..], Some(word))
    else InSingleQuotes(s[1..], word + [s[0]])
  }

  function InDoubleQuotes(s: string, word: string): Option<seq<string>>
    decreases |s|
  {
    if s == "" || s[0] == '$' || s[0] == '`' then None
    else if s[0] == '"' then Unquoted(s[1..], Some(word))
    else if s[0] == '\\' && |s| >= 2 && s[1] == '\n' then InDoubleQuotes(s[2..], word)
    else if s[0] == '\\' && |s| >= 2 && s[1] in "$`\"\\" then InDoubleQuotes(s[2..], word + [s[1]])
    else InDoubleQuotes(s[1..], word + [s[0]])
  }

  /** An escaped quote closes the quotes, adds one quote character, and opens them again. */
  lemma ReadQuotedQuote(rest: string, word: string)
    ensures InSingleQuotes(QUOTED_QUOTE + rest, word) == InSingleQuotes(rest, word + "'")
  {
    var s := QUOTED_QUOTE + rest;
    assert s[1..] == "\"'\"'" + rest;
    assert s[2..] == "'\"'" + rest && s[1..][1..] == s[2..];
    assert s[3..] == "\"'" + rest && s[2..][1..] == s[3..];
    assert s[4..] == "'" + rest && s[3..][1..] == s[4..];
    assert s[4..][1..] == rest;
    calc {
      InSingleQuotes(s, word);
      Unquoted(s[1..], Some(word));
      InDoubleQuotes(s[2..], word);
      InDoubleQuotes(s[3..], word + "'");
      Unquoted(s[4..], Some(word + "'"));
      InSingleQuotes(rest, word + "'");
    }
  }

  lemma {:induction false} ReadEscaped(value: string, rest: string, word: string)
    ensures InSingleQuotes(EscapeQuotes(value) + "'" + rest, word) == Unquoted(rest, Some(word + value))
  {
    var s := EscapeQuotes(value) + "'" + rest;
    if value == "" {
      assert s == "'" + rest && s[1..] == rest;
      assert word + value == word;
    } else {
      var tail := EscapeQuotes(value[1..]) + "'" + rest;
      if value[0] == '\'' {
        assert s == QUOTED_QUOTE + tail;
        ReadQuotedQuote(tail, word);
      } else {
        assert s == [value[0]] + tail && s[1..] == tail;
      }
      ReadEscaped(value[1..], rest, word + [value[0]]);
      assert word + [value[0]] + value[1..] == word + value;
    }
  }

  /** In any unquoted position a quoted value is read back literally, whatever follows it. */
  lemma ReadShellQuote(value: string, rest: string, word: Option<string>)
    ensures Unquoted(ShellQuote(value) + rest, word) == Unquoted(rest, Some(Started(word) + value))
  {
    var s := ShellQuote(value) + rest;
    assert EscapeQuotes("") == "";
    assert s == "'" + (EscapeQuotes(value) + "'" + rest);
    assert s[1..] == EscapeQuotes(value) + "'" + rest;
    ReadEscaped(value, rest, Started(word));
  }

  lemma {:induction false} ReadQuotedList(args: seq<string>)
    requires args != []
    ensures Words(Join(QuoteAll(args), " ")) == Some(args)
  {
    var quoted := QuoteAll(args);
    if |args| == 1 {
      assert quoted[0] + "" == quoted[0];
      ReadShellQuote(args[0], "", None);
      assert "" + args[0] == args[0];
      assert [args[0]] + [] == args;
    } else {
      var rest := Join(quoted[1..], " ");
      assert quoted[1..] == QuoteAll(args[1..]);
      assert quoted[0] + " " + rest == quoted[0] + (" " + rest);
      ReadShellQuote(args[0], " " + rest, None);
      assert (" " + rest)[1..] == rest;
      ReadQuotedList(args[1..]);
      assert "" + args[0] == args[0];
      assert [args[0]] + args[1..] == args;
    }
  }

  /** The shell reads a built command as exactly the command and its arguments. */
  lemma ShellRoundTrip(command: string, args: seq<string>)
    ensures Words(BuildShellCommand(command, args)) == Some([command] + args)
  {
    assert QuoteAll([command] + args) == [ShellQuote(command)] + QuoteAll(args);
    ReadQuotedList([command] + args);
  }

  /** Different commands have different command lines. */
  lemma BuildShellCommandInjective(c: string, a: seq<string>, c': string, a': seq<string>)
    ensures BuildShellCommand(c, a) == BuildShellCommand(c', a') ==> c == c' && a == a'
  {
    ShellRoundTrip(c, a);
    ShellRoundTrip(c', a');
    assert ([c] + a)[1..] == a && ([c'] + a')[1..] == a';
    assert ([c] + a)[0] == c && ([c'] + a')[0] == c';
  }

  /** Characters that the shell reads as themselves inside a word. */
  predicate Plain(c: char) {
    'a' <= c <= 'z' || 'A' <= c <= 'Z' || '0' <= c <= '9' || c == '_' || c == '='
  }

  lemma {:induction false} ReadPlain(prefix: string, rest: string, word: Option<string>)
    requires prefix != "" && forall c :: c in prefix ==> Plain(c)
    ensures Unquoted(prefix + rest, word) == Unquoted(rest, Some(Started(word) + prefix))
  {
    assert prefix[0] in prefix;
    assert (prefix + rest)[1..] == prefix[1..] + rest;
    hide Plain;
    if |prefix| > 1 {
      assert forall c :: c in prefix[1..] ==> c in prefix;
      ReadPlain(prefix[1..], rest, Extend(word, prefix[0]));
      assert Started(word) + prefix == Started(Extend(word, prefix[0])) + prefix[1..];
    } else {
      assert prefix[1..] + rest == rest;
      assert prefix == [prefix[0]];
      assert word == None ==> Started(word) + prefix == prefix;
    }
  }

  /** `format!("OMNI_ENDPOINT={} {}", shell_quote(url), build_shell_command(..))` */
  function OmniCommand(url: string, command: string, args: seq<string>): string {
    "OMNI_ENDPOINT=" + ShellQuote(url) + " " + BuildShellCommand(command, args)
  }

  /** The environment prefix stays one word with the literal URL, and the command is unchanged. */
  lemma OmniCommandRoundTrip(url: string, command: string, args: seq<string>)
    ensures Words(OmniCommand(url, command, args)) == Some(["OMNI_ENDPOINT=" + url, command] + args)
  {
    var rest := " " + BuildShellCommand(command, args);
    assert rest[1..] == BuildShellCommand(command, args);
    assert OmniCommand(url, command, args) == "OMNI_ENDPOINT=" + (ShellQuote(url) + rest);
    ReadPlain("OMNI_ENDPOINT=", ShellQuote(url) + rest, None);
    ReadShellQuote(url, rest, Some("OMNI_ENDPOINT="));
    assert "" + "OMNI_ENDPOINT=" == "OMNI_ENDPOINT=";
    ShellRoundTrip(command, args);
    assert ["OMNI_ENDPOINT=" + url] + ([command] + args) == ["OMNI_ENDPOINT=" + url, command] + args;
  }
}
