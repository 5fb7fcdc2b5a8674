/** Quoting a string for a POSIX shell, and the shell's word splitting that must undo it. */
module ShellQuote {
  import opened Wrappers

  /** Every single quote becomes: close, escaped quote, open. */
  function Escape(value: string): string {
    if value == "" then ""
    else (if value[0] == '\'' then "'\\''" else [value[0]]) + Escape(value[1..])
  }

  /** `shell_quote`. */
  function Quote(value: string): string {
    if value == "" then "''" else "'" + Escape(value) + "'"
  }

  // ----- Word splitting -----

  datatype Mode = Plain | Single | Double

  predicate IsBlank(c: char) {
    c == ' ' || c == '\t' || c == '\n'
  }

  /** Characters with a meaning of their own when they are not quoted. */
  predicate IsSpecial(c: char) {
    c in {'|', '&', ';', '<', '>', '(', ')', '$', '`', '*', '?', '[', '#', '~', '=', '%', '{', '}', '!'}
  }

  /**
   The words of a command line (POSIX.1-2017, Shell Command Language, sections 2.2.1 to 2.2.3). `word` is the word
   being read, if one has begun. None when a quote stays open or something would be expanded.
   */
  function Words(line: string, word: Option<string>, mode: Mode): Option<seq<string>>
    decreases |line|
  {
    var begun := word.UnwrapOr("");
    match mode
    case Single =>
      if line == "" then None
      else if line[0] == '\'' then Words(line[1..], Some(begun), Plain)
      else Words(line[1..], Some(begun + [line[0]]), Single)
    case Double =>
      if line == "" || line[0] == '$' || line[0] == '`' then None
      else if line[0] == '"' then Words(line[1..], Some(begun), Plain)
      else if line[0] == '\\' && |line| > 1 && line[1] in {'$', '`', '"', '\\'} then
        Words(line[2..], Some(begun + [line[1]]), Double)
      else if line[0] == '\\' && |line| > 1 && line[1] == '\n' then Words(line[2..], Some(begun), Double)
      else Words(line[1..], Some(begun + [line[0]]), Double)
    case Plain =>
      if line == "" then Some(if word.Some? then [word.value] else [])
      else if IsBlank(line[0]) then
        var rest := Words(line[1..], None, Plain);
        if word.None? || rest.None? then rest else Some([word.value] + rest.value)
      else if line[0] == '\'' then Words(line[1..], Some(begun), Single)
      else if line[0] == '"' then Words(line[1..], Some(begun), Double)
      else if line[0] == '\\' then
        if |line| == 1 then None
        else if line[1] == '\n' then Words(line[2..], word, Plain)
        else Words(line[2..], Some(begun + [line[1]]), Plain)
      else if IsSpecial(line[0]) then None
      else Words(line[1..], Some(begun + [line[0]]), Plain)
  }

  function Parse(line: string): Option<seq<string>> {
    Words(line, None, Plain)
  }

  /** Inside single quotes an escaped string is read back whole, up to the closing quote. */
  lemma {:induction false} EscapedIsRead(value: string, begun: string, rest: string)
    ensures Words(Escape(value) + "'" + rest, Some(begun), Single) == Words(rest, Some(begun + value), Plain)
    decreases |value|
  {
    var line := Escape(value) + "'" + rest;
    if value == "" {
      assert line == "'" + rest && line[1..] == rest;
      assert begun + value == begun;
    } else {
      var more := Escape(value[1..]) + "'" + rest;
      EscapedIsRead(value[1..], begun + [value[0]], rest);
      assert begun + [value[0]] + value[1..] == begun + value;
      if value[0] == '\'' {
        assert line == "'\\''" + more;
        QuoteIsRead(begun, more);
      } else {
        assert line == [value[0]] + more && line[1..] == more;
      }
    }
  }

  /** The four characters of an escaped quote put one quote into the word and stay inside quotes. */
  lemma {:induction false} QuoteIsRead(begun: string, more: string)
    ensures Words("'\\''" + more, Some(begun), Single) == Words(more, Some(begun + "'"), Single)
  {
    var line := "'\\''" + more;
    assert line[1..] == "\\''" + more;
    assert line[1..][2..] == "'" + more;
    assert ("'" + more)[1..] == more;
    assert Words(line, Some(begun), Single) == Words("\\''" + more, Some(begun), Plain);
    assert Words("\\''" + more, Some(begun), Plain) == Words("'" + more, Some(begun + "'"), Plain);
  }

  /** A quoted string is read back, whatever follows it. */
  lemma {:induction false} QuotedIsRead(value: string, rest: string)
    ensures Words(Quote(value) + rest, None, Plain) == Words(rest, Some(value), Plain)
  {
    var line := Quote(value) + rest;
    if value == "" {
      assert line == "''" + rest && line[1..] == "'" + rest && line[1..][1..] == rest;
    } else {
      assert line == "'" + (Escape(value) + "'" + rest);
      assert line[1..] == Escape(value) + "'" + rest;
      EscapedIsRead(value, "", rest);
      assert "" + value == value;
    }
  }

  /** For every string the quoted form is exactly one word, the string itself. */
  lemma {:induction false} QuoteRoundTrip(value: string)
    ensures Parse(Quote(value)) == Some([value])
  {
    QuotedIsRead(value, "");
    assert Quote(value) + "" == Quote(value);
  }

  // ----- Command lines -----

  function CommandLine(arguments: seq<string>): string {
    if arguments == [] then ""
    else if |arguments| == 1 then Quote(arguments[0])
    else Quote(arguments[0]) + (" " + CommandLine(arguments[1..]))
  }

  /** Quoted arguments put side by side keep apart: the line parses to exactly the arguments, in order. */
  lemma {:induction false} CommandLineRoundTrip(arguments: seq<string>)
    ensures Parse(CommandLine(arguments)) == Some(arguments)
  {
    if |arguments| == 1 {
      QuoteRoundTrip(arguments[0]);
      assert [arguments[0]] == arguments;
    } else if |arguments| > 1 {
      var rest := CommandLine(arguments[1..]);
      CommandLineRoundTrip(arguments[1..]);
      QuotedIsRead(arguments[0], " " + rest);
      var line := " " + rest;
      assert line != "" && IsBlank(line[0]) && line[1..] == rest;
      assert CommandLine(arguments) == Quote(arguments[0]) + line;
      assert Words(line, Some(arguments[0]), Plain) == Some([arguments[0]] + arguments[1..]);
      assert [arguments[0]] + arguments[1..] == arguments;
    }
  }

  /** So no two strings are quoted alike. */
  lemma {:induction false} QuoteInjective(a: string, b: string)
    requires Quote(a) == Quote(b)
    ensures a == b
  {
    QuoteRoundTrip(a);
    QuoteRoundTrip(b);
  }
}
