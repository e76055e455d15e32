/** Splitting a raw build command line into the command and the rest of its arguments. */
module CommandLines {
  import opened Wrappers
  import opened Text

  /** A tokenized command line: the command as written (without quotes) and the
      unparsed remainder. */
  datatype CommandLine = CommandLine(command: string, arguments: string)

  /** Why no command could be isolated. */
  datatype Malformed = BlankCommandLine | UnterminatedQuote(quote: char)

  predicate IsQuote(c: char) {
    c == '"' || c == '\''
  }

  predicate NoQuote(s: string) {
    forall i :: 0 <= i < |s| ==> !IsQuote(s[i])
  }

  /** Tokenizes a command line. After leading whitespace, a command opened by a double
      or single quote runs to the next occurrence of the same quote and keeps everything
      in between verbatim (spaces, `;` and backslashes included); an unquoted command
      runs to the first whitespace character or to the end of the line. The arguments
      are what follows, with leading whitespace removed. */
  function Tokenize(line: string): (r: Result<CommandLine, Malformed>)
    ensures r.Ok? ==> var s := TrimLeft(line);
      && s != []
      && (IsQuote(s[0]) ==> s[0] !in r.value.command)
      && (!IsQuote(s[0]) ==> r.value.command != [] && NoWhitespace(r.value.command))
    ensures r.Ok? ==> r.value.arguments == [] || !IsWhitespace(r.value.arguments[0])
  {
    TokenizeTrimmed(TrimLeft(line))
  }

  /** Tokenizes a line that starts with its command (no leading whitespace). */
  function TokenizeTrimmed(s: string): Result<CommandLine, Malformed>
  {
    if s == [] then Err(BlankCommandLine)
    else if IsQuote(s[0]) then
      match IndexOf(s[1..], s[0])
      case None => Err(UnterminatedQuote(s[0]))
      case Some(j) =>
        assert s[1..][..j] == s[1..j + 1];
        Ok(CommandLine(s[1..j + 1], TrimLeft(s[j + 2..])))
    else
      var k := FirstWhitespace(s);
      Ok(CommandLine(s[..k], TrimLeft(s[k..])))
  }

  /** Only a line made of whitespace alone yields no command at all. */
  lemma TokenizeBlank(line: string)
    ensures Tokenize(line) == Err(BlankCommandLine) <==> AllWhitespace(line)
  {
    var s := TrimLeft(line);
    if s == [] {
      assert line == line[..|line| - |s|];
    }
  }

  /** Whitespace in front of the command is ignored. */
  lemma TokenizeSkipsLeadingWhitespace(ws: string, line: string)
    requires AllWhitespace(ws)
    ensures Tokenize(ws + line) == Tokenize(line)
  {
    TrimLeftSkipsWhitespace(ws, line);
  }

  /** An unquoted command ends at the first whitespace: the command is exactly `cmd`
      and the arguments are `more` without its leading whitespace, whatever `more`
      holds (another path naming a compiler, for one). */
  lemma TokenizeUnquoted(cmd: string, more: string)
    requires cmd != [] && !IsQuote(cmd[0]) && NoWhitespace(cmd)
    requires more == [] || IsWhitespace(more[0])
    ensures Tokenize(cmd + more) == Ok(CommandLine(cmd, TrimLeft(more)))
  {
    var s := cmd + more;
    assert TrimLeft(s) == s;
    assert s[..|cmd|] == cmd && s[|cmd|..] == more;
    FirstWhitespaceAt(s, |cmd|);
  }

  lemma QuotedConcat(q: char, cmd: string, more: string)
    ensures [q] + cmd + [q] + more == [q] + (cmd + [q] + more)
  {
  }

  lemma TrimLeftKeepsQuote(q: char, t: string)
    requires IsQuote(q)
    ensures TrimLeft([q] + t) == [q] + t
  {
  }

  lemma TokenizeTrimmedQuoted(q: char, cmd: string, more: string)
    requires IsQuote(q) && q !in cmd
    ensures TokenizeTrimmed([q] + (cmd + [q] + more)) == Ok(CommandLine(cmd, TrimLeft(more)))
  {
    var t := cmd + [q] + more;
    var s := [q] + t;
    assert s[1..] == t;
    assert t[..|cmd|] == cmd;
    IndexOfAt(t, q, |cmd|);
    assert s[1..|cmd| + 1] == cmd;
    assert s[|cmd| + 2..] == more;
  }

  /** A quoted command is exactly the text between the quotes, spaces, semicolons and
      backslashes included. */
  lemma TokenizeQuoted(q: char, cmd: string, more: string)
    requires IsQuote(q) && q !in cmd
    ensures Tokenize([q] + cmd + [q] + more) == Ok(CommandLine(cmd, TrimLeft(more)))
  {
    QuotedConcat(q, cmd, more);
    TrimLeftKeepsQuote(q, cmd + [q] + more);
    TokenizeTrimmedQuoted(q, cmd, more);
  }

  /** A quote that is never closed leaves no command. */
  lemma TokenizeUnterminated(q: char, rest: string)
    requires IsQuote(q) && q !in rest
    ensures Tokenize([q] + rest) == Err(UnterminatedQuote(q))
  {
    var s := [q] + rest;
    assert TrimLeft(s) == s;
    assert s[1..] == rest;
  }

  /** The quoted and the unquoted spelling of a plain command tokenize alike. */
  lemma QuotingKeepsCommand(q: char, cmd: string, more: string)
    requires IsQuote(q)
    requires cmd != [] && !IsQuote(cmd[0]) && NoWhitespace(cmd) && q !in cmd
    requires more == [] || IsWhitespace(more[0])
    ensures Tokenize([q] + cmd + [q] + more) == Tokenize(cmd + more)
  {
    TokenizeQuoted(q, cmd, more);
    TokenizeUnquoted(cmd, more);
  }

  /** Whether a command has to be quoted to survive tokenization. */
  predicate NeedsQuotes(cmd: string) {
    cmd == [] || IsQuote(cmd[0]) || !NoWhitespace(cmd)
  }

  /** A command line that `Render` can write back: the command holds no double quote
      and the arguments do not start with whitespace. */
  predicate Renderable(cl: CommandLine) {
    '"' !in cl.command && (cl.arguments == [] || !IsWhitespace(cl.arguments[0]))
  }

  /** Writes a command line the way a build tool would: the command double-quoted
      when it needs it, then a space and the arguments. */
  function Render(cl: CommandLine): string
    requires '"' !in cl.command
  {
    (if NeedsQuotes(cl.command) then "\"" + cl.command + "\"" else cl.command)
    + (if cl.arguments == [] then "" else " " + cl.arguments)
  }

  /** Tokenizing a rendered command line gives back the command line. */
  lemma TokenizeRender(cl: CommandLine)
    requires Renderable(cl)
    ensures Tokenize(Render(cl)) == Ok(cl)
  {
    var more := if cl.arguments == [] then "" else " " + cl.arguments;
    assert TrimLeft(more) == cl.arguments by {
      if cl.arguments != [] {
        assert more[1..] == cl.arguments;
      }
    }
    if NeedsQuotes(cl.command) {
      TokenizeQuoted('"', cl.command, more);
      assert Render(cl) == ['"'] + cl.command + ['"'] + more;
    } else {
      TokenizeUnquoted(cl.command, more);
    }
  }
}
