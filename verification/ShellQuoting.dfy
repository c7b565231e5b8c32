/** The command line a training job is started with, and the reading of it by a shell:
    sections 2.2 (quoting) and 2.3 (token recognition) of the POSIX.1-2017 Shell Command
    Language, with the quote removal of section 2.6.7. */
module ShellQuoting {
  import opened Basics

  // ----- Printing -----

  /** Every single quote is closed over, written between double quotes, and reopened. */
  function Escaped(value: string): string {
    if value == "" then ""
    else (if value[0] == '\'' then "'\"'\"'" else [value[0]]) + Escaped(value[1..])
  }

  function Quoted(value: string): string {
    "'" + Escaped(value) + "'"
  }

  function Joined(words: seq<string>): string {
    if |words| == 0 then "" else if |words| == 1 then words[0] else words[0] + " " + Joined(words[1..])
  }

  function CommandLine(args: seq<string>): string {
    Joined(seq(|args|, i requires 0 <= i < |args| => Quoted(args[i])))
  }

  method ShellCommand(values: seq<string>) returns (command: string)
    ensures command == CommandLine(values)
  {
    var quoted := new string[|values|];
    for i := 0 to |values|
      invariant forall k :: 0 <= k < i ==> quoted[k] == Quoted(values[k])
    {
      quoted[i] := "'" + Escaped(values[i]) + "'";
    }
    assert quoted[..] == seq(|values|, i requires 0 <= i < |values| => Quoted(values[i]));
    command := Joined(quoted[..]);
  }

  // ----- Reading -----

  datatype Mode = Plain | InSingle | InDouble

  /** Characters that unquoted make an operator or ask for an expansion; a line with one
      of them is no plain list of words. */
  predicate IsSpecial(c: char) {
    c in "|&;<>()$`*?[]~#={}!\n"
  }

  predicate EscapesInDouble(c: char) {
    c in "$`\"\\"
  }

  function Ended(words: seq<string>, word: Option<string>): seq<string> {
    if word.None? then words else words + [word.value]
  }

  function Grown(word: Option<string>, c: char): Option<string> {
    Some((if word.None? then "" else word.value) + [c])
  }

  function Begun(word: Option<string>): Option<string> {
    if word.None? then Some("") else word
  }

  /** Reads the rest of a line: the words read so far and the one under way, if any.
      None: the line is not a complete list of plain words. */
  function Read(line: string, mode: Mode, words: seq<string>, word: Option<string>): Option<seq<string>>
    decreases |line|
  {
    if line == "" then
      if mode == Plain then Some(Ended(words, word)) else None
    else
      var c, rest := line[0], line[1..];
      match mode
      case Plain =>
        if c == '\'' then Read(rest, InSingle, words, Begun(word))
        else if c == '\"' then Read(rest, InDouble, words, Begun(word))
        else if c == '\\' then
          if rest == "" then None
          else if rest[0] == '\n' then Read(rest[1..], Plain, words, word)
          else Read(rest[1..], Plain, words, Grown(word, rest[0]))
        else if c == ' ' || c == '\t' then Read(rest, Plain, Ended(words, word), None)
        else if IsSpecial(c) then None
        else Read(rest, Plain, words, Grown(word, c))
      case InSingle =>
        if c == '\'' then Read(rest, Plain, words, word) else Read(rest, InSingle, words, Grown(word, c))
      case InDouble =>
        if c == '\"' then Read(rest, Plain, words, word)
        else if c == '$' || c == '`' then None
        else if c == '\\' && rest != "" && rest[0] == '\n' then Read(rest[1..], InDouble, words, word)
        else if c == '\\' && rest != "" && EscapesInDouble(rest[0])
        then Read(rest[1..], InDouble, words, Grown(word, rest[0]))
        else Read(rest, InDouble, words, Grown(word, c))
  }

  function Words(line: string): Option<seq<string>> {
    Read(line, Plain, [], None)
  }

  // ----- Reading undoes printing -----

  lemma ReadEscapedQuote(rest: string, words: seq<string>, word: string)
    ensures Read("'\"'\"'" + rest, InSingle, words, Some(word)) == Read(rest, InSingle, words, Some(word + ['\'']))
  {
    var line := "'\"'\"'" + rest;
    assert line[1..] == "\"'\"'" + rest;
    assert line[1..][1..] == "'\"'" + rest;
    assert line[1..][1..][1..] == "\"'" + rest;
    assert line[1..][1..][1..][1..] == "'" + rest;
    assert line[1..][1..][1..][1..][1..] == rest;
    calc {
      Read(line, InSingle, words, Some(word));
      Read("\"'\"'" + rest, Plain, words, Some(word));
      Read("'\"'" + rest, InDouble, words, Some(word));
      Read("\"'" + rest, InDouble, words, Some(word + ['\'']));
      Read("'" + rest, Plain, words, Some(word + ['\'']));
      Read(rest, InSingle, words, Some(word + ['\'']));
    }
  }

  lemma {:induction false} ReadEscaped(value: string, rest: string, words: seq<string>, word: string)
    ensures Read(Escaped(value) + "'" + rest, InSingle, words, Some(word)) ==
              Read(rest, Plain, words, Some(word + value))
  {
    var line := Escaped(value) + "'" + rest;
    if value == "" {
      assert line == "'" + rest && line[1..] == rest && word + value == word;
    } else {
      var tail := Escaped(value[1..]) + "'" + rest;
      ReadEscaped(value[1..], rest, words, word + [value[0]]);
      assert word + [value[0]] + value[1..] == word + value;
      if value[0] == '\'' {
        assert line == "'\"'\"'" + tail;
        ReadEscapedQuote(tail, words, word);
      } else {
        assert line == [value[0]] + tail && line[1..] == tail;
      }
    }
  }

  lemma ReadQuoted(value: string, rest: string, words: seq<string>)
    ensures Read(Quoted(value) + rest, Plain, words, None) == Read(rest, Plain, words, Some(value))
  {
    var line := Quoted(value) + rest;
    assert line[1..] == Escaped(value) + "'" + rest;
    ReadEscaped(value, rest, words, "");
    assert "" + value == value;
  }

  lemma {:induction false} ReadJoined(args: seq<string>, words: seq<string>)
    ensures Read(CommandLine(args), Plain, words, None) == Some(words + args)
  {
    var quoted := seq(|args|, i requires 0 <= i < |args| => Quoted(args[i]));
    if |args| == 0 {
      assert words + args == words;
    } else if |args| == 1 {
      assert Quoted(args[0]) + "" == Quoted(args[0]);
      ReadQuoted(args[0], "", words);
      assert words + [args[0]] == words + args;
    } else {
      var tail := seq(|args| - 1, i requires 0 <= i < |args| - 1 => Quoted(args[1..][i]));
      assert quoted[1..] == tail;
      var rest := " " + Joined(tail);
      assert CommandLine(args) == Quoted(args[0]) + rest;
      ReadQuoted(args[0], rest, words);
      assert rest[1..] == CommandLine(args[1..]);
      ReadJoined(args[1..], words + [args[0]]);
      assert words + [args[0]] + args[1..] == words + args;
    }
  }

  /** Whatever the arguments hold, blanks, quotes, newlines or nothing at all, the shell
      reads back exactly the list that was printed. */
  lemma CommandLineReadsBack(args: seq<string>)
    ensures Words(CommandLine(args)) == Some(args)
  {
    ReadJoined(args, []);
    assert [] + args == args;
  }

  /** Two argument lists never print to the same command line. */
  lemma CommandLineIsInjective(args: seq<string>, others: seq<string>)
    requires CommandLine(args) == CommandLine(others)
    ensures args == others
  {
    CommandLineReadsBack(args);
    CommandLineReadsBack(others);
  }
}
