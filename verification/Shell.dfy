/**
 The quoting that carries a launch command through two shells: internal/service/ssh/ssh.go
 and internal/service/codex/runner.go. The shells read words as POSIX.1-2017 XCU sections
 2.2 and 2.3 say; a text with an expansion in it, or with an open quote, has no reading here.
 */
module Shell {
  import opened Wrappers

  function ReplaceQuotes(value: string): string {
    if value == "" then "" else (if value[0] == '\'' then "'\"'\"'" else [value[0]]) + ReplaceQuotes(value[1..])
  }

  function ShellEscape(value: string): string {
    "'" + ReplaceQuotes(value) + "'"
  }

  function RemoteShellCommand(command: string): string {
    "bash -lc " + ShellEscape(command)
  }

  function RemoteLaunchCommand(workspace: string, command: string): string {
    "cd " + ShellEscape(workspace) + " && exec " + command
  }

  // --- The shell's reading of a command ---

  // A quoted character is exempt from tilde and pathname expansion and field splitting.
  datatype Mark = Mark(c: char, quoted: bool)

  type Word = seq<Mark>

  datatype Quoting = Bare | InSingle | InDouble

  // The words of the first simple command, and the text from its first operator on.
  datatype Command = Command(words: seq<Word>, rest: string)

  predicate OperatorStart(c: char) {
    c in "\n&|;<>()"
  }

  function Begun(word: Option<Word>): Word {
    if word.Some? then word.value else []
  }

  function Ended(words: seq<Word>, word: Option<Word>): seq<Word> {
    if word.Some? then words + [word.value] else words
  }

  function Add(word: Option<Word>, c: char, quoted: bool): Option<Word> {
    Some(Begun(word) + [Mark(c, quoted)])
  }

  function SkipComment(s: string): (r: string)
    ensures |r| <= |s|
  {
    if s == "" || s[0] == '\n' then s else SkipComment(s[1..])
  }

  function Read(s: string, mode: Quoting, words: seq<Word>, word: Option<Word>): Option<Command>
    decreases |s|
  {
    if s == "" then
      if mode.Bare? then Some(Command(Ended(words, word), "")) else None
    else
      match mode
      case Bare => ReadBare(s, words, word)
      case InSingle =>
        if s[0] == '\'' then Read(s[1..], Bare, words, word) else Read(s[1..], InSingle, words, Add(word, s[0], true))
      case InDouble => ReadDouble(s, words, word)
  }

  function ReadBare(s: string, words: seq<Word>, word: Option<Word>): Option<Command>
    requires s != ""
    decreases |s|, 0
  {
    if s[0] == '\'' then Read(s[1..], InSingle, words, Some(Begun(word)))
    else if s[0] == '"' then Read(s[1..], InDouble, words, Some(Begun(word)))
    else if s[0] == '\\' then
      if |s| == 1 then None
      else if s[1] == '\n' then Read(s[2..], Bare, words, word)
      else Read(s[2..], Bare, words, Add(word, s[1], true))
    else if s[0] == '$' || s[0] == '`' then None
    else if s[0] == ' ' || s[0] == '\t' then Read(s[1..], Bare, Ended(words, word), None)
    else if s[0] == '#' && word.None? then Read(SkipComment(s[1..]), Bare, words, None)
    else if OperatorStart(s[0]) then Some(Command(Ended(words, word), s))
    else Read(s[1..], Bare, words, Add(word, s[0], false))
  }

  function ReadDouble(s: string, words: seq<Word>, word: Option<Word>): Option<Command>
    requires s != ""
    decreases |s|, 0
  {
    if s[0] == '"' then Read(s[1..], Bare, words, word)
    else if s[0] == '$' || s[0] == '`' then None
    else if s[0] == '\\' && |s| > 1 && s[1] == '\n' then Read(s[2..], InDouble, words, word)
    else if s[0] == '\\' && |s| > 1 && s[1] in "$`\"\\" then Read(s[2..], InDouble, words, Add(word, s[1], true))
    else Read(s[1..], InDouble, words, Add(word, s[0], true))
  }

  function ReadCommand(s: string): Option<Command> {
    Read(s, Bare, [], None)
  }

  // --- What the words should be ---

  function Marked(s: string, quoted: bool): (w: Word)
    ensures |w| == |s| && forall i | 0 <= i < |s| :: w[i] == Mark(s[i], quoted)
  {
    seq(|s|, i requires 0 <= i < |s| => Mark(s[i], quoted))
  }

  // Text that means nothing to the shell but itself.
  predicate Ordinary(s: string) {
    forall i | 0 <= i < |s| :: !OperatorStart(s[i]) && s[i] !in " \t'\"\\$`#"
  }

  // --- Reading back ---

  lemma ReadSingleQuote(rest: string, words: seq<Word>, word: Option<Word>)
    ensures Read("'" + rest, Bare, words, word) == Read(rest, InSingle, words, Some(Begun(word)))
    ensures Read("'" + rest, InSingle, words, word) == Read(rest, Bare, words, word)
    ensures Read("'" + rest, InDouble, words, word) == Read(rest, InDouble, words, Add(word, '\'', true))
  {
    assert ("'" + rest)[1..] == rest;
  }

  lemma ReadDoubleQuote(rest: string, words: seq<Word>, word: Option<Word>)
    ensures Read("\"" + rest, Bare, words, word) == Read(rest, InDouble, words, Some(Begun(word)))
    ensures Read("\"" + rest, InDouble, words, word) == Read(rest, Bare, words, word)
  {
    assert ("\"" + rest)[1..] == rest;
  }

  lemma ReadBlank(rest: string, words: seq<Word>, word: Option<Word>)
    ensures Read(" " + rest, Bare, words, word) == Read(rest, Bare, Ended(words, word), None)
  {
    assert (" " + rest)[1..] == rest;
  }

  lemma ReadEnd(words: seq<Word>, word: Option<Word>)
    ensures Read("", Bare, words, word) == Some(Command(Ended(words, word), ""))
  {
  }

  lemma ReadOperator(s: string, words: seq<Word>)
    requires s != "" && OperatorStart(s[0])
    ensures Read(s, Bare, words, None) == Some(Command(words, s))
  {
    assert s[0] !in "'\"\\$` \t#";
  }

  // Out of single quotes, the quote in double quotes, and into single quotes again.
  lemma ReadReplacedQuote(rest: string, words: seq<Word>, word: Word)
    ensures Read("'\"'\"'" + rest, InSingle, words, Some(word)) ==
      Read(rest, InSingle, words, Some(word + [Mark('\'', true)]))
  {
    var done := Some(word + [Mark('\'', true)]);
    var s1, s2, s3, s4 := "\"'\"'" + rest, "'\"'" + rest, "\"'" + rest, "'" + rest;
    assert "'\"'\"'" + rest == "'" + s1 && s1 == "\"" + s2 && s2 == "'" + s3 && s3 == "\"" + s4;
    hide Read;
    ReadSingleQuote(s1, words, Some(word));
    ReadDoubleQuote(s2, words, Some(word));
    ReadSingleQuote(s3, words, Some(word));
    ReadDoubleQuote(s4, words, done);
    ReadSingleQuote(rest, words, done);
  }

  lemma {:induction false} ReadQuotedText(value: string, rest: string, words: seq<Word>, word: Word)
    ensures Read(ReplaceQuotes(value) + "'" + rest, InSingle, words, Some(word)) ==
      Read(rest, Bare, words, Some(word + Marked(value, true)))
    decreases |value|
  {
    var s := ReplaceQuotes(value) + "'" + rest;
    if value == "" {
      assert s[1..] == rest && word + Marked(value, true) == word;
    } else {
      var tail := ReplaceQuotes(value[1..]) + "'" + rest;
      var next := word + [Mark(value[0], true)];
      if value[0] == '\'' {
        assert s == "'\"'\"'" + tail;
        ReadReplacedQuote(tail, words, word);
      } else {
        assert s[0] == value[0] && s[1..] == tail;
      }
      ReadQuotedText(value[1..], rest, words, next);
      assert next + Marked(value[1..], true) == word + Marked(value, true);
    }
  }

  lemma ReadEscaped(value: string, rest: string, words: seq<Word>)
    ensures Read(ShellEscape(value) + rest, Bare, words, None) == Read(rest, Bare, words, Some(Marked(value, true)))
  {
    var s := ShellEscape(value) + rest;
    assert s[1..] == ReplaceQuotes(value) + "'" + rest;
    ReadQuotedText(value, rest, words, []);
    assert [] + Marked(value, true) == Marked(value, true);
  }

  lemma {:induction false} ReadOrdinary(text: string, rest: string, words: seq<Word>, word: Word)
    requires Ordinary(text)
    ensures Read(text + rest, Bare, words, Some(word)) == Read(rest, Bare, words, Some(word + Marked(text, false)))
    decreases |text|
  {
    if text == "" {
      assert text + rest == rest && word + Marked(text, false) == word;
    } else {
      assert (text + rest)[0] == text[0] && (text + rest)[1..] == text[1..] + rest;
      ReadOrdinary(text[1..], rest, words, word + [Mark(text[0], false)]);
      assert word + [Mark(text[0], false)] + Marked(text[1..], false) == word + Marked(text, false);
    }
  }

  lemma ReadOrdinaryWord(text: string, rest: string, words: seq<Word>)
    requires Ordinary(text) && text != ""
    ensures Read(text + " " + rest, Bare, words, None) == Read(rest, Bare, words + [Marked(text, false)], None)
  {
    var s := text + " " + rest;
    var first := [Mark(text[0], false)];
    assert s[0] == text[0] && s[1..] == text[1..] + (" " + rest);
    assert Read(s, Bare, words, None) == Read(s[1..], Bare, words, Some(first)) by {
      assert [] + first == first;
    }
    hide Read;
    ReadOrdinary(text[1..], " " + rest, words, first);
    assert first + Marked(text[1..], false) == Marked(text, false);
    ReadBlank(rest, words, Some(Marked(text, false)));
  }

  // For every string: the escaped form is one word, all of it quoted, and is the string.
  lemma EscapeRoundTrip(value: string)
    ensures ReadCommand(ShellEscape(value)) == Some(Command([Marked(value, true)], ""))
  {
    hide Read;
    ReadEscaped(value, "", []);
    ReadEnd([], Some(Marked(value, true)));
    assert [] + [Marked(value, true)] == [Marked(value, true)];
    assert ShellEscape(value) + "" == ShellEscape(value);
  }

  lemma MarkedInjective(a: string, b: string, quoted: bool)
    requires Marked(a, quoted) == Marked(b, quoted)
    ensures a == b
  {
    forall i | 0 <= i < |a| ensures a[i] == b[i] {
      assert Marked(a, quoted)[i] == Marked(b, quoted)[i];
    }
  }

  lemma EscapeInjective(a: string, b: string)
    requires ShellEscape(a) == ShellEscape(b)
    ensures a == b
  {
    EscapeRoundTrip(a);
    EscapeRoundTrip(b);
    assert Marked(a, true) == [Marked(a, true)][0];
    MarkedInjective(a, b, true);
  }

  // The remote login shell runs bash with exactly the command as its one script.
  lemma RemoteShellWords(command: string)
    ensures ReadCommand(RemoteShellCommand(command)) ==
      Some(Command([Marked("bash", false), Marked("-lc", false), Marked(command, true)], ""))
  {
    hide Read, ShellEscape;
    var script := ShellEscape(command);
    assert RemoteShellCommand(command) == "bash" + " " + ("-lc" + " " + script);
    ReadOrdinaryWord("bash", "-lc" + " " + script, []);
    assert [] + [Marked("bash", false)] == [Marked("bash", false)];
    ReadOrdinaryWord("-lc", script, [Marked("bash", false)]);
    var words := [Marked("bash", false)] + [Marked("-lc", false)];
    ReadEscaped(command, "", words);
    ReadEnd(words, Some(Marked(command, true)));
    assert script + "" == script;
    assert words + [Marked(command, true)] == [Marked("bash", false), Marked("-lc", false), Marked(command, true)];
  }

  // Whatever the command is, the first thing bash does is change to the workspace.
  lemma LaunchWords(workspace: string, command: string)
    ensures ReadCommand(RemoteLaunchCommand(workspace, command)) ==
      Some(Command([Marked("cd", false), Marked(workspace, true)], "&& exec " + command))
  {
    var tail := "&& exec " + command;
    var words := [Marked("cd", false)] + [Marked(workspace, true)];
    var script := ShellEscape(workspace);
    assert OperatorStart(tail[0]);
    hide Read, ShellEscape;
    assert RemoteLaunchCommand(workspace, command) == "cd" + " " + (script + (" " + tail)) by {
      assert " " + tail == " && exec " + command;
      assert "cd" + " " == "cd ";
    }
    ReadOrdinaryWord("cd", script + (" " + tail), []);
    assert [] + [Marked("cd", false)] == [Marked("cd", false)];
    ReadEscaped(workspace, " " + tail, [Marked("cd", false)]);
    ReadBlank(tail, [Marked("cd", false)], Some(Marked(workspace, true)));
    assert Ended([Marked("cd", false)], Some(Marked(workspace, true))) == words;
    ReadOperator(tail, words);
    assert words == [Marked("cd", false), Marked(workspace, true)];
  }

  function Text(w: Word): (s: string)
    ensures |s| == |w| && forall i | 0 <= i < |w| :: s[i] == w[i].c
  {
    seq(|w|, i requires 0 <= i < |w| => w[i].c)
  }

  // Through both shells: the script bash is given begins with cd and the workspace, and
  // what follows is untouched.
  lemma TwoShells(workspace: string, command: string)
    ensures var outer := ReadCommand(RemoteShellCommand(RemoteLaunchCommand(workspace, command)));
      && outer.Some? && |outer.value.words| == 3 && outer.value.rest == ""
      && Text(outer.value.words[0]) == "bash" && Text(outer.value.words[1]) == "-lc"
      && ReadCommand(Text(outer.value.words[2])) ==
         Some(Command([Marked("cd", false), Marked(workspace, true)], "&& exec " + command))
  {
    var script := RemoteLaunchCommand(workspace, command);
    RemoteShellWords(script);
    LaunchWords(workspace, command);
    assert Text(Marked(script, true)) == script;
    assert Text(Marked("bash", false)) == "bash" && Text(Marked("-lc", false)) == "-lc";
  }
}
