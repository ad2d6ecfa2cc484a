/** The command line of the chat: what a typed line means. */
module Commands {
  import opened Text
  import opened TokenList
  import opened Chat

  /** No white space at either end, and something in between. */
  predicate Trimmed(s: string) {
    s != "" && !IsSpace(s[0]) && !IsSpace(s[|s| - 1])
  }

  /** The line that gives a command, without the white space around it. */
  function Typed(cmd: Command): string {
    match cmd
    case Blank => ""
    case Quit => "/quit"
    case ResetAll => "/reset"
    case System(text) => "/system " + text
    case Save(path) => "/save " + path
    case Load(path) => "/load " + path
    case Say(text) => text
  }

  /** Lines that mean something other than to be said. */
  predicate IsCommandLine(s: string) {
    s in {"/quit", "/exit", "/reset"} || StartsWith(s, "/system ") || StartsWith(s, "/save ") || StartsWith(s, "/load ")
  }

  /** The commands that can be typed at all. */
  predicate Typable(cmd: Command) {
    match cmd
    case System(text) => text != "" && !IsSpace(text[|text| - 1])
    case Save(path) => Trimmed(path)
    case Load(path) => Trimmed(path)
    case Say(text) => Trimmed(text) && !IsCommandLine(text)
    case _ => true
  }

  lemma TrimOfTrimmed(s: string)
    requires s != "" ==> Trimmed(s)
    ensures Trim(s) == s
  {
    assert "" + s + "" == s;
    TrimPadded("", s, "");
  }

  lemma TypedIsTrimmed(cmd: Command)
    requires Typable(cmd)
    ensures Typed(cmd) != "" ==> Trimmed(Typed(cmd))
  {
    var t := Typed(cmd);
    assert cmd.System? ==> t[|t| - 1] == cmd.text[|cmd.text| - 1];
    assert cmd.Save? ==> t[|t| - 1] == cmd.path[|cmd.path| - 1];
    assert cmd.Load? ==> t[|t| - 1] == cmd.path[|cmd.path| - 1];
  }

  /** The three commands with an argument, told apart. */
  lemma Prefixes(rest: string)
    ensures StartsWith("/system " + rest, "/system ") && ("/system " + rest)[8..] == rest
    ensures StartsWith("/save " + rest, "/save ") && ("/save " + rest)[6..] == rest
    ensures StartsWith("/load " + rest, "/load ") && ("/load " + rest)[6..] == rest
    ensures !StartsWith("/save " + rest, "/system ")
    ensures !StartsWith("/load " + rest, "/system ") && !StartsWith("/load " + rest, "/save ")
    ensures "/system " + rest !in {"/quit", "/exit", "/reset"}
    ensures "/save " + rest !in {"/quit", "/exit", "/reset"} && "/load " + rest !in {"/quit", "/exit", "/reset"}
  {
    var system, save, load := "/system " + rest, "/save " + rest, "/load " + rest;
    assert system[2] == 'y' && save[2] == 'a' && load[1] == 'l' && save[1] == 's' && system[1] == 's';
    assert "/quit"[1] == 'q' && "/exit"[1] == 'e' && "/reset"[1] == 'r' && "/system "[2] == 'y' && "/save "[1] == 's';
  }

  /** Every typable command is what its line means, whatever white space is around it. */
  lemma TypedCommandParses(cmd: Command, left: string, right: string)
    requires Typable(cmd) && TokenList.Blank(left) && TokenList.Blank(right)
    ensures ParseLine(left + Typed(cmd) + right) == cmd
  {
    hide Trim, StartsWith, IsSpace, TokenList.Blank;
    TypedIsTrimmed(cmd);
    TrimPadded(left, Typed(cmd), right);
    match cmd {
      case System(text) => Prefixes(text);
      case Save(path) =>
        Prefixes(path);
        TrimOfTrimmed(path);
      case Load(path) =>
        Prefixes(path);
        TrimOfTrimmed(path);
      case _ => PlainLines();
    }
  }

  lemma PlainLines()
    ensures !StartsWith("/reset", "/system ") && "/reset" !in {"/quit", "/exit"} && "/quit" != ""
  {
    assert "/reset"[1] == 'r' && "/quit"[1] == 'q' && "/exit"[1] == 'e';
  }

  // ---------------------------------------------------------------- and nothing else is parsed

  lemma {:induction false} TrimStartShape(s: string)
    ensures |TrimStart(s)| <= |s| && TrimStart(s) == s[|s| - |TrimStart(s)|..]
    ensures TrimStart(s) != "" ==> !IsSpace(TrimStart(s)[0])
  {
    hide IsSpace;
    if s != "" && IsSpace(s[0]) {
      TrimStartShape(s[1..]);
    }
  }

  lemma {:induction false} TrimEndShape(s: string)
    ensures TrimEnd(s) <= s
    ensures TrimEnd(s) != "" ==> !IsSpace(TrimEnd(s)[|TrimEnd(s)| - 1])
  {
    hide IsSpace;
    if s != "" && IsSpace(s[|s| - 1]) {
      TrimEndShape(s[..|s| - 1]);
    }
  }

  lemma TrimShape(s: string)
    ensures Trim(s) != "" ==> Trimmed(Trim(s))
  {
    hide IsSpace;
    TrimStartShape(s);
    TrimEndShape(TrimStart(s));
  }

  lemma {:induction false} TrimKeepsWord(s: string)
    requires s != "" && !IsSpace(s[|s| - 1])
    ensures Trim(s) != ""
  {
    hide IsSpace;
    TrimStartKeeps(s);
  }

  lemma {:induction false} TrimStartKeeps(s: string)
    requires s != "" && !IsSpace(s[|s| - 1])
    ensures TrimStart(s) != "" && TrimStart(s)[|TrimStart(s)| - 1] == s[|s| - 1]
  {
    hide IsSpace;
    if IsSpace(s[0]) {
      TrimStartKeeps(s[1..]);
    }
  }

  /** The argument of a trimmed line ends without white space, and is not empty, because a
      command word alone has lost the blank behind it. */
  lemma ArgumentShape(input: string, word: string)
    requires Trimmed(input) && StartsWith(input, word) && word != "" && IsSpace(word[|word| - 1])
    ensures var rest := input[|word|..];
            rest != "" && !IsSpace(rest[|rest| - 1]) && Trimmed(Trim(rest))
  {
    hide IsSpace, Trim;
    var rest := input[|word|..];
    assert input == word + rest;
    assert input != word;
    assert rest[|rest| - 1] == input[|input| - 1];
    TrimKeepsWord(rest);
    TrimShape(rest);
  }

  /** Every line means a typable command. */
  lemma ParsedIsTypable(line: string)
    ensures Typable(ParseLine(line))
  {
    hide Trim, IsSpace;
    var input := Trim(line);
    TrimShape(line);
    BlanksEndWords();
    if input != "" && StartsWith(input, "/system ") {
      ArgumentShape(input, "/system ");
    } else if input != "" && StartsWith(input, "/save ") {
      ArgumentShape(input, "/save ");
    } else if input != "" && StartsWith(input, "/load ") {
      ArgumentShape(input, "/load ");
    }
  }

  lemma BlanksEndWords()
    ensures IsSpace("/system "[7]) && IsSpace("/save "[5]) && IsSpace("/load "[5])
  {
  }
}
