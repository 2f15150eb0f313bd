/**
 * Command parsing of the bot (telegram-aws/main.go): a command message is
 * split into the command name and its argument text, and the commands that
 * take no argument reject one with a fixed reply.
 */
module Commands {

  /** The reply given to a command that takes no arguments but received some. */
  const RejectArgs: string := "I don't know that command with args"

  /**
   * Index of the first space in `s`, or `|s|` when there is none: the point
   * where `strings.SplitN(s, " ", 2)` cuts.
   */
  function FirstSpace(s: string): (i: nat)
    ensures i <= |s|
    ensures i < |s| ==> s[i] == ' '
    ensures forall j :: 0 <= j < i ==> s[j] != ' '
  {
    if s == [] then 0
    else if s[0] == ' ' then 0
    else 1 + FirstSpace(s[1..])
  }

  /**
   * `parseCommand`: drop the one-character command marker, then split the
   * rest at its first space into the command and the argument text.
   * The Go code slices `message[1:]`, which panics on the empty string, so
   * the message must be non-empty.
   */
  function ParseCommand(message: string): (r: (string, string))
    requires |message| >= 1
    ensures ' ' !in r.0
    ensures ' ' in message[1..] ==> message[1..] == r.0 + " " + r.1
    ensures ' ' !in message[1..] ==> r.0 == message[1..] && r.1 == ""
  {
    var rest := message[1..];
    var i := FirstSpace(rest);
    if i == |rest| then (rest, "")
    else (rest[..i], rest[i + 1..])
  }

  /**
   * The contract of ParseCommand determines its result: any split of the
   * text after the marker into a space-free command, a space and an argument
   * text is the one ParseCommand returns.
   */
  lemma ParseCommandUnique(message: string, command: string, args: string)
    requires |message| >= 1
    requires ' ' !in command
    requires message[1..] == command + " " + args
    ensures ParseCommand(message) == (command, args)
  {
    var rest := message[1..];
    var (c, a) := ParseCommand(message);
    assert rest[|command|] == ' ';
    assert ' ' in rest;
    assert rest == c + " " + a;
    assert |c| == |command|;
    assert c == rest[..|c|] == command;
    assert a == rest[|c| + 1..] == args;
  }

  /**
   * `handleDefaultCommand`: the empty string means "no objection", anything
   * else is the fixed rejection reply.
   */
  function HandleDefaultCommand(args: string): (reply: string)
    ensures reply == "" <==> args == ""
    ensures args != "" ==> reply == RejectArgs
  {
    if args != "" then RejectArgs else ""
  }

  /** The split of a command with a multi-word argument. */
  lemma ParseWeatherExample()
    ensures ParseCommand("/weather new york") == ("weather", "new york")
  {
    assert "/weather new york"[1..] == "weather" + " " + "new york";
    ParseCommandUnique("/weather new york", "weather", "new york");
  }

  /** The split of a bare command, and of one followed by a lone space. */
  lemma ParseHelpExamples()
    ensures ParseCommand("/help") == ("help", "")
    ensures ParseCommand("/help ") == ("help", "")
  {
    assert "/help"[1..] == "help";
    assert ' ' !in "help";
    assert "/help "[1..] == "help" + " " + "";
    ParseCommandUnique("/help ", "help", "");
  }

  /** Only the first space splits: the argument keeps the later ones. */
  lemma ParseSayHiExample()
    ensures ParseCommand("/sayhi extra arg") == ("sayhi", "extra arg")
  {
    assert "/sayhi extra arg"[1..] == "sayhi" + " " + "extra arg";
    ParseCommandUnique("/sayhi extra arg", "sayhi", "extra arg");
  }
}
