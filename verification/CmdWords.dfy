/**
 A reader of the arguments of a program that cmd starts, by the Microsoft C runtime's rules:
 blanks part arguments outside quotes, backslashes are plain unless a quote follows them, two of
 them then stand for one, an odd one makes the quote plain, and two quotes inside quotes are one.
 */
module CmdWords {
  import opened Text
  import opened ShellQuoting

  function Read(s: string, quoted: bool, started: bool, argument: string, arguments: seq<string>): seq<string>
    decreases |s|
  {
    if s == "" then if started then arguments + [argument] else arguments
    else
      var n := Leading(s, '\\');
      var after := s[n..];
      if n > 0 && (after == "" || after[0] != '"') then
        Read(after, quoted, true, argument + Repeat('\\', n), arguments)
      else if n > 0 && n % 2 == 1 then
        Read(after[1..], quoted, true, argument + Repeat('\\', n / 2) + "\"", arguments)
      else if s[n] == '"' then
        var plain := argument + Repeat('\\', n / 2);
        if quoted && |after| > 1 && after[1] == '"' then Read(after[2..], true, true, plain + "\"", arguments)
        else Read(after[1..], !quoted, true, plain, arguments)
      else if !quoted && (s[0] == ' ' || s[0] == '\t') then
        Read(s[1..], false, false, "", if started then arguments + [argument] else arguments)
      else
        Read(s[1..], quoted, true, argument + [s[0]], arguments)
  }

  function Arguments(s: string): seq<string> {
    Read(s, false, false, "", [])
  }

  // ----- The round trip -----

  /** An argument with waiting backslashes and the text behind them. */
  function Whole(argument: string, slashes: nat, text: string): string {
    argument + Repeat('\\', slashes) + text
  }

  lemma WholeStep(argument: string, slashes: nat, text: string)
    requires text != ""
    ensures text[0] == '\\' ==> Whole(argument, slashes + 1, text[1..]) == Whole(argument, slashes, text)
    ensures Whole(argument + Repeat('\\', slashes) + [text[0]], 0, text[1..]) == Whole(argument, slashes, text)
  {
    RepeatMore('\\', slashes);
  }

  lemma BodyStep(text: string, slashes: nat)
    requires text != "" && text[0] != '\\'
    ensures CmdBody(text, slashes) + "\""
            == Repeat('\\', if text[0] == '"' then 2 * slashes + 1 else slashes)
               + ([text[0]] + (CmdBody(text[1..], 0) + "\""))
  {
    Regroup(Repeat('\\', if text[0] == '"' then 2 * slashes + 1 else slashes), [text[0]], CmdBody(text[1..], 0), "\"");
    var tail := CmdBody(text[1..], 0);
    assert [text[0]] + tail + "\"" == [text[0]] + (tail + "\"");
  }

  lemma {:induction false} InQuotes(text: string, slashes: nat, argument: string, arguments: seq<string>)
    ensures Read(CmdBody(text, slashes) + "\"", true, true, argument, arguments)
            == arguments + [Whole(argument, slashes, text)]
    decreases |text|
  {
    if text == "" {
      ReadClosing(slashes, argument, arguments);
      assert Whole(argument, slashes, text) == argument + Repeat('\\', slashes);
    } else {
      WholeStep(argument, slashes, text);
      if text[0] == '\\' {
        InQuotes(text[1..], slashes + 1, argument, arguments);
      } else {
        var tail := CmdBody(text[1..], 0) + "\"";
        BodyStep(text, slashes);
        if text[0] == '"' {
          ReadPlainQuote(slashes, tail, argument, arguments);
        } else {
          ReadPlain(slashes, text[0], tail, argument, arguments);
        }
        InQuotes(text[1..], 0, argument + Repeat('\\', slashes) + [text[0]], arguments);
      }
    }
  }

  lemma ReadClosing(slashes: nat, argument: string, arguments: seq<string>)
    ensures Read(Repeat('\\', 2 * slashes) + "\"", true, true, argument, arguments)
            == arguments + [argument + Repeat('\\', slashes)]
  {
    var s := Repeat('\\', 2 * slashes) + "\"";
    LeadingOf('\\', 2 * slashes, "\"");
    assert s[2 * slashes..] == "\"";
    assert argument + Repeat('\\', slashes) == argument + Repeat('\\', (2 * slashes) / 2);
  }

  lemma ReadPlainQuote(slashes: nat, tail: string, argument: string, arguments: seq<string>)
    ensures Read(Repeat('\\', 2 * slashes + 1) + ("\"" + tail), true, true, argument, arguments)
            == Read(tail, true, true, argument + Repeat('\\', slashes) + "\"", arguments)
  {
    var n, after := 2 * slashes + 1, "\"" + tail;
    var s := Repeat('\\', n) + after;
    LeadingOf('\\', n, after);
    assert s[n..] == after && after[1..] == tail && n / 2 == slashes && n % 2 == 1;
    assert s != "";
  }

  lemma ReadPlain(slashes: nat, c: char, tail: string, argument: string, arguments: seq<string>)
    requires c != '\\' && c != '"'
    ensures Read(Repeat('\\', slashes) + ([c] + tail), true, true, argument, arguments)
            == Read(tail, true, true, argument + Repeat('\\', slashes) + [c], arguments)
  {
    var s := Repeat('\\', slashes) + ([c] + tail);
    var after := [c] + tail;
    LeadingOf('\\', slashes, after);
    LeadingOf('\\', 0, after);
    assert Repeat('\\', 0) + after == after && after[1..] == tail && after[0..] == after;
    if slashes > 0 {
      assert s[slashes..] == after;
    } else {
      assert s == after && argument + Repeat('\\', 0) == argument;
    }
  }

  /** A program gets a quoted text as one argument, with spaces for its line breaks and tabs. */
  lemma RoundTrip(text: string)
    ensures Arguments(Quoted(Cmd, text)) == [AsSpaces(AsLines(text))]
  {
    LinesAreAsLines(text);
    SpacedIsAsSpaces(AsLines(text));
    var carried := AsSpaces(AsLines(text));
    var s := Quoted(Cmd, text);
    assert Leading(s, '\\') == 0 && s[0..] == s && s[1..] == CmdBody(carried, 0) + "\"";
    assert "" + Repeat('\\', 0) == "";
    InQuotes(carried, 0, "", []);
    assert Whole("", 0, carried) == carried;
  }
}
