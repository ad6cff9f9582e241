/** The shells read back what the printer quotes, and nothing in it is typed as a line break or a tab. */
module ShellRoundTrip {
  import opened Wrappers
  import opened Text
  import opened ShellQuoting
  import PosixWords
  import FishWords
  import PowerShellWords
  import CmdWords
  import NuWords

  /** The shell of that name reads the words of a command so. */
  function WordsOf(shell: string, command: string): Option<seq<string>> {
    if shell == "pwsh" || shell == "powershell" then PowerShellWords.Words(command)
    else if shell == "nu" then NuWords.Words(command)
    else if shell == "fish" then FishWords.Words(command)
    else if shell == "cmd" then Some(CmdWords.Arguments(command))
    else PosixWords.Words(command)
  }

  /** What a program can get of a text: with line feeds for its line breaks, and from cmd without breaks and tabs. */
  function Carried(shell: string, text: string): string {
    if shell == "cmd" then AsSpaces(AsLines(text)) else AsLines(text)
  }

  /** Every shell reads a quoted text as exactly one word, which carries the text. */
  lemma OneWord(shell: string, text: string)
    ensures WordsOf(shell, Quoted(FamilyOf(shell), text)) == Some([Carried(shell, text)])
  {
    match FamilyOf(shell) {
      case Posix => PosixWords.RoundTrip(text);
      case Fish => FishWords.RoundTrip(text);
      case PowerShell => PowerShellWords.RoundTrip(text);
      case Cmd => CmdWords.RoundTrip(text);
      case Nu => NuWords.RoundTrip(text);
    }
  }

  /** The shell reads what is printed as one word, the text, and nothing of it is typed as a line break or a tab. */
  method Quote(shell: string, raw: string) returns (quoted: string)
    ensures quoted == Quoted(FamilyOf(shell), raw)
    ensures WordsOf(shell, quoted) == Some([Carried(shell, raw)])
    ensures Typed(quoted)
  {
    OneWord(shell, raw);
    NothingBreaksTheLine(shell, raw);
    var family := FamilyOf(shell);
    var text := Lines(raw);
    if family.Cmd? {
      quoted := QuotePart(Cmd, Spaced(text));
      return;
    }
    var parts := Parts(family, text);
    quoted := Joined(family, parts);
  }

  /** What goes to the shell holds no raw line break and no tab. */
  lemma NothingBreaksTheLine(shell: string, text: string)
    ensures Typed(Quoted(FamilyOf(shell), text))
  {
    LinesAreAsLines(text);
    var family := FamilyOf(shell);
    if family.Cmd? {
      SpacedIsAsSpaces(Lines(text));
      PartIsTyped(Cmd, Spaced(Lines(text)));
    } else {
      var pieces := UsedPieces(Lines(text));
      RunsAreTyped(Lines(text));
      PiecesAreTyped(family, pieces);
      JoinedIsTyped(family, Map(Renderer(family), pieces));
    }
  }

  predicate AllTyped(parts: seq<string>) {
    forall i :: 0 <= i < |parts| ==> Typed(parts[i])
  }

  lemma {:induction false} ReplacedIsTyped(text: string, c: char, other: string)
    requires Typed(text) && Typed(other)
    ensures Typed(Replaced(text, c, other))
  {
    if text == "" {
    } else {
      ReplacedIsTyped(text[1..], c, other);
    }
  }

  lemma {:induction false} DoubledIsTyped(text: string)
    requires Typed(text)
    ensures Typed(Doubled(text))
  {
    if text == "" {
    } else {
      DoubledIsTyped(text[1..]);
    }
  }

  lemma {:induction false} BodyIsTyped(text: string, slashes: nat)
    requires Typed(text)
    ensures Typed(CmdBody(text, slashes))
    decreases |text|
  {
    if text == "" {
    } else {
      BodyIsTyped(text[1..], if text[0] == '\\' then slashes + 1 else 0);
    }
  }

  lemma PartIsTyped(family: Family, text: string)
    requires Typed(text)
    ensures Typed(QuotedPart(family, text))
  {
    match family {
      case Posix => ReplacedIsTyped(text, '\'', "'\\''");
      case Fish =>
        ReplacedIsTyped(text, '\\', "\\\\");
        ReplacedIsTyped(Replaced(text, '\\', "\\\\"), '\'', "\\'");
      case PowerShell => DoubledIsTyped(text);
      case Cmd => BodyIsTyped(text, 0);
      case Nu =>
    }
  }

  lemma {:induction false} PiecesAreTyped(family: Family, pieces: seq<Piece>)
    requires forall piece :: piece in pieces && piece.Run? ==> Typed(piece.text)
    ensures AllTyped(Map(Renderer(family), pieces))
  {
    if pieces == [] {
    } else {
      PiecesAreTyped(family, pieces[1..]);
      if pieces[0].Run? {
        PartIsTyped(family, pieces[0].text);
      }
    }
  }

  lemma {:induction false} ConcatIsTyped(parts: seq<string>)
    requires AllTyped(parts)
    ensures Typed(Concat(parts))
  {
    if parts == [] {
    } else {
      ConcatIsTyped(parts[1..]);
    }
  }

  lemma {:induction false} JoinIsTyped(parts: seq<string>, separator: string)
    requires AllTyped(parts) && Typed(separator)
    ensures Typed(Join(parts, separator))
  {
    if |parts| <= 1 {
    } else {
      JoinIsTyped(parts[1..], separator);
    }
  }

  lemma JoinedIsTyped(family: Family, parts: seq<string>)
    requires AllTyped(parts)
    ensures Typed(Joined(family, parts))
  {
    ConcatIsTyped(parts);
    JoinIsTyped(parts, "+");
    JoinIsTyped(parts, " ++ ");
  }
}
