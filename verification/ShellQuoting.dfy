/**
 The printer of shell words: quotes a text as one word for the shell of a terminal.
 A line break or a tab never goes out raw, because a typed line break ends the command in some
 shells and a typed tab completes.
 */
module ShellQuoting {
  import opened Wrappers
  import opened Text

  datatype Family = Posix | Fish | PowerShell | Cmd | Nu

  /** The syntax of a shell, by the lower-case name of its program. */
  function FamilyOf(shell: string): Family {
    if shell == "cmd" then Cmd
    else if shell == "pwsh" || shell == "powershell" then PowerShell
    else if shell == "nu" then Nu
    else if shell == "fish" then Fish
    else Posix
  }

  // ----- Line breaks -----

  /** Each carriage return with a line feed behind it becomes one line feed. */
  function MergedCrLf(text: string): string {
    if text == "" then ""
    else if |text| > 1 && text[0] == '\r' && text[1] == '\n' then "\n" + MergedCrLf(text[2..])
    else [text[0]] + MergedCrLf(text[1..])
  }

  function Lines(text: string): string {
    Replaced(MergedCrLf(text), '\r', "\n")
  }

  function Spaced(text: string): string {
    Replaced(Replaced(text, '\n', " "), '\t', " ")
  }

  // ----- The parts of a text -----

  datatype Piece = Run(text: string) | LineBreak | Tab

  /** The runs between line breaks and tabs, and the breaks themselves, in their order. */
  function Pieces(text: string): seq<Piece> {
    match FindEither(text, '\n', '\t')
    case None => if text == "" then [] else [Run(text)]
    case Some(at) =>
      (if at > 0 then [Run(text[..at])] else [])
      + [if text[at] == '\n' then LineBreak else Tab]
      + Pieces(text[at + 1..])
  }

  /** An empty text still is one word. */
  function UsedPieces(text: string): (pieces: seq<Piece>)
    ensures pieces != []
  {
    if text == "" then [Run("")] else Pieces(text)
  }

  function RenderedPiece(family: Family, piece: Piece): string {
    match piece
    case Run(text) => QuotedPart(family, text)
    case LineBreak => Escape(family, true)
    case Tab => Escape(family, false)
  }

  function Renderer(family: Family): Piece -> string {
    piece => RenderedPiece(family, piece)
  }

  function Escape(family: Family, lineBreak: bool): string {
    match family
    case PowerShell => if lineBreak then "\"`n\"" else "\"`t\""
    case Nu => if lineBreak then "\"\\n\"" else "\"\\t\""
    case Fish => if lineBreak then "\\n" else "\\t"
    case _ => if lineBreak then "$'\\n'" else "$'\\t'"
  }

  function Joined(family: Family, parts: seq<string>): string {
    if family.PowerShell? && |parts| > 1 then "(" + Join(parts, "+") + ")"
    else if family.Nu? && |parts| > 1 then "(" + Join(parts, " ++ ") + ")"
    else Concat(parts)
  }

  function Quoted(family: Family, text: string): string {
    if family.Cmd? then QuotedPart(Cmd, Spaced(Lines(text)))
    else
      Joined(family, Map(Renderer(family), UsedPieces(Lines(text))))
  }

  // ----- One part -----

  /** PowerShell also ends a quoted word at the typographic single quotes. */
  predicate IsSingleQuote(c: char) {
    c == '\'' || c == '\U{2018}' || c == '\U{2019}' || c == '\U{201A}' || c == '\U{201B}'
  }

  function Doubled(text: string): string {
    if text == "" then ""
    else (if IsSingleQuote(text[0]) then [text[0], text[0]] else [text[0]]) + Doubled(text[1..])
  }

  /** The body of a cmd word when so many backslashes wait before the text. */
  function CmdBody(text: string, slashes: nat): string {
    if text == "" then Repeat('\\', 2 * slashes)
    else if text[0] == '\\' then CmdBody(text[1..], slashes + 1)
    else if text[0] == '"' then Repeat('\\', 2 * slashes + 1) + "\"" + CmdBody(text[1..], 0)
    else Repeat('\\', slashes) + [text[0]] + CmdBody(text[1..], 0)
  }

  /** The lengths of the runs of `#` between the other characters. */
  function HashRuns(text: string): (runs: seq<nat>)
    ensures |runs| > 0
  {
    if text == "" then [0]
    else
      var runs := HashRuns(text[1..]);
      if text[0] == '#' then [runs[0] + 1] + runs[1..] else [0] + runs
  }

  function Largest(runs: seq<nat>): (most: nat)
    ensures forall i :: 0 <= i < |runs| ==> runs[i] <= most
    ensures runs != [] ==> most in runs
  {
    if runs == [] then 0
    else
      var most := Largest(runs[1..]);
      assert forall i :: 0 < i < |runs| ==> runs[i] == runs[1..][i - 1];
      if runs[0] > most || |runs| == 1 then runs[0] else most
  }

  function NuHashes(text: string): string {
    Repeat('#', Largest(HashRuns(text)) + 1)
  }

  function QuotedPart(family: Family, text: string): string {
    match family
    case Fish => "'" + Replaced(Replaced(text, '\\', "\\\\"), '\'', "\\'") + "'"
    case PowerShell => "'" + Doubled(text) + "'"
    case Cmd => "\"" + CmdBody(text, 0) + "\""
    case Nu => "r" + NuHashes(text) + "'" + text + "'" + NuHashes(text)
    case Posix => "'" + Replaced(text, '\'', "'\\''") + "'"
  }

  method QuotePart(family: Family, text: string) returns (word: string)
    ensures word == QuotedPart(family, text)
  {
    match family {
      case PowerShell =>
        word := "'";
        for i := 0 to |text|
          invariant word + Doubled(text[i..]) == "'" + Doubled(text)
        {
          var character := text[i];
          assert text[i..][1..] == text[i + 1..];
          if IsSingleQuote(character) {
            word := word + [character];
          }
          word := word + [character];
        }
        word := word + "'";
      case Cmd =>
        word := "\"";
        var slashes := 0;
        for i := 0 to |text|
          invariant word + CmdBody(text[i..], slashes) == "\"" + CmdBody(text, 0)
        {
          ghost var before := word + CmdBody(text[i..], slashes);
          var character := text[i];
          assert text[i..][1..] == text[i + 1..];
          if character == '\\' {
            slashes := slashes + 1;
          } else if character == '"' {
            word := word + Repeat('\\', slashes * 2 + 1);
            slashes := 0;
          } else {
            word := word + Repeat('\\', slashes);
            slashes := 0;
          }
          if character != '\\' {
            word := word + [character];
          }
          assert word + CmdBody(text[i + 1..], slashes) == before;
        }
        word := word + Repeat('\\', slashes * 2);
        word := word + "\"";
      case _ =>
        word := QuotedPart(family, text);
    }
  }

  method RunPart(family: Family, text: string) returns (part: string)
    ensures part == Renderer(family)(Run(text))
  {
    part := QuotePart(family, text);
  }

  method MarkPart(family: Family, lineBreak: bool) returns (part: string)
    ensures part == Renderer(family)(if lineBreak then LineBreak else Tab)
  {
    part := Escape(family, lineBreak);
  }

  /** The parts up to a break. */
  method PartsTo(family: Family, text: string, at: nat) returns (parts: seq<string>)
    requires at < |text|
    ensures parts
      == (if at > 0 then [Renderer(family)(Run(text[..at]))] else [])
         + [Renderer(family)(if text[at] == '\n' then LineBreak else Tab)]
  {
    parts := [];
    if at > 0 {
      var part := RunPart(family, text[..at]);
      parts := [part];
    }
    var mark := MarkPart(family, text[at] == '\n');
    parts := parts + [mark];
  }

  /** The loop of the printer: the quoted runs and the escapes of a text. */
  method Parts(family: Family, text: string) returns (parts: seq<string>)
    ensures parts == Map(Renderer(family), UsedPieces(text))
  {
    parts := [];
    var rest := text;
    while true
      invariant parts + Map(Renderer(family), Pieces(rest)) == Map(Renderer(family), Pieces(text))
      invariant parts == [] ==> rest == text
      decreases |rest|
    {
      var found := FindEither(rest, '\n', '\t');
      if found.None? {
        break;
      }
      var at := found.value;
      MapAtBreak(Renderer(family), rest);
      var more := PartsTo(family, rest, at);
      rest := rest[at + 1..];
      Together(parts, more, Map(Renderer(family), Pieces(rest)));
      parts := parts + more;
    }
    MapAtEnd(Renderer(family), rest);
    if rest != "" || parts == [] {
      var part := RunPart(family, rest);
      parts := parts + [part];
    }
  }

  lemma MapAtBreak<T>(f: Piece -> T, rest: string)
    requires FindEither(rest, '\n', '\t').Some?
    ensures
      var at := FindEither(rest, '\n', '\t').value;
      Map(f, Pieces(rest))
      == (if at > 0 then [f(Run(rest[..at]))] else [])
         + [f(if rest[at] == '\n' then LineBreak else Tab)]
         + Map(f, Pieces(rest[at + 1..]))
  {
    var at := FindEither(rest, '\n', '\t').value;
    var run := if at > 0 then [Run(rest[..at])] else [];
    var mark := if rest[at] == '\n' then LineBreak else Tab;
    MapConcat(f, run + [mark], Pieces(rest[at + 1..]));
    MapConcat(f, run, [mark]);
    MapOne(f, mark);
    MapOne(f, Run(rest[..at]));
  }

  lemma MapAtEnd<T>(f: Piece -> T, rest: string)
    requires FindEither(rest, '\n', '\t').None?
    ensures Map(f, Pieces(rest)) == if rest == "" then [] else [f(Run(rest))]
    ensures Map(f, [Run(rest)]) == [f(Run(rest))]
  {
  }

  // ----- What the pieces say -----

  function PieceText(piece: Piece): string {
    match piece
    case Run(text) => text
    case LineBreak => "\n"
    case Tab => "\t"
  }

  function PiecesText(pieces: seq<Piece>): string {
    if pieces == [] then "" else PieceText(pieces[0]) + PiecesText(pieces[1..])
  }

  lemma PiecesTextConcat(a: seq<Piece>, b: seq<Piece>)
    ensures PiecesText(a + b) == PiecesText(a) + PiecesText(b)
  {
    if a == [] {
      assert a + b == b;
    } else {
      assert (a + b)[1..] == a[1..] + b;
    }
  }

  /** The pieces of a text are the text again. */
  lemma {:induction false} PiecesAreTheText(text: string)
    ensures PiecesText(Pieces(text)) == text
    decreases |text|
  {
    match FindEither(text, '\n', '\t') {
      case None =>
      case Some(at) =>
        var run := if at > 0 then [Run(text[..at])] else [];
        var mark := [if text[at] == '\n' then LineBreak else Tab];
        PiecesTextConcat(run + mark, Pieces(text[at + 1..]));
        PiecesTextConcat(run, mark);
        PiecesAreTheText(text[at + 1..]);
        assert PiecesText(run) == text[..at];
        assert PiecesText(mark) == [text[at]];
        SplitAt(text, at);
    }
  }

  lemma UsedPiecesAreTheText(text: string)
    ensures PiecesText(UsedPieces(text)) == text
  {
    PiecesAreTheText(text);
    assert PiecesText([Run("")]) == "";
  }

  /** Nothing in the text is a raw line break or a tab. */
  predicate Typed(text: string) {
    '\n' !in text && '\r' !in text && '\t' !in text
  }

  lemma {:induction false} RunsAreTyped(text: string)
    requires '\r' !in text
    ensures forall piece :: piece in Pieces(text) && piece.Run? ==> Typed(piece.text)
    decreases |text|
  {
    match FindEither(text, '\n', '\t') {
      case None =>
      case Some(at) =>
        RunsAreTyped(text[at + 1..]);
        assert Typed(text[..at]);
    }
  }

  // ----- The text that a shell gives the program -----

  /** The text with each kind of line break read as a line feed. */
  function AsLines(text: string): string {
    if text == "" then ""
    else if text[0] == '\r' then "\n" + AsLines(if |text| > 1 && text[1] == '\n' then text[2..] else text[1..])
    else [text[0]] + AsLines(text[1..])
  }

  lemma {:induction false} LinesAreAsLines(text: string)
    ensures Lines(text) == AsLines(text)
    ensures '\r' !in Lines(text)
    decreases |text|
  {
    if text == "" {
    } else if |text| > 1 && text[0] == '\r' && text[1] == '\n' {
      LinesAreAsLines(text[2..]);
      ReplacedConcat("\n", MergedCrLf(text[2..]), '\r', "\n");
    } else {
      LinesAreAsLines(text[1..]);
      ReplacedConcat([text[0]], MergedCrLf(text[1..]), '\r', "\n");
    }
  }

  function AsSpaces(text: string): string {
    if text == "" then ""
    else [if text[0] == '\n' || text[0] == '\t' then ' ' else text[0]] + AsSpaces(text[1..])
  }

  lemma {:induction false} SpacedIsAsSpaces(text: string)
    ensures Spaced(text) == AsSpaces(text)
    ensures forall c :: c in AsSpaces(text) ==> c != '\n' && c != '\t' && (c == ' ' || c in text)
  {
    if text == "" {
    } else {
      SpacedIsAsSpaces(text[1..]);
      ReplacedConcat(if text[0] == '\n' then " " else [text[0]], Replaced(text[1..], '\n', " "), '\t', " ");
    }
  }
}
