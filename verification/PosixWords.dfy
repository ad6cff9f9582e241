/**
 A reader of POSIX shell words: the quoting of sections 2.2.1 to 2.2.3 of the Shell Command
 Language in POSIX.1-2017, with `$'...'` as in section 2.2.4 of POSIX.1-2024. Anything that would
 end the command, expand or match file names outside quotes is not one of the words it reads.
 */
module PosixWords {
  import opened Wrappers
  import opened Text
  import opened ShellQuoting

  datatype Mode = Between | Bare | Single | Double | Ansi

  function AnsiEscape(c: char): Option<char> {
    match c
    case '"' => Some('"')
    case '\'' => Some('\'')
    case '\\' => Some('\\')
    case 'a' => Some('\U{07}')
    case 'b' => Some('\U{08}')
    case 'e' => Some('\U{1B}')
    case 'f' => Some('\U{0C}')
    case 'n' => Some('\n')
    case 'r' => Some('\r')
    case 't' => Some('\t')
    case 'v' => Some('\U{0B}')
    case _ => None
  }

  /** The words of a command, after the words and the part of a word that were read already. */
  function Read(s: string, mode: Mode, word: string, words: seq<string>): Option<seq<string>> {
    if s == "" then
      match mode
      case Between => Some(words)
      case Bare => Some(words + [word])
      case _ => None
    else
      var c, rest := s[0], s[1..];
      match mode
      case Single =>
        if c == '\'' then Read(rest, Bare, word, words) else Read(rest, Single, word + [c], words)
      case Ansi =>
        if c == '\'' then Read(rest, Bare, word, words)
        else if c != '\\' then Read(rest, Ansi, word + [c], words)
        else if rest == "" || AnsiEscape(rest[0]).None? then None
        else Read(rest[1..], Ansi, word + [AnsiEscape(rest[0]).value], words)
      case Double =>
        if c == '"' then Read(rest, Bare, word, words)
        else if c == '$' || c == '`' then None
        else if c == '\\' && rest != "" && rest[0] == '\n' then Read(rest[1..], Double, word, words)
        else if c == '\\' && rest != "" && rest[0] in "$`\"\\" then Read(rest[1..], Double, word + [rest[0]], words)
        else Read(rest, Double, word + [c], words)
      case _ =>
        if c == ' ' || c == '\t' then Read(rest, Between, "", if mode.Bare? then words + [word] else words)
        else if c == '\'' then Read(rest, Single, word, words)
        else if c == '"' then Read(rest, Double, word, words)
        else if c == '$' then
          if rest != "" && rest[0] == '\'' then Read(rest[1..], Ansi, word, words) else None
        else if c == '\\' then
          if rest == "" then None
          else if rest[0] == '\n' then Read(rest[1..], mode, word, words)
          else Read(rest[1..], Bare, word + [rest[0]], words)
        else if c in "|&;<>()`*?[\n" || (mode.Between? && c in "#~") then None
        else Read(rest, Bare, word + [c], words)
  }

  function Words(s: string): Option<seq<string>> {
    Read(s, Between, "", [])
  }

  // ----- The round trip -----

  const QUOTE := "'\\''"

  lemma EndStep(s: string, word: string, words: seq<string>)
    ensures Read("'" + s, Single, word, words) == Read(s, Bare, word, words)
  {
    Behind("'", s);
  }

  lemma StartStep(s: string, word: string, words: seq<string>)
    ensures Read("'" + s, Bare, word, words) == Read(s, Single, word, words)
  {
    Behind("'", s);
  }

  lemma EscapedQuote(s: string, word: string, words: seq<string>)
    ensures Read("\\'" + s, Bare, word, words) == Read(s, Bare, word + "'", words)
  {
    Behind("'", s);
    assert ("\\'" + s)[1..] == "'" + s;
  }

  lemma QuoteInside(s: string, word: string, words: seq<string>)
    ensures Read(QUOTE + s, Single, word, words) == Read(s, Single, word + "'", words)
  {
    assert QUOTE + s == "'" + ("\\'" + ("'" + s));
    EndStep("\\'" + ("'" + s), word, words);
    EscapedQuote("'" + s, word, words);
    StartStep(s, word + "'", words);
  }

  lemma PlainStep(c: char, s: string, word: string, words: seq<string>)
    requires c != '\''
    ensures Read([c] + s, Single, word, words) == Read(s, Single, word + [c], words)
  {
    Behind([c], s);
  }

  lemma {:induction false} InSingleQuotes(text: string, s: string, word: string, words: seq<string>)
    ensures Read(Replaced(text, '\'', QUOTE) + "'" + s, Single, word, words) == Read(s, Bare, word + text, words)
  {
    var all := Replaced(text, '\'', QUOTE) + "'" + s;
    if text == "" {
      EndStep(s, word, words);
      assert all == "'" + s && word + text == word;
    } else {
      var c, tail := text[0], Replaced(text[1..], '\'', QUOTE) + "'" + s;
      if c == '\'' {
        assert all == QUOTE + tail;
        QuoteInside(tail, word, words);
      } else {
        assert all == [c] + tail;
        PlainStep(c, tail, word, words);
      }
      InSingleQuotes(text[1..], s, word + [c], words);
      FirstOver(word, text);
    }
  }

  lemma AnsiStart(s: string, mode: Mode, word: string, words: seq<string>)
    requires mode.Between? || mode.Bare?
    ensures Read("$'" + s, mode, word, words) == Read(s, Ansi, word, words)
  {
    Behind("'", s);
    assert ("$'" + s)[1..] == "'" + s;
  }

  lemma AnsiStep(c: char, s: string, word: string, words: seq<string>)
    requires AnsiEscape(c).Some?
    ensures Read(['\\', c] + s, Ansi, word, words) == Read(s, Ansi, word + [AnsiEscape(c).value], words)
  {
    Behind([c], s);
    assert (['\\', c] + s)[1..] == [c] + s;
  }

  lemma AnsiEnd(s: string, word: string, words: seq<string>)
    ensures Read("'" + s, Ansi, word, words) == Read(s, Bare, word, words)
  {
    Behind("'", s);
  }

  lemma ReadEscape(lineBreak: bool, s: string, mode: Mode, word: string, words: seq<string>)
    requires mode.Between? || mode.Bare?
    ensures Read(Escape(Posix, lineBreak) + s, mode, word, words)
            == Read(s, Bare, word + (if lineBreak then "\n" else "\t"), words)
  {
    var c := if lineBreak then 'n' else 't';
    var end := "'" + s;
    assert Escape(Posix, lineBreak) + s == "$'" + (['\\', c] + end);
    AnsiStart(['\\', c] + end, mode, word, words);
    AnsiStep(c, end, word, words);
    AnsiEnd(s, word + [AnsiEscape(c).value], words);
  }

  lemma ReadPiece(piece: Piece, s: string, mode: Mode, word: string, words: seq<string>)
    requires mode.Between? || mode.Bare?
    ensures Read(RenderedPiece(Posix, piece) + s, mode, word, words) == Read(s, Bare, word + PieceText(piece), words)
  {
    match piece {
      case Run(text) =>
        var body := Replaced(text, '\'', QUOTE);
        var all := RenderedPiece(Posix, piece) + s;
        assert all[1..] == body + "'" + s;
        InSingleQuotes(text, s, word, words);
      case LineBreak => ReadEscape(true, s, mode, word, words);
      case Tab => ReadEscape(false, s, mode, word, words);
    }
  }

  lemma {:induction false} ReadPieces(pieces: seq<Piece>, mode: Mode, word: string, words: seq<string>)
    requires mode.Bare? || (mode.Between? && pieces != [])
    ensures Read(Concat(Map(Renderer(Posix), pieces)), mode, word, words) == Some(words + [word + PiecesText(pieces)])
  {
    if pieces == [] {
      assert word + "" == word;
    } else {
      var rest := Concat(Map(Renderer(Posix), pieces[1..]));
      ReadPiece(pieces[0], rest, mode, word, words);
      ReadPieces(pieces[1..], Bare, word + PieceText(pieces[0]), words);
      assert word + PieceText(pieces[0]) + PiecesText(pieces[1..]) == word + PiecesText(pieces);
    }
  }

  lemma ReadAll(pieces: seq<Piece>)
    requires pieces != []
    ensures Words(Concat(Map(Renderer(Posix), pieces))) == Some([PiecesText(pieces)])
  {
    var none: seq<string> := [];
    ReadPieces(pieces, Between, "", none);
    assert "" + PiecesText(pieces) == PiecesText(pieces);
    assert none + [PiecesText(pieces)] == [PiecesText(pieces)];
  }

  /** A POSIX shell reads a quoted text as one word, which is the text with its line breaks. */
  lemma RoundTrip(text: string)
    ensures Words(Quoted(Posix, text)) == Some([AsLines(text)])
  {
    LinesAreAsLines(text);
    UsedPiecesAreTheText(Lines(text));
    ReadAll(UsedPieces(Lines(text)));
  }
}
