/**
 A reader of fish words: backslash escapes outside quotes, `'...'` in which only `\\` and `\'` are
 escapes, and `"..."` without variables. Anything that would expand, redirect, open a comment or
 end the command outside quotes is not one of the words it reads.
 */
module FishWords {
  import opened Wrappers
  import opened Text
  import opened ShellQuoting

  datatype Mode = Between | Bare | Single | Double

  /** A character behind a backslash outside quotes. */
  function BareEscape(c: char): Option<char> {
    match c
    case 'a' => Some('\U{07}')
    case 'b' => Some('\U{08}')
    case 'e' => Some('\U{1B}')
    case 'f' => Some('\U{0C}')
    case 'n' => Some('\n')
    case 'r' => Some('\r')
    case 't' => Some('\t')
    case 'v' => Some('\U{0B}')
    case _ => if c in " $\\*?~#(){}[]<>^&|;\"'" then Some(c) else None
  }

  function Read(s: string, mode: Mode, word: string, words: seq<string>): Option<seq<string>> {
    if s == "" then
      match mode
      case Between => Some(words)
      case Bare => Some(words + [word])
      case _ => None
    else
      var c, rest := s[0], s[1..];
      match mode
      case Single =>
        if c == '\'' then Read(rest, Bare, word, words)
        else if c == '\\' && rest != "" && (rest[0] == '\\' || rest[0] == '\'') then
          Read(rest[1..], Single, word + [rest[0]], words)
        else Read(rest, Single, word + [c], words)
      case Double =>
        if c == '"' then Read(rest, Bare, word, words)
        else if c == '$' || c == '(' then None
        else if c == '\\' && rest != "" && rest[0] == '\n' then Read(rest[1..], Double, word, words)
        else if c == '\\' && rest != "" && rest[0] in "\\\"$" then Read(rest[1..], Double, word + [rest[0]], words)
        else Read(rest, Double, word + [c], words)
      case _ =>
        if c == ' ' || c == '\t' then Read(rest, Between, "", if mode.Bare? then words + [word] else words)
        else if c == '\'' then Read(rest, Single, word, words)
        else if c == '"' then Read(rest, Double, word, words)
        else if c == '\\' then
          if rest == "" || BareEscape(rest[0]).None? then None
          else Read(rest[1..], Bare, word + [BareEscape(rest[0]).value], words)
        else if c in "$*?(){}[]<>&|;\n" || (mode.Between? && c in "#~") then None
        else Read(rest, Bare, word + [c], words)
  }

  function Words(s: string): Option<seq<string>> {
    Read(s, Between, "", [])
  }

  // ----- The round trip -----

  /** The two passes of the printer, as one pass. */
  function Escaped(text: string): string {
    if text == "" then ""
    else (if text[0] == '\\' then "\\\\" else if text[0] == '\'' then "\\'" else [text[0]]) + Escaped(text[1..])
  }

  lemma EscapeOne(c: char)
    ensures Replaced(if c == '\\' then "\\\\" else [c], '\'', "\\'") == Escaped([c])
  {
    assert [c][1..] == "" && "\\\\"[1..] == "\\";
  }

  lemma EscapedMore(c: char, rest: string)
    ensures Escaped([c] + rest) == Escaped([c]) + Escaped(rest)
  {
    assert [c][1..] == "";
    Behind([c], rest);
  }

  lemma {:induction false} TwoPassesAreOne(text: string)
    ensures Replaced(Replaced(text, '\\', "\\\\"), '\'', "\\'") == Escaped(text)
  {
    if text == "" {
    } else {
      var first, rest := if text[0] == '\\' then "\\\\" else [text[0]], Replaced(text[1..], '\\', "\\\\");
      TwoPassesAreOne(text[1..]);
      ReplacedConcat(first, rest, '\'', "\\'");
      EscapeOne(text[0]);
      EscapedMore(text[0], text[1..]);
      assert text == [text[0]] + text[1..];
    }
  }

  lemma PlainStep(c: char, s: string, word: string, words: seq<string>)
    requires c != '\'' && c != '\\'
    ensures Read([c] + s, Single, word, words) == Read(s, Single, word + [c], words)
  {
    Behind([c], s);
  }

  lemma EscapeStep(c: char, s: string, word: string, words: seq<string>)
    requires c == '\'' || c == '\\'
    ensures Read(['\\', c] + s, Single, word, words) == Read(s, Single, word + [c], words)
  {
    Behind([c], s);
    assert (['\\', c] + s)[1..] == [c] + s;
  }

  lemma EndStep(s: string, word: string, words: seq<string>)
    ensures Read("'" + s, Single, word, words) == Read(s, Bare, word, words)
  {
    Behind("'", s);
  }

  lemma {:induction false} InSingleQuotes(text: string, s: string, word: string, words: seq<string>)
    ensures Read(Escaped(text) + "'" + s, Single, word, words) == Read(s, Bare, word + text, words)
  {
    var all := Escaped(text) + "'" + s;
    if text == "" {
      EndStep(s, word, words);
      assert all == "'" + s && word + text == word;
    } else {
      var c, tail := text[0], Escaped(text[1..]) + "'" + s;
      if c == '\\' || c == '\'' {
        assert all == ['\\', c] + tail;
        EscapeStep(c, tail, word, words);
      } else {
        assert all == [c] + tail;
        PlainStep(c, tail, word, words);
      }
      InSingleQuotes(text[1..], s, word + [c], words);
      FirstOver(word, text);
    }
  }

  lemma ReadPiece(piece: Piece, s: string, mode: Mode, word: string, words: seq<string>)
    requires mode.Between? || mode.Bare?
    ensures Read(RenderedPiece(Fish, piece) + s, mode, word, words) == Read(s, Bare, word + PieceText(piece), words)
  {
    var all := RenderedPiece(Fish, piece) + s;
    match piece {
      case Run(text) =>
        TwoPassesAreOne(text);
        assert all[1..] == Escaped(text) + "'" + s;
        InSingleQuotes(text, s, word, words);
      case _ =>
        var c := if piece.LineBreak? then 'n' else 't';
        assert all[1..] == [c] + s && ([c] + s)[1..] == s;
    }
  }

  lemma {:induction false} ReadPieces(pieces: seq<Piece>, mode: Mode, word: string, words: seq<string>)
    requires mode.Bare? || (mode.Between? && pieces != [])
    ensures Read(Concat(Map(Renderer(Fish), pieces)), mode, word, words) == Some(words + [word + PiecesText(pieces)])
  {
    if pieces == [] {
      assert word + "" == word;
    } else {
      var rest := Concat(Map(Renderer(Fish), pieces[1..]));
      ReadPiece(pieces[0], rest, mode, word, words);
      ReadPieces(pieces[1..], Bare, word + PieceText(pieces[0]), words);
      assert word + PieceText(pieces[0]) + PiecesText(pieces[1..]) == word + PiecesText(pieces);
    }
  }

  lemma ReadAll(pieces: seq<Piece>)
    requires pieces != []
    ensures Words(Concat(Map(Renderer(Fish), pieces))) == Some([PiecesText(pieces)])
  {
    var none: seq<string> := [];
    ReadPieces(pieces, Between, "", none);
    assert "" + PiecesText(pieces) == PiecesText(pieces);
    assert none + [PiecesText(pieces)] == [PiecesText(pieces)];
  }

  /** Fish reads a quoted text as one word, which is the text with its line breaks. */
  lemma RoundTrip(text: string)
    ensures Words(Quoted(Fish, text)) == Some([AsLines(text)])
  {
    LinesAreAsLines(text);
    UsedPiecesAreTheText(Lines(text));
    ReadAll(UsedPieces(Lines(text)));
  }
}
