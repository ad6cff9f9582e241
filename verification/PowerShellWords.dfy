/**
 A reader of the words of a PowerShell command: `'...'` in which a doubled quote is one, `"..."`
 with backtick escapes and no variables, a sum of such strings in parentheses, and plain words.
 PowerShell takes the typographic quotes for quotes too. Anything else is not a word it reads.
 */
module PowerShellWords {
  import opened Wrappers
  import opened Text
  import opened ShellQuoting

  /** A text that was read, and what follows it. */
  datatype Cut = Cut(text: string, rest: string)

  predicate IsDoubleQuote(c: char) {
    c == '"' || c == '\U{201C}' || c == '\U{201D}' || c == '\U{201E}'
  }

  function TickEscape(c: char): char {
    match c
    case '0' => '\U{00}'
    case 'a' => '\U{07}'
    case 'b' => '\U{08}'
    case 'e' => '\U{1B}'
    case 'f' => '\U{0C}'
    case 'n' => '\n'
    case 'r' => '\r'
    case 't' => '\t'
    case 'v' => '\U{0B}'
    case _ => c
  }

  function Single(s: string, word: string): (cut: Option<Cut>)
    ensures cut.Some? ==> |cut.value.rest| < |s|
  {
    if s == "" then None
    else if !IsSingleQuote(s[0]) then Single(s[1..], word + [s[0]])
    else if |s| > 1 && IsSingleQuote(s[1]) then Single(s[2..], word + [s[0]])
    else Some(Cut(word, s[1..]))
  }

  function Double(s: string, word: string): (cut: Option<Cut>)
    ensures cut.Some? ==> |cut.value.rest| < |s|
  {
    if s == "" || s[0] == '$' then None
    else if s[0] == '`' then if |s| == 1 then None else Double(s[2..], word + [TickEscape(s[1])])
    else if !IsDoubleQuote(s[0]) then Double(s[1..], word + [s[0]])
    else if |s| > 1 && IsDoubleQuote(s[1]) then Double(s[2..], word + [s[0]])
    else Some(Cut(word, s[1..]))
  }

  function StringAt(s: string): (cut: Option<Cut>)
    ensures cut.Some? ==> |cut.value.rest| < |s|
  {
    if s == "" then None
    else if IsSingleQuote(s[0]) then Single(s[1..], "")
    else if IsDoubleQuote(s[0]) then Double(s[1..], "")
    else None
  }

  /** The rest of a sum in parentheses, after its first strings. */
  function Sum(s: string, word: string): (cut: Option<Cut>)
    ensures cut.Some? ==> |cut.value.rest| < |s|
    decreases |s|
  {
    if s == "" then None
    else if s[0] == ')' then Some(Cut(word, s[1..]))
    else if s[0] != '+' then None
    else
      match StringAt(s[1..])
      case None => None
      case Some(cut) => Sum(cut.rest, word + cut.text)
  }

  function Bare(s: string, word: string): (cut: Option<Cut>)
    requires s != "" || word != ""
    ensures cut.Some? ==> |cut.value.rest| <= |s| && (word == "" ==> |cut.value.rest| < |s|)
  {
    if s == "" || s[0] == ' ' || s[0] == '\t' then if word == "" then None else Some(Cut(word, s))
    else if s[0] in "`$(){};,|&<>@#\n\r" || IsSingleQuote(s[0]) || IsDoubleQuote(s[0]) then None
    else Bare(s[1..], word + [s[0]])
  }

  function Argument(s: string): (cut: Option<Cut>)
    requires s != ""
    ensures cut.Some? ==> |cut.value.rest| < |s|
  {
    if s[0] == '(' then
      match StringAt(s[1..])
      case None => None
      case Some(cut) => Sum(cut.rest, cut.text)
    else if IsSingleQuote(s[0]) || IsDoubleQuote(s[0]) then StringAt(s)
    else Bare(s, "")
  }

  function Read(s: string, words: seq<string>): Option<seq<string>>
    decreases |s|
  {
    if s == "" then Some(words)
    else if s[0] == ' ' || s[0] == '\t' then Read(s[1..], words)
    else
      match Argument(s)
      case None => None
      case Some(cut) =>
        if cut.rest == "" || cut.rest[0] == ' ' || cut.rest[0] == '\t'
        then Read(cut.rest, words + [cut.text])
        else None
  }

  function Words(s: string): Option<seq<string>> {
    Read(s, [])
  }

  // ----- The round trip -----

  predicate NoQuoteFirst(s: string) {
    s == "" || (!IsSingleQuote(s[0]) && !IsDoubleQuote(s[0]))
  }

  lemma PlainStep(c: char, s: string, word: string)
    requires !IsSingleQuote(c)
    ensures Single([c] + s, word) == Single(s, word + [c])
  {
    Behind([c], s);
  }

  lemma DoubledStep(c: char, s: string, word: string)
    requires IsSingleQuote(c)
    ensures Single([c, c] + s, word) == Single(s, word + [c])
  {
    Behind([c, c], s);
  }

  lemma EndStep(s: string, word: string)
    requires NoQuoteFirst(s)
    ensures Single("'" + s, word) == Some(Cut(word, s))
  {
    Behind("'", s);
  }

  lemma {:induction false} InSingleQuotes(text: string, s: string, word: string)
    requires NoQuoteFirst(s)
    ensures Single(Doubled(text) + "'" + s, word) == Some(Cut(word + text, s))
  {
    var all := Doubled(text) + "'" + s;
    if text == "" {
      EndStep(s, word);
      assert all == "'" + s && word + text == word;
    } else {
      var c, tail := text[0], Doubled(text[1..]) + "'" + s;
      if IsSingleQuote(c) {
        assert all == [c, c] + tail;
        DoubledStep(c, tail, word);
      } else {
        assert all == [c] + tail;
        PlainStep(c, tail, word);
      }
      InSingleQuotes(text[1..], s, word + [c]);
      FirstOver(word, text);
    }
  }

  lemma RunIsAString(text: string, s: string)
    requires NoQuoteFirst(s)
    ensures StringAt(RenderedPiece(PowerShell, Run(text)) + s) == Some(Cut(text, s))
  {
    var body := Doubled(text) + "'" + s;
    assert RenderedPiece(PowerShell, Run(text)) + s == "'" + body;
    Behind("'", body);
    InSingleQuotes(text, s, "");
    assert "" + text == text;
  }

  lemma DoubleEnd(s: string, word: string)
    requires NoQuoteFirst(s)
    ensures Double("\"" + s, word) == Some(Cut(word, s))
  {
    Behind("\"", s);
  }

  lemma TickStep(c: char, s: string)
    ensures Double(['`', c] + s, "") == Double(s, [TickEscape(c)])
  {
    Behind(['`', c], s);
    assert "" + [TickEscape(c)] == [TickEscape(c)];
  }

  lemma EscapeIsAString(c: char, s: string)
    requires NoQuoteFirst(s)
    ensures StringAt("\"" + (['`', c] + ("\"" + s))) == Some(Cut([TickEscape(c)], s))
  {
    Behind("\"", ['`', c] + ("\"" + s));
    TickStep(c, "\"" + s);
    DoubleEnd(s, [TickEscape(c)]);
  }

  lemma PieceIsAString(piece: Piece, s: string)
    requires NoQuoteFirst(s)
    ensures StringAt(RenderedPiece(PowerShell, piece) + s) == Some(Cut(PieceText(piece), s))
  {
    if piece.Run? {
      RunIsAString(piece.text, s);
    } else {
      var c := if piece.LineBreak? then 'n' else 't';
      assert RenderedPiece(PowerShell, piece) + s == "\"" + (['`', c] + ("\"" + s));
      EscapeIsAString(c, s);
    }
  }

  lemma SumStep(first: string, text: string, behind: string, word: string)
    requires StringAt(first + behind) == Some(Cut(text, behind))
    ensures Sum("+" + (first + behind), word) == Sum(behind, word + text)
  {
    var s := "+" + (first + behind);
    assert s[1..] == first + behind;
  }

  lemma ReadNext(piece: Piece, rest: string, word: string)
    requires NoQuoteFirst(rest + ")")
    ensures Sum("+" + (RenderedPiece(PowerShell, piece) + rest) + ")", word) == Sum(rest + ")", word + PieceText(piece))
  {
    var first := RenderedPiece(PowerShell, piece);
    PieceIsAString(piece, rest + ")");
    SumStep(first, PieceText(piece), rest + ")", word);
    assert "+" + (first + rest) + ")" == "+" + (first + (rest + ")"));
  }

  lemma {:induction false} ReadSum(pieces: seq<Piece>, word: string)
    ensures Sum(Tailed(Map(Renderer(PowerShell), pieces), "+") + ")", word) == Some(Cut(word + PiecesText(pieces), ""))
  {
    if pieces == [] {
      assert Tailed([], "+") + ")" == ")";
      assert word + "" == word;
    } else {
      ReadNext(pieces[0], Tailed(Map(Renderer(PowerShell), pieces[1..]), "+"), word);
      ReadSum(pieces[1..], word + PieceText(pieces[0]));
      Together(word, PieceText(pieces[0]), PiecesText(pieces[1..]));
    }
  }

  lemma ReadPieces(pieces: seq<Piece>)
    requires pieces != []
    ensures
      var s := Joined(PowerShell, Map(Renderer(PowerShell), pieces));
      s != "" && s[0] != ' ' && s[0] != '\t' && Argument(s) == Some(Cut(PiecesText(pieces), ""))
  {
    var parts := Map(Renderer(PowerShell), pieces);
    var first, rest := Renderer(PowerShell)(pieces[0]), parts[1..];
    assert rest == Map(Renderer(PowerShell), pieces[1..]);
    assert PiecesText(pieces) == PieceText(pieces[0]) + PiecesText(pieces[1..]);
    if rest == [] {
      assert pieces[1..] == [];
      assert Concat(parts) == parts[0] + Concat(rest) == first + "";
      assert PieceText(pieces[0]) + "" == PieceText(pieces[0]);
      PieceIsAString(pieces[0], "");
    } else {
      var behind := Tailed(rest, "+") + ")";
      JoinIsTailed(parts, "+");
      assert Joined(PowerShell, parts) == "(" + (first + behind);
      PieceIsAString(pieces[0], behind);
      ReadSum(pieces[1..], PieceText(pieces[0]));
      assert ("(" + (first + behind))[1..] == first + behind;
    }
  }

  /** PowerShell reads a quoted text as one argument, which is the text with its line breaks. */
  lemma RoundTrip(text: string)
    ensures Words(Quoted(PowerShell, text)) == Some([AsLines(text)])
  {
    LinesAreAsLines(text);
    UsedPiecesAreTheText(Lines(text));
    ReadPieces(UsedPieces(Lines(text)));
    var s, none: seq<string> := Quoted(PowerShell, text), [];
    assert s == Joined(PowerShell, Map(Renderer(PowerShell), UsedPieces(Lines(text))));
    assert none + [AsLines(text)] == [AsLines(text)];
    assert Read(s, none) == Read("", none + [AsLines(text)]);
  }
}
