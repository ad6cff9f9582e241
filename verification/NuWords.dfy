/**
 A reader of the words of a nu command: raw strings, which end at a quote with as many `#` behind
 it as they started with, `"..."` with backslash escapes, `'...'` with none, strings that `++`
 puts together in parentheses, and plain words. Anything else is not a word it reads.
 */
module NuWords {
  import opened Wrappers
  import opened Text
  import opened ShellQuoting

  datatype Cut = Cut(text: string, rest: string)

  function Escaped(c: char): Option<char> {
    match c
    case '"' => Some('"')
    case '\'' => Some('\'')
    case '\\' => Some('\\')
    case '/' => Some('/')
    case 'b' => Some('\U{08}')
    case 'f' => Some('\U{0C}')
    case 'n' => Some('\n')
    case 'r' => Some('\r')
    case 't' => Some('\t')
    case _ => None
  }

  /** The body of a raw string with so many `#`. */
  function Raw(s: string, hashes: nat, word: string): (cut: Option<Cut>)
    ensures cut.Some? ==> |cut.value.rest| < |s|
  {
    if s == "" then None
    else if s[0] == '\'' && Leading(s[1..], '#') >= hashes then Some(Cut(word, s[1 + hashes..]))
    else Raw(s[1..], hashes, word + [s[0]])
  }

  function Single(s: string, word: string): (cut: Option<Cut>)
    ensures cut.Some? ==> |cut.value.rest| < |s|
  {
    if s == "" then None
    else if s[0] == '\'' then Some(Cut(word, s[1..]))
    else Single(s[1..], word + [s[0]])
  }

  function Double(s: string, word: string): (cut: Option<Cut>)
    ensures cut.Some? ==> |cut.value.rest| < |s|
  {
    if s == "" then None
    else if s[0] == '"' then Some(Cut(word, s[1..]))
    else if s[0] != '\\' then Double(s[1..], word + [s[0]])
    else if |s| == 1 || Escaped(s[1]).None? then None
    else Double(s[2..], word + [Escaped(s[1]).value])
  }

  function StringAt(s: string): (cut: Option<Cut>)
    ensures cut.Some? ==> |cut.value.rest| < |s|
  {
    if s == "" then None
    else if s[0] == '"' then Double(s[1..], "")
    else if s[0] == '\'' then Single(s[1..], "")
    else
      var hashes := Leading(s[1..], '#');
      if s[0] == 'r' && hashes > 0 && |s| > hashes + 1 && s[hashes + 1] == '\'' then Raw(s[hashes + 2..], hashes, "")
      else None
  }

  const PLUS := " ++ "

  function Sum(s: string, word: string): (cut: Option<Cut>)
    ensures cut.Some? ==> |cut.value.rest| < |s|
    decreases |s|
  {
    if s == "" then None
    else if s[0] == ')' then Some(Cut(word, s[1..]))
    else if !(PLUS <= s) then None
    else
      match StringAt(s[4..])
      case None => None
      case Some(cut) => Sum(cut.rest, word + cut.text)
  }

  function Bare(s: string, word: string): (cut: Option<Cut>)
    ensures cut.Some? ==> |cut.value.rest| <= |s| && (word == "" ==> |cut.value.rest| < |s|)
  {
    if s == "" || s[0] == ' ' || s[0] == '\t' then if word == "" then None else Some(Cut(word, s))
    else if s[0] in "\"'`$()[]{};|<>#&*?~\n\r" then None
    else Bare(s[1..], word + [s[0]])
  }

  function Argument(s: string): (cut: Option<Cut>)
    requires s != ""
    ensures cut.Some? ==> |cut.value.rest| < |s|
  {
    if s[0] == '(' then
      match StringAt(s[1..])
      case None => None
      case Some(cut) => Sum(cut.rest, cut.text)
    else if StringAt(s).Some? then StringAt(s)
    else Bare(s, "")
  }

  function Read(s: string, words: seq<string>): Option<seq<string>>
    decreases |s|
  {
    if s == "" then Some(words)
    else if s[0] == ' ' || s[0] == '\t' then Read(s[1..], words)
    else
      match Argument(s)
      case None => None
      case Some(cut) =>
        if cut.rest == "" || cut.rest[0] == ' ' || cut.rest[0] == '\t'
        then Read(cut.rest, words + [cut.text])
        else None
  }

  function Words(s: string): Option<seq<string>> {
    Read(s, [])
  }

  // ----- The round trip -----

  lemma {:induction false} FirstRun(text: string, s: string)
    ensures Leading(text + "'" + s, '#') == HashRuns(text)[0]
  {
    var all := text + "'" + s;
    if text != "" && text[0] == '#' {
      FirstRun(text[1..], s);
      assert all[1..] == text[1..] + "'" + s;
    }
  }

  lemma MoreIsNoLess(later: seq<nat>, runs: seq<nat>)
    requires later != []
    requires runs == [later[0] + 1] + later[1..] || runs == [0] + later
    ensures Largest(later) <= Largest(runs)
  {
    var i :| 0 <= i < |later| && later[i] == Largest(later);
    if runs == [0] + later {
      assert runs[i + 1] == later[i];
    } else if i == 0 {
      assert runs[0] == later[0] + 1;
    } else {
      assert runs[i] == later[1..][i - 1];
    }
  }

  lemma LaterRunsAreNoLonger(text: string)
    requires text != ""
    ensures Largest(HashRuns(text[1..])) <= Largest(HashRuns(text))
  {
    MoreIsNoLess(HashRuns(text[1..]), HashRuns(text));
  }

  lemma RawStep(c: char, tail: string, hashes: nat, word: string)
    requires c == '\'' ==> Leading(tail, '#') < hashes
    ensures Raw([c] + tail, hashes, word) == Raw(tail, hashes, word + [c])
  {
    assert ([c] + tail)[1..] == tail;
  }

  lemma RawEnd(hashes: nat, s: string, word: string)
    ensures Raw("'" + (Repeat('#', hashes) + s), hashes, word) == Some(Cut(word, s))
  {
    var end := Repeat('#', hashes) + s;
    LeadingAtLeast('#', hashes, s);
    assert ("'" + end)[1..] == end && ("'" + end)[1 + hashes..] == s;
  }

  /** No quote inside the text has enough `#` behind it, so the string ends where it was meant to. */
  lemma {:induction false} InRawQuotes(text: string, hashes: nat, s: string, word: string)
    requires Largest(HashRuns(text)) < hashes
    ensures Raw(text + "'" + (Repeat('#', hashes) + s), hashes, word) == Some(Cut(word + text, s))
  {
    var end := Repeat('#', hashes) + s;
    if text == "" {
      RawEnd(hashes, s, word);
      assert text + "'" + end == "'" + end;
      assert word + text == word;
    } else {
      var tail := text[1..] + "'" + end;
      LaterRunsAreNoLonger(text);
      FirstRun(text[1..], end);
      RawStep(text[0], tail, hashes, word);
      InRawQuotes(text[1..], hashes, s, word + [text[0]]);
      FirstOfThree(text, "'", end);
      FirstOver(word, text);
    }
  }

  lemma {:induction false} LeadingAtLeast(c: char, n: nat, rest: string)
    ensures Leading(Repeat(c, n) + rest, c) >= n
  {
    if n == 0 {
    } else {
      LeadingAtLeast(c, n - 1, rest);
      RepeatMore(c, n - 1);
      assert (Repeat(c, n) + rest)[1..] == Repeat(c, n - 1) + rest;
    }
  }

  lemma Nested(r: string, hashes: string, quote: string, text: string, s: string)
    ensures r + hashes + quote + text + quote + hashes + s == r + (hashes + (quote + (text + quote + (hashes + s))))
  {
    var opening, body := r + hashes + quote, text + quote + (hashes + s);
    Together(opening + text + quote, hashes, s);
    Together(opening, text, quote);
    Together(opening, text + quote, hashes + s);
    Regroup(r, hashes, quote, body);
    Together(hashes, quote, body);
  }

  lemma RunShape(text: string, s: string)
    ensures RenderedPiece(Nu, Run(text)) + s
      == "r" + (NuHashes(text) + ("'" + (text + "'" + (NuHashes(text) + s))))
  {
    Nested("r", NuHashes(text), "'", text, s);
  }

  lemma RawStart(hashes: nat, body: string)
    requires hashes > 0
    ensures StringAt("r" + (Repeat('#', hashes) + ("'" + body))) == Raw(body, hashes, "")
  {
    var opening := Repeat('#', hashes);
    var all, quoted := "r" + (opening + ("'" + body)), "'" + body;
    assert all[1..] == opening + quoted by {
      Behind("r", opening + quoted);
    }
    LeadingOf('#', hashes, quoted);
    assert all[hashes + 1] == quoted[0];
    assert all[hashes + 2..] == body by {
      Behind("r" + opening + "'", body);
      assert all == "r" + opening + "'" + body;
    }
    RawAt(all, hashes, body);
  }

  lemma RawAt(s: string, hashes: nat, body: string)
    requires |s| > hashes + 1 && s[0] == 'r' && s[hashes + 1] == '\'' && s[hashes + 2..] == body
    requires hashes == Leading(s[1..], '#') > 0
    ensures StringAt(s) == Raw(body, hashes, "")
  {
  }

  lemma RawIsAString(text: string, hashes: nat, s: string)
    requires Largest(HashRuns(text)) < hashes
    ensures
      StringAt("r" + (Repeat('#', hashes) + ("'" + (text + "'" + (Repeat('#', hashes) + s))))) == Some(Cut(text, s))
  {
    RawStart(hashes, text + "'" + (Repeat('#', hashes) + s));
    InRawQuotes(text, hashes, s, "");
    assert "" + text == text;
  }

  lemma RunIsAString(text: string, s: string)
    ensures StringAt(RenderedPiece(Nu, Run(text)) + s) == Some(Cut(text, s))
  {
    RunShape(text, s);
    RawIsAString(text, Largest(HashRuns(text)) + 1, s);
  }

  lemma DoubleEnd(s: string, word: string)
    ensures Double("\"" + s, word) == Some(Cut(word, s))
  {
    Behind("\"", s);
  }

  lemma EscapeStep(c: char, s: string)
    requires Escaped(c).Some?
    ensures Double(['\\', c] + s, "") == Double(s, [Escaped(c).value])
  {
    Behind(['\\', c], s);
    assert "" + [Escaped(c).value] == [Escaped(c).value];
  }

  lemma EscapeIsAString(c: char, s: string)
    requires Escaped(c).Some?
    ensures StringAt("\"" + (['\\', c] + ("\"" + s))) == Some(Cut([Escaped(c).value], s))
  {
    Behind("\"", ['\\', c] + ("\"" + s));
    EscapeStep(c, "\"" + s);
    DoubleEnd(s, [Escaped(c).value]);
  }

  lemma PieceIsAString(piece: Piece, s: string)
    ensures StringAt(RenderedPiece(Nu, piece) + s) == Some(Cut(PieceText(piece), s))
  {
    if piece.Run? {
      RunIsAString(piece.text, s);
    } else {
      var c := if piece.LineBreak? then 'n' else 't';
      assert RenderedPiece(Nu, piece) + s == "\"" + (['\\', c] + ("\"" + s));
      EscapeIsAString(c, s);
    }
  }

  lemma SumStep(first: string, text: string, behind: string, word: string)
    requires StringAt(first + behind) == Some(Cut(text, behind))
    ensures Sum(PLUS + (first + behind), word) == Sum(behind, word + text)
  {
    var s := PLUS + (first + behind);
    assert s[4..] == first + behind;
  }

  lemma ReadNext(piece: Piece, rest: string, word: string)
    ensures Sum(PLUS + (RenderedPiece(Nu, piece) + rest) + ")", word) == Sum(rest + ")", word + PieceText(piece))
  {
    var first := RenderedPiece(Nu, piece);
    PieceIsAString(piece, rest + ")");
    SumStep(first, PieceText(piece), rest + ")", word);
    assert PLUS + (first + rest) + ")" == PLUS + (first + (rest + ")"));
  }

  lemma {:induction false} ReadSum(pieces: seq<Piece>, word: string)
    ensures Sum(Tailed(Map(Renderer(Nu), pieces), PLUS) + ")", word) == Some(Cut(word + PiecesText(pieces), ""))
  {
    if pieces == [] {
      assert Tailed([], PLUS) + ")" == ")";
      assert word + "" == word;
    } else {
      ReadNext(pieces[0], Tailed(Map(Renderer(Nu), pieces[1..]), PLUS), word);
      ReadSum(pieces[1..], word + PieceText(pieces[0]));
      Together(word, PieceText(pieces[0]), PiecesText(pieces[1..]));
    }
  }

  lemma ReadPieces(pieces: seq<Piece>)
    requires pieces != []
    ensures
      var s := Joined(Nu, Map(Renderer(Nu), pieces));
      s != "" && s[0] != ' ' && s[0] != '\t' && Argument(s) == Some(Cut(PiecesText(pieces), ""))
  {
    var parts := Map(Renderer(Nu), pieces);
    var first, rest := Renderer(Nu)(pieces[0]), parts[1..];
    assert rest == Map(Renderer(Nu), pieces[1..]);
    assert PiecesText(pieces) == PieceText(pieces[0]) + PiecesText(pieces[1..]);
    if rest == [] {
      assert pieces[1..] == [];
      assert Concat(parts) == parts[0] + Concat(rest) == first + "";
      assert PieceText(pieces[0]) + "" == PieceText(pieces[0]);
      PieceIsAString(pieces[0], "");
    } else {
      var behind := Tailed(rest, PLUS) + ")";
      JoinIsTailed(parts, PLUS);
      assert Joined(Nu, parts) == "(" + (first + behind);
      PieceIsAString(pieces[0], behind);
      ReadSum(pieces[1..], PieceText(pieces[0]));
      assert ("(" + (first + behind))[1..] == first + behind;
    }
  }

  /** Nu reads a quoted text as one word, which is the text with its line breaks. */
  lemma RoundTrip(text: string)
    ensures Words(Quoted(Nu, text)) == Some([AsLines(text)])
  {
    LinesAreAsLines(text);
    UsedPiecesAreTheText(Lines(text));
    ReadPieces(UsedPieces(Lines(text)));
    var s, none: seq<string> := Quoted(Nu, text), [];
    assert s == Joined(Nu, Map(Renderer(Nu), UsedPieces(Lines(text))));
    assert none + [AsLines(text)] == [AsLines(text)];
    assert Read(s, none) == Read("", none + [AsLines(text)]);
  }
}
