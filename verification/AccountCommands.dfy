/** The command that starts an agent with another home folder, and how that folder is read back from a command. */
module AccountCommands {
  import opened Wrappers

  // ----- Printing -----

  predicate IsAsciiWord(c: char) {
    'a' <= c <= 'z' || 'A' <= c <= 'Z' || '0' <= c <= '9'
  }

  predicate IsBare(c: char) {
    IsAsciiWord(c) || c in "._-/:=@+"
  }

  /** A word of a shell, when it can be written without an escape. */
  function ShellWord(value: string): Option<string> {
    if value == "" || '\'' in value || '\n' in value || '\r' in value then None
    else if forall c :: c in value ==> IsBare(c) then Some(value)
    else Some("'" + value + "'")
  }

  function HomeCommand(windows: bool, variable: string, path: string, program: string): Option<string> {
    if windows then None
    else
      var assignment := ShellWord(variable + "=" + path);
      if assignment.Some? then Some("env " + assignment.value + " " + program) else None
  }

  // ----- Reading -----

  /** White space of Unicode. */
  predicate IsSpace(c: char) {
    '\t' <= c <= '\r' || c == ' ' || c == '\U{85}' || c == '\U{A0}' || c == '\U{1680}'
    || '\U{2000}' <= c <= '\U{200A}' || c == '\U{2028}' || c == '\U{2029}' || c == '\U{202F}'
    || c == '\U{205F}' || c == '\U{3000}'
  }

  predicate EndsWord(c: char) {
    IsSpace(c) || c in ";)&|"
  }

  /** The text before the first character that ends it, if any does. */
  function Before(text: string, ends: char -> bool): (before: string)
    ensures before <= text
  {
    if text == "" || ends(text[0]) then "" else [text[0]] + Before(text[1..], ends)
  }

  function Quote(quote: char): char -> bool {
    c => c == quote
  }

  predicate IsQuote(c: char) {
    c == '"' || c == '\''
  }

  function NotEmpty(text: string): Option<string> {
    if text == "" then None else Some(text)
  }

  function Word(text: string): Option<string> {
    if text == "" then None
    else NotEmpty(if IsQuote(text[0]) then Before(text[1..], Quote(text[0])) else Before(text, EndsWord))
  }

  predicate HasParent(path: string) {
    exists i: nat :: i + 2 <= |path| && path[i] == '.' && path[i + 1] == '.'
      && (i == 0 || path[i - 1] == '/') && (i + 2 == |path| || path[i + 2] == '/')
  }

  predicate StartsHere(path: string) {
    path == "." || "./" <= path
  }

  /** Only a root and names, after the parts that change nothing are left out. */
  predicate IsOrdinary(path: string) {
    !HasParent(path) && !StartsHere(path)
  }

  function Joined(home: string, rest: string): string {
    if "/" <= rest then rest
    else if home == "" || home[|home| - 1] == '/' then home + rest
    else home + "/" + rest
  }

  const HOME_PREFIXES := ["~/", "$HOME/", "${HOME}/"]

  function InHome(value: string): Option<string> {
    if HOME_PREFIXES[0] <= value then Some(value[|HOME_PREFIXES[0]|..])
    else if HOME_PREFIXES[1] <= value then Some(value[|HOME_PREFIXES[1]|..])
    else if HOME_PREFIXES[2] <= value then Some(value[|HOME_PREFIXES[2]|..])
    else None
  }

  function Expand(value: string, home: string): Option<string> {
    var rest := InHome(value);
    if rest.None? && !("/" <= value) then None
    else
      var path := if rest.Some? then Joined(home, rest.value) else value;
      if '$' !in path && IsOrdinary(path) then Some(path) else None
  }

  function NextMatch(text: string, key: string, from: nat): (at: Option<nat>)
    ensures at.Some? ==> from <= at.value && at.value + |key| <= |text| && text[at.value..at.value + |key|] == key
    decreases |text| - from
  {
    if from + |key| > |text| then None
    else if text[from..from + |key|] == key then Some(from)
    else if from == |text| then None
    else NextMatch(text, key, from + 1)
  }

  /** The end of another variable's name. `letters` are the letters and digits of every script. */
  predicate NamesAnother(text: string, at: nat, letters: char -> bool)
    requires at <= |text|
  {
    at > 0 && (letters(text[at - 1]) || IsAsciiWord(text[at - 1]) || text[at - 1] == '_' || text[at - 1] == '$')
  }

  /** The value of a mention: up to the quote that starts before the variable, or one word. */
  function ValueAt(text: string, at: nat, value: string): Option<string>
    requires at <= |text|
  {
    if at > 0 && IsQuote(text[at - 1]) then Some(Before(value, Quote(text[at - 1]))) else Word(value)
  }

  /** The folder that one mention of the variable names. */
  function Mention(text: string, key: string, at: nat, home: string, letters: char -> bool): Option<string>
    requires at + |key| <= |text|
  {
    if NamesAnother(text, at, letters) then None
    else
      var value := ValueAt(text, at, text[at + |key|..]);
      if value.Some? then Expand(value.value, home) else None
  }

  function HomeFrom(text: string, key: string, from: nat, home: string, letters: char -> bool): Option<string>
    requires key != ""
    decreases |text| - from
  {
    var at := NextMatch(text, key, from);
    if at.None? then None
    else
      var found := Mention(text, key, at.value, home, letters);
      if found.Some? then found else HomeFrom(text, key, at.value + |key|, home, letters)
  }

  function ReferencedHome(text: string, home: string, variable: string, letters: char -> bool): Option<string> {
    HomeFrom(text, variable + "=", 0, home, letters)
  }

  // ----- The round trip -----

  lemma {:induction false} BeforeAll(word: string, rest: string, ends: char -> bool)
    requires forall c :: c in word ==> !ends(c)
    requires rest != "" ==> ends(rest[0])
    ensures Before(word + rest, ends) == word
  {
    if word == "" {
      assert word + rest == rest;
    } else {
      assert (word + rest)[1..] == word[1..] + rest;
      BeforeAll(word[1..], rest, ends);
    }
  }

  lemma {:induction false} FirstMatch(text: string, key: string, at: nat, from: nat)
    requires key != "" && from <= at && at + |key| <= |text| && text[at..at + |key|] == key
    requires key[|key| - 1] !in text[..at + |key| - 1]
    ensures NextMatch(text, key, from) == Some(at)
    decreases at - from
  {
    if from < at {
      var end := from + |key| - 1;
      assert text[from..from + |key|][|key| - 1] == text[end];
      assert text[end] in text[..at + |key| - 1];
      FirstMatch(text, key, at, from + 1);
    }
  }

  /** The first mention in a text, when the text before it and the variable have no equals sign. */
  lemma FirstMention(front: string, variable: string, tail: string)
    requires front != "" && '=' !in front && '=' !in variable
    ensures
      var text, key := front + (variable + "=") + tail, variable + "=";
      NextMatch(text, key, 0) == Some(|front|) && text[|front| + |key|..] == tail
      && text[|front| - 1] == front[|front| - 1]
  {
    var text, key := front + (variable + "=") + tail, variable + "=";
    var at := |front|;
    assert text[at..at + |key|] == key;
    assert text[..at + |key| - 1] == front + variable;
    FirstMatch(text, key, at, 0);
  }

  lemma ExpandedIsReadBack(value: string, home: string)
    requires "/" <= home
    ensures Expand(value, home).Some? ==> IsReadBack(Expand(value, home).value)
  {
  }

  lemma MentionIsReadBack(text: string, key: string, at: nat, home: string, letters: char -> bool)
    requires "/" <= home && at + |key| <= |text|
    ensures
      var found := Mention(text, key, at, home, letters);
      found.Some? ==> IsReadBack(found.value)
  {
    var value := ValueAt(text, at, text[at + |key|..]);
    if value.Some? {
      ExpandedIsReadBack(value.value, home);
    }
  }

  /** Every folder that is found is absolute when the home is, and has no variable and no step up. */
  lemma {:induction false} FoundIsOrdinary(text: string, key: string, from: nat, home: string, letters: char -> bool)
    requires key != "" && "/" <= home
    ensures
      var found := HomeFrom(text, key, from, home, letters);
      found.None? || IsReadBack(found.value)
    decreases |text| - from
  {
    var at := NextMatch(text, key, from);
    if at.Some? {
      MentionIsReadBack(text, key, at.value, home, letters);
      if Mention(text, key, at.value, home, letters).None? {
        FoundIsOrdinary(text, key, at.value + |key|, home, letters);
      }
    }
  }

  predicate IsReadBack(path: string) {
    "/" <= path && '$' !in path && IsOrdinary(path)
  }

  lemma ExpandAbsolute(path: string, home: string)
    requires IsReadBack(path)
    ensures Expand(path, home) == Some(path)
  {
    assert path[0] == '/';
  }

  lemma Pieces(front: string, value: string, variable: string, path: string, end: string)
    requires value == variable + "=" + path
    ensures front + value + end == front + (variable + "=") + (path + end)
  {
  }

  lemma BareIsNoEnd(c: char)
    requires IsBare(c)
    ensures !EndsWord(c) && !IsQuote(c)
  {
  }

  lemma BareWord(word: string, end: string)
    requires word != "" && (forall c :: c in word ==> IsBare(c)) && end != "" && end[0] == ' '
    ensures Word(word + end) == Some(word)
  {
    forall c | c in word ensures !EndsWord(c) {
      BareIsNoEnd(c);
    }
    BeforeAll(word, end, EndsWord);
    BareIsNoEnd(word[0]);
    assert (word + end)[0] == word[0];
  }

  lemma BareValue(text: string, at: nat, value: string, path: string)
    requires 0 < at <= |text| && text[at - 1] == ' ' && Word(value) == Some(path)
    ensures ValueAt(text, at, value) == Some(path)
  {
  }

  lemma BareMention(text: string, key: string, at: nat, path: string, home: string, letters: char -> bool)
    requires IsReadBack(path) && !letters(' ')
    requires 0 < at && at + |key| <= |text| && text[at - 1] == ' '
    requires ValueAt(text, at, text[at + |key|..]) == Some(path)
    ensures Mention(text, key, at, home, letters) == Some(path)
  {
    ExpandAbsolute(path, home);
    assert !NamesAnother(text, at, letters);
  }

  lemma QuotedValue(text: string, at: nat, path: string, end: string)
    requires 0 < at <= |text| && text[at - 1] == '\'' && '\'' !in path && end != "" && end[0] == '\''
    ensures ValueAt(text, at, path + end) == Some(path)
  {
    BeforeAll(path, end, Quote('\''));
  }

  lemma QuotedMention(text: string, key: string, at: nat, path: string, home: string, letters: char -> bool)
    requires IsReadBack(path) && !letters('\'')
    requires 0 < at && at + |key| <= |text| && text[at - 1] == '\''
    requires ValueAt(text, at, text[at + |key|..]) == Some(path)
    ensures Mention(text, key, at, home, letters) == Some(path)
  {
    ExpandAbsolute(path, home);
    assert !NamesAnother(text, at, letters);
  }

  lemma BareIsRead(variable: string, path: string, end: string, home: string, letters: char -> bool)
    requires '=' !in variable && IsReadBack(path) && !letters(' ')
    requires (forall c :: c in path ==> IsBare(c)) && end != "" && end[0] == ' '
    ensures ReferencedHome("env " + (variable + "=") + (path + end), home, variable, letters) == Some(path)
  {
    var front, key := "env ", variable + "=";
    FirstMention(front, variable, path + end);
    BareWord(path, end);
    BareValue(front + key + (path + end), |front|, path + end, path);
    BareMention(front + key + (path + end), key, |front|, path, home, letters);
  }

  lemma QuotedIsRead(variable: string, path: string, end: string, home: string, letters: char -> bool)
    requires '=' !in variable && IsReadBack(path) && '\'' !in path && !letters('\'')
    requires end != "" && end[0] == '\''
    ensures ReferencedHome("env '" + (variable + "=") + (path + end), home, variable, letters) == Some(path)
  {
    var front, key := "env '", variable + "=";
    FirstMention(front, variable, path + end);
    QuotedValue(front + key + (path + end), |front|, path, end);
    QuotedMention(front + key + (path + end), key, |front|, path, home, letters);
  }

  /**
   The folder of a command is read back from it exactly when it is absolute, has no variable in it
   and takes no step up, whether the command had to quote it or not.
   */
  lemma HomeIsReadBackExactly(variable: string, path: string, program: string, home: string, letters: char -> bool)
    requires '=' !in variable && "/" <= home && !letters(' ') && !letters('\'')
    requires HomeCommand(false, variable, path, program).Some?
    ensures
      var command := HomeCommand(false, variable, path, program).value;
      ReferencedHome(command, home, variable, letters) == Some(path) <==> IsReadBack(path)
  {
    var command := HomeCommand(false, variable, path, program).value;
    if IsReadBack(path) {
      var value := variable + "=" + path;
      assert forall c :: c in path ==> c in value;
      if forall c :: c in value ==> IsBare(c) {
        Pieces("env ", value, variable, path, " " + program);
        assert command == "env " + value + (" " + program);
        BareIsRead(variable, path, " " + program, home, letters);
      } else {
        Pieces("env '", value, variable, path, "' " + program);
        assert command == "env '" + value + ("' " + program);
        QuotedIsRead(variable, path, "' " + program, home, letters);
      }
    } else {
      FoundIsOrdinary(command, variable + "=", 0, home, letters);
    }
  }
}
