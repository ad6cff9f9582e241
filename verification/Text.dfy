/** The string operations that the program takes from its standard library. */
module Text {
  import opened Wrappers

  function Repeat(c: char, n: nat): (r: string)
    ensures |r| == n && forall i :: 0 <= i < n ==> r[i] == c
  {
    seq(n, _ => c)
  }

  lemma RepeatMore(c: char, n: nat)
    ensures Repeat(c, n + 1) == Repeat(c, n) + [c] == [c] + Repeat(c, n)
  {
  }

  /** Each `c` of the text becomes `other`. */
  function Replaced(text: string, c: char, other: string): string {
    if text == "" then ""
    else (if text[0] == c then other else [text[0]]) + Replaced(text[1..], c, other)
  }

  function Concat(parts: seq<string>): string {
    if parts == [] then "" else parts[0] + Concat(parts[1..])
  }

  function Join(parts: seq<string>, separator: string): string {
    if parts == [] then ""
    else if |parts| == 1 then parts[0]
    else parts[0] + separator + Join(parts[1..], separator)
  }

  function Map<A, B>(f: A -> B, items: seq<A>): (mapped: seq<B>)
    ensures |mapped| == |items|
  {
    if items == [] then [] else [f(items[0])] + Map(f, items[1..])
  }

  lemma MapOne<A, B>(f: A -> B, item: A)
    ensures Map(f, [item]) == [f(item)]
  {
    assert [item][1..] == [];
  }

  lemma MapConcat<A, B>(f: A -> B, a: seq<A>, b: seq<A>)
    ensures Map(f, a + b) == Map(f, a) + Map(f, b)
  {
    if a == [] {
      assert a + b == b;
    } else {
      assert (a + b)[1..] == a[1..] + b;
    }
  }

  lemma Together<T>(a: seq<T>, b: seq<T>, c: seq<T>)
    ensures a + (b + c) == a + b + c
  {
  }

  lemma Regroup<T>(a: seq<T>, b: seq<T>, c: seq<T>, d: seq<T>)
    ensures a + b + c + d == a + (b + c + d)
  {
  }

  lemma FirstOfThree(text: string, middle: string, end: string)
    requires text != ""
    ensures text + middle + end == [text[0]] + (text[1..] + middle + end)
  {
  }

  lemma FirstOver(word: string, text: string)
    requires text != ""
    ensures word + [text[0]] + text[1..] == word + text
  {
  }

  lemma Behind(first: string, rest: string)
    ensures (first + rest)[|first|..] == rest
  {
  }

  lemma SplitAt<T>(s: seq<T>, at: nat)
    requires at < |s|
    ensures s[..at] + [s[at]] + s[at + 1..] == s
  {
  }

  /** The parts, each behind a separator. */
  function Tailed(parts: seq<string>, separator: string): string {
    if parts == [] then "" else separator + (parts[0] + Tailed(parts[1..], separator))
  }

  lemma {:induction false} JoinIsTailed(parts: seq<string>, separator: string)
    requires parts != []
    ensures Join(parts, separator) == parts[0] + Tailed(parts[1..], separator)
  {
    if |parts| == 1 {
    } else {
      JoinIsTailed(parts[1..], separator);
      assert parts[0] + separator + Join(parts[1..], separator) == parts[0] + (separator + Join(parts[1..], separator));
    }
  }

  /** The least index that holds one of the two characters. */
  function FindEither(text: string, a: char, b: char): (at: Option<nat>)
    ensures at.Some? ==> at.value < |text| && text[at.value] in {a, b} && a !in text[..at.value] && b !in text[..at.value]
    ensures at.None? ==> a !in text && b !in text
  {
    if text == "" then None
    else if text[0] == a || text[0] == b then Some(0)
    else
      match FindEither(text[1..], a, b)
      case None => None
      case Some(at) =>
        assert text[..at + 1] == [text[0]] + text[1..][..at];
        Some(at + 1)
  }

  function Leading(text: string, c: char): (n: nat)
    ensures n <= |text| && text[..n] == Repeat(c, n)
    ensures n < |text| ==> text[n] != c
  {
    if text == "" || text[0] != c then 0
    else
      var n := Leading(text[1..], c);
      assert text[..n + 1] == [c] + text[1..][..n];
      n + 1
  }

  lemma {:induction false} LeadingOf(c: char, n: nat, rest: string)
    requires rest == "" || rest[0] != c
    ensures Leading(Repeat(c, n) + rest, c) == n
  {
    if n == 0 {
      assert Repeat(c, 0) + rest == rest;
    } else {
      RepeatMore(c, n - 1);
      assert (Repeat(c, n) + rest)[1..] == Repeat(c, n - 1) + rest;
      LeadingOf(c, n - 1, rest);
    }
  }

  lemma ReplacedConcat(a: string, b: string, c: char, other: string)
    ensures Replaced(a + b, c, other) == Replaced(a, c, other) + Replaced(b, c, other)
  {
    if a == "" {
      assert a + b == b;
    } else {
      assert (a + b)[1..] == a[1..] + b;
    }
  }
}
