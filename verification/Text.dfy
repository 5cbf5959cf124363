/** The text operations the curator relies on, over ASCII white space. */
module Text {
  predicate IsSpace(c: char) { c in " \t\n\r\U{000b}\U{000c}" }

  /** `len(s.split())`: the number of maximal runs of non-space characters. */
  function Words(s: string): nat { WordsFrom(s, false) }

  function WordsFrom(s: string, inWord: bool): nat {
    if s == [] then 0
    else if IsSpace(s[0]) then WordsFrom(s[1..], false)
    else (if inWord then 0 else 1) + WordsFrom(s[1..], true)
  }

  function TrimLeft(s: string): string {
    if s != [] && IsSpace(s[0]) then TrimLeft(s[1..]) else s
  }

  function TrimRight(s: string): string {
    if s != [] && IsSpace(s[|s| - 1]) then TrimRight(s[..|s| - 1]) else s
  }

  function Strip(s: string): string { TrimRight(TrimLeft(s)) }

  function Join(separator: string, parts: seq<string>): string {
    if parts == [] then ""
    else if |parts| == 1 then parts[0]
    else parts[0] + separator + Join(separator, parts[1..])
  }

  // ---- Words ---------------------------------------------------------------------------------

  /** `s.split()`: the maximal runs of non-space characters, in order. */
  function SplitWords(s: string): seq<string> { SplitFrom(s, "") }

  /** The words of `s` when `word` was read just before it. */
  function SplitFrom(s: string, word: string): seq<string> {
    if s == [] then (if word == "" then [] else [word])
    else if IsSpace(s[0]) then (if word == "" then [] else [word]) + SplitFrom(s[1..], "")
    else SplitFrom(s[1..], word + [s[0]])
  }

  predicate Blank(s: string) { forall c | c in s :: IsSpace(c) }

  /** A run without white space is one word. */
  lemma {:induction false} SolidIsOneWord(s: string, word: string)
    requires (forall c | c in s :: !IsSpace(c)) && word + s != ""
    ensures SplitFrom(s, word) == [word + s]
  {
    if s == [] {
      assert word + s == word;
    } else {
      assert s[0] in s && (word + [s[0]]) + s[1..] == word + s;
      SolidIsOneWord(s[1..], word + [s[0]]);
    }
  }

  /** White space separates words. */
  lemma {:induction false} SplitAtSpace(a: string, c: char, b: string, word: string)
    requires IsSpace(c)
    ensures SplitFrom(a + [c] + b, word) == SplitFrom(a, word) + SplitWords(b)
  {
    if a == [] {
      assert (a + [c] + b)[1..] == b && (a + [c] + b)[0] == c;
    } else {
      assert (a + [c] + b)[1..] == a[1..] + [c] + b && (a + [c] + b)[0] == a[0];
      SplitAtSpace(a[1..], c, b, if IsSpace(a[0]) then "" else word + [a[0]]);
    }
  }

  lemma {:induction false} BlankHasNoWords(s: string)
    requires Blank(s)
    ensures SplitWords(s) == []
  {
    if s != [] {
      assert s[0] in s;
      BlankHasNoWords(s[1..]);
    }
  }

  lemma {:induction false} WordsAreCounted(s: string, word: string)
    ensures |SplitFrom(s, word)| == WordsFrom(s, word != "") + if word != "" then 1 else 0
  {
    if s != [] {
      WordsAreCounted(s[1..], if IsSpace(s[0]) then "" else word + [s[0]]);
    }
  }

  lemma {:induction false} TrimLeftWords(s: string)
    ensures SplitWords(TrimLeft(s)) == SplitWords(s)
  {
    if s != [] && IsSpace(s[0]) {
      TrimLeftWords(s[1..]);
    }
  }

  lemma {:induction false} TrimRightWords(s: string)
    ensures SplitWords(TrimRight(s)) == SplitWords(s)
  {
    if s != [] && IsSpace(s[|s| - 1]) {
      var front := s[..|s| - 1];
      TrimRightWords(front);
      SplitAtSpace(front, s[|s| - 1], "", "");
      assert s == front + [s[|s| - 1]] + "";
    }
  }

  /** Stripping changes no word. */
  lemma StripWords(s: string)
    ensures SplitWords(Strip(s)) == SplitWords(s)
  {
    TrimLeftWords(s);
    TrimRightWords(TrimLeft(s));
  }

  /** A blank, nonempty separator separates words. */
  lemma {:induction false} SeparatedWords(a: string, separator: string, b: string)
    requires separator != "" && Blank(separator)
    ensures SplitWords(a + separator + b) == SplitWords(a) + SplitWords(b)
    decreases |separator|
  {
    var c, more := separator[0], separator[1..];
    assert c in separator && a + separator + b == a + [c] + (more + b);
    SplitAtSpace(a, c, more + b, "");
    if more == "" {
      assert more + b == b;
    } else {
      assert forall x | x in more :: x in separator;
      SeparatedWords("", more, b);
      assert "" + more + b == more + b && SplitWords("") == [];
    }
  }

  function AllWords(parts: seq<string>): seq<string> {
    if parts == [] then [] else SplitWords(parts[0]) + AllWords(parts[1..])
  }

  /** Joined parts have the words of the parts, in order. */
  lemma {:induction false} JoinWords(separator: string, parts: seq<string>)
    requires separator != "" && Blank(separator)
    ensures SplitWords(Join(separator, parts)) == AllWords(parts)
  {
    if |parts| == 1 {
      assert AllWords(parts[1..]) == [];
    } else if |parts| > 1 {
      JoinWords(separator, parts[1..]);
      SeparatedWords(parts[0], separator, Join(separator, parts[1..]));
    }
  }

  lemma {:induction false} StripBlank(s: string)
    ensures Strip(s) == "" <==> Blank(s)
  {
    if Blank(s) {
      TrimLeftBlank(s);
    } else {
      var i :| 0 <= i < |s| && !IsSpace(s[i]);
      TrimLeftVisible(s, i);
      TrimRightVisible(TrimLeft(s));
    }
  }

  lemma {:induction false} TrimLeftBlank(s: string)
    requires Blank(s)
    ensures TrimLeft(s) == ""
  {
    if s != [] {
      assert s[0] in s && forall c | c in s[1..] :: c in s;
      TrimLeftBlank(s[1..]);
    }
  }

  lemma {:induction false} TrimLeftVisible(s: string, i: nat)
    requires i < |s| && !IsSpace(s[i])
    ensures TrimLeft(s) != "" && !IsSpace(TrimLeft(s)[0])
  {
    if IsSpace(s[0]) {
      TrimLeftVisible(s[1..], i - 1);
    }
  }

  lemma {:induction false} TrimRightVisible(s: string)
    requires s != "" && !IsSpace(s[0])
    ensures TrimRight(s) != ""
  {
    if IsSpace(s[|s| - 1]) {
      assert s[..|s| - 1][0] == s[0];
      TrimRightVisible(s[..|s| - 1]);
    }
  }
}
