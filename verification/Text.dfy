/** Splitting, joining and trimming of strings, as the lists stored in one database column use them. */
module Text {

  /** The parts between separators; there is always at least one. */
  function Split(s: string, sep: char): (parts: seq<string>)
    ensures |parts| >= 1
  {
    if s == [] then [[]]
    else
      var parts := Split(s[1..], sep);
      if s[0] == sep then [[]] + parts else [[s[0]] + parts[0]] + parts[1..]
  }

  function Join(parts: seq<string>, sep: char): string {
    if parts == [] then []
    else if |parts| == 1 then parts[0]
    else parts[0] + [sep] + Join(parts[1..], sep)
  }

  /** Removes leading and trailing characters of `cut`. */
  function Trim(s: string, cut: set<char>): string
    decreases |s|
  {
    if s == [] then []
    else if s[0] in cut then Trim(s[1..], cut)
    else if s[|s| - 1] in cut then Trim(s[..|s| - 1], cut)
    else s
  }

  const SPACES: set<char> := {
    ' ', '\t', '\n', '\r', '\U{000B}', '\U{000C}', '\U{0085}', '\U{00A0}', '\U{1680}', '\U{2000}', '\U{2001}',
    '\U{2002}', '\U{2003}', '\U{2004}', '\U{2005}', '\U{2006}', '\U{2007}', '\U{2008}', '\U{2009}', '\U{200A}',
    '\U{2028}', '\U{2029}', '\U{202F}', '\U{205F}', '\U{3000}'}

  function TrimSpace(s: string): string {
    Trim(s, SPACES)
  }

  lemma {:induction false} TrimEnds(s: string, cut: set<char>)
    ensures var t := Trim(s, cut); t == [] || (t[0] !in cut && t[|t| - 1] !in cut)
    ensures Trim(Trim(s, cut), cut) == Trim(s, cut)
    decreases |s|
  {
    if s == [] {
    } else if s[0] in cut {
      TrimEnds(s[1..], cut);
    } else if s[|s| - 1] in cut {
      TrimEnds(s[..|s| - 1], cut);
    }
  }

  /** A list kept as one string: the way keys and model names are read back from their column. */
  function ReadList(s: string, sep: char): seq<string> {
    if s == [] then [] else Split(Trim(s, {sep}), sep)
  }

  lemma {:induction false} SplitOnce(a: string, rest: string, sep: char)
    requires sep !in a
    ensures Split(a, sep) == [a]
    ensures Split(a + [sep] + rest, sep) == [a] + Split(rest, sep)
  {
    if a == [] {
      assert ([sep] + rest)[1..] == rest;
      assert a + [sep] + rest == [sep] + rest;
    } else {
      SplitOnce(a[1..], rest, sep);
      assert (a + [sep] + rest)[1..] == a[1..] + [sep] + rest;
      assert [a[0]] + a[1..] == a;
    }
  }

  /** A character in front of a split string. */
  function Glue(c: char, parts: seq<string>, sep: char): seq<string>
    requires |parts| >= 1
  {
    if c == sep then [[]] + parts else [[c] + parts[0]] + parts[1..]
  }

  lemma SplitGlue(c: char, s: string, sep: char)
    ensures Split([c] + s, sep) == Glue(c, Split(s, sep), sep)
  {
    assert ([c] + s)[1..] == s;
  }

  lemma GlueConcat(c: char, p: seq<string>, q: seq<string>, sep: char)
    requires |p| >= 1
    ensures Glue(c, p + q, sep) == Glue(c, p, sep) + q
  {
    assert (p + q)[1..] == p[1..] + q;
  }

  lemma {:induction false} SplitAppend(a: string, b: string, sep: char)
    ensures Split(a + [sep] + b, sep) == Split(a, sep) + Split(b, sep)
  {
    if a == [] {
      SplitGlue(sep, b, sep);
      assert a + [sep] + b == [sep] + b;
    } else {
      var c, rest := a[0], a[1..];
      SplitAppend(rest, b, sep);
      calc {
        Split(a + [sep] + b, sep);
        { assert a + [sep] + b == [c] + (rest + [sep] + b); }
        Split([c] + (rest + [sep] + b), sep);
        { SplitGlue(c, rest + [sep] + b, sep); }
        Glue(c, Split(rest, sep) + Split(b, sep), sep);
        { GlueConcat(c, Split(rest, sep), Split(b, sep), sep); }
        Glue(c, Split(rest, sep), sep) + Split(b, sep);
        { SplitGlue(c, rest, sep); assert [c] + rest == a; }
        Split(a, sep) + Split(b, sep);
      }
    }
  }

  lemma {:induction false} SplitJoin(parts: seq<string>, sep: char)
    requires |parts| >= 1 && forall i :: 0 <= i < |parts| ==> sep !in parts[i]
    ensures Split(Join(parts, sep), sep) == parts
  {
    if |parts| == 1 {
      SplitOnce(parts[0], [], sep);
    } else {
      SplitJoin(parts[1..], sep);
      SplitOnce(parts[0], Join(parts[1..], sep), sep);
    }
  }

  lemma {:induction false} SplitPartsClean(s: string, sep: char, i: nat)
    requires i < |Split(s, sep)|
    ensures sep !in Split(s, sep)[i]
  {
    if s != [] {
      if s[0] != sep {
        SplitPartsClean(s[1..], sep, i);
      } else if i > 0 {
        SplitPartsClean(s[1..], sep, i - 1);
      }
    }
  }

  /** An outer part is empty only next to a separator or in an empty string. */
  lemma {:induction false} SplitEnds(s: string, sep: char)
    ensures var parts := Split(s, sep);
            && (parts[0] == [] <==> s == [] || s[0] == sep)
            && (parts[|parts| - 1] == [] <==> s == [] || s[|s| - 1] == sep)
  {
    if s != [] { SplitEnds(s[1..], sep); }
  }

  lemma {:induction false} JoinEnds(parts: seq<string>, sep: char)
    requires |parts| >= 1 && parts[0] != [] && parts[|parts| - 1] != []
    ensures var s := Join(parts, sep);
            s != [] && s[0] == parts[0][0] && s[|s| - 1] == parts[|parts| - 1][|parts[|parts| - 1]| - 1]
  {
    if |parts| > 1 { JoinTail(parts, sep); }
  }

  lemma {:induction false} JoinTail(parts: seq<string>, sep: char)
    requires |parts| >= 1 && parts[|parts| - 1] != []
    ensures var s := Join(parts, sep); s != [] && s[|s| - 1] == parts[|parts| - 1][|parts[|parts| - 1]| - 1]
  {
    if |parts| > 1 { JoinTail(parts[1..], sep); }
  }

  /** The lists that survive being stored: no part holds the separator, and neither end is empty. */
  ghost predicate Storable(parts: seq<string>, sep: char) {
    && (forall i :: 0 <= i < |parts| ==> sep !in parts[i])
    && (parts != [] ==> parts[0] != [] && parts[|parts| - 1] != [])
  }

  /** Storing a list and reading it back gives the same list exactly when it is storable. */
  lemma ReadBackIff(parts: seq<string>, sep: char)
    ensures ReadList(Join(parts, sep), sep) == parts <==> Storable(parts, sep)
  {
    var s := Join(parts, sep);
    if parts != [] {
      if Storable(parts, sep) {
        JoinEnds(parts, sep);
        assert Trim(s, {sep}) == s;
        SplitJoin(parts, sep);
      } else if ReadList(s, sep) == parts {
        TrimEnds(s, {sep});
        SplitEnds(Trim(s, {sep}), sep);
        forall i | 0 <= i < |parts| ensures sep !in parts[i] { SplitPartsClean(Trim(s, {sep}), sep, i); }
      }
    }
  }
}
