/**
  The two functions of Go's `strings` package that the service applies to an
  upstream body: `TrimSpace` and `Split`. Strings are sequences of Unicode
  scalar values, i.e. well-formed UTF-8 text.
 */
module GoStrings {

  /** The code points of Go's `unicode.IsSpace`: the Latin-1 spaces (tab, line
      feed, vertical tab, form feed, carriage return, space, NEL, no-break
      space) and the other characters of Unicode's White_Space property. */
  const SpaceCodes: set<int> := {
    0x09, 0x0A, 0x0B, 0x0C, 0x0D, 0x20, 0x85, 0xA0, 0x1680,
    0x2000, 0x2001, 0x2002, 0x2003, 0x2004, 0x2005, 0x2006, 0x2007, 0x2008, 0x2009, 0x200A,
    0x2028, 0x2029, 0x202F, 0x205F, 0x3000
  }

  predicate IsSpace(c: char) {
    c as int in SpaceCodes
  }

  /** A line that is empty or made only of white space. */
  predicate Blank(s: string) {
    forall k :: 0 <= k < |s| ==> IsSpace(s[k])
  }

  /** `s` without its leading white space: a suffix of `s`, whose dropped prefix is all white space. */
  function TrimLeft(s: string): (r: string)
    ensures |r| <= |s| && r == s[|s| - |r|..]
    ensures r == [] || !IsSpace(r[0])
    ensures forall k :: 0 <= k < |s| - |r| ==> IsSpace(s[k])
  {
    if s != [] && IsSpace(s[0]) then TrimLeft(s[1..]) else s
  }

  /** `s` without its trailing white space: a prefix of `s`, whose dropped suffix is all white space. */
  function TrimRight(s: string): (r: string)
    ensures |r| <= |s| && r == s[..|r|]
    ensures r == [] || !IsSpace(r[|r| - 1])
    ensures forall k :: |r| <= k < |s| ==> IsSpace(s[k])
  {
    if s != [] && IsSpace(s[|s| - 1]) then TrimRight(s[..|s| - 1]) else s
  }

  /** Go's `strings.TrimSpace`: the infix of `s` left after removing white space at both ends. */
  function TrimSpace(s: string): (r: string)
    ensures r == [] <==> Blank(s)
    ensures r != [] ==> !IsSpace(r[0]) && !IsSpace(r[|r| - 1])
  {
    TrimRight(TrimLeft(s))
  }

  /** What `TrimSpace` drops is white space, at the two ends only. */
  lemma TrimSpaceInfix(s: string)
    ensures var i, r := |s| - |TrimLeft(s)|, TrimSpace(s);
      i + |r| <= |s| && r == s[i..i + |r|]
      && (forall k :: 0 <= k < i ==> IsSpace(s[k]))
      && (forall k :: i + |r| <= k < |s| ==> IsSpace(s[k]))
  {
    var left := TrimLeft(s);
    var i, r := |s| - |left|, TrimRight(left);
    assert left == s[i..] && r == left[..|r|];
    forall k | i + |r| <= k < |s|
      ensures IsSpace(s[k])
    {
      assert s[k] == left[k - i];
    }
  }

  /** A string without white space is its own trimming. */
  lemma TrimSpaceNoSpace(s: string)
    requires forall k :: 0 <= k < |s| ==> !IsSpace(s[k])
    ensures TrimSpace(s) == s
  {
  }

  /** Go's `strings.Split(s, sep)` for a one-character separator: the pieces
      of `s` between occurrences of `sep`; one piece more than there are separators. */
  function Split(s: string, sep: char): (pieces: seq<string>)
    ensures |pieces| >= 1
  {
    SplitFrom(s, sep, [])
  }

  /** The scan behind `Split`: `current` is the piece read so far. */
  function SplitFrom(s: string, sep: char, current: string): (pieces: seq<string>)
    ensures |pieces| >= 1
  {
    if s == [] then [current]
    else if s[0] == sep then [current] + SplitFrom(s[1..], sep, [])
    else SplitFrom(s[1..], sep, current + [s[0]])
  }

  /** Joining one or more pieces with `sep` between them: the inverse of `Split`. */
  function Join(pieces: seq<string>, sep: char): string
    requires |pieces| >= 1
  {
    if |pieces| == 1 then pieces[0] else pieces[0] + [sep] + Join(pieces[1..], sep)
  }

  lemma {:induction false} SplitFromHasNoSeparator(s: string, sep: char, current: string)
    requires sep !in current
    ensures forall i :: 0 <= i < |SplitFrom(s, sep, current)| ==> sep !in SplitFrom(s, sep, current)[i]
  {
    if s != [] {
      if s[0] == sep {
        SplitFromHasNoSeparator(s[1..], sep, []);
      } else {
        SplitFromHasNoSeparator(s[1..], sep, current + [s[0]]);
      }
    }
  }

  /** No piece produced by `Split` contains the separator. */
  lemma SplitPiecesHaveNoSeparator(s: string, sep: char)
    ensures forall i :: 0 <= i < |Split(s, sep)| ==> sep !in Split(s, sep)[i]
  {
    SplitFromHasNoSeparator(s, sep, []);
  }

  lemma {:induction false} JoinSplitFrom(s: string, sep: char, current: string)
    ensures Join(SplitFrom(s, sep, current), sep) == current + s
  {
    if s == [] {
      assert current + s == current;
    } else if s[0] == sep {
      var rest := SplitFrom(s[1..], sep, []);
      JoinSplitFrom(s[1..], sep, []);
      var pieces := [current] + rest;
      assert pieces[0] == current && pieces[1..] == rest;
      assert Join(pieces, sep) == current + [sep] + Join(rest, sep);
      assert current + s == current + [sep] + s[1..];
    } else {
      assert SplitFrom(s, sep, current) == SplitFrom(s[1..], sep, current + [s[0]]);
      JoinSplitFrom(s[1..], sep, current + [s[0]]);
      assert current + s == current + [s[0]] + s[1..];
    }
  }

  /** Joining the pieces with the separator gives back the string: nothing is lost or reordered. */
  lemma JoinSplit(s: string, sep: char)
    ensures Join(Split(s, sep), sep) == s
  {
    JoinSplitFrom(s, sep, []);
  }

  lemma {:induction false} SplitFromAppend(a: string, b: string, sep: char, current: string)
    ensures SplitFrom(a + [sep] + b, sep, current) == SplitFrom(a, sep, current) + SplitFrom(b, sep, [])
  {
    var s := a + [sep] + b;
    if a == [] {
      assert s[1..] == b;
    } else {
      assert s[0] == a[0] && s[1..] == a[1..] + [sep] + b;
      if a[0] == sep {
        SplitFromAppend(a[1..], b, sep, []);
      } else {
        SplitFromAppend(a[1..], b, sep, current + [a[0]]);
      }
    }
  }

  /** Splitting at a separator splits the pieces: `a + sep + b` has the pieces of `a`, then those of `b`. */
  lemma SplitAppend(a: string, b: string, sep: char)
    ensures Split(a + [sep] + b, sep) == Split(a, sep) + Split(b, sep)
  {
    SplitFromAppend(a, b, sep, []);
  }

  lemma {:induction false} SplitFromNoSeparator(s: string, sep: char, current: string)
    requires sep !in s
    ensures SplitFrom(s, sep, current) == [current + s]
  {
    if s == [] {
      assert current + s == current;
    } else {
      assert s[0] in s;
      SplitFromNoSeparator(s[1..], sep, current + [s[0]]);
      assert current + [s[0]] + s[1..] == current + s;
    }
  }

  /** Splitting what `Join` built gives back the pieces, when none contains the separator. */
  lemma {:induction false} SplitJoin(pieces: seq<string>, sep: char)
    requires |pieces| >= 1
    requires forall i :: 0 <= i < |pieces| ==> sep !in pieces[i]
    ensures Split(Join(pieces, sep), sep) == pieces
  {
    SplitFromNoSeparator(pieces[0], sep, []);
    assert [] + pieces[0] == pieces[0];
    if |pieces| > 1 {
      SplitJoin(pieces[1..], sep);
      SplitAppend(pieces[0], Join(pieces[1..], sep), sep);
    }
  }
}
