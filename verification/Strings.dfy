/** The string operations the response classifier is built from: splitting a
    text on '\n', stripping characters from either end, lower-casing, the
    substring test and deleting every occurrence of a character. */
module Strings {

  /** The characters for which Python's `str.isspace()` holds; `str.strip()`
      with no argument removes exactly these from both ends. */
  const Whitespace: set<char> := {
    '\t', '\n', '\U{B}', '\U{C}', '\r', '\U{1C}', '\U{1D}', '\U{1E}', '\U{1F}', ' ',
    '\U{85}', '\U{A0}', '\U{1680}',
    '\U{2000}', '\U{2001}', '\U{2002}', '\U{2003}', '\U{2004}', '\U{2005}',
    '\U{2006}', '\U{2007}', '\U{2008}', '\U{2009}', '\U{200A}',
    '\U{2028}', '\U{2029}', '\U{202F}', '\U{205F}', '\U{3000}'
  }

  // ---------------------------------------------------------------- splitting

  /** Re-joins lines with '\n' between consecutive ones. */
  function JoinLines(lines: seq<string>): string
    requires |lines| >= 1
  {
    if |lines| == 1 then lines[0] else lines[0] + "\n" + JoinLines(lines[1..])
  }

  /** `s.split('\n')`: at least one piece, no piece holds a '\n', and joining
      the pieces with '\n' gives back `s`. */
  function SplitLines(s: string): (lines: seq<string>)
    ensures |lines| >= 1
    ensures forall i :: 0 <= i < |lines| ==> '\n' !in lines[i]
    ensures JoinLines(lines) == s
  {
    if s == [] then [[]]
    else
      var rest := SplitLines(s[1..]);
      if s[0] == '\n' then
        assert s == "\n" + s[1..];
        [[]] + rest
      else
        var lines := [[s[0]] + rest[0]] + rest[1..];
        assert lines[1..] == rest[1..];
        assert |rest| > 1 ==> JoinLines(rest) == rest[0] + "\n" + JoinLines(rest[1..]);
        assert s == [s[0]] + s[1..];
        lines
  }

  /** Splitting a word with no '\n' in it glues the word onto the first piece. */
  lemma {:induction false} SplitPrefix(w: string, t: string)
    requires '\n' !in w
    ensures SplitLines(w + t) == [w + SplitLines(t)[0]] + SplitLines(t)[1..]
  {
    if w != [] {
      assert (w + t)[0] == w[0];
      assert (w + t)[1..] == w[1..] + t;
      SplitPrefix(w[1..], t);
      assert [w[0]] + (w[1..] + SplitLines(t)[0]) == w + SplitLines(t)[0];
    } else {
      assert w + t == t;
      assert w + SplitLines(t)[0] == SplitLines(t)[0];
      assert [SplitLines(t)[0]] + SplitLines(t)[1..] == SplitLines(t);
    }
  }

  /** The other half of the round trip: splitting joined lines gives the lines back. */
  lemma {:induction false} SplitJoin(lines: seq<string>)
    requires |lines| >= 1
    requires forall i :: 0 <= i < |lines| ==> '\n' !in lines[i]
    ensures SplitLines(JoinLines(lines)) == lines
  {
    if |lines| == 1 {
      SplitPrefix(lines[0], "");
      assert lines[0] + "" == lines[0];
    } else {
      var j := JoinLines(lines[1..]);
      SplitJoin(lines[1..]);
      assert ("\n" + j)[0] == '\n' && ("\n" + j)[1..] == j;
      assert SplitLines("\n" + j) == [""] + lines[1..];
      assert lines[0] + "\n" + j == lines[0] + ("\n" + j);
      SplitPrefix(lines[0], "\n" + j);
      assert lines[0] + "" == lines[0];
    }
  }

  // ---------------------------------------------------------------- stripping

  /** `s.lstrip(chars)`: drops the longest prefix made only of `chars`. */
  function LStrip(s: string, chars: set<char>): (r: string)
    ensures |r| <= |s| && r == s[|s| - |r|..]
    ensures r == [] || r[0] !in chars
    ensures forall k :: 0 <= k < |s| - |r| ==> s[k] in chars
  {
    if s != [] && s[0] in chars then LStrip(s[1..], chars) else s
  }

  /** Stripping removes exactly the first `n` characters when they are all in
      `chars` and the next one is not. */
  lemma LStripExact(s: string, chars: set<char>, n: nat)
    requires n <= |s|
    requires forall k :: 0 <= k < n ==> s[k] in chars
    requires n == |s| || s[n] !in chars
    ensures LStrip(s, chars) == s[n..]
  {
  }

  /** `s.rstrip(chars)`: drops the longest suffix made only of `chars`. */
  function RStrip(s: string, chars: set<char>): (r: string)
    ensures |r| <= |s| && r == s[..|r|]
    ensures r == [] || r[|r| - 1] !in chars
    ensures forall k :: |r| <= k < |s| ==> s[k] in chars
  {
    if s != [] && s[|s| - 1] in chars then RStrip(s[..|s| - 1], chars) else s
  }

  /** `s.strip(chars)`: drops the longest prefix and the longest suffix made
      only of `chars`; the result is empty exactly when every character of `s`
      is in `chars`. That it is a slice of `s` is stated by `StripSlice`. */
  function Strip(s: string, chars: set<char>): (r: string)
    ensures |r| <= |s|
    ensures r == [] || (r[0] !in chars && r[|r| - 1] !in chars)
    ensures r == [] <==> forall k :: 0 <= k < |s| ==> s[k] in chars
    ensures forall c :: c in r ==> c in s
  {
    var l := LStrip(s, chars);
    var r := RStrip(l, chars);
    StripFacts(s, chars, l, r);
    r
  }

  /** `strip` cuts `s` at two points `i <= j`: what is left is the slice
      `s[i..j]`, and only characters of `chars` are cut away before `i` and
      from `j` on. */
  lemma StripSlice(s: string, chars: set<char>) returns (i: nat, j: nat)
    ensures i <= j <= |s| && Strip(s, chars) == s[i..j]
    ensures forall k :: 0 <= k < i ==> s[k] in chars
    ensures forall k :: j <= k < |s| ==> s[k] in chars
  {
    var l := LStrip(s, chars);
    var r := RStrip(l, chars);
    assert Strip(s, chars) == r;
    SliceOfSuffix(s, l, r, chars);
    i, j := |s| - |l|, |s| - |l| + |r|;
  }

  /** A prefix `r` of a suffix `l` of `s` is a slice of `s`; the characters
      of `s` after it are those of `l` after it. */
  lemma SliceOfSuffix(s: string, l: string, r: string, chars: set<char>)
    requires |l| <= |s| && l == s[|s| - |l|..]
    requires |r| <= |l| && r == l[..|r|]
    requires forall k :: |r| <= k < |l| ==> l[k] in chars
    ensures r == s[|s| - |l|..|s| - |l| + |r|]
    ensures forall k :: |s| - |l| + |r| <= k < |s| ==> s[k] in chars
  {
    var i := |s| - |l|;
    forall k | i + |r| <= k < |s| ensures s[k] in chars {
      assert s[k] == l[k - i];
    }
  }

  /** What `Strip` promises, from what `LStrip` and `RStrip` promise: a prefix
      `r` of a suffix `l` of `s`, each cut only at characters of `chars`. */
  lemma StripFacts(s: string, chars: set<char>, l: string, r: string)
    requires |l| <= |s| && l == s[|s| - |l|..]
    requires l == [] || l[0] !in chars
    requires forall k :: 0 <= k < |s| - |l| ==> s[k] in chars
    requires |r| <= |l| && r == l[..|r|]
    requires r == [] || r[|r| - 1] !in chars
    requires forall k :: |r| <= k < |l| ==> l[k] in chars
    ensures |r| <= |s|
    ensures r == [] || (r[0] !in chars && r[|r| - 1] !in chars)
    ensures r == [] <==> forall k :: 0 <= k < |s| ==> s[k] in chars
    ensures forall c :: c in r ==> c in s
  {
    var i := |s| - |l|;
    var j := i + |r|;
    forall k | j <= k < |s| ensures s[k] in chars {
      assert s[k] == l[k - i];
    }
    assert r == s[i..j];
    if r != [] {
      assert r[0] == l[0];
    }
  }

  /** A string already free of `chars` at both ends is left as it is. */
  lemma StripUntouched(s: string, chars: set<char>)
    requires s == [] || (s[0] !in chars && s[|s| - 1] !in chars)
    ensures Strip(s, chars) == s
  {
    assert LStrip(s, chars) == s;
  }

  // ------------------------------------------------------------------- case

  /** ASCII lower-casing of one character. */
  function LowerChar(c: char): (d: char)
    ensures !('A' <= d <= 'Z')
    ensures d == c || ('A' <= c <= 'Z' && d as int == c as int + 32)
  {
    if 'A' <= c <= 'Z' then (c as int + 32) as char else c
  }

  /** `s.lower()` on ASCII letters: same length, no upper-case ASCII letter
      left, and every character either kept or moved to its lower-case letter. */
  function Lower(s: string): (r: string)
    ensures |r| == |s|
    ensures forall i :: 0 <= i < |r| ==> !('A' <= r[i] <= 'Z')
    ensures forall i :: 0 <= i < |s| ==> r[i] == s[i] || ('A' <= s[i] <= 'Z' && r[i] as int == s[i] as int + 32)
  {
    seq(|s|, i requires 0 <= i < |s| => LowerChar(s[i]))
  }

  /** Lower-casing works character by character, so it distributes over
      concatenation. */
  lemma LowerAppend(a: string, b: string)
    ensures Lower(a + b) == Lower(a) + Lower(b)
  {
  }

  // -------------------------------------------------------------- searching

  /** `p` occurs in `s` starting at index `i`. */
  predicate OccursAt(s: string, p: string, i: nat)
  {
    i + |p| <= |s| && s[i..i + |p|] == p
  }

  /** `p in s`: `p` occurs in `s` at some position. */
  predicate Contains(s: string, p: string)
  {
    exists i :: 0 <= i <= |s| - |p| && OccursAt(s, p, i)
  }

  /** `p` occurs in `a + p + b`. */
  lemma ContainsAt(s: string, a: string, p: string, b: string)
    requires s == a + p + b
    ensures Contains(s, p)
  {
    assert s[|a|..|a| + |p|] == p;
    assert OccursAt(s, p, |a|);
  }

  /** `p` cannot occur in `s` when one of its characters never occurs in `s`. */
  lemma CharMissing(s: string, p: string, j: nat)
    requires j < |p| && p[j] !in s
    ensures !Contains(s, p)
  {
  }

  /** `p` cannot occur in `s` when two adjacent characters of `p` are never
      adjacent in `s`. */
  lemma PairMissing(s: string, p: string, j: nat)
    requires j + 1 < |p|
    requires forall k :: 0 <= k < |s| - 1 ==> !(s[k] == p[j] && s[k + 1] == p[j + 1])
    ensures !Contains(s, p)
  {
    forall i | 0 <= i <= |s| - |p| ensures !OccursAt(s, p, i) {
      if i + |p| <= |s| {
        assert s[i..i + |p|][j] == s[i + j] && s[i..i + |p|][j + 1] == s[i + j + 1];
      }
    }
  }

  // -------------------------------------------------------------- replacing

  /** `s.replace(c, '')`: `s` with every occurrence of `c` deleted. */
  function RemoveChar(s: string, c: char): string
  {
    if s == [] then []
    else if s[0] == c then RemoveChar(s[1..], c)
    else [s[0]] + RemoveChar(s[1..], c)
  }

  /** After removing `c`, no `c` is left and every other character keeps its
      number of occurrences. */
  lemma {:induction false} RemoveCharCount(s: string, c: char)
    ensures |RemoveChar(s, c)| <= |s|
    ensures multiset(RemoveChar(s, c)) == multiset(s)[c := 0]
  {
    if s != [] {
      var rest := RemoveChar(s[1..], c);
      RemoveCharCount(s[1..], c);
      assert s == [s[0]] + s[1..];
      assert multiset(s) == multiset{s[0]} + multiset(s[1..]);
      if s[0] != c {
        assert RemoveChar(s, c) == [s[0]] + rest;
        assert multiset(RemoveChar(s, c)) == multiset{s[0]} + multiset(rest);
      }
    }
  }

  /** Removing a character distributes over concatenation. */
  lemma {:induction false} RemoveCharAppend(s: string, t: string, c: char)
    ensures RemoveChar(s + t, c) == RemoveChar(s, c) + RemoveChar(t, c)
  {
    if s != [] {
      assert (s + t)[0] == s[0] && (s + t)[1..] == s[1..] + t;
      RemoveCharAppend(s[1..], t, c);
    } else {
      assert s + t == t;
    }
  }

  /** Removing a character that does not occur changes nothing. */
  lemma {:induction false} RemoveAbsent(s: string, c: char)
    requires c !in s
    ensures RemoveChar(s, c) == s
  {
    if s != [] {
      RemoveAbsent(s[1..], c);
    }
  }
}
