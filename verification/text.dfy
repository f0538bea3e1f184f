/** The JavaScript string operations the application relies on:
    `String.prototype.trim`, `toLowerCase`, `toUpperCase` and `includes`. */
module Text {

  /** The ECMAScript WhiteSpace and LineTerminator code points, which is the
      set `trim` strips from both ends of a string. */
  predicate IsWhitespace(c: char) {
    || c == '\t' || c == '\U{000B}' || c == '\U{000C}' || c == ' '
    || c == '\U{00A0}' || c == '\U{FEFF}'
    || c == '\n' || c == '\r' || c == '\U{2028}' || c == '\U{2029}'
    || c == '\U{1680}' || ('\U{2000}' <= c <= '\U{200A}')
    || c == '\U{202F}' || c == '\U{205F}' || c == '\U{3000}'
  }

  /** Drops leading whitespace. */
  function TrimStart(s: string): (r: string)
    ensures |r| <= |s| && r == s[|s| - |r|..]
  {
    if |s| > 0 && IsWhitespace(s[0]) then TrimStart(s[1..]) else s
  }

  /** What TrimStart cuts is whitespace, and what it keeps does not start
      with whitespace. */
  lemma {:induction false} TrimStartStrips(s: string)
    ensures forall k :: 0 <= k < |s| - |TrimStart(s)| ==> IsWhitespace(s[k])
    ensures TrimStart(s) == [] || !IsWhitespace(TrimStart(s)[0])
  {
    if |s| > 0 && IsWhitespace(s[0]) {
      TrimStartStrips(s[1..]);
      assert forall k :: 1 <= k < |s| ==> s[k] == s[1..][k - 1];
    }
  }

  /** Drops trailing whitespace. */
  function TrimEnd(s: string): (r: string)
    ensures |r| <= |s| && r == s[..|r|]
  {
    if |s| > 0 && IsWhitespace(s[|s| - 1]) then TrimEnd(s[..|s| - 1]) else s
  }

  /** What TrimEnd cuts is whitespace, and what it keeps does not end with
      whitespace. */
  lemma {:induction false} TrimEndStrips(s: string)
    ensures forall k :: |TrimEnd(s)| <= k < |s| ==> IsWhitespace(s[k])
    ensures TrimEnd(s) == [] || !IsWhitespace(TrimEnd(s)[|TrimEnd(s)| - 1])
  {
    if |s| > 0 && IsWhitespace(s[|s| - 1]) {
      TrimEndStrips(s[..|s| - 1]);
      assert forall k :: 0 <= k < |s| - 1 ==> s[k] == s[..|s| - 1][k];
    }
  }

  /** r is the slice of s starting at a, and everything around it is
      whitespace. */
  predicate SliceInWhitespace(s: string, r: string, a: int) {
    && 0 <= a <= |s| - |r| && r == s[a..a + |r|]
    && (forall k :: 0 <= k < a ==> IsWhitespace(s[k]))
    && (forall k :: a + |r| <= k < |s| ==> IsWhitespace(s[k]))
  }

  /** `s.trim()`: a contiguous slice of s, with only whitespace cut off on
      either side, and neither starting nor ending in whitespace. */
  function Trim(s: string): (r: string)
    ensures exists a :: SliceInWhitespace(s, r, a)
    ensures r == [] || (!IsWhitespace(r[0]) && !IsWhitespace(r[|r| - 1]))
  {
    TrimmedSlice(s);
    TrimmedEnds(s);
    TrimEnd(TrimStart(s))
  }

  /** Trimming both ends cuts s down to a slice with only whitespace around. */
  lemma TrimmedSlice(s: string)
    ensures SliceInWhitespace(s, TrimEnd(TrimStart(s)), |s| - |TrimStart(s)|)
  {
    TrimmedIsSlice(s);
    TrimStartStrips(s);
    TrimmedTrailing(s);
  }

  lemma TrimmedIsSlice(s: string)
    ensures var t := TrimStart(s); var a := |s| - |t|;
      0 <= a <= |s| - |TrimEnd(t)| && TrimEnd(t) == s[a..a + |TrimEnd(t)|]
  {
    var t := TrimStart(s);
    SliceOfSuffix(s, |s| - |t|, |TrimEnd(t)|);
  }

  /** A prefix of a suffix is a slice. */
  lemma SliceOfSuffix(s: string, a: nat, n: nat)
    requires a <= |s| && n <= |s| - a
    ensures s[a..][..n] == s[a..a + n]
  {
  }

  lemma TrimmedTrailing(s: string)
    ensures var t := TrimStart(s);
      forall k :: |s| - |t| + |TrimEnd(t)| <= k < |s| ==> IsWhitespace(s[k])
  {
    var t := TrimStart(s);
    TrimEndStrips(t);
    TailHolds(s, |s| - |t|, |TrimEnd(t)|, IsWhitespace);
  }

  /** A property of the tail of a suffix is a property of the tail of s. */
  lemma TailHolds(s: string, a: nat, n: nat, p: char -> bool)
    requires a <= |s|
    requires forall k :: n <= k < |s[a..]| ==> p(s[a..][k])
    ensures forall k :: a + n <= k < |s| ==> p(s[k])
  {
    forall k | a + n <= k < |s|
      ensures p(s[k])
    {
      assert s[k] == s[a..][k - a];
    }
  }

  /** The trimmed string starts and ends with a non-whitespace character. */
  lemma TrimmedEnds(s: string)
    ensures var r := TrimEnd(TrimStart(s));
      r == [] || (!IsWhitespace(r[0]) && !IsWhitespace(r[|r| - 1]))
  {
    var t := TrimStart(s);
    TrimStartStrips(s);
    TrimEndStrips(t);
    if TrimEnd(t) != [] {
      assert TrimEnd(t)[0] == t[0];
    }
  }

  /** A string is blank (the `!customClauseText.trim()` test) exactly when
      every one of its characters is whitespace. */
  lemma BlankIffAllWhitespace(s: string)
    ensures Trim(s) == [] <==> forall k :: 0 <= k < |s| ==> IsWhitespace(s[k])
  {
    TrimmedSlice(s);
    var a := |s| - |TrimStart(s)|;
    if Trim(s) != [] {
      assert Trim(s)[0] == s[a];
    }
  }

  /** `toLowerCase` on one character (ASCII letters only). */
  function LowerChar(c: char): char {
    if 'A' <= c <= 'Z' then (c as int + 32) as char else c
  }

  /** `toUpperCase` on one character (ASCII letters only). */
  function UpperChar(c: char): char {
    if 'a' <= c <= 'z' then (c as int - 32) as char else c
  }

  /** `s.toLowerCase()`: no upper-case ASCII letter is left; each one
      becomes its lower-case letter and every other character stays. */
  function Lower(s: string): (r: string)
    ensures |r| == |s|
    ensures forall k :: 0 <= k < |s| ==>
      && !('A' <= r[k] <= 'Z')
      && ('A' <= s[k] <= 'Z' ==> r[k] as int == s[k] as int + 32)
      && (!('A' <= s[k] <= 'Z') ==> r[k] == s[k])
  {
    seq(|s|, k requires 0 <= k < |s| => LowerChar(s[k]))
  }

  /** `s.toUpperCase()`: no lower-case ASCII letter is left; each one
      becomes its upper-case letter and every other character stays. */
  function Upper(s: string): (r: string)
    ensures |r| == |s|
    ensures forall k :: 0 <= k < |s| ==>
      && !('a' <= r[k] <= 'z')
      && ('a' <= s[k] <= 'z' ==> r[k] as int == s[k] as int - 32)
      && (!('a' <= s[k] <= 'z') ==> r[k] == s[k])
  {
    seq(|s|, k requires 0 <= k < |s| => UpperChar(s[k]))
  }

  /** `s.includes(t)`: t occurs in s as a contiguous run. Only a term no
      longer than s can occur, and every string contains itself. */
  function Contains(s: string, t: string): (b: bool)
    ensures b ==> |t| <= |s|
    ensures t == s ==> b
  {
    assert |t| <= |s| ==> (OccursAt(s, t, 0) <==> s[..|t|] == t);
    exists i :: 0 <= i <= |s| - |t| && OccursAt(s, t, i)
  }

  /** t occurs in s starting at index i. */
  predicate OccursAt(s: string, t: string, i: int)
    requires 0 <= i <= |s| - |t|
  {
    s[i..i + |t|] == t
  }

  /** The empty string occurs in every string, so an empty search term
      matches everything. */
  lemma ContainsEmpty(s: string)
    ensures Contains(s, "")
  {
    assert OccursAt(s, "", 0);
  }

  /** Lower-casing both sides keeps every occurrence: a search that
      lower-cases the haystack and the term finds whatever the literal search
      finds. */
  lemma LowerKeepsOccurrence(s: string, t: string)
    requires Contains(s, t)
    ensures Contains(Lower(s), Lower(t))
  {
    var i :| 0 <= i <= |s| - |t| && OccursAt(s, t, i);
    assert forall k :: 0 <= k < |t| ==> Lower(s)[i + k] == LowerChar(t[k]);
    assert Lower(s)[i..i + |t|] == Lower(t);
    assert OccursAt(Lower(s), Lower(t), i);
  }
}
