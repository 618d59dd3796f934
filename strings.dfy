/**
  The three JavaScript string operations the chat frontend and the mock
  SharePoint route rely on: `toLowerCase` (restricted to ASCII), `includes`
  and `trim`.
*/
module Strings {

  /** ASCII lower-casing of one character; every other character is kept. */
  function LowerChar(c: char): (d: char)
    ensures !('A' <= d <= 'Z')
    ensures !('A' <= c <= 'Z') ==> d == c
    ensures 'A' <= c <= 'Z' ==> 'a' <= d <= 'z' && d as int - 'a' as int == c as int - 'A' as int
  {
    if 'A' <= c <= 'Z' then (c as int - 'A' as int + 'a' as int) as char else c
  }

  /** The upper-case partner of an ASCII lower-case letter. */
  function UpperChar(c: char): (d: char)
    requires 'a' <= c <= 'z'
    ensures 'A' <= d <= 'Z' && LowerChar(d) == c
  {
    (c as int - 'a' as int + 'A' as int) as char
  }

  /** `s.toLowerCase()`, restricted to ASCII letters. */
  function Lower(s: string): (r: string)
    ensures |r| == |s|
    ensures forall i :: 0 <= i < |r| ==> !('A' <= r[i] <= 'Z')
    ensures forall i :: 0 <= i < |s| && !('A' <= s[i] <= 'Z') ==> r[i] == s[i]
    ensures forall i :: 0 <= i < |s| && 'A' <= s[i] <= 'Z' ==>
      'a' <= r[i] <= 'z' && r[i] as int - 'a' as int == s[i] as int - 'A' as int
  {
    seq(|s|, i requires 0 <= i < |s| => LowerChar(s[i]))
  }

  /** Lower-casing an already lower-cased string changes nothing. */
  lemma LowerIdempotent(s: string)
    ensures Lower(Lower(s)) == Lower(s)
  {
    assert forall i :: 0 <= i < |s| ==> Lower(Lower(s))[i] == Lower(s)[i];
  }

  /** `needle` occurs in `hay` starting at index `i`. */
  predicate OccursAt(hay: string, needle: string, i: int)
  {
    0 <= i && i + |needle| <= |hay| && hay[i..i + |needle|] == needle
  }

  /** `hay.includes(needle)`: the needle occurs at some start position. */
  predicate Contains(hay: string, needle: string)
    ensures Contains(hay, needle) ==> |needle| <= |hay|
    ensures needle <= hay ==> Contains(hay, needle)
  {
    assert needle <= hay ==> OccursAt(hay, needle, 0);
    exists i | 0 <= i <= |hay| - |needle| :: OccursAt(hay, needle, i)
  }

  /** The empty string is contained in every string. */
  lemma ContainsEmpty(hay: string, needle: string)
    requires needle == []
    ensures Contains(hay, needle)
  {
    assert OccursAt(hay, needle, 0);
  }

  /** A needle that the lower-cased start of `s` spells out is found in `Lower(s)`. */
  lemma FoundAtStart(s: string, needle: string)
    requires |needle| <= |s| && Lower(s[..|needle|]) == needle
    ensures Contains(Lower(s), needle)
  {
    assert Lower(s)[0..|needle|] == Lower(s[..|needle|]);
    assert OccursAt(Lower(s), needle, 0);
  }

  /**
    Every character of a match comes from `s`, up to case: the `k`-th
    character of the needle is the lower-cased `s[j]`, and the match starts
    at `j - k`.
  */
  lemma MatchedLetter(s: string, needle: string, k: nat) returns (j: nat)
    requires Contains(Lower(s), needle) && k < |needle|
    ensures k <= j < |s| && LowerChar(s[j]) == needle[k] && LowerChar(s[j - k]) == needle[0]
  {
    var i :| 0 <= i <= |Lower(s)| - |needle| && OccursAt(Lower(s), needle, i);
    assert Lower(s)[i..i + |needle|][k] == needle[k];
    assert Lower(s)[i..i + |needle|][0] == needle[0];
    j := i + k;
  }

  /** If position `k` of the needle holds a letter that `s` lacks in either case, the needle is not in `Lower(s)`. */
  lemma NotFoundWithoutLetter(s: string, needle: string, k: nat)
    requires k < |needle| && 'a' <= needle[k] <= 'z'
    requires needle[k] !in s && UpperChar(needle[k]) !in s
    ensures !Contains(Lower(s), needle)
  {
    if Contains(Lower(s), needle) {
      var j := MatchedLetter(s, needle, k);
    }
  }

  /** A position of `x + [m] + y` other than that of `m` holds a character of `x + y`. */
  lemma OutsideSplit(x: string, m: char, y: string, j: nat)
    requires j < |x| + 1 + |y| && j != |x|
    ensures (x + [m] + y)[j] in x + y
  {
    if j < |x| {
      assert (x + [m] + y)[j] == (x + y)[j];
    } else {
      assert (x + [m] + y)[j] == (x + y)[j - 1];
    }
  }

  /**
    If the letter at position `k` of the needle occurs in `s = x + [m] + y`
    only as `m`, and the needle does not line up there, it is not in `Lower(s)`.
  */
  lemma NotFoundAtOnlyLetter(s: string, x: string, m: char, y: string, needle: string, k: nat)
    requires s == x + [m] + y
    requires 0 < k < |needle| && k <= |x| && 'a' <= needle[k] <= 'z'
    requires needle[k] !in x + y && UpperChar(needle[k]) !in x + y
    requires LowerChar(x[|x| - k]) != needle[0]
    ensures !Contains(Lower(s), needle)
  {
    if Contains(Lower(s), needle) {
      var j := MatchedLetter(s, needle, k);
      if j != |x| {
        OutsideSplit(x, m, y, j);
      }
    }
  }

  /**
    The characters `String.prototype.trim` removes: the WhiteSpace and
    LineTerminator code points of ECMAScript (TAB, LF, VT, FF, CR, SPACE,
    NBSP, the other Unicode space separators, LS, PS and the byte-order mark).
  */
  predicate IsWhitespace(c: char)
  {
    c == '\t' || c == '\n' || c == '\U{000B}' || c == '\U{000C}' || c == '\r' ||
    c == ' ' || c == '\U{00A0}' || c == '\U{1680}' ||
    ('\U{2000}' <= c <= '\U{200A}') ||
    c == '\U{2028}' || c == '\U{2029}' || c == '\U{202F}' || c == '\U{205F}' ||
    c == '\U{3000}' || c == '\U{FEFF}'
  }

  /** Every character of `s` is whitespace (the empty string included). */
  predicate IsBlank(s: string)
  {
    forall i :: 0 <= i < |s| ==> IsWhitespace(s[i])
  }

  /** Drops the leading whitespace: the result is the longest suffix that does not start with whitespace. */
  function TrimStart(s: string): (r: string)
    ensures |r| <= |s| && r == s[|s| - |r|..]
    ensures forall i :: 0 <= i < |s| - |r| ==> IsWhitespace(s[i])
    ensures r != [] ==> !IsWhitespace(r[0])
  {
    if s != [] && IsWhitespace(s[0]) then TrimStart(s[1..]) else s
  }

  /** Drops the trailing whitespace: the result is the longest prefix that does not end with whitespace. */
  function TrimEnd(s: string): (r: string)
    ensures |r| <= |s| && r == s[..|r|]
    ensures forall i :: |r| <= i < |s| ==> IsWhitespace(s[i])
    ensures r != [] ==> !IsWhitespace(r[|r| - 1])
  {
    if s != [] && IsWhitespace(s[|s| - 1]) then TrimEnd(s[..|s| - 1]) else s
  }

  /** `s.trim()`. */
  function Trim(s: string): (r: string)
    ensures Contains(s, r)
    ensures r != [] ==> !IsWhitespace(r[0]) && !IsWhitespace(r[|r| - 1])
    ensures exists k :: TrimmedAt(s, r, k)
  {
    TrimSplit(s);
    TrimEnd(TrimStart(s))
  }

  /** The input of `trim` is whitespace up to `k`, then the trimmed text, then whitespace to the end. */
  predicate TrimmedAt(s: string, r: string, k: int)
  {
    OccursAt(s, r, k) &&
    (forall i :: 0 <= i < k ==> IsWhitespace(s[i])) &&
    (forall i :: k + |r| <= i < |s| ==> IsWhitespace(s[i]))
  }

  /**
    A suffix `t` of `s` after whitespace, and a prefix `r` of `t` before
    whitespace, give `s` as whitespace, `r`, whitespace.
  */
  lemma TrimmedAtSplit(s: string, t: string, r: string)
    requires |t| <= |s| && t == s[|s| - |t|..]
    requires |r| <= |t| && r == t[..|r|]
    requires forall i :: 0 <= i < |s| - |t| ==> IsWhitespace(s[i])
    requires forall i :: |r| <= i < |t| ==> IsWhitespace(t[i])
    ensures TrimmedAt(s, r, |s| - |t|)
  {
    var k := |s| - |t|;
    assert s[k..k + |r|] == r;
    forall i | k + |r| <= i < |s| ensures IsWhitespace(s[i]) {
      assert t[i - k] == s[i];
    }
  }

  /** `trim` drops whitespace from both ends and nothing else. */
  lemma TrimSplit(s: string)
    ensures TrimmedAt(s, TrimEnd(TrimStart(s)), |s| - |TrimStart(s)|)
  {
    var t := TrimStart(s);
    var r := TrimEnd(t);
    assert |t| <= |s| && t == s[|s| - |t|..];
    assert |r| <= |t| && r == t[..|r|];
    TrimmedAtSplit(s, t, r);
  }

  /** `s.trim() === ""` holds exactly when every character of `s` is whitespace. */
  lemma TrimEmptyIffBlank(s: string)
    ensures Trim(s) == [] <==> IsBlank(s)
  {
    var t := TrimStart(s);
    if Trim(s) != [] {
      assert t != [];
      assert !IsWhitespace(s[|s| - |t|]);
    }
  }
}
