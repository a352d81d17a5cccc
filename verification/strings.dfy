/**
 The JavaScript string operations the dashboard relies on: `String.prototype.trim`
 (used to reject blank chat input), `toLowerCase` (used for case-insensitive
 search) and `includes` (substring search).
 */
module Strings {

  /**
   The code points `trim` removes: the ECMAScript WhiteSpace set (tab, vertical
   tab, form feed, space, no-break space, byte order mark and the Unicode space
   separators) and the LineTerminator set (line feed, carriage return, line and
   paragraph separators).
   */
  predicate IsJsWhitespace(c: char) {
    var n := c as int;
    || 0x09 <= n <= 0x0D
    || n == 0x20 || n == 0xA0 || n == 0x1680
    || 0x2000 <= n <= 0x200A
    || n == 0x2028 || n == 0x2029 || n == 0x202F || n == 0x205F
    || n == 0x3000 || n == 0xFEFF
  }

  /** Every character of `s` is whitespace (vacuously so for the empty string). */
  predicate AllWhitespace(s: string) {
    forall i | 0 <= i < |s| :: IsJsWhitespace(s[i])
  }

  /** `s` without its leading whitespace. */
  function TrimStart(s: string): (r: string)
    ensures |r| <= |s| && r == s[|s| - |r|..]
    ensures AllWhitespace(s[..|s| - |r|])
    ensures |r| > 0 ==> !IsJsWhitespace(r[0])
    decreases |s|
  {
    if |s| > 0 && IsJsWhitespace(s[0]) then TrimStart(s[1..]) else s
  }

  /** `s` without its trailing whitespace. */
  function TrimEnd(s: string): (r: string)
    ensures |r| <= |s| && r == s[..|r|]
    ensures AllWhitespace(s[|r|..])
    ensures |r| > 0 ==> !IsJsWhitespace(r[|r| - 1])
    decreases |s|
  {
    if |s| > 0 && IsJsWhitespace(s[|s| - 1]) then TrimEnd(s[..|s| - 1]) else s
  }

  /** `s.trim()`: leading and trailing whitespace removed. */
  function Trim(s: string): string {
    TrimEnd(TrimStart(s))
  }

  /** `!s.trim()`: the trimmed string is empty, the only falsy string. */
  predicate IsBlank(s: string) {
    Trim(s) == ""
  }

  /** A string is blank exactly when it consists of whitespace only. */
  lemma BlankIffAllWhitespace(s: string)
    ensures IsBlank(s) <==> AllWhitespace(s)
  {
    var t := TrimStart(s);
    if IsBlank(s) {
      assert t[0..] == t;
      assert AllWhitespace(t);
      assert |t| == 0;
      assert s[..|s|] == s;
    }
    if AllWhitespace(s) {
      assert |t| == 0;
    }
  }

  /** ASCII lower-casing of one character; every other character is kept. */
  function LowerChar(c: char): char {
    if 'A' <= c <= 'Z' then (c as int - 'A' as int + 'a' as int) as char else c
  }

  /** ASCII upper-casing of one character; every other character is kept. */
  function UpperChar(c: char): char {
    if 'a' <= c <= 'z' then (c as int - 'a' as int + 'A' as int) as char else c
  }

  /** `s.toLowerCase()`, restricted to the ASCII letters. */
  function ToLower(s: string): (r: string)
    ensures |r| == |s|
  {
    seq(|s|, i requires 0 <= i < |s| => LowerChar(s[i]))
  }

  /** `s.toUpperCase()`, restricted to the ASCII letters. */
  function ToUpper(s: string): (r: string)
    ensures |r| == |s|
  {
    seq(|s|, i requires 0 <= i < |s| => UpperChar(s[i]))
  }

  /** A lower-cased string contains no upper-case ASCII letter. */
  predicate NoUpperAscii(s: string) {
    forall i | 0 <= i < |s| :: !('A' <= s[i] <= 'Z')
  }

  /** Lower-casing removes every upper-case letter and changes nothing already lower-case. */
  lemma ToLowerNormalises(s: string)
    ensures NoUpperAscii(ToLower(s))
    ensures NoUpperAscii(s) ==> ToLower(s) == s
  {
  }

  /** Lower-casing is idempotent. */
  lemma ToLowerIdempotent(s: string)
    ensures ToLower(ToLower(s)) == ToLower(s)
  {
    ToLowerNormalises(s);
    ToLowerNormalises(ToLower(s));
  }

  /** Changing the case of a string does not change its lower-case form. */
  lemma ToLowerIgnoresCase(s: string)
    ensures ToLower(ToUpper(s)) == ToLower(s)
    ensures ToLower(ToLower(s)) == ToLower(s)
  {
    ToLowerIdempotent(s);
  }

  /** Lower-casing works character by character, so it distributes over concatenation. */
  lemma ToLowerAppend(a: string, b: string)
    ensures ToLower(a + b) == ToLower(a) + ToLower(b)
  {
  }

  /** `p` occurs in `t` starting at index `i`. */
  predicate OccursAt(t: string, p: string, i: int) {
    0 <= i && i + |p| <= |t| && t[i..i + |p|] == p
  }

  /**
   `t.includes(p)`: `p` occurs somewhere in `t`. As in JavaScript, the empty
   string occurs in every text, every text occurs in itself, and nothing longer
   than the text occurs in it.
   */
  predicate Includes(t: string, p: string)
    ensures |p| == 0 ==> Includes(t, p)
    ensures p == t ==> Includes(t, p)
    ensures Includes(t, p) ==> |p| <= |t|
  {
    assert p == t ==> OccursAt(t, p, 0) by { assert t[0..|t|] == t; }
    assert |p| == 0 ==> OccursAt(t, p, 0);
    exists i | 0 <= i <= |t| - |p| :: OccursAt(t, p, i)
  }

  /** The empty string occurs in every string. */
  lemma IncludesEmpty(t: string)
    ensures Includes(t, "")
  {
    assert OccursAt(t, "", 0);
  }

  /** A prefix occurs in the whole. */
  lemma IncludesPrefix(a: string, b: string)
    ensures Includes(a + b, a)
  {
    assert (a + b)[0..|a|] == a;
    assert OccursAt(a + b, a, 0);
  }

  /** If `p` occurs in `m` and `m` occurs in `t` then `p` occurs in `t`. */
  lemma IncludesTransitive(t: string, m: string, p: string)
    requires Includes(t, m) && Includes(m, p)
    ensures Includes(t, p)
  {
    var i :| 0 <= i <= |t| - |m| && OccursAt(t, m, i);
    var j :| 0 <= j <= |m| - |p| && OccursAt(m, p, j);
    forall k | 0 <= k < |p| ensures t[i + j + k] == p[k] {
      assert t[i + j + k] == t[i..i + |m|][j + k];
      assert m[j + k] == m[j..j + |p|][k];
    }
    assert t[i + j..i + j + |p|] == p;
    assert OccursAt(t, p, i + j);
  }

  /** A template literal with one interpolation: `inner` placed between `before` and `after`. */
  function Interpolate(before: string, inner: string, after: string): (r: string)
    ensures |r| == |before| + |inner| + |after|
    ensures r[..|before|] == before && OccursAt(r, inner, |before|) && r[|before| + |inner|..] == after
    ensures Includes(r, inner)
  {
    var r := before + inner + after;
    assert r[|before|..|before| + |inner|] == inner;
    assert OccursAt(r, inner, |before|);
    r
  }

  /** Character `k` of an occurrence at `i` is character `i + k` of the text. */
  lemma CharOfOccurrence(t: string, p: string, i: int, k: int)
    requires OccursAt(t, p, i) && 0 <= k < |p|
    ensures t[i + k] == p[k]
  {
    assert t[i + k] == t[i..i + |p|][k];
  }

  /** Every character of an occurring string is a character of the text. */
  lemma IncludesHasChars(t: string, p: string, k: int)
    requires Includes(t, p) && 0 <= k < |p|
    ensures p[k] in t
  {
    var i :| 0 <= i <= |t| - |p| && OccursAt(t, p, i);
    assert p[k] == t[i..i + |p|][k] == t[i + k];
  }

  /**
   A string without spaces that occurs in `a + b`, where `a` ends in a space,
   occurs in `a` or in `b`: no occurrence can straddle the space.
   */
  lemma IncludesSplitAtSpace(a: string, b: string, p: string)
    requires |a| > 0 && a[|a| - 1] == ' ' && ' ' !in p
    requires Includes(a + b, p)
    ensures Includes(a, p) || Includes(b, p)
  {
    var t := a + b;
    var i :| 0 <= i <= |t| - |p| && OccursAt(t, p, i);
    if i + |p| <= |a| {
      assert a[i..i + |p|] == t[i..i + |p|];
      assert OccursAt(a, p, i);
    } else if |a| <= i {
      assert b[i - |a|..i - |a| + |p|] == t[i..i + |p|];
      assert OccursAt(b, p, i - |a|);
    } else {
      // the occurrence would straddle the space, putting it inside p
      CharOfOccurrence(t, p, i, |a| - 1 - i);
      assert false;
    }
  }

  /**
   A character that occurs in the lower-cased text occurs in the text in one of
   its two cases.
   */
  lemma LowerHasChar(t: string, c: char)
    requires 'a' <= c <= 'z' && c in ToLower(t)
    ensures c in t || UpperChar(c) in t
  {
    var i :| 0 <= i < |t| && ToLower(t)[i] == c;
    assert t[i] == c || t[i] == UpperChar(c);
  }

  /**
   A lower-cased text cannot contain a pattern one of whose lower-case letters
   it lacks in both cases.
   */
  lemma MissingLetterExcludes(t: string, p: string, k: int)
    requires 0 <= k < |p| && 'a' <= p[k] <= 'z'
    requires p[k] !in t && UpperChar(p[k]) !in t
    ensures !Includes(ToLower(t), p)
  {
    if Includes(ToLower(t), p) {
      IncludesHasChars(ToLower(t), p, k);
      LowerHasChar(t, p[k]);
    }
  }

  /**
   A pattern without spaces found in neither half of a text split after a space
   is not found in the lower-cased whole.
   */
  lemma ExcludedAcrossSpace(a: string, b: string, p: string)
    requires |a| > 0 && a[|a| - 1] == ' ' && ' ' !in p
    requires !Includes(ToLower(a), p) && !Includes(ToLower(b), p)
    ensures !Includes(ToLower(a + b), p)
  {
    ToLowerAppend(a, b);
    if Includes(ToLower(a) + ToLower(b), p) {
      IncludesSplitAtSpace(ToLower(a), ToLower(b), p);
    }
  }
}
