/**
 Sequence helpers shared by the dashboard components: an optional value, the
 "is a subsequence of" relation that `Array.prototype.filter` establishes, and
 removal of every occurrence of a value (`list.filter(x => x !== v)`), which
 both the step selection and the running-agents list use.
 */
module Sequences {

  /** A value that may be absent, as an optional TypeScript field. */
  datatype Option<+T> = None | Some(value: T) {

    /** The value, or `default` when absent (the `x || default` idiom). */
    function GetOr(default: T): T {
      match this
      case Some(v) => v
      case None => default
    }
  }

  /** `sub` is obtained from `s` by deleting elements, keeping the rest in order. */
  predicate IsSubsequence<T(==)>(sub: seq<T>, s: seq<T>)
    decreases |s|
  {
    || |sub| == 0
    || (&& |s| > 0
        && ((sub[0] == s[0] && IsSubsequence(sub[1..], s[1..])) || IsSubsequence(sub, s[1..])))
  }

  /** `p` is a prefix of `s`: the first `|p|` elements of `s` are exactly `p`. */
  predicate IsPrefix<T(==)>(p: seq<T>, s: seq<T>) {
    |p| <= |s| && s[..|p|] == p
  }

  /** `s` with every occurrence of `x` removed, everything else kept in order. */
  function Without<T(==)>(s: seq<T>, x: T): (r: seq<T>)
    ensures x !in r
    ensures forall y :: y in s && y != x ==> y in r
    ensures forall y :: y in r ==> y in s
    ensures multiset(r) == multiset(s)[x := 0]
    ensures IsSubsequence(r, s)
    ensures x !in s ==> r == s
    decreases |s|
  {
    if |s| == 0 then []
    else
      assert s == [s[0]] + s[1..];
      if s[0] == x then Without(s[1..], x)
      else [s[0]] + Without(s[1..], x)
  }

  /** Every sequence is a subsequence of itself. */
  lemma {:induction false} SubsequenceReflexive<T>(s: seq<T>)
    ensures IsSubsequence(s, s)
    decreases |s|
  {
    if |s| > 0 {
      SubsequenceReflexive(s[1..]);
    }
  }

  /** A subsequence takes its elements, with multiplicity, from the sequence. */
  lemma {:induction false} SubsequenceMultiset<T>(sub: seq<T>, s: seq<T>)
    requires IsSubsequence(sub, s)
    ensures multiset(sub) <= multiset(s)
    ensures |sub| <= |s|
    ensures forall x :: x in sub ==> x in s
    decreases |s|
  {
    if |sub| == 0 {
    } else {
      assert s == [s[0]] + s[1..];
      if sub[0] == s[0] && IsSubsequence(sub[1..], s[1..]) {
        SubsequenceMultiset(sub[1..], s[1..]);
        assert sub == [sub[0]] + sub[1..];
      } else {
        SubsequenceMultiset(sub, s[1..]);
      }
    }
  }

  /** The subsequence relation is transitive. */
  lemma {:induction false} SubsequenceTransitive<T>(a: seq<T>, b: seq<T>, c: seq<T>)
    requires IsSubsequence(a, b) && IsSubsequence(b, c)
    ensures IsSubsequence(a, c)
    decreases |c|
  {
    if |a| == 0 {
    } else if IsSubsequence(b, c[1..]) {
      SubsequenceTransitive(a, b, c[1..]);
    } else {
      // b's head is matched with c's head
      assert |b| > 0 && b[0] == c[0] && IsSubsequence(b[1..], c[1..]);
      if a[0] == b[0] && IsSubsequence(a[1..], b[1..]) {
        SubsequenceTransitive(a[1..], b[1..], c[1..]);
      } else {
        SubsequenceTransitive(a, b[1..], c[1..]);
      }
    }
  }

  /** A prefix is a subsequence. */
  lemma {:induction false} PrefixIsSubsequence<T>(p: seq<T>, s: seq<T>)
    requires IsPrefix(p, s)
    ensures IsSubsequence(p, s)
    decreases |s|
  {
    if |p| > 0 {
      assert p[1..] == s[1..][..|p| - 1];
      PrefixIsSubsequence(p[1..], s[1..]);
    }
  }

  /** Being a prefix is transitive. */
  lemma PrefixTransitive<T>(a: seq<T>, b: seq<T>, c: seq<T>)
    requires IsPrefix(a, b) && IsPrefix(b, c)
    ensures IsPrefix(a, c)
  {
    assert c[..|a|] == c[..|b|][..|a|];
  }

  /**
   `Without` is the only subsequence of `s` that keeps every element other than
   `x` with its multiplicity and drops every `x`: the contract of `Without`
   characterises its result completely.
   */
  lemma {:induction false} WithoutUnique<T>(s: seq<T>, x: T, r: seq<T>)
    requires IsSubsequence(r, s)
    requires multiset(r) == multiset(s)[x := 0]
    ensures r == Without(s, x)
    decreases |s|
  {
    if |r| == 0 {
      var w := Without(s, x);
      assert multiset(w) == multiset(r);
      assert |w| == |multiset(w)|;
    } else {
      assert s == [s[0]] + s[1..];
      assert r == [r[0]] + r[1..];
      assert multiset(r)[x] == 0;
      if s[0] == x {
        assert r[0] != x by { assert r[0] in multiset(r); }
        assert IsSubsequence(r, s[1..]);
        assert multiset(s[1..])[x := 0] == multiset(s)[x := 0];
        WithoutUnique(s[1..], x, r);
      } else if r[0] == s[0] && IsSubsequence(r[1..], s[1..]) {
        forall y ensures multiset(r[1..])[y] == multiset(s[1..])[x := 0][y] {
          assert multiset(r)[y] == multiset([r[0]])[y] + multiset(r[1..])[y];
          assert multiset(s)[y] == multiset([s[0]])[y] + multiset(s[1..])[y];
        }
        assert multiset(r[1..]) == multiset(s[1..])[x := 0];
        WithoutUnique(s[1..], x, r[1..]);
      } else {
        // r would need one more copy of s[0] than s[1..] holds
        assert IsSubsequence(r, s[1..]);
        SubsequenceMultiset(r, s[1..]);
        assert false;
      }
    }
  }
}
