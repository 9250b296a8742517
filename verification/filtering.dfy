/**
 * `Array.prototype.filter` on sequences: the order-preserving selection of
 * the elements that satisfy a predicate.
 */
module Filtering {

  /** `a` can be obtained from `b` by deleting elements, keeping the order. */
  ghost predicate IsSubsequence<T>(a: seq<T>, b: seq<T>)
    decreases |b|
  {
    || a == []
    || (b != [] && if a[0] == b[0] then IsSubsequence(a[1..], b[1..]) else IsSubsequence(a, b[1..]))
  }

  /** No element occurs twice. */
  ghost predicate Distinct<T>(s: seq<T>) {
    forall i, j :: 0 <= i < j < |s| ==> s[i] != s[j]
  }

  /** `s.filter(p)`: the elements of `s` that satisfy `p`, in the order of
      `s`; `SelectIsExact` states that nothing else is dropped or added. */
  function Select<T>(s: seq<T>, p: T -> bool): (r: seq<T>)
    ensures |r| <= |s|
    ensures forall i :: 0 <= i < |r| ==> p(r[i])
  {
    if s == [] then []
    else
      var rest := Select(s[1..], p);
      if p(s[0]) then [s[0]] + rest
      else rest
  }

  /** The filtered sequence is a subsequence of `s` holding every element
      that satisfies `p` as often as `s` does, and nothing more. */
  lemma {:induction false} SelectIsExact<T>(s: seq<T>, p: T -> bool)
    ensures IsSubsequence(Select(s, p), s)
    ensures forall i :: 0 <= i < |s| && p(s[i]) ==> multiset(Select(s, p))[s[i]] == multiset(s)[s[i]]
    ensures multiset(Select(s, p)) <= multiset(s)
    decreases |s|
  {
    if s != [] {
      SelectIsExact(s[1..], p);
      assert s == [s[0]] + s[1..];
    }
  }

  /** Selecting from a concatenation selects from each part. */
  lemma {:induction false} SelectAppend<T>(a: seq<T>, b: seq<T>, p: T -> bool)
    ensures Select(a + b, p) == Select(a, p) + Select(b, p)
    decreases |a|
  {
    if a == [] {
      assert a + b == b;
    } else {
      assert (a + b)[1..] == a[1..] + b;
      SelectAppend(a[1..], b, p);
    }
  }

  /** Selecting from one more element appends it when it qualifies. */
  lemma SelectExtend<T>(s: seq<T>, i: nat, p: T -> bool)
    requires i < |s|
    ensures Select(s[..i + 1], p) == Select(s[..i], p) + (if p(s[i]) then [s[i]] else [])
  {
    assert s[..i + 1] == s[..i] + [s[i]];
    SelectAppend(s[..i], [s[i]], p);
    assert Select([s[i]], p) == (if p(s[i]) then [s[i]] else []) by {
      assert [s[i]][1..] == [];
    }
  }

  /** What is selected from a prefix is a prefix of what is selected from the whole. */
  lemma SelectOfPrefix<T>(s: seq<T>, i: nat, p: T -> bool)
    requires i <= |s|
    ensures Select(s[..i], p) <= Select(s, p)
    ensures Select(s[..i], p) == Select(s, p)[..|Select(s[..i], p)|]
  {
    assert s == s[..i] + s[i..];
    SelectAppend(s[..i], s[i..], p);
  }

  /** Selecting from the whole of `s`, written as a slice. */
  lemma SelectOfWhole<T>(s: seq<T>, p: T -> bool)
    ensures Select(s[..|s|], p) == Select(s, p)
  {
    assert s[..|s|] == s;
  }

  /** Nothing is selected when no element qualifies. */
  lemma {:induction false} SelectNone<T>(s: seq<T>, p: T -> bool)
    requires forall i :: 0 <= i < |s| ==> !p(s[i])
    ensures Select(s, p) == []
    decreases |s|
  {
    if s != [] {
      assert !p(s[0]);
      SelectNone(s[1..], p);
    }
  }

  /** Everything is selected when every element qualifies. */
  lemma {:induction false} SelectAll<T>(s: seq<T>, p: T -> bool)
    requires forall i :: 0 <= i < |s| ==> p(s[i])
    ensures Select(s, p) == s
    decreases |s|
  {
    if s != [] {
      assert p(s[0]);
      SelectAll(s[1..], p);
    }
  }

  /** Selecting from a sequence without repetitions gives one without repetitions. */
  lemma {:induction false} SelectDistinct<T>(s: seq<T>, p: T -> bool)
    requires Distinct(s)
    ensures Distinct(Select(s, p))
    decreases |s|
  {
    if s != [] {
      SelectDistinct(s[1..], p);
      SelectIsExact(s[1..], p);
      var rest := Select(s[1..], p);
      if p(s[0]) {
        assert s[0] !in s[1..];
        assert s[0] !in multiset(s[1..]);
        assert multiset(rest)[s[0]] == 0;
        assert Select(s, p) == [s[0]] + rest;
      }
    }
  }
}
