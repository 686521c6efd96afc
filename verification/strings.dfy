/** Python's ordering of `str` values (code point by code point, a proper
    prefix first) and the `sorted` call that fixes the order in which the
    modalities of one forward call are processed. */
module Strings {

  /** `a < b` on Python strings. */
  predicate Less(a: string, b: string)
    decreases |a|
  {
    if |a| == 0 then |b| > 0
    else if |b| == 0 then false
    else if a[0] != b[0] then a[0] < b[0]
    else Less(a[1..], b[1..])
  }

  lemma {:induction false} LessIrreflexive(a: string)
    ensures !Less(a, a)
    decreases |a|
  {
    if |a| > 0 {
      LessIrreflexive(a[1..]);
    }
  }

  lemma {:induction false} LessTransitive(a: string, b: string, c: string)
    requires Less(a, b) && Less(b, c)
    ensures Less(a, c)
    decreases |a|
  {
    if |a| > 0 && a[0] == b[0] && b[0] == c[0] {
      LessTransitive(a[1..], b[1..], c[1..]);
    }
  }

  lemma {:induction false} LessTotal(a: string, b: string)
    requires a != b
    ensures Less(a, b) || Less(b, a)
    decreases |a|
  {
    if |a| > 0 && |b| > 0 && a[0] == b[0] {
      assert a == [a[0]] + a[1..] && b == [b[0]] + b[1..];
      LessTotal(a[1..], b[1..]);
    }
  }

  lemma LessAsymmetric(a: string, b: string)
    requires Less(a, b)
    ensures !Less(b, a)
  {
  }

  predicate StrictlySorted(s: seq<string>) {
    forall i, j :: 0 <= i < j < |s| ==> Less(s[i], s[j])
  }

  predicate Distinct(s: seq<string>) {
    forall i, j :: 0 <= i < j < |s| ==> s[i] != s[j]
  }

  lemma SortedIsDistinct(s: seq<string>)
    requires StrictlySorted(s)
    ensures Distinct(s)
  {
    forall i, j | 0 <= i < j < |s|
      ensures s[i] != s[j]
    {
      if s[i] == s[j] {
        LessIrreflexive(s[i]);
      }
    }
  }

  /** Putting `x` in front of a sorted sequence whose elements all exceed it
      keeps it sorted. */
  lemma PrependSorted(x: string, s: seq<string>)
    requires StrictlySorted(s)
    requires forall y :: y in s ==> Less(x, y)
    ensures StrictlySorted([x] + s)
  {
  }

  /** Inserts `x` into a sorted sequence that does not yet hold it. */
  function Insert(x: string, s: seq<string>): (r: seq<string>)
    requires StrictlySorted(s) && x !in s
    ensures StrictlySorted(r)
    ensures |r| == |s| + 1
    ensures forall y :: y in r <==> y == x || y in s
  {
    if |s| == 0 then
      [x]
    else if Less(x, s[0]) then
      BelowHeadBelowAll(x, s);
      PrependSorted(x, s);
      [x] + s
    else
      LessTotal(x, s[0]);
      var t := Insert(x, s[1..]);
      HeadBelowInsert(x, s, t);
      PrependSorted(s[0], t);
      [s[0]] + t
  }

  lemma BelowHeadBelowAll(x: string, s: seq<string>)
    requires StrictlySorted(s) && |s| > 0 && Less(x, s[0])
    ensures forall y :: y in s ==> Less(x, y)
  {
    forall y | y in s
      ensures Less(x, y)
    {
      var j :| 0 <= j < |s| && s[j] == y;
      if j > 0 {
        LessTransitive(x, s[0], y);
      }
    }
  }

  lemma HeadBelowInsert(x: string, s: seq<string>, t: seq<string>)
    requires StrictlySorted(s) && |s| > 0 && Less(s[0], x)
    requires forall y :: y in t <==> y == x || y in s[1..]
    ensures forall y :: y in t ==> Less(s[0], y)
  {
  }

  /** Python's `sorted` on a list of distinct strings. Any correct sort
      yields the same sequence (see `SortedUnique`), so insertion sort
      stands in for the library's merge sort. */
  function Sort(xs: seq<string>): (r: seq<string>)
    requires Distinct(xs)
    ensures StrictlySorted(r)
    ensures |r| == |xs|
    ensures forall y :: y in r <==> y in xs
  {
    if |xs| == 0 then
      []
    else
      assert xs[0] !in xs[1..] by {
        forall j | 0 <= j < |xs[1..]|
          ensures xs[1..][j] != xs[0]
        {
          assert xs[1..][j] == xs[j + 1];
        }
      }
      Insert(xs[0], Sort(xs[1..]))
  }

  /** Two strictly sorted sequences with the same elements are equal. */
  lemma {:induction false} SortedUnique(a: seq<string>, b: seq<string>)
    requires StrictlySorted(a) && StrictlySorted(b)
    requires forall y :: y in a <==> y in b
    ensures a == b
    decreases |a|
  {
    assert |a| > 0 <==> |b| > 0 by {
      if |a| > 0 {
        assert a[0] in b;
      }
      if |b| > 0 {
        assert b[0] in a;
      }
    }
    if |a| > 0 {
      HeadIsLeast(a, b);
      HeadIsLeast(b, a);
      assert a[0] == b[0] by {
        if a[0] != b[0] {
          LessAsymmetric(a[0], b[0]);
        }
      }
      SortedIsDistinct(a);
      SortedIsDistinct(b);
      forall y
        ensures y in a[1..] <==> y in b[1..]
      {
        TailMembers(a, y);
        TailMembers(b, y);
      }
      SortedUnique(a[1..], b[1..]);
      assert a == [a[0]] + a[1..] && b == [b[0]] + b[1..];
    }
  }

  /** The head of a sorted sequence is below or equal to every element of
      any sequence holding the same elements. */
  lemma HeadIsLeast(a: seq<string>, b: seq<string>)
    requires StrictlySorted(a) && |a| > 0 && |b| > 0
    requires forall y :: y in a <==> y in b
    ensures a[0] == b[0] || Less(a[0], b[0])
  {
    assert b[0] in a;
  }

  lemma TailMembers(s: seq<string>, y: string)
    requires Distinct(s) && |s| > 0
    ensures y in s[1..] <==> y in s && y != s[0]
  {
  }

  /** The processing order depends only on which names were submitted, not
      on the order in which they were inserted. */
  lemma SortIgnoresOrder(xs: seq<string>, ys: seq<string>)
    requires Distinct(xs) && Distinct(ys)
    requires forall y :: y in xs <==> y in ys
    ensures Sort(xs) == Sort(ys)
  {
    SortedUnique(Sort(xs), Sort(ys));
  }
}
