/** The array operations the shop's code relies on (`filter`, `slice`,
    `splice`, `find`/`findIndex`), as functions on sequences, together with
    the order-preservation facts the stores need. */
module Sequences {
  import opened Optional

  /** `r` is obtained from `s` by deleting elements: the kept elements
      appear in `s` in the same relative order. */
  ghost predicate IsSubsequence<T>(r: seq<T>, s: seq<T>)
    decreases |s|
  {
    if r == [] then true
    else if s == [] then false
    else (r[0] == s[0] && IsSubsequence(r[1..], s[1..])) || IsSubsequence(r, s[1..])
  }

  /** No two elements share a key (`key` is an id projection, or the
      identity for "no element occurs twice"). */
  ghost predicate DistinctBy<T, K>(s: seq<T>, key: T -> K)
  {
    forall i, j :: 0 <= i < j < |s| ==> key(s[i]) != key(s[j])
  }

  /** `Array.prototype.filter`: the elements of `s` satisfying `keep`, in order. */
  function Filter<T>(s: seq<T>, keep: T -> bool): (r: seq<T>)
    ensures |r| <= |s|
    ensures forall k :: 0 <= k < |r| ==> r[k] in s && keep(r[k])
    ensures forall k :: 0 <= k < |s| && keep(s[k]) ==> s[k] in r
    ensures IsSubsequence(r, s)
  {
    if s == [] then []
    else
      var rest := Filter(s[1..], keep);
      if keep(s[0]) then [s[0]] + rest
      else
        assert rest != [] ==> rest[0] != s[0];
        rest
  }

  /** `s.slice(0, n)`: the first `n` elements, or all of them. */
  function Take<T>(s: seq<T>, n: nat): (r: seq<T>)
    ensures |r| <= n && |r| <= |s|
    ensures |s| <= n ==> r == s
    ensures r == s[..|r|]
    ensures |r| == n || r == s
  {
    if |s| <= n then s else s[..n]
  }

  /** `s.splice(i, 1)`: `s` without its element at index `i`. */
  function RemoveAt<T>(s: seq<T>, i: nat): (r: seq<T>)
    requires i < |s|
    ensures |r| == |s| - 1
    ensures forall k :: 0 <= k < i ==> r[k] == s[k]
    ensures forall k :: i <= k < |r| ==> r[k] == s[k + 1]
  {
    s[..i] + s[i + 1..]
  }

  /** `findIndex`: the smallest index whose element satisfies `p`. */
  function FirstIndex<T>(s: seq<T>, p: T -> bool): (r: Option<nat>)
    ensures r.Some? ==> r.value < |s| && p(s[r.value])
    ensures r.Some? ==> forall k :: 0 <= k < r.value ==> !p(s[k])
    ensures r.None? <==> forall k :: 0 <= k < |s| ==> !p(s[k])
  {
    if s == [] then None
    else if p(s[0]) then Some(0)
    else match FirstIndex(s[1..], p)
      case None => None
      case Some(i) => Some(i + 1)
  }

  lemma {:induction false} SubsequenceReflexive<T>(s: seq<T>)
    ensures IsSubsequence(s, s)
    decreases |s|
  {
    if s != [] {
      SubsequenceReflexive(s[1..]);
    }
  }

  lemma {:induction false} SubsequenceMembers<T>(r: seq<T>, s: seq<T>)
    requires IsSubsequence(r, s)
    ensures |r| <= |s|
    ensures forall x :: x in r ==> x in s
    decreases |s|
  {
    if r != [] {
      if r[0] == s[0] && IsSubsequence(r[1..], s[1..]) {
        SubsequenceMembers(r[1..], s[1..]);
        forall x | x in r ensures x in s {
          if x != r[0] {
            assert x in r[1..];
          }
        }
      } else {
        SubsequenceMembers(r, s[1..]);
      }
    }
  }

  lemma {:induction false} SubsequenceTransitive<T>(a: seq<T>, b: seq<T>, c: seq<T>)
    requires IsSubsequence(a, b) && IsSubsequence(b, c)
    ensures IsSubsequence(a, c)
    decreases |c|
  {
    if a != [] {
      assert b != [] && c != [];
      if b[0] == c[0] && IsSubsequence(b[1..], c[1..]) {
        if a[0] == b[0] && IsSubsequence(a[1..], b[1..]) {
          SubsequenceTransitive(a[1..], b[1..], c[1..]);
        } else {
          SubsequenceTransitive(a, b[1..], c[1..]);
        }
      } else {
        SubsequenceTransitive(a, b, c[1..]);
      }
    }
  }

  /** A prefix keeps the order of what it keeps. */
  lemma {:induction false} PrefixIsSubsequence<T>(s: seq<T>, n: nat)
    requires n <= |s|
    ensures IsSubsequence(s[..n], s)
    decreases n
  {
    if n > 0 {
      assert s[..n][1..] == s[1..][..n - 1];
      PrefixIsSubsequence(s[1..], n - 1);
    }
  }

  /** Deleting one element keeps the order of the others. */
  lemma {:induction false} RemoveAtIsSubsequence<T>(s: seq<T>, i: nat)
    requires i < |s|
    ensures IsSubsequence(RemoveAt(s, i), s)
    decreases i
  {
    if i == 0 {
      assert RemoveAt(s, 0) == s[1..];
      SubsequenceReflexive(s[1..]);
    } else {
      assert RemoveAt(s, i)[1..] == RemoveAt(s[1..], i - 1);
      RemoveAtIsSubsequence(s[1..], i - 1);
    }
  }

  /** Filtering a concatenation filters each part: the kept elements of
      the first part all come before those of the second. */
  lemma {:induction false} FilterConcat<T>(a: seq<T>, b: seq<T>, keep: T -> bool)
    ensures Filter(a + b, keep) == Filter(a, keep) + Filter(b, keep)
    decreases |a|
  {
    if a != [] {
      assert (a + b)[1..] == a[1..] + b;
      FilterConcat(a[1..], b, keep);
    } else {
      assert a + b == b;
    }
  }

  /** A filter that rejects nothing is the identity. */
  lemma {:induction false} FilterKeepsAll<T>(s: seq<T>, keep: T -> bool)
    requires forall k :: 0 <= k < |s| ==> keep(s[k])
    ensures Filter(s, keep) == s
    decreases |s|
  {
    if s != [] {
      FilterKeepsAll(s[1..], keep);
    }
  }

  /** Filters that agree on every element select the same elements. */
  lemma {:induction false} FilterAgrees<T>(s: seq<T>, keep: T -> bool, keep': T -> bool)
    requires forall k :: 0 <= k < |s| ==> keep(s[k]) == keep'(s[k])
    ensures Filter(s, keep) == Filter(s, keep')
    decreases |s|
  {
    if s != [] {
      FilterAgrees(s[1..], keep, keep');
    }
  }

  /** A filter that keeps nothing yields the empty sequence. */
  lemma {:induction false} FilterRejectsAll<T>(s: seq<T>, keep: T -> bool)
    requires forall k :: 0 <= k < |s| ==> !keep(s[k])
    ensures Filter(s, keep) == []
    decreases |s|
  {
    if s != [] {
      FilterRejectsAll(s[1..], keep);
    }
  }

  /** The filter keeps every copy of a value it accepts and no copy of a
      value it rejects. */
  lemma {:induction false} FilterCounts<T>(s: seq<T>, keep: T -> bool)
    ensures forall x :: keep(x) ==> multiset(Filter(s, keep))[x] == multiset(s)[x]
    ensures forall x :: !keep(x) ==> multiset(Filter(s, keep))[x] == 0
    decreases |s|
  {
    if s != [] {
      var rest := Filter(s[1..], keep);
      FilterCounts(s[1..], keep);
      assert s == [s[0]] + s[1..];
      assert multiset(s) == multiset{s[0]} + multiset(s[1..]);
      if keep(s[0]) {
        assert multiset(Filter(s, keep)) == multiset{s[0]} + multiset(rest);
      } else {
        assert Filter(s, keep) == rest;
      }
    }
  }

  /** An element the filter keeps lands in the filtered sequence right
      after the elements kept before it. */
  lemma FilterPosition<T>(s: seq<T>, k: nat, keep: T -> bool)
    requires k < |s| && keep(s[k])
    ensures |Filter(s[..k], keep)| < |Filter(s, keep)|
    ensures Filter(s, keep)[|Filter(s[..k], keep)|] == s[k]
  {
    assert s == s[..k] + s[k..];
    FilterConcat(s[..k], s[k..], keep);
    assert s[k..][0] == s[k];
  }

  /** A subsequence of a sequence with distinct keys has distinct keys. */
  lemma {:induction false} SubsequenceDistinctBy<T, K>(r: seq<T>, s: seq<T>, key: T -> K)
    requires IsSubsequence(r, s) && DistinctBy(s, key)
    ensures DistinctBy(r, key)
    decreases |s|
  {
    if r != [] {
      assert DistinctBy(s[1..], key) by {
        forall i, j | 0 <= i < j < |s[1..]| ensures key(s[1..][i]) != key(s[1..][j]) {
          assert s[1..][i] == s[i + 1] && s[1..][j] == s[j + 1];
        }
      }
      if r[0] == s[0] && IsSubsequence(r[1..], s[1..]) {
        SubsequenceDistinctBy(r[1..], s[1..], key);
        SubsequenceMembers(r[1..], s[1..]);
        forall i, j | 0 <= i < j < |r| ensures key(r[i]) != key(r[j]) {
          if i == 0 {
            assert r[j] == r[1..][j - 1];
            assert r[j] in s[1..];
            var k :| 0 <= k < |s[1..]| && s[1..][k] == r[j];
            assert s[k + 1] == r[j];
          } else {
            assert r[i] == r[1..][i - 1] && r[j] == r[1..][j - 1];
          }
        }
      } else {
        SubsequenceDistinctBy(r, s[1..], key);
      }
    }
  }
}
