/** Sequence operations that the source gets from JavaScript's arrays:
    `filter`, `slice(0, k)` and the stable `sort` (ECMAScript 2019 requires
    `Array.prototype.sort` to be stable). The sort is given by a key function and
    orders by DESCENDING key; an ascending sort is the descending sort of the
    negated key. */
module Ranking {

  // ---------------------------------------------------------------------------
  // filter

  /** `s.filter(keep)`. */
  function Filter<T>(s: seq<T>, keep: T -> bool): (r: seq<T>)
    ensures |r| <= |s|
    ensures forall x :: x in r ==> x in s && keep(x)
    ensures forall i :: 0 <= i < |s| && keep(s[i]) ==> s[i] in r
    ensures forall i :: 0 <= i < |r| ==> keep(r[i])
  {
    if s == [] then []
    else if keep(s[0]) then [s[0]] + Filter(s[1..], keep)
    else Filter(s[1..], keep)
  }

  lemma {:induction false} FilterConcat<T>(a: seq<T>, b: seq<T>, keep: T -> bool)
    ensures Filter(a + b, keep) == Filter(a, keep) + Filter(b, keep)
  {
    if a == [] {
      assert a + b == b;
    } else {
      assert (a + b)[0] == a[0];
      assert (a + b)[1..] == a[1..] + b;
      FilterConcat(a[1..], b, keep);
    }
  }

  /** `a` is obtained from `b` by deleting elements (order kept). */
  predicate IsSubseq<T(==)>(a: seq<T>, b: seq<T>)
    decreases |b|
  {
    if a == [] then true
    else if b == [] then false
    else if a[0] == b[0] then IsSubseq(a[1..], b[1..])
    else IsSubseq(a, b[1..])
  }

  lemma {:induction false} FilterIsSubseq<T>(s: seq<T>, keep: T -> bool)
    ensures IsSubseq(Filter(s, keep), s)
  {
    if s != [] {
      FilterIsSubseq(s[1..], keep);
      if !keep(s[0]) {
        var f := Filter(s[1..], keep);
        SubseqOfTail(f, s);
      }
    }
  }

  /** A subsequence of the tail is a subsequence of the whole. */
  lemma {:induction false} SubseqOfTail<T>(a: seq<T>, b: seq<T>)
    requires b != [] && IsSubseq(a, b[1..])
    ensures IsSubseq(a, b)
    decreases |b|, 0
  {
    if a != [] && a[0] == b[0] {
      SubseqDropHead(a, b[1..]);
    }
  }

  /** Dropping the first element of a subsequence keeps it a subsequence. */
  lemma {:induction false} SubseqDropHead<T>(a: seq<T>, b: seq<T>)
    requires a != [] && IsSubseq(a, b)
    ensures IsSubseq(a[1..], b)
    decreases |b|, 1
  {
    if a[0] != b[0] {
      SubseqDropHead(a, b[1..]);
    }
    SubseqOfTail(a[1..], b);
  }

  lemma {:induction false} SubseqMembers<T>(a: seq<T>, b: seq<T>)
    requires IsSubseq(a, b)
    ensures forall x :: x in a ==> x in b
    decreases |b|
  {
    if a != [] {
      assert forall x :: x in a ==> x == a[0] || x in a[1..];
      if a[0] == b[0] {
        SubseqMembers(a[1..], b[1..]);
      } else {
        SubseqMembers(a, b[1..]);
      }
    }
  }

  /** No element occurs twice. */
  predicate NoDuplicates<T(==)>(s: seq<T>)
  {
    forall i, j :: 0 <= i < j < |s| ==> s[i] != s[j]
  }

  /** A subsequence of a duplicate-free sequence is duplicate-free. */
  lemma {:induction false} SubseqNoDuplicates<T>(a: seq<T>, b: seq<T>)
    requires IsSubseq(a, b) && NoDuplicates(b)
    ensures NoDuplicates(a)
    decreases |b|
  {
    if a != [] {
      if a[0] == b[0] {
        SubseqNoDuplicates(a[1..], b[1..]);
        SubseqMembers(a[1..], b[1..]);
        assert b[0] !in b[1..];
        assert forall j :: 1 <= j < |a| ==> a[j] in a[1..];
      } else {
        SubseqNoDuplicates(a, b[1..]);
      }
    }
  }

  // ---------------------------------------------------------------------------
  // stable sort by descending key

  /** Non-increasing by key. */
  predicate SortedDesc<T>(s: seq<T>, key: T -> int)
  {
    forall i, j :: 0 <= i < j < |s| ==> key(s[i]) >= key(s[j])
  }

  /** The elements whose key is `v`, in order. Two sequences with the same
      Select for every v agree on each key class, order included. */
  function Select<T>(s: seq<T>, key: T -> int, v: int): seq<T>
  {
    if s == [] then []
    else if key(s[0]) == v then [s[0]] + Select(s[1..], key, v)
    else Select(s[1..], key, v)
  }

  /** Puts `x` in front of the first element whose key is not greater than its
      own; in front of equal keys, so that an element inserted earlier in the
      original order stays first among equals. */
  function Insert<T>(x: T, s: seq<T>, key: T -> int): seq<T>
  {
    if s == [] then [x]
    else if key(s[0]) > key(x) then [s[0]] + Insert(x, s[1..], key)
    else [x] + s
  }

  /** Stable sort by descending key. */
  function SortDesc<T>(s: seq<T>, key: T -> int): seq<T>
  {
    if s == [] then [] else Insert(s[0], SortDesc(s[1..], key), key)
  }

  lemma {:induction false} InsertMultiset<T>(x: T, s: seq<T>, key: T -> int)
    ensures multiset(Insert(x, s, key)) == multiset(s) + multiset{x}
  {
    if s != [] && key(s[0]) > key(x) {
      InsertMultiset(x, s[1..], key);
      assert s == [s[0]] + s[1..];
    }
  }

  lemma InsertMembers<T>(x: T, s: seq<T>, key: T -> int)
    ensures |Insert(x, s, key)| == |s| + 1
    ensures forall y :: y in Insert(x, s, key) ==> y == x || y in s
  {
    InsertMultiset(x, s, key);
    assert forall y :: y in Insert(x, s, key) ==> y in multiset(Insert(x, s, key));
    assert |multiset(Insert(x, s, key))| == |multiset(s)| + 1;
  }

  lemma {:induction false} InsertSorted<T>(x: T, s: seq<T>, key: T -> int)
    requires SortedDesc(s, key)
    ensures SortedDesc(Insert(x, s, key), key)
  {
    if s != [] && key(s[0]) > key(x) {
      InsertSorted(x, s[1..], key);
      var t := Insert(x, s[1..], key);
      InsertMembers(x, s[1..], key);
      assert forall y :: y in t ==> key(y) <= key(s[0]);
      var r := [s[0]] + t;
      assert Insert(x, s, key) == r;
      forall i, j | 0 <= i < j < |r| ensures key(r[i]) >= key(r[j]) {
        assert r[j] == t[j - 1];
        if i > 0 {
          assert r[i] == t[i - 1];
        }
      }
    }
  }

  lemma {:induction false} InsertSelect<T>(x: T, s: seq<T>, key: T -> int, v: int)
    ensures Select(Insert(x, s, key), key, v) == (if key(x) == v then [x] else []) + Select(s, key, v)
  {
    if s != [] && key(s[0]) > key(x) {
      InsertSelect(x, s[1..], key, v);
      var t := Insert(x, s[1..], key);
      assert ([s[0]] + t)[1..] == t;
    }
  }

  /** The sorted result is ordered, is a permutation of the input, and keeps
      the input order within each key class (stability). */
  lemma {:induction false} SortDescProps<T>(s: seq<T>, key: T -> int)
    ensures |SortDesc(s, key)| == |s|
    ensures SortedDesc(SortDesc(s, key), key)
    ensures multiset(SortDesc(s, key)) == multiset(s)
    ensures forall v :: Select(SortDesc(s, key), key, v) == Select(s, key, v)
  {
    if s != [] {
      SortDescProps(s[1..], key);
      var t := SortDesc(s[1..], key);
      InsertSorted(s[0], t, key);
      InsertMultiset(s[0], t, key);
      forall v ensures Select(SortDesc(s, key), key, v) == Select(s, key, v) {
        InsertSelect(s[0], t, key, v);
      }
      assert s == [s[0]] + s[1..];
      assert |multiset(SortDesc(s, key))| == |multiset(s)|;
    }
  }

  /** The members of the sorted result are the members of the input. */
  lemma SortDescMembers<T>(s: seq<T>, key: T -> int)
    ensures forall x :: x in SortDesc(s, key) ==> x in s
    ensures forall x :: x in s ==> x in SortDesc(s, key)
  {
    SortDescProps(s, key);
    assert forall x :: x in SortDesc(s, key) ==> x in multiset(SortDesc(s, key));
    assert forall x :: x in s ==> x in multiset(s);
  }

  /** Sorting an already sorted sequence leaves it unchanged. */
  lemma {:induction false} SortDescOfSorted<T>(s: seq<T>, key: T -> int)
    requires SortedDesc(s, key)
    ensures SortDesc(s, key) == s
  {
    if s != [] {
      SortDescOfSorted(s[1..], key);
      assert SortDesc(s[1..], key) == s[1..];
      if s[1..] != [] {
        assert key(s[1]) <= key(s[0]);
      }
    }
  }

  /** `a` is an initial segment of `b`. */
  predicate IsPrefix<T(==)>(a: seq<T>, b: seq<T>)
  {
    |a| <= |b| && b[..|a|] == a
  }

  /** Select distributes over concatenation. */
  lemma {:induction false} SelectConcat<T>(a: seq<T>, b: seq<T>, key: T -> int, v: int)
    ensures Select(a + b, key, v) == Select(a, key, v) + Select(b, key, v)
  {
    if a == [] {
      assert a + b == b;
    } else {
      assert (a + b)[1..] == a[1..] + b;
      SelectConcat(a[1..], b, key, v);
    }
  }

  /** Dropping the elements with a non-positive key leaves every positive
      key class unchanged, order included. */
  lemma {:induction false} SelectOfPositive<T>(s: seq<T>, keep: T -> bool, key: T -> int, v: int)
    requires forall x :: keep(x) <==> key(x) > 0
    requires v > 0
    ensures Select(Filter(s, keep), key, v) == Select(s, key, v)
  {
    if s != [] {
      SelectOfPositive(s[1..], keep, key, v);
    }
  }

  /** `s.slice(0, k)`. */
  function Take<T>(s: seq<T>, k: nat): (r: seq<T>)
    ensures |r| == if |s| < k then |s| else k
    ensures forall i :: 0 <= i < |r| ==> r[i] == s[i]
    ensures s == r + s[|r|..]
  {
    if |s| <= k then s else s[..k]
  }
}
