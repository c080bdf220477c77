/** Ordering of boot environments by creation time. The loader sorts with Rust's `sort_by`, a
    stable sort; `SortByCreated` is a stable insertion sort used as its reference definition. A
    stable sort's output is determined by its input, so the lemmas below (sorted, a permutation,
    stable on every key) describe exactly what the library call returns. */
module Ordering {
  import opened Records

  predicate SortedByCreated(s: seq<BootEnvironment>) {
    forall i, j :: 0 <= i < j < |s| ==> s[i].created <= s[j].created
  }

  /** No two records share a path. */
  predicate UniquePaths(s: seq<BootEnvironment>) {
    forall i, j :: 0 <= i < j < |s| ==> s[i].path != s[j].path
  }

  /** Places `x` before the first element that is not created earlier than it. */
  function Insert(x: BootEnvironment, t: seq<BootEnvironment>): seq<BootEnvironment> {
    if t == [] then [x]
    else if x.created <= t[0].created then [x] + t
    else [t[0]] + Insert(x, t[1..])
  }

  /** The reference sort: a permutation of its input (sorted and stable, by the lemmas below). */
  function SortByCreated(s: seq<BootEnvironment>): (r: seq<BootEnvironment>)
    ensures multiset(r) == multiset(s)
    ensures |r| == |s|
  {
    if s == [] then []
    else
      InsertPermutation(s[0], SortByCreated(s[1..]));
      assert s == [s[0]] + s[1..];
      Insert(s[0], SortByCreated(s[1..]))
  }

  /** Records created at the same time are identical: the creation times leave no tie that an
      order could break two ways. */
  predicate TiesIdentical(s: seq<BootEnvironment>) {
    forall x, y :: x in s && y in s && x.created == y.created ==> x == y
  }

  /** The records created at time `k`, in their order in `s`. */
  function WithCreated(s: seq<BootEnvironment>, k: Int64): (r: seq<BootEnvironment>)
    ensures forall i :: 0 <= i < |r| ==> r[i].created == k
  {
    if s == [] then []
    else if s[0].created == k then [s[0]] + WithCreated(s[1..], k)
    else WithCreated(s[1..], k)
  }

  lemma {:induction false} InsertPermutation(x: BootEnvironment, t: seq<BootEnvironment>)
    ensures multiset(Insert(x, t)) == multiset{x} + multiset(t)
    ensures |Insert(x, t)| == |t| + 1
  {
    if t != [] && x.created > t[0].created {
      InsertPermutation(x, t[1..]);
      assert t == [t[0]] + t[1..];
    }
  }

  lemma {:induction false} InsertSorted(x: BootEnvironment, t: seq<BootEnvironment>)
    requires SortedByCreated(t)
    ensures SortedByCreated(Insert(x, t))
  {
    if t != [] && x.created > t[0].created {
      var rest := Insert(x, t[1..]);
      InsertSorted(x, t[1..]);
      InsertPermutation(x, t[1..]);
      forall i | 0 <= i < |rest| ensures t[0].created <= rest[i].created {
        assert rest[i] in multiset(rest);
        assert rest[i] == x || rest[i] in t[1..];
      }
    }
  }

  /** The reference sort returns its input sorted ascending by `created`. */
  lemma {:induction false} SortByCreatedCorrect(s: seq<BootEnvironment>)
    ensures SortedByCreated(SortByCreated(s))
  {
    if s != [] {
      SortByCreatedCorrect(s[1..]);
      InsertSorted(s[0], SortByCreated(s[1..]));
    }
  }

  /** Two sorted lists holding the same records are equal when records created at the same time
      are identical; on a true tie, only the input order decides. */
  lemma {:induction false} SortedPermutationsEqual(a: seq<BootEnvironment>, b: seq<BootEnvironment>)
    requires SortedByCreated(a) && SortedByCreated(b)
    requires multiset(a) == multiset(b)
    requires TiesIdentical(a)
    ensures a == b
    decreases |a|
  {
    if a == [] {
      assert |b| == |multiset(b)| == 0;
    } else {
      SortedHeadsEqual(a, b);
      assert a == [a[0]] + a[1..] && b == [b[0]] + b[1..];
      assert multiset(a) == multiset{a[0]} + multiset(a[1..]);
      assert multiset(b) == multiset{b[0]} + multiset(b[1..]);
      assert multiset(a[1..]) == multiset(a) - multiset{a[0]};
      assert multiset(b[1..]) == multiset(b) - multiset{b[0]};
      TiesIdenticalTail(a);
      SortedTail(a);
      SortedTail(b);
      SortedPermutationsEqual(a[1..], b[1..]);
    }
  }

  lemma SortedHeadsEqual(a: seq<BootEnvironment>, b: seq<BootEnvironment>)
    requires SortedByCreated(a) && SortedByCreated(b)
    requires multiset(a) == multiset(b)
    requires TiesIdentical(a)
    requires a != []
    ensures b != [] && a[0] == b[0]
  {
    assert a[0] in multiset(b);
    var i :| 0 <= i < |b| && b[i] == a[0];
    assert b[0] in multiset(a);
    var j :| 0 <= j < |a| && a[j] == b[0];
    assert b[0].created <= b[i].created;
    assert a[0].created <= a[j].created;
    assert a[j] in a;
  }

  lemma TiesIdenticalTail(a: seq<BootEnvironment>)
    requires TiesIdentical(a) && a != []
    ensures TiesIdentical(a[1..])
  {
    forall x, y | x in a[1..] && y in a[1..] && x.created == y.created ensures x == y {
      assert x in a && y in a;
    }
  }

  lemma SortedTail(a: seq<BootEnvironment>)
    requires SortedByCreated(a) && a != []
    ensures SortedByCreated(a[1..])
  {
  }

  /** Inserting `x` adds it to the records created at its own time, ahead of them, and leaves the
      records with every other creation time as they were. */
  lemma {:induction false} InsertStable(x: BootEnvironment, t: seq<BootEnvironment>, k: Int64)
    ensures WithCreated(Insert(x, t), k) == if x.created == k then [x] + WithCreated(t, k) else WithCreated(t, k)
  {
    if t == [] {
    } else if x.created <= t[0].created {
      assert ([x] + t)[1..] == t;
    } else {
      InsertStable(x, t[1..], k);
      assert ([t[0]] + Insert(x, t[1..]))[1..] == Insert(x, t[1..]);
      if x.created == k {
        assert t[0].created != k;
      }
    }
  }

  /** Stability: the records with any one creation time keep their relative order. */
  lemma {:induction false} SortByCreatedStable(s: seq<BootEnvironment>, k: Int64)
    ensures WithCreated(SortByCreated(s), k) == WithCreated(s, k)
  {
    if s != [] {
      SortByCreatedStable(s[1..], k);
      InsertStable(s[0], SortByCreated(s[1..]), k);
    }
  }

  /** An already sorted list is returned unchanged, so sorting is idempotent. */
  lemma {:induction false} SortOfSortedIsIdentity(s: seq<BootEnvironment>)
    requires SortedByCreated(s)
    ensures SortByCreated(s) == s
  {
    if s != [] {
      assert SortedByCreated(s[1..]);
      SortOfSortedIsIdentity(s[1..]);
      if |s| > 1 {
        assert s[0].created <= s[1].created;
      }
      assert s == [s[0]] + s[1..];
    }
  }

  /** Sorting twice gives the same list as sorting once. */
  lemma SortIdempotent(s: seq<BootEnvironment>)
    ensures SortByCreated(SortByCreated(s)) == SortByCreated(s)
  {
    SortByCreatedCorrect(s);
    SortOfSortedIsIdentity(SortByCreated(s));
  }

  /** Sorting never creates two records with the same path. */
  lemma {:induction false} SortPreservesUniquePaths(s: seq<BootEnvironment>)
    requires UniquePaths(s)
    ensures UniquePaths(SortByCreated(s))
  {
    if s != [] {
      assert UniquePaths(s[1..]);
      SortPreservesUniquePaths(s[1..]);
      var t := SortByCreated(s[1..]);
      SortByCreatedCorrect(s[1..]);
      forall i | 0 <= i < |t| ensures t[i].path != s[0].path {
        assert t[i] in multiset(s[1..]);
        var j :| 0 <= j < |s[1..]| && s[1..][j] == t[i];
        assert s[j + 1] == t[i];
      }
      InsertUnique(s[0], t);
    }
  }

  lemma {:induction false} InsertUnique(x: BootEnvironment, t: seq<BootEnvironment>)
    requires UniquePaths(t)
    requires forall i :: 0 <= i < |t| ==> t[i].path != x.path
    ensures UniquePaths(Insert(x, t))
  {
    if t != [] && x.created > t[0].created {
      var rest := Insert(x, t[1..]);
      assert UniquePaths(t[1..]);
      InsertUnique(x, t[1..]);
      InsertPermutation(x, t[1..]);
      forall i | 0 <= i < |rest| ensures rest[i].path != t[0].path {
        assert rest[i] in multiset(rest);
        if rest[i] != x {
          assert rest[i] in t[1..];
          var j :| 0 <= j < |t[1..]| && t[1..][j] == rest[i];
          assert t[j + 1] == rest[i];
        }
      }
      assert Insert(x, t) == [t[0]] + rest;
    }
  }
}
