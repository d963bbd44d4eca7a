/** Sequence operations the core leans on: `Array.prototype.filter` and the
    stable sort that both `Array.prototype.sort` and an `orderBy` query perform. */
module Sequences {

  /** `s.filter(p)`. */
  function Filter<T>(s: seq<T>, p: T -> bool): (r: seq<T>)
    ensures |r| <= |s|
  {
    if s == [] then [] else (if p(s[0]) then [s[0]] else []) + Filter(s[1..], p)
  }

  /** Filtering distributes over concatenation. */
  lemma {:induction false} FilterConcat<T>(a: seq<T>, b: seq<T>, p: T -> bool)
    ensures Filter(a + b, p) == Filter(a, p) + Filter(b, p)
  {
    if a == [] {
      assert a + b == b;
    } else {
      var ab := a + b;
      var head := if p(a[0]) then [a[0]] else [];
      assert ab[0] == a[0];
      assert ab[1..] == a[1..] + b;
      assert Filter(ab, p) == head + Filter(a[1..] + b, p);
      FilterConcat(a[1..], b, p);
      assert Filter(a, p) == head + Filter(a[1..], p);
    }
  }

  /** Filtering keeps exactly the elements that pass. */
  lemma {:induction false} FilterMembership<T>(s: seq<T>, p: T -> bool, x: T)
    ensures x in Filter(s, p) <==> x in s && p(x)
  {
    if s != [] {
      FilterMembership(s[1..], p, x);
      assert x in s <==> x == s[0] || x in s[1..];
    }
  }

  /** Filtering twice by the same test filters once. */
  lemma {:induction false} FilterIdempotent<T>(s: seq<T>, p: T -> bool)
    ensures Filter(Filter(s, p), p) == Filter(s, p)
  {
    if s != [] {
      FilterIdempotent(s[1..], p);
      if p(s[0]) {
        assert Filter(s, p) == [s[0]] + Filter(s[1..], p);
        assert Filter(s, p)[0] == s[0] && Filter(s, p)[1..] == Filter(s[1..], p);
      } else {
        assert Filter(s, p) == Filter(s[1..], p);
      }
    }
  }

  /** `a` is `b` with some elements left out, the rest in their order. */
  predicate Subsequence<T(==)>(a: seq<T>, b: seq<T>)
    decreases |b|
  {
    a == [] || (b != [] && if a[0] == b[0] then Subsequence(a[1..], b[1..]) else Subsequence(a, b[1..]))
  }

  lemma {:induction false} SubsequenceOfTail<T>(a: seq<T>, b: seq<T>)
    requires b != [] && Subsequence(a, b[1..])
    ensures Subsequence(a, b)
    decreases |b|, 0
  {
    if a != [] && a[0] == b[0] {
      SubsequenceDropHead(a, b[1..]);
    }
  }

  lemma {:induction false} SubsequenceDropHead<T>(a: seq<T>, b: seq<T>)
    requires a != [] && Subsequence(a, b)
    ensures Subsequence(a[1..], b)
    decreases |b|, 1
  {
    if a[0] == b[0] {
      if a[1..] != [] {
        SubsequenceOfTail(a[1..], b);
      }
    } else {
      SubsequenceDropHead(a, b[1..]);
      SubsequenceOfTail(a[1..], b);
    }
  }

  /** A filter keeps the order of what it keeps. */
  lemma {:induction false} FilterSubsequence<T>(s: seq<T>, p: T -> bool)
    ensures Subsequence(Filter(s, p), s)
  {
    if s != [] {
      FilterSubsequence(s[1..], p);
      if p(s[0]) {
        assert Filter(s, p) == [s[0]] + Filter(s[1..], p);
        assert Filter(s, p)[1..] == Filter(s[1..], p);
      } else {
        assert Filter(s, p) == Filter(s[1..], p);
        if Filter(s, p) != [] {
          SubsequenceOfTail(Filter(s, p), s);
        }
      }
    }
  }

  /** A filter whose test holds everywhere keeps everything. */
  lemma {:induction false} FilterAll<T>(s: seq<T>, p: T -> bool)
    requires forall x :: x in s ==> p(x)
    ensures Filter(s, p) == s
  {
    if s != [] {
      assert forall x :: x in s[1..] ==> x in s;
      FilterAll(s[1..], p);
    }
  }

  /** `lte` is total and transitive: what a comparator-based sort needs. */
  ghost predicate TotalPreorder<T(!new)>(lte: (T, T) -> bool)
  {
    (forall a, b :: lte(a, b) || lte(b, a)) &&
    (forall a, b, c :: lte(a, b) && lte(b, c) ==> lte(a, c))
  }

  predicate SortedBy<T>(s: seq<T>, lte: (T, T) -> bool)
  {
    forall i, j :: 0 <= i < j < |s| ==> lte(s[i], s[j])
  }

  /** Places `x` in front of the first element it may precede. */
  function Insert<T>(x: T, r: seq<T>, lte: (T, T) -> bool): (out: seq<T>)
    ensures |out| == |r| + 1
  {
    if r == [] then [x]
    else if lte(x, r[0]) then [x] + r
    else [r[0]] + Insert(x, r[1..], lte)
  }

  /** A stable insertion sort. */
  function SortBy<T>(s: seq<T>, lte: (T, T) -> bool): (out: seq<T>)
    ensures |out| == |s|
  {
    if s == [] then []
    else Insert(s[0], SortBy(s[1..], lte), lte)
  }

  /** Inserting adds exactly `x` to the elements. */
  lemma {:induction false} InsertPermutes<T>(x: T, r: seq<T>, lte: (T, T) -> bool)
    ensures multiset(Insert(x, r, lte)) == multiset(r) + multiset{x}
  {
    if r != [] && !lte(x, r[0]) {
      InsertPermutes(x, r[1..], lte);
      assert r == [r[0]] + r[1..];
    }
  }

  /** The sorted output is a permutation of the input. */
  lemma {:induction false} SortByPermutes<T>(s: seq<T>, lte: (T, T) -> bool)
    ensures multiset(SortBy(s, lte)) == multiset(s)
  {
    if s != [] {
      SortByPermutes(s[1..], lte);
      InsertPermutes(s[0], SortBy(s[1..], lte), lte);
      assert s == [s[0]] + s[1..];
    }
  }

  lemma {:induction false} InsertSorted<T(!new)>(x: T, r: seq<T>, lte: (T, T) -> bool)
    requires TotalPreorder(lte)
    requires SortedBy(r, lte)
    ensures SortedBy(Insert(x, r, lte), lte)
  {
    if r != [] && !lte(x, r[0]) {
      InsertSorted(x, r[1..], lte);
      var out := Insert(x, r, lte);
      var tail := Insert(x, r[1..], lte);
      InsertPermutes(x, r[1..], lte);
      forall j | 0 < j < |out| ensures lte(out[0], out[j]) {
        assert out[j] in multiset(tail);
        if out[j] == x {
        } else {
          assert out[j] in multiset(r[1..]);
          var k :| 0 <= k < |r[1..]| && r[1..][k] == out[j];
          assert r[k + 1] == out[j];
        }
      }
    }
  }

  /** The sorted output is ordered by `lte`. */
  lemma {:induction false} SortBySorted<T(!new)>(s: seq<T>, lte: (T, T) -> bool)
    requires TotalPreorder(lte)
    ensures SortedBy(SortBy(s, lte), lte)
  {
    if s != [] {
      SortBySorted(s[1..], lte);
      InsertSorted(s[0], SortBy(s[1..], lte), lte);
    }
  }

  /** Inserting an element that fails `p` leaves the filtered sequence as it was. */
  lemma {:induction false} InsertSkipped<T>(x: T, r: seq<T>, lte: (T, T) -> bool, p: T -> bool)
    requires !p(x)
    ensures Filter(Insert(x, r, lte), p) == Filter(r, p)
  {
    if r == [] || lte(x, r[0]) {
      var out := [x] + r;
      assert Insert(x, r, lte) == out;
      assert out[0] == x && out[1..] == r;
    } else {
      var out := [r[0]] + Insert(x, r[1..], lte);
      assert Insert(x, r, lte) == out;
      assert out[0] == r[0] && out[1..] == Insert(x, r[1..], lte);
      InsertSkipped(x, r[1..], lte, p);
    }
  }

  /** Inserting an element that passes `p`, among elements that `p` ties with it,
      puts it in front of all of them. */
  lemma {:induction false} InsertFront<T>(x: T, r: seq<T>, lte: (T, T) -> bool, p: T -> bool)
    requires p(x)
    requires forall i :: 0 <= i < |r| && p(r[i]) ==> lte(x, r[i])
    ensures Filter(Insert(x, r, lte), p) == [x] + Filter(r, p)
  {
    if r == [] || lte(x, r[0]) {
      var out := [x] + r;
      assert Insert(x, r, lte) == out;
      assert out[0] == x && out[1..] == r;
      assert Filter(out, p) == [x] + Filter(r, p);
    } else {
      var out := [r[0]] + Insert(x, r[1..], lte);
      assert Insert(x, r, lte) == out;
      assert out[0] == r[0] && out[1..] == Insert(x, r[1..], lte);
      assert !p(r[0]);
      assert forall i :: 0 <= i < |r| - 1 ==> r[1..][i] == r[i + 1];
      InsertFront(x, r[1..], lte, p);
      assert Filter(out, p) == Filter(Insert(x, r[1..], lte), p);
      assert Filter(r, p) == Filter(r[1..], p);
    }
  }

  lemma InsertStable<T>(x: T, r: seq<T>, lte: (T, T) -> bool, p: T -> bool)
    requires forall a, b :: p(a) && p(b) ==> lte(a, b)
    ensures Filter(Insert(x, r, lte), p) == Filter([x], p) + Filter(r, p)
  {
    assert [x][1..] == [];
    if p(x) {
      InsertFront(x, r, lte, p);
    } else {
      InsertSkipped(x, r, lte, p);
    }
  }

  /** Stability: elements that are all tied with one another keep their input order. */
  lemma {:induction false} SortByStable<T>(s: seq<T>, lte: (T, T) -> bool, p: T -> bool)
    requires forall a, b :: p(a) && p(b) ==> lte(a, b)
    ensures Filter(SortBy(s, lte), p) == Filter(s, p)
  {
    if s != [] {
      SortByStable(s[1..], lte, p);
      InsertStable(s[0], SortBy(s[1..], lte), lte, p);
      FilterConcat([s[0]], s[1..], p);
      assert [s[0]] + s[1..] == s;
    }
  }
}
