/** `Array.prototype.sort` with a comparator, as the dashboard uses it: the
    array is reordered in place, ascending for the given order, and elements
    the order ranks level keep their relative order (the sort is stable). The
    engine's own algorithm is not visible; an insertion sort that swaps only
    strictly out-of-order neighbours stands in for it. */
module Sorting {

  /** `le` behaves like `(a, b) => cmp(a, b) <= 0` for a consistent comparator. */
  ghost predicate TotalPreorder<T(!new)>(le: (T, T) -> bool) {
    && (forall a, b :: le(a, b) || le(b, a))
    && (forall a, b, c :: le(a, b) && le(b, c) ==> le(a, c))
  }

  predicate SortedBy<T>(s: seq<T>, le: (T, T) -> bool) {
    forall i, j :: 0 <= i < j < |s| ==> le(s[i], s[j])
  }

  /** a[..n] is ordered except possibly at position `hole`, and the element at
      `hole` is below everything after it. */
  ghost predicate SortedAround<T>(a: seq<T>, n: nat, hole: nat, le: (T, T) -> bool)
    requires hole <= n < |a|
  {
    && (forall p, q :: 0 <= p < q <= n && p != hole && q != hole ==> le(a[p], a[q]))
    && (forall q :: hole < q <= n ==> le(a[hole], a[q]))
  }

  /** The elements of `s` that `le` ranks level with `x`, in the order `s`
      holds them. */
  function Ties<T>(s: seq<T>, x: T, le: (T, T) -> bool): seq<T> {
    if |s| == 0 then []
    else (if le(x, s[0]) && le(s[0], x) then [s[0]] else []) + Ties(s[1..], x, le)
  }

  /** `t` holds every run of level elements in the order `s` holds it, as a
      stable sort of `s` does. */
  ghost predicate KeepsTies<T(!new)>(s: seq<T>, t: seq<T>, le: (T, T) -> bool) {
    forall x :: Ties(t, x, le) == Ties(s, x, le)
  }

  method InsertionSort<T(!new)>(a: array<T>, le: (T, T) -> bool)
    requires TotalPreorder(le)
    modifies a
    ensures SortedBy(a[..], le)
    ensures multiset(a[..]) == multiset(old(a[..]))
    ensures KeepsTies(old(a[..]), a[..], le)
  {
    if a.Length == 0 {
      return;
    }
    var i := 1;
    while i < a.Length
      invariant 1 <= i <= a.Length
      invariant SortedBy(a[..i], le)
      invariant multiset(a[..]) == multiset(old(a[..]))
      invariant KeepsTies(old(a[..]), a[..], le)
    {
      SinkDown(a, i, le);
      i := i + 1;
    }
    assert a[..a.Length] == a[..];
  }

  /** One pass of the insertion sort: `a[i]` sinks past every strictly
      greater element before it. */
  method SinkDown<T(!new)>(a: array<T>, i: nat, le: (T, T) -> bool)
    requires TotalPreorder(le) && i < a.Length && SortedBy(a[..i], le)
    modifies a
    ensures SortedBy(a[..i + 1], le)
    ensures multiset(a[..]) == multiset(old(a[..]))
    ensures KeepsTies(old(a[..]), a[..], le)
  {
    var j := i;
    StartAround(a[..], i, le);
    while j > 0 && !le(a[j - 1], a[j])
      invariant 0 <= j <= i
      invariant SortedAround(a[..], i, j, le)
      invariant multiset(a[..]) == multiset(old(a[..]))
      invariant KeepsTies(old(a[..]), a[..], le)
    {
      ghost var s := a[..];
      SwapDown(s, i, j, le);
      SwapKeepsTies(s, j, le);
      a[j - 1], a[j] := a[j], a[j - 1];
      assert a[..] == s[j - 1 := s[j]][j := s[j - 1]];
      j := j - 1;
    }
    EndAround(a[..], i, j, le);
  }

  lemma StartAround<T>(s: seq<T>, n: nat, le: (T, T) -> bool)
    requires n < |s| && SortedBy(s[..n], le)
    ensures SortedAround(s, n, n, le)
  {
    forall p, q | 0 <= p < q <= n && p != n && q != n ensures le(s[p], s[q]) {
      assert s[p] == s[..n][p] && s[q] == s[..n][q];
    }
  }

  /** Swapping the hole with its strictly greater left neighbour moves the
      hole one place left and keeps the rest in order. */
  lemma SwapDown<T(!new)>(s: seq<T>, n: nat, j: nat, le: (T, T) -> bool)
    requires TotalPreorder(le) && 0 < j <= n < |s|
    requires SortedAround(s, n, j, le) && !le(s[j - 1], s[j])
    ensures SortedAround(s[j - 1 := s[j]][j := s[j - 1]], n, j - 1, le)
    ensures multiset(s[j - 1 := s[j]][j := s[j - 1]]) == multiset(s)
  {
    var t := s[j - 1 := s[j]][j := s[j - 1]];
    assert le(s[j], s[j - 1]);
    forall q | j - 1 < q <= n ensures le(t[j - 1], t[q]) {
      if q > j {
        assert le(s[j], s[q]);
      }
    }
    forall p, q | 0 <= p < q <= n && p != j - 1 && q != j - 1 ensures le(t[p], t[q]) {
      if q == j {
        assert le(s[p], s[j - 1]);
      } else if p == j {
        assert le(s[j - 1], s[q]);
      }
    }
  }

  lemma {:induction false} TiesAppend<T>(a: seq<T>, b: seq<T>, x: T, le: (T, T) -> bool)
    ensures Ties(a + b, x, le) == Ties(a, x, le) + Ties(b, x, le)
  {
    if |a| == 0 {
      assert a + b == b;
    } else {
      assert (a + b)[1..] == a[1..] + b;
      TiesAppend(a[1..], b, x, le);
    }
  }

  /** Of two elements in strictly increasing order at most one is level with `x`. */
  lemma NotBothLevel<T(!new)>(a: T, b: T, x: T, le: (T, T) -> bool)
    requires TotalPreorder(le) && !le(a, b)
    ensures Ties([a], x, le) == [] || Ties([b], x, le) == []
  {
    if le(b, x) && le(x, a) {
      assert le(b, a);
    }
  }

  /** Swapping two neighbours the order does not rank level keeps every run
      of level elements in place. */
  lemma SwapKeepsTies<T(!new)>(s: seq<T>, j: nat, le: (T, T) -> bool)
    requires TotalPreorder(le) && 0 < j < |s| && !le(s[j - 1], s[j])
    ensures KeepsTies(s, s[j - 1 := s[j]][j := s[j - 1]], le)
  {
    var t := s[j - 1 := s[j]][j := s[j - 1]];
    var pre, a, b, post := s[..j - 1], s[j - 1], s[j], s[j + 1..];
    assert s == pre + [a] + [b] + post;
    assert t == pre + [b] + [a] + post;
    forall x ensures Ties(t, x, le) == Ties(s, x, le) {
      TiesOfFour(pre, a, b, post, x, le);
      TiesOfFour(pre, b, a, post, x, le);
      NotBothLevel(a, b, x, le);
      SwapAroundEmpty(Ties([a], x, le), Ties([b], x, le), Ties(post, x, le));
    }
  }

  lemma TiesOfFour<T>(pre: seq<T>, a: T, b: T, post: seq<T>, x: T, le: (T, T) -> bool)
    ensures Ties(pre + [a] + [b] + post, x, le)
         == Ties(pre, x, le) + (Ties([a], x, le) + (Ties([b], x, le) + Ties(post, x, le)))
  {
    var u := pre + [a];
    var v := u + [b];
    TiesAppend(v, post, x, le);
    TiesAppend(u, [b], x, le);
    TiesAppend(pre, [a], x, le);
    Regroup(Ties(pre, x, le), Ties([a], x, le), Ties([b], x, le), Ties(post, x, le));
  }

  lemma Regroup<T>(p: seq<T>, q: seq<T>, r: seq<T>, t: seq<T>)
    ensures p + q + r + t == p + (q + (r + t))
  {
  }

  lemma EndAround<T(!new)>(s: seq<T>, n: nat, j: nat, le: (T, T) -> bool)
    requires j <= n < |s| && SortedAround(s, n, j, le)
    requires j == 0 || le(s[j - 1], s[j])
    requires TotalPreorder(le)
    ensures SortedBy(s[..n + 1], le)
  {
    forall p, q | 0 <= p < q <= n ensures le(s[p], s[q]) {
      if q == j {
        if p < j - 1 {
          assert le(s[p], s[j - 1]);
        }
      }
    }
  }

  // ---------------------------------------------------------------------------
  // The default order of `sort()` on strings: character by character, a
  // proper prefix first. A `char` here is a Unicode scalar value, so this is
  // code-point order; it agrees with JavaScript's UTF-16 code-unit order on
  // strings with no character above U+FFFF.

  predicate StringLe(a: string, b: string) {
    if |a| == 0 then true
    else if |b| == 0 then false
    else if a[0] != b[0] then a[0] < b[0]
    else StringLe(a[1..], b[1..])
  }

  lemma {:induction false} StringLeTotal(a: string, b: string)
    ensures StringLe(a, b) || StringLe(b, a)
  {
    if |a| > 0 && |b| > 0 && a[0] == b[0] {
      StringLeTotal(a[1..], b[1..]);
    }
  }

  lemma {:induction false} StringLeTransitive(a: string, b: string, c: string)
    requires StringLe(a, b) && StringLe(b, c)
    ensures StringLe(a, c)
  {
    if |a| > 0 && |b| > 0 && |c| > 0 && a[0] == b[0] && b[0] == c[0] {
      StringLeTransitive(a[1..], b[1..], c[1..]);
    }
  }

  lemma {:induction false} StringLeAntisymmetric(a: string, b: string)
    requires StringLe(a, b) && StringLe(b, a)
    ensures a == b
  {
    if |a| > 0 && |b| > 0 {
      StringLeAntisymmetric(a[1..], b[1..]);
      assert a == [a[0]] + a[1..] && b == [b[0]] + b[1..];
    }
  }

  lemma StringOrder()
    ensures TotalPreorder(StringLe)
  {
    forall a, b ensures StringLe(a, b) || StringLe(b, a) {
      StringLeTotal(a, b);
    }
    forall a, b, c | StringLe(a, b) && StringLe(b, c) ensures StringLe(a, c) {
      StringLeTransitive(a, b, c);
    }
  }

  /** The first element of a sorted sequence is below every element of it. */
  lemma SortedHeadIsLeast<T(!new)>(s: seq<T>, le: (T, T) -> bool, x: T)
    requires TotalPreorder(le) && SortedBy(s, le) && x in s
    ensures le(s[0], x)
  {
    var i :| 0 <= i < |s| && s[i] == x;
    if i == 0 {
      assert le(x, x) || le(x, x);
    }
  }

  lemma MultisetTail<T>(s: seq<T>, t: seq<T>)
    requires |s| > 0 && |t| > 0 && s[0] == t[0] && multiset(s) == multiset(t)
    ensures multiset(s[1..]) == multiset(t[1..])
  {
    assert s == [s[0]] + s[1..] && t == [t[0]] + t[1..];
    assert multiset(s) == multiset{s[0]} + multiset(s[1..]);
    assert multiset(t) == multiset{t[0]} + multiset(t[1..]);
    forall x ensures multiset(s[1..])[x] == multiset(t[1..])[x] {
      assert multiset(s)[x] == multiset{s[0]}[x] + multiset(s[1..])[x];
      assert multiset(t)[x] == multiset{t[0]}[x] + multiset(t[1..])[x];
    }
  }

  /** Sorting a collection of strings has only one possible result. */
  lemma {:induction false} SortedStringsUnique(s: seq<string>, t: seq<string>)
    requires SortedBy(s, StringLe) && SortedBy(t, StringLe)
    requires multiset(s) == multiset(t)
    ensures s == t
    decreases |s|
  {
    assert |t| == |multiset(t)| == |multiset(s)| == |s|;
    if |s| > 0 {
      SortedHeadsEqual(s, t);
      MultisetTail(s, t);
      SortedStringsUnique(s[1..], t[1..]);
      assert s == [s[0]] + s[1..] && t == [t[0]] + t[1..];
    }
  }

  lemma SortedHeadsEqual(s: seq<string>, t: seq<string>)
    requires SortedBy(s, StringLe) && SortedBy(t, StringLe)
    requires multiset(s) == multiset(t) && |s| > 0 && |t| > 0
    ensures s[0] == t[0]
  {
    assert s[0] in multiset(t) && t[0] in multiset(s);
    StringOrder();
    SortedHeadIsLeast(t, StringLe, s[0]);
    SortedHeadIsLeast(s, StringLe, t[0]);
    StringLeAntisymmetric(s[0], t[0]);
  }

  // ---------------------------------------------------------------------------
  // Sorting as a value: the key order a `groupby` emits its groups in.

  function InsertSorted<T>(x: T, s: seq<T>, le: (T, T) -> bool): (r: seq<T>)
    ensures multiset(r) == multiset(s) + multiset{x}
  {
    if |s| == 0 then [x]
    else if le(x, s[0]) then [x] + s
    else
      assert s == [s[0]] + s[1..];
      [s[0]] + InsertSorted(x, s[1..], le)
  }

  function SortSeq<T>(s: seq<T>, le: (T, T) -> bool): (r: seq<T>)
    ensures multiset(r) == multiset(s)
  {
    if |s| == 0 then []
    else
      assert s == [s[0]] + s[1..];
      InsertSorted(s[0], SortSeq(s[1..], le), le)
  }

  lemma {:induction false} InsertSortedSorted<T(!new)>(x: T, s: seq<T>, le: (T, T) -> bool)
    requires TotalPreorder(le) && SortedBy(s, le)
    ensures SortedBy(InsertSorted(x, s, le), le)
  {
    if |s| > 0 && !le(x, s[0]) {
      InsertSortedSorted(x, s[1..], le);
      var r := InsertSorted(x, s[1..], le);
      assert le(s[0], x);
      forall y | y in r ensures le(s[0], y) {
        assert y in multiset(r);
        if y != x {
          assert y in s[1..];
        }
      }
    }
  }

  /** The sorted sequence is ordered and holds the same elements, each as often. */
  lemma {:induction false} SortSeqSorted<T(!new)>(s: seq<T>, le: (T, T) -> bool)
    requires TotalPreorder(le)
    ensures SortedBy(SortSeq(s, le), le)
  {
    if |s| > 0 {
      SortSeqSorted(s[1..], le);
      InsertSortedSorted(s[0], SortSeq(s[1..], le), le);
    }
  }

  /** Inserting `y` puts it ahead of every element level with it. */
  lemma {:induction false} InsertSortedTies<T(!new)>(y: T, s: seq<T>, x: T, le: (T, T) -> bool)
    requires TotalPreorder(le)
    ensures Ties(InsertSorted(y, s, le), x, le) == Ties([y], x, le) + Ties(s, x, le)
  {
    if |s| == 0 {
    } else if le(y, s[0]) {
      TiesAppend([y], s, x, le);
    } else {
      var r := InsertSorted(y, s[1..], le);
      assert InsertSorted(y, s, le) == [s[0]] + r;
      InsertSortedTies(y, s[1..], x, le);
      TiesAppend([s[0]], r, x, le);
      assert s == [s[0]] + s[1..];
      TiesAppend([s[0]], s[1..], x, le);
      NotBothLevel(y, s[0], x, le);
      SwapAroundEmpty(Ties([s[0]], x, le), Ties([y], x, le), Ties(s[1..], x, le));
    }
  }

  lemma SwapAroundEmpty<T>(p: seq<T>, q: seq<T>, r: seq<T>)
    requires p == [] || q == []
    ensures p + (q + r) == q + (p + r)
  {
    if p == [] {
      assert p + (q + r) == q + r == q + (p + r);
    } else {
      assert q + (p + r) == p + r == p + (q + r);
    }
  }

  /** Sorting as a value is stable: level elements keep their input order. */
  lemma {:induction false} SortSeqKeepsTies<T(!new)>(s: seq<T>, le: (T, T) -> bool)
    requires TotalPreorder(le)
    ensures KeepsTies(s, SortSeq(s, le), le)
  {
    if |s| > 0 {
      SortSeqKeepsTies(s[1..], le);
      forall x ensures Ties(SortSeq(s, le), x, le) == Ties(s, x, le) {
        InsertSortedTies(s[0], SortSeq(s[1..], le), x, le);
        TiesAppend([s[0]], s[1..], x, le);
        assert s == [s[0]] + s[1..];
      }
    }
  }

  /** Lexicographic order on pairs of strings, as a sort on two key columns. */
  predicate PairLe(a: (string, string), b: (string, string)) {
    if a.0 != b.0 then StringLe(a.0, b.0) else StringLe(a.1, b.1)
  }

  lemma PairOrder()
    ensures TotalPreorder(PairLe)
  {
    StringOrder();
    forall a: (string, string), b: (string, string), c: (string, string) | PairLe(a, b) && PairLe(b, c)
      ensures PairLe(a, c)
    {
      if a.0 != b.0 && b.0 != c.0 && a.0 == c.0 {
        StringLeAntisymmetric(a.0, b.0);
      }
    }
  }
}
