/** Sequence helpers shared by both layers: filtering, first-occurrence
    de-duplication, and the insertion-ordered dictionary that both a Python
    `dict` and a JavaScript object with string keys are. */
module Collections {
  import opened Wrappers

  /** `[x for x in s if p(x)]` / `s.filter(p)`. */
  function Filter<T(!new)>(s: seq<T>, p: T -> bool): (r: seq<T>)
    ensures |r| <= |s|
    ensures forall x :: x in r <==> x in s && p(x)
  {
    if |s| == 0 then []
    else Filter(s[..|s| - 1], p) + (if p(s[|s| - 1]) then [s[|s| - 1]] else [])
  }

  predicate NoDuplicates<T(==)>(s: seq<T>) {
    forall i, j :: 0 <= i < j < |s| ==> s[i] != s[j]
  }

  /** `[...new Set(s)]`: each value once, at the place it first occurs. */
  function Distinct<T(==,!new)>(s: seq<T>): (r: seq<T>)
    ensures NoDuplicates(r)
    ensures forall x :: x in r <==> x in s
  {
    if |s| == 0 then []
    else
      var d := Distinct(s[..|s| - 1]);
      if s[|s| - 1] in d then d else d + [s[|s| - 1]]
  }

  /** A list without repeats is its own `Distinct`. */
  lemma {:induction false} DistinctOfUnique<T(!new)>(s: seq<T>)
    requires NoDuplicates(s)
    ensures Distinct(s) == s
  {
    if |s| > 0 {
      var init := s[..|s| - 1];
      DistinctOfUnique(init);
      assert s[|s| - 1] !in init;
      assert init + [s[|s| - 1]] == s;
    }
  }

  /** Appending values already present changes nothing. */
  lemma {:induction false} DistinctCovered<T(!new)>(a: seq<T>, b: seq<T>)
    requires forall x :: x in b ==> x in a
    ensures Distinct(a + b) == Distinct(a)
  {
    if |b| == 0 {
      assert a + b == a;
    } else {
      var b' := b[..|b| - 1];
      DistinctCovered(a, b');
      assert (a + b)[..|a + b| - 1] == a + b';
      assert (a + b)[|a + b| - 1] == b[|b| - 1];
    }
  }

  /** The position of the first element satisfying `p` (`Array.prototype.find`). */
  function FindFirst<T>(s: seq<T>, p: T -> bool): (r: Option<nat>)
    ensures r.Some? ==> r.value < |s| && p(s[r.value]) && forall j :: 0 <= j < r.value ==> !p(s[j])
    ensures r.None? ==> forall j :: 0 <= j < |s| ==> !p(s[j])
  {
    if |s| == 0 then None
    else if p(s[0]) then Some(0)
    else match FindFirst(s[1..], p)
      case None => None
      case Some(i) => Some(i + 1)
  }

  lemma {:induction false} FilterAppend<T(!new)>(a: seq<T>, b: seq<T>, p: T -> bool)
    ensures Filter(a + b, p) == Filter(a, p) + Filter(b, p)
    decreases |b|
  {
    if |b| == 0 {
      assert a + b == a;
    } else {
      assert (a + b)[..|a + b| - 1] == a + b[..|b| - 1];
      FilterAppend(a, b[..|b| - 1], p);
    }
  }

  /** Filtering keeps a sequence free of repeats. */
  lemma {:induction false} FilterNoDuplicates<T(!new)>(s: seq<T>, p: T -> bool)
    requires NoDuplicates(s)
    ensures NoDuplicates(Filter(s, p))
  {
    if |s| > 0 {
      var init := s[..|s| - 1];
      FilterNoDuplicates(init, p);
      assert s[|s| - 1] !in init;
    }
  }

  /** Something is kept exactly when some element satisfies `p`. */
  lemma FilterNonEmpty<T(!new)>(s: seq<T>, p: T -> bool)
    ensures Filter(s, p) != [] <==> exists k :: 0 <= k < |s| && p(s[k])
  {
    var f := Filter(s, p);
    if f != [] {
      assert f[0] in f;
    }
    if exists k :: 0 <= k < |s| && p(s[k]) {
      var k :| 0 <= k < |s| && p(s[k]);
      assert s[k] in s;
    }
  }

  lemma {:induction false} FilterAll<T(!new)>(s: seq<T>, p: T -> bool)
    requires forall i :: 0 <= i < |s| ==> p(s[i])
    ensures Filter(s, p) == s
  {
    if |s| > 0 {
      FilterAll(s[..|s| - 1], p);
    }
  }

  lemma {:induction false} FilterNone<T(!new)>(s: seq<T>, p: T -> bool)
    requires forall i :: 0 <= i < |s| ==> !p(s[i])
    ensures Filter(s, p) == []
  {
    if |s| > 0 {
      FilterNone(s[..|s| - 1], p);
    }
  }

  lemma {:induction false} NoDuplicatesCount<T>(s: seq<T>, x: T)
    requires NoDuplicates(s)
    ensures multiset(s)[x] <= 1
  {
    if |s| > 0 {
      assert s == [s[0]] + s[1..];
      NoDuplicatesCount(s[1..], x);
      if x == s[0] {
        assert x !in s[1..];
      }
    }
  }

  /** Reordering a sequence without repetitions leaves it without repetitions. */
  lemma NoDuplicatesOfPermutation<T>(s: seq<T>, t: seq<T>)
    requires NoDuplicates(s) && multiset(s) == multiset(t)
    ensures NoDuplicates(t)
  {
    forall i, j | 0 <= i < j < |t| ensures t[i] != t[j] {
      if t[i] == t[j] {
        var x := t[j];
        assert t == t[..j] + [x] + t[j + 1..];
        assert x in t[..j];
        assert multiset(t)[x] == multiset(t[..j])[x] + 1 + multiset(t[j + 1..])[x];
        NoDuplicatesCount(s, x);
        assert false;
      }
    }
  }

  /** The blocks one after the other, as nested loops appending to one list produce them. */
  function Concat<T>(blocks: seq<seq<T>>): seq<T>
  {
    if |blocks| == 0 then [] else Concat(blocks[..|blocks| - 1]) + blocks[|blocks| - 1]
  }

  lemma ConcatSnoc<T>(blocks: seq<seq<T>>, b: seq<T>)
    ensures Concat(blocks + [b]) == Concat(blocks) + b
  {
    assert (blocks + [b])[..|blocks|] == blocks;
  }

  lemma BlockIndexBound(i: nat, j: nat, w: nat, n: nat)
    requires i < n && j < w
    ensures i * w + j < n * w
  {
    calc {
      i * w + j;
    <
      i * w + w;
    ==
      (i + 1) * w;
    <=  { assert i + 1 <= n; }
      n * w;
    }
  }

  /** A position below `n * w` splits into a block below `n` and an offset below `w`. */
  lemma SplitPosition(a: nat, w: nat, n: nat) returns (i: nat, j: nat)
    requires a < n * w
    ensures i < n && j < w && a == i * w + j
  {
    assert n * w > 0;
    if w == 0 {
      assert false;
    }
    i, j := a / w, a % w;
    if i >= n {
      MulMonotone(n, i, w);
      assert false;
    }
  }

  lemma MulMonotone(x: nat, y: nat, w: nat)
    requires x <= y
    ensures x * w <= y * w
  {
  }

  lemma PrefixSnoc<T>(s: seq<T>, j: nat)
    requires j < |s|
    ensures s[..j + 1] == s[..j] + [s[j]]
  {
  }

  /** Blocks of one width `w` line up: element `j` of block `i` stands at `i * w + j`. */
  lemma {:induction false} ConcatUniform<T>(blocks: seq<seq<T>>, w: nat, i: nat, j: nat)
    requires forall k :: 0 <= k < |blocks| ==> |blocks[k]| == w
    ensures |Concat(blocks)| == |blocks| * w
    ensures i < |blocks| && j < w ==> i * w + j < |Concat(blocks)| && Concat(blocks)[i * w + j] == blocks[i][j]
  {
    if |blocks| > 0 {
      var n := |blocks| - 1;
      var front := Concat(blocks[..n]);
      ConcatUniform(blocks[..n], w, i, j);
      assert |front| == n * w;
      assert (n + 1) * w == n * w + w;
      if i < |blocks| && j < w {
        BlockIndexBound(i, j, w, n + 1);
        if i < n {
          BlockIndexBound(i, j, w, n);
        }
      }
    }
  }

  // ---------------------------------------------------------------------------
  // Insertion-ordered dictionaries

  /** A dictionary with string keys: its entries in insertion order. Assigning
      to a present key replaces the value where it stands; a new key goes last. */
  type Dict<V> = seq<(string, V)>

  function Keys<V>(d: Dict<V>): (ks: seq<string>)
    ensures |ks| == |d| && forall i :: 0 <= i < |d| ==> ks[i] == d[i].0
  {
    if |d| == 0 then [] else Keys(d[..|d| - 1]) + [d[|d| - 1].0]
  }

  function Values<V>(d: Dict<V>): (vs: seq<V>)
    ensures |vs| == |d| && forall i :: 0 <= i < |d| ==> vs[i] == d[i].1
  {
    if |d| == 0 then [] else Values(d[..|d| - 1]) + [d[|d| - 1].1]
  }

  predicate ValidDict<V>(d: Dict<V>) {
    NoDuplicates(Keys(d))
  }

  /** Where `k` first stands in `ks`. */
  function IndexOf(ks: seq<string>, k: string): (i: nat)
    requires k in ks
    ensures i < |ks| && ks[i] == k && forall j :: 0 <= j < i ==> ks[j] != k
  {
    if ks[0] == k then 0 else 1 + IndexOf(ks[1..], k)
  }

  /** `d[k]`, or None when `k` is not a key (`undefined` in JavaScript). */
  function Get<V>(d: Dict<V>, k: string): (r: Option<V>)
    ensures r.None? <==> k !in Keys(d)
  {
    if k in Keys(d) then Some(d[IndexOf(Keys(d), k)].1) else None
  }

  /** `d[k] = v`. */
  function Put<V>(d: Dict<V>, k: string, v: V): (r: Dict<V>)
    ensures k in Keys(d) ==> Keys(r) == Keys(d)
    ensures k !in Keys(d) ==> r == d + [(k, v)] && Keys(r) == Keys(d) + [k]
  {
    if k in Keys(d) then d[IndexOf(Keys(d), k) := (k, v)] else d + [(k, v)]
  }

  lemma PutValid<V>(d: Dict<V>, k: string, v: V)
    requires ValidDict(d)
    ensures ValidDict(Put(d, k, v))
  {
  }

  lemma PutKeys<V>(d: Dict<V>, k: string, v: V, x: string)
    ensures x in Keys(Put(d, k, v)) <==> x in Keys(d) || x == k
  {
  }

  /** Reading back a key just written gives the written value; other keys are unaffected. */
  lemma GetPut<V>(d: Dict<V>, k: string, v: V, k': string)
    ensures Get(Put(d, k, v), k') == if k' == k then Some(v) else Get(d, k')
  {
    var r := Put(d, k, v);
    if k' in Keys(r) && k in Keys(d) {
      assert IndexOf(Keys(r), k') == IndexOf(Keys(d), k');
    } else if k' in Keys(r) && k' != k {
      assert Keys(r) == Keys(d) + [k];
      assert IndexOf(Keys(r), k') == IndexOf(Keys(d), k') by {
        IndexOfPrefix(Keys(d), [k], k');
      }
    }
  }

  /** Assigning a key twice leaves the second value, where the first assignment put the key. */
  lemma PutPut<V>(d: Dict<V>, k: string, a: V, b: V)
    ensures Put(Put(d, k, a), k, b) == Put(d, k, b)
  {
    var d' := Put(d, k, a);
    if k in Keys(d) {
      var i := IndexOf(Keys(d), k);
      assert d' == d[i := (k, a)];
      assert Keys(d') == Keys(d);
      assert Put(d', k, b) == d'[i := (k, b)];
    } else {
      assert d' == d + [(k, a)];
      assert IndexOf(Keys(d'), k) == |d|;
      assert Put(d', k, b) == d'[|d| := (k, b)];
    }
  }

  /** In a dictionary without repeated keys, each entry is what its key reads. */
  lemma GetAt<V>(d: Dict<V>, i: nat)
    requires ValidDict(d) && i < |d|
    ensures Get(d, d[i].0) == Some(d[i].1)
  {
    assert Keys(d)[i] == d[i].0;
    var j := IndexOf(Keys(d), d[i].0);
    assert j == i;
  }

  /** Every entry after an assignment is the new one or an entry from before. */
  lemma PutEntry<V>(d: Dict<V>, k: string, v: V, i: nat)
    requires i < |Put(d, k, v)|
    ensures Put(d, k, v)[i] == (k, v) || Put(d, k, v)[i] in d
  {
  }

  lemma {:induction false} IndexOfPrefix(a: seq<string>, b: seq<string>, k: string)
    requires k in a
    ensures IndexOf(a + b, k) == IndexOf(a, k)
  {
    if a[0] != k {
      assert (a + b)[1..] == a[1..] + b;
      IndexOfPrefix(a[1..], b, k);
    }
  }

  /** The dictionary after assigning each entry in turn, as a loop of `d[k] = v` does. */
  function PutAll<V>(d: Dict<V>, es: seq<(string, V)>): Dict<V>
  {
    if |es| == 0 then d else Put(PutAll(d, es[..|es| - 1]), es[|es| - 1].0, es[|es| - 1].1)
  }

  lemma PutAllSnoc<V>(d: Dict<V>, es: seq<(string, V)>, k: string, v: V)
    ensures PutAll(d, es + [(k, v)]) == Put(PutAll(d, es), k, v)
  {
    assert (es + [(k, v)])[..|es|] == es;
  }

  /** Assigning two runs of entries one after the other is assigning their concatenation. */
  lemma {:induction false} PutAllAppend<V>(d: Dict<V>, a: seq<(string, V)>, b: seq<(string, V)>)
    ensures PutAll(d, a + b) == PutAll(PutAll(d, a), b)
    decreases |b|
  {
    if |b| == 0 {
      assert a + b == a;
    } else {
      assert (a + b)[..|a + b| - 1] == a + b[..|b| - 1];
      PutAllAppend(d, a, b[..|b| - 1]);
    }
  }

  /** The value of the last entry whose key is `k`. */
  function LastValue<V>(es: seq<(string, V)>, k: string): (r: Option<V>)
    ensures r.Some? ==> exists i :: 0 <= i < |es| && es[i] == (k, r.value)
  {
    if |es| == 0 then None
    else if es[|es| - 1].0 == k then Some(es[|es| - 1].1)
    else LastValue(es[..|es| - 1], k)
  }

  /** In a list of entries with distinct keys, each key's last value is its only one. */
  lemma {:induction false} LastValueUnique<V>(es: seq<(string, V)>, i: nat)
    requires NoDuplicates(Keys(es)) && i < |es|
    ensures LastValue(es, es[i].0) == Some(es[i].1)
  {
    if i < |es| - 1 {
      assert Keys(es)[i] != Keys(es)[|es| - 1];
      assert Keys(es[..|es| - 1]) == Keys(es)[..|es| - 1];
      LastValueUnique(es[..|es| - 1], i);
    }
  }

  /** Last write wins: a key reads as the value of its last assignment, and a
      key never assigned reads as it did before. */
  lemma {:induction false} GetPutAll<V>(d: Dict<V>, es: seq<(string, V)>, k: string)
    ensures Get(PutAll(d, es), k) == if LastValue(es, k).Some? then LastValue(es, k) else Get(d, k)
  {
    if |es| > 0 {
      GetPutAll(d, es[..|es| - 1], k);
      GetPut(PutAll(d, es[..|es| - 1]), es[|es| - 1].0, es[|es| - 1].1, k);
    }
  }

  /** The keys present afterwards are those of `d` and those assigned. */
  lemma {:induction false} KeysPutAll<V>(d: Dict<V>, es: seq<(string, V)>, k: string)
    ensures k in Keys(PutAll(d, es)) <==> k in Keys(d) || k in Keys(es)
  {
    if |es| > 0 {
      KeysPutAll(d, es[..|es| - 1], k);
      assert Keys(es) == Keys(es[..|es| - 1]) + [es[|es| - 1].0];
    }
  }

  lemma {:induction false} PutAllValid<V>(d: Dict<V>, es: seq<(string, V)>)
    requires ValidDict(d)
    ensures ValidDict(PutAll(d, es))
  {
    if |es| > 0 {
      PutAllValid(d, es[..|es| - 1]);
      PutValid(PutAll(d, es[..|es| - 1]), es[|es| - 1].0, es[|es| - 1].1);
    }
  }
}
