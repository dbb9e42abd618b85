/**
 * Python's `sorted` with a `key` (and `reverse=True`), which is a stable sort: elements whose keys
 * compare equal keep the order they had. It is modelled once, generically, by an insertion sort
 * over a strict order `less` ("the key of `a` sorts before the key of `b`").
 */
module Sorting {
  import opened Seqs

  /** No element is strictly less than an element before it. */
  predicate SortedBy<T>(xs: seq<T>, less: (T, T) -> bool)
  {
    forall i, j :: 0 <= i < j < |xs| ==> !less(xs[j], xs[i])
  }

  /** `less` is the strict order of comparing keys drawn from a total order: irreflexive,
      transitive, and elements with equal keys are interchangeable. */
  ghost predicate StrictWeakOrder<T(!new)>(less: (T, T) -> bool)
  {
    && (forall a :: !less(a, a))
    && (forall a, b, c :: less(a, b) && less(b, c) ==> less(a, c))
    && (forall a, b, c :: less(a, c) ==> less(a, b) || less(b, c))
  }

  /** `le` is a total preorder: any two elements compare, and comparing is transitive. */
  ghost predicate TotalPreorder<T(!new)>(le: (T, T) -> bool)
  {
    && (forall a, b :: le(a, b) || le(b, a))
    && (forall a, b, c :: le(a, b) && le(b, c) ==> le(a, c))
  }

  /** The strict order Python's `sorted` uses for keys compared by `le`: `a` goes before `b`
      when `le(b, a)` fails. */
  function StrictOf<T>(le: (T, T) -> bool): (T, T) -> bool
  {
    (a, b) => !le(b, a)
  }

  /** Keys of a total preorder compared strictly give a strict weak order. */
  lemma StrictOfTotalPreorder<T(!new)>(le: (T, T) -> bool)
    requires TotalPreorder(le)
    ensures StrictWeakOrder(StrictOf(le))
  {
    var less := StrictOf(le);
    forall a ensures !less(a, a) {
      assert le(a, a) || le(a, a);
    }
    forall a, b, c | less(a, b) && less(b, c) ensures less(a, c) {
      assert le(a, b) && le(b, c);
    }
    forall a, b, c | less(a, c) ensures less(a, b) || less(b, c) {
      // Otherwise le(c, b) and le(b, a) would give le(c, a).
      assert less(a, c) == !le(c, a);
    }
  }

  /** Where `x` goes: in front of the first element it is strictly less than. */
  function InsertPos<T>(x: T, ys: seq<T>, less: (T, T) -> bool): (k: nat)
    ensures k <= |ys|
    ensures forall i :: 0 <= i < k ==> !less(x, ys[i])
    ensures k < |ys| ==> less(x, ys[k])
  {
    if ys == [] || less(x, ys[0]) then 0 else 1 + InsertPos(x, ys[1..], less)
  }

  function Insert<T>(x: T, ys: seq<T>, less: (T, T) -> bool): seq<T>
  {
    var k := InsertPos(x, ys, less);
    ys[..k] + [x] + ys[k..]
  }

  /** The stable sort: the elements are taken in order, each placed behind every element
      already placed that it is not strictly less than. */
  function SortBy<T>(xs: seq<T>, less: (T, T) -> bool): (r: seq<T>)
    ensures |r| == |xs|
  {
    if xs == [] then [] else Insert(xs[|xs| - 1], SortBy(xs[..|xs| - 1], less), less)
  }

  /** Sorting only reorders. */
  lemma {:induction false} SortByPermutes<T>(xs: seq<T>, less: (T, T) -> bool)
    ensures multiset(SortBy(xs, less)) == multiset(xs)
    decreases |xs|
  {
    if xs != [] {
      var pre := xs[..|xs| - 1];
      SortByPermutes(pre, less);
      InsertPermutes(xs[|xs| - 1], SortBy(pre, less), less);
      assert xs == pre + [xs[|xs| - 1]];
    }
  }

  lemma InsertPermutes<T>(x: T, s: seq<T>, less: (T, T) -> bool)
    ensures multiset(Insert(x, s, less)) == multiset(s) + multiset{x}
  {
    var k := InsertPos(x, s, less);
    assert s == s[..k] + s[k..];
  }

  lemma InsertSorted<T(!new)>(x: T, ys: seq<T>, less: (T, T) -> bool)
    requires StrictWeakOrder(less) && SortedBy(ys, less)
    ensures SortedBy(Insert(x, ys, less), less)
  {
    var k := InsertPos(x, ys, less);
    var r := Insert(x, ys, less);
    forall i, j | 0 <= i < j < |r| ensures !less(r[j], r[i]) {
      if j < k || i > k {
        // Both come from `ys`, in their old order.
      } else if j == k {
        assert r[i] == ys[i];
      } else if i == k {
        // r[j] is ys[j - 1], at or behind ys[k], which x is strictly less than.
        assert r[j] == ys[j - 1] && less(x, ys[k]);
      } else {
        assert r[i] == ys[i] && r[j] == ys[j - 1];
      }
    }
  }

  /** The result is sorted. */
  lemma {:induction false} SortBySorted<T(!new)>(xs: seq<T>, less: (T, T) -> bool)
    requires StrictWeakOrder(less)
    ensures SortedBy(SortBy(xs, less), less)
    decreases |xs|
  {
    if xs != [] {
      SortBySorted(xs[..|xs| - 1], less);
      InsertSorted(xs[|xs| - 1], SortBy(xs[..|xs| - 1], less), less);
    }
  }

  /** Behind the place an element is inserted at, a sorted list holds no element with a key
      equal to the inserted one's. */
  lemma NoEqualKeyBehind<T(!new)>(x: T, s: seq<T>, less: (T, T) -> bool, p: T -> bool)
    requires StrictWeakOrder(less) && SortedBy(s, less) && p(x)
    requires forall a :: a in s && p(a) ==> !less(x, a) && !less(a, x)
    ensures Filter(s[InsertPos(x, s, less)..], p) == []
  {
    var k := InsertPos(x, s, less);
    forall j | 0 <= j < |s[k..]| ensures !p(s[k..][j]) {
      assert s[k..][j] == s[k + j] && s[k + j] in s;
    }
    FilterNone(s[k..], p);
  }

  /** Inserting `x` adds it behind every element of equal key. */
  lemma InsertFilter<T>(x: T, s: seq<T>, less: (T, T) -> bool, p: T -> bool)
    requires p(x) ==> Filter(s[InsertPos(x, s, less)..], p) == []
    ensures Filter(Insert(x, s, less), p) == Filter(s, p) + Filter([x], p)
  {
    FilterAround(s, InsertPos(x, s, less), x, p);
  }

  /** The sort is stable: the elements `p` accepts, all of equal keys, come out in the order
      they went in. */
  lemma {:induction false} SortByStable<T(!new)>(xs: seq<T>, less: (T, T) -> bool, p: T -> bool)
    requires StrictWeakOrder(less)
    requires forall a, b :: a in xs && b in xs && p(a) && p(b) ==> !less(a, b)
    ensures Filter(SortBy(xs, less), p) == Filter(xs, p)
    decreases |xs|
  {
    if xs != [] {
      var n := |xs|;
      var pre, x := xs[..n - 1], xs[n - 1];
      assert xs == pre + [x];
      var s := SortBy(pre, less);
      SortByStable(pre, less, p);
      SortByPermutes(pre, less);
      SortBySorted(pre, less);
      if p(x) {
        forall a | a in s && p(a) ensures !less(x, a) && !less(a, x) {
          assert a in multiset(pre);
        }
        NoEqualKeyBehind(x, s, less, p);
      }
      InsertFilter(x, s, less, p);
      FilterAppend(pre, [x], p);
    }
  }

  /** The first element of the sorted list is the first element of `xs` that is strictly less
      than every element before it and that no element is strictly less than. */
  lemma {:induction false} SortByHead<T(!new)>(xs: seq<T>, less: (T, T) -> bool, i: nat)
    requires StrictWeakOrder(less) && i < |xs|
    requires forall j :: 0 <= j < |xs| ==> !less(xs[j], xs[i])
    requires forall j :: 0 <= j < i ==> less(xs[i], xs[j])
    ensures SortBy(xs, less)[0] == xs[i]
    decreases |xs|
  {
    var n := |xs|;
    var pre, x := xs[..n - 1], xs[n - 1];
    var s := SortBy(pre, less);
    SortByPermutes(pre, less);
    if i == n - 1 {
      if s != [] {
        assert s[0] in multiset(pre);
        var j :| 0 <= j < |pre| && pre[j] == s[0];
        assert less(x, s[0]);
        assert InsertPos(x, s, less) == 0;
      }
    } else {
      SortByHead(pre, less, i);
      assert !less(x, s[0]);
    }
  }

  /** Two sorted lists holding the same elements start alike when no two different elements
      have equal keys. */
  lemma SortedHeadsEqual<T>(xs: seq<T>, ys: seq<T>, less: (T, T) -> bool)
    requires SortedBy(xs, less) && SortedBy(ys, less) && multiset(xs) == multiset(ys)
    requires forall a, b :: a in xs && b in xs && a != b ==> less(a, b) || less(b, a)
    requires xs != [] && ys != []
    ensures xs[0] == ys[0]
  {
    // Each head occurs in the other list, behind its head, so neither is less than the other.
    assert xs[0] in multiset(ys) && ys[0] in multiset(xs);
  }

  lemma SortedTail<T>(xs: seq<T>, less: (T, T) -> bool)
    requires SortedBy(xs, less) && xs != []
    ensures SortedBy(xs[1..], less)
  {
    forall i, j | 0 <= i < j < |xs| - 1 ensures !less(xs[1..][j], xs[1..][i]) {
      assert xs[1..][j] == xs[j + 1] && xs[1..][i] == xs[i + 1];
    }
  }

  /** Two sorted lists holding the same elements are equal when no two different elements
      have equal keys. */
  lemma {:induction false} SortedUnique<T>(xs: seq<T>, ys: seq<T>, less: (T, T) -> bool)
    requires SortedBy(xs, less) && SortedBy(ys, less) && multiset(xs) == multiset(ys)
    requires forall a, b :: a in xs && b in xs && a != b ==> less(a, b) || less(b, a)
    ensures xs == ys
    decreases |xs|
  {
    assert |ys| == |xs| by {
      assert |multiset(xs)| == |xs| && |multiset(ys)| == |ys|;
    }
    if xs != [] {
      SortedHeadsEqual(xs, ys, less);
      SortedTail(xs, less);
      SortedTail(ys, less);
      MultisetTails(xs, ys);
      forall a, b | a in xs[1..] && b in xs[1..] && a != b ensures less(a, b) || less(b, a) {
        assert a in xs && b in xs;
      }
      SortedUnique(xs[1..], ys[1..], less);
      assert xs == [xs[0]] + xs[1..] && ys == [ys[0]] + ys[1..];
    }
  }

  /** When no two different elements have equal keys, the sorted list depends only on which
      elements there are, not on the order they came in. */
  lemma SortByDeterministic<T(!new)>(xs: seq<T>, ys: seq<T>, less: (T, T) -> bool)
    requires StrictWeakOrder(less) && multiset(xs) == multiset(ys)
    requires forall a, b :: a in xs && b in xs && a != b ==> less(a, b) || less(b, a)
    ensures SortBy(xs, less) == SortBy(ys, less)
  {
    var sx, sy := SortBy(xs, less), SortBy(ys, less);
    SortByPermutes(xs, less);
    SortByPermutes(ys, less);
    SortBySorted(xs, less);
    SortBySorted(ys, less);
    forall a, b | a in sx && b in sx && a != b ensures less(a, b) || less(b, a) {
      assert a in multiset(xs) && b in multiset(xs);
    }
    SortedUnique(sx, sy, less);
  }

  /** Keeping some elements of a sorted list leaves it sorted. */
  lemma {:induction false} FilterSorted<T>(xs: seq<T>, less: (T, T) -> bool, p: T -> bool)
    requires SortedBy(xs, less)
    ensures SortedBy(Filter(xs, p), less)
    decreases |xs|
  {
    if xs != [] {
      var n := |xs|;
      var pre := xs[..n - 1];
      FilterSorted(pre, less, p);
      var f := Filter(pre, p);
      if p(xs[n - 1]) {
        forall i | 0 <= i < |f| ensures !less(xs[n - 1], f[i]) {
          FilterMembers(pre, p, f[i]);
        }
      }
    }
  }
}
