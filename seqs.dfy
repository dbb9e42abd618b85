/**
 * Sequence combinators the modelled loops are specified with: mapping a function over a list,
 * keeping the elements a predicate accepts, and summing.
 */
module Seqs {

  /** `[f(x) for x in xs]`, built from the front as the loops build it. */
  function Map<A, B>(xs: seq<A>, f: A -> B): (r: seq<B>)
    ensures |r| == |xs|
  {
    if xs == [] then [] else Map(xs[..|xs| - 1], f) + [f(xs[|xs| - 1])]
  }

  /** Element `k` of the mapped list is `f` of element `k`. */
  lemma {:induction false} MapAt<A, B>(xs: seq<A>, f: A -> B, k: nat)
    requires k < |xs|
    ensures Map(xs, f)[k] == f(xs[k])
    decreases |xs|
  {
    var n := |xs|;
    if k < n - 1 {
      MapAt(xs[..n - 1], f, k);
    }
  }

  /** Mapping distributes over concatenation. */
  lemma {:induction false} MapAppend<A, B>(xs: seq<A>, ys: seq<A>, f: A -> B)
    ensures Map(xs + ys, f) == Map(xs, f) + Map(ys, f)
    decreases |ys|
  {
    if ys == [] {
      assert xs + ys == xs;
    } else {
      var ys' := ys[..|ys| - 1];
      assert (xs + ys)[..|xs + ys| - 1] == xs + ys';
      MapAppend(xs, ys', f);
    }
  }

  lemma MapOne<A, B>(x: A, f: A -> B)
    ensures Map([x], f) == [f(x)]
  {
    assert [x][..0] == [];
  }

  /** Two lists holding the same elements, counted with multiplicity, map to two such lists:
      the order elements arrive in does not change what is collected. */
  lemma {:induction false} MapPreservesMultiset<A, B>(xs: seq<A>, ys: seq<A>, f: A -> B)
    requires multiset(xs) == multiset(ys)
    ensures multiset(Map(xs, f)) == multiset(Map(ys, f))
    decreases |xs|
  {
    if xs != [] {
      var x := xs[0];
      assert x in multiset(ys);
      var i :| 0 <= i < |ys| && ys[i] == x;
      MultisetWithout(xs, ys, i);
      MapPreservesMultiset(xs[1..], ys[..i] + ys[i + 1..], f);
      MapAround(ys, i, f);
      MapCons(xs, f);
      var rest, before, after := Map(xs[1..], f), Map(ys[..i], f), Map(ys[i + 1..], f);
      assert multiset(rest) == multiset(before) + multiset(after);
      assert multiset(Map(ys, f)) == multiset(before) + multiset{f(x)} + multiset(after);
    }
  }

  /** Mapping a non-empty list: its first element's image, then the rest mapped. */
  lemma MapCons<A, B>(xs: seq<A>, f: A -> B)
    requires xs != []
    ensures Map(xs, f) == [f(xs[0])] + Map(xs[1..], f)
  {
    assert xs == [xs[0]] + xs[1..];
    MapAppend([xs[0]], xs[1..], f);
    MapOne(xs[0], f);
  }

  /** Mapping a list split around position `i`. */
  lemma MapAround<A, B>(ys: seq<A>, i: nat, f: A -> B)
    requires i < |ys|
    ensures Map(ys, f) == Map(ys[..i], f) + [f(ys[i])] + Map(ys[i + 1..], f)
    ensures Map(ys[..i] + ys[i + 1..], f) == Map(ys[..i], f) + Map(ys[i + 1..], f)
  {
    var a, b := ys[..i], ys[i + 1..];
    assert ys == a + [ys[i]] + b;
    MapAppend(a + [ys[i]], b, f);
    MapAppend(a, [ys[i]], f);
    MapAppend(a, b, f);
    MapOne(ys[i], f);
  }

  /** Taking the first element off one list and an equal element off another that holds the
      same elements leaves two lists holding the same elements. */
  lemma MultisetWithout<A>(xs: seq<A>, ys: seq<A>, i: nat)
    requires multiset(xs) == multiset(ys) && xs != [] && i < |ys| && ys[i] == xs[0]
    ensures multiset(xs[1..]) == multiset(ys[..i] + ys[i + 1..])
  {
    assert xs == [xs[0]] + xs[1..];
    assert ys == ys[..i] + [ys[i]] + ys[i + 1..];
    assert multiset(xs[1..]) == multiset(xs) - multiset{xs[0]};
  }

  /** Lists with equal heads holding the same elements have tails holding the same elements. */
  lemma MultisetTails<A>(xs: seq<A>, ys: seq<A>)
    requires multiset(xs) == multiset(ys) && xs != [] && ys != [] && xs[0] == ys[0]
    ensures multiset(xs[1..]) == multiset(ys[1..])
  {
    MultisetWithout(xs, ys, 0);
    assert ys[..0] + ys[1..] == ys[1..];
  }

  /** `[x for x in xs if p(x)]`. */
  function Filter<T>(xs: seq<T>, p: T -> bool): (r: seq<T>)
    ensures |r| <= |xs|
  {
    if xs == [] then [] else Filter(xs[..|xs| - 1], p) + (if p(xs[|xs| - 1]) then [xs[|xs| - 1]] else [])
  }

  /** Filtering distributes over concatenation. */
  lemma {:induction false} FilterAppend<T>(xs: seq<T>, ys: seq<T>, p: T -> bool)
    ensures Filter(xs + ys, p) == Filter(xs, p) + Filter(ys, p)
    decreases |ys|
  {
    if ys == [] {
      assert xs + ys == xs;
    } else {
      var ys' := ys[..|ys| - 1];
      assert (xs + ys)[..|xs + ys| - 1] == xs + ys';
      FilterAppend(xs, ys', p);
    }
  }

  lemma FilterOne<T>(x: T, p: T -> bool)
    ensures Filter([x], p) == if p(x) then [x] else []
  {
    assert [x][..0] == [];
  }

  /** Filtering a list with `x` put in at position `k`. */
  lemma FilterAround<T>(s: seq<T>, k: nat, x: T, p: T -> bool)
    requires k <= |s|
    ensures Filter(s[..k] + [x] + s[k..], p) == Filter(s[..k], p) + Filter([x], p) + Filter(s[k..], p)
    ensures Filter(s, p) == Filter(s[..k], p) + Filter(s[k..], p)
  {
    var a, b := s[..k], s[k..];
    assert s == a + b;
    FilterAppend(a, b, p);
    FilterAppend(a + [x], b, p);
    FilterAppend(a, [x], p);
  }

  /** The kept elements are exactly the elements `p` accepts. */
  lemma {:induction false} FilterMembers<T>(xs: seq<T>, p: T -> bool, x: T)
    ensures x in Filter(xs, p) <==> x in xs && p(x)
    decreases |xs|
  {
    if xs != [] {
      var pre := xs[..|xs| - 1];
      FilterMembers(pre, p, x);
      assert xs == pre + [xs[|xs| - 1]];
    }
  }

  /** Filtering keeps every copy of an element it accepts and no copy of one it rejects. */
  lemma {:induction false} FilterCount<T>(xs: seq<T>, p: T -> bool, x: T)
    ensures multiset(Filter(xs, p))[x] == if p(x) then multiset(xs)[x] else 0
    decreases |xs|
  {
    if xs != [] {
      var pre := xs[..|xs| - 1];
      FilterCount(pre, p, x);
      assert xs == pre + [xs[|xs| - 1]];
    }
  }

  /** Filtering two permutations of each other gives permutations of each other. */
  lemma FilterPreservesMultiset<T>(xs: seq<T>, ys: seq<T>, p: T -> bool)
    requires multiset(xs) == multiset(ys)
    ensures multiset(Filter(xs, p)) == multiset(Filter(ys, p))
  {
    forall x ensures multiset(Filter(xs, p))[x] == multiset(Filter(ys, p))[x] {
      FilterCount(xs, p, x);
      FilterCount(ys, p, x);
      assert multiset(xs)[x] == multiset(ys)[x];
    }
    MultisetExt(multiset(Filter(xs, p)), multiset(Filter(ys, p)));
  }

  /** Two multisets with the same multiplicities are equal. */
  lemma MultisetExt<T>(a: multiset<T>, b: multiset<T>)
    requires forall x :: a[x] == b[x]
    ensures a == b
  {
  }

  /** A filter that keeps nothing of `xs`. */
  lemma {:induction false} FilterNone<T>(xs: seq<T>, p: T -> bool)
    requires forall k :: 0 <= k < |xs| ==> !p(xs[k])
    ensures Filter(xs, p) == []
    decreases |xs|
  {
    if xs != [] {
      FilterNone(xs[..|xs| - 1], p);
    }
  }

  /** A filter that keeps everything of `xs`. */
  lemma {:induction false} FilterAll<T>(xs: seq<T>, p: T -> bool)
    requires forall k :: 0 <= k < |xs| ==> p(xs[k])
    ensures Filter(xs, p) == xs
    decreases |xs|
  {
    if xs != [] {
      FilterAll(xs[..|xs| - 1], p);
    }
  }

  /** Keeping some elements of a list whose elements `f` tells apart gives a list whose
      elements `f` still tells apart. */
  lemma {:induction false} FilterKeepsInjective<A, B>(xs: seq<A>, p: A -> bool, f: A -> B)
    requires forall i, j :: 0 <= i < j < |xs| ==> f(xs[i]) != f(xs[j])
    ensures forall i, j :: 0 <= i < j < |Filter(xs, p)| ==> f(Filter(xs, p)[i]) != f(Filter(xs, p)[j])
    decreases |xs|
  {
    if xs != [] {
      var n := |xs|;
      var pre, x := xs[..n - 1], xs[n - 1];
      FilterKeepsInjective(pre, p, f);
      var kept := Filter(pre, p);
      forall i | 0 <= i < |kept| ensures f(kept[i]) != f(x) {
        FilterMembers(pre, p, kept[i]);
        var m :| 0 <= m < n - 1 && pre[m] == kept[i];
        assert xs[m] == kept[i];
      }
    }
  }

  /** The concatenation of the lists, in order. */
  function Flatten<T>(xss: seq<seq<T>>): seq<T>
  {
    if xss == [] then [] else Flatten(xss[..|xss| - 1]) + xss[|xss| - 1]
  }

  /** Concatenating a list in front. */
  lemma {:induction false} FlattenCons<T>(x: seq<T>, xss: seq<seq<T>>)
    ensures Flatten([x] + xss) == x + Flatten(xss)
    decreases |xss|
  {
    if xss == [] {
      assert [x] + xss == [x];
      assert [x][..0] == [];
    } else {
      var pre := xss[..|xss| - 1];
      assert ([x] + xss)[..|xss|] == [x] + pre;
      FlattenCons(x, pre);
    }
  }
}
