/**
 * The best-of-N score of a set of generated unit tests (`calc_best_of_n`): for every task,
 * `ut_num` of the task's unit tests are sampled, every one of the first `sol_num` solutions is
 * run against them, the solutions passing the most sampled tests form a pool, the pool members
 * whose passed tests agree with the most other members are selected, and the task scores the
 * share of selected solutions that are correct. A trial's accuracy is the mean task score, and
 * the reported figure the mean over several trials.
 *
 * `random.shuffle` is a parameter: the order it leaves `ut_ids` in before each task is given
 * as an argument, one order per task.
 */
module BestOfN {
  import opened Wrappers
  import opened Seqs
  import opened Sorting
  import opened Records

  /** `sol_ids` and `ut_ids` both start as the ids `0..99`, and `random.shuffle` only reorders
      `ut_ids`. */
  const IdCount: nat := 100

  /** `order` holds each of the ids `0..99` exactly once: what `ut_ids` can be after any number
      of shuffles. */
  predicate IsIdOrder(order: seq<int>)
  {
    && |order| == IdCount
    && (forall k :: 0 <= k < |order| ==> 0 <= order[k] < IdCount)
    && (forall i, j :: 0 <= i < j < |order| ==> order[i] != order[j])
  }

  // ---------------------------------------------------------------------------------------
  // Passed-sets (lines 19-32)

  /** `task_sol_ut_results`: the result line of solution `sol` of a task against unit test `ut`,
      keyed by `(task, sol, ut)` rather than by the text `f"{task}-{sol}-{ut}"`. */
  type UtLabels = map<(string, int, int), Verdict>

  /** `task_sol_results`: the correctness label of solution `sol` of a task, keyed by
      `(task, sol)` rather than by the text `f"{task}-{sol}"`. */
  type SolLabels = map<(string, int), Verdict>

  /** A solution together with the set of sampled unit tests it passed. */
  datatype Candidate = Candidate(solId: nat, passed: set<int>)

  predicate Passes(utLabels: UtLabels, task: string, sol: int, ut: int)
  {
    (task, sol, ut) in utLabels && utLabels[(task, sol, ut)] == Pass
  }

  /** The ids among the first `utNum` of `order` whose test solution `sol` passed, collected
      as the inner loop adds them. */
  function PassedSet(utLabels: UtLabels, task: string, sol: int, order: seq<int>, utNum: nat): set<int>
    requires utNum <= |order|
  {
    if utNum == 0 then {}
    else
      var before, id := PassedSet(utLabels, task, sol, order, utNum - 1), order[utNum - 1];
      if Passes(utLabels, task, sol, id) then before + {id} else before
  }

  /** A passed-set holds at most `utNum` ids, all of them valid test ids. */
  lemma {:induction false} PassedSetBounds(utLabels: UtLabels, task: string, sol: int, order: seq<int>, utNum: nat)
    requires IsIdOrder(order) && utNum <= |order|
    ensures |PassedSet(utLabels, task, sol, order, utNum)| <= utNum
    ensures forall id :: id in PassedSet(utLabels, task, sol, order, utNum) ==> 0 <= id < IdCount
  {
    if utNum > 0 {
      PassedSetBounds(utLabels, task, sol, order, utNum - 1);
    }
  }

  /** A passed-set holds exactly the sampled ids whose result line is a pass. */
  lemma {:induction false} PassedSetMembers(utLabels: UtLabels, task: string, sol: int, order: seq<int>, utNum: nat, id: int)
    requires utNum <= |order|
    ensures id in PassedSet(utLabels, task, sol, order, utNum) <==>
              id in order[..utNum] && Passes(utLabels, task, sol, id)
  {
    if utNum > 0 {
      PassedSetMembers(utLabels, task, sol, order, utNum - 1, id);
      assert order[..utNum] == order[..utNum - 1] + [order[utNum - 1]];
    }
  }

  /** The first `n` solutions with their passed-sets, in the order they enter the dict. */
  function CandidateList(utLabels: UtLabels, task: string, order: seq<int>, utNum: nat, n: nat): (r: seq<Candidate>)
    requires utNum <= |order|
    ensures |r| == n
  {
    if n == 0 then []
    else CandidateList(utLabels, task, order, utNum, n - 1) + [Candidate(n - 1, PassedSet(utLabels, task, n - 1, order, utNum))]
  }

  /** Entry `k` is solution `k` with its passed-set. */
  lemma {:induction false} CandidateAt(utLabels: UtLabels, task: string, order: seq<int>, utNum: nat, n: nat, k: nat)
    requires utNum <= |order| && k < n
    ensures CandidateList(utLabels, task, order, utNum, n)[k] == Candidate(k, PassedSet(utLabels, task, k, order, utNum))
  {
    if k < n - 1 {
      CandidateAt(utLabels, task, order, utNum, n - 1, k);
    }
  }

  /** `sol_pass_ut_set` after lines 20-32, as its list of items: solution ids are `sol_ids[i] == i`
      since `sol_ids` is never shuffled; an entry is made only once a test is looked at, so with
      `ut_num <= 0` the dict stays empty; `sol_ids[100]` or `ut_ids[100]` is an `IndexError`. */
  function Candidates(utLabels: UtLabels, task: string, order: seq<int>, solNum: int, utNum: int): (r: Result<seq<Candidate>>)
  {
    if solNum > IdCount || (solNum >= 1 && utNum > |order|) then Err(IndexError)
    else if solNum <= 0 || utNum <= 0 then Ok([])
    else Ok(CandidateList(utLabels, task, order, utNum, solNum))
  }

  /** Lines 20-32: one passed-set per solution, built test by test with `set.add`. */
  method CollectPassedSets(utLabels: UtLabels, task: string, order: seq<int>, solNum: int, utNum: int)
    returns (r: Result<seq<Candidate>>)
    ensures r == Candidates(utLabels, task, order, solNum, utNum)
  {
    var items: seq<Candidate> := [];
    var i := 0;
    while i < solNum
      invariant 0 <= i <= IdCount && i <= (if solNum >= 0 then solNum else 0)
      invariant i > 0 ==> utNum <= |order|
      invariant items == if 1 <= utNum <= |order| then CandidateList(utLabels, task, order, utNum, i) else []
    {
      if i >= IdCount {
        return Err(IndexError);
      }
      var solId := i;
      var passed: set<int> := {};
      var j := 0;
      while j < utNum
        invariant 0 <= j <= |order| && j <= (if utNum >= 0 then utNum else 0)
        invariant passed == PassedSet(utLabels, task, solId, order, j)
      {
        if j >= |order| {
          return Err(IndexError);
        }
        var utId := order[j];
        if (task, solId, utId) in utLabels && utLabels[(task, solId, utId)] == Pass {
          passed := passed + {utId};
        }
        j := j + 1;
      }
      if utNum >= 1 {
        items := items + [Candidate(solId, passed)];
      }
      i := i + 1;
    }
    return Ok(items);
  }

  // ---------------------------------------------------------------------------------------
  // The pool of solutions passing the most sampled tests (lines 34-42)

  /** The key order of line 35: `len` of the passed-set, compared so that `reverse=True` puts
      larger sets first. */
  predicate SizeGe(a: Candidate, b: Candidate)
  {
    |a.passed| >= |b.passed|
  }

  lemma SizeGeTotal()
    ensures TotalPreorder(SizeGe)
    ensures StrictWeakOrder(StrictOf(SizeGe))
  {
    StrictOfTotalPreorder(SizeGe);
  }

  /** The largest passed-set size. */
  function MaxSize(items: seq<Candidate>): nat
    requires items != []
  {
    var last := |items[|items| - 1].passed|;
    if |items| == 1 then last
    else
      var rest := MaxSize(items[..|items| - 1]);
      if rest >= last then rest else last
  }

  /** No passed-set is larger than `MaxSize`, and some candidate's is that large. */
  lemma {:induction false} MaxSizeSpec(items: seq<Candidate>)
    requires items != []
    ensures forall k :: 0 <= k < |items| ==> |items[k].passed| <= MaxSize(items)
    ensures exists k :: 0 <= k < |items| && |items[k].passed| == MaxSize(items)
  {
    var n := |items|;
    if n == 1 {
      assert |items[0].passed| == MaxSize(items);
    } else {
      var pre := items[..n - 1];
      MaxSizeSpec(pre);
      var k :| 0 <= k < n - 1 && |pre[k].passed| == MaxSize(pre);
      assert items[k] == pre[k];
      if MaxSize(pre) < |items[n - 1].passed| {
        assert |items[n - 1].passed| == MaxSize(items);
      }
    }
  }

  function HasSize(size: nat): Candidate -> bool
  {
    (c: Candidate) => |c.passed| == size
  }

  /** `top_sol_list`: the candidates with the largest passed-set, in dict order. */
  function Pool(items: seq<Candidate>): seq<Candidate>
    requires items != []
  {
    Filter(items, HasSize(MaxSize(items)))
  }

  /** Lines 35-42: sort by passed-set size, largest first, and keep the leading run of the
      top size; no items is an `IndexError` at `[0]`. */
  method TopPool(items: seq<Candidate>) returns (r: Result<seq<Candidate>>)
    ensures items == [] ==> r == Err(IndexError)
    ensures items != [] ==> r == Ok(Pool(items))
  {
    var ranked := SortBy(items, StrictOf(SizeGe));
    if |ranked| == 0 {
      return Err(IndexError);
    }
    var top := |ranked[0].passed|;
    var pool := [];
    var i := 0;
    while i < |ranked|
      invariant 0 <= i <= |ranked|
      invariant pool == ranked[..i]
      invariant forall k :: 0 <= k < i ==> |ranked[k].passed| == top
    {
      if |ranked[i].passed| == top {
        pool := pool + [ranked[i]];
      } else {
        break;
      }
      i := i + 1;
    }
    LeadingRunIsPool(items, i);
    return Ok(pool);
  }

  /** The leading run of the top size in the sorted list is the pool. */
  lemma LeadingRunIsPool(items: seq<Candidate>, i: nat)
    requires items != []
    requires var ranked := SortBy(items, StrictOf(SizeGe));
      && i <= |ranked|
      && (forall k :: 0 <= k < i ==> |ranked[k].passed| == |ranked[0].passed|)
      && (i == |ranked| || |ranked[i].passed| != |ranked[0].passed|)
    ensures SortBy(items, StrictOf(SizeGe))[..i] == Pool(items)
  {
    var less := StrictOf(SizeGe);
    var ranked := SortBy(items, less);
    SizeGeTotal();
    SortBySorted(items, less);
    RankedSizes(ranked);
    TopIsMaxSize(items);
    var p := HasSize(MaxSize(items));
    RestSmaller(ranked, i);
    LeadingRun(ranked, i);
    SortByStable(items, less, p);
  }

  /** In a list sorted largest passed-set first, sizes never grow. */
  lemma RankedSizes(ranked: seq<Candidate>)
    requires SortedBy(ranked, StrictOf(SizeGe))
    ensures forall a, b :: 0 <= a < b < |ranked| ==> |ranked[b].passed| <= |ranked[a].passed|
  {
    forall a, b | 0 <= a < b < |ranked| ensures |ranked[b].passed| <= |ranked[a].passed| {
      assert !StrictOf(SizeGe)(ranked[b], ranked[a]);
    }
  }

  /** A leading run of the first size followed only by other sizes is every element of that
      size. */
  lemma LeadingRun(ranked: seq<Candidate>, i: nat)
    requires ranked != [] && i <= |ranked|
    requires forall k :: 0 <= k < i ==> |ranked[k].passed| == |ranked[0].passed|
    requires forall k :: 0 <= k < |ranked[i..]| ==> !HasSize(|ranked[0].passed|)(ranked[i..][k])
    ensures ranked[..i] == Filter(ranked, HasSize(|ranked[0].passed|))
  {
    var top := |ranked[0].passed|;
    var p := HasSize(top);
    var rest := ranked[i..];
    FilterNone(rest, p);
    FilterAll(ranked[..i], p);
    assert ranked == ranked[..i] + rest;
    FilterAppend(ranked[..i], rest, p);
  }

  /** In a list whose sizes never grow, everything from the first element of another size on is
      smaller than the first. */
  lemma RestSmaller(ranked: seq<Candidate>, i: nat)
    requires ranked != [] && i <= |ranked|
    requires forall a, b :: 0 <= a < b < |ranked| ==> |ranked[b].passed| <= |ranked[a].passed|
    requires i == |ranked| || (i > 0 && |ranked[i].passed| != |ranked[0].passed|)
    ensures forall k :: 0 <= k < |ranked[i..]| ==> !HasSize(|ranked[0].passed|)(ranked[i..][k])
  {
    var top := |ranked[0].passed|;
    var rest := ranked[i..];
    forall k | 0 <= k < |rest| ensures |rest[k].passed| < top {
      assert |ranked[i].passed| <= top;
      if k > 0 {
        assert |ranked[i + k].passed| <= |ranked[i].passed|;
      }
      assert rest[k] == ranked[i + k];
    }
  }

  /** The first candidate after sorting has the largest passed-set. */
  lemma TopIsMaxSize(items: seq<Candidate>)
    requires items != []
    ensures |SortBy(items, StrictOf(SizeGe))[0].passed| == MaxSize(items)
  {
    var less := StrictOf(SizeGe);
    var ranked := SortBy(items, less);
    SizeGeTotal();
    SortBySorted(items, less);
    SortByPermutes(items, less);
    MaxSizeSpec(items);
    var k :| 0 <= k < |items| && |items[k].passed| == MaxSize(items);
    assert items[k] in multiset(ranked);
    var j :| 0 <= j < |ranked| && ranked[j] == items[k];
    if j > 0 {
      assert !less(ranked[j], ranked[0]);
    }
    assert ranked[0] in multiset(items);
  }

  /** The pool is not empty and holds exactly the candidates with the largest passed-set. */
  lemma PoolSpec(items: seq<Candidate>)
    requires items != []
    ensures Pool(items) != []
    ensures forall c :: c in Pool(items) <==> c in items && forall d :: d in items ==> |d.passed| <= |c.passed|
  {
    var top := MaxSize(items);
    MaxSizeSpec(items);
    forall c ensures c in Pool(items) <==> c in items && forall d :: d in items ==> |d.passed| <= |c.passed| {
      FilterMembers(items, HasSize(top), c);
      if c in items && forall d :: d in items ==> |d.passed| <= |c.passed| {
        var k :| 0 <= k < |items| && |items[k].passed| == top;
        assert items[k] in items;
      }
    }
    var k :| 0 <= k < |items| && |items[k].passed| == top;
    FilterMembers(items, HasSize(top), items[k]);
  }

  // ---------------------------------------------------------------------------------------
  // The consistency vote (lines 44-55)

  /** The consistency of `c` in `pool`: how many members passed exactly the tests `c` passed. */
  function Agreement(pool: seq<Candidate>, c: Candidate): (n: nat)
    ensures n <= |pool|
  {
    if pool == [] then 0
    else Agreement(pool[..|pool| - 1], c) + (if pool[|pool| - 1].passed == c.passed then 1 else 0)
  }

  /** The largest consistency among the first `n` members of the pool (`max_consistency` after
      `n` rounds). */
  function MostAgreement(pool: seq<Candidate>, n: nat): nat
    requires n <= |pool|
  {
    if n == 0 then 0
    else
      var before, here := MostAgreement(pool, n - 1), Agreement(pool, pool[n - 1]);
      if here > before then here else before
  }

  function Agrees(pool: seq<Candidate>, m: nat): Candidate -> bool
  {
    (c: Candidate) => Agreement(pool, c) == m
  }

  function SolIdOf(c: Candidate): nat
  {
    c.solId
  }

  /** The pool members of the largest consistency, in pool order. */
  function Chosen(pool: seq<Candidate>): seq<Candidate>
  {
    Filter(pool, Agrees(pool, MostAgreement(pool, |pool|)))
  }

  /** `select_sol_ids`. */
  function Selected(pool: seq<Candidate>): seq<nat>
  {
    Map(Chosen(pool), SolIdOf)
  }

  /** The inner loop of lines 47-50: count the members whose passed-set equals `v1`'s. */
  method Consistency(pool: seq<Candidate>, v1: Candidate) returns (consistency: nat)
    ensures consistency == Agreement(pool, v1)
  {
    consistency := 0;
    var b := 0;
    while b < |pool|
      invariant 0 <= b <= |pool|
      invariant consistency == Agreement(pool[..b], v1)
    {
      if v1.passed == pool[b].passed {
        consistency := consistency + 1;
      }
      assert pool[..b + 1][..b] == pool[..b];
      b := b + 1;
    }
    assert pool[..b] == pool;
  }

  /** Lines 44-55: count each member's consistency, restart the selection on a new maximum and
      extend it on a tie. */
  method Vote(pool: seq<Candidate>) returns (selected: seq<nat>)
    ensures selected == Selected(pool)
  {
    selected := [];
    var maxConsistency := 0;
    var a := 0;
    while a < |pool|
      invariant 0 <= a <= |pool|
      invariant maxConsistency == MostAgreement(pool, a)
      invariant selected == Map(Filter(pool[..a], Agrees(pool, maxConsistency)), SolIdOf)
    {
      var v1 := pool[a];
      var consistency := Consistency(pool, v1);
      VoteStep(pool, a);
      if consistency > maxConsistency {
        selected := [v1.solId];
        maxConsistency := consistency;
      } else if consistency == maxConsistency {
        selected := selected + [v1.solId];
      }
      a := a + 1;
    }
    assert pool[..a] == pool;
  }

  /** No member among the first `n` has a consistency above `MostAgreement(pool, n)`. */
  lemma {:induction false} MostAgreementBound(pool: seq<Candidate>, n: nat)
    requires n <= |pool|
    ensures forall k :: 0 <= k < n ==> Agreement(pool, pool[k]) <= MostAgreement(pool, n)
  {
    if n > 0 {
      MostAgreementBound(pool, n - 1);
    }
  }

  /** One round of the vote: what the selection among the first `a + 1` members is, given the
      selection among the first `a`. */
  lemma VoteStep(pool: seq<Candidate>, a: nat)
    requires a < |pool|
    ensures var before, here := MostAgreement(pool, a), Agreement(pool, pool[a]);
      var old_ := Map(Filter(pool[..a], Agrees(pool, before)), SolIdOf);
      Map(Filter(pool[..a + 1], Agrees(pool, MostAgreement(pool, a + 1))), SolIdOf)
        == if here > before then [pool[a].solId]
           else if here == before then old_ + [pool[a].solId]
           else old_
  {
    var before, here := MostAgreement(pool, a), Agreement(pool, pool[a]);
    var m := MostAgreement(pool, a + 1);
    var x := pool[a];
    assert pool[..a + 1] == pool[..a] + [x];
    assert pool[..a + 1][..a] == pool[..a];
    FilterAppend(pool[..a], [x], Agrees(pool, m));
    FilterOne(x, Agrees(pool, m));
    if here > before {
      MostAgreementBound(pool, a);
      forall k | 0 <= k < |pool[..a]| ensures !Agrees(pool, m)(pool[..a][k]) {
        assert pool[..a][k] == pool[k];
      }
      FilterNone(pool[..a], Agrees(pool, m));
      MapOne(x, SolIdOf);
    } else {
      var kept := Filter(pool[..a], Agrees(pool, m));
      if here == before {
        MapAppend(kept, [x], SolIdOf);
        MapOne(x, SolIdOf);
      } else {
        assert kept + [] == kept;
      }
    }
  }

  /** Every member agrees with itself, so its consistency is at least 1. */
  lemma {:induction false} AgreementSelf(pool: seq<Candidate>, c: Candidate)
    requires c in pool
    ensures Agreement(pool, c) >= 1
  {
    var pre := pool[..|pool| - 1];
    if pool[|pool| - 1] != c {
      assert pool == pre + [pool[|pool| - 1]];
      AgreementSelf(pre, c);
    }
  }

  /** Some member among the first `n` reaches `MostAgreement(pool, n)`. */
  lemma {:induction false} MostAgreementReached(pool: seq<Candidate>, n: nat)
    requires 0 < n <= |pool|
    ensures exists k :: 0 <= k < n && Agreement(pool, pool[k]) == MostAgreement(pool, n)
  {
    if n > 1 && Agreement(pool, pool[n - 1]) <= MostAgreement(pool, n - 1) {
      MostAgreementReached(pool, n - 1);
    } else {
      assert Agreement(pool, pool[n - 1]) == MostAgreement(pool, n);
    }
  }

  /** The vote over a non-empty pool selects someone, the winning consistency is at least 1,
      and the chosen members are exactly the members no other member outnumbers. */
  lemma ChosenSpec(pool: seq<Candidate>)
    requires pool != []
    ensures Chosen(pool) != []
    ensures MostAgreement(pool, |pool|) >= 1
    ensures forall c :: c in Chosen(pool) <==>
              c in pool && forall d :: d in pool ==> Agreement(pool, d) <= Agreement(pool, c)
  {
    var m := MostAgreement(pool, |pool|);
    MostAgreementBound(pool, |pool|);
    MostAgreementReached(pool, |pool|);
    var w :| 0 <= w < |pool| && Agreement(pool, pool[w]) == m;
    AgreementSelf(pool, pool[w]);
    FilterMembers(pool, Agrees(pool, m), pool[w]);
    forall c ensures c in Chosen(pool) <==>
                     c in pool && forall d :: d in pool ==> Agreement(pool, d) <= Agreement(pool, c) {
      FilterMembers(pool, Agrees(pool, m), c);
      if c in pool {
        var k :| 0 <= k < |pool| && pool[k] == c;
        assert pool[w] in pool;
      }
    }
  }

  /** A member whose passed-set no other member shares has consistency 1. */
  lemma {:induction false} AgreementAlone(pool: seq<Candidate>, k: nat, n: nat)
    requires k < |pool| && n <= |pool|
    requires forall i, j :: 0 <= i < j < |pool| ==> pool[i].passed != pool[j].passed
    ensures Agreement(pool[..n], pool[k]) == if k < n then 1 else 0
  {
    if n > 0 {
      assert pool[..n][..n - 1] == pool[..n - 1];
      AgreementAlone(pool, k, n - 1);
    }
  }

  /** When no two pool members passed the same tests, every consistency is 1 and the whole pool
      is selected. */
  lemma DistinctSetsSelectAll(pool: seq<Candidate>)
    requires pool != []
    requires forall i, j :: 0 <= i < j < |pool| ==> pool[i].passed != pool[j].passed
    ensures forall c :: c in pool ==> Agreement(pool, c) == 1
    ensures Chosen(pool) == pool
    ensures Selected(pool) == Map(pool, SolIdOf)
  {
    forall k | 0 <= k < |pool| ensures Agreement(pool, pool[k]) == 1 {
      AgreementAlone(pool, k, |pool|);
      assert pool[..|pool|] == pool;
    }
    MostAgreementReached(pool, |pool|);
    FilterAll(pool, Agrees(pool, MostAgreement(pool, |pool|)));
  }

  /** Selecting from a pool of distinct solution ids lists each selected id once. */
  lemma SelectedOnce(pool: seq<Candidate>)
    requires forall i, j :: 0 <= i < j < |pool| ==> pool[i].solId != pool[j].solId
    ensures forall i, j :: 0 <= i < j < |Selected(pool)| ==> Selected(pool)[i] != Selected(pool)[j]
  {
    var chosen := Chosen(pool);
    FilterKeepsInjective(pool, Agrees(pool, MostAgreement(pool, |pool|)), SolIdOf);
    forall i, j | 0 <= i < j < |chosen| ensures Selected(pool)[i] != Selected(pool)[j] {
      MapAt(chosen, SolIdOf, i);
      MapAt(chosen, SolIdOf, j);
    }
  }

  /** The solutions of a task enter the dict under the distinct ids `0..n-1`, so the pool holds
      each solution at most once. */
  lemma PoolOnce(utLabels: UtLabels, task: string, order: seq<int>, utNum: nat, n: nat)
    requires utNum <= |order| && n > 0
    ensures var pool := Pool(CandidateList(utLabels, task, order, utNum, n));
      forall i, j :: 0 <= i < j < |pool| ==> pool[i].solId != pool[j].solId
  {
    var items := CandidateList(utLabels, task, order, utNum, n);
    forall i, j | 0 <= i < j < |items| ensures SolIdOf(items[i]) != SolIdOf(items[j]) {
      CandidateAt(utLabels, task, order, utNum, n, i);
      CandidateAt(utLabels, task, order, utNum, n, j);
    }
    FilterKeepsInjective(items, HasSize(MaxSize(items)), SolIdOf);
  }

  // ---------------------------------------------------------------------------------------
  // A task's credit (lines 57-61)

  /** Solution `id` of the task is labelled `'pass'`. */
  function IsCorrect(solLabels: SolLabels, task: string): nat -> bool
  {
    (id: nat) => (task, id as int) in solLabels && solLabels[(task, id as int)] == Pass
  }

  /** `num` of lines 57-60: how many of `ids` are labelled `'pass'`; an id with no label is a
      `KeyError`. */
  function PassCount(solLabels: SolLabels, task: string, ids: seq<nat>): (r: Result<nat>)
    ensures r.Err? ==> r.error == KeyError
  {
    if ids == [] then Ok(0)
    else
      match PassCount(solLabels, task, ids[..|ids| - 1])
      case Err(e) => Err(e)
      case Ok(n) =>
        var key := (task, ids[|ids| - 1] as int);
        if key !in solLabels then Err(KeyError)
        else Ok(n + if solLabels[key] == Pass then 1 else 0)
  }

  /** The count succeeds exactly when every id has a label, and then counts the ids labelled
      `'pass'`, which are at most all of them. */
  lemma {:induction false} PassCountSpec(solLabels: SolLabels, task: string, ids: seq<nat>)
    ensures PassCount(solLabels, task, ids).Ok? <==> forall k :: 0 <= k < |ids| ==> (task, ids[k] as int) in solLabels
    ensures PassCount(solLabels, task, ids).Ok? ==>
              PassCount(solLabels, task, ids).value == |Filter(ids, IsCorrect(solLabels, task))| <= |ids|
    decreases |ids|
  {
    if ids != [] {
      var pre := ids[..|ids| - 1];
      PassCountSpec(solLabels, task, pre);
      assert forall k :: 0 <= k < |pre| ==> pre[k] == ids[k];
    }
  }

  /** `num / len(select_sol_ids)`; an empty selection would divide by zero. */
  function Credit(solLabels: SolLabels, task: string, selected: seq<nat>): Result<real>
  {
    match PassCount(solLabels, task, selected)
    case Err(e) => Err(e)
    case Ok(num) =>
      if |selected| == 0 then Err(ZeroDivisionError) else Ok(num as real / |selected| as real)
  }

  /** A credit is the share of the selection labelled `'pass'`, so it lies in `[0, 1]`. */
  lemma CreditBounds(solLabels: SolLabels, task: string, selected: seq<nat>)
    requires Credit(solLabels, task, selected).Ok?
    ensures 0.0 <= Credit(solLabels, task, selected).value <= 1.0
  {
    PassCountSpec(solLabels, task, selected);
    var num := PassCount(solLabels, task, selected).value;
    ShareBounds(num, |selected|);
  }

  lemma ShareBounds(num: nat, count: nat)
    requires num <= count && count > 0
    ensures 0.0 <= num as real / count as real <= 1.0
  {
    assert num as real <= count as real;
  }

  /** Lines 57-61: count the selected solutions labelled `'pass'`, then divide. */
  method Score(solLabels: SolLabels, task: string, selected: seq<nat>) returns (r: Result<real>)
    ensures r == Credit(solLabels, task, selected)
  {
    var num := 0;
    var i := 0;
    while i < |selected|
      invariant 0 <= i <= |selected|
      invariant PassCount(solLabels, task, selected[..i]) == Ok(num)
    {
      var v := selected[i];
      assert selected[..i + 1][..i] == selected[..i];
      if (task, v as int) !in solLabels {
        PassCountFails(solLabels, task, selected, i + 1);
        return Err(KeyError);
      }
      if solLabels[(task, v as int)] == Pass {
        num := num + 1;
      }
      i := i + 1;
    }
    assert selected[..i] == selected;
    if |selected| == 0 {
      return Err(ZeroDivisionError);
    }
    return Ok(num as real / |selected| as real);
  }

  /** Once the count over a prefix fails, the count over the whole list fails the same way. */
  lemma {:induction false} PassCountFails(solLabels: SolLabels, task: string, ids: seq<nat>, n: nat)
    requires n <= |ids| && PassCount(solLabels, task, ids[..n]).Err?
    ensures PassCount(solLabels, task, ids) == PassCount(solLabels, task, ids[..n])
    decreases |ids| - n
  {
    if n < |ids| {
      assert ids[..n + 1][..n] == ids[..n];
      PassCountFails(solLabels, task, ids, n + 1);
    } else {
      assert ids[..n] == ids;
    }
  }

  // ---------------------------------------------------------------------------------------
  // One task, one trial, the mean of trials (lines 16-64, 89-94)

  /** The credit of one task given its `ut_ids` order: lines 19-61. */
  function TaskScore(utLabels: UtLabels, solLabels: SolLabels, task: string, order: seq<int>,
                     solNum: int, utNum: int): Result<real>
  {
    match Candidates(utLabels, task, order, solNum, utNum)
    case Err(e) => Err(e)
    case Ok(items) =>
      if items == [] then Err(IndexError) else Credit(solLabels, task, Selected(Pool(items)))
  }

  /** A task fails with `IndexError` unless `1 <= sol_num <= 100` and `1 <= ut_num <= 100`, and
      otherwise only with a `KeyError` for a selected solution without a label. */
  lemma TaskScoreErrors(utLabels: UtLabels, solLabels: SolLabels, task: string, order: seq<int>,
                        solNum: int, utNum: int)
    requires |order| == IdCount
    ensures !(1 <= solNum <= IdCount && 1 <= utNum <= IdCount) ==>
              TaskScore(utLabels, solLabels, task, order, solNum, utNum) == Err(IndexError)
    ensures 1 <= solNum <= IdCount && 1 <= utNum <= IdCount &&
            TaskScore(utLabels, solLabels, task, order, solNum, utNum).Err? ==>
              TaskScore(utLabels, solLabels, task, order, solNum, utNum).error == KeyError
  {
    if 1 <= solNum <= IdCount && 1 <= utNum <= IdCount {
      SelectionNotEmpty(utLabels, task, order, solNum, utNum);
    }
  }

  /** With solutions and tests to look at, the selection is not empty. */
  lemma SelectionNotEmpty(utLabels: UtLabels, task: string, order: seq<int>, solNum: int, utNum: int)
    requires 1 <= solNum && 1 <= utNum <= |order|
    ensures CandidateList(utLabels, task, order, utNum, solNum) != []
    ensures |Selected(Pool(CandidateList(utLabels, task, order, utNum, solNum)))| > 0
  {
    var items := CandidateList(utLabels, task, order, utNum, solNum);
    PoolSpec(items);
    ChosenSpec(Pool(items));
  }

  /** A task's score lies in `[0, 1]`. */
  lemma TaskScoreBounds(utLabels: UtLabels, solLabels: SolLabels, task: string, order: seq<int>,
                        solNum: int, utNum: int)
    ensures TaskScore(utLabels, solLabels, task, order, solNum, utNum).Ok? ==>
              0.0 <= TaskScore(utLabels, solLabels, task, order, solNum, utNum).value <= 1.0
  {
    if TaskScore(utLabels, solLabels, task, order, solNum, utNum).Ok? {
      var items := Candidates(utLabels, task, order, solNum, utNum).value;
      CreditBounds(solLabels, task, Selected(Pool(items)));
    }
  }

  /** Lines 19-61 for one task. */
  method ScoreTask(utLabels: UtLabels, solLabels: SolLabels, task: string, order: seq<int>,
                   solNum: int, utNum: int) returns (r: Result<real>)
    ensures r == TaskScore(utLabels, solLabels, task, order, solNum, utNum)
  {
    var items := CollectPassedSets(utLabels, task, order, solNum, utNum);
    if items.Err? {
      return Err(items.error);
    }
    var pool := TopPool(items.value);
    if pool.Err? {
      return Err(pool.error);
    }
    var selected := Vote(pool.value);
    r := Score(solLabels, task, selected);
  }

  /** Scores one task given the order of `ut_ids` after its shuffle. */
  type Scorer = (string, seq<int>) -> Result<real>

  function TaskScorer(utLabels: UtLabels, solLabels: SolLabels, solNum: int, utNum: int): Scorer
  {
    (task: string, order: seq<int>) => TaskScore(utLabels, solLabels, task, order, solNum, utNum)
  }

  /** Every task score lies in `[0, 1]`. */
  ghost predicate ScoresInUnit(score: Scorer)
  {
    forall task, order :: score(task, order).Ok? ==> 0.0 <= score(task, order).value <= 1.0
  }

  lemma TaskScorerInUnit(utLabels: UtLabels, solLabels: SolLabels, solNum: int, utNum: int)
    ensures ScoresInUnit(TaskScorer(utLabels, solLabels, solNum, utNum))
  {
    forall task, order ensures TaskScore(utLabels, solLabels, task, order, solNum, utNum).Ok? ==>
                               0.0 <= TaskScore(utLabels, solLabels, task, order, solNum, utNum).value <= 1.0 {
      TaskScoreBounds(utLabels, solLabels, task, order, solNum, utNum);
    }
  }

  /** The sum of the scores of the first `n` tasks; the first failing task ends the trial. */
  function ScoreSum(score: Scorer, dataset: seq<string>, orders: seq<seq<int>>, n: nat): Result<real>
    requires |orders| == |dataset| && n <= |dataset|
  {
    if n == 0 then Ok(0.0)
    else
      match ScoreSum(score, dataset, orders, n - 1)
      case Err(e) => Err(e)
      case Ok(sum) =>
        match score(dataset[n - 1], orders[n - 1])
        case Err(e) => Err(e)
        case Ok(x) => Ok(sum + x)
  }

  /** The accuracy of one trial before rounding: the mean task score; no tasks divide by zero. */
  function Accuracy(score: Scorer, dataset: seq<string>, orders: seq<seq<int>>): Result<real>
    requires |orders| == |dataset|
  {
    match ScoreSum(score, dataset, orders, |dataset|)
    case Err(e) => Err(e)
    case Ok(sum) => if |dataset| == 0 then Err(ZeroDivisionError) else Ok(sum / |dataset| as real)
  }

  /** Once a task fails, the trial fails the same way. */
  lemma {:induction false} ScoreSumFails(score: Scorer, dataset: seq<string>, orders: seq<seq<int>>, t: nat, n: nat)
    requires |orders| == |dataset| && t <= n <= |dataset|
    requires ScoreSum(score, dataset, orders, t).Err?
    ensures ScoreSum(score, dataset, orders, n) == ScoreSum(score, dataset, orders, t)
    decreases n
  {
    if n > t {
      ScoreSumFails(score, dataset, orders, t, n - 1);
    }
  }

  lemma ScoreSumNext(score: Scorer, dataset: seq<string>, orders: seq<seq<int>>, t: nat, sum: real, x: real)
    requires |orders| == |dataset| && t < |dataset|
    requires ScoreSum(score, dataset, orders, t) == Ok(sum)
    requires score(dataset[t], orders[t]) == Ok(x)
    ensures ScoreSum(score, dataset, orders, t + 1) == Ok(sum + x)
  {
  }

  /** The sum of `n` scores in `[0, 1]` lies in `[0, n]`. */
  lemma {:induction false} ScoreSumBounds(score: Scorer, dataset: seq<string>, orders: seq<seq<int>>, n: nat)
    requires |orders| == |dataset| && n <= |dataset| && ScoresInUnit(score)
    requires ScoreSum(score, dataset, orders, n).Ok?
    ensures 0.0 <= ScoreSum(score, dataset, orders, n).value <= n as real
  {
    if n > 0 {
      ScoreSumBounds(score, dataset, orders, n - 1);
      var x := score(dataset[n - 1], orders[n - 1]);
      assert x.Ok? ==> 0.0 <= x.value <= 1.0;
    }
  }

  /** A trial's accuracy lies in `[0, 1]`; an empty dataset is a `ZeroDivisionError`. */
  lemma AccuracySpec(utLabels: UtLabels, solLabels: SolLabels, dataset: seq<string>,
                     orders: seq<seq<int>>, solNum: int, utNum: int)
    requires |orders| == |dataset|
    ensures var a := Accuracy(TaskScorer(utLabels, solLabels, solNum, utNum), dataset, orders);
      && (dataset == [] ==> a == Err(ZeroDivisionError))
      && (a.Ok? ==> 0.0 <= a.value <= 1.0)
  {
    TaskScorerInUnit(utLabels, solLabels, solNum, utNum);
    AccuracyInUnit(TaskScorer(utLabels, solLabels, solNum, utNum), dataset, orders);
  }

  /** With every task score in `[0, 1]`, so is the accuracy. */
  lemma AccuracyInUnit(score: Scorer, dataset: seq<string>, orders: seq<seq<int>>)
    requires |orders| == |dataset| && ScoresInUnit(score)
    ensures Accuracy(score, dataset, orders).Ok? ==> 0.0 <= Accuracy(score, dataset, orders).value <= 1.0
  {
    var n := |dataset|;
    if Accuracy(score, dataset, orders).Ok? {
      ScoreSumBounds(score, dataset, orders, n);
      MeanBounds(ScoreSum(score, dataset, orders, n).value, n);
    }
  }

  lemma MeanBounds(sum: real, n: nat)
    requires n > 0 && 0.0 <= sum <= n as real
    ensures 0.0 <= sum / n as real <= 1.0
  {
  }

  /** `calc_best_of_n` before rounding: `orders[t]` is `ut_ids` as `random.shuffle` leaves it
      before task `t`, and the task scores are accumulated. */
  method CalcBestOfN(dataset: seq<string>, solNum: int, utNum: int, solLabels: SolLabels,
                     utLabels: UtLabels, orders: seq<seq<int>>) returns (r: Result<real>)
    requires |orders| == |dataset|
    ensures r == Accuracy(TaskScorer(utLabels, solLabels, solNum, utNum), dataset, orders)
  {
    hide TaskScore;
    ghost var score := TaskScorer(utLabels, solLabels, solNum, utNum);
    var accuracy := 0.0;
    var t := 0;
    while t < |dataset|
      invariant 0 <= t <= |dataset|
      invariant ScoreSum(score, dataset, orders, t) == Ok(accuracy)
    {
      var utIds := orders[t];
      var x := ScoreTask(utLabels, solLabels, dataset[t], utIds, solNum, utNum);
      if x.Err? {
        ScoreSumFails(score, dataset, orders, t + 1, |dataset|);
        return Err(x.error);
      }
      ScoreSumNext(score, dataset, orders, t, accuracy, x.value);
      accuracy := accuracy + x.value;
      t := t + 1;
    }
    if |dataset| == 0 {
      return Err(ZeroDivisionError);
    }
    return Ok(accuracy / |dataset| as real);
  }

  // ---------------------------------------------------------------------------------------
  // The mean over trials (lines 89-94)

  /** `trials[k]` holds the `ut_ids` orders of trial `k`, one per task. */
  predicate TrialsFit(dataset: seq<string>, trials: seq<seq<seq<int>>>)
  {
    forall k :: 0 <= k < |trials| ==> |trials[k]| == |dataset|
  }

  /** `y` after `n` trials; the first trial that fails ends the run with its error. */
  function Accuracies(score: Scorer, dataset: seq<string>, trials: seq<seq<seq<int>>>, n: nat): (r: Result<seq<real>>)
    requires TrialsFit(dataset, trials) && n <= |trials|
    ensures r.Ok? ==> |r.value| == n
  {
    if n == 0 then Ok([])
    else
      match Accuracies(score, dataset, trials, n - 1)
      case Err(e) => Err(e)
      case Ok(ys) =>
        match Accuracy(score, dataset, trials[n - 1])
        case Err(e) => Err(e)
        case Ok(y) => Ok(ys + [y])
  }

  function Sum(ys: seq<real>): real
  {
    if ys == [] then 0.0 else Sum(ys[..|ys| - 1]) + ys[|ys| - 1]
  }

  /** `statistics.mean` on exact reals: the mean of no values is a `StatisticsError`. */
  function Mean(ys: seq<real>): (r: Result<real>)
    ensures r.Err? <==> ys == []
  {
    if ys == [] then Err(StatisticsError) else Ok(Sum(ys) / |ys| as real)
  }

  /** `y_mean`: the mean accuracy of the trials. */
  function MeanAccuracy(score: Scorer, dataset: seq<string>, trials: seq<seq<seq<int>>>): Result<real>
    requires TrialsFit(dataset, trials)
  {
    match Accuracies(score, dataset, trials, |trials|)
    case Err(e) => Err(e)
    case Ok(ys) => Mean(ys)
  }

  /** Once a trial fails, the run fails the same way. */
  lemma {:induction false} AccuraciesFail(score: Scorer, dataset: seq<string>, trials: seq<seq<seq<int>>>, k: nat, n: nat)
    requires TrialsFit(dataset, trials) && k <= n <= |trials|
    requires Accuracies(score, dataset, trials, k).Err?
    ensures Accuracies(score, dataset, trials, n) == Accuracies(score, dataset, trials, k)
    decreases n
  {
    if n > k {
      AccuraciesFail(score, dataset, trials, k, n - 1);
    }
  }

  /** Values in `[0, 1]` sum to at most their number. */
  lemma {:induction false} SumBounds(ys: seq<real>)
    requires forall k :: 0 <= k < |ys| ==> 0.0 <= ys[k] <= 1.0
    ensures 0.0 <= Sum(ys) <= |ys| as real
  {
    if ys != [] {
      var pre := ys[..|ys| - 1];
      assert forall k :: 0 <= k < |pre| ==> pre[k] == ys[k];
      SumBounds(pre);
    }
  }

  /** With every task score in `[0, 1]`, every trial accuracy lies in `[0, 1]`. */
  lemma {:induction false} AccuraciesInUnit(score: Scorer, dataset: seq<string>, trials: seq<seq<seq<int>>>, n: nat)
    requires TrialsFit(dataset, trials) && n <= |trials| && ScoresInUnit(score)
    requires Accuracies(score, dataset, trials, n).Ok?
    ensures forall k :: 0 <= k < n ==> 0.0 <= Accuracies(score, dataset, trials, n).value[k] <= 1.0
  {
    if n > 0 {
      AccuraciesInUnit(score, dataset, trials, n - 1);
      AccuracyInUnit(score, dataset, trials[n - 1]);
    }
  }

  /** No trials: `statistics.mean` fails; trials over an empty dataset: the first divides by
      zero; otherwise the mean lies in `[0, 1]`. */
  lemma MeanAccuracySpec(utLabels: UtLabels, solLabels: SolLabels, dataset: seq<string>,
                         trials: seq<seq<seq<int>>>, solNum: int, utNum: int)
    requires TrialsFit(dataset, trials)
    ensures var m := MeanAccuracy(TaskScorer(utLabels, solLabels, solNum, utNum), dataset, trials);
      && (trials == [] ==> m == Err(StatisticsError))
      && (trials != [] && dataset == [] ==> m == Err(ZeroDivisionError))
      && (m.Ok? ==> 0.0 <= m.value <= 1.0)
  {
    var score := TaskScorer(utLabels, solLabels, solNum, utNum);
    var n := |trials|;
    if trials != [] && dataset == [] {
      AccuracySpec(utLabels, solLabels, dataset, trials[0], solNum, utNum);
      assert Accuracies(score, dataset, trials, 1) == Err(ZeroDivisionError);
      AccuraciesFail(score, dataset, trials, 1, n);
    }
    if MeanAccuracy(score, dataset, trials).Ok? {
      TaskScorerInUnit(utLabels, solLabels, solNum, utNum);
      AccuraciesInUnit(score, dataset, trials, n);
      var ys := Accuracies(score, dataset, trials, n).value;
      SumBounds(ys);
      MeanBounds(Sum(ys), n);
    }
  }

  /** Lines 89-94: run `sample_num == |trials|` trials, collect their accuracies in `y` and
      take the mean. */
  method AverageTrials(dataset: seq<string>, solNum: int, utNum: int, solLabels: SolLabels,
                       utLabels: UtLabels, trials: seq<seq<seq<int>>>) returns (r: Result<real>)
    requires TrialsFit(dataset, trials)
    ensures r == MeanAccuracy(TaskScorer(utLabels, solLabels, solNum, utNum), dataset, trials)
  {
    hide TaskScore;
    ghost var score := TaskScorer(utLabels, solLabels, solNum, utNum);
    var y: seq<real> := [];
    var k := 0;
    while k < |trials|
      invariant 0 <= k <= |trials|
      invariant Accuracies(score, dataset, trials, k) == Ok(y)
    {
      var accuracy := CalcBestOfN(dataset, solNum, utNum, solLabels, utLabels, trials[k]);
      if accuracy.Err? {
        AccuraciesFail(score, dataset, trials, k + 1, |trials|);
        return Err(accuracy.error);
      }
      y := y + [accuracy.value];
      k := k + 1;
    }
    r := Mean(y);
  }

  // ---------------------------------------------------------------------------------------
  // A worked example (lines 35-61)

  /** Solutions 0 and 1 pass tests 1 and 3, solution 2 passes test 2, and only solution 0 is
      correct: 0 and 1 form the pool, each agrees with two members, both are selected, and the
      task scores one half. */
  lemma WorkedExample()
    ensures var items := [Candidate(0, {1, 3}), Candidate(1, {1, 3}), Candidate(2, {2})];
      var labels := map[("t", 0) := Pass, ("t", 1) := Fail, ("t", 2) := Fail];
      && Pool(items) == items[..2]
      && Agreement(Pool(items), items[0]) == 2 && Agreement(Pool(items), items[1]) == 2
      && Selected(Pool(items)) == [0, 1]
      && Credit(labels, "t", Selected(Pool(items))) == Ok(0.5)
  {
    var a, b, c := Candidate(0, {1, 3}), Candidate(1, {1, 3}), Candidate(2, {2});
    var items := [a, b, c];
    assert items[..2] == [a, b] && [a, b][..1] == [a] && items[..2][..1] == [a];
    assert MaxSize([a]) == 2;
    assert MaxSize(items) == 2;
    var p := HasSize(2);
    FilterOne(a, p);
    assert Filter([a, b], p) == [a, b];
    assert Pool(items) == [a, b];
    var pool := [a, b];
    assert Agreement([a], a) == 1 && Agreement([a], b) == 1;
    assert Agreement(pool, a) == 2 && Agreement(pool, b) == 2;
    assert pool[0] == a && pool[1] == b;
    assert MostAgreement(pool, 1) == 2;
    assert MostAgreement(pool, 2) == 2;
    var q := Agrees(pool, 2);
    FilterOne(a, q);
    assert Chosen(pool) == pool;
    MapOne(a, SolIdOf);
    assert Selected(pool) == [0, 1];
    var labels := map[("t", 0) := Pass, ("t", 1) := Fail, ("t", 2) := Fail];
    assert [0, 1][..1] == [0];
    assert PassCount(labels, "t", [0]) == Ok(1);
    assert PassCount(labels, "t", [0, 1]) == Ok(1);
  }
}
