/** The fan-in half of each parallel stage. Every work item of a stage is
    submitted at once and `as_completed` hands the results back in an order
    the model does not fix: a stage is a sequential fold over an arbitrary
    permutation of the submitted items (its completion order). A scheduler
    gives that order for a stage of any size. */
module FanIn {
  import opened Outcomes
  import opened Panels

  function Range(n: nat): (r: seq<nat>)
    ensures |r| == n && forall i :: 0 <= i < n ==> r[i] == i
  {
    seq(n, i => i)
  }

  /** `order` lists each of 0, ..., n-1 exactly once. */
  predicate IsPermutation(order: seq<nat>, n: nat) {
    multiset(order) == multiset(Range(n))
  }

  /** The completion order of a stage with `n` items, for every `n`. */
  type Scheduler = nat -> seq<nat>

  ghost predicate IsScheduler(s: Scheduler) {
    forall n: nat :: IsPermutation(s(n), n)
  }

  lemma PermutationCovers(order: seq<nat>, n: nat)
    requires IsPermutation(order, n)
    ensures |order| == n
    ensures forall k :: 0 <= k < |order| ==> order[k] < n
    ensures forall j :: 0 <= j < n ==> j in order
  {
    assert |multiset(order)| == |order| && |multiset(Range(n))| == n;
    forall k | 0 <= k < |order| ensures order[k] < n {
      assert order[k] in multiset(Range(n));
    }
    forall j | 0 <= j < n ensures j in order {
      assert Range(n)[j] == j;
      assert j in multiset(order);
    }
  }

  /** The items in the order given by `order` (a list of their positions). */
  function Arrivals<T>(items: seq<T>, order: seq<nat>): (a: seq<T>)
    requires forall k :: 0 <= k < |order| ==> order[k] < |items|
    ensures |a| == |order| && forall k :: 0 <= k < |a| ==> a[k] == items[order[k]]
  {
    seq(|order|, k requires 0 <= k < |order| => items[order[k]])
  }

  /** Whatever the completion order, the stage sees every submitted item once. */
  lemma ArrivalsPermutation<T>(items: seq<T>, order: seq<nat>)
    requires IsPermutation(order, |items|)
    ensures forall k :: 0 <= k < |order| ==> order[k] < |items|
    ensures multiset(Arrivals(items, order)) == multiset(items)
  {
    PermutationCovers(order, |items|);
    var all := Range(|items|);
    ArrivalsCollected(items, order);
    ArrivalsCollected(items, all);
    CollectedReorder(k => Pick(items, k), order, all);
    assert Arrivals(items, all) == items;
  }

  /** `[f(x) for x in s]`. */
  function Map<A, B>(f: A -> B, s: seq<A>): (r: seq<B>)
    ensures |r| == |s| && forall i :: 0 <= i < |s| ==> r[i] == f(s[i])
  {
    seq(|s|, i requires 0 <= i < |s| => f(s[i]))
  }

  /** What a loop that appends `keep(x)` for each `x` of `a`, in turn, has built. */
  function Collected<T, U>(keep: T -> seq<U>, a: seq<T>): seq<U>
    decreases |a|
  {
    if a == [] then [] else Collected(keep, a[..|a| - 1]) + keep(a[|a| - 1])
  }

  lemma {:induction false} CollectedAppend<T, U>(keep: T -> seq<U>, a: seq<T>, b: seq<T>)
    ensures Collected(keep, a + b) == Collected(keep, a) + Collected(keep, b)
    decreases |b|
  {
    if b == [] {
      assert a + b == a;
    } else {
      assert (a + b)[..|a + b| - 1] == a + b[..|b| - 1];
      CollectedAppend(keep, a, b[..|b| - 1]);
    }
  }

  lemma CollectedSingle<T, U>(keep: T -> seq<U>, x: T)
    ensures Collected(keep, [x]) == keep(x)
  {
    assert [x][..0] == [];
  }

  /** What is collected depends on which items arrive, not on their order. */
  lemma {:induction false} CollectedReorder<T, U>(keep: T -> seq<U>, a: seq<T>, b: seq<T>)
    requires multiset(a) == multiset(b)
    ensures multiset(Collected(keep, a)) == multiset(Collected(keep, b))
    decreases |a|
  {
    if a == [] {
      assert |multiset(b)| == 0;
      assert b == [];
    } else {
      var x := a[|a| - 1];
      var a' := a[..|a| - 1];
      assert a == a' + [x];
      assert x in multiset(b);
      var j :| 0 <= j < |b| && b[j] == x;
      var b' := b[..j] + b[j + 1..];
      assert b == b[..j] + [x] + b[j + 1..];
      assert multiset(b) == multiset(b[..j]) + multiset([x]) + multiset(b[j + 1..]);
      assert multiset(a) == multiset(a') + multiset([x]);
      assert multiset(b') == multiset(b[..j]) + multiset(b[j + 1..]);
      forall y ensures multiset(b')[y] == multiset(a')[y] {
        assert multiset(a)[y] == multiset(b)[y];
      }
      assert multiset(b') == multiset(a');
      CollectedReorder(keep, a', b');
      CollectedAppend(keep, b[..j] + [x], b[j + 1..]);
      CollectedAppend(keep, b[..j], [x]);
      CollectedAppend(keep, b[..j], b[j + 1..]);
      CollectedSingle(keep, x);
    }
  }

  lemma {:induction false} CollectedMembership<T, U>(keep: T -> seq<U>, a: seq<T>, y: U)
    ensures y in Collected(keep, a) <==> exists i :: 0 <= i < |a| && y in keep(a[i])
    decreases |a|
  {
    if a != [] {
      var a' := a[..|a| - 1];
      CollectedMembership(keep, a', y);
      if y in Collected(keep, a') {
        var i :| 0 <= i < |a'| && y in keep(a'[i]);
        assert a[i] == a'[i];
      }
      if exists i :: 0 <= i < |a| && y in keep(a[i]) {
        var i :| 0 <= i < |a| && y in keep(a[i]);
        if i < |a'| { assert a'[i] == a[i]; }
      }
    }
  }

  /** The item at position `k`, if there is one. */
  function Pick<T>(items: seq<T>, k: nat): seq<T> {
    if k < |items| then [items[k]] else []
  }

  lemma {:induction false} ArrivalsCollected<T>(items: seq<T>, order: seq<nat>)
    requires forall k :: 0 <= k < |order| ==> order[k] < |items|
    ensures Arrivals(items, order) == Collected(k => Pick(items, k), order)
    decreases |order|
  {
    if order != [] {
      var o' := order[..|order| - 1];
      ArrivalsCollected(items, o');
      assert Arrivals(items, order) == Arrivals(items, o') + [items[order[|order| - 1]]];
    }
  }

  /** The `(panel, result)` pair a stage keeps from one completion:
      nothing for an exception object. */
  function SuccessOf<T>(c: Completion<T>): seq<(Panel, T)> {
    if Succeeded(c) then [(c.panel, c.result.value)] else []
  }

  /** The pairs kept from completions arriving in the order of `a`. */
  function Successes<T>(a: seq<Completion<T>>): seq<(Panel, T)> {
    Collected(SuccessOf, a)
  }

  predicate NoneRaised<T>(a: seq<Completion<T>>) {
    forall i :: 0 <= i < |a| ==> a[i].Returned?
  }

  /** The first stage's collection loop over completions arriving in the
      order of `a`: the kept pairs, or the first exception `future.result()`
      re-raises, which ends the loop. */
  function Gathered<T>(a: seq<Completion<T>>): Result<seq<(Panel, T)>>
    decreases |a|
  {
    if a == [] then Ok([])
    else
      match Gathered(a[..|a| - 1])
      case Err(e) => Err(e)
      case Ok(kept) =>
        var c := a[|a| - 1];
        if c.Raised? then Err(c.error) else Ok(kept + SuccessOf(c))
  }

  lemma {:induction false} GatheredErrorSticks<T>(a: seq<Completion<T>>, k: nat)
    requires k <= |a| && Gathered(a[..k]).Err?
    ensures Gathered(a) == Gathered(a[..k])
    decreases |a| - k
  {
    if k < |a| {
      assert a[..k + 1][..k] == a[..k];
      GatheredErrorSticks(a, k + 1);
    } else {
      assert a[..k] == a;
    }
  }

  /** The loop succeeds exactly when no worker raised, and then it has kept
      every successful pair, in arrival order. */
  lemma {:induction false} GatheredMeaning<T>(a: seq<Completion<T>>)
    ensures Gathered(a).Ok? <==> NoneRaised(a)
    ensures Gathered(a).Ok? ==> Gathered(a).value == Successes(a)
    ensures Gathered(a).Err? ==> exists i :: 0 <= i < |a| && a[i] == Raised(Gathered(a).error)
    decreases |a|
  {
    if a != [] {
      var a' := a[..|a| - 1];
      GatheredMeaning(a');
      if Gathered(a').Err? {
        var i :| 0 <= i < |a'| && a'[i] == Raised(Gathered(a').error);
        assert a[i] == a'[i];
      }
    }
  }

  lemma NoneRaisedReorder<T>(a: seq<Completion<T>>, b: seq<Completion<T>>)
    requires multiset(a) == multiset(b)
    ensures NoneRaised(a) <==> NoneRaised(b)
  {
    forall i | 0 <= i < |a| ensures a[i] in b {
      assert a[i] in multiset(b);
    }
    forall i | 0 <= i < |b| ensures b[i] in a {
      assert b[i] in multiset(a);
    }
  }

  /** The shared fan-in loop of the first stage of both pipelines
      (app/api/endpoints/ehon.py:34-39, app/api/endpoints/manga.py:146-151):
      append each successful `(panel, result)` as it completes, skip an
      exception object, and stop on an exception that escaped the worker. */
  method CollectSuccesses<T>(completions: seq<Completion<T>>, order: seq<nat>) returns (r: Result<seq<(Panel, T)>>)
    requires IsPermutation(order, |completions|)
    ensures forall k :: 0 <= k < |order| ==> order[k] < |completions|
    ensures r == Gathered(Arrivals(completions, order))
    ensures r.Ok? <==> NoneRaised(completions)
    ensures r.Ok? ==> multiset(r.value) == multiset(Successes(completions))
  {
    ArrivalsPermutation(completions, order);
    ghost var arrivals := Arrivals(completions, order);
    var kept: seq<(Panel, T)> := [];
    var i := 0;
    r := Ok([]);
    while i < |order|
      invariant 0 <= i <= |order|
      invariant Gathered(arrivals[..i]) == Ok(kept)
    {
      var c := completions[order[i]];
      assert arrivals[..i + 1][..i] == arrivals[..i];
      if c.Raised? {
        r := Err(c.error);
        GatheredErrorSticks(arrivals, i + 1);
        break;
      }
      assert arrivals[i] == c;
      assert Gathered(arrivals[..i + 1]) == Ok(kept + SuccessOf(c));
      if c.result.Ok? {
        kept := kept + [(c.panel, c.result.value)];
      } else {
        assert kept + SuccessOf(c) == kept;
      }
      i := i + 1;
    }
    if i == |order| {
      assert arrivals[..i] == arrivals;
      r := Ok(kept);
    }
    GatheredMeaning(arrivals);
    NoneRaisedReorder(arrivals, completions);
    CollectedReorder(SuccessOf, arrivals, completions);
  }
}
