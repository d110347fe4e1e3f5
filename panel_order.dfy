/** `sorted(panels, key=lambda p: p["コマ番号"])`: a stable sort of the panels
    by their number, for panels that all carry one. */
module PanelOrder {
  import opened Outcomes
  import opened Panels

  predicate AllNumbered(ps: seq<Panel>) {
    forall i :: 0 <= i < |ps| ==> ps[i].number.Some?
  }

  function Key(p: Panel): int
    requires p.number.Some?
  {
    p.number.value
  }

  predicate SortedByNumber(ps: seq<Panel>)
    requires AllNumbered(ps)
  {
    forall i, j :: 0 <= i < j < |ps| ==> Key(ps[i]) <= Key(ps[j])
  }

  /** Puts `p` in front of the first panel whose number is not below its own,
      so that it stays ahead of panels with an equal number. */
  function Insert(p: Panel, ps: seq<Panel>): (r: seq<Panel>)
    requires p.number.Some? && AllNumbered(ps)
    ensures AllNumbered(r)
    ensures multiset(r) == multiset(ps) + multiset{p}
    ensures |r| == |ps| + 1
    decreases |ps|
  {
    if ps == [] || Key(p) <= Key(ps[0]) then [p] + ps
    else
      assert ps == [ps[0]] + ps[1..];
      [ps[0]] + Insert(p, ps[1..])
  }

  lemma {:induction false} InsertSorted(p: Panel, ps: seq<Panel>)
    requires p.number.Some? && AllNumbered(ps) && SortedByNumber(ps)
    ensures SortedByNumber(Insert(p, ps))
    ensures forall k :: 0 <= k < |ps| + 1 ==> Key(Insert(p, ps)[k]) == Key(p) || Key(Insert(p, ps)[k]) >= Key(ps[0])
    decreases |ps|
  {
    if ps != [] && Key(p) > Key(ps[0]) {
      InsertSorted(p, ps[1..]);
      var rest := Insert(p, ps[1..]);
      assert forall k :: 0 <= k < |rest| ==> Key(ps[0]) <= Key(rest[k]) by {
        forall k | 0 <= k < |rest| ensures Key(ps[0]) <= Key(rest[k]) {
          if |ps| > 1 { assert Key(ps[0]) <= Key(ps[1]); }
        }
      }
    }
  }

  /** Insertion sort: ascending by number, a permutation of its input. */
  function SortByNumber(ps: seq<Panel>): (r: seq<Panel>)
    requires AllNumbered(ps)
    ensures AllNumbered(r) && SortedByNumber(r)
    ensures multiset(r) == multiset(ps) && |r| == |ps|
    decreases |ps|
  {
    if ps == [] then []
    else
      assert ps == [ps[0]] + ps[1..];
      InsertSorted(ps[0], SortByNumber(ps[1..]));
      Insert(ps[0], SortByNumber(ps[1..]))
  }

  /** The first panel of the sorted order carries the lowest number of all. */
  lemma SortedFirstIsLowest(ps: seq<Panel>, q: Panel)
    requires AllNumbered(ps) && |ps| > 0 && q in ps
    ensures q.number.Some? && Key(SortByNumber(ps)[0]) <= Key(q)
  {
    var r := SortByNumber(ps);
    assert q in multiset(r);
    var j :| 0 <= j < |r| && r[j] == q;
  }

  /** The panels carrying number `k`, in their order. */
  function WithNumber(k: Option<int>, ps: seq<Panel>): seq<Panel>
    decreases |ps|
  {
    if ps == [] then [] else (if ps[0].number == k then [ps[0]] else []) + WithNumber(k, ps[1..])
  }

  lemma {:induction false} InsertStable(p: Panel, ps: seq<Panel>, k: Option<int>)
    requires p.number.Some? && AllNumbered(ps)
    ensures WithNumber(k, Insert(p, ps)) == (if p.number == k then [p] else []) + WithNumber(k, ps)
    decreases |ps|
  {
    var r := Insert(p, ps);
    if ps == [] || Key(p) <= Key(ps[0]) {
      assert r[1..] == ps;
    } else {
      InsertStable(p, ps[1..], k);
      assert r[0] == ps[0] && r[1..] == Insert(p, ps[1..]);
    }
  }

  /** The sort is stable: panels with equal numbers keep their relative order. */
  lemma {:induction false} SortStable(ps: seq<Panel>, k: Option<int>)
    requires AllNumbered(ps)
    ensures WithNumber(k, SortByNumber(ps)) == WithNumber(k, ps)
    decreases |ps|
  {
    if ps != [] {
      SortStable(ps[1..], k);
      InsertStable(ps[0], SortByNumber(ps[1..]), k);
    }
  }
}
