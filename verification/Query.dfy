/** `orderBy: <key> desc` with `take: k`, as the store answers it: any tie order is allowed. */
module Query {
  import opened Base

  function Min(a: int, b: int): int {
    if a < b then a else b
  }

  ghost predicate Distinct(rows: seq<Id>) {
    forall i, j :: 0 <= i < j < |rows| ==> rows[i] != rows[j]
  }

  ghost predicate Descending(key: map<Id, Time>, rows: seq<Id>)
    requires forall x :: x in rows ==> x in key
  {
    forall i, j :: 0 <= i < j < |rows| ==> key[rows[i]] >= key[rows[j]]
  }

  function Elements(rows: seq<Id>): set<Id> {
    set x | x in rows
  }

  /** `rows` is the first `k` entries of some arrangement of `s` in descending `key` order. */
  ghost predicate Top(s: set<Id>, key: map<Id, Time>, k: nat, rows: seq<Id>) {
    && s <= key.Keys
    && Elements(rows) <= s
    && Distinct(rows)
    && |rows| == Min(k, |s|)
    && Descending(key, rows)
    && (forall x, y :: x in s && x !in rows && y in rows ==> key[x] <= key[y])
  }

  lemma {:induction false} DistinctCount(rows: seq<Id>)
    requires Distinct(rows)
    ensures |Elements(rows)| == |rows|
  {
    if rows != [] {
      var front, last := rows[..|rows| - 1], rows[|rows| - 1];
      DistinctCount(front);
      assert Elements(rows) == Elements(front) + {last};
      assert last !in front;
    }
  }

  lemma SubsetCount(a: set<Id>, b: set<Id>)
    requires a <= b
    ensures |b - a| == |b| - |a|
  {
    assert b == a + (b - a);
  }

  /** What a page leaves behind, counted. */
  lemma TopLeaves(s: set<Id>, key: map<Id, Time>, k: nat, rows: seq<Id>)
    requires Top(s, key, k, rows)
    ensures |s - Elements(rows)| == |s| - |rows|
    ensures |s| <= k ==> Elements(rows) == s
  {
    DistinctCount(rows);
    SubsetCount(Elements(rows), s);
  }

  method Newest(s: set<Id>, key: map<Id, Time>) returns (best: Id)
    requires s != {} && s <= key.Keys
    ensures best in s && forall x :: x in s ==> key[x] <= key[best]
  {
    best :| best in s;
    var left := s - {best};
    while left != {}
      invariant left <= s && best in s
      invariant forall x :: x in s - left ==> key[x] <= key[best]
      decreases left
    {
      var x :| x in left;
      if key[x] > key[best] {
        best := x;
      }
      left := left - {x};
    }
  }

  /** The store really has such an answer for every set: repeatedly take a row with the largest key. */
  method FindTop(s: set<Id>, key: map<Id, Time>, k: nat) returns (rows: seq<Id>)
    requires s <= key.Keys
    ensures Top(s, key, k, rows)
  {
    rows := [];
    var left := s;
    while |rows| < k && left != {}
      invariant left <= s && Elements(rows) == s - left && Distinct(rows)
      invariant forall x :: x in rows <==> x in s - left
      invariant |rows| + |left| == |s| && |rows| <= k
      invariant Descending(key, rows)
      invariant forall x, y :: x in left && y in rows ==> key[x] <= key[y]
      decreases |left|
    {
      var best := Newest(left, key);
      ghost var before := rows;
      rows := rows + [best];
      assert forall x :: x in rows <==> x in before || x == best;
      left := left - {best};
    }
  }

  // ---- taking pages off a pool until nothing is left ----

  ghost predicate Takes(pool: set<Id>, rest: set<Id>, page: seq<Id>, k: nat) {
    && Elements(page) <= pool && Distinct(page)
    && |page| == Min(k, |pool|)
    && rest == pool - Elements(page)
  }

  ghost predicate Draining(pools: seq<set<Id>>, pages: seq<seq<Id>>, k: nat) {
    && |pools| == |pages| + 1
    && forall i :: 0 <= i < |pages| ==> Takes(pools[i], pools[i + 1], pages[i], k)
  }

  function Flat(pages: seq<seq<Id>>): seq<Id> {
    if pages == [] then [] else Flat(pages[..|pages| - 1]) + pages[|pages| - 1]
  }

  /** What is left after `i` pages of size `k`. */
  lemma {:induction false} PoolAfter(pools: seq<set<Id>>, pages: seq<seq<Id>>, k: nat, i: nat)
    requires Draining(pools, pages, k) && i <= |pages|
    ensures |pools[i]| == |pools[0]| - Min(|pools[0]|, k * i)
  {
    if i > 0 {
      PoolAfter(pools, pages, k, i - 1);
      assert Takes(pools[i - 1], pools[i], pages[i - 1], k);
      DistinctCount(pages[i - 1]);
      SubsetCount(Elements(pages[i - 1]), pools[i - 1]);
      assert k * i == k * (i - 1) + k;
    }
  }

  lemma JoinDisjoint(front: seq<Id>, last: seq<Id>)
    requires Distinct(front) && Distinct(last) && Elements(front) !! Elements(last)
    ensures Distinct(front + last) && Elements(front + last) == Elements(front) + Elements(last)
  {
    forall i, j | 0 <= i < |front| && 0 <= j < |last| ensures front[i] != last[j] {
      assert front[i] in Elements(front) && last[j] in Elements(last);
    }
  }

  lemma {:induction false} DrainedSoFar(pools: seq<set<Id>>, pages: seq<seq<Id>>, k: nat, n: nat)
    requires Draining(pools, pages, k) && n <= |pages|
    ensures pools[n] <= pools[0]
    ensures Distinct(Flat(pages[..n])) && Elements(Flat(pages[..n])) == pools[0] - pools[n]
  {
    if n > 0 {
      DrainedSoFar(pools, pages, k, n - 1);
      assert Takes(pools[n - 1], pools[n], pages[n - 1], k);
      assert pages[..n][..n - 1] == pages[..n - 1];
      JoinDisjoint(Flat(pages[..n - 1]), pages[n - 1]);
    }
  }

  /** The pages together repeat nothing, and show everything once they have room for it. */
  lemma DrainsInOrder(pools: seq<set<Id>>, pages: seq<seq<Id>>, k: nat)
    requires Draining(pools, pages, k)
    ensures Distinct(Flat(pages)) && Elements(Flat(pages)) <= pools[0]
    ensures |Flat(pages)| == Min(|pools[0]|, k * |pages|)
    ensures |pools[0]| <= k * |pages| ==> Elements(Flat(pages)) == pools[0]
  {
    DrainedSoFar(pools, pages, k, |pages|);
    assert pages[..|pages|] == pages;
    DistinctCount(Flat(pages));
    SubsetCount(pools[|pages|], pools[0]);
    PoolAfter(pools, pages, k, |pages|);
  }
}
