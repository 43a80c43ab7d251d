/**
 * `lst.sort(key=lambda e: e[1], reverse=True)` followed by `lst[:k]`, as both
 * the similarity search and the diagnostic engine use them. Python's sort is
 * stable, also with `reverse=True`: entries with equal scores keep their order.
 */
module Ranking {

  /** Non-increasing by score. */
  predicate SortedDesc<T>(s: seq<(T, real)>) {
    forall i, j :: 0 <= i < j < |s| ==> s[i].1 >= s[j].1
  }

  /** The entries of `s` whose score is exactly `v`, in their order in `s`. */
  function WithScore<T>(s: seq<(T, real)>, v: real): seq<(T, real)> {
    if s == [] then []
    else WithScore(s[..|s| - 1], v) + (if s[|s| - 1].1 == v then [s[|s| - 1]] else [])
  }

  /** Places `x` after every entry of the sorted `t` whose score is at least `x`'s. */
  function InsertDesc<T>(t: seq<(T, real)>, x: (T, real)): seq<(T, real)> {
    if t == [] || t[|t| - 1].1 >= x.1 then t + [x]
    else InsertDesc(t[..|t| - 1], x) + [t[|t| - 1]]
  }

  /** The stable sort by descending score. */
  function SortDesc<T>(s: seq<(T, real)>): seq<(T, real)> {
    if s == [] then [] else InsertDesc(SortDesc(s[..|s| - 1]), s[|s| - 1])
  }

  /** `s[:k]` in Python: a negative `k` drops `-k` entries from the end. */
  function Take<T>(s: seq<T>, k: int): (r: seq<T>)
    ensures |r| <= |s| && r == s[..|r|]
    ensures k >= 0 ==> |r| == if k < |s| then k else |s|
    ensures k < 0 ==> |r| == if |s| + k > 0 then |s| + k else 0
  {
    if k >= 0 then (if k < |s| then s[..k] else s)
    else if |s| + k > 0 then s[..|s| + k] else []
  }

  /** The index of the first entry with the greatest score. */
  function FirstMax<T>(s: seq<(T, real)>): (m: nat)
    requires s != []
    ensures m < |s|
    ensures forall j :: 0 <= j < |s| ==> s[j].1 <= s[m].1
    ensures forall j :: 0 <= j < m ==> s[j].1 < s[m].1
  {
    if |s| == 1 then 0
    else
      var p := FirstMax(s[..|s| - 1]);
      if s[|s| - 1].1 > s[p].1 then |s| - 1 else p
  }

  lemma {:induction false} InsertDescMembers<T>(t: seq<(T, real)>, x: (T, real))
    ensures multiset(InsertDesc(t, x)) == multiset(t) + multiset{x}
    ensures forall e :: e in InsertDesc(t, x) <==> e in t || e == x
  {
    if t != [] && t[|t| - 1].1 < x.1 {
      var init := t[..|t| - 1];
      assert t == init + [t[|t| - 1]];
      InsertDescMembers(init, x);
    }
  }

  lemma {:induction false} InsertDescBound<T>(t: seq<(T, real)>, x: (T, real), m: real)
    requires forall i :: 0 <= i < |t| ==> t[i].1 >= m
    requires x.1 >= m
    ensures forall i :: 0 <= i < |InsertDesc(t, x)| ==> InsertDesc(t, x)[i].1 >= m
  {
    if t != [] && t[|t| - 1].1 < x.1 {
      InsertDescBound(t[..|t| - 1], x, m);
    }
  }

  lemma {:induction false} InsertDescSorted<T>(t: seq<(T, real)>, x: (T, real))
    requires SortedDesc(t)
    ensures SortedDesc(InsertDesc(t, x))
    ensures multiset(InsertDesc(t, x)) == multiset(t) + multiset{x}
  {
    InsertDescMembers(t, x);
    if t != [] && t[|t| - 1].1 < x.1 {
      var last := t[|t| - 1];
      var init := t[..|t| - 1];
      InsertDescSorted(init, x);
      var r := InsertDesc(init, x);
      InsertDescBound(init, x, last.1);
    }
  }

  /** The sort yields a non-increasing permutation of its input. */
  lemma {:induction false} SortDescSorted<T>(s: seq<(T, real)>)
    ensures SortedDesc(SortDesc(s))
    ensures multiset(SortDesc(s)) == multiset(s)
    ensures |SortDesc(s)| == |s|
  {
    if s != [] {
      var init := s[..|s| - 1];
      SortDescSorted(init);
      InsertDescSorted(SortDesc(init), s[|s| - 1]);
      assert s == init + [s[|s| - 1]];
      assert |SortDesc(s)| == |multiset(SortDesc(s))|;
    }
  }

  lemma {:induction false} WithScoreAppend<T>(a: seq<(T, real)>, b: seq<(T, real)>, v: real)
    ensures WithScore(a + b, v) == WithScore(a, v) + WithScore(b, v)
  {
    if b == [] {
      assert a + b == a;
    } else {
      var bi := b[..|b| - 1];
      WithScoreAppend(a, bi, v);
      assert (a + b)[..|a + b| - 1] == a + bi;
      assert (a + b)[|a + b| - 1] == b[|b| - 1];
    }
  }

  lemma {:induction false} InsertDescStable<T>(t: seq<(T, real)>, x: (T, real), v: real)
    requires SortedDesc(t)
    ensures WithScore(InsertDesc(t, x), v) == WithScore(t, v) + (if x.1 == v then [x] else [])
  {
    if t == [] || t[|t| - 1].1 >= x.1 {
      assert (t + [x])[..|t|] == t;
    } else {
      var last := t[|t| - 1];
      var init := t[..|t| - 1];
      InsertDescStable(init, x, v);
      var r := InsertDesc(init, x);
      assert (r + [last])[..|r|] == r;
    }
  }

  /** Stability: for every score, the entries with that score keep their input order. */
  lemma {:induction false} SortDescStable<T>(s: seq<(T, real)>, v: real)
    ensures WithScore(SortDesc(s), v) == WithScore(s, v)
  {
    if s != [] {
      var init := s[..|s| - 1];
      SortDescStable(init, v);
      SortDescSorted(init);
      InsertDescStable(SortDesc(init), s[|s| - 1], v);
    }
  }

  lemma {:induction false} InsertDescHead<T>(t: seq<(T, real)>, x: (T, real))
    requires t != [] && SortedDesc(t)
    ensures InsertDesc(t, x)[0] == if x.1 > t[0].1 then x else t[0]
  {
    if t[|t| - 1].1 >= x.1 {
    } else if |t| > 1 {
      var init := t[..|t| - 1];
      InsertDescHead(init, x);
    }
  }

  /** The first entry after sorting is the earliest entry with the greatest score. */
  lemma {:induction false} SortDescHead<T>(s: seq<(T, real)>)
    requires s != []
    ensures SortDesc(s) != [] && SortDesc(s)[0] == s[FirstMax(s)]
  {
    SortDescSorted(s);
    if |s| > 1 {
      var init := s[..|s| - 1];
      SortDescHead(init);
      SortDescSorted(init);
      InsertDescHead(SortDesc(init), s[|s| - 1]);
    }
  }

  /** No item appears twice. */
  ghost predicate ClesDistinctes<T>(s: seq<(T, real)>) {
    forall i, j :: 0 <= i < j < |s| ==> s[i].0 != s[j].0
  }

  lemma {:induction false} InsertDescAvoid<T>(t: seq<(T, real)>, x: (T, real), k: T)
    requires forall i :: 0 <= i < |t| ==> t[i].0 != k
    requires x.0 != k
    ensures forall i :: 0 <= i < |InsertDesc(t, x)| ==> InsertDesc(t, x)[i].0 != k
  {
    if t != [] && t[|t| - 1].1 < x.1 {
      InsertDescAvoid(t[..|t| - 1], x, k);
    }
  }

  lemma {:induction false} InsertDescKeysIn<T>(t: seq<(T, real)>, x: (T, real), keys: set<T>)
    requires forall i :: 0 <= i < |t| ==> t[i].0 in keys
    requires x.0 in keys
    ensures forall i :: 0 <= i < |InsertDesc(t, x)| ==> InsertDesc(t, x)[i].0 in keys
  {
    if t != [] && t[|t| - 1].1 < x.1 {
      InsertDescKeysIn(t[..|t| - 1], x, keys);
    }
  }

  lemma {:induction false} InsertDescDistinct<T>(t: seq<(T, real)>, x: (T, real))
    requires ClesDistinctes(t)
    requires forall i :: 0 <= i < |t| ==> t[i].0 != x.0
    ensures ClesDistinctes(InsertDesc(t, x))
  {
    if t != [] && t[|t| - 1].1 < x.1 {
      var init, last := t[..|t| - 1], t[|t| - 1];
      InsertDescDistinct(init, x);
      InsertDescAvoid(init, x, last.0);
    }
  }

  /** What sorting keeps: every item stays in a given key set, above a given score, or away from a key. */
  lemma {:induction false} SortDescKeeps<T>(s: seq<(T, real)>, keys: set<T>, m: real)
    ensures (forall i :: 0 <= i < |s| ==> s[i].0 in keys)
        ==> forall i :: 0 <= i < |SortDesc(s)| ==> SortDesc(s)[i].0 in keys
    ensures (forall i :: 0 <= i < |s| ==> s[i].1 >= m)
        ==> forall i :: 0 <= i < |SortDesc(s)| ==> SortDesc(s)[i].1 >= m
  {
    if s != [] {
      var init, x := s[..|s| - 1], s[|s| - 1];
      SortDescKeeps(init, keys, m);
      if forall i :: 0 <= i < |s| ==> s[i].0 in keys {
        InsertDescKeysIn(SortDesc(init), x, keys);
      }
      if forall i :: 0 <= i < |s| ==> s[i].1 >= m {
        InsertDescBound(SortDesc(init), x, m);
      }
    }
  }

  lemma {:induction false} SortDescAvoid<T>(s: seq<(T, real)>, k: T)
    requires forall i :: 0 <= i < |s| ==> s[i].0 != k
    ensures forall i :: 0 <= i < |SortDesc(s)| ==> SortDesc(s)[i].0 != k
  {
    if s != [] {
      SortDescAvoid(s[..|s| - 1], k);
      InsertDescAvoid(SortDesc(s[..|s| - 1]), s[|s| - 1], k);
    }
  }

  /** Sorting never duplicates an item. */
  lemma {:induction false} SortDescDistinct<T>(s: seq<(T, real)>)
    requires ClesDistinctes(s)
    ensures ClesDistinctes(SortDesc(s))
  {
    if s != [] {
      var init, x := s[..|s| - 1], s[|s| - 1];
      SortDescDistinct(init);
      SortDescAvoid(init, x.0);
      InsertDescDistinct(SortDesc(init), x);
    }
  }
}
