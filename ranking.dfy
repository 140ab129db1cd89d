/** `list.sort(key=..., reverse=True)` as both pools use it: a stable sort in descending key
    order. Elements are positions into the pool and `keys[p]` is the key of position p. */
module Ranking {

  predicate InRange(s: seq<nat>, n: nat) {
    forall k :: 0 <= k < |s| ==> s[k] < n
  }

  /** Descending order of keys. */
  predicate SortedDesc(s: seq<nat>, keys: seq<real>)
    requires InRange(s, |keys|)
  {
    forall a, b :: 0 <= a < b < |s| ==> keys[s[a]] >= keys[s[b]]
  }

  /** Puts `p` in front of the first element whose key is not larger (so that equal keys keep
      their original order). */
  function Insert(p: nat, s: seq<nat>, keys: seq<real>): (r: seq<nat>)
    requires p < |keys| && InRange(s, |keys|)
    ensures multiset(r) == multiset(s) + multiset{p}
    ensures InRange(r, |keys|)
  {
    if s == [] then [p]
    else if keys[s[0]] > keys[p] then
      assert s == [s[0]] + s[1..];
      [s[0]] + Insert(p, s[1..], keys)
    else [p] + s
  }

  function SortDesc(s: seq<nat>, keys: seq<real>): (r: seq<nat>)
    requires InRange(s, |keys|)
    ensures multiset(r) == multiset(s)
    ensures InRange(r, |keys|)
  {
    if s == [] then []
    else
      assert s == [s[0]] + s[1..];
      Insert(s[0], SortDesc(s[1..], keys), keys)
  }

  /** Every key in `s` is at most `v`. */
  predicate AllAtMost(s: seq<nat>, keys: seq<real>, v: real)
    requires InRange(s, |keys|)
  {
    forall k :: 0 <= k < |s| ==> keys[s[k]] <= v
  }

  lemma SortedCons(x: nat, t: seq<nat>, keys: seq<real>)
    requires x < |keys| && InRange(t, |keys|) && SortedDesc(t, keys) && AllAtMost(t, keys, keys[x])
    ensures SortedDesc([x] + t, keys)
  {
    var r := [x] + t;
    forall a, b | 0 <= a < b < |r| ensures keys[r[a]] >= keys[r[b]] {
      assert r[b] == t[b - 1];
      if a > 0 { assert r[a] == t[a - 1]; }
    }
  }

  lemma SortedTail(s: seq<nat>, keys: seq<real>)
    requires s != [] && InRange(s, |keys|) && SortedDesc(s, keys)
    ensures SortedDesc(s[1..], keys) && AllAtMost(s[1..], keys, keys[s[0]])
  {
    var t := s[1..];
    forall a, b | 0 <= a < b < |t| ensures keys[t[a]] >= keys[t[b]] { assert t[a] == s[a + 1] && t[b] == s[b + 1]; }
    forall k | 0 <= k < |t| ensures keys[t[k]] <= keys[s[0]] { assert t[k] == s[k + 1]; }
  }

  lemma AllAtMostCons(x: nat, t: seq<nat>, keys: seq<real>, v: real)
    requires x < |keys| && InRange(t, |keys|) && AllAtMost(t, keys, v) && keys[x] <= v
    ensures AllAtMost([x] + t, keys, v)
  {
    var r := [x] + t;
    forall k | 0 <= k < |r| ensures keys[r[k]] <= v { if k > 0 { assert r[k] == t[k - 1]; } }
  }

  lemma AllAtMostTail(s: seq<nat>, keys: seq<real>, v: real)
    requires s != [] && InRange(s, |keys|) && AllAtMost(s, keys, v)
    ensures AllAtMost(s[1..], keys, v)
  {
    var t := s[1..];
    forall k | 0 <= k < |t| ensures keys[t[k]] <= v { assert t[k] == s[k + 1]; }
  }

  lemma {:induction false} InsertAtMost(p: nat, s: seq<nat>, keys: seq<real>, v: real)
    requires p < |keys| && InRange(s, |keys|) && AllAtMost(s, keys, v) && keys[p] <= v
    ensures AllAtMost(Insert(p, s, keys), keys, v)
  {
    if s == [] {
    } else if keys[s[0]] > keys[p] {
      AllAtMostTail(s, keys, v);
      InsertAtMost(p, s[1..], keys, v);
      AllAtMostCons(s[0], Insert(p, s[1..], keys), keys, v);
    } else {
      AllAtMostCons(p, s, keys, v);
    }
  }

  lemma {:induction false} InsertSorted(p: nat, s: seq<nat>, keys: seq<real>)
    requires p < |keys| && InRange(s, |keys|) && SortedDesc(s, keys)
    ensures SortedDesc(Insert(p, s, keys), keys)
  {
    if s == [] {
    } else if keys[s[0]] > keys[p] {
      SortedTail(s, keys);
      InsertSorted(p, s[1..], keys);
      InsertAtMost(p, s[1..], keys, keys[s[0]]);
      SortedCons(s[0], Insert(p, s[1..], keys), keys);
    } else {
      assert AllAtMost(s, keys, keys[p]) by {
        forall k | 0 <= k < |s| ensures keys[s[k]] <= keys[p] { if k > 0 { SortedTail(s, keys); assert s[1..][k - 1] == s[k]; } }
      }
      SortedCons(p, s, keys);
    }
  }

  /** The sort yields descending keys and a permutation of its input. */
  lemma {:induction false} SortDescCorrect(s: seq<nat>, keys: seq<real>)
    requires InRange(s, |keys|)
    ensures SortedDesc(SortDesc(s, keys), keys)
    ensures multiset(SortDesc(s, keys)) == multiset(s)
    ensures |SortDesc(s, keys)| == |s|
  {
    if s != [] {
      SortDescCorrect(s[1..], keys);
      InsertSorted(s[0], SortDesc(s[1..], keys), keys);
      assert |multiset(SortDesc(s, keys))| == |multiset(s)|;
    }
  }

  /** The pool rearranged in the order a sort of its positions gives; PermuteMultiset and
      SortedPermutationKeepsElements say what it keeps.
      Its ensures only spells out the comprehension pointwise, for the proofs that use it. */
  function Permute<T>(xs: seq<T>, order: seq<nat>): (r: seq<T>)
    requires InRange(order, |xs|)
    ensures |r| == |order| && forall k :: 0 <= k < |order| ==> r[k] == xs[order[k]]
  {
    seq(|order|, k requires 0 <= k < |order| => xs[order[k]])
  }

  lemma PermuteConcat<T>(xs: seq<T>, a: seq<nat>, b: seq<nat>)
    requires InRange(a, |xs|) && InRange(b, |xs|)
    ensures InRange(a + b, |xs|) && Permute(xs, a + b) == Permute(xs, a) + Permute(xs, b)
  {
  }

  /** Rearranging by two orders that hold the same positions gives the same multiset. */
  lemma {:induction false} PermuteMultiset<T>(xs: seq<T>, o1: seq<nat>, o2: seq<nat>)
    requires InRange(o1, |xs|) && InRange(o2, |xs|) && multiset(o1) == multiset(o2)
    ensures multiset(Permute(xs, o1)) == multiset(Permute(xs, o2))
    decreases |o1|
  {
    if o1 == [] {
      assert |multiset(o2)| == 0;
    } else {
      assert o1[0] in multiset(o2);
      var m :| 0 <= m < |o2| && o2[m] == o1[0];
      var rest := o2[..m] + o2[m + 1..];
      RemoveMatching(o1, o2, m);
      PermuteMultiset(xs, o1[1..], rest);
      PermuteSplit(xs, o2, m);
      PermuteConcat(xs, [o1[0]], o1[1..]);
      assert o1 == [o1[0]] + o1[1..];
      assert Permute(xs, [o1[0]]) == [xs[o1[0]]];
      assert multiset(Permute(xs, o1)) == multiset{xs[o1[0]]} + multiset(Permute(xs, o1[1..]));
    }
  }

  lemma RemoveMatching(o1: seq<nat>, o2: seq<nat>, m: nat)
    requires o1 != [] && multiset(o1) == multiset(o2) && m < |o2| && o2[m] == o1[0]
    ensures multiset(o1[1..]) == multiset(o2[..m] + o2[m + 1..])
  {
    var x := o1[0];
    assert o1 == [x] + o1[1..];
    assert o2 == o2[..m] + [x] + o2[m + 1..];
    assert multiset(o1[1..]) == multiset(o1) - multiset{x};
    assert multiset(o2[..m] + o2[m + 1..]) == multiset(o2) - multiset{x};
  }

  lemma PermuteSplit<T>(xs: seq<T>, o: seq<nat>, m: nat)
    requires InRange(o, |xs|) && m < |o|
    ensures InRange(o[..m] + o[m + 1..], |xs|)
    ensures multiset(Permute(xs, o)) == multiset{xs[o[m]]} + multiset(Permute(xs, o[..m] + o[m + 1..]))
  {
    var front, back := o[..m], o[m + 1..];
    var pf, pb := Permute(xs, front), Permute(xs, back);
    assert o == front + [o[m]] + back;
    PermuteConcat(xs, front + [o[m]], back);
    PermuteConcat(xs, front, [o[m]]);
    PermuteConcat(xs, front, back);
    assert Permute(xs, [o[m]]) == [xs[o[m]]];
    assert Permute(xs, o) == pf + [xs[o[m]]] + pb;
    assert Permute(xs, front + back) == pf + pb;
    assert multiset(pf + [xs[o[m]]] + pb) == multiset(pf) + multiset{xs[o[m]]} + multiset(pb);
  }

  /** Sorting the positions of a list and rearranging it by them keeps its elements. */
  lemma SortedPermutationKeepsElements<T>(xs: seq<T>, keys: seq<real>)
    requires |keys| == |xs|
    ensures multiset(Permute(xs, SortDesc(Positions(|xs|), keys))) == multiset(xs)
  {
    var p := Positions(|xs|);
    SortDescCorrect(p, keys);
    PermuteMultiset(xs, SortDesc(p, keys), p);
    assert Permute(xs, p) == xs;
  }

  /** x appears somewhere before y. */
  predicate Before(t: seq<nat>, x: nat, y: nat) {
    exists i, j :: 0 <= i < j < |t| && t[i] == x && t[j] == y
  }

  /** Inserting keeps the relative order of the elements already there. */
  lemma {:induction false} InsertKeepsBefore(p: nat, t: seq<nat>, keys: seq<real>, x: nat, y: nat)
    requires p < |keys| && InRange(t, |keys|) && Before(t, x, y)
    ensures Before(Insert(p, t, keys), x, y)
  {
    var i, j :| 0 <= i < j < |t| && t[i] == x && t[j] == y;
    var r := Insert(p, t, keys);
    if keys[t[0]] > keys[p] {
      var it := Insert(p, t[1..], keys);
      assert r == [t[0]] + it;
      if i == 0 {
        assert y in multiset(t[1..]) by { assert t[1..][j - 1] == y; }
        assert y in multiset(it);
        var q :| 0 <= q < |it| && it[q] == y;
        assert r[0] == x && r[q + 1] == y;
      } else {
        assert t[1..][i - 1] == x && t[1..][j - 1] == y;
        InsertKeepsBefore(p, t[1..], keys, x, y);
        var i', j' :| 0 <= i' < j' < |it| && it[i'] == x && it[j'] == y;
        assert r[i' + 1] == x && r[j' + 1] == y;
      }
    } else {
      assert r == [p] + t;
      assert r[i + 1] == x && r[j + 1] == y;
    }
  }

  /** An inserted element lands before every element whose key is not larger. */
  lemma {:induction false} InsertBeforeNotLarger(p: nat, t: seq<nat>, keys: seq<real>, y: nat)
    requires p < |keys| && InRange(t, |keys|) && y in t && y < |keys| && keys[y] <= keys[p]
    ensures Before(Insert(p, t, keys), p, y)
  {
    var r := Insert(p, t, keys);
    var m :| 0 <= m < |t| && t[m] == y;
    if keys[t[0]] > keys[p] {
      assert m > 0;
      assert t[1..][m - 1] == y;
      InsertBeforeNotLarger(p, t[1..], keys, y);
      var it := Insert(p, t[1..], keys);
      var i, j :| 0 <= i < j < |it| && it[i] == p && it[j] == y;
      assert r == [t[0]] + it;
      assert r[i + 1] == p && r[j + 1] == y;
    } else {
      assert r == [p] + t;
      assert r[0] == p && r[m + 1] == y;
    }
  }

  /** The sort is stable: of two elements with equal keys, the earlier one stays earlier. */
  lemma {:induction false} SortDescStable(s: seq<nat>, keys: seq<real>, i: nat, j: nat)
    requires InRange(s, |keys|) && i < j < |s| && keys[s[i]] == keys[s[j]]
    ensures Before(SortDesc(s, keys), s[i], s[j])
  {
    var t := s[1..];
    var st := SortDesc(t, keys);
    SortDescCorrect(t, keys);
    assert t[j - 1] == s[j];
    if i == 0 {
      assert s[j] in multiset(t);
      assert s[j] in multiset(st);
      InsertBeforeNotLarger(s[0], st, keys, s[j]);
    } else {
      assert t[i - 1] == s[i];
      SortDescStable(t, keys, i - 1, j - 1);
      InsertKeepsBefore(s[0], st, keys, s[i], s[j]);
    }
  }

  /** The positions 0 .. n-1 in pool order. */
  function Positions(n: nat): (r: seq<nat>)
    ensures |r| == n && InRange(r, n)
    ensures forall k :: 0 <= k < n ==> r[k] == k
  {
    seq(n, k => k)
  }

  /** Sorting a list whose keys are all equal leaves it as it is (the sort is stable). */
  lemma {:induction false} SortEqualKeysKeepsOrder(s: seq<nat>, keys: seq<real>, v: real)
    requires InRange(s, |keys|)
    requires forall k :: 0 <= k < |s| ==> keys[s[k]] == v
    ensures SortDesc(s, keys) == s
  {
    if s != [] {
      SortEqualKeysKeepsOrder(s[1..], keys, v);
      if |s| > 1 {
        assert keys[s[1..][0]] == v;
      }
    }
  }

  /** Sorting a list that is already in descending key order leaves it as it is. */
  lemma {:induction false} SortSortedKeepsOrder(s: seq<nat>, keys: seq<real>)
    requires InRange(s, |keys|) && SortedDesc(s, keys)
    ensures SortDesc(s, keys) == s
  {
    if s != [] {
      SortedTail(s, keys);
      SortSortedKeepsOrder(s[1..], keys);
      if |s| > 1 {
        assert s[1..][0] == s[1];
      }
      assert [s[0]] + s[1..] == s;
    }
  }
}
