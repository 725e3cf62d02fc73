/** Python's list sort: stable, by a total preorder (`key=` and `reverse=True` both keep the
    input order of elements that compare equal). */
module Sorting {

  ghost predicate TotalPreorder<T(!new)>(leq: (T, T) -> bool) {
    && (forall x, y :: leq(x, y) || leq(y, x))
    && (forall x, y, z :: leq(x, y) && leq(y, z) ==> leq(x, z))
  }

  ghost predicate Sorted<T>(leq: (T, T) -> bool, s: seq<T>) {
    forall i, j :: 0 <= i < j < |s| ==> leq(s[i], s[j])
  }

  function Insert<T>(leq: (T, T) -> bool, x: T, s: seq<T>): (r: seq<T>)
    ensures |r| == |s| + 1
  {
    if s == [] || leq(x, s[0]) then [x] + s else [s[0]] + Insert(leq, x, s[1..])
  }

  function StableSort<T>(leq: (T, T) -> bool, s: seq<T>): (r: seq<T>)
    ensures |r| == |s|
  {
    if s == [] then [] else Insert(leq, s[0], StableSort(leq, s[1..]))
  }

  function Take<T>(s: seq<T>, k: nat): seq<T> {
    if |s| <= k then s else s[..k]
  }

  /** The elements of s that compare equal to x, in the order of s. */
  ghost function Class<T>(leq: (T, T) -> bool, x: T, s: seq<T>): seq<T> {
    if s == [] then []
    else (if leq(x, s[0]) && leq(s[0], x) then [s[0]] else []) + Class(leq, x, s[1..])
  }

  // ---------------------------------------------------------------- sorted, permutation, stable

  lemma {:induction false} InsertPermutes<T>(leq: (T, T) -> bool, x: T, s: seq<T>)
    ensures multiset(Insert(leq, x, s)) == multiset(s) + multiset{x}
  {
    if s != [] {
      assert s == [s[0]] + s[1..];
      if !leq(x, s[0]) {
        InsertPermutes(leq, x, s[1..]);
      }
    }
  }

  lemma {:induction false} SortPermutes<T>(leq: (T, T) -> bool, s: seq<T>)
    ensures multiset(StableSort(leq, s)) == multiset(s)
  {
    if s != [] {
      SortPermutes(leq, s[1..]);
      InsertPermutes(leq, s[0], StableSort(leq, s[1..]));
      assert s == [s[0]] + s[1..];
    }
  }

  lemma SameElements<T>(s: seq<T>, t: seq<T>)
    requires multiset(s) == multiset(t)
    ensures forall x :: x in s <==> x in t
  {
    forall x
      ensures x in s <==> x in t
    {
      assert x in s <==> x in multiset(s);
    }
  }

  lemma {:induction false} InsertSorted<T(!new)>(leq: (T, T) -> bool, x: T, s: seq<T>)
    requires TotalPreorder(leq) && Sorted(leq, s)
    ensures Sorted(leq, Insert(leq, x, s))
  {
    if s != [] && !leq(x, s[0]) {
      InsertSorted(leq, x, s[1..]);
      InsertPermutes(leq, x, s[1..]);
      var r := Insert(leq, x, s[1..]);
      forall j | 0 <= j < |r|
        ensures leq(s[0], r[j])
      {
        assert r[j] in multiset(r);
        if r[j] != x {
          assert r[j] in s[1..];
        }
      }
    }
  }

  lemma {:induction false} SortSorted<T(!new)>(leq: (T, T) -> bool, s: seq<T>)
    requires TotalPreorder(leq)
    ensures Sorted(leq, StableSort(leq, s))
  {
    if s != [] {
      SortSorted(leq, s[1..]);
      InsertSorted(leq, s[0], StableSort(leq, s[1..]));
    }
  }

  lemma {:induction false} InsertStable<T(!new)>(leq: (T, T) -> bool, x: T, s: seq<T>, y: T)
    requires TotalPreorder(leq)
    ensures Class(leq, y, Insert(leq, x, s)) == Class(leq, y, [x] + s)
  {
    assert ([x] + s)[1..] == s;
    if s != [] && !leq(x, s[0]) {
      InsertStable(leq, x, s[1..], y);
      assert ([x] + s[1..])[1..] == s[1..];
    }
  }

  lemma {:induction false} SortStable<T(!new)>(leq: (T, T) -> bool, s: seq<T>, y: T)
    requires TotalPreorder(leq)
    ensures Class(leq, y, StableSort(leq, s)) == Class(leq, y, s)
  {
    if s != [] {
      SortStable(leq, s[1..], y);
      InsertStable(leq, s[0], StableSort(leq, s[1..]), y);
      assert ([s[0]] + StableSort(leq, s[1..]))[1..] == StableSort(leq, s[1..]);
    }
  }

  lemma {:induction false} ClassMember<T(!new)>(leq: (T, T) -> bool, x: T, s: seq<T>)
    requires TotalPreorder(leq) && Class(leq, x, s) != []
    ensures exists i :: 0 <= i < |s| && leq(s[i], x)
  {
    if !(leq(x, s[0]) && leq(s[0], x)) {
      ClassMember(leq, x, s[1..]);
      var i :| 0 <= i < |s[1..]| && leq(s[1..][i], x);
      assert s[i + 1] == s[1..][i];
    }
  }

  lemma HeadInClass<T(!new)>(leq: (T, T) -> bool, s: seq<T>)
    requires TotalPreorder(leq) && s != []
    ensures Class(leq, s[0], s) != [] && Class(leq, s[0], s)[0] == s[0]
  {
  }

  ghost predicate SameClasses<T(!new)>(leq: (T, T) -> bool, s: seq<T>, t: seq<T>) {
    forall x :: Class(leq, x, s) == Class(leq, x, t)
  }

  lemma SameHeads<T(!new)>(leq: (T, T) -> bool, s: seq<T>, t: seq<T>)
    requires TotalPreorder(leq) && Sorted(leq, s) && Sorted(leq, t) && SameClasses(leq, s, t)
    ensures s == [] <==> t == []
    ensures s != [] && t != [] ==> s[0] == t[0]
  {
    if s != [] {
      HeadInClass(leq, s);
      ClassMember(leq, s[0], t);
    }
    if t != [] {
      HeadInClass(leq, t);
      ClassMember(leq, t[0], s);
    }
  }

  lemma SameTails<T(!new)>(leq: (T, T) -> bool, s: seq<T>, t: seq<T>)
    requires SameClasses(leq, s, t) && s != [] && t != [] && s[0] == t[0]
    ensures SameClasses(leq, s[1..], t[1..])
  {
    forall x
      ensures Class(leq, x, s[1..]) == Class(leq, x, t[1..])
    {
      var head := if leq(x, s[0]) && leq(s[0], x) then [s[0]] else [];
      assert Class(leq, x, s)[|head|..] == Class(leq, x, s[1..]);
      assert Class(leq, x, t)[|head|..] == Class(leq, x, t[1..]);
    }
  }

  /** Sorted and stable together leave one possible result, so every correct stable sort returns
      what StableSort returns. */
  lemma {:induction false} StableUnique<T(!new)>(leq: (T, T) -> bool, s: seq<T>, t: seq<T>)
    requires TotalPreorder(leq) && Sorted(leq, s) && Sorted(leq, t) && SameClasses(leq, s, t)
    ensures s == t
  {
    SameHeads(leq, s, t);
    if s != [] {
      SameTails(leq, s, t);
      StableUnique(leq, s[1..], t[1..]);
      assert s == [s[0]] + s[1..] && t == [t[0]] + t[1..];
    }
  }

  lemma {:induction false} SortedIsFixed<T>(leq: (T, T) -> bool, s: seq<T>)
    requires Sorted(leq, s)
    ensures StableSort(leq, s) == s
  {
    if s != [] {
      SortedIsFixed(leq, s[1..]);
      assert |s| > 1 ==> leq(s[0], s[1]);
    }
  }

  // ---------------------------------------------------------------- two-stage top-k

  function Merge<T>(leq: (T, T) -> bool, xs: seq<T>, ys: seq<T>): (r: seq<T>)
    ensures |r| == |xs| + |ys|
  {
    if xs == [] then ys
    else if ys == [] then xs
    else if leq(xs[0], ys[0]) then [xs[0]] + Merge(leq, xs[1..], ys)
    else [ys[0]] + Merge(leq, xs, ys[1..])
  }

  lemma {:induction false} InsertMerge<T(!new)>(leq: (T, T) -> bool, a: T, xs: seq<T>, ys: seq<T>)
    requires TotalPreorder(leq)
    ensures Insert(leq, a, Merge(leq, xs, ys)) == Merge(leq, Insert(leq, a, xs), ys)
    decreases |xs| + |ys|
  {
    var m := Merge(leq, xs, ys);
    var i := Insert(leq, a, xs);
    if ys == [] {
    } else if xs == [] {
      if !leq(a, ys[0]) {
        InsertMerge(leq, a, xs, ys[1..]);
      }
      assert i[1..] == [];
    } else if leq(xs[0], ys[0]) {
      assert m[1..] == Merge(leq, xs[1..], ys);
      if leq(a, xs[0]) {
        assert i[1..] == xs;
        assert leq(a, ys[0]);
      } else {
        InsertMerge(leq, a, xs[1..], ys);
        assert i[1..] == Insert(leq, a, xs[1..]);
      }
    } else {
      assert m[1..] == Merge(leq, xs, ys[1..]);
      InsertMerge(leq, a, xs, ys[1..]);
      if leq(a, xs[0]) {
        assert i[1..] == xs;
      } else {
        assert leq(ys[0], xs[0]);
        assert i[0] == xs[0];
      }
    }
  }

  lemma {:induction false} SortConcat<T(!new)>(leq: (T, T) -> bool, xs: seq<T>, ys: seq<T>)
    requires TotalPreorder(leq)
    ensures StableSort(leq, xs + ys) == Merge(leq, StableSort(leq, xs), StableSort(leq, ys))
  {
    if xs == [] {
      assert xs + ys == ys;
    } else {
      SortConcat(leq, xs[1..], ys);
      assert (xs + ys)[1..] == xs[1..] + ys;
      InsertMerge(leq, xs[0], StableSort(leq, xs[1..]), StableSort(leq, ys));
    }
  }

  lemma TakeCons<T>(x: T, s: seq<T>, k: nat)
    requires k > 0
    ensures Take([x] + s, k) == [x] + Take(s, k - 1)
  {
  }

  lemma {:induction false} TakeMerge<T>(leq: (T, T) -> bool, xs: seq<T>, ys: seq<T>, k: nat)
    ensures Take(Merge(leq, xs, Take(ys, k)), k) == Take(Merge(leq, xs, ys), k)
    decreases |xs| + |ys|, 0
  {
    if k == 0 || xs == [] || ys == [] {
    } else if leq(xs[0], ys[0]) {
      TakeMergeLeft(leq, xs[1..], ys, k);
      TakeCons(xs[0], Merge(leq, xs[1..], Take(ys, k)), k);
      TakeCons(xs[0], Merge(leq, xs[1..], ys), k);
    } else {
      TakeMerge(leq, xs, ys[1..], k - 1);
      assert Take(ys, k)[1..] == Take(ys[1..], k - 1);
      TakeCons(ys[0], Merge(leq, xs, Take(ys[1..], k - 1)), k);
      TakeCons(ys[0], Merge(leq, xs, ys[1..]), k);
    }
  }

  /** The head came from the left, so one more of the right than needed is still available. */
  lemma {:induction false} TakeMergeLeft<T>(leq: (T, T) -> bool, xs: seq<T>, ys: seq<T>, k: nat)
    requires k > 0
    ensures Take(Merge(leq, xs, Take(ys, k)), k - 1) == Take(Merge(leq, xs, ys), k - 1)
    decreases |xs| + |ys|, 1
  {
    TakeMerge(leq, xs, ys, k);
    assert forall s: seq<T> :: Take(Take(s, k), k - 1) == Take(s, k - 1);
    var a, b := Merge(leq, xs, Take(ys, k)), Merge(leq, xs, ys);
    assert Take(Take(a, k), k - 1) == Take(a, k - 1) && Take(Take(b, k), k - 1) == Take(b, k - 1);
  }

  /** Cutting one part to its k best before joining does not change the k best of the whole. */
  lemma TwoStageTopK<T(!new)>(leq: (T, T) -> bool, xs: seq<T>, ys: seq<T>, k: nat)
    requires TotalPreorder(leq)
    ensures Take(StableSort(leq, xs + Take(StableSort(leq, ys), k)), k)
         == Take(StableSort(leq, xs + ys), k)
  {
    var best := Take(StableSort(leq, ys), k);
    SortSorted(leq, ys);
    SortedIsFixed(leq, best);
    SortConcat(leq, xs, best);
    SortConcat(leq, xs, ys);
    TakeMerge(leq, StableSort(leq, xs), StableSort(leq, ys), k);
  }

  /** What is cut does not come before what is kept. */
  lemma KeptBeforeCut<T(!new)>(leq: (T, T) -> bool, s: seq<T>, k: nat, kept: T, cut: T)
    requires TotalPreorder(leq) && kept in Take(StableSort(leq, s), k)
    requires cut in s && cut !in Take(StableSort(leq, s), k)
    ensures leq(kept, cut)
  {
    var sorted := StableSort(leq, s);
    SortSorted(leq, s);
    SortPermutes(leq, s);
    SameElements(sorted, s);
    var i :| 0 <= i < |Take(sorted, k)| && Take(sorted, k)[i] == kept;
    var j :| 0 <= j < |sorted| && sorted[j] == cut;
    assert i < |Take(sorted, k)| <= j by {
      assert forall n :: 0 <= n < |Take(sorted, k)| ==> Take(sorted, k)[n] == sorted[n];
    }
  }

  /** Sorting and cutting keeps the best: kept and cut elements are all there, in order, and those
      that compare equal in the order they had. */
  lemma TakeBest<T(!new)>(leq: (T, T) -> bool, s: seq<T>, k: nat)
    requires TotalPreorder(leq)
    ensures var kept := Take(StableSort(leq, s), k);
            var cut := StableSort(leq, s)[|kept|..];
            && multiset(kept + cut) == multiset(s)
            && Sorted(leq, kept + cut) && SameClasses(leq, kept + cut, s)
            && |kept| <= k && (cut != [] ==> |kept| == k)
  {
    var sorted := StableSort(leq, s);
    SortSorted(leq, s);
    SortPermutes(leq, s);
    forall x
      ensures Class(leq, x, sorted) == Class(leq, x, s)
    {
      SortStable(leq, s, x);
    }
    assert Take(sorted, k) + sorted[|Take(sorted, k)|..] == sorted;
  }
}
