/** List idioms that several services share: keeping the first of each key, and keeping what a
    check lets pass. */
module Lists {
  import opened Sorting
  import opened Text

  // ---------------------------------------------------------------- first per key

  predicate HasKey<F, K(==)>(key: F -> K, fs: seq<F>, k: K) {
    exists i :: 0 <= i < |fs| && key(fs[i]) == k
  }

  /** Of the elements with the same key, the first. */
  function FirstPerKey<F, K(==)>(key: F -> K, fs: seq<F>): seq<F> {
    if fs == [] then []
    else
      var before, last := FirstPerKey(key, fs[..|fs| - 1]), fs[|fs| - 1];
      if HasKey(key, before, key(last)) then before else before + [last]
  }

  ghost predicate DistinctBy<F, K>(key: F -> K, fs: seq<F>) {
    forall i, j :: 0 <= i < j < |fs| ==> key(fs[i]) != key(fs[j])
  }

  /** fs[i] is the first with its key. */
  ghost predicate FirstAt<F, K>(key: F -> K, fs: seq<F>, i: int) {
    0 <= i < |fs| && forall j :: 0 <= j < i ==> key(fs[j]) != key(fs[i])
  }

  lemma HasKeyNext<F, K>(key: F -> K, fs: seq<F>, f: F)
    ensures forall k :: HasKey(key, fs + [f], k) <==> HasKey(key, fs, k) || key(f) == k
  {
    forall k
      ensures HasKey(key, fs + [f], k) <==> HasKey(key, fs, k) || key(f) == k
    {
      assert (fs + [f])[|fs|] == f;
      if HasKey(key, fs, k) {
        var i :| 0 <= i < |fs| && key(fs[i]) == k;
        assert (fs + [f])[i] == fs[i];
      }
    }
  }

  /** `seen` is the set of keys of fs. */
  ghost predicate KeysAre<F, K(!new)>(key: F -> K, fs: seq<F>, seen: set<K>) {
    forall k :: k in seen <==> HasKey(key, fs, k)
  }

  lemma KeysNext<F, K(!new)>(key: F -> K, fs: seq<F>, seen: set<K>, f: F)
    requires KeysAre(key, fs, seen)
    ensures KeysAre(key, fs + [f], seen + {key(f)})
    ensures key(f) in seen <==> HasKey(key, fs, key(f))
  {
    HasKeyNext(key, fs, f);
  }

  lemma {:induction false} FirstPerKeyCovers<F, K>(key: F -> K, fs: seq<F>, i: int)
    requires 0 <= i < |fs|
    ensures HasKey(key, FirstPerKey(key, fs), key(fs[i]))
  {
    var before, last := fs[..|fs| - 1], fs[|fs| - 1];
    var b := FirstPerKey(key, before);
    HasKeyNext(key, b, last);
    if i < |before| {
      FirstPerKeyCovers(key, before, i);
      assert before[i] == fs[i];
    }
    assert HasKey(key, b + [last], key(fs[i]));
  }

  lemma {:induction false} FirstPerKeyDistinct<F, K>(key: F -> K, fs: seq<F>)
    ensures DistinctBy(key, FirstPerKey(key, fs))
    ensures |FirstPerKey(key, fs)| <= |fs|
  {
    if fs != [] {
      FirstPerKeyDistinct(key, fs[..|fs| - 1]);
    }
  }

  lemma {:induction false} FirstPerKeySource<F, K>(key: F -> K, fs: seq<F>, k: int) returns (i: int)
    requires 0 <= k < |FirstPerKey(key, fs)|
    ensures FirstAt(key, fs, i) && fs[i] == FirstPerKey(key, fs)[k]
  {
    assert fs != [];
    var before, last := fs[..|fs| - 1], fs[|fs| - 1];
    if k < |FirstPerKey(key, before)| {
      i := FirstPerKeySource(key, before, k);
      assert FirstAt(key, before, i);
    } else {
      i := |fs| - 1;
      forall j | 0 <= j < i
        ensures key(fs[j]) != key(last)
      {
        FirstPerKeyCovers(key, before, j);
      }
    }
  }

  /** Deduplication keeps exactly one element per key, and it is the first with that key. */
  lemma FirstPerKeyMeans<F, K>(key: F -> K, fs: seq<F>)
    ensures var r := FirstPerKey(key, fs);
            && DistinctBy(key, r)
            && (forall i :: 0 <= i < |fs| ==> HasKey(key, r, key(fs[i])))
            && (forall k :: 0 <= k < |r| ==> exists i :: FirstAt(key, fs, i) && fs[i] == r[k])
  {
    FirstPerKeyDistinct(key, fs);
    var r := FirstPerKey(key, fs);
    forall i | 0 <= i < |fs|
      ensures HasKey(key, r, key(fs[i]))
    {
      FirstPerKeyCovers(key, fs, i);
    }
    forall k | 0 <= k < |r|
      ensures exists i :: FirstAt(key, fs, i) && fs[i] == r[k]
    {
      var i := FirstPerKeySource(key, fs, k);
    }
  }

  /** What comes later does not change what has been kept so far. */
  lemma {:induction false} FirstPerKeyGrows<F, K>(key: F -> K, fs: seq<F>, n: nat)
    requires n <= |fs|
    ensures FirstPerKey(key, fs[..n]) <= FirstPerKey(key, fs)
  {
    if n < |fs| {
      var before := fs[..|fs| - 1];
      assert before[..n] == fs[..n];
      FirstPerKeyGrows(key, before, n);
    } else {
      assert fs[..n] == fs;
    }
  }

  lemma {:induction false} DistinctIsFixed<F, K>(key: F -> K, fs: seq<F>)
    requires DistinctBy(key, fs)
    ensures FirstPerKey(key, fs) == fs
  {
    if fs != [] {
      DistinctIsFixed(key, fs[..|fs| - 1]);
    }
  }

  lemma OnceAt<F>(fs: seq<F>, f: F, i: nat)
    requires i < |fs| && fs[i] == f && f !in fs[..i] && f !in fs[i + 1..]
    ensures multiset(fs)[f] == 1
  {
    var before, after := fs[..i], fs[i + 1..];
    assert fs == (before + [f]) + after;
    assert multiset(before)[f] == 0 && multiset(after)[f] == 0;
  }

  lemma DistinctOnce<F, K>(key: F -> K, fs: seq<F>, f: F)
    requires DistinctBy(key, fs)
    ensures multiset(fs)[f] <= 1
  {
    if f in fs {
      var i :| 0 <= i < |fs| && fs[i] == f;
      OnceAt(fs, f, i);
    }
  }

  /** Where keys are distinct, the key identifies the element. */
  lemma SameKeySame<F, K>(key: F -> K, fs: seq<F>, a: F, b: F)
    requires DistinctBy(key, fs) && a in fs && b in fs
    ensures key(a) == key(b) ==> a == b
  {
  }

  lemma {:induction false} DistinctCount<F(!new), K>(key: F -> K, fs: seq<F>)
    requires DistinctBy(key, fs)
    ensures |set f | f in fs| == |fs|
  {
    if fs != [] {
      var before, last := fs[..|fs| - 1], fs[|fs| - 1];
      DistinctCount(key, before);
      assert last !in before;
      assert (set f | f in fs) == (set f | f in before) + {last};
    }
  }

  /** Two lists of distinct elements with the same members are equally long. */
  lemma SameMembersSameLength<F(!new), K>(key: F -> K, fs: seq<F>, gs: seq<F>)
    requires DistinctBy(key, fs) && DistinctBy(key, gs)
    requires forall f :: f in fs <==> f in gs
    ensures |fs| == |gs|
  {
    DistinctCount(key, fs);
    DistinctCount(key, gs);
    assert (set f | f in fs) == (set f | f in gs);
  }

  /** Reordering keeps keys distinct. */
  lemma PermutedDistinct<F, K>(key: F -> K, fs: seq<F>, gs: seq<F>)
    requires DistinctBy(key, fs) && multiset(fs) == multiset(gs)
    ensures DistinctBy(key, gs)
  {
    forall i, j | 0 <= i < j < |gs|
      ensures key(gs[i]) != key(gs[j])
    {
      assert gs[i] in multiset(fs) && gs[j] in multiset(fs);
      if gs[i] == gs[j] {
        TwiceInMultiset(gs, i, j);
        DistinctOnce(key, fs, gs[i]);
      }
    }
  }

  lemma TwiceInMultiset<F>(gs: seq<F>, i: int, j: int)
    requires 0 <= i < j < |gs| && gs[i] == gs[j]
    ensures multiset(gs)[gs[i]] >= 2
  {
    var rest := gs[..i] + gs[i + 1..];
    assert gs == gs[..i] + [gs[i]] + gs[i + 1..];
    assert multiset(gs) == multiset(rest) + multiset{gs[i]};
    assert rest[j - 1] == gs[j];
    assert gs[j] in multiset(rest);
  }

  // ---------------------------------------------------------------- passing a check

  /** What a check lets pass, in order. */
  function Passing<A, B>(check: A -> Option<B>, items: seq<A>): seq<B> {
    if items == [] then []
    else
      var last := check(items[|items| - 1]);
      Passing(check, items[..|items| - 1]) + if last.Some? then [last.value] else []
  }

  lemma PassingNext<A, B>(check: A -> Option<B>, items: seq<A>, i: int)
    requires 0 <= i < |items|
    ensures Passing(check, items[..i + 1])
         == Passing(check, items[..i]) + if check(items[i]).Some? then [check(items[i]).value] else []
  {
    assert items[..i + 1][..i] == items[..i];
  }

  /** A check that keeps keys keeps them distinct. */
  lemma {:induction false} PassingDistinct<A(
      !new), B, K>(check: A -> Option<B>, keyA: A -> K, keyB: B -> K, items: seq<A>)
    requires DistinctBy(keyA, items)
    requires forall a :: check(a).Some? ==> keyB(check(a).value) == keyA(a)
    ensures DistinctBy(keyB, Passing(check, items))
  {
    if items != [] {
      var before, last := items[..|items| - 1], items[|items| - 1];
      PassingDistinct(check, keyA, keyB, before);
      forall b | b in Passing(check, before)
        ensures keyB(b) != keyA(last)
      {
        PassingSource(check, before, b);
        var a :| a in before && check(a) == Some(b);
      }
    }
  }

  lemma {:induction false} PassingConcat<A, B>(check: A -> Option<B>, first: seq<A>, rest: seq<A>)
    ensures Passing(check, first + rest) == Passing(check, first) + Passing(check, rest)
  {
    if rest == [] {
      assert first + rest == first;
    } else {
      var i := |rest| - 1;
      assert (first + rest)[..|first + rest| - 1] == first + rest[..i];
      PassingConcat(check, first, rest[..i]);
    }
  }

  lemma {:induction false} PassingSource<A, B>(check: A -> Option<B>, items: seq<A>, b: B)
    requires b in Passing(check, items)
    ensures exists a :: a in items && check(a) == Some(b)
  {
    var before, last := items[..|items| - 1], items[|items| - 1];
    if b in Passing(check, before) {
      PassingSource(check, before, b);
    } else {
      assert last in items && check(last) == Some(b);
    }
  }

  /** A check that returns its argument or nothing keeps a list if and only if it drops nothing. */
  lemma {:induction false} PassingHas<A, B>(check: A -> Option<B>, items: seq<A>, a: A)
    requires a in items && check(a).Some?
    ensures check(a).value in Passing(check, items)
  {
    var before, last := items[..|items| - 1], items[|items| - 1];
    if a in before {
      PassingHas(check, before, a);
    }
  }

  lemma {:induction false} PassingFixed<A>(check: A -> Option<A>, items: seq<A>)
    requires forall a :: a in items ==> check(a) == Some(a) || check(a) == None
    ensures |Passing(check, items)| <= |items|
    ensures if forall a :: a in items ==> check(a) == Some(a) then Passing(check, items) == items
            else |Passing(check, items)| < |items|
  {
    if items != [] {
      var before, last := items[..|items| - 1], items[|items| - 1];
      PassingFixed(check, before);
      assert items == before + [last];
      assert forall a :: a in items <==> a in before || a == last;
    }
  }

  // ---------------------------------------------------------------- the elements with a property

  function Where<T>(p: T -> bool, s: seq<T>): seq<T> {
    if s == [] then []
    else Where(p, s[..|s| - 1]) + if p(s[|s| - 1]) then [s[|s| - 1]] else []
  }

  lemma {:induction false} WhereConcat<T>(p: T -> bool, first: seq<T>, rest: seq<T>)
    ensures Where(p, first + rest) == Where(p, first) + Where(p, rest)
  {
    if rest == [] {
      assert first + rest == first;
    } else {
      assert (first + rest)[..|first + rest| - 1] == first + rest[..|rest| - 1];
      WhereConcat(p, first, rest[..|rest| - 1]);
    }
  }

  lemma {:induction false} WhereIn<T(!new)>(p: T -> bool, s: seq<T>)
    ensures forall x :: x in Where(p, s) <==> x in s && p(x)
  {
    if s != [] {
      WhereIn(p, s[..|s| - 1]);
      assert s == s[..|s| - 1] + [s[|s| - 1]];
    }
  }

  lemma {:induction false} WhereAll<T>(p: T -> bool, s: seq<T>)
    requires forall x :: x in s ==> p(x)
    ensures Where(p, s) == s
  {
    if s != [] {
      var before, last := s[..|s| - 1], s[|s| - 1];
      WhereAll(p, before);
      assert p(last) && s == before + [last];
    }
  }

  lemma {:induction false} WhereNone<T>(p: T -> bool, s: seq<T>)
    requires forall x :: x in s ==> !p(x)
    ensures Where(p, s) == []
  {
    if s != [] {
      WhereNone(p, s[..|s| - 1]);
    }
  }

  /** Leaving out elements without the property changes nothing. */
  lemma {:induction false} WhereOfWhere<T>(p: T -> bool, q: T -> bool, s: seq<T>)
    requires forall x :: x in s && p(x) ==> q(x)
    ensures Where(p, Where(q, s)) == Where(p, s)
  {
    if s != [] {
      var before, last := s[..|s| - 1], s[|s| - 1];
      WhereOfWhere(p, q, before);
      WhereConcat(p, Where(q, before), if q(last) then [last] else []);
    }
  }

  /** Replacing elements by ones that have the property as well, or as little. */
  lemma {:induction false} WhereChanged<T>(p: T -> bool, s: seq<T>, t: seq<T>)
    requires |s| == |t| && forall i :: 0 <= i < |s| ==> p(s[i]) == p(t[i])
    ensures |Where(p, s)| == |Where(p, t)|
    ensures (forall i :: 0 <= i < |s| && p(s[i]) ==> s[i] == t[i]) ==> Where(p, s) == Where(p, t)
  {
    if s != [] {
      WhereChanged(p, s[..|s| - 1], t[..|t| - 1]);
    }
  }

  /** Changing elements in a way that the property does not notice. */
  lemma {:induction false} WhereEach<T>(p: T -> bool, f: T -> T, s: seq<T>)
    requires forall i :: 0 <= i < |s| ==> p(f(s[i])) == p(s[i])
    ensures Where(p, Each(f, s)) == Each(f, Where(p, s))
  {
    if s != [] {
      var before, last := s[..|s| - 1], s[|s| - 1];
      WhereEach(p, f, before);
      assert Each(f, s)[..|s| - 1] == Each(f, before);
    }
  }

  lemma {:induction false} WhereDistinct<T(!new), K>(key: T -> K, p: T -> bool, s: seq<T>)
    requires DistinctBy(key, s)
    ensures DistinctBy(key, Where(p, s))
  {
    if s != [] {
      var before, last := s[..|s| - 1], s[|s| - 1];
      WhereDistinct(key, p, before);
      var kept := Where(p, before);
      forall k | 0 <= k < |kept|
        ensures key(kept[k]) != key(last)
      {
        WhereIn(p, before);
        assert kept[k] in kept;
        var i :| 0 <= i < |before| && before[i] == kept[k];
        assert s[i] == kept[k];
      }
    }
  }

  // ---------------------------------------------------------------- last per key

  /** Assigning to a dict: a known key keeps its place and gets the new element. */
  function Assigned<F, K(==)>(key: F -> K, dict: seq<F>, f: F): seq<F> {
    if dict == [] then [f]
    else if key(dict[0]) == key(f) then [f] + dict[1..]
    else [dict[0]] + Assigned(key, dict[1..], f)
  }

  /** A dict filled element by element, as the list of its values. */
  function LastPerKey<F, K(==)>(key: F -> K, fs: seq<F>): seq<F> {
    if fs == [] then [] else Assigned(key, LastPerKey(key, fs[..|fs| - 1]), fs[|fs| - 1])
  }

  lemma {:induction false} AssignedMeans<F(!new), K(!new)>(key: F -> K, dict: seq<F>, f: F)
    ensures forall k :: HasKey(key, Assigned(key, dict, f), k) <==> HasKey(key, dict, k) || key(f) == k
    ensures forall x :: x in Assigned(key, dict, f) ==> x in dict || x == f
  {
    if dict == [] {
      assert Assigned(key, dict, f) == [] + [f];
      HasKeyNext(key, [], f);
    } else {
      var rest := dict[1..];
      AssignedMeans(key, rest, f);
      HasKeyFirst(key, dict[0], rest);
      HasKeyFirst(key, f, rest);
      HasKeyFirst(key, dict[0], Assigned(key, rest, f));
      assert dict == [dict[0]] + rest;
    }
  }

  lemma HasKeyFirst<F, K(!new)>(key: F -> K, f: F, fs: seq<F>)
    ensures forall k :: HasKey(key, [f] + fs, k) <==> key(f) == k || HasKey(key, fs, k)
  {
    forall k
      ensures HasKey(key, [f] + fs, k) <==> key(f) == k || HasKey(key, fs, k)
    {
      assert ([f] + fs)[0] == f;
      if i :| 0 <= i < |fs| && key(fs[i]) == k {
        assert ([f] + fs)[i + 1] == fs[i];
      }
    }
  }

  lemma {:induction false} AssignedDistinct<F(!new), K(!new)>(key: F -> K, dict: seq<F>, f: F)
    requires DistinctBy(key, dict)
    ensures DistinctBy(key, Assigned(key, dict, f))
  {
    if dict != [] && key(dict[0]) != key(f) {
      AssignedDistinct(key, dict[1..], f);
      AssignedMeans(key, dict[1..], f);
      var rest := Assigned(key, dict[1..], f);
      forall i | 0 <= i < |rest|
        ensures key(rest[i]) != key(dict[0])
      {
        assert HasKey(key, rest, key(rest[i]));
      }
    }
  }

  /** Every key once, and only what was given. */
  lemma {:induction false} LastPerKeyMeans<F(!new), K(!new)>(key: F -> K, fs: seq<F>)
    ensures DistinctBy(key, LastPerKey(key, fs))
    ensures forall k :: HasKey(key, LastPerKey(key, fs), k) <==> HasKey(key, fs, k)
    ensures forall x :: x in LastPerKey(key, fs) ==> x in fs
  {
    if fs != [] {
      var before, last := fs[..|fs| - 1], fs[|fs| - 1];
      LastPerKeyMeans(key, before);
      AssignedMeans(key, LastPerKey(key, before), last);
      AssignedDistinct(key, LastPerKey(key, before), last);
      HasKeyNext(key, before, last);
      assert fs == before + [last];
    }
  }

  // ---------------------------------------------------------------- sorted sets

  /** sorted(set(items)). */
  function SortedSet(items: seq<string>): seq<string> {
    StableSort(StringLeq, FirstPerKey((item: string) => item, items))
  }

  lemma StringLeqIsPreorder()
    ensures TotalPreorder(StringLeq)
  {
    forall a: string, b: string, c: string
      ensures StringLeq(a, b) || StringLeq(b, a)
      ensures StringLeq(a, b) && StringLeq(b, c) ==> StringLeq(a, c)
    {
      StringLeqTotal(a, b);
      if StringLeq(a, b) && StringLeq(b, c) {
        StringLeqTransitive(a, b, c);
      }
    }
  }

  /** The same elements, in order, and each of them once. */
  lemma SortedSetMeans(items: seq<string>)
    ensures Sorted(StringLeq, SortedSet(items))
    ensures forall x :: x in SortedSet(items) <==> x in items
    ensures forall i, j :: 0 <= i < j < |SortedSet(items)| ==> SortedSet(items)[i] != SortedSet(items)[j]
  {
    var key := (item: string) => item;
    var once := FirstPerKey(key, items);
    StringLeqIsPreorder();
    SortSorted(StringLeq, once);
    SortPermutes(StringLeq, once);
    SameElements(SortedSet(items), once);
    FirstPerKeyDistinct(key, items);
    PermutedDistinct(key, once, SortedSet(items));
    OnceHasAll(items);
    var sorted := SortedSet(items);
    forall i, j | 0 <= i < j < |sorted|
      ensures sorted[i] != sorted[j]
    {
      assert key(sorted[i]) != key(sorted[j]);
    }
  }

  lemma OnceHasAll(items: seq<string>)
    ensures forall x :: x in FirstPerKey((item: string) => item, items) <==> x in items
  {
    var key := (item: string) => item;
    var once := FirstPerKey(key, items);
    forall k | 0 <= k < |once|
      ensures once[k] in items
    {
      var i := FirstPerKeySource(key, items, k);
      assert once[k] == items[i];
    }
    forall i | 0 <= i < |items|
      ensures items[i] in once
    {
      FirstPerKeyCovers(key, items, i);
    }
  }
}
