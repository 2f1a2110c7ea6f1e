/** Python's `sorted(..., key=...)`: a stable sort by an integer key. */
module StableSort {

  datatype Keyed<T> = Keyed(key: int, item: T)

  /** Puts `x` after every element whose key is not larger. */
  function Insert<T>(x: Keyed<T>, s: seq<Keyed<T>>): seq<Keyed<T>> {
    if s == [] || s[|s| - 1].key <= x.key then s + [x]
    else Insert(x, s[..|s| - 1]) + [s[|s| - 1]]
  }

  function Sort<T>(s: seq<Keyed<T>>): seq<Keyed<T>> {
    if s == [] then [] else Insert(s[|s| - 1], Sort(s[..|s| - 1]))
  }

  predicate Sorted<T>(s: seq<Keyed<T>>) {
    forall i, j :: 0 <= i < j < |s| ==> s[i].key <= s[j].key
  }

  /** The elements with a given key, in order. */
  function Select<T>(s: seq<Keyed<T>>, k: int): seq<Keyed<T>> {
    if s == [] then []
    else Select(s[..|s| - 1], k) + if s[|s| - 1].key == k then [s[|s| - 1]] else []
  }

  lemma {:induction false} InsertPermutes<T>(x: Keyed<T>, s: seq<Keyed<T>>)
    ensures multiset(Insert(x, s)) == multiset(s) + multiset{x}
  {
    if s != [] && s[|s| - 1].key > x.key {
      assert s == s[..|s| - 1] + [s[|s| - 1]];
      InsertPermutes(x, s[..|s| - 1]);
    }
  }

  lemma {:induction false} InsertKeepsSorted<T>(x: Keyed<T>, s: seq<Keyed<T>>)
    requires Sorted(s)
    ensures Sorted(Insert(x, s))
  {
    if s != [] && s[|s| - 1].key > x.key {
      var init, last := s[..|s| - 1], s[|s| - 1];
      InsertKeepsSorted(x, init);
      InsertBound(x, init, last.key);
    }
  }

  lemma {:induction false} InsertBound<T>(x: Keyed<T>, s: seq<Keyed<T>>, bound: int)
    requires x.key <= bound && forall i :: 0 <= i < |s| ==> s[i].key <= bound
    ensures forall i :: 0 <= i < |Insert(x, s)| ==> Insert(x, s)[i].key <= bound
  {
    if s != [] && s[|s| - 1].key > x.key {
      InsertBound(x, s[..|s| - 1], bound);
    }
  }

  lemma {:induction false} SortSorts<T>(s: seq<Keyed<T>>)
    ensures Sorted(Sort(s)) && multiset(Sort(s)) == multiset(s) && |Sort(s)| == |s|
  {
    if s != [] {
      assert s == s[..|s| - 1] + [s[|s| - 1]];
      SortSorts(s[..|s| - 1]);
      InsertPermutes(s[|s| - 1], Sort(s[..|s| - 1]));
      InsertKeepsSorted(s[|s| - 1], Sort(s[..|s| - 1]));
    }
    assert |multiset(Sort(s))| == |Sort(s)| && |multiset(s)| == |s|;
  }

  lemma {:induction false} SelectAppend<T>(s: seq<Keyed<T>>, x: Keyed<T>, k: int)
    ensures Select(s + [x], k) == Select(s, k) + if x.key == k then [x] else []
  {
    assert (s + [x])[..|s|] == s;
  }

  lemma {:induction false} InsertIsStable<T>(x: Keyed<T>, s: seq<Keyed<T>>, k: int)
    requires Sorted(s)
    ensures Select(Insert(x, s), k) == Select(s, k) + if x.key == k then [x] else []
  {
    if s == [] || s[|s| - 1].key <= x.key {
      SelectAppend(s, x, k);
    } else {
      var init, last := s[..|s| - 1], s[|s| - 1];
      InsertIsStable(x, init, k);
      SelectAppend(Insert(x, init), last, k);
    }
  }

  /** Elements with equal keys keep their order. */
  lemma {:induction false} SortIsStable<T>(s: seq<Keyed<T>>, k: int)
    ensures Select(Sort(s), k) == Select(s, k)
  {
    if s != [] {
      SortSorts(s[..|s| - 1]);
      SortIsStable(s[..|s| - 1], k);
      InsertIsStable(s[|s| - 1], Sort(s[..|s| - 1]), k);
    }
  }

  /** The elements with keys 0 to `k`, class after class. */
  function Classes<T>(s: seq<Keyed<T>>, k: int): seq<Keyed<T>>
    decreases k
  {
    if k < 0 then [] else Classes(s, k - 1) + Select(s, k)
  }

  lemma {:induction false} SelectAbove<T>(s: seq<Keyed<T>>, bound: int, k: int)
    requires bound < k && forall i :: 0 <= i < |s| ==> s[i].key <= bound
    ensures Select(s, k) == []
  {
    if s != [] {
      SelectAbove(s[..|s| - 1], bound, k);
    }
  }

  lemma {:induction false} ClassesBelow<T>(s: seq<Keyed<T>>, x: Keyed<T>, k: int)
    requires k < x.key
    ensures Classes(s + [x], k) == Classes(s, k)
    decreases k
  {
    if k >= 0 {
      ClassesBelow(s, x, k - 1);
      SelectAppend(s, x, k);
    }
  }

  lemma {:induction false} ClassesAppend<T>(s: seq<Keyed<T>>, x: Keyed<T>, k: int)
    requires 0 <= x.key <= k && forall i :: 0 <= i < |s| ==> s[i].key <= x.key
    ensures Classes(s + [x], k) == Classes(s, k) + [x]
    decreases k
  {
    SelectAppend(s, x, k);
    if k == x.key {
      ClassesBelow(s, x, k - 1);
      AppendAssoc(Classes(s, k - 1), Select(s, k), [x]);
    } else {
      ClassesAppend(s, x, k - 1);
      SelectAbove(s, x.key, k);
    }
  }

  lemma AppendAssoc<T>(a: seq<T>, b: seq<T>, c: seq<T>)
    ensures a + (b + c) == (a + b) + c
  {
  }

  /** A sorted sequence lists its classes one after the other. */
  lemma {:induction false} SortedListsClasses<T>(s: seq<Keyed<T>>, k: int)
    requires Sorted(s) && forall i :: 0 <= i < |s| ==> 0 <= s[i].key <= k
    ensures Classes(s, k) == s
  {
    if s == [] {
      NoClasses<T>(k);
    } else {
      var init, last := s[..|s| - 1], s[|s| - 1];
      assert s == init + [last];
      SortedListsClasses(init, k);
      ClassesAppend(init, last, k);
    }
  }

  lemma {:induction false} NoClasses<T>(k: int)
    ensures Classes<T>([], k) == []
    decreases k
  {
    if k >= 0 {
      NoClasses<T>(k - 1);
    }
  }

  lemma {:induction false} SortKeepsClasses<T>(s: seq<Keyed<T>>, k: int)
    ensures Classes(Sort(s), k) == Classes(s, k)
    decreases k
  {
    if k >= 0 {
      SortKeepsClasses(s, k - 1);
      SortIsStable(s, k);
    }
  }

  /** A stable sort is the listing of its classes. */
  lemma SortListsClasses<T>(s: seq<Keyed<T>>, k: int)
    requires forall i :: 0 <= i < |s| ==> 0 <= s[i].key <= k
    ensures Sort(s) == Classes(s, k)
  {
    SortSorts(s);
    forall i | 0 <= i < |Sort(s)| ensures 0 <= Sort(s)[i].key <= k {
      assert Sort(s)[i] in multiset(Sort(s));
      assert Sort(s)[i] in s;
    }
    SortedListsClasses(Sort(s), k);
    SortKeepsClasses(s, k);
  }
}
