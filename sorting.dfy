/** The array `sort` of the models. JavaScript's `Array.prototype.sort` is
    stable; every comparator in the modelled code compares one or two
    integers (a date, a score, a number), so a comparator is given here as
    a key of two integers compared lexicographically, and the sort is a
    stable insertion sort by that key. */
module Sorting {
  import opened Seqs

  type Key = (int, int)

  predicate KeyLe(a: Key, b: Key) {
    a.0 < b.0 || (a.0 == b.0 && a.1 <= b.1)
  }

  ghost predicate SortedBy<T>(s: seq<T>, key: T -> Key) {
    forall i, j :: 0 <= i < j < |s| ==> KeyLe(key(s[i]), key(s[j]))
  }

  /** Inserts `x` after every element whose key is not above its own, so
      elements of equal key keep their arrival order. */
  function Insert<T>(s: seq<T>, x: T, key: T -> Key): (r: seq<T>)
    ensures |r| == |s| + 1
    ensures multiset(r) == multiset(s) + multiset{x}
  {
    if s == [] || KeyLe(key(s[|s| - 1]), key(x)) then s + [x]
    else
      assert s == s[..|s| - 1] + [s[|s| - 1]];
      Insert(s[..|s| - 1], x, key) + [s[|s| - 1]]
  }

  /** `[...s].sort(cmp)` for the comparator that `key` stands for. */
  function SortBy<T>(s: seq<T>, key: T -> Key): (r: seq<T>)
    ensures |r| == |s|
    ensures multiset(r) == multiset(s)
  {
    if s == [] then []
    else
      assert s == s[..|s| - 1] + [s[|s| - 1]];
      Insert(SortBy(s[..|s| - 1], key), s[|s| - 1], key)
  }

  lemma {:induction false} InsertSorted<T>(s: seq<T>, x: T, key: T -> Key)
    requires SortedBy(s, key)
    ensures SortedBy(Insert(s, x, key), key)
  {
    if s == [] || KeyLe(key(s[|s| - 1]), key(x)) {
    } else {
      var init, last := s[..|s| - 1], s[|s| - 1];
      InsertSorted(init, x, key);
      var t := Insert(init, x, key);
      forall i | 0 <= i < |t|
        ensures KeyLe(key(t[i]), key(last))
      {
        assert t[i] in multiset(t);
        if t[i] != x {
          assert t[i] in multiset(init);
          var j :| 0 <= j < |init| && init[j] == t[i];
          assert s[j] == init[j];
        }
      }
    }
  }

  /** The result of the sort is ordered by the key. */
  lemma {:induction false} SortBySorted<T>(s: seq<T>, key: T -> Key)
    ensures SortedBy(SortBy(s, key), key)
  {
    if s != [] {
      SortBySorted(s[..|s| - 1], key);
      InsertSorted(SortBy(s[..|s| - 1], key), s[|s| - 1], key);
    }
  }

  /** Sorting input that is already in order changes nothing. */
  lemma SortedInit<T>(s: seq<T>, key: T -> Key)
    requires SortedBy(s, key) && s != []
    ensures SortedBy(s[..|s| - 1], key)
    ensures |s| > 1 ==> KeyLe(key(s[..|s| - 1][|s| - 2]), key(s[|s| - 1]))
  {
    var init := s[..|s| - 1];
    forall i, j | 0 <= i < j < |init|
      ensures KeyLe(key(init[i]), key(init[j]))
    {
      assert init[i] == s[i] && init[j] == s[j];
    }
  }

  lemma {:induction false} SortBySortedInput<T>(s: seq<T>, key: T -> Key)
    requires SortedBy(s, key)
    ensures SortBy(s, key) == s
  {
    if s != [] {
      var init, last := s[..|s| - 1], s[|s| - 1];
      SortedInit(s, key);
      SortBySortedInput(init, key);
      assert s == init + [last];
    }
  }

  /** The elements whose key is exactly `k`. */
  function HasKey<T>(key: T -> Key, k: Key): T -> bool {
    y => key(y) == k
  }

  lemma {:induction false} InsertStable<T>(s: seq<T>, x: T, key: T -> Key, k: Key)
    ensures Filter(Insert(s, x, key), HasKey(key, k))
         == Filter(s, HasKey(key, k)) + Filter([x], HasKey(key, k))
  {
    var p := HasKey(key, k);
    if s == [] || KeyLe(key(s[|s| - 1]), key(x)) {
      FilterConcat(s, [x], p);
    } else {
      var init, last := s[..|s| - 1], s[|s| - 1];
      InsertStable(init, x, key, k);
      FilterConcat(Insert(init, x, key), [last], p);
      FilterConcat(init, [last], p);
      assert s == init + [last];
      // x's key is strictly below last's, so at most one of them has key k
      assert Filter([x], p) == [] || Filter([last], p) == [];
    }
  }

  /** Stability: among the elements of any one key, the sort keeps the
      input order. */
  lemma {:induction false} SortByStable<T>(s: seq<T>, key: T -> Key, k: Key)
    ensures Filter(SortBy(s, key), HasKey(key, k)) == Filter(s, HasKey(key, k))
  {
    if s != [] {
      var init, last := s[..|s| - 1], s[|s| - 1];
      SortByStable(init, key, k);
      InsertStable(SortBy(init, key), last, key, k);
      assert s == init + [last];
      FilterConcat(init, [last], HasKey(key, k));
    }
  }

  lemma {:induction false} InsertFilter<T>(s: seq<T>, x: T, key: T -> Key, p: T -> bool)
    ensures multiset(Filter(Insert(s, x, key), p)) == multiset(Filter(s, p)) + multiset(Filter([x], p))
  {
    if s == [] || KeyLe(key(s[|s| - 1]), key(x)) {
      FilterConcat(s, [x], p);
    } else {
      var init, last := s[..|s| - 1], s[|s| - 1];
      var ins := Insert(init, x, key);
      assert Insert(s, x, key) == ins + [last];
      InsertFilter(init, x, key, p);
      FilterConcat(ins, [last], p);
      FilterConcat(init, [last], p);
      assert s == init + [last];
      assert multiset(Filter(ins + [last], p)) == multiset(Filter(ins, p)) + multiset(Filter([last], p));
    }
  }

  /** Any filter selects the same elements, counted with multiplicity, from
      the sorted sequence as from its input. */
  lemma {:induction false} SortByFilter<T>(s: seq<T>, key: T -> Key, p: T -> bool)
    ensures multiset(Filter(SortBy(s, key), p)) == multiset(Filter(s, p))
    ensures |Filter(SortBy(s, key), p)| == |Filter(s, p)|
  {
    if s != [] {
      var init, last := s[..|s| - 1], s[|s| - 1];
      var sorted := SortBy(init, key);
      assert SortBy(s, key) == Insert(sorted, last, key);
      SortByFilter(init, key, p);
      InsertFilter(sorted, last, key, p);
      assert s == init + [last];
      FilterConcat(init, [last], p);
      assert multiset(Filter(s, p)) == multiset(Filter(init, p)) + multiset(Filter([last], p));
    }
    assert |multiset(Filter(SortBy(s, key), p))| == |Filter(SortBy(s, key), p)|;
    assert |multiset(Filter(s, p))| == |Filter(s, p)|;
  }

  /** Integers sort by their own value: the comparator `(a, b) => a - b`. */
  function IntKey(x: int): Key {
    (x, 0)
  }

  /** `[...s].sort((a, b) => a - b)`. */
  function SortAscending(s: seq<int>): (r: seq<int>)
    ensures Ascending(r)
    ensures multiset(r) == multiset(s)
  {
    SortBySorted(s, IntKey);
    SortBy(s, IntKey)
  }

  /** The numeric sort keeps the length and the elements. */
  lemma SortAscendingMembers(s: seq<int>)
    ensures |SortAscending(s)| == |s|
    ensures forall n :: n in SortAscending(s) <==> n in s
  {
    var r := SortAscending(s);
    assert |r| == |multiset(r)| == |multiset(s)| == |s|;
    assert forall n :: n in r <==> n in multiset(r);
  }

  /** On ascending integers the numeric sort is the identity. */
  lemma SortAscendingIdentity(s: seq<int>)
    requires Ascending(s)
    ensures SortAscending(s) == s
  {
    SortBySortedInput(s, IntKey);
  }

  /** Two sorted runs whose keys do not overlap out of order make a sorted
      whole. */
  lemma SortedConcat<T>(a: seq<T>, b: seq<T>, key: T -> Key)
    requires SortedBy(a, key) && SortedBy(b, key)
    requires forall i, j :: 0 <= i < |a| && 0 <= j < |b| ==> KeyLe(key(a[i]), key(b[j]))
    ensures SortedBy(a + b, key)
  {
    var c := a + b;
    forall i, j | 0 <= i < j < |c| ensures KeyLe(key(c[i]), key(c[j])) {
      if j < |a| {
        assert c[i] == a[i] && c[j] == a[j];
      } else if i < |a| {
        assert c[i] == a[i] && c[j] == b[j - |a|];
      } else {
        assert c[i] == b[i - |a|] && c[j] == b[j - |a|];
      }
    }
  }
}
