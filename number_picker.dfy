/** The selection logic of the number grid
    (frontend/src/components/NumberPicker.tsx): the numbers offered, what a
    click on one does to the selection, and when a number is greyed out.
    The component hands every new selection to `onChange`; here that is the
    value returned, `None` standing for no call. */
module NumberPicker {
  import opened Wrappers
  import opened Seqs
  import Sorting

  /** `numbers`: `min, min + 1, ..., max`, empty when `max < min`. */
  function Numbers(min: int, max: int): (r: seq<int>)
    decreases max - min
    ensures |r| == if max < min then 0 else max - min + 1
    ensures forall i :: 0 <= i < |r| ==> r[i] == min + i
  {
    if max < min then [] else Numbers(min, max - 1) + [max]
  }

  /** The grid offers exactly the numbers of the range, in ascending order
      and each once. */
  lemma NumbersRange(min: int, max: int)
    ensures StrictlyAscending(Numbers(min, max))
    ensures forall x :: x in Numbers(min, max) <==> min <= x <= max
  {
    var r := Numbers(min, max);
    forall x | min <= x <= max ensures x in r {
      assert r[x - min] == x;
    }
  }

  /** `toggleNumber(number)`: the selection passed to `onChange`, or `None`
      when the number is not selected and the selection is full. A click
      flips whether the number is selected and leaves every other number
      as it was. */
  function Toggle(selected: seq<int>, number: int, maxSelected: int): (r: Option<seq<int>>)
    ensures r.Some? ==> (number in r.value <==> number !in selected)
    ensures r.Some? ==> forall x :: x != number ==> (x in r.value <==> x in selected)
  {
    if number in selected then
      FilterMembership(selected, n => n != number);
      Some(Filter(selected, n => n != number))
    else if |selected| < maxSelected then
      Sorting.SortAscendingMembers(selected + [number]);
      Some(Sorting.SortAscending(selected + [number]))
    else None
  }

  /** The selection after a click: the new one, or the old one when
      `onChange` is not called. */
  function AfterToggle(selected: seq<int>, number: int, maxSelected: int): seq<int> {
    var t := Toggle(selected, number, maxSelected);
    if t.Some? then t.value else selected
  }

  /** `isDisabled` for a button: exactly when clicking it would not call
      `onChange`. */
  predicate IsDisabled(selected: seq<int>, number: int, maxSelected: int)
    ensures IsDisabled(selected, number, maxSelected) <==> Toggle(selected, number, maxSelected).None?
  {
    !(number in selected) && |selected| >= maxSelected
  }

  /** `clearSelection`: the selection passed to `onChange`, with which no
      number is disabled under a positive limit. */
  function ClearSelection(): (r: seq<int>)
    ensures forall number, maxSelected :: maxSelected > 0 ==> !IsDisabled(r, number, maxSelected)
  {
    []
  }

  /** Clicking a selected number drops every copy of it and keeps every
      other number, as often as it occurred and in its order. */
  lemma ToggleRemoves(selected: seq<int>, number: int, maxSelected: int)
    requires number in selected
    ensures var t := Toggle(selected, number, maxSelected);
            t.Some? && number !in t.value && Subsequence(t.value, selected) &&
            (forall x :: x != number ==> multiset(t.value)[x] == multiset(selected)[x]) &&
            |t.value| == |selected| - multiset(selected)[number]
  {
    var p := (n: int) => n != number;
    var r := Filter(selected, p);
    FilterMembership(selected, p);
    FilterSubsequence(selected, p);
    forall x | x != number ensures multiset(r)[x] == multiset(selected)[x] {
      FilterCount(selected, p, x);
    }
    FilterOutCount(selected, number);
  }

  lemma {:induction false} FilterOutCount(s: seq<int>, x: int)
    ensures |Filter(s, n => n != x)| == |s| - multiset(s)[x]
  {
    if s != [] {
      FilterOutCount(s[1..], x);
      assert s == [s[0]] + s[1..];
    }
  }

  /** Clicking an unselected number while there is room adds it and sorts:
      the result is ascending and holds the old numbers plus the new one. */
  lemma ToggleAdds(selected: seq<int>, number: int, maxSelected: int)
    requires number !in selected && |selected| < maxSelected
    ensures var t := Toggle(selected, number, maxSelected);
            t.Some? && Ascending(t.value) && multiset(t.value) == multiset(selected) + multiset{number} &&
            |t.value| == |selected| + 1
  {
    var r := Sorting.SortAscending(selected + [number]);
    assert |r| == |multiset(r)| == |multiset(selected + [number])| == |selected| + 1;
  }

  /** A selection within the limit stays within it, whatever is clicked. */
  lemma ToggleKeepsLimit(selected: seq<int>, number: int, maxSelected: int)
    requires |selected| <= maxSelected
    ensures |AfterToggle(selected, number, maxSelected)| <= maxSelected
  {
    if number !in selected && |selected| < maxSelected {
      ToggleAdds(selected, number, maxSelected);
    }
  }

  lemma {:induction false} FilterStrictlyAscending(s: seq<int>, p: int -> bool)
    requires StrictlyAscending(s)
    ensures StrictlyAscending(Filter(s, p))
  {
    if s != [] {
      var rest := Filter(s[1..], p);
      FilterStrictlyAscending(s[1..], p);
      FilterMembership(s[1..], p);
      if p(s[0]) {
        forall k | 0 <= k < |rest| ensures s[0] < rest[k] {
          assert rest[k] in s[1..];
        }
        assert Filter(s, p) == [s[0]] + rest;
      }
    }
  }

  /** On a sorted selection without duplicates and with room, clicking an
      unselected number twice gives the selection back. */
  lemma ToggleTwice(selected: seq<int>, number: int, maxSelected: int)
    requires StrictlyAscending(selected) && number !in selected && |selected| < maxSelected
    ensures var once := AfterToggle(selected, number, maxSelected);
            AfterToggle(once, number, maxSelected) == selected
  {
    var once := Sorting.SortAscending(selected + [number]);
    ToggleAdds(selected, number, maxSelected);
    assert Distinct(selected + [number]);
    DistinctPermutation(selected + [number], once);
    AscendingDistinct(once);
    assert number in multiset(once);
    var p := (n: int) => n != number;
    var twice := Filter(once, p);
    FilterStrictlyAscending(once, p);
    FilterMembership(once, p);
    forall x ensures x in twice <==> x in selected {
      assert x in once <==> x in multiset(once);
      assert x in selected <==> x in multiset(selected);
    }
    StrictlyAscendingUnique(twice, selected);
  }

  /** After clearing, nothing is selected and, with a positive limit, no
      number is disabled and a click on any number selects it alone. */
  lemma ClearEnablesAll(number: int, maxSelected: int)
    requires maxSelected > 0
    ensures ClearSelection() == [] && !IsDisabled(ClearSelection(), number, maxSelected)
    ensures Toggle(ClearSelection(), number, maxSelected) == Some([number])
  {
    ToggleAdds([], number, maxSelected);
    var r := Sorting.SortAscending([number]);
    assert r[0] in multiset(r);
  }
}
