/**
 * The editor's rows and the normalisation pass `validate` applies to them:
 * remove duplicate rows, sort by time slot, and pin the first row to the
 * start of the day.
 */
module Schedule {
  import opened Grids

  /** One editor row: an index into the time grid and one into the value grid. */
  datatype Item = Item(timeIndex: nat, rateIndex: nat)

  /** Both indices of `item` address an existing grid entry for `units`. */
  predicate InGrid(units: GlucoseUnits, item: Item)
  {
    item.timeIndex < |TimeValues()| && item.rateIndex < |RateValues(units)|
  }

  /** Every row of `items` addresses existing grid entries. */
  predicate AllInGrid(units: GlucoseUnits, items: seq<Item>)
  {
    forall i :: 0 <= i < |items| ==> InGrid(units, items[i])
  }

  /** No two rows are equal as (timeIndex, rateIndex) pairs. */
  predicate NoDuplicates(s: seq<Item>)
  {
    forall i, j :: 0 <= i < j < |s| ==> s[i] != s[j]
  }

  /** Rows are ordered non-decreasingly by time slot. */
  predicate SortedByTime(s: seq<Item>)
  {
    forall i, j :: 0 <= i < j < |s| ==> s[i].timeIndex <= s[j].timeIndex
  }

  /**
   * The distinct rows of `s`, each kept at its first occurrence. This fixes
   * one order for the source's conversion through a `Set`, whose iteration
   * order is unspecified.
   */
  function Dedup(s: seq<Item>): (r: seq<Item>)
    ensures NoDuplicates(r)
    ensures forall x :: x in r <==> x in s
    ensures NoDuplicates(s) ==> r == s
  {
    if s == [] then []
    else
      var init := s[..|s| - 1];
      var d := Dedup(init);
      if s[|s| - 1] in d then d
      else
        assert NoDuplicates(s) ==> NoDuplicates(init);
        assert NoDuplicates(s) ==> s == init + [s[|s| - 1]];
        d + [s[|s| - 1]]
  }

  /**
   * Inserts `x` in front of the first row of `s` whose slot is the same or
   * later, so that `x` precedes rows already in its slot.
   */
  function Insert(x: Item, s: seq<Item>): (r: seq<Item>)
    ensures multiset(r) == multiset(s) + multiset{x}
  {
    if s == [] || x.timeIndex <= s[0].timeIndex then [x] + s
    else
      assert s == [s[0]] + s[1..];
      [s[0]] + Insert(x, s[1..])
  }

  /** Inserting into a sorted schedule keeps it sorted. */
  lemma {:induction false} InsertSorted(x: Item, s: seq<Item>)
    requires SortedByTime(s)
    ensures SortedByTime(Insert(x, s))
  {
    if s != [] && x.timeIndex > s[0].timeIndex {
      var rest := Insert(x, s[1..]);
      InsertSorted(x, s[1..]);
      forall k | 0 <= k < |rest| ensures s[0].timeIndex <= rest[k].timeIndex {
        assert rest[k] in multiset(rest);
        assert rest[k] == x || rest[k] in multiset(s[1..]);
      }
    }
  }

  /** Inserting a new row into a schedule without duplicates creates none. */
  lemma {:induction false} InsertNoDuplicates(x: Item, s: seq<Item>)
    requires NoDuplicates(s) && x !in s
    ensures NoDuplicates(Insert(x, s))
  {
    if s != [] && x.timeIndex > s[0].timeIndex {
      var rest := Insert(x, s[1..]);
      InsertNoDuplicates(x, s[1..]);
      assert s[0] !in multiset(s[1..]);
      assert s[0] !in multiset(rest);
    }
  }

  /**
   * Sorting by time slot, stable: rows in the same slot keep their relative
   * order.
   */
  function SortByTime(s: seq<Item>): (r: seq<Item>)
    ensures SortedByTime(r)
    ensures multiset(r) == multiset(s)
  {
    if s == [] then []
    else
      var rest := SortByTime(s[1..]);
      InsertSorted(s[0], rest);
      assert s == [s[0]] + s[1..];
      Insert(s[0], rest)
  }

  /** Sorting leaves an already sorted schedule as it is. */
  lemma {:induction false} SortByTimeOfSorted(s: seq<Item>)
    requires SortedByTime(s)
    ensures SortByTime(s) == s
  {
    if s != [] {
      SortByTimeOfSorted(s[1..]);
      assert s == [s[0]] + s[1..];
    }
  }

  /** Sorting a schedule without duplicates creates none. */
  lemma {:induction false} SortByTimeNoDuplicates(s: seq<Item>)
    requires NoDuplicates(s)
    ensures NoDuplicates(SortByTime(s))
  {
    if s != [] {
      var rest := SortByTime(s[1..]);
      SortByTimeNoDuplicates(s[1..]);
      assert s == [s[0]] + s[1..];
      assert s[0] !in multiset(s[1..]);
      InsertNoDuplicates(s[0], rest);
    }
  }

  /** Sorting keeps exactly the rows of the input. */
  lemma SortByTimeMembers(s: seq<Item>)
    ensures forall y :: y in SortByTime(s) <==> y in s
  {
    var r := SortByTime(s);
    forall y ensures y in r <==> y in s {
      assert y in r <==> y in multiset(r);
      assert y in s <==> y in multiset(s);
    }
  }

  /** A schedule as `validate` leaves it. */
  predicate Normalised(r: seq<Item>)
  {
    NoDuplicates(r) && SortedByTime(r) && (r != [] ==> r[0].timeIndex == 0)
  }

  /** `x` is a row of `s` in the earliest slot of `s`. */
  predicate EarliestIn(x: Item, s: seq<Item>)
  {
    x in s && forall y :: y in s ==> x.timeIndex <= y.timeIndex
  }

  /**
   * Pinning the first row of a sorted schedule without duplicates creates
   * none: a row already in slot 0 would have sorted first.
   */
  lemma PinFirstNoDuplicates(u: seq<Item>)
    requires NoDuplicates(u) && SortedByTime(u)
    ensures NoDuplicates(PinFirst(u))
  {
    if u != [] {
      var p := PinFirst(u);
      forall j | 1 <= j < |u| ensures p[0] != p[j] {
        assert u[0].timeIndex <= u[j].timeIndex;
      }
    }
  }

  /**
   * Sets the first row's slot to the start of the day. The first row keeps
   * its value, the other rows are untouched, and a list sorted by slot stays
   * sorted because slot 0 comes before every other.
   */
  function PinFirst(s: seq<Item>): (r: seq<Item>)
    ensures |r| == |s|
    ensures r != [] ==> r[0].timeIndex == 0 && r[0].rateIndex == s[0].rateIndex
    ensures forall i :: 1 <= i < |r| ==> r[i] == s[i]
    ensures SortedByTime(s) ==> SortedByTime(r)
  {
    if s == [] then [] else [s[0].(timeIndex := 0)] + s[1..]
  }

  /**
   * The schedule `validate` produces from `s`: without duplicate rows,
   * sorted by slot, starting in slot 0, and empty exactly when `s` is.
   */
  function Validated(s: seq<Item>): (r: seq<Item>)
    ensures Normalised(r)
    ensures r == [] <==> s == []
  {
    var u := SortByTime(Dedup(s));
    SortByTimeNoDuplicates(Dedup(s));
    PinFirstNoDuplicates(u);
    SortByTimeMembers(Dedup(s));
    assert s != [] ==> s[0] in u;
    PinFirst(u)
  }

  /** The rows of the sorted, deduplicated schedule are exactly those of the input. */
  lemma SortedDedupMembers(s: seq<Item>)
    ensures forall y :: y in SortByTime(Dedup(s)) <==> y in s
  {
    SortByTimeMembers(Dedup(s));
  }

  /** The first row after sorting lies in the earliest slot of the input. */
  lemma SortedDedupFirstEarliest(s: seq<Item>)
    requires s != []
    ensures SortByTime(Dedup(s)) != [] && EarliestIn(SortByTime(Dedup(s))[0], s)
  {
    var u := SortByTime(Dedup(s));
    SortedDedupMembers(s);
    assert s[0] in u;
    forall y | y in s ensures u[0].timeIndex <= y.timeIndex {
      var j :| 0 <= j < |u| && u[j] == y;
    }
  }

  /** Every row after the first in the validated schedule is a row of the input. */
  lemma ValidatedTailFromInput(s: seq<Item>)
    ensures forall i :: 1 <= i < |Validated(s)| ==> Validated(s)[i] in s
  {
    var u := SortByTime(Dedup(s));
    var r := Validated(s);
    SortedDedupMembers(s);
    forall i | 1 <= i < |r| ensures r[i] in s {
      assert r[i] == u[i];
    }
  }

  /** The first validated row is an input row from the earliest slot, moved to slot 0. */
  lemma ValidatedFirstPinned(s: seq<Item>)
    ensures Validated(s) != [] ==>
      exists x :: EarliestIn(x, s) && Validated(s)[0] == x.(timeIndex := 0)
  {
    if s != [] {
      SortedDedupFirstEarliest(s);
    }
  }

  /** Every input row survives validation, unchanged after the first position or as the pinned first row. */
  lemma ValidatedKeepsInput(s: seq<Item>)
    ensures forall x :: x in s ==>
      |Validated(s)| > 0 && (x in Validated(s)[1..] || Validated(s)[0] == x.(timeIndex := 0))
  {
    var u := SortByTime(Dedup(s));
    var r := Validated(s);
    SortedDedupMembers(s);
    forall x | x in s ensures |r| > 0 && (x in r[1..] || r[0] == x.(timeIndex := 0)) {
      var j :| 0 <= j < |u| && u[j] == x;
      if j > 0 {
        assert r[1..][j - 1] == x;
      }
    }
  }

  /** Validation leaves a normalised schedule as it is. */
  lemma ValidatedFixesNormalised(r: seq<Item>)
    requires Normalised(r)
    ensures Validated(r) == r
  {
    SortByTimeOfSorted(r);
    if r != [] {
      assert r[0].(timeIndex := 0) == r[0];
      assert [r[0]] + r[1..] == r;
    }
  }

  /** `validate` is idempotent. */
  lemma ValidateIdempotent(s: seq<Item>)
    ensures Validated(Validated(s)) == Validated(s)
  {
    ValidatedFixesNormalised(Validated(s));
  }

  /** Validation keeps every index on the grid: slot 0 and the input's indices are. */
  lemma ValidatedInGrid(units: GlucoseUnits, s: seq<Item>)
    requires AllInGrid(units, s)
    ensures AllInGrid(units, Validated(s))
  {
    var r := Validated(s);
    ValidatedTailFromInput(s);
    ValidatedFirstPinned(s);
    forall i | 0 <= i < |r| ensures InGrid(units, r[i]) {
      if i == 0 {
        var x :| EarliestIn(x, s) && r[0] == x.(timeIndex := 0);
        var j :| 0 <= j < |s| && s[j] == x;
      } else {
        var j :| 0 <= j < |s| && s[j] == r[i];
      }
    }
  }

  /** Deduplicating the worked case keeps first occurrences. */
  lemma DedupExample()
    ensures Dedup([Item(3, 5), Item(1, 2), Item(3, 5)]) == [Item(3, 5), Item(1, 2)]
  {
    var a, b := Item(3, 5), Item(1, 2);
    assert [a, b, a][..2] == [a, b];
    assert [a, b][..1] == [a];
    assert Dedup([a]) == [a];
    assert Dedup([a, b]) == [a, b];
  }

  /** Sorting the deduplicated worked case. */
  lemma SortExample()
    ensures SortByTime([Item(3, 5), Item(1, 2)]) == [Item(1, 2), Item(3, 5)]
  {
    var a, b := Item(3, 5), Item(1, 2);
    assert [a, b][1..] == [b];
    assert SortByTime([b]) == [b];
    assert Insert(a, [b]) == [b, a];
  }

  /** A worked case: a repeated row collapses, rows sort, and the first moves to slot 0. */
  lemma ValidatedExample()
    ensures Validated([Item(3, 5), Item(1, 2), Item(3, 5)]) == [Item(0, 2), Item(3, 5)]
  {
    DedupExample();
    SortExample();
  }
}
