/**
 * Sort keys of the active-table list. Clicking the header of the "created" or
 * the "seats" column flips between two states: no sort at all, and seats
 * ascending then created descending (the panel's initial order). Every other
 * column falls back to the row sorter's standard toggle.
 */
module RowSorting {
  import opened Wrappers
  import opened TableColumns
  import opened TableFilters

  datatype SortOrder = Ascending | Descending | Unsorted

  datatype SortKey = SortKey(column: Column, order: SortOrder)

  /** How many keys the row sorter keeps by default. */
  const DefaultMaxSortKeys: nat := 3

  /** The panel's own order: free tables first, then the newest first. */
  const SeatsThenCreated: seq<SortKey> := [SortKey(Seats, Ascending), SortKey(Created, Descending)]

  /** No column is sorted on twice. */
  predicate DistinctColumns(keys: seq<SortKey>) {
    forall i, j :: 0 <= i < j < |keys| ==> keys[i].column != keys[j].column
  }

  /** Clicking a primary key again: ascending becomes descending, anything else ascending. */
  function Toggle(k: SortKey): (r: SortKey)
    ensures r.column == k.column && r.order != Unsorted
    ensures r.order == Descending <==> k.order == Ascending
  {
    SortKey(k.column, if k.order == Ascending then Descending else Ascending)
  }

  /** The last position that sorts on the column, or -1 when none does. */
  function LastIndexOf(keys: seq<SortKey>, column: Column): (i: int)
    ensures -1 <= i < |keys|
    ensures i >= 0 ==> keys[i].column == column
    ensures forall j :: i < j < |keys| ==> keys[j].column != column
  {
    if keys == [] then -1
    else if keys[|keys| - 1].column == column then |keys| - 1
    else LastIndexOf(keys[..|keys| - 1], column)
  }

  /** A key on the column with no later key on it is the last one. */
  lemma LastIndexOfUnique(keys: seq<SortKey>, column: Column, i: int)
    requires -1 <= i < |keys|
    requires i >= 0 ==> keys[i].column == column
    requires forall j :: i < j < |keys| ==> keys[j].column != column
    ensures LastIndexOf(keys, column) == i
  {
  }

  /**
   * The row sorter's standard toggle: a column already first has its order flipped;
   * otherwise its old key (if any) is removed and it becomes first, ascending;
   * the list is then cut to the maximum number of keys.
   */
  function DefaultToggled(keys: seq<SortKey>, column: Column, maxKeys: nat): (r: seq<SortKey>)
    requires maxKeys >= 1
    ensures 1 <= |r| <= maxKeys && r[0].column == column
    ensures LastIndexOf(keys, column) == 0 ==> r[0] == Toggle(keys[0])
    ensures LastIndexOf(keys, column) != 0 ==> r[0] == SortKey(column, Ascending)
    ensures forall j :: 1 <= j < |r| ==> r[j] in keys
    ensures var added := if LastIndexOf(keys, column) < 0 then 1 else 0;
      |r| <= |keys| + added && (|r| == maxKeys || |r| == |keys| + added)
    ensures LastIndexOf(keys, column) < 0 ==> r == ([SortKey(column, Ascending)] + keys)[..|r|]
    ensures LastIndexOf(keys, column) == 0 ==> r == ([Toggle(keys[0])] + keys[1..])[..|r|]
    ensures var i := LastIndexOf(keys, column);
      i > 0 ==> r == ([SortKey(column, Ascending)] + keys[..i] + keys[i + 1..])[..|r|]
  {
    var ks := Reordered(keys, column, LastIndexOf(keys, column));
    if |ks| > maxKeys then ks[..maxKeys] else ks
  }

  /** The keys before the cut: the key at i (the column's last key, or -1) flipped or moved first. */
  function Reordered(keys: seq<SortKey>, column: Column, i: int): (r: seq<SortKey>)
    requires -1 <= i < |keys|
    ensures |r| == |keys| + (if i < 0 then 1 else 0)
    ensures r[0] == if i == 0 then Toggle(keys[0]) else SortKey(column, Ascending)
    ensures forall j :: 1 <= j < |r| ==> r[j] in keys
  {
    if i < 0 then [SortKey(column, Ascending)] + keys
    else if i == 0 then [Toggle(keys[0])] + keys[1..]
    else
      var r := [SortKey(column, Ascending)] + keys[..i] + keys[i + 1..];
      assert forall j :: 1 <= j < |r| ==> r[j] == if j <= i then keys[j - 1] else keys[j];
      r
  }

  /** The row sorter's search for the column's key, from the last key backwards. */
  method LastKeyIndex(keys: seq<SortKey>, column: Column) returns (sortIndex: int)
    ensures sortIndex == LastIndexOf(keys, column)
  {
    sortIndex := |keys| - 1;
    while sortIndex >= 0 && keys[sortIndex].column != column
      invariant -1 <= sortIndex < |keys|
      invariant forall j :: sortIndex < j < |keys| ==> keys[j].column != column
    {
      sortIndex := sortIndex - 1;
    }
    LastIndexOfUnique(keys, column, sortIndex);
  }

  /** The standard toggle as the row sorter performs it. */
  method DefaultToggle(keys: seq<SortKey>, column: Column, maxKeys: nat) returns (r: seq<SortKey>)
    requires maxKeys >= 1
    ensures r == DefaultToggled(keys, column, maxKeys)
  {
    var sortIndex := LastKeyIndex(keys, column);
    if sortIndex == -1 {
      r := [SortKey(column, Ascending)] + keys;
    } else if sortIndex == 0 {
      r := [Toggle(keys[0])] + keys[1..];
    } else {
      r := [SortKey(column, Ascending)] + keys[..sortIndex] + keys[sortIndex + 1..];
    }
    assert r == Reordered(keys, column, sortIndex);
    ghost var ks := r;
    if |r| > maxKeys {
      r := r[..maxKeys];
    }
    assert r == if |ks| > maxKeys then ks[..maxKeys] else ks;
  }

  /** Moving the column's last key to the front, ascending, keeps the columns distinct. */
  lemma ReorderedDistinct(keys: seq<SortKey>, column: Column)
    requires DistinctColumns(keys)
    ensures var ks := Reordered(keys, column, LastIndexOf(keys, column));
      ks[0].column == column && ks[0].order != Unsorted && DistinctColumns(ks)
  {
    var i := LastIndexOf(keys, column);
    if i < 0 {
      PrependDistinct(keys, SortKey(column, Ascending));
    } else if i == 0 {
      PrependDistinct(keys[1..], Toggle(keys[0]));
    } else {
      MoveToFrontDistinct(keys, column, i);
    }
  }

  /** A key on a column the others do not use can go in front. */
  lemma PrependDistinct(keys: seq<SortKey>, k: SortKey)
    requires DistinctColumns(keys)
    requires forall j :: 0 <= j < |keys| ==> keys[j].column != k.column
    ensures DistinctColumns([k] + keys)
  {
    var ks := [k] + keys;
    forall a, b | 0 <= a < b < |ks| ensures ks[a].column != ks[b].column {
      assert ks[b] == keys[b - 1];
      if a > 0 {
        assert ks[a] == keys[a - 1];
      }
    }
  }

  /** Removing the column's key at i and putting a fresh one in front keeps the columns distinct. */
  lemma MoveToFrontDistinct(keys: seq<SortKey>, column: Column, i: int)
    requires DistinctColumns(keys)
    requires 0 < i < |keys| && keys[i].column == column
    ensures DistinctColumns([SortKey(column, Ascending)] + keys[..i] + keys[i + 1..])
  {
    var rest := keys[..i] + keys[i + 1..];
    assert forall p :: 0 <= p < |rest| ==> rest[p] == keys[if p < i then p else p + 1];
    assert forall j :: 0 <= j < |rest| ==> rest[j].column != column;
    assert DistinctColumns(rest) by {
      forall a, b | 0 <= a < b < |rest| ensures rest[a].column != rest[b].column {
        var ia, ib := if a < i then a else a + 1, if b < i then b else b + 1;
        assert rest[a] == keys[ia] && rest[b] == keys[ib] && ia < ib;
      }
    }
    PrependDistinct(rest, SortKey(column, Ascending));
    assert [SortKey(column, Ascending)] + keys[..i] + keys[i + 1..] == [SortKey(column, Ascending)] + rest;
  }

  /** Cutting keys to a prefix keeps them distinct. */
  lemma PrefixDistinct(keys: seq<SortKey>, n: nat)
    requires DistinctColumns(keys) && n <= |keys|
    ensures DistinctColumns(keys[..n])
  {
  }

  /**
   * The standard toggle makes the clicked column the primary key, sorted, never
   * sorts a column twice and never exceeds the maximum.
   */
  lemma DefaultToggledShape(keys: seq<SortKey>, column: Column, maxKeys: nat)
    requires maxKeys >= 1
    requires DistinctColumns(keys)
    ensures var r := DefaultToggled(keys, column, maxKeys);
      && 1 <= |r| <= maxKeys
      && r[0].column == column && r[0].order != Unsorted
      && DistinctColumns(r)
  {
    var ks := Reordered(keys, column, LastIndexOf(keys, column));
    ReorderedDistinct(keys, column);
    if |ks| > maxKeys {
      PrefixDistinct(ks, maxKeys);
    }
  }

  /** Clicking the primary column twice restores a sorted primary key, and nothing else moves. */
  lemma DefaultToggledTwice(keys: seq<SortKey>, column: Column, maxKeys: nat)
    requires maxKeys >= 1 && |keys| <= maxKeys
    requires keys != [] && keys[0].column == column && keys[0].order != Unsorted
    requires DistinctColumns(keys)
    ensures DefaultToggled(DefaultToggled(keys, column, maxKeys), column, maxKeys) == keys
  {
    LastIndexOfUnique(keys, column, 0);
    var once := [Toggle(keys[0])] + keys[1..];
    assert DefaultToggled(keys, column, maxKeys) == once;
    assert forall j :: 0 < j < |once| ==> once[j] == keys[j];
    LastIndexOfUnique(once, column, 0);
    assert [Toggle(once[0])] + once[1..] == keys;
  }

  /** The created/seats click: two keys are cleared, anything else becomes the panel's order. */
  function SpecialToggled(keys: seq<SortKey>): (r: seq<SortKey>)
    ensures r == [] || r == SeatsThenCreated
    ensures r == [] <==> |keys| == 2
  {
    if |keys| == 2 then [] else SeatsThenCreated
  }

  /** The sort keys after n clicks on the created or seats header. */
  function SpecialClicks(keys: seq<SortKey>, n: nat): seq<SortKey>
  {
    if n == 0 then keys else SpecialToggled(SpecialClicks(keys, n - 1))
  }

  /** From the panel's initial order, odd numbers of clicks clear the sort and even ones restore it. */
  lemma {:induction false} SpecialClicksAlternate(n: nat)
    ensures SpecialClicks(SeatsThenCreated, n) == if n % 2 == 0 then SeatsThenCreated else []
  {
    if n > 0 {
      SpecialClicksAlternate(n - 1);
    }
  }

  /** The active-table sorter: its sort keys and its row filter are replaced in place. */
  class ActiveTablesSorter {
    var sortKeys: seq<SortKey>
    const maxSortKeys: nat
    var rowFilter: Option<Filter>  // None until the panel installs one

    ghost predicate Valid()
      reads this
    {
      maxSortKeys == DefaultMaxSortKeys && |sortKeys| <= maxSortKeys && DistinctColumns(sortKeys)
    }

    /** The panel installs its own two-key order right after creating the sorter. */
    constructor ()
      ensures Valid()
      ensures maxSortKeys == DefaultMaxSortKeys
      ensures sortKeys == SeatsThenCreated
      ensures rowFilter == None
    {
      maxSortKeys := DefaultMaxSortKeys;
      sortKeys := SeatsThenCreated;
      rowFilter := None;
    }

    /** `setRowFilter(filter)`: the filter is replaced and the sort keys stay. */
    method SetRowFilter(filter: Filter)
      requires Valid()
      modifies this
      ensures Valid()
      ensures rowFilter == Some(filter) && sortKeys == old(sortKeys)
    {
      rowFilter := Some(filter);
    }

    /** `toggleSortOrder(column)` as the panel overrides it. */
    method ToggleSortOrder(column: Column)
      requires Valid()
      modifies this
      ensures Valid() && rowFilter == old(rowFilter)
      ensures column == Created || column == Seats ==> sortKeys == SpecialToggled(old(sortKeys))
      ensures column != Created && column != Seats ==> sortKeys == DefaultToggled(old(sortKeys), column, maxSortKeys)
    {
      if column == Created || column == Seats {
        if |sortKeys| == 2 {
          sortKeys := [];  // setSortKeys(null) clears the keys
        } else {
          sortKeys := SeatsThenCreated;
        }
      } else {
        DefaultToggledShape(sortKeys, column, maxSortKeys);
        sortKeys := DefaultToggle(sortKeys, column, maxSortKeys);
      }
    }
  }
}
