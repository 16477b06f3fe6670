/** The leaderboard page of js/rating.js: the column sort and its toggle. */
module RatingPage {
  import opened Records

  /** `applySort`: a sorted copy; the caller's list is a value and stays as it was. */
  function ApplySort(list: seq<RatingRecord>, current: SortSpec): (r: seq<RatingRecord>)
    ensures |r| == |list| && multiset(r) == multiset(list)
    ensures SortedBy(r, current)
  {
    SortByCorrect(list, current);
    SortBy(list, current)
  }

  /** For score and level the sorted copy is monotone in the announced direction. */
  lemma ApplySortNumeric(list: seq<RatingRecord>, current: SortSpec, i: int, j: int)
    requires current.field == Score || current.field == MaxLevel
    requires 0 <= i <= j < |list|
    ensures var r := ApplySort(list, current);
      (current.dir == Asc ==> NumberField(r[i], current.field) <= NumberField(r[j], current.field))
      && (current.dir == Desc ==> NumberField(r[i], current.field) >= NumberField(r[j], current.field))
  {
    SortedNumeric(ApplySort(list, current), current, i, j);
  }

  /** The sort state after a click on a column header. */
  function NextSort(current: SortSpec, field: Field): (next: SortSpec)
    ensures next.field == field
    ensures current.field == field ==> next.dir != current.dir
    ensures current.field != field ==> next.dir == Asc
  {
    if current.field == field then SortSpec(field, if current.dir == Asc then Desc else Asc)
    else SortSpec(field, Asc)
  }

  /** Clicking the same header twice restores the order. */
  lemma NextSortTwice(current: SortSpec)
    ensures NextSort(NextSort(current, current.field), current.field) == current
  {
  }

  /** Clicking a new header and then the same one again sorts that column descending. */
  lemma NewColumnThenFlip(current: SortSpec, field: Field)
    requires field != current.field
    ensures NextSort(NextSort(current, field), field) == SortSpec(field, Desc)
  {
  }

  /** `currentSort` and `handleSort`. */
  class SortControl {
    var current: SortSpec

    /** The page opens sorted by score, highest first. */
    constructor()
      ensures current == SortSpec(Score, Desc)
    {
      current := SortSpec(Score, Desc);
    }

    /** Flips the direction on the current column, or switches to another column ascending. */
    method HandleSort(field: Field, list: seq<RatingRecord>) returns (shown: seq<RatingRecord>)
      modifies this
      ensures current == NextSort(old(current), field)
      ensures shown == ApplySort(list, current)
    {
      if current.field == field {
        current := current.(dir := if current.dir == Asc then Desc else Asc);
      } else {
        current := SortSpec(field, Asc);
      }
      shown := ApplySort(list, current);
    }
  }
}
