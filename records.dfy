/**
 * A leaderboard entry as js/game.js builds it in `finishGame`, and the comparator that
 * js/rating.js (`applySort`) and js/storage.js (`addRatingRecord`) hand to `Array.prototype.sort`.
 * The engine's sort is stable; it is modelled as a stable insertion sort.
 */
module Records {

  datatype Reason = Finish | Win | Manual

  datatype RatingRecord = RatingRecord(
    name: string,
    score: int,
    maxLevel: int,
    difficulty: string,
    date: string,
    reason: Reason)

  /** The sortable columns of the leaderboard table. */
  datatype Field = Name | Score | MaxLevel | Difficulty | Date

  datatype Dir = Asc | Desc

  datatype SortSpec = SortSpec(field: Field, dir: Dir)

  /** The order `addRatingRecord` keeps: `(a, b) => b.score - a.score`. */
  const ScoreDesc: SortSpec := SortSpec(Score, Desc)

  /**
   * Stand-in for `String.prototype.localeCompare`: code-point lexicographic order,
   * returning -1, 0 or 1.
   */
  function LexCompare(a: string, b: string): (c: int)
    ensures -1 <= c <= 1
    ensures c == 0 <==> a == b
    decreases |a|
  {
    if a == [] && b == [] then 0
    else if a == [] then -1
    else if b == [] then 1
    else if a[0] < b[0] then -1
    else if a[0] > b[0] then 1
    else LexCompare(a[1..], b[1..])
  }

  lemma {:induction false} LexCompareAntisymmetric(a: string, b: string)
    ensures LexCompare(a, b) == -LexCompare(b, a)
    decreases |a|
  {
    if a != [] && b != [] && a[0] == b[0] {
      LexCompareAntisymmetric(a[1..], b[1..]);
    }
  }

  function NumberField(r: RatingRecord, f: Field): int
    requires f == Score || f == MaxLevel
  {
    if f == Score then r.score else r.maxLevel
  }

  function TextField(r: RatingRecord, f: Field): string
    requires f != Score && f != MaxLevel
  {
    match f
    case Name => r.name
    case Difficulty => r.difficulty
    case Date => r.date
  }

  /** The comparator of `applySort`: numeric difference for score and level, text order otherwise. */
  function Compare(x: RatingRecord, y: RatingRecord, spec: SortSpec): (c: int)
    ensures spec.field == Score || spec.field == MaxLevel ==>
              (c <= 0 <==> if spec.dir == Asc then NumberField(x, spec.field) <= NumberField(y, spec.field)
                           else NumberField(x, spec.field) >= NumberField(y, spec.field))
    ensures spec.field != Score && spec.field != MaxLevel ==>
              -1 <= c <= 1 && (c == 0 <==> TextField(x, spec.field) == TextField(y, spec.field))
  {
    if spec.field == Score || spec.field == MaxLevel then
      if spec.dir == Asc then NumberField(x, spec.field) - NumberField(y, spec.field)
      else NumberField(y, spec.field) - NumberField(x, spec.field)
    else
      if spec.dir == Asc then LexCompare(TextField(x, spec.field), TextField(y, spec.field))
      else LexCompare(TextField(y, spec.field), TextField(x, spec.field))
  }

  /** The comparator is total: of two entries, one may always come first. */
  lemma CompareTotal(x: RatingRecord, y: RatingRecord, spec: SortSpec)
    ensures Compare(x, y, spec) <= 0 || Compare(y, x, spec) <= 0
  {
    if spec.field != Score && spec.field != MaxLevel {
      LexCompareAntisymmetric(TextField(x, spec.field), TextField(y, spec.field));
    }
  }

  predicate SortedBy(s: seq<RatingRecord>, spec: SortSpec)
  {
    forall i :: 0 <= i < |s| - 1 ==> Compare(s[i], s[i + 1], spec) <= 0
  }

  /** Puts x before the first entry it does not follow; entries that compare equal keep x first. */
  function Insert(x: RatingRecord, s: seq<RatingRecord>, spec: SortSpec): (r: seq<RatingRecord>)
    ensures |r| == |s| + 1 && multiset(r) == multiset(s) + multiset{x}
    ensures r[0] == x || (|s| > 0 && r[0] == s[0])
  {
    if s == [] then [x]
    else if Compare(x, s[0], spec) <= 0 then [x] + s
    else
      assert s == [s[0]] + s[1..];
      [s[0]] + Insert(x, s[1..], spec)
  }

  /** `Array.prototype.sort` with the comparator of `spec`. */
  function SortBy(s: seq<RatingRecord>, spec: SortSpec): (r: seq<RatingRecord>)
    ensures |r| == |s|
  {
    if s == [] then [] else Insert(s[0], SortBy(s[1..], spec), spec)
  }

  lemma {:induction false} InsertSorted(x: RatingRecord, s: seq<RatingRecord>, spec: SortSpec)
    requires SortedBy(s, spec)
    ensures SortedBy(Insert(x, s, spec), spec)
    decreases |s|
  {
    if s != [] && Compare(x, s[0], spec) > 0 {
      CompareTotal(x, s[0], spec);
      InsertSorted(x, s[1..], spec);
      var rest := Insert(x, s[1..], spec);
      assert Insert(x, s, spec) == [s[0]] + rest;
      assert rest[0] == x || rest[0] == s[1];
    }
  }

  /** The sorted copy is ordered by the comparator and holds the same entries. */
  lemma {:induction false} SortByCorrect(s: seq<RatingRecord>, spec: SortSpec)
    ensures SortedBy(SortBy(s, spec), spec)
    ensures multiset(SortBy(s, spec)) == multiset(s)
  {
    SortBySorted(s, spec);
    SortByPermutes(s, spec);
  }

  lemma {:induction false} SortBySorted(s: seq<RatingRecord>, spec: SortSpec)
    ensures SortedBy(SortBy(s, spec), spec)
    decreases |s|
  {
    if s != [] {
      var tail := SortBy(s[1..], spec);
      SortBySorted(s[1..], spec);
      InsertSorted(s[0], tail, spec);
      assert SortBy(s, spec) == Insert(s[0], tail, spec);
    }
  }

  lemma {:induction false} SortByPermutes(s: seq<RatingRecord>, spec: SortSpec)
    ensures multiset(SortBy(s, spec)) == multiset(s)
    decreases |s|
  {
    if s != [] {
      var tail := SortBy(s[1..], spec);
      SortByPermutes(s[1..], spec);
      assert SortBy(s, spec) == Insert(s[0], tail, spec);
      HeadTailMultiset(s);
    }
  }

  lemma HeadTailMultiset<T>(s: seq<T>)
    requires s != []
    ensures multiset(s) == multiset(s[1..]) + multiset{s[0]}
  {
    assert s == [s[0]] + s[1..];
  }

  /** For the numeric columns neighbour order extends to every pair. */
  lemma {:induction false} SortedNumeric(s: seq<RatingRecord>, spec: SortSpec, i: int, j: int)
    requires spec.field == Score || spec.field == MaxLevel
    requires SortedBy(s, spec) && 0 <= i <= j < |s|
    ensures spec.dir == Asc ==> NumberField(s[i], spec.field) <= NumberField(s[j], spec.field)
    ensures spec.dir == Desc ==> NumberField(s[i], spec.field) >= NumberField(s[j], spec.field)
    decreases j - i
  {
    if i < j {
      SortedNumeric(s, spec, i + 1, j);
      assert Compare(s[i], s[i + 1], spec) <= 0;
    }
  }
}
