/**
 * The `Storage` helper of js/storage.js over three keys of the browser's key-value store:
 * the current player's name, the leaderboard and the last game result. A stored JSON text is
 * described only by what `JSON.parse` makes of it; the codec itself is not modelled.
 */
module LocalStorage {
  import opened Wrappers
  import opened Records

  /** What `JSON.parse` yields for the texts this program stores. */
  datatype Json = JNull | JList(records: seq<RatingRecord>) | JRecord(record: RatingRecord) | JOther

  /** A present key holds a text that either parses to a value or makes `JSON.parse` throw. */
  datatype Stored = Encoded(value: Json) | Corrupt

  /**
   * `safeParse(raw, fallback)`. A missing key reads as `null`, which `JSON.parse` turns into
   * `null`; a text that does not parse gives the fallback.
   */
  function SafeParse(raw: Option<Stored>, fallback: Json): (j: Json)
    ensures raw.None? ==> j == JNull
    ensures raw == Some(Corrupt) ==> j == fallback
    ensures raw.Some? && raw.value.Encoded? ==> j == raw.value.value
  {
    match raw
    case None => JNull
    case Some(Corrupt) => fallback
    case Some(Encoded(v)) => v
  }

  /** `getRating` on a stored slot: the parsed list, and `[]` whenever that is not a list. */
  function RatingOf(raw: Option<Stored>): (list: seq<RatingRecord>)
    ensures list != [] ==> raw.Some? && raw.value.Encoded? && raw.value.value == JList(list)
  {
    var parsed := SafeParse(raw, JList([]));
    if parsed.JList? then parsed.records else []
  }

  /** `[]` whenever the key is missing, does not parse, or parses to something other than an array. */
  lemma RatingFallback(raw: Option<Stored>)
    ensures raw.None? || raw == Some(Corrupt) ==> RatingOf(raw) == []
    ensures raw.Some? && raw.value.Encoded? && !raw.value.value.JList? ==> RatingOf(raw) == []
  {
  }

  /** `list.findIndex(item => item.name === name)`: the first entry with that name, or -1. */
  function FindByName(list: seq<RatingRecord>, name: string): (i: int)
    ensures -1 <= i < |list|
    ensures i >= 0 ==> list[i].name == name && forall k :: 0 <= k < i ==> list[k].name != name
    ensures i == -1 ==> forall k :: 0 <= k < |list| ==> list[k].name != name
  {
    if list == [] then -1
    else if list[0].name == name then 0
    else
      var j := FindByName(list[1..], name);
      if j < 0 then -1 else j + 1
  }

  /** The edit `addRatingRecord` makes before sorting: replace a worse entry of that name, or append. */
  function Upsert(list: seq<RatingRecord>, record: RatingRecord): (r: seq<RatingRecord>)
    ensures |r| == |list| || |r| == |list| + 1
    ensures exists k :: 0 <= k < |r| && r[k].name == record.name
  {
    var i := FindByName(list, record.name);
    if i >= 0 then
      var r := if record.score > list[i].score then list[i := record] else list;
      assert r[i].name == record.name;
      r
    else
      assert (list + [record])[|list|] == record;
      list + [record]
  }

  /** A player already listed: the first entry of that name is replaced only by a strictly higher score. */
  lemma UpsertExisting(list: seq<RatingRecord>, record: RatingRecord, i: int)
    requires 0 <= i < |list| && list[i].name == record.name
    requires forall k :: 0 <= k < i ==> list[k].name != record.name
    ensures |Upsert(list, record)| == |list|
    ensures Upsert(list, record)[i] == if record.score > list[i].score then record else list[i]
    ensures forall k :: 0 <= k < |list| && k != i ==> Upsert(list, record)[k] == list[k]
  {
    assert FindByName(list, record.name) == i;
  }

  /** A new player is appended, so the list grows by exactly one. */
  lemma UpsertNew(list: seq<RatingRecord>, record: RatingRecord)
    requires forall k :: 0 <= k < |list| ==> list[k].name != record.name
    ensures Upsert(list, record) == list + [record]
    ensures |Upsert(list, record)| == |list| + 1
  {
  }

  /** The upsert keeps a player's best score and holds the old entries with at most that one exchanged. */
  lemma UpsertMultiset(list: seq<RatingRecord>, record: RatingRecord)
    ensures var i := FindByName(list, record.name);
      if i < 0 then multiset(Upsert(list, record)) == multiset(list) + multiset{record}
      else if record.score > list[i].score then
        multiset(Upsert(list, record)) == multiset(list) - multiset{list[i]} + multiset{record}
      else Upsert(list, record) == list
  {
  }

  /** `getPlayerRecords`: the entries of one player, in list order. */
  function Filter(list: seq<RatingRecord>, name: string): (r: seq<RatingRecord>)
    ensures forall x :: x in r <==> x in list && x.name == name
  {
    if list == [] then []
    else
      assert list == [list[0]] + list[1..];
      (if list[0].name == name then [list[0]] else []) + Filter(list[1..], name)
  }

  /** Filtering a concatenation filters each part and keeps them in order. */
  lemma {:induction false} FilterAppend(a: seq<RatingRecord>, b: seq<RatingRecord>, name: string)
    ensures Filter(a + b, name) == Filter(a, name) + Filter(b, name)
    decreases |a|
  {
    if a == [] {
      assert a + b == b;
    } else {
      FilterAppend(a[1..], b, name);
      assert (a + b)[0] == a[0];
      assert (a + b)[1..] == a[1..] + b;
    }
  }

  /** Every entry of the player is kept as often as it occurs, and no other entry. */
  lemma {:induction false} FilterCounts(list: seq<RatingRecord>, name: string, x: RatingRecord)
    ensures multiset(Filter(list, name))[x] == if x.name == name then multiset(list)[x] else 0
    decreases |list|
  {
    if list != [] {
      FilterCounts(list[1..], name, x);
      assert list == [list[0]] + list[1..];
    }
  }

  class LocalStore {
    var player: Option<string>
    var rating: Option<Stored>
    var lastResult: Option<Stored>

    /** A store with none of the three keys. */
    constructor()
      ensures player.None? && rating.None? && lastResult.None?
    {
      player := None;
      rating := None;
      lastResult := None;
    }

    /** `getCurrentPlayerName`: the stored name, or '' when the key is missing. */
    function CurrentPlayerName(): (name: string)
      reads this
      ensures name == "" <==> player.None? || player.value == ""
    {
      if player.Some? then player.value else ""
    }

    method SetCurrentPlayerName(name: string)
      modifies this
      ensures player == Some(name) && CurrentPlayerName() == name
      ensures rating == old(rating) && lastResult == old(lastResult)
    {
      player := Some(name);
    }

    method ClearCurrentPlayer()
      modifies this
      ensures player.None? && CurrentPlayerName() == ""
      ensures rating == old(rating) && lastResult == old(lastResult)
    {
      player := None;
    }

    /** `getRating`. */
    function Rating(): seq<RatingRecord>
      reads this
    {
      RatingOf(rating)
    }

    /** `saveRating`: what is written reads back unchanged. */
    method SaveRating(list: seq<RatingRecord>)
      modifies this
      ensures rating == Some(Encoded(JList(list))) && Rating() == list
      ensures player == old(player) && lastResult == old(lastResult)
    {
      rating := Some(Encoded(JList(list)));
    }

    /** `addRatingRecord`: upsert by name, sort by score descending, write back. */
    method AddRatingRecord(record: RatingRecord)
      modifies this
      ensures Rating() == SortBy(Upsert(old(Rating()), record), ScoreDesc)
      ensures SortedBy(Rating(), ScoreDesc)
      ensures multiset(Rating()) == multiset(Upsert(old(Rating()), record))
      ensures player == old(player) && lastResult == old(lastResult)
    {
      var list := Rating();
      var i := FindByName(list, record.name);
      if i >= 0 {
        if record.score > list[i].score {
          list := list[i := record];
        }
      } else {
        list := list + [record];
      }
      SortByCorrect(list, ScoreDesc);
      list := SortBy(list, ScoreDesc);
      SaveRating(list);
    }

    method ClearRating()
      modifies this
      ensures rating.None? && Rating() == []
      ensures player == old(player) && lastResult == old(lastResult)
    {
      rating := None;
    }

    method SaveLastResult(result: RatingRecord)
      modifies this
      ensures lastResult == Some(Encoded(JRecord(result))) && LastResult() == JRecord(result)
      ensures player == old(player) && rating == old(rating)
    {
      lastResult := Some(Encoded(JRecord(result)));
    }

    /** `getLastResult`: the parsed value, `null` when missing or unparseable. */
    function LastResult(): Json
      reads this
    {
      SafeParse(lastResult, JNull)
    }

    /** `getPlayerRecords(name)`. */
    function PlayerRecords(name: string): (r: seq<RatingRecord>)
      reads this
      ensures forall x :: x in r <==> x in Rating() && x.name == name
    {
      Filter(Rating(), name)
    }

    /** `clearAllData`: all three keys are removed. */
    method ClearAllData()
      modifies this
      ensures player.None? && rating.None? && lastResult.None?
      ensures CurrentPlayerName() == "" && Rating() == [] && LastResult() == JNull
    {
      player := None;
      rating := None;
      lastResult := None;
    }
  }
}
