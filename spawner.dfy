/**
 * The spawn interval of `renderLevel2` in js/game.js: one call of `Step` is one tick. The
 * queue is the task's sequence; each value of it is spawned by force, in order, at the latest
 * on the fourth tick that is not skipped, and the random branches may bring a not-yet-seen
 * value of the sequence earlier. The coin flips and the index draw are parameters.
 */
module Spawner {
  import opened Wrappers
  import Utils

  /** A number to drop, and whether it counts as one of the needed values. */
  datatype Spawn = Spawn(value: int, needed: bool)

  const MaxSpawns: int := 100
  const MaxFallingAtOnce: int := 6

  /** `sequence.every(num => spawned.has(num))`. */
  predicate AllSpawned(q: seq<int>, spawned: set<int>)
  {
    forall k :: 0 <= k < |q| ==> q[k] in spawned
  }

  /** How many positions of the sequence hold a value that has not appeared yet. */
  function CountMissing(q: seq<int>, spawned: set<int>): (n: nat)
    ensures n <= |q|
    ensures n == 0 <==> AllSpawned(q, spawned)
  {
    if q == [] then 0
    else
      var rest := CountMissing(q[1..], spawned);
      assert AllSpawned(q, spawned) <==> q[0] in spawned && AllSpawned(q[1..], spawned) by {
        assert forall k :: 1 <= k < |q| ==> q[k] == q[1..][k - 1];
      }
      (if q[0] in spawned then 0 else 1) + rest
  }

  /** Seeing one more value never adds a missing position, and removes one when the value was missing. */
  lemma {:induction false} CountMissingShrinks(q: seq<int>, spawned: set<int>, v: int)
    ensures CountMissing(q, spawned + {v}) <= CountMissing(q, spawned)
    ensures v in q && v !in spawned ==> CountMissing(q, spawned + {v}) < CountMissing(q, spawned)
  {
    if q != [] {
      CountMissingShrinks(q[1..], spawned, v);
      if v in q && v !in spawned && q[0] != v {
        assert v in q[1..] by {
          var k :| 0 <= k < |q| && q[k] == v;
          assert q[1..][k - 1] == v;
        }
      }
    }
  }

  /** `sequence.filter(num => !spawned.has(num))`. */
  function NotSpawned(q: seq<int>, spawned: set<int>): (r: seq<int>)
    ensures forall x :: x in r <==> x in q && x !in spawned
    ensures r == [] <==> AllSpawned(q, spawned)
  {
    if q == [] then []
    else
      assert q == [q[0]] + q[1..];
      assert AllSpawned(q, spawned) <==> q[0] in spawned && AllSpawned(q[1..], spawned) by {
        assert forall k :: 1 <= k < |q| ==> q[k] == q[1..][k - 1];
      }
      (if q[0] in spawned then [] else [q[0]]) + NotSpawned(q[1..], spawned)
  }

  /**
   * The queue entries still to force, then the sequence positions whose value has not appeared,
   * then the ticks left before the next forced spawn, weighed so that each outranks the next.
   */
  function PendingOf(n: int, index: int, missing: int, last: int): int
  {
    (n - index) * (4 * n + 4) + 4 * missing + (3 - last)
  }

  /**
   * Each kind of spawning tick lowers the measure while the queue has entries: a forced spawn
   * moves the queue on, any other needed spawn brings a missing value, and a spawn that is not
   * needed brings the next forced spawn one tick closer.
   */
  lemma PendingDrops(n: int, index: int, missing: int, last: int, index': int, missing': int, last': int)
    requires 0 <= index < n && 0 <= missing' <= missing <= n && 0 <= last <= 3
    requires || (index' == index + 1 && last' == 0)
             || (index' == index && missing' < missing && last' == 0 && last < 3)
             || (index' == index && missing' == missing && last' == last + 1 && last < 3)
    ensures 0 <= PendingOf(n, index', missing', last') < PendingOf(n, index, missing, last)
  {
    var w := 4 * n + 4;
    var later := n - index - 1;
    ProductFacts(later, w);
    if index' == index + 1 {
      assert n - index' == later;
    } else {
      assert n - index' == later + 1;
    }
  }

  lemma ProductFacts(a: nat, w: nat)
    ensures (a + 1) * w == a * w + w && a * w >= 0
  {
  }

  /**
   * The choice of a tick that is not forced: the value expected next if it has not appeared
   * (60%), else any value of the sequence that has not appeared (30%), else a random number of
   * the task, which counts as needed only when it is a sequence value not seen before.
   */
  function OrdinaryPick(queue: seq<int>, numbers: seq<int>, spawned: set<int>, expectedIndex: int,
                        coin60: bool, coin30: bool, pick: real): (s: Spawn)
    requires |numbers| >= 1 && Utils.IsDraw(pick)
    ensures s.needed ==> s.value in queue && s.value !in spawned
    ensures !s.needed ==> s.value in numbers && (s.value in queue ==> s.value in spawned)
    ensures AllSpawned(queue, spawned) ==> !s.needed
    ensures 0 <= expectedIndex < |queue| && queue[expectedIndex] != 0 && queue[expectedIndex] !in spawned && coin60 ==>
              s == Spawn(queue[expectedIndex], true)
    ensures !AllSpawned(queue, spawned) && coin30 ==> s.needed
  {
    var allSpawned := AllSpawned(queue, spawned);
    if !allSpawned && 0 <= expectedIndex < |queue| && queue[expectedIndex] != 0
       && queue[expectedIndex] !in spawned && coin60 then
      Spawn(queue[expectedIndex], true)
    else if !allSpawned && coin30 then
      var notSpawned := NotSpawned(queue, spawned);
      Spawn(notSpawned[Utils.RandomInt(0, |notSpawned| - 1, pick)], true)
    else
      var value := numbers[Utils.RandomInt(0, |numbers| - 1, pick)];
      Spawn(value, value in queue && value !in spawned)
  }

  /** Whether a tick that spawns is a forced spawn of the next queued value. */
  predicate Forced(queueLength: int, index: int, last: int, count: int)
  {
    index < queueLength && (last >= 3 || count % 5 == 0)
  }

  class SpawnScheduler {
    /** `neededQueue`, the copy of the task's sequence, which is also `expectedSequence`. */
    const queue: seq<int>
    /** The task's numbers, the pool of the plain random spawns. */
    const numbers: seq<int>
    var spawnCount: int
    var neededSpawnIndex: int
    var lastNeededSpawn: int
    var spawnedNeeded: set<int>
    /** Whether the interval is still set. */
    var running: bool

    /**
     * The forced spawns went through the queue in order, only sequence values are recorded as
     * spawned, and while the queue has entries at most three ticks pass without a needed spawn.
     */
    predicate Valid()
      reads this
    {
      |numbers| >= 1 && 0 <= spawnCount
      && 0 <= neededSpawnIndex <= |queue| && 0 <= lastNeededSpawn
      && (forall k :: 0 <= k < neededSpawnIndex ==> queue[k] in spawnedNeeded)
      && (forall v :: v in spawnedNeeded ==> v in queue)
      && (neededSpawnIndex < |queue| ==> lastNeededSpawn <= 3)
    }

    /** Decreases on every tick that spawns while the queue still has entries. */
    function Pending(): int
      reads this
    {
      PendingOf(|queue|, neededSpawnIndex, CountMissing(queue, spawnedNeeded), lastNeededSpawn)
    }

    constructor(sequence: seq<int>, numbers: seq<int>)
      requires |numbers| >= 1
      ensures Valid() && running
      ensures queue == sequence && this.numbers == numbers
      ensures spawnCount == 0 && neededSpawnIndex == 0 && lastNeededSpawn == 0 && spawnedNeeded == {}
    {
      queue := sequence;
      this.numbers := numbers;
      spawnCount := 0;
      neededSpawnIndex := 0;
      lastNeededSpawn := 0;
      spawnedNeeded := {};
      running := true;
    }

    /**
     * One tick. `falling` is how many numbers are on screen, `expectedIndex` the session's
     * index, `coin60` and `coin30` the two `Math.random()` comparisons and `pick` the draw
     * behind `randomInt` in whichever branch uses one.
     */
    method Step(falling: int, expectedIndex: int, coin60: bool, coin30: bool, pick: real)
      returns (spawn: Option<Spawn>)
      requires Valid() && running && Utils.IsDraw(pick)
      modifies this
      ensures Valid()
      ensures spawnCount == old(spawnCount) + 1
      ensures falling >= MaxFallingAtOnce ==>
                && spawn.None? && running
                && neededSpawnIndex == old(neededSpawnIndex) && lastNeededSpawn == old(lastNeededSpawn)
                && spawnedNeeded == old(spawnedNeeded)
      ensures falling < MaxFallingAtOnce ==> spawn.Some?
      ensures falling < MaxFallingAtOnce ==> (!running <==> spawnCount >= MaxSpawns && AllSpawned(queue, spawnedNeeded))
      ensures falling < MaxFallingAtOnce && Forced(|queue|, old(neededSpawnIndex), old(lastNeededSpawn), spawnCount) ==>
                && spawn == Some(Spawn(queue[old(neededSpawnIndex)], true))
                && neededSpawnIndex == old(neededSpawnIndex) + 1 && lastNeededSpawn == 0
      ensures falling < MaxFallingAtOnce && !Forced(|queue|, old(neededSpawnIndex), old(lastNeededSpawn), spawnCount) ==>
                && spawn == Some(OrdinaryPick(queue, numbers, old(spawnedNeeded), expectedIndex, coin60, coin30, pick))
                && neededSpawnIndex == old(neededSpawnIndex)
                && lastNeededSpawn == if spawn.value.needed then 0 else old(lastNeededSpawn) + 1
      ensures spawn.Some? && spawn.value.needed ==>
                spawn.value.value in queue && spawnedNeeded == old(spawnedNeeded) + {spawn.value.value}
      ensures spawn.Some? && !spawn.value.needed ==>
                && spawn.value.value in numbers && spawnedNeeded == old(spawnedNeeded)
                && (spawn.value.value in queue ==> spawn.value.value in old(spawnedNeeded))
      ensures falling < MaxFallingAtOnce && old(neededSpawnIndex) < |queue| ==>
                0 <= Pending() < old(Pending())
    {
      spawnCount := spawnCount + 1;
      if falling >= MaxFallingAtOnce {
        return None;
      }
      ghost var before := spawnedNeeded;
      ghost var index := neededSpawnIndex;
      ghost var last := lastNeededSpawn;
      var value: int;
      var needed := false;
      if Forced(|queue|, neededSpawnIndex, lastNeededSpawn, spawnCount) {
        value := queue[neededSpawnIndex];
        needed := true;
        spawnedNeeded := spawnedNeeded + {value};
        neededSpawnIndex := neededSpawnIndex + 1;
        lastNeededSpawn := 0;
        CountMissingShrinks(queue, before, value);
      } else {
        value, needed := OrdinarySpawn(expectedIndex, coin60, coin30, pick);
        if needed {
          CountMissingShrinks(queue, before, value);
        }
      }
      if index < |queue| {
        PendingDrops(|queue|, index, CountMissing(queue, before), last,
                     neededSpawnIndex, CountMissing(queue, spawnedNeeded), lastNeededSpawn);
      }
      if spawnCount >= MaxSpawns && AllSpawned(queue, spawnedNeeded) {
        running := false;
      }
      spawn := Some(Spawn(value, needed));
    }

    /** A tick that is not forced: it spawns `OrdinaryPick` and records a needed value. */
    method OrdinarySpawn(expectedIndex: int, coin60: bool, coin30: bool, pick: real)
      returns (value: int, needed: bool)
      requires |numbers| >= 1 && Utils.IsDraw(pick)
      modifies this
      ensures Spawn(value, needed) == OrdinaryPick(queue, numbers, old(spawnedNeeded), expectedIndex, coin60, coin30, pick)
      ensures spawnCount == old(spawnCount) && neededSpawnIndex == old(neededSpawnIndex) && running == old(running)
      ensures spawnedNeeded == if needed then old(spawnedNeeded) + {value} else old(spawnedNeeded)
      ensures lastNeededSpawn == if needed then 0 else old(lastNeededSpawn) + 1
    {
      lastNeededSpawn := lastNeededSpawn + 1;
      needed := false;
      var allSpawned := AllSpawned(queue, spawnedNeeded);
      if !allSpawned && 0 <= expectedIndex < |queue| && queue[expectedIndex] != 0
         && queue[expectedIndex] !in spawnedNeeded && coin60 {
        value := queue[expectedIndex];
        needed := true;
      } else if !allSpawned && coin30 {
        var notSpawned := NotSpawned(queue, spawnedNeeded);
        value := notSpawned[Utils.RandomInt(0, |notSpawned| - 1, pick)];
        needed := true;
      } else {
        value := numbers[Utils.RandomInt(0, |numbers| - 1, pick)];
        needed := value in queue && value !in spawnedNeeded;
      }
      if needed {
        spawnedNeeded := spawnedNeeded + {value};
        lastNeededSpawn := 0;
      }
    }
  }
}
