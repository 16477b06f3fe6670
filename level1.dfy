/**
 * `generateLevel1Task` of js/game.js: four rules that each build a pool of numbers and the
 * sequence the player must click, in the announced direction. Every `Math.random()` the rules
 * call is a field of `Level1Draws`, in [0, 1).
 */
module LevelOne {
  import opened Wrappers
  import opened Tuning
  import Utils
  import opened Lists

  /** The property a rule asks for. */
  datatype Test = Even | MultipleOf(k: int) | IsPrime

  predicate Satisfies(n: int, t: Test)
  {
    match t
    case Even => n % 2 == 0
    case MultipleOf(k) => k > 0 && n % k == 0
    case IsPrime => Utils.Prime(n)
  }

  /** `filter` with the rule's test. */
  function Filter(xs: seq<int>, t: Test): (r: seq<int>)
    ensures |r| <= |xs|
    ensures forall x :: x in r <==> x in xs && Satisfies(x, t)
    ensures Distinct(xs) ==> Distinct(r)
  {
    if xs == [] then []
    else
      assert xs == [xs[0]] + xs[1..];
      var rest := Filter(xs[1..], t);
      if Satisfies(xs[0], t) then [xs[0]] + rest else rest
  }

  /** `filter(test).sort(sortFn)`: every satisfying value of the pool, in the announced direction. */
  function Pick(xs: seq<int>, t: Test, asc: bool): (r: seq<int>)
    ensures forall x :: x in r <==> x in xs && Satisfies(x, t)
    ensures Sorted(r, asc)
    ensures Distinct(xs) ==> StrictlySorted(r, asc)
  {
    var f := Filter(xs, t);
    var r := SortNums(f, asc);
    SortNumsSorted(f, asc);
    assert forall x :: x in r <==> x in f by {
      forall x ensures x in r <==> x in f {
        assert x in r <==> x in multiset(r);
        assert x in f <==> x in multiset(f);
      }
    }
    r
  }

  /** `Array.from({ length: n }, () => randomInt(lo, hi))`. */
  function RandomInts(n: nat, lo: int, hi: int, ds: seq<real>): (r: seq<int>)
    requires lo <= hi && n <= |ds| && Utils.Draws(ds)
    ensures |r| == n
    ensures forall x :: x in r ==> lo <= x <= hi
  {
    seq(n, k requires 0 <= k < n => Utils.RandomInt(lo, hi, ds[k]))
  }

  /** `num % 2 === 0 ? num : num + 1`. */
  function EvenUps(xs: seq<int>): (r: seq<int>)
    ensures |r| == |xs|
    ensures forall k :: 0 <= k < |xs| ==> r[k] % 2 == 0 && xs[k] <= r[k] <= xs[k] + 1
  {
    seq(|xs|, k requires 0 <= k < |xs| => if xs[k] % 2 == 0 then xs[k] else xs[k] + 1)
  }

  lemma EvenUpsBounds(xs: seq<int>, lo: int, hi: int)
    requires forall x :: x in xs ==> lo <= x <= hi
    ensures forall x :: x in EvenUps(xs) ==> x % 2 == 0 && lo <= x <= hi + 1
  {
    forall x | x in EvenUps(xs) ensures x % 2 == 0 && lo <= x <= hi + 1 {
      var k :| 0 <= k < |xs| && EvenUps(xs)[k] == x;
      assert xs[k] in xs;
    }
  }

  function Min(a: int, b: int): int { if a < b then a else b }
  function Max(a: int, b: int): int { if a > b then a else b }

  datatype Rule = Evens | Multiples(k: int) | Progression(start: int) | Primes

  /** What a rule hands back: the shuffled grid and the sequence to click. */
  datatype Task = Task(rule: Rule, ascending: bool, numbers: seq<int>, sequence: seq<int>)

  /** Every `Math.random()` a Level-1 task may use. */
  datatype Level1Draws = Level1Draws(
    rule: real, direction: real, factor: real,
    guaranteed: seq<real>, pool: seq<real>, extra: seq<real>,
    order: seq<real>, pick: seq<real>, repick: seq<real>)

  predicate Enough(d: Level1Draws)
  {
    Utils.IsDraw(d.rule) && Utils.IsDraw(d.direction) && Utils.IsDraw(d.factor)
    && Utils.Draws(d.guaranteed) && |d.guaranteed| >= 6
    && Utils.Draws(d.pool) && |d.pool| >= 20
    && Utils.Draws(d.extra) && |d.extra| >= 4
    && Utils.Draws(d.order) && |d.order| >= 30
    && Utils.Draws(d.pick) && |d.pick| >= 34
    && Utils.Draws(d.repick) && |d.repick| >= 34
  }

  /** `Math.floor(maxNum * 0.7)`; for the three table values 60, 100 and 150 this is exact. */
  function GuaranteedMax(maxNum: int): int { maxNum * 7 / 10 }

  /**
   * The common tail of the filter rules: the satisfying values sorted; if fewer than four,
   * the extra values are pushed into the grid and merged into the sequence.
   */
  function Assemble(all: seq<int>, t: Test, asc: bool, extra: seq<int>, order: seq<real>): (r: (seq<int>, seq<int>))
    requires Utils.Draws(order) && |all| + |extra| <= |order| + 1
    ensures multiset(r.0) == multiset(all) || multiset(r.0) == multiset(all + extra)
  {
    var found := Pick(all, t, asc);
    if |found| < 4 then (Utils.FisherYates(all + extra, order), Pick(Dedup(found + extra), t, asc))
    else (Utils.FisherYates(all, order), found)
  }

  /**
   * The sequence is exactly the satisfying values of the grid, strictly ordered in the announced
   * direction, never empty once one value of the pool or of the extras satisfies the test; the
   * grid holds only pool and extra values, and has no repeats unless the fallback ran.
   */
  lemma AssembleCorrect(all: seq<int>, t: Test, asc: bool, extra: seq<int>, order: seq<real>)
    requires Utils.Draws(order) && |all| + |extra| <= |order| + 1
    requires Distinct(all)
    requires forall x :: x in extra ==> Satisfies(x, t)
    ensures var (numbers, sequence) := Assemble(all, t, asc, extra, order);
      (forall x :: x in sequence <==> x in numbers && Satisfies(x, t))
      && StrictlySorted(sequence, asc)
      && (forall x :: x in numbers ==> x in all || x in extra)
      && ((exists x :: x in all && Satisfies(x, t)) || extra != [] ==> sequence != [])
      && (|Pick(all, t, asc)| >= 4 ==> Distinct(numbers) && sequence == Pick(all, t, asc))
  {
    var found := Pick(all, t, asc);
    if |found| < 4 {
      var numbers := Utils.FisherYates(all + extra, order);
      SameMembers(all + extra, numbers);
      var sequence := Pick(Dedup(found + extra), t, asc);
      assert forall x :: x in found + extra <==> x in found || x in extra;
      assert forall x :: x in all + extra <==> x in all || x in extra;
      if extra != [] {
        assert extra[0] in extra;
        assert extra[0] in sequence;
      } else if x :| x in all && Satisfies(x, t) {
        assert x in found;
        assert x in sequence;
      }
    } else {
      var numbers := Utils.FisherYates(all, order);
      SameMembers(all, numbers);
      PermutationKeepsDistinct(all, numbers);
    }
  }

  /** AssembleCorrect for a pool and extras within [lo, hi] and a pool value w that passes the test. */
  lemma FilterRuleCorrect(all: seq<int>, t: Test, asc: bool, extra: seq<int>, order: seq<real>, lo: int, hi: int, w: int)
    requires Utils.Draws(order) && |all| + |extra| <= |order| + 1
    requires Distinct(all)
    requires forall x :: x in extra ==> Satisfies(x, t) && lo <= x <= hi
    requires forall x :: x in all ==> lo <= x <= hi
    requires w in all && Satisfies(w, t)
    ensures var (numbers, sequence) := Assemble(all, t, asc, extra, order);
      (forall x :: x in sequence <==> x in numbers && Satisfies(x, t))
      && StrictlySorted(sequence, asc) && sequence != []
      && (forall x :: x in numbers ==> lo <= x <= hi)
      && (|Pick(all, t, asc)| >= 4 ==> Distinct(numbers) && sequence == Pick(all, t, asc))
  {
    AssembleCorrect(all, t, asc, extra, order);
  }

  /** The de-duplicated pool keeps the bounds of its parts and the first guaranteed value. */
  lemma DedupPool(guaranteed: seq<int>, pool: seq<int>, lo: int, hi: int)
    requires guaranteed != []
    requires forall x :: x in guaranteed ==> lo <= x <= hi
    requires forall x :: x in pool ==> lo <= x <= hi
    ensures forall x :: x in Dedup(guaranteed + pool) ==> lo <= x <= hi
    ensures guaranteed[0] in Dedup(guaranteed + pool)
  {
    forall x | x in Dedup(guaranteed + pool) ensures lo <= x <= hi {
      assert x in guaranteed + pool;
      assert x in guaranteed || x in pool;
    }
    assert guaranteed[0] in guaranteed + pool;
  }

  // ------------------------------------------------------------- evens

  function EvensPool(maxNum: int, d: Level1Draws): seq<int>
    requires 60 <= maxNum && Enough(d)
  {
    var guaranteed := EvenUps(RandomInts(6, 2, GuaranteedMax(maxNum), d.guaranteed));
    var pool := RandomInts(18, 2, maxNum, d.pool);
    Dedup(guaranteed + pool)
  }

  /** The rule "all even numbers, starting with ...". */
  function EvensTask(maxNum: int, d: Level1Draws): (t: Task)
    requires 60 <= maxNum && Enough(d)
    ensures t.rule == Evens && t.ascending == (d.direction < 0.5)
  {
    var asc := d.direction < 0.5;
    var extra := EvenUps(RandomInts(4, 2, GuaranteedMax(maxNum), d.extra));
    var (numbers, sequence) := Assemble(EvensPool(maxNum, d), Even, asc, extra, d.order);
    Task(Evens, asc, numbers, sequence)
  }

  lemma EvensPoolFacts(maxNum: int, d: Level1Draws)
    requires 60 <= maxNum && Enough(d)
    ensures forall x :: x in EvensPool(maxNum, d) ==> 2 <= x <= maxNum
    ensures exists w :: w in EvensPool(maxNum, d) && w % 2 == 0
  {
    var maxG := GuaranteedMax(maxNum);
    var guaranteed := EvenUps(RandomInts(6, 2, maxG, d.guaranteed));
    var pool := RandomInts(18, 2, maxNum, d.pool);
    EvenUpsBounds(RandomInts(6, 2, maxG, d.guaranteed), 2, maxG);
    DedupPool(guaranteed, pool, 2, maxNum);
    assert EvensPool(maxNum, d) == Dedup(guaranteed + pool);
    assert guaranteed[0] % 2 == 0;
  }

  lemma EvensCorrect(maxNum: int, d: Level1Draws)
    requires 60 <= maxNum && Enough(d)
    ensures var t := EvensTask(maxNum, d);
      (forall x :: x in t.sequence <==> x in t.numbers && x % 2 == 0)
      && StrictlySorted(t.sequence, t.ascending) && t.sequence != []
      && (forall x :: x in t.numbers ==> 2 <= x <= maxNum)
      && (|Pick(EvensPool(maxNum, d), Even, t.ascending)| >= 4 ==> Distinct(t.numbers))
  {
    var asc := d.direction < 0.5;
    var maxG := GuaranteedMax(maxNum);
    var extra := EvenUps(RandomInts(4, 2, maxG, d.extra));
    EvenUpsBounds(RandomInts(4, 2, maxG, d.extra), 2, maxG);
    var all := EvensPool(maxNum, d);
    EvensPoolFacts(maxNum, d);
    var w :| w in all && w % 2 == 0;
    FilterRuleCorrect(all, Even, asc, extra, d.order, 2, maxNum, w);
    var r := Assemble(all, Even, asc, extra, d.order);
    assert EvensTask(maxNum, d) == Task(Evens, asc, r.0, r.1);
  }

  // --------------------------------------------------------- multiples

  function MultiplesPool(maxNum: int, d: Level1Draws): seq<int>
    requires 60 <= maxNum && Enough(d)
  {
    var k := Utils.RandomInt(2, 9, d.factor);
    var guaranteed := Scale(RandomInts(6, 2, Min(15, maxNum / k), d.guaranteed), k);
    var pool := RandomInts(18, 5, maxNum, d.pool);
    Dedup(guaranteed + pool)
  }

  /** `factor * multiplier` for every factor. */
  function Scale(factors: seq<int>, k: int): (r: seq<int>)
    ensures |r| == |factors|
    ensures forall i :: 0 <= i < |r| ==> r[i] == factors[i] * k
  {
    seq(|factors|, i requires 0 <= i < |factors| => factors[i] * k)
  }

  /** The rule "all multiples of k, starting with ...": k in [2, 9] is drawn first. */
  function MultiplesTask(maxNum: int, d: Level1Draws): (t: Task)
    requires 60 <= maxNum && Enough(d)
    ensures t.rule.Multiples? && 2 <= t.rule.k <= 9 && t.ascending == (d.direction < 0.5)
  {
    var k := Utils.RandomInt(2, 9, d.factor);
    var asc := d.direction < 0.5;
    var extra := Scale(RandomInts(4, 2, Min(15, maxNum / k), d.extra), k);
    var (numbers, sequence) := Assemble(MultiplesPool(maxNum, d), MultipleOf(k), asc, extra, d.order);
    Task(Multiples(k), asc, numbers, sequence)
  }

  /** A factor of at most min(15, floor(maxNum / k)) gives a multiple of k within [2k, maxNum]. */
  lemma ScaledFactors(factors: seq<int>, k: int, maxNum: int)
    requires 2 <= k <= 9 && 60 <= maxNum
    requires forall x :: x in factors ==> 2 <= x <= Min(15, maxNum / k)
    ensures forall x :: x in Scale(factors, k) ==> 4 <= x <= maxNum && x % k == 0
  {
    forall x | x in Scale(factors, k) ensures 4 <= x <= maxNum && x % k == 0 {
      var i :| 0 <= i < |factors| && Scale(factors, k)[i] == x;
      assert factors[i] in factors;
      ScaledFactor(factors[i], k, maxNum);
    }
  }

  lemma ScaledFactor(f: int, k: int, maxNum: int)
    requires 2 <= k <= 9 && 60 <= maxNum && 2 <= f <= maxNum / k
    ensures 4 <= f * k <= maxNum && (f * k) % k == 0
  {
    var q := maxNum / k;
    assert k * q <= maxNum;
    Utils.MulAtLeast(f, q, k);
    Utils.MulAtLeast(2, f, k);
    Utils.ModOfMultiple(k, f);
    assert k * f == f * k;
  }

  lemma MultiplesPoolFacts(maxNum: int, d: Level1Draws)
    requires 60 <= maxNum && Enough(d)
    ensures var k := Utils.RandomInt(2, 9, d.factor);
      (forall x :: x in MultiplesPool(maxNum, d) ==> 4 <= x <= maxNum)
      && exists w :: w in MultiplesPool(maxNum, d) && w % k == 0
  {
    var k := Utils.RandomInt(2, 9, d.factor);
    var factors := RandomInts(6, 2, Min(15, maxNum / k), d.guaranteed);
    var guaranteed := Scale(factors, k);
    var pool := RandomInts(18, 5, maxNum, d.pool);
    ScaledFactors(factors, k, maxNum);
    DedupPool(guaranteed, pool, 4, maxNum);
    assert MultiplesPool(maxNum, d) == Dedup(guaranteed + pool);
    assert guaranteed[0] in guaranteed;
  }

  lemma MultiplesCorrect(maxNum: int, d: Level1Draws)
    requires 60 <= maxNum && Enough(d)
    ensures var t := MultiplesTask(maxNum, d); var k := t.rule.k;
      t.rule.Multiples? && 2 <= k <= 9
      && (forall x :: x in t.sequence <==> x in t.numbers && x % k == 0)
      && StrictlySorted(t.sequence, t.ascending) && t.sequence != []
      && (forall x :: x in t.numbers ==> 4 <= x <= maxNum)
      && (|Pick(MultiplesPool(maxNum, d), MultipleOf(k), t.ascending)| >= 4 ==> Distinct(t.numbers))
  {
    var k := Utils.RandomInt(2, 9, d.factor);
    var asc := d.direction < 0.5;
    var factors := RandomInts(4, 2, Min(15, maxNum / k), d.extra);
    var extra := Scale(factors, k);
    ScaledFactors(factors, k, maxNum);
    var all := MultiplesPool(maxNum, d);
    MultiplesPoolFacts(maxNum, d);
    var w :| w in all && w % k == 0;
    FilterRuleCorrect(all, MultipleOf(k), asc, extra, d.order, 4, maxNum, w);
    var r := Assemble(all, MultipleOf(k), asc, extra, d.order);
    assert MultiplesTask(maxNum, d) == Task(Multiples(k), asc, r.0, r.1);
  }

  // ------------------------------------------------------- progression

  /** The progression from start in the announced direction, and the grid it shares with the noise. */
  function ProgressionOf(start: int, asc: bool, noise: seq<int>, order: seq<real>): Task
    requires Utils.Draws(order) && 5 + |noise| <= |order| + 1
  {
    var sequence := if asc then [start, start + 2, start + 4, start + 6, start + 8]
                    else [start + 8, start + 6, start + 4, start + 2, start];
    Task(Progression(start), asc, Utils.FisherYates(Dedup(sequence + noise), order), sequence)
  }

  /** The rule "the step-2 progression": five values from start, noise strictly above them. */
  function ProgressionTask(maxNum: int, d: Level1Draws): (t: Task)
    requires 60 <= maxNum && Enough(d)
    ensures t.rule.Progression? && 1 <= t.rule.start <= 8 && t.ascending == (d.direction < 0.5)
  {
    var start := ProgressionStart(maxNum, d.factor);
    ProgressionOf(start, d.direction < 0.5, RandomInts(15, start + 9, maxNum, d.pool), d.order)
  }

  /** `randomInt(1, Math.min(8, maxStart))` with `maxStart = Math.max(1, Math.floor((maxNum - 8) / 2))`. */
  function ProgressionStart(maxNum: int, draw: real): (start: int)
    requires 60 <= maxNum && Utils.IsDraw(draw)
    ensures 1 <= start <= 8
  {
    Utils.RandomInt(1, Min(8, Max(1, (maxNum - 8) / 2)), draw)
  }

  /**
   * The five values are in the grid, every other grid value lies above the largest of them,
   * so in either direction the announced first value is the extreme one.
   */
  lemma ProgressionOfCorrect(start: int, asc: bool, noise: seq<int>, order: seq<real>, maxNum: int)
    requires Utils.Draws(order) && 5 + |noise| <= |order| + 1
    requires 1 <= start && start + 8 <= maxNum
    requires forall x :: x in noise ==> start + 8 < x <= maxNum
    ensures var t := ProgressionOf(start, asc, noise, order);
      |t.sequence| == 5 && StrictlySorted(t.sequence, t.ascending)
      && (forall i :: 0 <= i < 5 ==> t.sequence[i] == if t.ascending then start + 2 * i else start + 8 - 2 * i)
      && (forall x :: x in t.sequence ==> x in t.numbers)
      && (forall x :: x in t.numbers ==> (x in t.sequence <==> x <= start + 8))
      && (forall x :: x in t.numbers ==> 1 <= x <= maxNum)
      && Distinct(t.numbers)
  {
    var sequence := if asc then [start, start + 2, start + 4, start + 6, start + 8]
                    else [start + 8, start + 6, start + 4, start + 2, start];
    var numbers := Utils.FisherYates(Dedup(sequence + noise), order);
    assert ProgressionOf(start, asc, noise, order) == Task(Progression(start), asc, numbers, sequence);
    ProgressionSteps(start, asc, sequence);
    ProgressionGrid(sequence, noise, numbers, start + 8, maxNum);
  }

  /** The five literal values are the step-2 progression, strictly ordered in the announced direction. */
  lemma ProgressionSteps(start: int, asc: bool, sequence: seq<int>)
    requires sequence == if asc then [start, start + 2, start + 4, start + 6, start + 8]
                         else [start + 8, start + 6, start + 4, start + 2, start]
    ensures |sequence| == 5
    ensures forall i :: 0 <= i < 5 ==> sequence[i] == if asc then start + 2 * i else start + 8 - 2 * i
    ensures StrictlySorted(sequence, asc)
    ensures forall x :: x in sequence ==> start <= x <= start + 8
  {
    assert forall i :: 0 <= i < 5 ==> sequence[i] == if asc then start + 2 * i else start + 8 - 2 * i;
    forall i, j | 0 <= i < j < |sequence| ensures StrictlyBefore(sequence[i], sequence[j], asc) {
    }
  }

  /** The grid is a permutation of the de-duplicated progression and noise. */
  lemma ProgressionGrid(sequence: seq<int>, noise: seq<int>, numbers: seq<int>, top: int, maxNum: int)
    requires multiset(numbers) == multiset(Dedup(sequence + noise))
    requires forall x :: x in sequence ==> 1 <= x <= top
    requires forall x :: x in noise ==> top < x <= maxNum
    requires 1 <= top <= maxNum
    ensures forall x :: x in sequence ==> x in numbers
    ensures forall x :: x in numbers ==> (x in sequence <==> x <= top)
    ensures forall x :: x in numbers ==> 1 <= x <= maxNum
    ensures Distinct(numbers)
  {
    var all := Dedup(sequence + noise);
    SameMembers(all, numbers);
    PermutationKeepsDistinct(all, numbers);
    forall x | x in sequence ensures x in numbers {
      assert x in sequence + noise;
    }
    forall x | x in numbers ensures (x in sequence <==> x <= top) && 1 <= x <= maxNum {
      assert x in sequence + noise;
      assert x in sequence || x in noise;
    }
  }

  lemma ProgressionCorrect(maxNum: int, d: Level1Draws)
    requires 60 <= maxNum && Enough(d)
    ensures var t := ProgressionTask(maxNum, d); var s := t.rule.start;
      t.rule.Progression? && 1 <= s <= 8
      && |t.sequence| == 5 && StrictlySorted(t.sequence, t.ascending)
      && (forall i :: 0 <= i < 5 ==> t.sequence[i] == if t.ascending then s + 2 * i else s + 8 - 2 * i)
      && (forall x :: x in t.sequence ==> x in t.numbers)
      && (forall x :: x in t.numbers ==> (x in t.sequence <==> x <= s + 8))
      && (forall x :: x in t.numbers ==> 1 <= x <= maxNum)
      && Distinct(t.numbers)
  {
    var start := ProgressionStart(maxNum, d.factor);
    ProgressionOfCorrect(start, d.direction < 0.5, RandomInts(15, start + 9, maxNum, d.pool), d.order, maxNum);
  }

  // ------------------------------------------------------------ primes

  const BasePrimes: seq<int> := [2, 3, 5, 7, 11, 13, 17, 19, 23, 29, 31, 37, 41, 43, 47]
  const MediumPrimes: seq<int> := [53, 59, 61, 67, 71, 73, 79, 83, 89, 97]
  const HardPrimes: seq<int> := [101, 103, 107, 109, 113, 127, 131, 137, 139, 149]

  /** `veryExtendedPrimes`: the larger primes join above 60 and above 100. */
  function PrimeList(maxNum: int): (s: seq<int>)
    ensures 15 <= |s| <= 35
  {
    BasePrimes + (if maxNum > 60 then MediumPrimes else []) + (if maxNum > 100 then HardPrimes else [])
  }

  /** Trial division from d upward, evaluated outright on the literal lists. */
  function NoDivisorFrom(n: int, d: int): bool
    requires d >= 2
    decreases n - d
  {
    if d * d > n || d >= n then true else n % d != 0 && NoDivisorFrom(n, d + 1)
  }

  lemma {:induction false} TrialDivision(n: int, d: int)
    requires 2 <= d && n >= 2 && NoDivisorFrom(n, d)
    requires forall q :: 2 <= q < d ==> n % q != 0
    ensures Utils.Prime(n)
    decreases n - d
  {
    if d * d > n {
      Utils.NoDivisorAboveRoot(n, d);
    } else if d < n {
      TrialDivision(n, d + 1);
    }
  }

  predicate PassTrial(s: seq<int>)
  {
    forall i :: 0 <= i < |s| ==> s[i] >= 2 && NoDivisorFrom(s[i], 2)
  }

  lemma BasePrimesPass()
    ensures PassTrial(BasePrimes)
  {
    assert NoDivisorFrom(2, 2) && NoDivisorFrom(3, 2) && NoDivisorFrom(5, 2) && NoDivisorFrom(7, 2);
    assert NoDivisorFrom(11, 2) && NoDivisorFrom(13, 2) && NoDivisorFrom(17, 2) && NoDivisorFrom(19, 2);
    assert NoDivisorFrom(23, 2) && NoDivisorFrom(29, 2) && NoDivisorFrom(31, 2) && NoDivisorFrom(37, 2);
    assert NoDivisorFrom(41, 2) && NoDivisorFrom(43, 2) && NoDivisorFrom(47, 2);
  }

  lemma MediumPrimesPass()
    ensures PassTrial(MediumPrimes)
  {
    assert NoDivisorFrom(53, 2) && NoDivisorFrom(59, 2) && NoDivisorFrom(61, 2) && NoDivisorFrom(67, 2);
    assert NoDivisorFrom(71, 2) && NoDivisorFrom(73, 2) && NoDivisorFrom(79, 2) && NoDivisorFrom(83, 2);
    assert NoDivisorFrom(89, 2) && NoDivisorFrom(97, 2);
  }

  lemma HardPrimesPass()
    ensures PassTrial(HardPrimes)
  {
    HardPrimesLowerHalf();
    HardPrimesUpperHalf();
  }

  lemma HardPrimesLowerHalf()
    ensures NoDivisorFrom(101, 2) && NoDivisorFrom(103, 2) && NoDivisorFrom(107, 2)
    ensures NoDivisorFrom(109, 2) && NoDivisorFrom(113, 2)
  {
  }

  lemma HardPrimesUpperHalf()
    ensures NoDivisorFrom(127, 2) && NoDivisorFrom(131, 2) && NoDivisorFrom(137, 2)
    ensures NoDivisorFrom(139, 2) && NoDivisorFrom(149, 2)
  {
  }

  /** Neighbour order extends to every pair. */
  lemma {:induction false} ChainIncreasing(s: seq<int>, i: int, j: int)
    requires forall k :: 0 <= k < |s| - 1 ==> s[k] < s[k + 1]
    requires 0 <= i < j < |s|
    ensures s[i] < s[j]
    decreases j - i
  {
    if i + 1 < j {
      ChainIncreasing(s, i + 1, j);
    }
  }

  lemma PrimeListPrime(maxNum: int)
    ensures forall x :: x in PrimeList(maxNum) ==> Utils.Prime(x)
  {
    var s := PrimeList(maxNum);
    BasePrimesPass();
    MediumPrimesPass();
    HardPrimesPass();
    assert PassTrial(s);
    forall x | x in s ensures Utils.Prime(x) {
      TrialDivision(x, 2);
    }
  }

  lemma PrimeListIncreasing(maxNum: int)
    ensures forall k :: 0 <= k < |PrimeList(maxNum)| - 1 ==> PrimeList(maxNum)[k] < PrimeList(maxNum)[k + 1]
  {
    var all := BasePrimes + MediumPrimes + HardPrimes;
    assert forall k :: 0 <= k < |all| - 1 ==> all[k] < all[k + 1];
    var n := if maxNum > 100 then 35 else if maxNum > 60 then 25 else 15;
    assert PrimeList(maxNum) == all[..n];
  }

  /** The hard-coded list holds only primes, without repeats, and at least the fifteen base ones. */
  lemma PrimeListFacts(maxNum: int)
    ensures forall x :: x in PrimeList(maxNum) ==> Utils.Prime(x)
    ensures Distinct(PrimeList(maxNum))
    ensures forall x :: x in BasePrimes ==> x in PrimeList(maxNum)
  {
    var s := PrimeList(maxNum);
    PrimeListPrime(maxNum);
    PrimeListIncreasing(maxNum);
    forall i, j | 0 <= i < j < |s| ensures s[i] != s[j] {
      ChainIncreasing(s, i, j);
    }
    assert s[..15] == BasePrimes;
  }

  function PrimesSelected(maxNum: int, d: Level1Draws): seq<int>
    requires 60 <= maxNum && Enough(d)
  {
    var guaranteed := AtMost(PrimeList(maxNum), maxNum);
    var shuffled := Utils.FisherYates(guaranteed, d.pick);
    shuffled[..Min(5, |shuffled|)]
  }

  function PrimesPool(maxNum: int, d: Level1Draws): seq<int>
    requires 60 <= maxNum && Enough(d)
  {
    Dedup(PrimesSelected(maxNum, d) + RandomInts(20, 2, maxNum, d.pool))
  }

  /** The rule "all primes, starting with ...": five shuffled list primes plus twenty drawn values. */
  function PrimesTask(maxNum: int, d: Level1Draws): (t: Task)
    requires 60 <= maxNum && Enough(d)
    ensures t.rule == Primes && t.ascending == (d.direction < 0.5)
  {
    var asc := d.direction < 0.5;
    var guaranteed := AtMost(PrimeList(maxNum), maxNum);
    var reshuffled := Utils.FisherYates(guaranteed, d.repick);
    var extra := reshuffled[..Min(4, |reshuffled|)];
    var (numbers, sequence) := Assemble(PrimesPool(maxNum, d), IsPrime, asc, extra, d.order);
    Task(Primes, asc, numbers, sequence)
  }

  /** The first n of a permutation of a repeat-free list are repeat-free and come from that list. */
  lemma ShuffledPrefix(guaranteed: seq<int>, shuffled: seq<int>, n: int)
    requires multiset(shuffled) == multiset(guaranteed) && Distinct(guaranteed)
    requires 0 <= n <= |shuffled|
    ensures Distinct(shuffled[..n])
    ensures forall x :: x in shuffled[..n] ==> x in guaranteed
  {
    SameMembers(guaranteed, shuffled);
    PermutationKeepsDistinct(guaranteed, shuffled);
    forall x | x in shuffled[..n] ensures x in guaranteed {
      assert x in shuffled;
    }
  }

  /** The list primes up to the maximum: distinct primes, at least fifteen of them. */
  lemma GuaranteedFacts(maxNum: int)
    requires 60 <= maxNum
    ensures var guaranteed := AtMost(PrimeList(maxNum), maxNum);
      Distinct(guaranteed) && |guaranteed| >= 15
      && forall x :: x in guaranteed ==> Utils.Prime(x) && 2 <= x <= maxNum
  {
    PrimeListFacts(maxNum);
    var guaranteed := AtMost(PrimeList(maxNum), maxNum);
    Pigeonhole(BasePrimes, guaranteed);
  }

  /** The selected primes: five distinct list primes within the range. */
  lemma SelectedFacts(maxNum: int, d: Level1Draws)
    requires 60 <= maxNum && Enough(d)
    ensures var selected := PrimesSelected(maxNum, d);
      |selected| == 5 && Distinct(selected)
      && forall x :: x in selected ==> Utils.Prime(x) && 2 <= x <= maxNum
  {
    GuaranteedFacts(maxNum);
    var guaranteed := AtMost(PrimeList(maxNum), maxNum);
    var shuffled := Utils.FisherYates(guaranteed, d.pick);
    ShuffledPrefix(guaranteed, shuffled, 5);
    assert PrimesSelected(maxNum, d) == shuffled[..5];
  }

  /** The fallback extras are list primes within the range. */
  lemma RepickFacts(maxNum: int, d: Level1Draws)
    requires 60 <= maxNum && Enough(d)
    ensures var guaranteed := AtMost(PrimeList(maxNum), maxNum);
      var reshuffled := Utils.FisherYates(guaranteed, d.repick);
      forall x :: x in reshuffled[..Min(4, |reshuffled|)] ==> Utils.Prime(x) && 2 <= x <= maxNum
  {
    GuaranteedFacts(maxNum);
    var guaranteed := AtMost(PrimeList(maxNum), maxNum);
    var reshuffled := Utils.FisherYates(guaranteed, d.repick);
    ShuffledPrefix(guaranteed, reshuffled, Min(4, |reshuffled|));
  }

  /** Distinct primes put into the pool all reach the sorted primes of the pool. */
  lemma SelectedReachSequence(selected: seq<int>, pool: seq<int>, asc: bool, maxNum: int)
    requires Distinct(selected) && forall x :: x in selected ==> Utils.Prime(x) && 2 <= x <= maxNum
    requires forall x :: x in pool ==> 2 <= x <= maxNum
    ensures |Pick(Dedup(selected + pool), IsPrime, asc)| >= |selected|
    ensures forall x :: x in Dedup(selected + pool) ==> 2 <= x <= maxNum
  {
    var all := Dedup(selected + pool);
    assert forall x :: x in selected + pool <==> x in selected || x in pool;
    var found := Pick(all, IsPrime, asc);
    assert forall x :: x in selected ==> x in found;
    Pigeonhole(selected, found);
  }

  /**
   * The five selected list primes are distinct and all reach the sequence, so it has at least
   * five values: the fallback of this rule never runs and the grid has no repeats.
   */
  lemma PrimesCorrect(maxNum: int, d: Level1Draws)
    requires 60 <= maxNum && Enough(d)
    ensures var t := PrimesTask(maxNum, d);
      (forall x :: x in t.sequence <==> x in t.numbers && Utils.Prime(x))
      && StrictlySorted(t.sequence, t.ascending) && |t.sequence| >= 5
      && (forall x :: x in t.numbers ==> 2 <= x <= maxNum)
      && Distinct(t.numbers)
  {
    var asc := d.direction < 0.5;
    var guaranteed := AtMost(PrimeList(maxNum), maxNum);
    var reshuffled := Utils.FisherYates(guaranteed, d.repick);
    var extra := reshuffled[..Min(4, |reshuffled|)];
    RepickFacts(maxNum, d);
    var selected := PrimesSelected(maxNum, d);
    SelectedFacts(maxNum, d);
    var pool := RandomInts(20, 2, maxNum, d.pool);
    SelectedReachSequence(selected, pool, asc, maxNum);
    var all := PrimesPool(maxNum, d);
    assert all == Dedup(selected + pool);
    assert selected[0] in selected;
    assert selected[0] in all by {
      assert selected[0] in selected + pool;
    }
    FilterRuleCorrect(all, IsPrime, asc, extra, d.order, 2, maxNum, selected[0]);
    var r := Assemble(all, IsPrime, asc, extra, d.order);
    assert PrimesTask(maxNum, d) == Task(Primes, asc, r.0, r.1);
  }

  // ---------------------------------------------------------- the task

  /** `generateLevel1Task`: the rule is drawn first, the grid tops out at the difficulty's maximum. */
  function GenerateLevel1Task(difficulty: Option<Difficulty>, d: Level1Draws): (t: Task)
    requires Enough(d)
    ensures t.ascending == (d.direction < 0.5)
    ensures t.rule.Multiples? ==> 2 <= t.rule.k <= 9
    ensures t.rule.Progression? ==> 1 <= t.rule.start <= 8
  {
    var maxNum := PoolMax(difficulty);
    var pick := Utils.RandomInt(0, 3, d.rule);
    if pick == 0 then EvensTask(maxNum, d)
    else if pick == 1 then MultiplesTask(maxNum, d)
    else if pick == 2 then ProgressionTask(maxNum, d)
    else PrimesTask(maxNum, d)
  }

  /** The test a filter rule announces. */
  function TestOf(rule: Rule): Test
    requires !rule.Progression?
  {
    match rule
    case Evens => Even
    case Multiples(k) => MultipleOf(k)
    case Primes => IsPrime
  }

  /**
   * Whatever the draws: the sequence is non-empty and strictly ordered in the announced
   * direction, every grid value lies in [1, maxNumber], and the sequence is exactly the grid's
   * satisfying values (for the progression: exactly the grid values up to its largest one).
   */
  lemma Level1TaskCorrect(difficulty: Option<Difficulty>, d: Level1Draws)
    requires Enough(d)
    ensures var t := GenerateLevel1Task(difficulty, d);
      t.sequence != [] && StrictlySorted(t.sequence, t.ascending)
      && (forall x :: x in t.numbers ==> 1 <= x <= PoolMax(difficulty))
      && (!t.rule.Progression? ==> forall x :: x in t.sequence <==> x in t.numbers && Satisfies(x, TestOf(t.rule)))
      && (t.rule.Progression? ==> forall x :: x in t.numbers ==> (x in t.sequence <==> x <= t.rule.start + 8))
      && (t.rule.Progression? ==> forall x :: x in t.sequence ==> x in t.numbers)
  {
    var maxNum := PoolMax(difficulty);
    var pick := Utils.RandomInt(0, 3, d.rule);
    var t := GenerateLevel1Task(difficulty, d);
    if pick == 0 {
      assert t == EvensTask(maxNum, d);
      EvensCorrect(maxNum, d);
      assert TestOf(t.rule) == Even;
    } else if pick == 1 {
      assert t == MultiplesTask(maxNum, d);
      MultiplesCorrect(maxNum, d);
      assert TestOf(t.rule) == MultipleOf(t.rule.k);
    } else if pick == 2 {
      assert t == ProgressionTask(maxNum, d);
      ProgressionCorrect(maxNum, d);
    } else {
      assert t == PrimesTask(maxNum, d);
      PrimesCorrect(maxNum, d);
      assert TestOf(t.rule) == IsPrime;
    }
  }
}
