/**
 * `generateLevel2Task` of js/game.js: three rules, each a run of four numbers plus twelve
 * extras drawn by rejection so that none equals a value of the run, de-duplicated and mixed
 * into the numbers that fall. Every `Math.random()` is a field of `Level2Draws`, in [0, 1);
 * each rejection loop reads its own list of draws.
 */
module LevelTwo {
  import Utils
  import opened Lists

  /** A rejection loop over this stream ends: one of its draws gives a value outside `avoid`. */
  predicate CanAvoid(lo: int, hi: int, avoid: seq<int>, stream: seq<real>)
    requires lo <= hi && Utils.Draws(stream)
  {
    exists k :: 0 <= k < |stream| && Utils.RandomInt(lo, hi, stream[k]) !in avoid
  }

  lemma CanAvoidTail(lo: int, hi: int, avoid: seq<int>, stream: seq<real>)
    requires lo <= hi && Utils.Draws(stream) && CanAvoid(lo, hi, avoid, stream)
    requires Utils.RandomInt(lo, hi, stream[0]) in avoid
    ensures CanAvoid(lo, hi, avoid, stream[1..])
  {
    var k :| 0 <= k < |stream| && Utils.RandomInt(lo, hi, stream[k]) !in avoid;
    assert stream[1..][k - 1] == stream[k];
  }

  /** The position of the first draw the loop `while (seq.includes(num))` accepts. */
  function FirstAvoiding(lo: int, hi: int, avoid: seq<int>, stream: seq<real>): (n: nat)
    requires lo <= hi && Utils.Draws(stream) && CanAvoid(lo, hi, avoid, stream)
    ensures n < |stream| && Utils.RandomInt(lo, hi, stream[n]) !in avoid
    ensures forall k :: 0 <= k < n ==> Utils.RandomInt(lo, hi, stream[k]) in avoid
    decreases |stream|
  {
    if Utils.RandomInt(lo, hi, stream[0]) !in avoid then 0
    else
      CanAvoidTail(lo, hi, avoid, stream);
      var m := FirstAvoiding(lo, hi, avoid, stream[1..]);
      assert forall k :: 1 <= k <= m ==> stream[k] == stream[1..][k - 1];
      1 + m
  }

  /** The value the rejection loop settles on. */
  function Avoided(lo: int, hi: int, avoid: seq<int>, stream: seq<real>): (v: int)
    requires lo <= hi && Utils.Draws(stream) && CanAvoid(lo, hi, avoid, stream)
    ensures lo <= v <= hi && v !in avoid
  {
    Utils.RandomInt(lo, hi, stream[FirstAvoiding(lo, hi, avoid, stream)])
  }

  /** `let num = randomInt(lo, hi); while (seq.includes(num)) num = randomInt(lo, hi);` */
  method DrawAvoiding(lo: int, hi: int, avoid: seq<int>, stream: seq<real>) returns (num: int)
    requires lo <= hi && Utils.Draws(stream) && CanAvoid(lo, hi, avoid, stream)
    ensures num == Avoided(lo, hi, avoid, stream)
    ensures lo <= num <= hi && num !in avoid
  {
    ghost var first := FirstAvoiding(lo, hi, avoid, stream);
    var used := 1;
    num := Utils.RandomInt(lo, hi, stream[0]);
    while num in avoid
      invariant 1 <= used <= first + 1
      invariant num == Utils.RandomInt(lo, hi, stream[used - 1])
      decreases first + 1 - used
    {
      num := Utils.RandomInt(lo, hi, stream[used]);
      used := used + 1;
    }
  }

  /** Every stream of the extras can end. */
  predicate Feasible(lo: int, hi: int, avoid: seq<int>, tries: seq<seq<real>>)
    requires lo <= hi
  {
    forall i :: 0 <= i < |tries| ==> Utils.Draws(tries[i]) && CanAvoid(lo, hi, avoid, tries[i])
  }

  /** The extras, one rejection loop per stream. */
  function ExtraValues(lo: int, hi: int, avoid: seq<int>, tries: seq<seq<real>>): (r: seq<int>)
    requires lo <= hi && Feasible(lo, hi, avoid, tries)
    ensures |r| == |tries|
    ensures forall x :: x in r ==> lo <= x <= hi && x !in avoid
  {
    seq(|tries|, i requires 0 <= i < |tries| => Avoided(lo, hi, avoid, tries[i]))
  }

  /** `Array.from({ length: 12 }, () => { ...rejection loop... })`. */
  method DrawExtras(lo: int, hi: int, avoid: seq<int>, tries: seq<seq<real>>) returns (extras: seq<int>)
    requires lo <= hi && Feasible(lo, hi, avoid, tries)
    ensures extras == ExtraValues(lo, hi, avoid, tries)
  {
    extras := [];
    for i := 0 to |tries|
      invariant |extras| == i
      invariant forall j :: 0 <= j < i ==> extras[j] == Avoided(lo, hi, avoid, tries[j])
    {
      var num := DrawAvoiding(lo, hi, avoid, tries[i]);
      extras := extras + [num];
    }
  }

  /** The three rules with the values they draw. */
  datatype Rule = Doubling(start: int) | Consecutive(start: int) | MultiplesRun(k: int, startFactor: int)

  /** What a rule hands back: the numbers that fall and the sequence to catch. */
  datatype Task = Task(rule: Rule, ascending: bool, numbers: seq<int>, sequence: seq<int>)

  /** Every `Math.random()` a Level-2 task uses; `tries` feeds the twelve rejection loops. */
  datatype Level2Draws = Level2Draws(
    rule: real, first: real, direction: real, factor: real,
    tries: seq<seq<real>>, mix: seq<real>, order: seq<real>)

  predicate SingleDraws(d: Level2Draws)
  {
    Utils.IsDraw(d.rule) && Utils.IsDraw(d.first) && Utils.IsDraw(d.direction) && Utils.IsDraw(d.factor)
  }

  /** `rules[randomInt(0, 2)]` and the values that rule draws first. */
  function RuleOf(d: Level2Draws): (rule: Rule)
    requires SingleDraws(d)
    ensures InRange(rule)
  {
    var pick := Utils.RandomInt(0, 2, d.rule);
    if pick == 0 then Doubling(Utils.RandomInt(2, 5, d.first))
    else if pick == 1 then Consecutive(Utils.RandomInt(3, 15, d.first))
    else MultiplesRun(Utils.RandomInt(2, 9, d.first), Utils.RandomInt(1, 8, d.factor))
  }

  /** Only the multiples rule draws a direction; the other two always ascend. */
  function Ascending(d: Level2Draws): bool
    requires SingleDraws(d)
  {
    !RuleOf(d).MultiplesRun? || d.direction < 0.5
  }

  /** The run as built, before any reversal: the values the extras avoid. */
  function Run(rule: Rule): (r: seq<int>)
    ensures |r| <= 4
  {
    match rule
    case Doubling(s) => AtMost([s, s * 2, s * 4, s * 8], 100)
    case Consecutive(s) => [s, s + 1, s + 2, s + 3]
    case MultiplesRun(k, f) => seq(4, i requires 0 <= i < 4 => (f + i) * k)
  }

  /** The range the extras are drawn from. */
  function ExtraLo(rule: Rule): int { if rule.Doubling? then 1 else 2 }
  function ExtraHi(rule: Rule): int
  {
    match rule
    case Doubling(_) => 50
    case Consecutive(_) => 30
    case MultiplesRun(_, _) => 60
  }

  predicate Enough(d: Level2Draws)
  {
    SingleDraws(d) && |d.tries| == 12
    && Feasible(ExtraLo(RuleOf(d)), ExtraHi(RuleOf(d)), Run(RuleOf(d)), d.tries)
    && Utils.Draws(d.mix) && |d.mix| >= 15
    && Utils.Draws(d.order) && |d.order| >= 15
  }

  /** The task, shuffled once by the rule and once more by `generateLevel2Task`. */
  function Level2Task(d: Level2Draws): (t: Task)
    requires Enough(d)
    ensures t.rule == RuleOf(d) && InRange(t.rule)
    ensures !t.ascending ==> t.rule.MultiplesRun? && d.direction >= 0.5
  {
    var rule := RuleOf(d);
    var extras := ExtraValues(ExtraLo(rule), ExtraHi(rule), Run(rule), d.tries);
    Task(rule, Ascending(d), Falling(rule, extras, d.mix, d.order), Announced(rule, Ascending(d)))
  }

  /** The sequence to catch: the run, reversed when the direction is descending. */
  function Announced(rule: Rule, asc: bool): (s: seq<int>)
    ensures |s| == |Run(rule)| && forall x :: x in s <==> x in Run(rule)
  {
    ReversedFacts(Run(rule), true);
    if asc then Run(rule) else Reversed(Run(rule))
  }

  /** The falling numbers: the run with its extras, de-duplicated and shuffled twice. */
  function Falling(rule: Rule, extras: seq<int>, mix: seq<real>, order: seq<real>): (numbers: seq<int>)
    requires |extras| <= 12 && Utils.Draws(mix) && |mix| >= 15 && Utils.Draws(order) && |order| >= 15
    ensures multiset(numbers) == multiset(Dedup(Run(rule) + extras))
  {
    Utils.FisherYates(Utils.FisherYates(Dedup(Run(rule) + extras), mix), order)
  }

  method GenerateLevel2Task(d: Level2Draws) returns (t: Task)
    requires Enough(d)
    ensures t == Level2Task(d)
  {
    var pick := Utils.RandomInt(0, 2, d.rule);
    var rule: Rule;
    var run: seq<int>;
    var asc := true;
    var lo, hi;
    if pick == 0 {
      var start := Utils.RandomInt(2, 5, d.first);
      rule := Doubling(start);
      run := AtMost([start, start * 2, start * 4, start * 8], 100);
      lo, hi := 1, 50;
    } else if pick == 1 {
      var start := Utils.RandomInt(3, 15, d.first);
      rule := Consecutive(start);
      run := [start, start + 1, start + 2, start + 3];
      lo, hi := 2, 30;
    } else {
      var k := Utils.RandomInt(2, 9, d.first);
      asc := d.direction < 0.5;
      var f := Utils.RandomInt(1, 8, d.factor);
      rule := MultiplesRun(k, f);
      run := [];
      for i := 0 to 4
        invariant |run| == i
        invariant forall j :: 0 <= j < i ==> run[j] == (f + j) * k
      {
        run := run + [(f + i) * k];
      }
      lo, hi := 2, 60;
    }
    assert rule == RuleOf(d) && run == Run(rule) && asc == Ascending(d);
    assert lo == ExtraLo(rule) && hi == ExtraHi(rule);
    var extras := DrawExtras(lo, hi, run, d.tries);
    var numbers := Utils.Shuffle(Dedup(run + extras), d.mix);
    numbers := Utils.Shuffle(numbers, d.order);
    t := Task(rule, asc, numbers, if asc then run else Reversed(run));
  }

  /** The ranges `RuleOf` draws from. */
  predicate InRange(rule: Rule)
  {
    match rule
    case Doubling(s) => 2 <= s <= 5
    case Consecutive(s) => 3 <= s <= 15
    case MultiplesRun(k, f) => 2 <= k <= 9 && 1 <= f <= 8
  }

  /** The doubling filter `n <= 100` drops nothing: 8 * start is at most 40. */
  lemma DoublingRun(s: int)
    requires 2 <= s <= 5
    ensures Run(Doubling(s)) == [s, s * 2, s * 4, s * 8]
    ensures StrictlySorted(Run(Doubling(s)), true)
  {
    var full := [s, s * 2, s * 4, s * 8];
    assert forall x :: x in full ==> x <= 40;
    AtMostKeepsAll(full, 100);
    AscendingFour(s, s * 2, s * 4, s * 8);
  }

  lemma AscendingFour(a: int, b: int, c: int, d: int)
    requires a < b < c < d
    ensures StrictlySorted([a, b, c, d], true)
  {
  }

  lemma MultiplesRunSorted(k: int, f: int)
    requires 2 <= k <= 9 && 1 <= f <= 8
    ensures StrictlySorted(Run(MultiplesRun(k, f)), true)
  {
    var run := Run(MultiplesRun(k, f));
    forall i, j | 0 <= i < j < 4 ensures run[i] < run[j] {
      Utils.MulAtLeast(f + i + 1, f + j, k);
      assert (f + i + 1) * k == (f + i) * k + k;
    }
  }

  /** Each run holds four values in ascending order. */
  lemma RunFacts(rule: Rule)
    requires InRange(rule)
    ensures var run := Run(rule);
      |run| == 4 && StrictlySorted(run, true)
      && (rule.Doubling? ==> run == [rule.start, rule.start * 2, rule.start * 4, rule.start * 8])
      && (rule.Consecutive? ==> forall i :: 0 <= i < 4 ==> run[i] == rule.start + i)
      && (rule.MultiplesRun? ==> forall i :: 0 <= i < 4 ==> run[i] == (rule.startFactor + i) * rule.k)
  {
    match rule
    case Doubling(s) => DoublingRun(s);
    case Consecutive(s) =>
    case MultiplesRun(k, f) => MultiplesRunSorted(k, f);
  }

  /** The multiples run read from its far end. */
  lemma MultiplesReversed(k: int, f: int, run: seq<int>, s: seq<int>)
    requires |run| == 4 && forall i :: 0 <= i < 4 ==> run[i] == (f + i) * k
    requires s == Reversed(run)
    ensures forall i :: 0 <= i < 4 ==> s[i] == (f + 3 - i) * k
  {
  }

  /**
   * The falling numbers hold the whole run, every other value is an extra from the rule's range,
   * and nothing repeats: five to sixteen distinct values.
   */
  lemma GridFacts(run: seq<int>, extras: seq<int>, lo: int, hi: int, mix: seq<real>, order: seq<real>)
    requires Distinct(run) && |run| == 4 && 1 <= |extras| <= 12
    requires forall x :: x in extras ==> lo <= x <= hi && x !in run
    requires Utils.Draws(mix) && |mix| >= 15 && Utils.Draws(order) && |order| >= 15
    ensures var numbers := Utils.FisherYates(Utils.FisherYates(Dedup(run + extras), mix), order);
      (forall x :: x in run ==> x in numbers)
      && (forall x :: x in numbers && x !in run ==> lo <= x <= hi)
      && Distinct(numbers) && 5 <= |numbers| <= 16
  {
    var all := Dedup(run + extras);
    var once := Utils.FisherYates(all, mix);
    var numbers := Utils.FisherYates(once, order);
    assert multiset(numbers) == multiset(all);
    SameMembers(all, numbers);
    PermutationKeepsDistinct(all, numbers);
    forall x | x in run ensures x in numbers {
      assert x in run + extras;
    }
    forall x | x in numbers && x !in run ensures lo <= x <= hi {
      assert x in run + extras;
    }
    var five := run + [extras[0]];
    assert extras[0] in extras;
    forall x | x in five ensures x in all {
      assert x in run + extras;
    }
    assert Distinct(five);
    Pigeonhole(five, all);
  }

  /** The sequence: the run in the announced direction, with the rule's shape. */
  predicate Shape(rule: Rule, asc: bool, s: seq<int>)
  {
    InRange(rule) && |s| == 4 && StrictlySorted(s, asc)
    && (rule.Doubling? ==> asc && s == [rule.start, rule.start * 2, rule.start * 4, rule.start * 8])
    && (rule.Consecutive? ==> asc && forall i :: 0 <= i < 4 ==> s[i] == rule.start + i)
    && (rule.MultiplesRun? && asc ==> forall i :: 0 <= i < 4 ==> s[i] == (rule.startFactor + i) * rule.k)
    && (rule.MultiplesRun? && !asc ==> forall i :: 0 <= i < 4 ==> s[i] == (rule.startFactor + 3 - i) * rule.k)
  }

  /** The falling numbers: all of the sequence, no repeats, every other number an extra from the rule's range. */
  predicate Grid(rule: Rule, numbers: seq<int>, s: seq<int>)
  {
    (forall x :: x in s ==> x in numbers)
    && (forall x :: x in numbers && x !in s ==> ExtraLo(rule) <= x <= ExtraHi(rule))
    && Distinct(numbers) && 5 <= |numbers| <= 16
  }

  /** What the player is shown. */
  predicate Promise(t: Task)
  {
    Shape(t.rule, t.ascending, t.sequence) && Grid(t.rule, t.numbers, t.sequence)
  }

  lemma AnnouncedShape(rule: Rule, asc: bool)
    requires InRange(rule) && (!rule.MultiplesRun? ==> asc)
    ensures Shape(rule, asc, Announced(rule, asc))
  {
    var run := Run(rule);
    match rule
    case Doubling(s) =>
      DoublingRun(s);
    case Consecutive(s) =>
      assert run == [s, s + 1, s + 2, s + 3];
    case MultiplesRun(k, f) =>
      MultiplesRunSorted(k, f);
      if !asc {
        ReversedFacts(run, true);
        MultiplesReversed(k, f, run, Announced(rule, asc));
      }
  }

  lemma FallingGrid(rule: Rule, asc: bool, extras: seq<int>, mix: seq<real>, order: seq<real>)
    requires InRange(rule)
    requires 1 <= |extras| <= 12 && Utils.Draws(mix) && |mix| >= 15 && Utils.Draws(order) && |order| >= 15
    requires forall x :: x in extras ==> ExtraLo(rule) <= x <= ExtraHi(rule) && x !in Run(rule)
    ensures Grid(rule, Falling(rule, extras, mix, order), Announced(rule, asc))
  {
    var run := Run(rule);
    RunFacts(rule);
    StrictlySortedIsDistinct(run, true);
    GridFacts(run, extras, ExtraLo(rule), ExtraHi(rule), mix, order);
    ReversedFacts(run, true);
    assert forall x :: x in Announced(rule, asc) <==> x in run;
  }

  /** Every task `generateLevel2Task` can hand back keeps the promise. */
  lemma Level2TaskCorrect(d: Level2Draws)
    requires Enough(d)
    ensures Promise(Level2Task(d))
  {
    var rule := RuleOf(d);
    var extras := ExtraValues(ExtraLo(rule), ExtraHi(rule), Run(rule), d.tries);
    AnnouncedShape(rule, Ascending(d));
    FallingGrid(rule, Ascending(d), extras, d.mix, d.order);
  }
}
