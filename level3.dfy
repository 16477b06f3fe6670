/**
 * `generateExpressionTask` of js/game.js: up to fifty attempts at a solvable `a op1 b op2 c`
 * whose value is a whole-enough number between 0 and three times the range, a fallback over
 * + and - only, then decoy numbers and extra operators, both shuffled in. Every `Math.random()`
 * is a field of `Level3Draws`, in [0, 1); each decoy's rejection loop reads its own list.
 */
module LevelThree {
  import opened Wrappers
  import Utils
  import opened Tuning
  import opened Expression
  import LevelTwo
  import Lists

  const MaxAttempts: int := 50

  /** The per-difficulty bounds of the numbers, and whether `/` may be drawn. */
  datatype Ranges = Ranges(minNum: int, maxNumRange: int, allowDivision: bool)

  function RangesOf(d: Option<Difficulty>): (g: Ranges)
    ensures 1 <= g.minNum <= g.maxNumRange
    ensures g.allowDivision <==> d == Some(Medium) || d == Some(Hard)
  {
    match d
    case Some(Easy) => Ranges(1, 12, false)
    case Some(Medium) => Ranges(1, 25, true)
    case Some(Hard) => Ranges(5, 50, true)
    case None => Ranges(1, 12, false)
  }

  /** `allOps`: the operators the attempts draw from, and the pool of the extra operators. */
  function AllOps(allowDivision: bool): (ops: seq<char>)
    ensures forall k :: 0 <= k < |ops| ==> ValidOp(ops[k]) && (ops[k] == '/' ==> allowDivision)
    ensures |ops| >= 3
  {
    if allowDivision then ['+', '-', '*', '/'] else ['+', '-', '*']
  }

  function OpAt(ops: seq<char>, r: real): char
    requires |ops| >= 1 && Utils.IsDraw(r)
  {
    ops[Utils.RandomInt(0, |ops| - 1, r)]
  }

  /** `for (i = 1; i <= n; i++) if (a % i === 0 && i >= lo && i <= hi) divisors.push(i)`. */
  function DivisorsUpTo(a: int, lo: int, hi: int, n: nat): (ds: seq<int>)
    ensures forall x :: x in ds <==> 1 <= x <= n && a % x == 0 && lo <= x <= hi
  {
    if n == 0 then []
    else DivisorsUpTo(a, lo, hi, n - 1) + (if a % n == 0 && lo <= n <= hi then [n] else [])
  }

  /** The divisor loop of an attempt whose `op1` is '/'. */
  method ListDivisors(a: int, lo: int, hi: int) returns (ds: seq<int>)
    requires a >= 0
    ensures ds == DivisorsUpTo(a, lo, hi, a)
  {
    ds := [];
    for i := 1 to a + 1
      invariant ds == DivisorsUpTo(a, lo, hi, i - 1)
    {
      if a % i == 0 && i >= lo && i <= hi {
        ds := ds + [i];
      }
    }
  }

  /** A number of the range always divides itself, so the divisor list is never empty. */
  lemma DivisorsHoldSelf(a: int, lo: int, hi: int)
    requires 1 <= lo <= a <= hi
    ensures a in DivisorsUpTo(a, lo, hi, a)
  {
  }

  /** The draws of one attempt (and of the fallback). */
  datatype AttemptDraws = AttemptDraws(op1: real, op2: real, a: real, b: real, c: real)

  predicate AttemptIsDraw(t: AttemptDraws)
  {
    Utils.IsDraw(t.op1) && Utils.IsDraw(t.op2) && Utils.IsDraw(t.a) && Utils.IsDraw(t.b) && Utils.IsDraw(t.c)
  }

  /** The hidden expression `a op1 b op2 c`. */
  datatype Candidate = Candidate(a: int, op1: char, b: int, op2: char, c: int)

  /** What one attempt draws: `b` is one of the divisors of `a` when `op1` is '/'. */
  function CandidateOf(g: Ranges, t: AttemptDraws): (cand: Candidate)
    requires 1 <= g.minNum <= g.maxNumRange && AttemptIsDraw(t)
    ensures g.minNum <= cand.a <= g.maxNumRange && g.minNum <= cand.c <= g.maxNumRange
    ensures ValidOp(cand.op1) && ValidOp(cand.op2)
  {
    var op1 := OpAt(AllOps(g.allowDivision), t.op1);
    var op2 := OpAt(AllOps(g.allowDivision), t.op2);
    var a := Utils.RandomInt(g.minNum, g.maxNumRange, t.a);
    var b :=
      if op1 == '/' then
        var ds := DivisorsUpTo(a, g.minNum, g.maxNumRange, a);
        if ds == [] then Utils.RandomInt(g.minNum, if a < g.maxNumRange then a else g.maxNumRange, t.b)
        else ds[Utils.RandomInt(0, |ds| - 1, t.b)]
      else Utils.RandomInt(g.minNum, g.maxNumRange, t.b);
    var c := Utils.RandomInt(g.minNum, g.maxNumRange, t.c);
    Candidate(a, op1, b, op2, c)
  }

  /** `Number.isInteger` on an exact real. */
  predicate IsInteger(x: real)
  {
    x == x.Floor as real
  }

  /** `x % 1`: the fraction with the sign of x, since the remainder truncates toward zero. */
  function Frac(x: real): real
  {
    if x >= 0.0 then x - x.Floor as real else x + (-x).Floor as real
  }

  function Evaluates(cand: Candidate): Option<real>
  {
    Evaluate(cand.a as real, cand.op1, cand.b as real, cand.op2, cand.c as real)
  }

  /** The checks of an attempt in their order; the target when all of them pass. */
  function Judge(g: Ranges, cand: Candidate): (target: Option<real>)
    ensures target.Some? ==> Evaluates(cand).Some?
    ensures target.Some? ==> Frac(target.value) == 0.0 || Frac(target.value * 100.0) == 0.0
  {
    var value := Evaluates(cand);
    if value.None? then None
    else if (cand.op1 == '/' || cand.op2 == '/') && !IsInteger(value.value) && Frac(value.value) > 0.01 then None
    else if value.value < 0.0 || value.value > (g.maxNumRange * 3) as real then None
    else
      var target := Round2(value.value);
      if Frac(target) != 0.0 && Frac(target * 100.0) != 0.0 then None
      else Some(target)
  }

  /** An accepted attempt's target is the expression's value, between 0 and three times the range. */
  lemma JudgeAccepts(g: Ranges, cand: Candidate)
    requires Judge(g, cand).Some?
    ensures Evaluates(cand) == Judge(g, cand)
    ensures 0.0 <= Judge(g, cand).value <= (g.maxNumRange * 3) as real
  {
  }

  predicate AttemptsAreDraws(attempts: seq<AttemptDraws>)
  {
    forall i :: 0 <= i < |attempts| ==> AttemptIsDraw(attempts[i])
  }

  /** The first attempt, from `from` on and before the fiftieth, that passes every check. */
  function FirstAccepted(g: Ranges, attempts: seq<AttemptDraws>, from: nat): (n: Option<nat>)
    requires 1 <= g.minNum <= g.maxNumRange && |attempts| >= MaxAttempts && AttemptsAreDraws(attempts)
    ensures n.Some? ==> from <= n.value < MaxAttempts
    ensures n.Some? ==> Judge(g, CandidateOf(g, attempts[n.value])).Some?
    decreases MaxAttempts - from
  {
    if from >= MaxAttempts then None
    else if Judge(g, CandidateOf(g, attempts[from])).Some? then Some(from)
    else FirstAccepted(g, attempts, from + 1)
  }

  /** The fallback: `a` in 2..10, `b` and `c` in 1..9, and + or - twice. */
  function FallbackOf(t: AttemptDraws): (cand: Candidate)
    requires AttemptIsDraw(t)
    ensures 2 <= cand.a <= 10 && 1 <= cand.b <= 9 && 1 <= cand.c <= 9
  {
    Candidate(Utils.RandomInt(2, 10, t.a), OpAt(['+', '-'], t.op1), Utils.RandomInt(1, 9, t.b),
              OpAt(['+', '-'], t.op2), Utils.RandomInt(1, 9, t.c))
  }

  /** The expression and its target, from the attempts or else from the fallback. */
  datatype Solution = Solution(cand: Candidate, target: real)

  function SolutionOf(g: Ranges, attempts: seq<AttemptDraws>, fallback: AttemptDraws): (s: Solution)
    requires 1 <= g.minNum <= g.maxNumRange && |attempts| >= MaxAttempts && AttemptsAreDraws(attempts)
    requires AttemptIsDraw(fallback)
    ensures FirstAccepted(g, attempts, 0).Some? ==> Judge(g, s.cand) == Some(s.target)
    ensures FirstAccepted(g, attempts, 0).None? ==> 2 <= s.cand.a <= 10 && 1 <= s.cand.b <= 9 && 1 <= s.cand.c <= 9
  {
    match FirstAccepted(g, attempts, 0)
    case Some(i) =>
      var cand := CandidateOf(g, attempts[i]);
      Solution(cand, Judge(g, cand).value)
    case None => FallbackSolution(fallback)
  }

  /** The fallback expression with its value; a sum of the three numbers should it not evaluate. */
  function FallbackSolution(fallback: AttemptDraws): (s: Solution)
    requires AttemptIsDraw(fallback)
    ensures 2 <= s.cand.a <= 10 && 1 <= s.cand.b <= 9 && 1 <= s.cand.c <= 9
  {
    var f := FallbackOf(fallback);
    var value := Evaluates(f);
    if value.None? then Solution(Candidate(f.a, '+', f.b, '+', f.c), (f.a + f.b + f.c) as real)
    else Solution(f, value.value)
  }

  /** Each decoy's rejection loop can end, given the numbers the decoys before it took. */
  predicate DecoysFeasible(lo: int, hi: int, avoid: seq<int>, tries: seq<seq<real>>)
    requires lo <= hi
    decreases |tries|
  {
    tries != [] ==>
      && Utils.Draws(tries[0]) && LevelTwo.CanAvoid(lo, hi, avoid, tries[0])
      && DecoysFeasible(lo, hi, avoid + [LevelTwo.Avoided(lo, hi, avoid, tries[0])], tries[1..])
  }

  /** `do extra = randomInt(lo, hi) while (extra is a, b, c or an earlier decoy)`, once per stream. */
  function Decoys(lo: int, hi: int, avoid: seq<int>, tries: seq<seq<real>>): (r: seq<int>)
    requires lo <= hi && DecoysFeasible(lo, hi, avoid, tries)
    ensures |r| == |tries|
    decreases |tries|
  {
    if tries == [] then []
    else
      var x := LevelTwo.Avoided(lo, hi, avoid, tries[0]);
      [x] + Decoys(lo, hi, avoid + [x], tries[1..])
  }

  /** Every decoy lies in the range, differs from each avoided number and from every other decoy. */
  lemma {:induction false} DecoysCorrect(lo: int, hi: int, avoid: seq<int>, tries: seq<seq<real>>)
    requires lo <= hi && DecoysFeasible(lo, hi, avoid, tries)
    ensures forall x :: x in Decoys(lo, hi, avoid, tries) ==> lo <= x <= hi && x !in avoid
    ensures Lists.Distinct(Decoys(lo, hi, avoid, tries))
    decreases |tries|
  {
    if tries != [] {
      var x := LevelTwo.Avoided(lo, hi, avoid, tries[0]);
      DecoysCorrect(lo, hi, avoid + [x], tries[1..]);
      var rest := Decoys(lo, hi, avoid + [x], tries[1..]);
      assert x !in rest;
    }
  }

  /** One turn of the decoy loop: the first stream gives the next decoy, the rest the others. */
  lemma DecoysStep(lo: int, hi: int, avoid: seq<int>, tries: seq<seq<real>>)
    requires lo <= hi && DecoysFeasible(lo, hi, avoid, tries) && tries != []
    ensures Utils.Draws(tries[0]) && LevelTwo.CanAvoid(lo, hi, avoid, tries[0])
    ensures var x := LevelTwo.Avoided(lo, hi, avoid, tries[0]);
      && DecoysFeasible(lo, hi, avoid + [x], tries[1..])
      && Decoys(lo, hi, avoid, tries) == [x] + Decoys(lo, hi, avoid + [x], tries[1..])
  {
  }

  method DrawDecoys(lo: int, hi: int, avoid: seq<int>, tries: seq<seq<real>>) returns (extras: seq<int>)
    requires lo <= hi && DecoysFeasible(lo, hi, avoid, tries)
    ensures extras == Decoys(lo, hi, avoid, tries)
  {
    extras := [];
    var seen := avoid;
    assert tries[0..] == tries;
    for i := 0 to |tries|
      invariant DecoysFeasible(lo, hi, seen, tries[i..])
      invariant extras + Decoys(lo, hi, seen, tries[i..]) == Decoys(lo, hi, avoid, tries)
    {
      DecoysStep(lo, hi, seen, tries[i..]);
      assert tries[i..][0] == tries[i] && tries[i..][1..] == tries[i + 1..];
      var extra := LevelTwo.DrawAvoiding(lo, hi, seen, tries[i]);
      ghost var later := Decoys(lo, hi, seen + [extra], tries[i + 1..]);
      assert extras + [extra] + later == extras + ([extra] + later);
      extras := extras + [extra];
      seen := seen + [extra];
    }
    assert tries[|tries|..] == [];
  }

  /** The extra-operator loop from the i-th draw on, with the operators kept so far. */
  function ExtraOpsFrom(pool: seq<char>, op1: char, op2: char, draws: seq<real>, kept: seq<char>): (r: seq<char>)
    requires |pool| >= 1 && Utils.Draws(draws)
    ensures |r| <= |kept| + |draws|
    ensures forall x :: x in r ==> x in kept || (x in pool && x != op1 && x != op2)
    ensures forall x :: x in kept ==> x in r
    ensures (forall i, j :: 0 <= i < j < |kept| ==> kept[i] != kept[j]) ==>
              forall i, j :: 0 <= i < j < |r| ==> r[i] != r[j]
    decreases |draws|
  {
    if draws == [] then kept
    else
      var op := OpAt(pool, draws[0]);
      var next := if op != op1 && op != op2 && op !in kept then kept + [op] else kept;
      ExtraOpsFrom(pool, op1, op2, draws[1..], next)
  }

  /** The decoy operators: each draw from `allOps` is kept when it is new and not `op1` or `op2`. */
  method DrawExtraOps(pool: seq<char>, op1: char, op2: char, draws: seq<real>) returns (extraOps: seq<char>)
    requires |pool| >= 1 && Utils.Draws(draws)
    ensures extraOps == ExtraOpsFrom(pool, op1, op2, draws, [])
  {
    extraOps := [];
    assert draws[0..] == draws;
    for i := 0 to |draws|
      invariant ExtraOpsFrom(pool, op1, op2, draws[i..], extraOps) == ExtraOpsFrom(pool, op1, op2, draws, [])
    {
      assert draws[i..][0] == draws[i] && draws[i..][1..] == draws[i + 1..];
      var op := pool[Utils.RandomInt(0, |pool| - 1, draws[i])];
      if op != op1 && op != op2 && op !in extraOps {
        extraOps := extraOps + [op];
      }
    }
    assert draws[|draws|..] == [];
  }

  /** Three decoys on the hard level, two otherwise. */
  function NumExtra(d: Option<Difficulty>): nat
  {
    if d == Some(Hard) then 3 else 2
  }

  /** Every `Math.random()` of a Level-3 task. */
  datatype Level3Draws = Level3Draws(
    attempts: seq<AttemptDraws>, fallback: AttemptDraws, decoys: seq<seq<real>>,
    mix: seq<real>, opDraws: seq<real>, order: seq<real>)

  function Abc(s: Solution): seq<int>
  {
    [s.cand.a, s.cand.b, s.cand.c]
  }

  /** Enough draws for every loop, and decoy streams that can all end. */
  predicate Enough(d: Option<Difficulty>, w: Level3Draws)
  {
    var g := RangesOf(d);
    && |w.attempts| >= MaxAttempts && AttemptsAreDraws(w.attempts) && AttemptIsDraw(w.fallback)
    && |w.decoys| == NumExtra(d)
    && DecoysFeasible(g.minNum, g.maxNumRange, Abc(SolutionOf(g, w.attempts, w.fallback)), w.decoys)
    && Utils.Draws(w.mix) && |w.mix| >= 5
    && Utils.Draws(w.opDraws) && |w.opDraws| == 2
    && Utils.Draws(w.order) && |w.order| >= 3
  }

  /** What the generator hands back. */
  datatype Level3Task = Level3Task(target: real, numbers: seq<int>, ops: seq<char>, solution: Candidate)

  function DecoysOf(d: Option<Difficulty>, w: Level3Draws): seq<int>
    requires Enough(d, w)
  {
    var g := RangesOf(d);
    Decoys(g.minNum, g.maxNumRange, Abc(SolutionOf(g, w.attempts, w.fallback)), w.decoys)
  }

  function ExtraOpsOf(d: Option<Difficulty>, w: Level3Draws): seq<char>
    requires Enough(d, w)
  {
    var s := SolutionOf(RangesOf(d), w.attempts, w.fallback);
    ExtraOpsFrom(AllOps(RangesOf(d).allowDivision), s.cand.op1, s.cand.op2, w.opDraws, [])
  }

  function ExpressionTaskOf(d: Option<Difficulty>, w: Level3Draws): (t: Level3Task)
    requires Enough(d, w)
    ensures |t.numbers| == 3 + NumExtra(d) && 2 <= |t.ops| <= 4
  {
    var s := SolutionOf(RangesOf(d), w.attempts, w.fallback);
    Level3Task(
      s.target,
      Utils.FisherYates(Abc(s) + DecoysOf(d, w), w.mix),
      Utils.FisherYates([s.cand.op1, s.cand.op2] + ExtraOpsOf(d, w), w.order),
      s.cand)
  }

  /** The draws of one attempt, with the divisor loop when `op1` is '/'. */
  method DrawCandidate(g: Ranges, t: AttemptDraws) returns (cand: Candidate)
    requires 1 <= g.minNum <= g.maxNumRange && AttemptIsDraw(t)
    ensures cand == CandidateOf(g, t)
  {
    var pool := AllOps(g.allowDivision);
    var op1 := pool[Utils.RandomInt(0, |pool| - 1, t.op1)];
    var op2 := pool[Utils.RandomInt(0, |pool| - 1, t.op2)];
    var a := Utils.RandomInt(g.minNum, g.maxNumRange, t.a);
    var b;
    if op1 == '/' {
      var divisors := ListDivisors(a, g.minNum, g.maxNumRange);
      if |divisors| == 0 {
        b := Utils.RandomInt(g.minNum, if a < g.maxNumRange then a else g.maxNumRange, t.b);
      } else {
        b := divisors[Utils.RandomInt(0, |divisors| - 1, t.b)];
      }
    } else {
      b := Utils.RandomInt(g.minNum, g.maxNumRange, t.b);
    }
    var c := Utils.RandomInt(g.minNum, g.maxNumRange, t.c);
    cand := Candidate(a, op1, b, op2, c);
  }

  /** The checks of one attempt, each rejection an early return as the loop's `continue`. */
  method Check(g: Ranges, cand: Candidate) returns (verdict: Option<real>)
    ensures verdict == Judge(g, cand)
  {
    var value := Evaluate(cand.a as real, cand.op1, cand.b as real, cand.op2, cand.c as real);
    if value.None? {
      return None;
    }
    var target := value.value;
    if cand.op1 == '/' || cand.op2 == '/' {
      if !IsInteger(target) && Frac(target) > 0.01 {
        return None;
      }
    }
    if target < 0.0 || target > (g.maxNumRange * 3) as real {
      return None;
    }
    target := Round2(target);
    if Frac(target) != 0.0 && Frac(target * 100.0) != 0.0 {
      return None;
    }
    verdict := Some(target);
  }

  /** The retry loop and the fallback. */
  method Solve(g: Ranges, attempts: seq<AttemptDraws>, fallback: AttemptDraws) returns (s: Solution)
    requires 1 <= g.minNum <= g.maxNumRange && |attempts| >= MaxAttempts && AttemptsAreDraws(attempts)
    requires AttemptIsDraw(fallback)
    ensures s == SolutionOf(g, attempts, fallback)
  {
    var cand := Candidate(0, '+', 0, '+', 0);
    var target := 0.0;
    var tried := 0;
    while tried < MaxAttempts
      invariant 0 <= tried <= MaxAttempts
      invariant FirstAccepted(g, attempts, tried) == FirstAccepted(g, attempts, 0)
      decreases MaxAttempts - tried
    {
      cand := DrawCandidate(g, attempts[tried]);
      var verdict := Check(g, cand);
      if verdict.None? {
        tried := tried + 1;
        continue;
      }
      target := verdict.value;
      break;
    }
    if tried >= MaxAttempts {
      s := DrawFallback(fallback);
    } else {
      s := Solution(cand, target);
    }
  }

  /** The draws after fifty rejected attempts. */
  method DrawFallback(fallback: AttemptDraws) returns (s: Solution)
    requires AttemptIsDraw(fallback)
    ensures s == FallbackSolution(fallback)
  {
    var a := Utils.RandomInt(2, 10, fallback.a);
    var b := Utils.RandomInt(1, 9, fallback.b);
    var c := Utils.RandomInt(1, 9, fallback.c);
    var op1 := ['+', '-'][Utils.RandomInt(0, 1, fallback.op1)];
    var op2 := ['+', '-'][Utils.RandomInt(0, 1, fallback.op2)];
    var value := Evaluate(a as real, op1, b as real, op2, c as real);
    if value.None? {
      s := Solution(Candidate(a, '+', b, '+', c), (a + b + c) as real);
    } else {
      s := Solution(Candidate(a, op1, b, op2, c), value.value);
    }
  }

  method GenerateExpressionTask(d: Option<Difficulty>, w: Level3Draws) returns (task: Level3Task)
    requires Enough(d, w)
    ensures task == ExpressionTaskOf(d, w)
  {
    var g := RangesOf(d);
    var s := Solve(g, w.attempts, w.fallback);
    var extras := DrawDecoys(g.minNum, g.maxNumRange, [s.cand.a, s.cand.b, s.cand.c], w.decoys);
    var numbers := Utils.Shuffle([s.cand.a, s.cand.b, s.cand.c] + extras, w.mix);
    var extraOps := DrawExtraOps(AllOps(g.allowDivision), s.cand.op1, s.cand.op2, w.opDraws);
    var ops := Utils.Shuffle([s.cand.op1, s.cand.op2] + extraOps, w.order);
    task := Level3Task(s.target, numbers, ops, s.cand);
  }

  /** Every draw of an attempt is in range, and a divided `a` is divided exactly by `b`. */
  lemma CandidateFacts(g: Ranges, t: AttemptDraws)
    requires 1 <= g.minNum <= g.maxNumRange && AttemptIsDraw(t)
    ensures var cand := CandidateOf(g, t);
      && g.minNum <= cand.a <= g.maxNumRange && g.minNum <= cand.b <= g.maxNumRange
      && g.minNum <= cand.c <= g.maxNumRange
      && cand.op1 in AllOps(g.allowDivision) && cand.op2 in AllOps(g.allowDivision)
      && (cand.op1 == '/' ==> cand.a % cand.b == 0)
  {
    var cand := CandidateOf(g, t);
    var pool := AllOps(g.allowDivision);
    var i1, i2 := Utils.RandomInt(0, |pool| - 1, t.op1), Utils.RandomInt(0, |pool| - 1, t.op2);
    assert cand.op1 == pool[i1] && cand.op2 == pool[i2];
    if cand.op1 == '/' {
      DivisorsHoldSelf(cand.a, g.minNum, g.maxNumRange);
      var ds := DivisorsUpTo(cand.a, g.minNum, g.maxNumRange, cand.a);
      assert cand.b in ds;
    }
  }

  /** The fallback uses + and - only, so it always evaluates; its target may be negative. */
  lemma FallbackFacts(t: AttemptDraws)
    requires AttemptIsDraw(t)
    ensures var f := FallbackOf(t);
      && Low(f.op1) && Low(f.op2) && 2 <= f.a <= 10 && 1 <= f.b <= 9 && 1 <= f.c <= 9
      && Evaluates(f).Some?
  {
    var f := FallbackOf(t);
    assert f.op1 == ['+', '-'][Utils.RandomInt(0, 1, t.op1)];
    assert f.op2 == ['+', '-'][Utils.RandomInt(0, 1, t.op2)];
  }

  /** What the generator promises about the hidden expression and its target. */
  predicate SolutionPromise(g: Ranges, s: Solution, accepted: bool)
  {
    && Evaluates(s.cand) == Some(s.target)
    && (s.cand.op1 == '/' ==> s.cand.b != 0 && s.cand.a % s.cand.b == 0)
    && (!g.allowDivision ==> s.cand.op1 != '/' && s.cand.op2 != '/')
    && (accepted ==>
          && 0.0 <= s.target <= (g.maxNumRange * 3) as real
          && g.minNum <= s.cand.a <= g.maxNumRange && g.minNum <= s.cand.b <= g.maxNumRange
          && g.minNum <= s.cand.c <= g.maxNumRange)
    && (!accepted ==> Low(s.cand.op1) && Low(s.cand.op2))
  }

  /**
   * The target is the value of the hidden expression in every case; before the fiftieth attempt
   * it lies between 0 and three times the range, and a '/' in first place divides exactly.
   */
  lemma SolutionCorrect(g: Ranges, attempts: seq<AttemptDraws>, fallback: AttemptDraws)
    requires 1 <= g.minNum <= g.maxNumRange && |attempts| >= MaxAttempts && AttemptsAreDraws(attempts)
    requires AttemptIsDraw(fallback)
    ensures SolutionPromise(g, SolutionOf(g, attempts, fallback), FirstAccepted(g, attempts, 0).Some?)
  {
    var s := SolutionOf(g, attempts, fallback);
    match FirstAccepted(g, attempts, 0)
    case Some(i) =>
      var cand := CandidateOf(g, attempts[i]);
      CandidateFacts(g, attempts[i]);
      JudgeAccepts(g, cand);
      var pool := AllOps(g.allowDivision);
      assert cand.op1 in pool && cand.op2 in pool;
    case None =>
      FallbackFacts(fallback);
  }

  /** The decoys: as many as asked, in range, all different, and none of a, b or c. */
  predicate DecoyPromise(abc: seq<int>, decoys: seq<int>, lo: int, hi: int, n: nat)
  {
    && |decoys| == n && Lists.Distinct(decoys)
    && forall x :: x in decoys ==> lo <= x <= hi && x !in abc
  }

  /** The extra operators: at most two, all different, from the pool and neither op1 nor op2. */
  predicate OpsPromise(op1: char, op2: char, extra: seq<char>, pool: seq<char>)
  {
    && |extra| <= 2
    && (forall i, j :: 0 <= i < j < |extra| ==> extra[i] != extra[j])
    && forall x :: x in extra ==> x in pool && x != op1 && x != op2
  }

  /**
   * The whole task: the solution evaluates to the target, the numbers are a, b, c and the decoys
   * in some order, and the operators are op1, op2 and the extra ones in some order.
   */
  lemma ExpressionTaskCorrect(d: Option<Difficulty>, w: Level3Draws)
    requires Enough(d, w)
    ensures var g := RangesOf(d);
      var t := ExpressionTaskOf(d, w);
      && SolutionPromise(g, Solution(t.solution, t.target), FirstAccepted(g, w.attempts, 0).Some?)
      && multiset(t.numbers) == multiset([t.solution.a, t.solution.b, t.solution.c] + DecoysOf(d, w))
      && DecoyPromise([t.solution.a, t.solution.b, t.solution.c], DecoysOf(d, w), g.minNum, g.maxNumRange, NumExtra(d))
      && multiset(t.ops) == multiset([t.solution.op1, t.solution.op2] + ExtraOpsOf(d, w))
      && OpsPromise(t.solution.op1, t.solution.op2, ExtraOpsOf(d, w), AllOps(g.allowDivision))
  {
    var g := RangesOf(d);
    SolutionCorrect(g, w.attempts, w.fallback);
    DecoysCorrect(g.minNum, g.maxNumRange, Abc(SolutionOf(g, w.attempts, w.fallback)), w.decoys);
  }
}
