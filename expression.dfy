/**
 * `evaluateExpression` and `formatExpression` of js/game.js: a five-slot calculator
 * `a op1 b op2 c` over + - * / with the usual two precedence levels, and its printer.
 */
module Expression {
  import opened Wrappers
  import Utils

  predicate ValidOp(op: char) { op == '+' || op == '-' || op == '*' || op == '/' }
  predicate High(op: char) { op == '*' || op == '/' }
  predicate Low(op: char) { op == '+' || op == '-' }

  /** `Math.round(x * 100) / 100`, on exact reals. */
  function Round2(x: real): (y: real)
    ensures x - 0.005 < y <= x + 0.005
  {
    Utils.Round(x * 100.0) as real / 100.0
  }

  lemma Round2Idempotent(x: real)
    ensures Round2(Round2(x)) == Round2(x)
  {
    var n := Utils.Round(x * 100.0);
    assert Round2(x) * 100.0 == n as real;
    assert Utils.Round(n as real) == n;
  }

  /** The arithmetic of one operator; `/` needs a non-zero divisor. */
  function Step(x: real, op: char, y: real): real
    requires ValidOp(op) && !(op == '/' && y == 0.0)
  {
    if op == '+' then x + y
    else if op == '-' then x - y
    else if op == '*' then x * y
    else x / y
  }

  /** One binary step; `None` on an unknown operator or a zero divisor. */
  function Apply(x: real, op: char, y: real): (r: Option<real>)
    ensures r.None? <==> !ValidOp(op) || (op == '/' && y == 0.0)
  {
    if !ValidOp(op) || (op == '/' && y == 0.0) then None else Some(Step(x, op, y))
  }

  /** The evaluator, branch for branch: high-then-low, low-then-high, and left to right otherwise. */
  function Evaluate(a: real, op1: char, b: real, op2: char, c: real): (r: Option<real>)
    ensures r.Some? ==> ValidOp(op1) && ValidOp(op2) && Round2(r.value) == r.value
  {
    if !ValidOp(op1) || !ValidOp(op2) then None
    else if High(op1) && Low(op2) then
      if op1 == '/' && b == 0.0 then None
      else Rounded(Step(Step(a, op1, b), op2, c))
    else if Low(op1) && High(op2) then
      if op2 == '/' && c == 0.0 then None
      else Rounded(Step(a, op1, Step(b, op2, c)))
    else
      if op1 == '/' && b == 0.0 then None
      else if op2 == '/' && c == 0.0 then None
      else Rounded(Step(Step(a, op1, b), op2, c))
  }

  /** The final `Math.round(result * 100) / 100`: a value already at two places. */
  function Rounded(x: real): (r: Option<real>)
    ensures r == Some(Round2(x)) && Round2(r.value) == r.value
  {
    Round2Idempotent(x);
    Some(Round2(x))
  }

  // -------------------------------------------------- reference semantics

  /** An expression tree, the independent reading of the five slots. */
  datatype Expr = Num(n: real) | Bin(op: char, left: Expr, right: Expr)

  function Eval(e: Expr): Option<real>
  {
    match e
    case Num(n) => Some(n)
    case Bin(op, l, r) =>
      match (Eval(l), Eval(r))
      case (Some(x), Some(y)) => Apply(x, op, y)
      case _ => None
  }

  /** How the usual precedence rules group `a op1 b op2 c`. */
  function Parse(a: real, op1: char, b: real, op2: char, c: real): (e: Expr)
    ensures e.Bin?
  {
    if Low(op1) && High(op2) then Bin(op1, Num(a), Bin(op2, Num(b), Num(c)))
    else Bin(op2, Bin(op1, Num(a), Num(b)), Num(c))
  }

  function MapRound2(r: Option<real>): Option<real>
  {
    if r.Some? then Some(Round2(r.value)) else None
  }

  /** The evaluator agrees with the precedence tree, rounded to two places, and fails on the same inputs. */
  lemma EvaluateIsTreeValue(a: real, op1: char, b: real, op2: char, c: real)
    ensures Evaluate(a, op1, b, op2, c) == MapRound2(Eval(Parse(a, op1, b, op2, c)))
  {
    if Low(op1) && High(op2) {
      assert Eval(Bin(op2, Num(b), Num(c))) == Apply(b, op2, c);
    } else {
      assert Eval(Bin(op1, Num(a), Num(b))) == Apply(a, op1, b);
    }
  }

  /** `(6 * 3) - 4`: the high-priority step happens first. */
  lemma EvaluateExample()
    ensures Evaluate(6.0, '*', 3.0, '-', 4.0) == Some(14.0)
  {
    assert Round2(14.0) == 14.0 by {
      assert Utils.Round(1400.0) == 1400;
    }
  }

  /** High then low: `(a op1 b) op2 c`. */
  lemma HighThenLow(a: real, op1: char, b: real, op2: char, c: real)
    requires High(op1) && Low(op2)
    ensures Evaluate(a, op1, b, op2, c)
         == (match Apply(a, op1, b)
             case Some(s) => MapRound2(Apply(s, op2, c))
             case None => None)
  {
  }

  /** Low then high: `a op1 (b op2 c)`. */
  lemma LowThenHigh(a: real, op1: char, b: real, op2: char, c: real)
    requires Low(op1) && High(op2)
    ensures Evaluate(a, op1, b, op2, c)
         == (match Apply(b, op2, c)
             case Some(s) => MapRound2(Apply(a, op1, s))
             case None => None)
  {
  }

  /** Equal priority: left to right. */
  lemma SamePriorityLeftToRight(a: real, op1: char, b: real, op2: char, c: real)
    requires (High(op1) && High(op2)) || (Low(op1) && Low(op2))
    ensures Evaluate(a, op1, b, op2, c)
         == (match Apply(a, op1, b)
             case Some(s) => MapRound2(Apply(s, op2, c))
             case None => None)
  {
  }

  /** `null` exactly for an unknown operator or a zero divisor that is actually reached. */
  lemma EvaluateFails(a: real, op1: char, b: real, op2: char, c: real)
    ensures Evaluate(a, op1, b, op2, c).None?
        <==> !ValidOp(op1) || !ValidOp(op2) || (op1 == '/' && b == 0.0)
             || (op2 == '/' && c == 0.0 && !(High(op1) && Low(op2)))
  {
  }

  // -------------------------------------------------------------- printing

  /** `String(n)` for an integer. */
  function IntString(n: int): (s: string)
    ensures |s| >= 1 && '(' !in s && ')' !in s && ' ' !in s
  {
    var digits := Utils.DecimalString(if n < 0 then -n else n);
    DigitsPlain(if n < 0 then -n else n);
    if n < 0 then "-" + digits else digits
  }

  lemma DigitsPlain(n: nat)
    ensures forall k :: 0 <= k < |Utils.DecimalString(n)| ==> '0' <= Utils.DecimalString(n)[k] <= '9'
    decreases n
  {
    if n >= 10 {
      DigitsPlain(n / 10);
    }
  }

  /** `x op y` with single spaces, the template both printers use. */
  function Join(x: string, op: char, y: string): string
  {
    x + " " + [op] + " " + y
  }

  function Bracket(x: string): string
  {
    "(" + x + ")"
  }

  /** `formatExpression`: the plain infix form, with parentheses around `b op2 c` only for low-then-high. */
  function Format(a: int, op1: char, b: int, op2: char, c: int): (s: string)
    ensures |s| == |IntString(a)| + |IntString(b)| + |IntString(c)| + 6 + (if Low(op1) && High(op2) then 2 else 0)
  {
    if Low(op1) && High(op2) then Join(IntString(a), op1, Bracket(Join(IntString(b), op2, IntString(c))))
    else Join(Join(IntString(a), op1, IntString(b)), op2, IntString(c))
  }

  /** The printer of a tree: a right operand that is itself an operation gets parentheses. */
  function Show(e: Expr): string
    requires IntTree(e)
  {
    match e
    case Num(n) => IntString(n.Floor)
    case Bin(op, l, r) => Join(Show(l), op, if r.Bin? then Bracket(Show(r)) else Show(r))
  }

  predicate IntTree(e: Expr)
  {
    match e
    case Num(n) => n == n.Floor as real
    case Bin(_, l, r) => IntTree(l) && IntTree(r)
  }

  /** The printed solution is exactly the tree the evaluator computes, with the parentheses exactly where the tree needs them. */
  lemma FormatShowsTree(a: int, op1: char, b: int, op2: char, c: int)
    ensures IntTree(Parse(a as real, op1, b as real, op2, c as real))
    ensures Format(a, op1, b, op2, c) == Show(Parse(a as real, op1, b as real, op2, c as real))
  {
    assert Show(Num(a as real)) == IntString(a);
    assert Show(Num(b as real)) == IntString(b);
    assert Show(Num(c as real)) == IntString(c);
  }

  /** Parentheses appear exactly when op1 is low-priority and op2 high-priority. */
  lemma {:induction false} FormatParenthesises(a: int, op1: char, b: int, op2: char, c: int)
    requires ValidOp(op1) && ValidOp(op2)
    ensures '(' in Format(a, op1, b, op2, c) <==> Low(op1) && High(op2)
  {
    if Low(op1) && High(op2) {
      var s := Format(a, op1, b, op2, c);
      assert s[|IntString(a)| + 3] == '(';
    } else {
      var ab := Join(IntString(a), op1, IntString(b));
      assert '(' !in ab;
    }
  }

  lemma DropBracket(head: string, inner: string)
    ensures var s := head + Bracket(inner);
      s[|head|] == '(' && s[|s| - 1] == ')' && s[..|head|] + s[|head| + 1..|s| - 1] == head + inner
  {
    var s := head + Bracket(inner);
    assert s[..|head|] == head;
    assert s[|head| + 1..|s| - 1] == inner;
  }

  lemma JoinAssoc(x: string, op1: char, y: string, op2: char, z: string)
    ensures Join(x, op1, "") + Join(y, op2, z) == Join(Join(x, op1, y), op2, z)
  {
  }

  /** Dropping the two parentheses from the bracketed form leaves the plain form. */
  lemma StripParens(a: int, op1: char, b: int, op2: char, c: int)
    requires Low(op1) && High(op2)
    ensures var s := Format(a, op1, b, op2, c);
      var k := |IntString(a)| + 3;
      s[k] == '(' && s[|s| - 1] == ')'
      && s[..k] + s[k + 1..|s| - 1] == Join(Join(IntString(a), op1, IntString(b)), op2, IntString(c))
  {
    var head := Join(IntString(a), op1, "");
    var inner := Join(IntString(b), op2, IntString(c));
    assert Format(a, op1, b, op2, c) == head + Bracket(inner);
    DropBracket(head, inner);
    JoinAssoc(IntString(a), op1, IntString(b), op2, IntString(c));
  }
}
