/**
 * backend/utils/problemService.js: random arithmetic problems by type and
 * difficulty, and the five seeded problems of a day's challenge.
 *
 * `Math.random()` is an injected source: the k-th draw of one call is
 * `rand(k)`, and `Math.floor(Math.random() * n)` is `FloorScaled(n, rand(k))`.
 */
module ProblemService {
  import opened JsBuiltins
  import opened Constants
  import opened Helpers

  datatype Kind = Addition | Subtraction | Multiplication | Division

  /** The `type` string of a problem. */
  function KindName(k: Kind): string
  {
    match k
    case Addition => "addition"
    case Subtraction => "subtraction"
    case Multiplication => "multiplication"
    case Division => "division"
  }

  function Symbol(k: Kind): string
  {
    match k
    case Addition => "+"
    case Subtraction => "-"
    case Multiplication => "×"
    case Division => "÷"
  }

  /**
   * A generated problem: the operands as shown (`left op right`), the
   * numeric answer, the type and the effective difficulty.
   */
  datatype Problem = Problem(left: int, right: int, result: int, kind: Kind, difficulty: int)

  /** The `problem` text, `${a} op ${b}`. */
  function Statement(p: Problem): string
  {
    Show(p.left) + " " + Symbol(p.kind) + " " + Show(p.right)
  }

  /** The `answer` field, `answer.toString()`. */
  function AnswerText(p: Problem): string
  {
    Show(p.result)
  }

  /** The answer text reads back as the numeric answer and determines it. */
  lemma AnswerTextFaithful(p: Problem, q: Problem)
    ensures ParseInt(AnswerText(p)) == Num(p.result)
    ensures AnswerText(p) == AnswerText(q) <==> p.result == q.result
  {
    ParseShow(p.result, []);
    assert AnswerText(p) + [] == AnswerText(p);
    ShowInjective(p.result, q.result);
  }

  // ---------------------------------------------------------------------
  // generateProblem

  /** The draw source of a nested call: the draws after the first one. */
  function After(rand: nat -> nat): nat -> nat
  {
    k => rand(k + 1)
  }

  /** The types `mixed` chooses from at a difficulty. */
  function MixedTypes(diff: int): (types: seq<string>)
    ensures 2 <= |types| <= 4
  {
    ["addition", "subtraction"] + (if diff >= 2 then ["multiplication"] else []) + (if diff >= 3 then ["division"] else [])
  }

  lemma MixedTypesKnown(diff: int, k: int)
    requires 0 <= k < |MixedTypes(diff)|
    ensures MixedTypes(diff)[k] in {"addition", "subtraction", "multiplication", "division"}
  {
  }

  /**
   * The arithmetic of one concrete type at difficulty `diff`: operands drawn
   * from `rand(0)` and `rand(1)` as `generateProblem`'s switch draws them.
   */
  function Arith(kind: Kind, diff: int, rand: nat -> nat): (p: Problem)
    ensures p.kind == kind && p.difficulty == diff
  {
    var maxNum := diff * 10;
    match kind
    case Addition =>
      var a := FloorScaled(maxNum, rand(0)) + 1;
      var b := FloorScaled(maxNum, rand(1)) + 1;
      Problem(a, b, a + b, Addition, diff)
    case Subtraction =>
      var a := FloorScaled(maxNum, rand(0)) + diff;
      var b := FloorScaled(Min(a, maxNum), rand(1)) + 1;
      Problem(a, b, a - b, Subtraction, diff)
    case Multiplication =>
      var maxMult := Min(diff + 2, 12);
      var a := FloorScaled(maxMult, rand(0)) + 1;
      var b := FloorScaled(maxMult, rand(1)) + 1;
      Problem(a, b, a * b, Multiplication, diff)
    case Division =>
      var maxDiv := Min(diff + 2, 12);
      var b := FloorScaled(maxDiv, rand(0)) + 1;
      var answer := FloorScaled(maxDiv, rand(1)) + 1;
      Problem(b * answer, b, answer, Division, diff)
  }

  /** The concrete type a type name selects, if any. */
  function KindOf(problemType: string): (k: Option<Kind>)
    ensures k.Some? <==> problemType in {"addition", "subtraction", "multiplication", "division"}
    ensures k.Some? ==> KindName(k.value) == problemType
  {
    if problemType == "addition" then Some(Addition)
    else if problemType == "subtraction" then Some(Subtraction)
    else if problemType == "multiplication" then Some(Multiplication)
    else if problemType == "division" then Some(Division)
    else None
  }

  /**
   * `generateProblem(problemType, difficulty)`, where `difficulty` arrives already
   * through `parseInt`. An unknown type is the thrown error.
   */
  function GenerateProblem(problemType: string, difficulty: ParsedInt, rand: nat -> nat): Result<Problem>
    decreases if problemType == "mixed" then 1 else 0
  {
    var diff := OrDefault(difficulty, 1);
    if KindOf(problemType).Some? then Ok(Arith(KindOf(problemType).value, diff, rand))
    else if problemType == "mixed" then
      var types := MixedTypes(diff);
      var randomType := types[FloorScaled(|types|, rand(0))];
      MixedTypesKnown(diff, FloorScaled(|types|, rand(0)));
      GenerateProblem(randomType, Num(diff), After(rand))
    else
      Err("Invalid problem type: " + problemType)
  }

  /** The five type names the generator accepts. */
  predicate KnownType(problemType: string)
  {
    problemType in {"addition", "subtraction", "multiplication", "division", "mixed"}
  }

  /**
   * Exactly the unknown types raise "Invalid problem type: <type>"; a known
   * type gives a problem of that type (or, for mixed, of some concrete type)
   * at the effective difficulty, `parseInt(difficulty) || 1`.
   */
  lemma GenerateProblemOutcome(problemType: string, difficulty: ParsedInt, rand: nat -> nat)
    ensures var r := GenerateProblem(problemType, difficulty, rand);
      (r.Err? <==> !KnownType(problemType)) &&
      (r.Err? ==> r.message == "Invalid problem type: " + problemType) &&
      (r.Ok? ==> r.value.difficulty == OrDefault(difficulty, 1) && r.value.difficulty != 0) &&
      (r.Ok? && problemType != "mixed" ==> KindName(r.value.kind) == problemType)
  {
    if problemType == "mixed" {
      var diff := OrDefault(difficulty, 1);
      var types := MixedTypes(diff);
      MixedTypesKnown(diff, FloorScaled(|types|, rand(0)));
    }
  }

  /** Addition at difficulty d >= 1: both operands in [1, 10d], answer their sum. */
  lemma AdditionBounds(difficulty: ParsedInt, rand: nat -> nat)
    requires OrDefault(difficulty, 1) >= 1
    ensures var r := GenerateProblem("addition", difficulty, rand); var d := OrDefault(difficulty, 1);
      r.Ok? && r.value.kind == Addition &&
      1 <= r.value.left <= 10 * d && 1 <= r.value.right <= 10 * d && r.value.result == r.value.left + r.value.right
  {
  }

  /** Every pair of operands in [1, 10d] is produced by some draws. */
  lemma AdditionCovers(d: int, a: int, b: int)
    requires d >= 1 && 1 <= a <= 10 * d && 1 <= b <= 10 * d
    ensures exists rand: nat -> nat :: GenerateProblem("addition", Num(d), rand) == Ok(Problem(a, b, a + b, Addition, d))
  {
    var rand: nat -> nat := k => if k == 0 then a - 1 else b - 1;
    ModSmall(a - 1, 10 * d);
    ModSmall(b - 1, 10 * d);
    assert GenerateProblem("addition", Num(d), rand) == Ok(Problem(a, b, a + b, Addition, d));
  }

  /** Subtraction at d >= 1: the minuend is in [d, 11d - 1], the subtrahend in [1, min(a, 10d)], so the answer is never negative. */
  lemma SubtractionNonNegative(difficulty: ParsedInt, rand: nat -> nat)
    requires OrDefault(difficulty, 1) >= 1
    ensures var r := GenerateProblem("subtraction", difficulty, rand); var d := OrDefault(difficulty, 1);
      r.Ok? && r.value.kind == Subtraction &&
      d <= r.value.left <= 11 * d - 1 && 1 <= r.value.right <= Min(r.value.left, 10 * d) &&
      r.value.result == r.value.left - r.value.right && r.value.result >= 0
  {
  }

  /** Multiplication at d >= 1: both factors in [1, min(d + 2, 12)], answer their product. */
  lemma MultiplicationBounds(difficulty: ParsedInt, rand: nat -> nat)
    requires OrDefault(difficulty, 1) >= 1
    ensures var r := GenerateProblem("multiplication", difficulty, rand); var d := OrDefault(difficulty, 1);
      r.Ok? && r.value.kind == Multiplication &&
      1 <= r.value.left <= Min(d + 2, 12) && 1 <= r.value.right <= Min(d + 2, 12) &&
      r.value.result == r.value.left * r.value.right
  {
  }

  /**
   * Division is always exact: the dividend is divisor times answer. At d >= 1
   * the divisor and the answer lie in [1, min(d + 2, 12)], so the division
   * `left / right` has no remainder and gives the answer.
   */
  lemma DivisionExact(difficulty: ParsedInt, rand: nat -> nat)
    ensures var r := GenerateProblem("division", difficulty, rand);
      r.Ok? && r.value.kind == Division && r.value.left == r.value.right * r.value.result
    ensures var r := GenerateProblem("division", difficulty, rand); var d := OrDefault(difficulty, 1);
      d >= 1 ==>
        1 <= r.value.right <= Min(d + 2, 12) && 1 <= r.value.result <= Min(d + 2, 12) &&
        r.value.left % r.value.right == 0 && r.value.left / r.value.right == r.value.result
  {
    var r := GenerateProblem("division", difficulty, rand);
    if OrDefault(difficulty, 1) >= 1 {
      ProductDivides(r.value.right, r.value.result);
    }
  }

  lemma ProductDivides(b: int, q: int)
    requires b >= 1
    ensures (b * q) % b == 0 && (b * q) / b == q
  {
    var x := b * q;
    var d, r := x / b - q, x % b;
    assert x == b * (x / b) + r;
    Distribute(b, q, d);
    assert b * d + r == 0;
    MulSign(b, d);
  }

  lemma Distribute(b: int, q: int, d: int)
    ensures b * (q + d) == b * q + b * d
  {
  }

  lemma MulSign(b: int, d: int)
    requires b >= 1
    ensures d > 0 ==> b * d >= b
    ensures d < 0 ==> b * d <= -b
  {
  }

  /**
   * Mixed delegates to one of its allowed types with the next draws: never
   * to multiplication below difficulty 2, never to division below 3.
   */
  lemma MixedChoosesAllowedType(difficulty: ParsedInt, rand: nat -> nat)
    ensures var r := GenerateProblem("mixed", difficulty, rand); var d := OrDefault(difficulty, 1);
      r.Ok? && KindName(r.value.kind) in MixedTypes(d) &&
      (r.value.kind == Multiplication ==> d >= 2) && (r.value.kind == Division ==> d >= 3) &&
      r == GenerateProblem(KindName(r.value.kind), Num(d), After(rand))
  {
    var d := OrDefault(difficulty, 1);
    var types := MixedTypes(d);
    var k := FloorScaled(|types|, rand(0));
    MixedTypesKnown(d, k);
    var t := types[k];
    GenerateProblemOutcome(t, Num(d), After(rand));
  }

  // ---------------------------------------------------------------------
  // The daily challenge

  /** The rotation of types the daily problems follow. */
  const DAILY_KINDS: seq<Kind> := [Addition, Subtraction, Multiplication]

  /** The raw value of the seeded `rand` closure of problem i: the same on every draw. */
  function DailyRaw(problemSeed: nat, i: nat): (raw: nat)
    ensures raw < 233280
  {
    (problemSeed * (i + 1) * 9301 + 49297) % 233280
  }

  /** `rand(max)`: the raw value reduced into [1, max]. */
  function DailyRand(raw: nat, max: int): (v: int)
    requires max > 0
    ensures 1 <= v <= max
  {
    raw % max + 1
  }

  /** `Math.min(5, Math.floor(i / 1) + 2)`. */
  function DailyDifficulty(i: nat): (d: int)
    ensures 2 <= d <= 5
  {
    Min(5, i / 1 + 2)
  }

  /** The pushed object `{index, problem, answer, type, difficulty}`. */
  datatype DailyEntry = DailyEntry(index: nat, problem: Problem)

  /** Problem i of the day whose seed is `seed`. */
  function DailyEntryAt(seed: nat, i: nat): DailyEntry
  {
    var problemSeed := seed + i;
    var kind := DAILY_KINDS[problemSeed % 3];
    var difficulty := DailyDifficulty(i);
    var maxNum := difficulty * 10;
    var raw := DailyRaw(problemSeed, i);
    match kind
    case Addition =>
      var a := DailyRand(raw, maxNum);
      var b := DailyRand(raw, maxNum);
      DailyEntry(i, Problem(a, b, a + b, Addition, difficulty))
    case Subtraction =>
      var a := DailyRand(raw, maxNum) + difficulty;
      var b := DailyRand(raw, Min(a, maxNum));
      DailyEntry(i, Problem(a, b, a - b, Subtraction, difficulty))
    case Multiplication =>
      var a := DailyRand(raw, Min(difficulty + 3, 12));
      var b := DailyRand(raw, Min(difficulty + 3, 12));
      DailyEntry(i, Problem(a, b, a * b, Multiplication, difficulty))
    case Division =>
      assert false; DailyEntry(i, Problem(0, 0, 0, Division, difficulty))
  }

  /** `generateDailyChallengeProblems(date)` as a value. */
  function DailyProblems(date: string): seq<DailyEntry>
  {
    seq(DAILY_CHALLENGE_TOTAL_PROBLEMS, i requires 0 <= i => DailyEntryAt(DailySeed(date), i))
  }

  /** `generateDailyChallengeProblems`: the for-loop pushing one problem per index. */
  method GenerateDailyChallengeProblems(date: string) returns (problems: seq<DailyEntry>)
    ensures problems == DailyProblems(date)
  {
    var seed := GetDailyChallengeSeed(date);
    problems := [];
    var i := 0;
    while i < DAILY_CHALLENGE_TOTAL_PROBLEMS
      invariant 0 <= i <= DAILY_CHALLENGE_TOTAL_PROBLEMS
      invariant problems == DailyProblems(date)[..i]
    {
      problems := problems + [DailyEntryAt(seed, i)];
      i := i + 1;
    }
  }

  /** `getDailyChallengeProblem(date, index)`: `problems[index] || null`. */
  function GetDailyChallengeProblem(date: string, index: int): (r: Option<DailyEntry>)
  {
    if 0 <= index < |DailyProblems(date)| then Some(DailyProblems(date)[index]) else None
  }

  /** The lookup agrees with the list inside [0, 5) and is null outside it. */
  lemma GetDailyChallengeProblemSpec(date: string, index: int)
    ensures GetDailyChallengeProblem(date, index).Some? <==> 0 <= index < 5
    ensures 0 <= index < 5 ==> GetDailyChallengeProblem(date, index) == Some(DailyProblems(date)[index])
    ensures 0 <= index < 5 ==> GetDailyChallengeProblem(date, index).value.index == index
  {
  }

  /**
   * The day has five problems; problem i carries index i, difficulty
   * min(5, i + 2) and the type at (seed + i) mod 3 of add/sub/mult, so
   * never division.
   */
  lemma DailyProblemsShape(date: string)
    ensures |DailyProblems(date)| == 5
    ensures forall i | 0 <= i < 5 ::
      var e := DailyProblems(date)[i];
      e.index == i && e.problem.difficulty == Min(5, i + 2) &&
      e.problem.kind == DAILY_KINDS[(DailySeed(date) + i) % 3] && e.problem.kind != Division
  {
    forall i | 0 <= i < 5
      ensures var e := DailyProblems(date)[i];
        e.index == i && e.problem.difficulty == Min(5, i + 2) &&
        e.problem.kind == DAILY_KINDS[(DailySeed(date) + i) % 3] && e.problem.kind != Division
    {
      DailyEntryShape(DailySeed(date), i);
    }
  }

  lemma DailyEntryShape(seed: nat, i: nat)
    ensures var e := DailyEntryAt(seed, i);
      e.index == i && e.problem.difficulty == DailyDifficulty(i) &&
      e.problem.kind == DAILY_KINDS[(seed + i) % 3] && e.problem.kind != Division
  {
  }

  /**
   * Every draw of one daily problem gives the same raw value, so addition and
   * multiplication show equal operands; multiplication factors stay within
   * [1, min(d + 3, 12)], addition operands within [1, 10d], and subtraction
   * answers are never negative.
   */
  lemma DailyOperands(seed: nat, i: nat)
    ensures var p := DailyEntryAt(seed, i).problem; var d := DailyDifficulty(i);
      (p.kind == Addition ==> p.left == p.right && 1 <= p.left <= 10 * d && p.result == 2 * p.left) &&
      (p.kind == Multiplication ==> p.left == p.right && 1 <= p.left <= Min(d + 3, 12) && p.result == p.left * p.left) &&
      (p.kind == Subtraction ==> 1 <= p.right <= p.left && p.result == p.left - p.right && p.result >= 0)
  {
  }

  /**
   * The integer model of the seeded draw is exact: for a seed no larger than
   * 2^31 and i < 5 the product stays below 2^53, where JavaScript numbers
   * still represent every integer.
   */
  lemma DailyArithmeticExact(seed: nat, i: nat)
    requires seed <= TWO31 && i < 5
    ensures (seed + i) * (i + 1) * 9301 + 49297 < 0x20_0000_0000_0000
  {
    assert seed + i <= TWO31 + 4;
    assert (seed + i) * (i + 1) <= (TWO31 + 4) * 5;
  }
}
