/**
 * frontend/src/App.jsx: the client's adaptive difficulty (a window of the
 * last five answers, difficulty kept in 1..5), the object count of the
 * counting mode, and the PIN input's keystroke and paste handlers.
 */
module App {
  import opened JsBuiltins
  import opened Db

  // ---------------------------------------------------------------------
  // The difficulty rule

  /** `arr.slice(-5)`: the last five answers, or all of them when fewer. */
  function LastFive(answers: seq<bool>): (r: seq<bool>)
    ensures |r| == Min(5, |answers|)
    ensures r == answers[|answers| - |r|..]
  {
    if |answers| > 5 then answers[|answers| - 5..] else answers
  }

  /** `answers.filter(a => a).length`. */
  function CountCorrect(answers: seq<bool>): (n: nat)
    ensures n <= |answers|
  {
    if answers == [] then 0
    else CountCorrect(answers[..|answers| - 1]) + (if answers[|answers| - 1] then 1 else 0)
  }

  /** `answers.slice(-3).every(a => a === b)` on a list of at least three answers. */
  predicate LastThreeAre(answers: seq<bool>, b: bool)
    requires |answers| >= 3
  {
    answers[|answers| - 3] == b && answers[|answers| - 2] == b && answers[|answers| - 1] == b
  }

  /** The difficulty `updateDifficulty` computes from the new window and the current difficulty. */
  function NextDifficulty(answers: seq<bool>, d: int): int
  {
    var recentCorrect := CountCorrect(answers);
    if |answers| >= 5 && recentCorrect >= 4 && d < 5 then d + 1
    else if |answers| >= 5 && recentCorrect <= 2 && d > 1 then d - 1
    else if |answers| >= 3 && LastThreeAre(answers, true) && d < 5 then d + 1
    else if |answers| >= 3 && LastThreeAre(answers, false) && d > 1 then d - 1
    else d
  }

  /**
   * The difficulty moves by at most one step, only up from below 5 and only
   * down from above 1, so it stays in 1..5 once there.
   */
  lemma NextDifficultyStep(answers: seq<bool>, d: int)
    ensures var d' := NextDifficulty(answers, d);
      d - 1 <= d' <= d + 1 && (d' > d ==> d < 5) && (d' < d ==> d > 1) &&
      (1 <= d <= 5 ==> 1 <= d' <= 5)
  {
  }

  /** Four or more right out of the last five raises the difficulty below 5. */
  lemma FourOfFiveRaises(answers: seq<bool>, d: int)
    requires |answers| >= 5 && CountCorrect(answers) >= 4 && d < 5
    ensures NextDifficulty(answers, d) == d + 1
  {
  }

  /** Two or fewer right out of the last five lowers the difficulty above 1. */
  lemma TwoOfFiveLowers(answers: seq<bool>, d: int)
    requires |answers| >= 5 && CountCorrect(answers) <= 2 && d > 1
    ensures NextDifficulty(answers, d) == d - 1
  {
  }

  /** Nothing changes while fewer than three answers are in the window. */
  lemma ShortWindowKeeps(answers: seq<bool>, d: int)
    requires |answers| < 3
    ensures NextDifficulty(answers, d) == d
  {
  }

  datatype Direction = Up | Down

  /** The component state the difficulty rule reads and writes. */
  class DifficultyState {
    var recentAnswers: seq<bool>
    var currentDifficulty: int
    var difficultyChange: Option<Direction>

    /** In range, with no more than five answers remembered. */
    predicate Valid()
      reads this
    {
      1 <= currentDifficulty <= 5 && |recentAnswers| <= 5
    }

    /** `useState(1)`, `useState([])` and no change shown. */
    constructor ()
      ensures Valid()
      ensures recentAnswers == [] && currentDifficulty == 1 && difficultyChange == None
    {
      recentAnswers := [];
      currentDifficulty := 1;
      difficultyChange := None;
    }

    /**
     * `updateDifficulty(wasCorrect)`: appends the answer to the window of the
     * last five, applies the rule, and reports 'up' or 'down' exactly when the
     * difficulty changed (null otherwise), showing the change.
     */
    method UpdateDifficulty(wasCorrect: bool) returns (change: Option<Direction>)
      modifies this
      ensures old(Valid()) ==> Valid()
      ensures |recentAnswers| <= 5
      ensures recentAnswers == LastFive(old(recentAnswers) + [wasCorrect])
      ensures recentAnswers[|recentAnswers| - 1] == wasCorrect
      ensures currentDifficulty == NextDifficulty(recentAnswers, old(currentDifficulty))
      ensures change == Some(Up) <==> currentDifficulty > old(currentDifficulty)
      ensures change == Some(Down) <==> currentDifficulty < old(currentDifficulty)
      ensures change.None? <==> currentDifficulty == old(currentDifficulty)
      ensures change.Some? ==> difficultyChange == change
      ensures change.None? ==> difficultyChange == old(difficultyChange)
    {
      var newAnswers := LastFive(recentAnswers + [wasCorrect]);
      recentAnswers := newAnswers;
      var newDifficulty := NextDifficulty(newAnswers, currentDifficulty);
      NextDifficultyStep(newAnswers, currentDifficulty);
      change := None;
      if newDifficulty != currentDifficulty {
        change := if newDifficulty > currentDifficulty then Some(Up) else Some(Down);
        currentDifficulty := newDifficulty;
        difficultyChange := change;
      }
    }
  }

  // ---------------------------------------------------------------------
  // calculateDifficulty

  /** `stats.progress.find(p => p.problem_type === problemType)`: the first row of the type. */
  function FindFirstOfType(rows: seq<ProgressRow>, problemType: string): (r: Option<ProgressRow>)
    ensures r.Some? ==> r.value in rows && r.value.problemType == problemType
    ensures r.Some? ==>
      exists k | 0 <= k < |rows| :: rows[k] == r.value && forall j | 0 <= j < k :: rows[j].problemType != problemType
    ensures r.None? ==> forall k | 0 <= k < |rows| :: rows[k].problemType != problemType
  {
    if rows == [] then None
    else if rows[0].problemType == problemType then Some(rows[0])
    else
      var r := FindFirstOfType(rows[1..], problemType);
      if r.Some? then
        var k :| 0 <= k < |rows[1..]| && rows[1..][k] == r.value &&
          forall j | 0 <= j < k :: rows[1..][j].problemType != problemType;
        assert rows[k + 1] == r.value;
        assert forall j | 0 <= j < k + 1 :: rows[j].problemType != problemType by {
          forall j | 0 <= j < k + 1 ensures rows[j].problemType != problemType {
            if j > 0 { assert rows[j] == rows[1..][j - 1]; }
          }
        }
        r
      else r
  }

  /**
   * `calculateDifficulty()` over the window, the current difficulty and the
   * loaded stats (None before they load): the window rules first, where the
   * three-right rule also needs five answers of this type on record; then the
   * stored difficulty of the type (`|| 1`), 1 for a type never played.
   */
  function CalculateDifficulty(recent: seq<bool>, d: int, stats: Option<seq<ProgressRow>>, problemType: string): int
  {
    var recentCorrect := CountCorrect(recent);
    var progress := if stats.Some? then FindFirstOfType(stats.value, problemType) else None;
    if |recent| >= 3 && |recent| >= 5 && recentCorrect >= 4 && d < 5 then d + 1
    else if |recent| >= 3 && |recent| >= 5 && recentCorrect <= 2 && d > 1 then d - 1
    else if |recent| >= 3 && LastThreeAre(recent, true) && d < 5 && progress.Some? && progress.value.total >= 5 then d + 1
    else if |recent| >= 3 && LastThreeAre(recent, false) && d > 1 then d - 1
    else if stats.None? then d
    else if progress.None? then 1
    else if progress.value.difficulty != 0 then progress.value.difficulty
    else 1
  }

  /**
   * On a full window of five the two calculations agree whenever one of the
   * five-answer rules fires; otherwise `calculateDifficulty` moves by at most
   * one step or falls back to the stored difficulty.
   */
  lemma CalculateAgreesOnFullWindow(recent: seq<bool>, d: int, stats: Option<seq<ProgressRow>>, problemType: string)
    requires |recent| >= 5 && ((CountCorrect(recent) >= 4 && d < 5) || (CountCorrect(recent) <= 2 && d > 1))
    ensures CalculateDifficulty(recent, d, stats, problemType) == NextDifficulty(recent, d)
  {
  }

  lemma CalculateDifficultyOutcome(recent: seq<bool>, d: int, stats: Option<seq<ProgressRow>>, problemType: string)
    ensures var c := CalculateDifficulty(recent, d, stats, problemType);
      (d - 1 <= c <= d + 1) || (stats.Some? && c != 0 &&
        (c == 1 || exists k | 0 <= k < |stats.value| :: stats.value[k].problemType == problemType && stats.value[k].difficulty == c))
  {
    var c := CalculateDifficulty(recent, d, stats, problemType);
    if !(d - 1 <= c <= d + 1) && stats.Some? {
      var progress := FindFirstOfType(stats.value, problemType);
      if progress.Some? && c != 1 {
        var k :| 0 <= k < |stats.value| && stats.value[k] == progress.value;
      }
    }
  }

  // ---------------------------------------------------------------------
  // generateCountProblem

  /**
   * `Math.floor(Math.random() * (maxCount - minCount + 1)) + minCount` with
   * minCount = 3 + 2(d - 1) and maxCount = 5 + 2d: a count in
   * [3 + 2(d - 1), 5 + 2d], a range of five values at every difficulty.
   */
  function CountObjects(d: int, raw: nat): (c: int)
    ensures 3 + 2 * (d - 1) <= c <= 5 + 2 * d
  {
    var minCount := 3 + (d - 1) * 2;
    var maxCount := 5 + d * 2;
    FloorScaled(maxCount - minCount + 1, raw) + minCount
  }

  /** Every count of the range is drawn by some raw value. */
  lemma CountObjectsCovers(d: int, c: int)
    requires 3 + 2 * (d - 1) <= c <= 5 + 2 * d
    ensures CountObjects(d, (c - (3 + 2 * (d - 1))) as nat) == c
  {
    ModSmall(c - (3 + 2 * (d - 1)), 5);
  }

  // ---------------------------------------------------------------------
  // PinInput

  /** The last character of a keystroke, `digit.slice(-1)`. */
  function LastChar(digit: string): (r: string)
    ensures |r| == Min(1, |digit|)
    ensures digit != [] ==> r == [digit[|digit| - 1]]
  {
    if digit == [] then [] else [digit[|digit| - 1]]
  }

  /**
   * What joining `value.split('')` with `last` assigned at `index` gives: the
   * character at `index` replaced, or, past the end, `last` appended (the
   * holes an assignment past the end leaves join as nothing).
   */
  function PinWithDigit(value: string, index: nat, last: string): string
  {
    if index < |value| then value[..index] + last + value[index + 1..] else value + last
  }

  /**
   * The PIN a keystroke leaves: None (`onChange` is not called) for a
   * keystroke that is not all digits; otherwise the keystroke's last
   * character written at `index`, cut to `length`. A PIN of digits stays all
   * digits, and none grows beyond `length`.
   */
  function PinAfterKeystroke(value: string, index: nat, digit: string, length: int): (newPin: Option<string>)
    ensures newPin.None? <==> !AllDigits(digit)
    ensures newPin.Some? && AllDigits(value) ==> AllDigits(newPin.value)
    ensures newPin.Some? && length >= 0 ==> |newPin.value| <= length
  {
    if !AllDigits(digit) then None
    else
      var last := LastChar(digit);
      var full := PinWithDigit(value, index, last);
      assert AllDigits(value) ==> AllDigits(full) by {
        if AllDigits(value) {
          forall j | 0 <= j < |full| ensures IsDigit(full[j]) {
            if index < |value| {
              if j < index { assert full[j] == value[j]; }
              else if j >= index + |last| { assert full[j] == value[j - |last| + 1]; }
            } else if j < |value| { assert full[j] == value[j]; }
          }
        }
      }
      Some(SliceTo(full, length))
  }

  /**
   * A digit typed over a position of the PIN inside the first `length`
   * replaces exactly that character; an empty keystroke there deletes it.
   */
  lemma KeystrokeReplaces(value: string, index: nat, digit: string, length: int)
    requires AllDigits(digit) && index < |value| && index < length
    ensures var pin := PinAfterKeystroke(value, index, digit, length).value;
      (digit != [] ==>
        |pin| == Min(length, |value|) && pin[index] == digit[|digit| - 1] &&
        forall j | 0 <= j < |pin| && j != index :: pin[j] == value[j]) &&
      (digit == [] ==> pin == SliceTo(value[..index] + value[index + 1..], length))
  {
    var pin := PinAfterKeystroke(value, index, digit, length).value;
    if digit != [] {
      var full := value[..index] + [digit[|digit| - 1]] + value[index + 1..];
      assert |full| == |value|;
      assert pin == full[..|pin|];
      forall j | 0 <= j < |pin| && j != index ensures pin[j] == value[j] {
        assert pin[j] == full[j];
      }
    } else {
      assert value[..index] + [] + value[index + 1..] == value[..index] + value[index + 1..];
    }
  }

  /** `array.join('')`. */
  function Concat(cells: seq<string>): string
  {
    if cells == [] then [] else Concat(cells[..|cells| - 1]) + cells[|cells| - 1]
  }

  lemma {:induction false} ConcatAppend(a: seq<string>, b: seq<string>)
    ensures Concat(a + b) == Concat(a) + Concat(b)
  {
    if b != [] {
      ConcatAppend(a, b[..|b| - 1]);
      assert (a + b)[..|a + b| - 1] == a + b[..|b| - 1];
    } else {
      assert a + b == a;
    }
  }

  /** One cell per character, as `split('')` leaves them. */
  function Singles(v: string): seq<string>
  {
    seq(|v|, j requires 0 <= j < |v| => [v[j]])
  }

  lemma {:induction false} ConcatSingles(v: string)
    ensures Concat(Singles(v)) == v
  {
    if v != [] {
      ConcatSingles(v[..|v| - 1]);
      assert Singles(v)[..|v| - 1] == Singles(v[..|v| - 1]);
    }
  }

  lemma {:induction false} ConcatEmpties(m: nat)
    ensures Concat(seq(m, _ => "")) == ""
  {
    if m > 0 {
      ConcatEmpties(m - 1);
      assert seq(m, _ => "")[..m - 1] == seq(m - 1, _ => "");
    }
  }

  /** The split value with `last` assigned at `index`, holes as empty cells. */
  function Assigned(value: string, index: nat, last: string): seq<string>
  {
    seq(Max(|value|, index + 1), j requires 0 <= j < Max(|value|, index + 1) =>
      if j == index then last else if j < |value| then [value[j]] else [])
  }

  /** Joining the assigned cells gives the PIN with the digit written in. */
  lemma JoinAssigned(value: string, index: nat, last: string)
    ensures Concat(Assigned(value, index, last)) == PinWithDigit(value, index, last)
  {
    var cells := Assigned(value, index, last);
    if index < |value| {
      assert cells == Singles(value[..index]) + [last] + Singles(value[index + 1..]);
      ConcatAppend(Singles(value[..index]) + [last], Singles(value[index + 1..]));
      ConcatAppend(Singles(value[..index]), [last]);
      assert Concat([last]) == Concat([]) + last;
      ConcatSingles(value[..index]);
      ConcatSingles(value[index + 1..]);
    } else {
      var holes: seq<string> := seq(index - |value|, _ => "");
      assert cells == Singles(value) + holes + [last];
      ConcatAppend(Singles(value), holes);
      ConcatSingles(value);
      ConcatEmpties(index - |value|);
      assert Concat(cells) == Concat(Singles(value) + holes) + last;
    }
  }

  /**
   * `handleChange(index, digit)`: ignores a keystroke that is not all digits;
   * otherwise splits the PIN into an array of characters, assigns the
   * keystroke's last character at `index` in place, joins and cuts to
   * `length`.
   */
  method HandleChange(value: string, index: nat, digit: string, length: int) returns (newPin: Option<string>)
    ensures newPin == PinAfterKeystroke(value, index, digit, length)
    ensures !AllDigits(digit) ==> newPin.None?
  {
    if !AllDigits(digit) {
      return None;
    }
    var n := Max(|value|, index + 1);
    var cells := new string[n](j requires 0 <= j < n => if j < |value| then [value[j]] else []);
    cells[index] := LastChar(digit);
    assert cells[..] == Assigned(value, index, LastChar(digit));
    JoinAssigned(value, index, LastChar(digit));
    newPin := Some(SliceTo(Concat(cells[..]), length));
  }

  /** `text.replace(/\D/g, '')`: the digits of the text, in order. */
  function DigitsOf(text: string): (r: string)
    ensures AllDigits(r) && |r| <= |text|
  {
    if text == [] then []
    else DigitsOf(text[..|text| - 1]) + (if IsDigit(text[|text| - 1]) then [text[|text| - 1]] else [])
  }

  /** Digits are kept exactly: a text of digits passes unchanged, and every kept character came from the text in order. */
  lemma {:induction false} DigitsOfSpec(text: string)
    ensures AllDigits(text) ==> DigitsOf(text) == text
    ensures SubsequenceOf(DigitsOf(text), text)
  {
    if text != [] {
      var init := text[..|text| - 1];
      DigitsOfSpec(init);
      var r := DigitsOf(text);
      if IsDigit(text[|text| - 1]) {
        assert r[..|r| - 1] == DigitsOf(init);
        assert text[..|text| - 1] == init;
      } else {
        assert r == DigitsOf(init);
        SubsequenceExtend(DigitsOf(init), init, text[|text| - 1]);
        assert init + [text[|text| - 1]] == text;
      }
    }
  }

  /**
   * `handlePaste`: the pasted text's digits, cut to `length`; so the PIN
   * pasted is all digits, at most `length` long, and a prefix of the digits.
   */
  function HandlePaste(paste: string, length: nat): (pin: string)
    ensures AllDigits(pin) && |pin| == Min(length, |DigitsOf(paste)|)
    ensures pin == DigitsOf(paste)[..|pin|]
  {
    SliceTo(DigitsOf(paste), length)
  }
}
