/**
 * backend/utils/helpers.js: the daily-challenge seed (a 31-polynomial rolling
 * hash over the UTF-16 code units of the date, kept in 32 bits) and the
 * input predicates `isValidUsername`, `isValidEmail` and `sanitizeString`.
 */
module Helpers {
  import opened JsBuiltins

  // ---------------------------------------------------------------------
  // Daily-challenge seed

  /** One loop step as the source writes it: `((hash << 5) - hash) + char`, then `hash & hash`. */
  function SourceStep(hash: int, unit: int): int
  {
    SelfAnd((ShiftLeft5(hash) - hash) + unit)
  }

  /** One rolling-hash step: `hash * 31 + charCode`, reduced to a signed 32-bit value. */
  function HashStep(hash: int, unit: int): (r: int)
    ensures IsInt32(r)
  {
    ToInt32(hash * 31 + unit)
  }

  /** The shift-and-subtract step of the source is exactly the 31-multiplier step, wrapped. */
  lemma SourceStepIsHashStep(hash: int, unit: int)
    ensures SourceStep(hash, unit) == HashStep(hash, unit)
  {
    var t := ToInt32(hash);
    var a := (hash - t) / TWO32;
    assert hash == t + a * TWO32;
    var sh := ToInt32(t * 32);
    var b := (t * 32 - sh) / TWO32;
    assert sh == t * 32 - b * TWO32;
    var k := -(32 * a + b);
    calc {
      (sh - hash) + unit;
      t * 32 - b * TWO32 - t - a * TWO32 + unit;
      (hash - a * TWO32) * 31 - b * TWO32 - a * TWO32 + unit;
      (hash * 31 + unit) + k * TWO32;
    }
    ToInt32Periodic(hash * 31 + unit, k);
  }

  /** The hash after every code unit of `units`, starting from 0. */
  function RollingHash(units: seq<int>): (h: int)
    ensures IsInt32(h)
  {
    if units == [] then 0 else HashStep(RollingHash(units[..|units| - 1]), units[|units| - 1])
  }

  /** The seed of a date string: `Math.abs` of its rolling hash, so in [0, 2^31]. */
  function DailySeed(date: string): (seed: nat)
    ensures seed <= TWO31
  {
    Abs(RollingHash(Utf16(date)))
  }

  /** `getDailyChallengeSeed`: the for-loop over `date.length` code units. */
  method GetDailyChallengeSeed(date: string) returns (seed: nat)
    ensures seed == DailySeed(date)
  {
    var units := Utf16(date);
    var hash := 0;
    var i := 0;
    while i < |units|
      invariant 0 <= i <= |units|
      invariant hash == RollingHash(units[..i])
    {
      var ch := units[i];
      SourceStepIsHashStep(hash, ch);
      hash := (ShiftLeft5(hash) - hash) + ch;
      hash := SelfAnd(hash);
      assert units[..i + 1][..i] == units[..i];
      i := i + 1;
    }
    assert units[..|units|] == units;
    seed := Abs(hash);
  }

  /** The empty string hashes to 0. */
  lemma EmptySeed()
    ensures DailySeed("") == 0
  {
  }

  /** Appending a code unit performs one more hash step. */
  lemma RollingHashSnoc(units: seq<int>, unit: int)
    ensures RollingHash(units + [unit]) == HashStep(RollingHash(units), unit)
  {
    assert (units + [unit])[..|units|] == units;
  }

  /** A literal check of the formula: "2024-01-01" hashes to -613341632, so its seed is 613341632. */
  lemma KnownSeed()
    ensures DailySeed("2024-01-01") == 613341632
  {
    var u: seq<int> := [50, 48, 50, 52, 45, 48, 49, 45, 48, 49];
    KnownUnits();
    RollingHashSnoc(u[..0], u[0]);
    assert u[..1] == u[..0] + [u[0]];
    assert RollingHash(u[..1]) == 50;
    RollingHashSnoc(u[..1], u[1]);
    assert u[..2] == u[..1] + [u[1]];
    assert RollingHash(u[..2]) == 1598;
    RollingHashSnoc(u[..2], u[2]);
    assert u[..3] == u[..2] + [u[2]];
    assert RollingHash(u[..3]) == 49588;
    RollingHashSnoc(u[..3], u[3]);
    assert u[..4] == u[..3] + [u[3]];
    assert RollingHash(u[..4]) == 1537280;
    RollingHashSnoc(u[..4], u[4]);
    assert u[..5] == u[..4] + [u[4]];
    assert RollingHash(u[..5]) == 47655725;
    RollingHashSnoc(u[..5], u[5]);
    assert u[..6] == u[..5] + [u[5]];
    assert RollingHash(u[..6]) == 1477327523;
    RollingHashSnoc(u[..6], u[6]);
    assert u[..7] == u[..6] + [u[6]];
    assert RollingHash(u[..7]) == -1447486994;
    RollingHashSnoc(u[..7], u[7]);
    assert u[..8] == u[..7] + [u[7]];
    assert RollingHash(u[..8]) == -1922423809;
    RollingHashSnoc(u[..8], u[8]);
    assert u[..9] == u[..8] + [u[8]];
    assert RollingHash(u[..9]) == 534404113;
    RollingHashSnoc(u[..9], u[9]);
    assert u[..10] == u[..9] + [u[9]];
    assert RollingHash(u[..10]) == -613341632;
    assert u[..10] == u;
  }

  /** The code units of "2024-01-01" are its ASCII codes. */
  lemma KnownUnits()
    ensures Utf16("2024-01-01") == [50, 48, 50, 52, 45, 48, 49, 45, 48, 49]
  {
    Utf16OfBmp("2024-01-01");
  }

  // ---------------------------------------------------------------------
  // Username and email

  /** The class `[a-zA-Z0-9_]`. */
  predicate IsWordChar(c: char)
  {
    'a' <= c <= 'z' || 'A' <= c <= 'Z' || '0' <= c <= '9' || c == '_'
  }

  /** An anchored bounded repetition `^[a-zA-Z0-9_]{lo,hi}$`, consumed one character at a time. */
  function MatchesWordRepeat(s: string, lo: int, hi: int): bool
  {
    if s == [] then lo <= 0 else hi > 0 && IsWordChar(s[0]) && MatchesWordRepeat(s[1..], lo - 1, hi - 1)
  }

  lemma {:induction false} WordRepeatIff(s: string, lo: int, hi: int)
    requires hi >= 0
    ensures MatchesWordRepeat(s, lo, hi) <==> lo <= |s| <= hi && forall k | 0 <= k < |s| :: IsWordChar(s[k])
  {
    if s != [] && hi > 0 {
      WordRepeatIff(s[1..], lo - 1, hi - 1);
      assert forall k | 1 <= k < |s| :: s[k] == s[1..][k - 1];
    }
  }

  /** `isValidUsername`: `/^[a-zA-Z0-9_]{3,20}$/.test(username)`. */
  predicate IsValidUsername(username: string)
  {
    MatchesWordRepeat(username, 3, 20)
  }

  /** A username is valid iff it has 3 to 20 characters, each a letter, digit or underscore. */
  lemma UsernameIff(username: string)
    ensures IsValidUsername(username) <==>
      3 <= |username| <= 20 && forall k | 0 <= k < |username| :: IsWordChar(username[k])
  {
    WordRepeatIff(username, 3, 20);
  }

  /** The class `[^\s@]`. */
  predicate IsEmailChar(c: char)
  {
    !IsWhitespace(c) && c != '@'
  }

  /**
   * `isValidEmail`: `/^[^\s@]+@[^\s@]+\.[^\s@]+$/.test(email)`. The regular
   * expression matches exactly when the string splits at some '@' (index at)
   * and some later '.' (index dot) into three non-empty runs of `[^\s@]`.
   */
  predicate IsValidEmail(email: string)
  {
    exists at, dot | 0 < at && at + 1 < dot && dot + 1 < |email| ::
      email[at] == '@' && email[dot] == '.' &&
      forall k | 0 <= k < |email| && k != at && k != dot :: IsEmailChar(email[k])
  }

  /**
   * An email is valid iff it has no whitespace, exactly one '@' with a
   * non-empty part before it, and a '.' after it that is neither the first
   * nor the last character of the part after the '@'.
   */
  lemma EmailIff(email: string)
    ensures IsValidEmail(email) <==>
      (forall k | 0 <= k < |email| :: !IsWhitespace(email[k])) &&
      exists at | 0 < at < |email| ::
        email[at] == '@' &&
        (forall k | 0 <= k < |email| && k != at :: email[k] != '@') &&
        exists dot | at + 1 < dot < |email| - 1 :: email[dot] == '.'
  {
    if IsValidEmail(email) {
      var at, dot :| 0 < at && at + 1 < dot && dot + 1 < |email| &&
        email[at] == '@' && email[dot] == '.' &&
        forall k | 0 <= k < |email| && k != at && k != dot :: IsEmailChar(email[k]);
      assert forall k | 0 <= k < |email| :: !IsWhitespace(email[k]) by {
        forall k | 0 <= k < |email| ensures !IsWhitespace(email[k]) {
          if k != at && k != dot {
            assert IsEmailChar(email[k]);
          }
        }
      }
    }
  }

  // ---------------------------------------------------------------------
  // sanitizeString

  /** The JavaScript values `sanitizeString` may be handed. */
  datatype JsValue = Str(s: string) | Int(n: int) | Bool(b: bool) | Null | Undefined

  /** `value.toString()` is defined: it throws on null and undefined. */
  predicate HasToString(v: JsValue)
  {
    !v.Null? && !v.Undefined?
  }

  /** `String(value)`. */
  function ToJsString(v: JsValue): string
  {
    match v
    case Str(s) => s
    case Int(n) => Show(n)
    case Bool(b) => if b then "true" else "false"
    case Null => "null"
    case Undefined => "undefined"
  }

  /** `sanitizeString`: non-strings are converted with `String` first, then trimmed. */
  function SanitizeString(v: JsValue): string
  {
    if !v.Str? then Trim(ToJsString(v)) else Trim(v.s)
  }

  /**
   * The sanitized text is the input's text with leading and trailing
   * whitespace removed: it is framed by whitespace in `String(value)` and
   * itself neither starts nor ends with whitespace.
   */
  lemma SanitizeStrips(v: JsValue)
    ensures Trimmed(SanitizeString(v))
    ensures exists p, q :: AllWhitespace(p) && AllWhitespace(q) && ToJsString(v) == p + SanitizeString(v) + q
  {
    TrimSplits(ToJsString(v));
  }

  /** Sanitizing is idempotent. */
  lemma SanitizeIdempotent(v: JsValue)
    ensures SanitizeString(Str(SanitizeString(v))) == SanitizeString(v)
  {
    TrimIdempotent(ToJsString(v));
  }
}
