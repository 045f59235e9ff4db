/**
 * The JavaScript built-ins the application's core leans on, stated over
 * unbounded integers: 32-bit wrap-around (`x | 0`, `x & x`, `x << 5`),
 * `Math.abs`, `String.prototype.trim`, `Number.prototype.toString` on
 * integers, `parseInt` and `parseInt(x) || d`, UTF-16 code units (`charCodeAt`) and
 * `Math.floor(Math.random() * n)` with the random number made a parameter.
 */
module JsBuiltins {

  datatype Option<+T> = None | Some(value: T)

  /** A thrown error (`Err`) or a returned value (`Ok`). */
  datatype Result<+T> = Ok(value: T) | Err(message: string)

  /** What `parseInt` hands back: `NaN`, or an integer. */
  datatype ParsedInt = NaN | Num(n: int)

  /** `parseInt(x) || d`: both `NaN` and `0` are falsy and give way to `d`. */
  function OrDefault(p: ParsedInt, d: int): (r: int)
    ensures p.Num? && p.n != 0 ==> r == p.n
    ensures p.NaN? || p.n == 0 ==> r == d
    ensures d != 0 ==> r != 0
  {
    match p
    case NaN => d
    case Num(n) => if n != 0 then n else d
  }

  // ---------------------------------------------------------------------
  // 32-bit signed integers

  const TWO31: int := 0x8000_0000
  const TWO32: int := 0x1_0000_0000

  predicate IsInt32(x: int) { -TWO31 <= x < TWO31 }

  /** ECMAScript ToInt32: the member of [-2^31, 2^31) congruent to x modulo 2^32. */
  function ToInt32(x: int): (r: int)
    ensures IsInt32(r)
    ensures (x - r) % TWO32 == 0
  {
    var m := x % TWO32;
    if m >= TWO31 then m - TWO32 else m
  }

  lemma DivAddMultiple(a: int, k: int)
    ensures (a + k * TWO32) % TWO32 == a % TWO32
  {
    var q, m := a / TWO32, a % TWO32;
    assert a + k * TWO32 == (q + k) * TWO32 + m;
  }

  /** ToInt32 depends only on the residue modulo 2^32. */
  lemma {:induction false} ToInt32Periodic(x: int, k: int)
    ensures ToInt32(x + k * TWO32) == ToInt32(x)
  {
    DivAddMultiple(x, k);
  }

  /** ToInt32 leaves a 32-bit value alone. */
  lemma ToInt32OfInt32(x: int)
    requires IsInt32(x)
    ensures ToInt32(x) == x
  {
    if x < 0 {
      DivAddMultiple(x + TWO32, -1);
      assert (x + TWO32) % TWO32 == x + TWO32;
    }
  }

  /** `x << 5` on a JavaScript number: ToInt32(x), shifted, wrapped to 32 bits. */
  function ShiftLeft5(x: int): int
  {
    ToInt32(ToInt32(x) * 32)
  }

  /** `x & x` on a JavaScript number: ToInt32(x) twice, and-ed with itself. */
  function SelfAnd(x: int): int
  {
    ToInt32(x)
  }

  /** `Math.abs` on a 32-bit value: at most 2^31 (reached by -2^31). */
  function Abs(x: int): (r: nat)
    ensures r == x || r == -x
  {
    if x < 0 then -x else x
  }

  // ---------------------------------------------------------------------
  // UTF-16 code units, as `length` and `charCodeAt` see a string

  /** The code units of one Unicode scalar value: one below U+10000, a surrogate pair above. */
  function CodeUnits(c: char): (u: seq<int>)
    ensures |u| == 1 || |u| == 2
    ensures forall k | 0 <= k < |u| :: 0 <= u[k] < 0x1_0000
    ensures (c as int) < 0x1_0000 ==> u == [c as int]
  {
    var v := c as int;
    if v < 0x1_0000 then [v]
    else [0xD800 + (v - 0x1_0000) / 0x400, 0xDC00 + (v - 0x1_0000) % 0x400]
  }

  /** The UTF-16 encoding of a string. */
  function Utf16(s: string): (u: seq<int>)
    ensures |u| >= |s|
    ensures forall k | 0 <= k < |u| :: 0 <= u[k] < 0x1_0000
  {
    if s == [] then [] else Utf16(s[..|s| - 1]) + CodeUnits(s[|s| - 1])
  }

  /** A string of Basic Multilingual Plane characters has one code unit per character, its code point. */
  lemma {:induction false} Utf16OfBmp(s: string)
    requires forall k | 0 <= k < |s| :: (s[k] as int) < 0x1_0000
    ensures |Utf16(s)| == |s|
    ensures forall k | 0 <= k < |s| :: Utf16(s)[k] == s[k] as int
  {
    if s != [] {
      Utf16OfBmp(s[..|s| - 1]);
    }
  }

  // ---------------------------------------------------------------------
  // Whitespace and String.prototype.trim

  /** A character of the regular-expression class `\s`, which is also what `trim` strips. */
  predicate IsWhitespace(c: char)
  {
    var u := c as int;
    u == 0x09 || u == 0x0A || u == 0x0B || u == 0x0C || u == 0x0D || u == 0x20 ||
    u == 0xA0 || u == 0x1680 || (0x2000 <= u <= 0x200A) || u == 0x2028 || u == 0x2029 ||
    u == 0x202F || u == 0x205F || u == 0x3000 || u == 0xFEFF
  }

  predicate AllWhitespace(s: string)
  {
    forall k | 0 <= k < |s| :: IsWhitespace(s[k])
  }

  /** s neither starts nor ends with whitespace. */
  predicate Trimmed(s: string)
  {
    s == [] || (!IsWhitespace(s[0]) && !IsWhitespace(s[|s| - 1]))
  }

  function TrimStart(s: string): (r: string)
  {
    if s != [] && IsWhitespace(s[0]) then TrimStart(s[1..]) else s
  }

  function TrimEnd(s: string): (r: string)
  {
    if s != [] && IsWhitespace(s[|s| - 1]) then TrimEnd(s[..|s| - 1]) else s
  }

  /** `String.prototype.trim`. */
  function Trim(s: string): string
  {
    TrimEnd(TrimStart(s))
  }

  lemma {:induction false} TrimStartSplits(s: string)
    ensures exists p :: AllWhitespace(p) && s == p + TrimStart(s)
    ensures TrimStart(s) == [] || !IsWhitespace(TrimStart(s)[0])
  {
    if s != [] && IsWhitespace(s[0]) {
      TrimStartSplits(s[1..]);
      var p :| AllWhitespace(p) && s[1..] == p + TrimStart(s[1..]);
      assert s == [s[0]] + p + TrimStart(s);
      assert AllWhitespace([s[0]] + p);
    } else {
      assert s == [] + TrimStart(s);
    }
  }

  /** Trailing trim keeps a prefix and removes an all-whitespace rest, stopping at non-whitespace. */
  lemma {:induction false} TrimEndPrefix(s: string)
    ensures |TrimEnd(s)| <= |s| && TrimEnd(s) == s[..|TrimEnd(s)|]
    ensures AllWhitespace(s[|TrimEnd(s)|..])
    ensures TrimEnd(s) == [] || !IsWhitespace(TrimEnd(s)[|TrimEnd(s)| - 1])
  {
    if s != [] && IsWhitespace(s[|s| - 1]) {
      var t := s[..|s| - 1];
      assert TrimEnd(s) == TrimEnd(t);
      TrimEndPrefix(t);
      var n := |TrimEnd(t)|;
      assert t[..n] == s[..n];
      forall j | 0 <= j < |s| - n ensures IsWhitespace(s[n..][j]) {
        if n + j < |s| - 1 {
          assert s[n..][j] == t[n..][j];
        }
      }
    } else {
      assert s[|s|..] == [];
    }
  }

  lemma TrimEndSplits(s: string)
    ensures exists q :: AllWhitespace(q) && s == TrimEnd(s) + q
    ensures TrimEnd(s) == [] || !IsWhitespace(TrimEnd(s)[|TrimEnd(s)| - 1])
    ensures s != [] && !IsWhitespace(s[0]) ==> TrimEnd(s) != [] && TrimEnd(s)[0] == s[0]
  {
    TrimEndPrefix(s);
    var n := |TrimEnd(s)|;
    assert s == TrimEnd(s) + s[n..];
  }

  /** A trimmed string is a whitespace-free-at-the-ends infix of the input, framed by whitespace. */
  lemma TrimSplits(s: string)
    ensures Trimmed(Trim(s))
    ensures exists p, q :: AllWhitespace(p) && AllWhitespace(q) && s == p + Trim(s) + q
  {
    TrimStartSplits(s);
    var p :| AllWhitespace(p) && s == p + TrimStart(s);
    TrimEndSplits(TrimStart(s));
    var q :| AllWhitespace(q) && TrimStart(s) == Trim(s) + q;
    assert s == p + Trim(s) + q;
  }

  lemma {:induction false} TrimStartOfPadded(p: string, t: string)
    requires AllWhitespace(p)
    requires t == [] || !IsWhitespace(t[0])
    ensures TrimStart(p + t) == t
  {
    if p != [] {
      assert (p + t)[1..] == p[1..] + t;
      TrimStartOfPadded(p[1..], t);
    }
  }

  lemma {:induction false} TrimEndOfPadded(t: string, q: string)
    requires AllWhitespace(q)
    requires t == [] || !IsWhitespace(t[|t| - 1])
    ensures TrimEnd(t + q) == t
  {
    if q != [] {
      assert (t + q)[..|t + q| - 1] == t + q[..|q| - 1];
      TrimEndOfPadded(t, q[..|q| - 1]);
    }
  }

  /** Trimming a trimmed string framed by whitespace gives back that string. */
  lemma TrimOfPadded(p: string, t: string, q: string)
    requires AllWhitespace(p) && AllWhitespace(q) && Trimmed(t)
    ensures Trim(p + t + q) == t
  {
    assert p + t + q == p + (t + q);
    if t == [] {
      assert p + t + q == p + q;
      assert AllWhitespace(p + q);
      TrimStartAllWhitespace(p + q);
    } else {
      TrimStartOfPadded(p, t + q);
      TrimEndOfPadded(t, q);
    }
  }

  lemma {:induction false} TrimStartAllWhitespace(s: string)
    requires AllWhitespace(s)
    ensures TrimStart(s) == []
  {
    if s != [] {
      TrimStartAllWhitespace(s[1..]);
    }
  }

  /** `trim` is idempotent. */
  lemma TrimIdempotent(s: string)
    ensures Trim(Trim(s)) == Trim(s)
  {
    TrimSplits(s);
    TrimOfPadded([], Trim(s), []);
    assert [] + Trim(s) + [] == Trim(s);
  }

  // ---------------------------------------------------------------------
  // Number.prototype.toString on integers, and reading it back

  function DigitChar(d: int): (c: char)
    requires 0 <= d < 10
    ensures '0' <= c <= '9'
  {
    (('0' as int) + d) as char
  }

  predicate IsDigit(c: char) { '0' <= c <= '9' }

  predicate AllDigits(s: string)
  {
    forall k | 0 <= k < |s| :: IsDigit(s[k])
  }

  /** Decimal digits of a natural number, no leading zero. */
  function ShowNat(n: nat): (s: string)
    ensures s != [] && AllDigits(s)
    ensures |s| > 1 ==> s[0] != '0'
  {
    if n < 10 then [DigitChar(n)] else ShowNat(n / 10) + [DigitChar(n % 10)]
  }

  /** `n.toString()` for an integer n. */
  function Show(n: int): (s: string)
    ensures s != [] && Trimmed(s)
  {
    if n < 0 then "-" + ShowNat(-n) else ShowNat(n)
  }

  /** A digit of radix 10, or of radix 16 when `hex`. */
  predicate IsRadixDigit(c: char, hex: bool)
  {
    IsDigit(c) || (hex && ('a' <= c <= 'f' || 'A' <= c <= 'F'))
  }

  predicate AllRadixDigits(s: string, hex: bool)
  {
    forall k | 0 <= k < |s| :: IsRadixDigit(s[k], hex)
  }

  function Radix(hex: bool): nat { if hex then 16 else 10 }

  function DigitValue(c: char, hex: bool): (v: nat)
    requires IsRadixDigit(c, hex)
    ensures v < Radix(hex)
  {
    if IsDigit(c) then (c as int) - ('0' as int)
    else if 'a' <= c <= 'f' then (c as int) - ('a' as int) + 10
    else (c as int) - ('A' as int) + 10
  }

  /** The value of a string of digits, most significant first. */
  function RunValue(s: string, hex: bool): nat
    requires AllRadixDigits(s, hex)
  {
    if s == [] then 0 else RunValue(s[..|s| - 1], hex) * Radix(hex) + DigitValue(s[|s| - 1], hex)
  }

  /** The longest prefix of s made of digits. */
  function DigitRun(s: string, hex: bool): (r: string)
    ensures |r| <= |s| && r == s[..|r|]
    ensures AllRadixDigits(r, hex)
    ensures |r| < |s| ==> !IsRadixDigit(s[|r|], hex)
  {
    if s != [] && IsRadixDigit(s[0], hex) then [s[0]] + DigitRun(s[1..], hex) else []
  }

  /** `parseInt` after the sign: a `0x`/`0X` prefix selects radix 16; no digits at all is NaN. */
  function ParseMagnitude(u: string): ParsedInt
  {
    var hex := |u| >= 2 && u[0] == '0' && (u[1] == 'x' || u[1] == 'X');
    var run := DigitRun(if hex then u[2..] else u, hex);
    if run == [] then NaN else Num(RunValue(run, hex))
  }

  /**
   * `parseInt(s)` with no radix argument: leading whitespace is skipped, then
   * an optional sign, then the longest run of digits; whatever follows is ignored.
   */
  function ParseInt(s: string): ParsedInt
  {
    var t := TrimStart(s);
    if t != [] && t[0] == '-' then
      match ParseMagnitude(t[1..])
      case NaN => NaN
      case Num(m) => Num(-m)
    else if t != [] && t[0] == '+' then ParseMagnitude(t[1..])
    else ParseMagnitude(t)
  }

  lemma {:induction false} ShowNatValue(n: nat)
    ensures RunValue(ShowNat(n), false) == n
  {
    if n >= 10 {
      var s := ShowNat(n / 10) + [DigitChar(n % 10)];
      assert s[..|s| - 1] == ShowNat(n / 10);
      ShowNatValue(n / 10);
    }
  }

  lemma {:induction false} DigitRunOfDigits(d: string, t: string, hex: bool)
    requires AllRadixDigits(d, hex)
    requires t == [] || !IsRadixDigit(t[0], hex)
    ensures DigitRun(d + t, hex) == d
  {
    if d != [] {
      assert (d + t)[1..] == d[1..] + t;
      DigitRunOfDigits(d[1..], t, hex);
      assert d == [d[0]] + d[1..];
    } else {
      assert d + t == t;
    }
  }

  /**
   * `parseInt` reads back `toString`, also when non-digits follow (other
   * than an `x` that would make a leading "0" a hexadecimal prefix).
   */
  lemma ParseShow(n: int, t: string)
    requires t == [] || (!IsDigit(t[0]) && t[0] != 'x' && t[0] != 'X')
    ensures ParseInt(Show(n) + t) == Num(n)
  {
    var m: nat := if n < 0 then -n else n;
    MagnitudeOfShowNat(m, t);
    assert IsDigit(ShowNat(m)[0]);
    if n < 0 {
      ParseIntOfSigned(ShowNat(m), t);
    } else {
      ParseIntOfDigits(ShowNat(m), t);
    }
  }

  /** Text that starts with a digit is read by `parseInt` as its magnitude. */
  lemma ParseIntOfDigits(d: string, t: string)
    requires d != [] && IsDigit(d[0])
    ensures ParseInt(d + t) == ParseMagnitude(d + t)
  {
    assert (d + t)[0] == d[0];
    assert TrimStart(d + t) == d + t;
  }

  /** A minus sign before digits negates the magnitude. */
  lemma ParseIntOfSigned(d: string, t: string)
    requires d != [] && IsDigit(d[0]) && ParseMagnitude(d + t).Num?
    ensures ParseInt("-" + d + t) == Num(-ParseMagnitude(d + t).n)
  {
    var v := "-" + d + t;
    assert v[0] == '-';
    assert v[1..] == d + t;
    assert TrimStart(v) == v;
  }

  /** The digits of a natural, followed by a tail that does not continue them, read back as that natural. */
  lemma MagnitudeOfShowNat(m: nat, t: string)
    requires t == [] || (!IsDigit(t[0]) && t[0] != 'x' && t[0] != 'X')
    ensures ParseMagnitude(ShowNat(m) + t) == Num(m)
  {
    var d := ShowNat(m);
    var u := d + t;
    assert AllRadixDigits(d, false) by {
      forall k | 0 <= k < |d| ensures IsRadixDigit(d[k], false) {
        assert IsDigit(d[k]);
      }
    }
    assert u[0] == d[0];
    assert !(|u| >= 2 && u[0] == '0' && (u[1] == 'x' || u[1] == 'X')) by {
      if |d| == 1 && |u| >= 2 {
        assert u[1] == t[0];
      } else if |d| > 1 {
        assert d[0] != '0';
      }
    }
    DigitRunOfDigits(d, t, false);
    ShowNatValue(m);
  }

  /** Text whose first non-blank character is no sign and no digit parses to NaN. */
  lemma ParseIntNaN(s: string)
    requires var t := TrimStart(s); t == [] || (!IsDigit(t[0]) && t[0] != '-' && t[0] != '+')
    ensures ParseInt(s) == NaN
  {
  }

  /** Two integers with the same decimal rendering are equal. */
  lemma ShowInjective(a: int, b: int)
    ensures Show(a) == Show(b) <==> a == b
  {
    if Show(a) == Show(b) {
      ParseShow(a, []);
      ParseShow(b, []);
      assert Show(a) + [] == Show(a);
      assert Show(b) + [] == Show(b);
    }
  }

  // ---------------------------------------------------------------------
  // Math.floor(Math.random() * n)

  /**
   * `Math.floor(Math.random() * n)`, with the random number represented by
   * an arbitrary natural r: for n > 0 a value in [0, n), for n <= 0 a value
   * in [n, 0] (the product lies in (n, 0]).
   */
  function FloorScaled(n: int, r: nat): (k: int)
    ensures n > 0 ==> 0 <= k < n
    ensures n <= 0 ==> n <= k <= 0
  {
    if n > 0 then r % n else -(r % (1 - n))
  }

  lemma ModSmall(r: int, m: int)
    requires 0 <= r < m
    ensures r % m == r
  {
    assert r == 0 * m + r;
  }

  /** Every value the floored product can take is reached by some r. */
  lemma FloorScaledCovers(n: int, k: int)
    requires if n > 0 then 0 <= k < n else n <= k <= 0
    ensures exists r: nat :: FloorScaled(n, r) == k
  {
    if n > 0 {
      var r: nat := k;
      ModSmall(r, n);
      assert FloorScaled(n, r) == k;
    } else {
      var r: nat := -k;
      ModSmall(r, 1 - n);
      assert FloorScaled(n, r) == k;
    }
  }

  // ---------------------------------------------------------------------
  // Sequences

  /** r is obtained from s by deleting elements, so it keeps s's order. */
  predicate SubsequenceOf<T(==)>(r: seq<T>, s: seq<T>)
    decreases |s|
  {
    if r == [] then true
    else if s == [] then false
    else if r[|r| - 1] == s[|s| - 1] then SubsequenceOf(r[..|r| - 1], s[..|s| - 1])
    else SubsequenceOf(r, s[..|s| - 1])
  }

  /** A subsequence stays one when the longer sequence grows at the end. */
  lemma {:induction false} SubsequenceExtend<T>(r: seq<T>, s: seq<T>, x: T)
    requires SubsequenceOf(r, s)
    ensures SubsequenceOf(r, s + [x])
    decreases |s|, 1
  {
    var t := s + [x];
    assert t[..|t| - 1] == s;
    if r != [] && r[|r| - 1] == x {
      SubsequenceDropLast(r, s);
    }
  }

  /** Dropping the last element of a subsequence leaves a subsequence. */
  lemma {:induction false} SubsequenceDropLast<T>(r: seq<T>, s: seq<T>)
    requires r != [] && SubsequenceOf(r, s)
    ensures SubsequenceOf(r[..|r| - 1], s)
    decreases |s|, 0
  {
    var init := s[..|s| - 1];
    assert init + [s[|s| - 1]] == s;
    if r[|r| - 1] == s[|s| - 1] {
      SubsequenceExtend(r[..|r| - 1], init, s[|s| - 1]);
    } else {
      SubsequenceDropLast(r, init);
      SubsequenceExtend(r[..|r| - 1], init, s[|s| - 1]);
    }
  }

  function Min(a: int, b: int): int { if a <= b then a else b }
  function Max(a: int, b: int): int { if a >= b then a else b }

  /**
   * `s.slice(0, end)`: the first `end` elements, all of them when `end` is
   * past the end, and for a negative `end` all but the last `-end`.
   */
  function SliceTo<T>(s: seq<T>, end: int): (r: seq<T>)
    ensures end >= 0 ==> |r| == Min(end, |s|)
    ensures end < 0 ==> |r| == Max(0, |s| + end)
    ensures r == s[..|r|]
  {
    if end >= |s| then s
    else if end >= 0 then s[..end]
    else if |s| + end >= 0 then s[..|s| + end]
    else []
  }
}
