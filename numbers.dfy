/**
 * The lenient number parsers of the analyzer (nc_lottery_website.py:104-116):
 * `parse_number` removes every comma, strips surrounding whitespace and reads
 * the rest with Python's `int()`, giving 0 when that fails; `parse_prize_value`
 * also removes every `$` and reads the rest with `float()`, giving 0.0 when
 * that fails. Python's literal grammars are modelled for an optional sign
 * followed by ASCII digits, with one optional decimal point for `float()`.
 */
module Numbers {
  import opened Wrappers
  import opened Text

  function DigitValue(c: char): (d: nat)
    requires IsDigit(c)
    ensures d < 10
  {
    (c as int) - ('0' as int)
  }

  /** The value of a string of decimal digits, most significant first. */
  function DigitsValue(s: string): nat
    requires AllDigits(s)
  {
    if s == [] then 0 else DigitsValue(s[..|s| - 1]) * 10 + DigitValue(s[|s| - 1])
  }

  function Pow10(n: nat): (p: nat)
    ensures p >= 1
  {
    if n == 0 then 1 else 10 * Pow10(n - 1)
  }

  /**
   * The most decimal digits `int()` converts: CPython's default
   * `sys.flags.int_max_str_digits` (Python 3.11 and later, and the
   * 3.7.14/3.8.14/3.9.14/3.10.7 security releases). A longer digit string
   * raises ValueError.
   */
  const MAX_STR_DIGITS: nat := 4300

  /** An unsigned digit string `int()` accepts: at least one and at most MAX_STR_DIGITS digits. */
  function ReadDigits(d: string): Option<nat> {
    if IsDigits(d) && |d| <= MAX_STR_DIGITS then Some(DigitsValue(d)) else None
  }

  /** `int(s)` for a string without surrounding whitespace: `[+-]?\d+`. */
  function ParseInt(s: string): (r: Option<int>)
    ensures AllDigits(s) && r.Some? ==> r.value >= 0
  {
    if |s| > 0 && (s[0] == '+' || s[0] == '-') then
      match ReadDigits(s[1..])
      case Some(v) => if s[0] == '-' then Some(-(v as int)) else Some(v as int)
      case None => None
    else match ReadDigits(s)
      case Some(v) => Some(v as int)
      case None => None
  }

  /** An unsigned decimal literal: digits, or digits `.` digits with at least one digit in all. */
  function ParseUnsignedDecimal(s: string): Option<real> {
    var n := DigitRun(s, 0);
    if n == |s| then
      if n > 0 then Some(DigitsValue(s) as real) else None
    else if s[n] == '.' && AllDigits(s[n + 1..]) && |s| > 1 then
      var frac := s[n + 1..];
      Some(DigitsValue(s[..n]) as real + (DigitsValue(frac) as real) / (Pow10(|frac|) as real))
    else None
  }

  /** `float(s)` for a string without surrounding whitespace: `[+-]?` and a decimal literal. */
  function ParseFloat(s: string): Option<real> {
    if |s| > 0 && (s[0] == '+' || s[0] == '-') then
      match ParseUnsignedDecimal(s[1..])
      case Some(v) => Some(if s[0] == '-' then -v else v)
      case None => None
    else ParseUnsignedDecimal(s)
  }

  /** The text `parse_number` hands to `int()`. */
  function CleanNumber(s: string): string {
    Strip(RemoveAll(s, ','))
  }

  /** The text `parse_prize_value` hands to `float()`. */
  function CleanPrize(s: string): string {
    Strip(RemoveAll(RemoveAll(s, '$'), ','))
  }

  /** `parse_number`: the integer the cleaned text denotes, or 0. */
  function ParseNumber(s: string): (r: int)
    ensures ParseInt(CleanNumber(s)).None? ==> r == 0
    ensures AllDigits(CleanNumber(s)) ==> r >= 0
  {
    ParseInt(CleanNumber(s)).GetOr(0)
  }

  /** `parse_prize_value`: the number the cleaned text denotes, or 0.0. */
  function ParsePrizeValue(s: string): (r: real)
    ensures ParseFloat(CleanPrize(s)).None? ==> r == 0.0
  {
    ParseFloat(CleanPrize(s)).GetOr(0.0)
  }

  lemma NoNonDigit(s: string, c: char)
    requires AllDigits(s) && !IsDigit(c)
    ensures c !in s
  {
    assert forall i :: 0 <= i < |s| ==> s[i] != c;
  }

  /** A digit string is unpadded, so `Strip` keeps it. */
  lemma DigitsUnpadded(s: string)
    requires AllDigits(s)
    ensures Strip(s) == s
  {
    if s != [] {
      assert IsDigit(s[0]) && IsDigit(s[|s| - 1]);
    }
    StripUnpadded(s);
  }

  /** Cleaning leaves a digit string as it is. */
  lemma CleanDigits(s: string)
    requires AllDigits(s)
    ensures CleanNumber(s) == s && CleanPrize(s) == s
  {
    NoNonDigit(s, ',');
    NoNonDigit(s, '$');
    RemoveAllAbsent(s, ',');
    RemoveAllAbsent(s, '$');
    DigitsUnpadded(s);
  }

  /**
   * A plain digit string reads as its decimal value when `int()` accepts
   * its length, and as 0 when it has more than MAX_STR_DIGITS digits.
   */
  lemma ParseNumberOfDigits(s: string)
    requires IsDigits(s)
    ensures |s| <= MAX_STR_DIGITS ==> ParseNumber(s) == DigitsValue(s)
    ensures |s| > MAX_STR_DIGITS ==> ParseNumber(s) == 0
  {
    CleanDigits(s);
    ParseIntOfDigits(s);
  }

  lemma ParseIntOfDigits(s: string)
    requires IsDigits(s)
    ensures |s| <= MAX_STR_DIGITS ==> ParseInt(s) == Some(DigitsValue(s))
    ensures |s| > MAX_STR_DIGITS ==> ParseInt(s) == None
  {
    assert IsDigit(s[0]);
  }

  lemma ParseFloatOfDigits(s: string)
    requires IsDigits(s)
    ensures ParseFloat(s) == Some(DigitsValue(s) as real)
  {
    assert IsDigit(s[0]);
    assert DigitRun(s, 0) == |s| by {
      AllDigitsRun(s, 0);
    }
  }

  lemma {:induction false} AllDigitsRun(s: string, i: nat)
    requires i <= |s| && AllDigits(s)
    ensures DigitRun(s, i) == |s| - i
    decreases |s| - i
  {
    if i < |s| {
      AllDigitsRun(s, i + 1);
    }
  }

  /** Commas anywhere are ignored: `parse_number` reads the text without them. */
  lemma {:induction false} RemoveAllTwice(s: string, c: char)
    ensures RemoveAll(RemoveAll(s, c), c) == RemoveAll(s, c)
  {
    RemoveAllAbsent(RemoveAll(s, c), c);
  }

  lemma ParseNumberIgnoresCommas(s: string)
    ensures ParseNumber(RemoveAll(s, ',')) == ParseNumber(s)
  {
    RemoveAllTwice(s, ',');
  }

  /** Surrounding whitespace is ignored. */
  lemma ParseNumberIgnoresPadding(w1: string, s: string, w2: string)
    requires AllSpace(w1) && AllSpace(w2)
    ensures ParseNumber(w1 + s + w2) == ParseNumber(s)
  {
    forall i | 0 <= i < |w1| ensures w1[i] != ',' { assert IsSpace(w1[i]); }
    forall i | 0 <= i < |w2| ensures w2[i] != ',' { assert IsSpace(w2[i]); }
    RemoveAllConcat(w1 + s, w2, ',');
    RemoveAllConcat(w1, s, ',');
    RemoveAllAbsent(w1, ',');
    RemoveAllAbsent(w2, ',');
    StripIgnoresPadding(w1, RemoveAll(s, ','), w2);
  }

  // ----- Decimal rendering, for the round trips -----

  function DigitChar(d: nat): (c: char)
    requires d < 10
    ensures IsDigit(c) && DigitValue(c) == d
  {
    ('0' as int + d) as char
  }

  /** The decimal digits of `n`, without leading zeros. */
  function NatToString(n: nat): (s: string)
    ensures IsDigits(s)
  {
    if n < 10 then [DigitChar(n)] else NatToString(n / 10) + [DigitChar(n % 10)]
  }

  /** `n` in exactly `width` digits, padded with leading zeros. */
  function PadDigits(n: nat, width: nat): (s: string)
    ensures |s| == width && AllDigits(s)
  {
    if width == 0 then [] else PadDigits(n / 10, width - 1) + [DigitChar(n % 10)]
  }

  /** `n` with a comma between each group of three digits, as the listing prints counts. */
  function Grouped(n: nat): string {
    if n < 1000 then NatToString(n) else Grouped(n / 1000) + "," + PadDigits(n % 1000, 3)
  }

  lemma {:induction false} DigitsValueAppend(s: string, c: char)
    requires AllDigits(s) && IsDigit(c)
    ensures AllDigits(s + [c]) && DigitsValue(s + [c]) == DigitsValue(s) * 10 + DigitValue(c)
  {
    assert (s + [c])[..|s|] == s;
  }

  lemma {:induction false} DigitsValueConcat(a: string, b: string)
    requires AllDigits(a) && AllDigits(b)
    ensures AllDigits(a + b) && DigitsValue(a + b) == DigitsValue(a) * Pow10(|b|) + DigitsValue(b)
    decreases |b|
  {
    if b == [] {
      assert a + b == a;
    } else {
      var b' := b[..|b| - 1];
      var c := b[|b| - 1];
      assert a + b == (a + b') + [c];
      assert b == b' + [c];
      DigitsValueConcat(a, b');
      DigitsValueAppend(a + b', c);
      DigitsValueAppend(b', c);
      ShiftStep(DigitsValue(a), Pow10(|b'|), DigitsValue(b'), DigitValue(c));
    }
  }

  lemma ShiftStep(x: nat, p: nat, y: nat, d: nat)
    ensures (x * p + y) * 10 + d == x * (10 * p) + (y * 10 + d)
  {
  }

  lemma {:induction false} NatToStringValue(n: nat)
    ensures DigitsValue(NatToString(n)) == n
  {
    if n < 10 {
      assert NatToString(n) == [] + [DigitChar(n)];
      DigitsValueAppend([], DigitChar(n));
    } else {
      NatToStringValue(n / 10);
      DigitsValueAppend(NatToString(n / 10), DigitChar(n % 10));
    }
  }

  lemma {:induction false} PadDigitsValue(n: nat, width: nat)
    requires n < Pow10(width)
    ensures DigitsValue(PadDigits(n, width)) == n
  {
    if width > 0 {
      PadDigitsValue(n / 10, width - 1);
      DigitsValueAppend(PadDigits(n / 10, width - 1), DigitChar(n % 10));
    }
  }

  lemma CommasOfGroup(n: nat)
    requires n >= 1000
    ensures RemoveAll(Grouped(n), ',') == RemoveAll(Grouped(n / 1000), ',') + PadDigits(n % 1000, 3)
  {
    var hi, lo := Grouped(n / 1000), PadDigits(n % 1000, 3);
    assert Grouped(n) == hi + "," + lo;
    RemoveAllConcat(hi + ",", lo, ',');
    RemoveAllConcat(hi, ",", ',');
    assert RemoveAll(",", ',') == [];
    assert RemoveAll(hi + ",", ',') == RemoveAll(hi, ',');
    NoNonDigit(lo, ',');
    RemoveAllAbsent(lo, ',');
  }

  /** Removing the commas of `Grouped(n)` leaves a digit string whose value is `n`. */
  lemma {:induction false} GroupedDigits(n: nat)
    ensures IsDigits(RemoveAll(Grouped(n), ','))
    ensures DigitsValue(RemoveAll(Grouped(n), ',')) == n
  {
    if n < 1000 {
      NoNonDigit(NatToString(n), ',');
      RemoveAllAbsent(NatToString(n), ',');
      NatToStringValue(n);
    } else {
      var hi := RemoveAll(Grouped(n / 1000), ',');
      var lo := PadDigits(n % 1000, 3);
      GroupedDigits(n / 1000);
      CommasOfGroup(n);
      assert Pow10(3) == 1000;
      PadDigitsValue(n % 1000, 3);
      DigitsValueConcat(hi, lo);
    }
  }

  /** Removing the commas of `Grouped(n)` leaves as many characters as `n` has digits. */
  lemma {:induction false} GroupedLength(n: nat)
    ensures |RemoveAll(Grouped(n), ',')| == |NatToString(n)|
  {
    if n < 1000 {
      NoNonDigit(NatToString(n), ',');
      RemoveAllAbsent(NatToString(n), ',');
    } else {
      GroupedLength(n / 1000);
      CommasOfGroup(n);
      assert n / 10 >= 100 && n / 10 / 10 >= 10;
      assert |NatToString(n)| == |NatToString(n / 10)| + 1;
      assert |NatToString(n / 10)| == |NatToString(n / 10 / 10)| + 1;
      assert |NatToString(n / 10 / 10)| == |NatToString(n / 10 / 10 / 10)| + 1;
      assert n / 10 / 10 / 10 == n / 1000;
    }
  }

  /** `n` has at most `k` digits exactly when it is below 10^k. */
  lemma {:induction false} DigitCountBound(n: nat, k: nat)
    requires k >= 1
    ensures |NatToString(n)| <= k <==> n < Pow10(k)
  {
    if n >= 10 {
      if k == 1 {
        assert |NatToString(n)| == |NatToString(n / 10)| + 1;
      } else {
        DigitCountBound(n / 10, k - 1);
        assert n / 10 < Pow10(k - 1) <==> n < 10 * Pow10(k - 1);
      }
    }
  }

  /**
   * The round trip for counts: `parse_number` reads back any comma-grouped
   * count that `int()` accepts, one below 10^MAX_STR_DIGITS, and reads 0
   * for a longer one.
   */
  lemma {:induction false} ParseNumberOfGrouped(n: nat)
    ensures n < Pow10(MAX_STR_DIGITS) ==> ParseNumber(Grouped(n)) == n
    ensures n >= Pow10(MAX_STR_DIGITS) ==> ParseNumber(Grouped(n)) == 0
  {
    GroupedReads(n);
    DigitCountBound(n, MAX_STR_DIGITS);
  }

  /** `parse_number` reads a grouped count back exactly when `int()` accepts its digit count. */
  lemma {:induction false} GroupedReads(n: nat)
    ensures |NatToString(n)| <= MAX_STR_DIGITS ==> ParseNumber(Grouped(n)) == n
    ensures |NatToString(n)| > MAX_STR_DIGITS ==> ParseNumber(Grouped(n)) == 0
  {
    GroupedClean(n);
    ReadsCleaned(Grouped(n));
  }

  /** The text `parse_number` reads from a grouped count: `n`'s own digits. */
  lemma GroupedClean(n: nat)
    ensures IsDigits(CleanNumber(Grouped(n)))
    ensures |CleanNumber(Grouped(n))| == |NatToString(n)|
    ensures DigitsValue(CleanNumber(Grouped(n))) == n
  {
    GroupedDigits(n);
    GroupedLength(n);
    CleanLength(Grouped(n));
  }

  /** `parse_number` of text that cleans to digits: their value within the digit limit, else 0. */
  lemma ReadsCleaned(s: string)
    requires IsDigits(CleanNumber(s))
    ensures |CleanNumber(s)| <= MAX_STR_DIGITS ==> ParseNumber(s) == DigitsValue(CleanNumber(s))
    ensures |CleanNumber(s)| > MAX_STR_DIGITS ==> ParseNumber(s) == 0
  {
    ParseIntOfDigits(CleanNumber(s));
  }

  /** A cleaned digit string is its comma-free text. */
  lemma CleanLength(s: string)
    requires AllDigits(RemoveAll(s, ','))
    ensures CleanNumber(s) == RemoveAll(s, ',')
  {
    DigitsUnpadded(RemoveAll(s, ','));
  }

  /** 10^k exceeds k, so small counts are below 10^MAX_STR_DIGITS. */
  lemma {:induction false} Pow10Exceeds(k: nat)
    ensures k < Pow10(k)
  {
    if k > 0 {
      Pow10Exceeds(k - 1);
    }
  }

  /** A leading `$` is removed before the commas. */
  lemma CleanPrizeDollar(x: string)
    requires '$' !in x
    ensures CleanPrize("$" + x) == CleanNumber(x)
  {
    RemoveAllConcat("$", x, '$');
    assert RemoveAll("$", '$') == [];
    RemoveAllAbsent(x, '$');
    assert RemoveAll("$" + x, '$') == x;
  }

  lemma NoDollarInGrouped(n: nat)
    ensures '$' !in Grouped(n)
  {
    if n >= 1000 {
      NoDollarInGrouped(n / 1000);
      NoNonDigit(PadDigits(n % 1000, 3), '$');
    } else {
      NoNonDigit(NatToString(n), '$');
    }
  }

  /** The round trip for whole-dollar prizes: `parse_prize_value` reads back `$` and a grouped amount. */
  lemma ParsePrizeValueOfGrouped(n: nat)
    ensures ParsePrizeValue("$" + Grouped(n)) == n as real
  {
    NoDollarInGrouped(n);
    CleanPrizeDollar(Grouped(n));
    GroupedClean(n);
    ParseFloatOfDigits(CleanNumber(Grouped(n)));
  }
}
