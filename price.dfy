/**
 * `clean_price` of the backend: drop every character that is neither a
 * decimal digit nor a dot, then read what is left as a number, or 0 when it
 * is not one.
 *
 * The text left after filtering contains only digits and dots, so Python's
 * `float` accepts it exactly when it holds at least one digit and at most
 * one dot (`"12"`, `"12."`, `".5"`, `"12.50"`); `ParseDecimal` reads such a
 * numeral as an exact real.
 */
module PriceParsing {
  import opened Wrappers

  predicate IsDigit(c: char) { '0' <= c <= '9' }

  /** The characters that survive `re.sub(r'[^\d.]', '', ...)`. */
  predicate IsPriceChar(c: char) { IsDigit(c) || c == '.' }

  predicate AllPriceChars(s: string) { forall i :: 0 <= i < |s| ==> IsPriceChar(s[i]) }

  predicate AllDigits(s: string) { forall i :: 0 <= i < |s| ==> IsDigit(s[i]) }

  predicate HasDigit(s: string) { exists i :: 0 <= i < |s| && IsDigit(s[i]) }

  /** Number of dots in `s`. */
  function DotCount(s: string): nat
  {
    if s == [] then 0 else (if s[0] == '.' then 1 else 0) + DotCount(s[1..])
  }

  /** What Python's `float` accepts among strings of digits and dots. */
  predicate IsNumeral(s: string) { HasDigit(s) && DotCount(s) <= 1 }

  /** The filtering step: keep digits and dots, in their order. */
  function KeepPriceChars(s: string): (r: string)
    ensures AllPriceChars(r)
    ensures |r| <= |s|
  {
    if s == [] then []
    else
      (if IsPriceChar(s[0]) then [s[0]] else []) + KeepPriceChars(s[1..])
  }

  lemma {:induction false} KeepPriceCharsAppend(a: string, b: string)
    ensures KeepPriceChars(a + b) == KeepPriceChars(a) + KeepPriceChars(b)
  {
    if a == [] {
      assert a + b == b;
    } else {
      var t := a[1..];
      var h := if IsPriceChar(a[0]) then [a[0]] else [];
      assert (a + b)[0] == a[0];
      assert (a + b)[1..] == t + b;
      KeepPriceCharsAppend(t, b);
      assert KeepPriceChars(a + b) == h + KeepPriceChars(t + b);
      assert KeepPriceChars(a) == h + KeepPriceChars(t);
    }
  }

  /** Filtering keeps every dot and every digit. */
  lemma {:induction false} KeepPriceCharsKeepsNumeralChars(s: string)
    ensures DotCount(KeepPriceChars(s)) == DotCount(s)
    ensures HasDigit(KeepPriceChars(s)) <==> HasDigit(s)
  {
    if s != [] {
      var k, t := KeepPriceChars(s), KeepPriceChars(s[1..]);
      KeepPriceCharsKeepsNumeralChars(s[1..]);
      assert s == [s[0]] + s[1..];
      if IsPriceChar(s[0]) {
        assert k == [s[0]] + t;
        assert k[1..] == t;
        if HasDigit(t) {
          var i :| 0 <= i < |t| && IsDigit(t[i]);
          assert k[i + 1] == t[i];
        }
        if HasDigit(k) {
          var i :| 0 <= i < |k| && IsDigit(k[i]);
          if i > 0 { assert t[i - 1] == k[i]; }
        }
      } else {
        assert k == t;
      }
      if HasDigit(s[1..]) {
        var i :| 0 <= i < |s[1..]| && IsDigit(s[1..][i]);
        assert s[i + 1] == s[1..][i];
      }
      if HasDigit(s) {
        var i :| 0 <= i < |s| && IsDigit(s[i]);
        if i > 0 { assert s[1..][i - 1] == s[i]; }
      }
    }
  }

  /** Filtering leaves a string of digits and dots as it is. */
  lemma {:induction false} KeepPriceCharsFixes(s: string)
    requires AllPriceChars(s)
    ensures KeepPriceChars(s) == s
  {
    if s != [] {
      KeepPriceCharsFixes(s[1..]);
    }
  }

  /** Filtering twice is filtering once. */
  lemma KeepPriceCharsIdempotent(s: string)
    ensures KeepPriceChars(KeepPriceChars(s)) == KeepPriceChars(s)
  {
    KeepPriceCharsFixes(KeepPriceChars(s));
  }

  /** Index of the first dot, or `|s|` when there is none. */
  function DotIndex(s: string): (d: nat)
    ensures d <= |s|
    ensures d < |s| ==> s[d] == '.'
    ensures forall i :: 0 <= i < d ==> s[i] != '.'
  {
    if s == [] then 0
    else if s[0] == '.' then 0
    else 1 + DotIndex(s[1..])
  }

  function DigitValue(c: char): nat
    requires IsDigit(c)
  {
    c as int - '0' as int
  }

  /** The natural number a string of decimal digits denotes (0 for the empty string). */
  function DigitsValue(s: string): nat
    requires AllDigits(s)
  {
    if s == [] then 0
    else 10 * DigitsValue(s[..|s| - 1]) + DigitValue(s[|s| - 1])
  }

  function Pow10(n: nat): (p: nat)
    ensures p >= 1
  {
    if n == 0 then 1 else 10 * Pow10(n - 1)
  }

  /** With no dot the count is 0; otherwise the first dot counts one and the rest follow it. */
  lemma {:induction false} DotCountAtDotIndex(s: string)
    ensures DotIndex(s) == |s| ==> DotCount(s) == 0
    ensures DotIndex(s) < |s| ==> DotCount(s) == 1 + DotCount(s[DotIndex(s) + 1..])
  {
    if s != [] && s[0] != '.' {
      DotCountAtDotIndex(s[1..]);
      if DotIndex(s) < |s| {
        assert s[1..][DotIndex(s[1..]) + 1..] == s[DotIndex(s) + 1..];
      }
    }
  }

  lemma {:induction false} DotCountZero(s: string)
    ensures DotCount(s) == 0 <==> forall i :: 0 <= i < |s| ==> s[i] != '.'
  {
    if s != [] {
      DotCountZero(s[1..]);
      assert forall i :: 1 <= i < |s| ==> s[i] == s[1..][i - 1];
    }
  }

  /**
   * `float` on `whole "." frac`, where `whole` has no dot: the digits before
   * the dot plus the digits after it scaled down; `None` when `frac` holds a
   * second dot or there is no digit at all.
   */
  function ParsePointed(whole: string, frac: string): (r: Option<real>)
    requires AllDigits(whole) && AllPriceChars(frac)
    ensures r.Some? <==> DotCount(frac) == 0 && (whole != [] || frac != [])
    ensures r.Some? ==> r.value >= 0.0
  {
    DotCountZero(frac);
    if DotCount(frac) != 0 || (whole == [] && frac == []) then None
    else
      assert AllDigits(frac);
      Some(DigitsValue(whole) as real + DigitsValue(frac) as real / Pow10(|frac|) as real)
  }

  /**
   * Python's `float` on a string of digits and dots, read exactly:
   * `None` stands for the `ValueError` it raises.
   */
  function ParseDecimal(s: string): (r: Option<real>)
    requires AllPriceChars(s)
    ensures r.Some? <==> IsNumeral(s)
    ensures r.Some? ==> r.value >= 0.0
  {
    var d := DotIndex(s);
    DotCountAtDotIndex(s);
    if d == |s| then
      if s == [] then None
      else
        assert IsDigit(s[0]);
        Some(DigitsValue(s) as real)
    else
      var whole, frac := s[..d], s[d + 1..];
      assert forall i :: 0 <= i < |frac| ==> frac[i] == s[d + 1 + i];
      assert AllDigits(whole) && AllPriceChars(frac);
      DotCountZero(frac);
      assert DotCount(frac) == 0 && (whole != [] || frac != []) ==> IsDigit(s[0]) || IsDigit(s[d + 1]);
      ParsePointed(whole, frac)
  }

  /** `clean_price(price_raw)`: the filtered numeral's value, or 0 when `float` fails. */
  function CleanPrice(priceRaw: string): (p: real)
    ensures p >= 0.0
    ensures !IsNumeral(KeepPriceChars(priceRaw)) ==> p == 0.0
    ensures IsNumeral(KeepPriceChars(priceRaw)) ==> Some(p) == ParseDecimal(KeepPriceChars(priceRaw))
  {
    match ParseDecimal(KeepPriceChars(priceRaw))
    case Some(v) => v
    case None => 0.0
  }

  /** The price depends on the filtered text alone. */
  lemma CleanPriceOnlyReadsPriceChars(s: string)
    ensures CleanPrice(s) == CleanPrice(KeepPriceChars(s))
  {
    KeepPriceCharsIdempotent(s);
  }

  /** Inserting a character that is neither a digit nor a dot never changes the price. */
  lemma CleanPriceIgnoresNoise(a: string, c: char, b: string)
    requires !IsPriceChar(c)
    ensures CleanPrice(a + [c] + b) == CleanPrice(a + b)
  {
    calc {
      KeepPriceChars(a + [c] + b);
      { KeepPriceCharsAppend(a + [c], b); }
      KeepPriceChars(a + [c]) + KeepPriceChars(b);
      { KeepPriceCharsAppend(a, [c]); assert KeepPriceChars([c]) == []; }
      KeepPriceChars(a) + KeepPriceChars(b);
      { KeepPriceCharsAppend(a, b); }
      KeepPriceChars(a + b);
    }
  }

  /** Two or more dots make the text unreadable, and the price 0. */
  lemma CleanPriceTwoDots(s: string, i: nat, j: nat)
    requires i < j < |s| && s[i] == '.' && s[j] == '.'
    ensures CleanPrice(s) == 0.0
  {
    DotCountAtLeastTwo(s, i, j);
    KeepPriceCharsKeepsNumeralChars(s);
  }

  lemma {:induction false} DotCountAtLeastTwo(s: string, i: nat, j: nat)
    requires i < j < |s| && s[i] == '.' && s[j] == '.'
    ensures DotCount(s) >= 2
  {
    if i > 0 {
      DotCountAtLeastTwo(s[1..], i - 1, j - 1);
    } else {
      DotCountZero(s[1..]);
      assert s[1..][j - 1] == '.';
    }
  }

  /** With no digit at all (empty text, "Free", "N/A") the price is 0. */
  lemma CleanPriceNoDigit(s: string)
    requires forall i :: 0 <= i < |s| ==> !IsDigit(s[i])
    ensures CleanPrice(s) == 0.0
  {
    KeepPriceCharsKeepsNumeralChars(s);
  }

  // ---- printing a price, so that parsing can be checked against it ----

  function DigitChar(n: nat): (c: char)
    requires n < 10
    ensures IsDigit(c) && DigitValue(c) == n
  {
    ('0' as int + n) as char
  }

  /** The decimal numeral of `n`, without leading zeros. */
  function NatToDigits(n: nat): (s: string)
    ensures AllDigits(s) && |s| >= 1
    decreases n
  {
    if n < 10 then [DigitChar(n)] else NatToDigits(n / 10) + [DigitChar(n % 10)]
  }

  lemma {:induction false} DigitsValueOfNatToDigits(n: nat)
    ensures DigitsValue(NatToDigits(n)) == n
    decreases n
  {
    if n >= 10 {
      var s := NatToDigits(n);
      assert s[..|s| - 1] == NatToDigits(n / 10);
      DigitsValueOfNatToDigits(n / 10);
    }
  }

  /** Reading back a printed whole number gives that number. */
  lemma CleanPriceOfWholeNumber(n: nat)
    ensures CleanPrice(NatToDigits(n)) == n as real
  {
    var s := NatToDigits(n);
    KeepPriceCharsFixes(s);
    assert DotIndex(s) == |s|;
    DigitsValueOfNatToDigits(n);
  }

  /** The two digits of the cents part of an amount. */
  function CentsDigits(cents: nat): (s: string)
    ensures AllDigits(s) && |s| == 2
  {
    var c := cents % 100;
    [DigitChar(c / 10), DigitChar(c % 10)]
  }

  /** `cents` as a numeral with two decimals: `1205` becomes `"12.05"`. */
  function CentsNumeral(cents: nat): string
  {
    NatToDigits(cents / 100) + "." + CentsDigits(cents)
  }

  /** `cents` printed the way shops do: `"$12.05"`. */
  function DollarText(cents: nat): string
  {
    "$" + CentsNumeral(cents)
  }

  /** The first dot of `whole "." frac` is the one after the digits of `whole`. */
  lemma {:induction false} DotIndexAfterDigits(whole: string, rest: string)
    requires AllDigits(whole)
    ensures DotIndex(whole + ['.'] + rest) == |whole|
  {
    if whole != [] {
      var num := whole + ['.'] + rest;
      assert num[0] == whole[0];
      assert num[1..] == whole[1..] + ['.'] + rest;
      DotIndexAfterDigits(whole[1..], rest);
    }
  }

  lemma AllPriceCharsConcat(a: string, b: string)
    requires AllPriceChars(a) && AllPriceChars(b)
    ensures AllPriceChars(a + b)
  {
    forall i | 0 <= i < |a + b| ensures IsPriceChar((a + b)[i]) {
      if i < |a| {
        assert (a + b)[i] == a[i];
      } else {
        assert (a + b)[i] == b[i - |a|];
      }
    }
  }

  /** `whole "." frac` is a digits-and-dots text whose first dot separates the two parts. */
  lemma PointedNumeralShape(whole: string, frac: string)
    requires AllDigits(whole) && AllDigits(frac)
    ensures AllPriceChars(whole + "." + frac)
    ensures DotIndex(whole + "." + frac) == |whole|
    ensures (whole + "." + frac)[..|whole|] == whole && (whole + "." + frac)[|whole| + 1..] == frac
  {
    var head := whole + ['.'];
    assert AllPriceChars(['.']);
    AllPriceCharsConcat(whole, ['.']);
    AllPriceCharsConcat(head, frac);
    assert (head + frac)[..|whole|] == head[..|whole|] == whole;
    assert (head + frac)[|whole| + 1..] == frac;
    DotIndexAfterDigits(whole, frac);
  }

  /** `float` on `whole "." frac` adds the fraction's digits scaled down. */
  lemma ParseDecimalOfPointedNumeral(whole: string, frac: string)
    requires AllDigits(whole) && AllDigits(frac) && |whole| >= 1
    ensures AllPriceChars(whole + "." + frac)
    ensures ParseDecimal(whole + "." + frac)
         == Some(DigitsValue(whole) as real + DigitsValue(frac) as real / Pow10(|frac|) as real)
  {
    PointedNumeralShape(whole, frac);
    ParseDecimalAtDot(whole + "." + frac, |whole|);
    ParsePointedOfDigits(whole, frac);
  }

  lemma ParsePointedOfDigits(whole: string, frac: string)
    requires AllDigits(whole) && AllDigits(frac) && |whole| >= 1
    ensures ParsePointed(whole, frac)
         == Some(DigitsValue(whole) as real + DigitsValue(frac) as real / Pow10(|frac|) as real)
  {
    DotCountZero(frac);
  }

  /** The value of a text with a dot is read from the parts around its first dot. */
  lemma ParseDecimalAtDot(s: string, d: nat)
    requires AllPriceChars(s) && d < |s| && DotIndex(s) == d
    ensures AllDigits(s[..d]) && AllPriceChars(s[d + 1..])
    ensures ParseDecimal(s) == ParsePointed(s[..d], s[d + 1..])
  {
  }

  lemma CentsSplit(cents: nat)
    ensures (cents / 100) as real + (cents % 100) as real / 100.0 == cents as real / 100.0
  {
    var q, r := cents / 100, cents % 100;
    assert cents == 100 * q + r;
    assert cents as real == 100.0 * q as real + r as real;
  }

  lemma ParseCentsNumeral(cents: nat)
    ensures AllPriceChars(CentsNumeral(cents))
    ensures ParseDecimal(CentsNumeral(cents)) == Some(cents as real / 100.0)
  {
    ParseDecimalOfPointedNumeral(NatToDigits(cents / 100), CentsDigits(cents));
    CentsValue(cents);
  }

  /** The digits before and after the dot denote the amount. */
  lemma CentsValue(cents: nat)
    ensures DigitsValue(NatToDigits(cents / 100)) as real + DigitsValue(CentsDigits(cents)) as real / Pow10(2) as real
         == cents as real / 100.0
  {
    DigitsValueOfNatToDigits(cents / 100);
    var c := cents % 100;
    TwoDigitsValue(c / 10, c % 10);
    assert DigitsValue(CentsDigits(cents)) == c;
    assert Pow10(2) == 100 by {
      assert Pow10(2) == 10 * Pow10(1);
    }
    CentsSplit(cents);
  }

  lemma TwoDigitsValue(hi: nat, lo: nat)
    requires hi < 10 && lo < 10
    ensures DigitsValue([DigitChar(hi), DigitChar(lo)]) == 10 * hi + lo
  {
    var s := [DigitChar(hi), DigitChar(lo)];
    assert s[..1] == [DigitChar(hi)];
    assert DigitsValue([DigitChar(hi)]) == hi by {
      assert [DigitChar(hi)][..0] == [];
    }
    assert DigitsValue(s) == 10 * DigitsValue(s[..1]) + DigitValue(s[1]);
  }

  /** Reading back a dollar amount gives the amount: `"$12.05"` reads as 12.05. */
  lemma CleanPriceOfDollarText(cents: nat)
    ensures CleanPrice(DollarText(cents)) == cents as real / 100.0
  {
    var num := CentsNumeral(cents);
    ParseCentsNumeral(cents);
    KeepPriceCharsAppend("$", num);
    assert KeepPriceChars("$") == [];
    KeepPriceCharsFixes(num);
    assert KeepPriceChars(DollarText(cents)) == num;
  }
}
