/**
 * `InvoicesController.GenerateNextInvoiceNumber`: the number offered on the
 * blank invoice form.  Among the caller's invoice numbers that start with
 * `INV-{year}-`, the ordinally greatest one is taken, every occurrence of
 * the prefix is removed from it, the rest is parsed as an `int`, and one
 * more than that is written with at least three digits.  When nothing
 * matches, or the rest does not parse, the sequence restarts at `001`.
 *
 * The current year is a parameter.  Parsing is digits-only: the model's
 * `TryParseInt32` accepts a non-empty run of decimal digits whose value
 * fits in an `int`, a simplification of `int.TryParse`, which also accepts
 * surrounding white space and a sign.
 */
module InvoiceNumbering {
  import opened Wrappers
  import opened Text

  const Int32Min: int := -0x8000_0000
  const Int32Max: int := 0x7FFF_FFFF

  /** `int.TryParse`, restricted to plain decimal digits. */
  function TryParseInt32(s: string): (r: Option<int>)
    ensures r.Some? ==> 0 <= r.value <= Int32Max
    ensures r.Some? ==> AllDigits(s) && r.value == DigitsValue(s)
    ensures r.Some? <==> |s| > 0 && AllDigits(s) && DigitsValue(s) <= Int32Max
    ensures |s| > 0 && |s| <= 9 && AllDigits(s) ==> r.Some?
  {
    if |s| > 0 && AllDigits(s) then
      assert |s| <= 9 ==> DigitsValue(s) < 1_000_000_000 by {
        if |s| <= 9 {
          DigitsValueBound(s);
          Pow10Monotone(|s|, 9);
          Pow10Nine();
        }
      }
      if DigitsValue(s) <= Int32Max then Some(DigitsValue(s)) else None
    else None
  }

  lemma Pow10Nine()
    ensures Pow10(9) == 1_000_000_000
  {
    assert Pow10(3) == 1000;
    assert Pow10(6) == 1000 * Pow10(3) by { Pow10Add(3, 3); }
    assert Pow10(9) == 1000 * Pow10(6) by { Pow10Add(3, 6); }
  }

  lemma {:induction false} Pow10Add(a: nat, b: nat)
    ensures Pow10(a + b) == Pow10(a) * Pow10(b)
    decreases a
  {
    if a > 0 {
      Pow10Add(a - 1, b);
      assert Pow10(a + b) == 10 * Pow10(a - 1 + b);
    }
  }

  lemma {:induction false} Pow10Monotone(a: nat, b: nat)
    requires a <= b
    ensures Pow10(a) <= Pow10(b)
    decreases b
  {
    if a < b { Pow10Monotone(a, b - 1); }
  }

  /** Unchecked `int` arithmetic: the result is taken modulo 2^32 into the
      range of a 32-bit two's-complement integer. */
  function WrapInt32(x: int): (r: int)
    ensures Int32Min <= r <= Int32Max
    ensures Int32Min <= x <= Int32Max ==> r == x
    ensures (r - x) % 0x1_0000_0000 == 0
  {
    (x - Int32Min) % 0x1_0000_0000 + Int32Min
  }

  /** `int.MaxValue + 1` wraps to `int.MinValue`. */
  lemma WrapAtMax(n: int)
    requires n == Int32Max
    ensures WrapInt32(n + 1) == -n - 1 == Int32Min
  {
    assert n + 1 - Int32Min == 1 * 0x1_0000_0000 + 0;
  }

  /** Left-pads a digit string with zeros up to `width` characters. */
  function PadZeros(s: string, width: nat): (r: string)
    requires AllDigits(s)
    ensures AllDigits(r) && DigitsValue(r) == DigitsValue(s)
    ensures |r| == if |s| >= width then |s| else width
    ensures |s| >= width ==> r == s
    decreases width - |s|
  {
    if |s| >= width then s
    else
      DigitsValueLeadingZero(s);
      PadZeros("0" + s, width)
  }

  /** `n.ToString("D3")`: the decimal digits of |n|, zero-padded to at
      least three, after a minus sign when `n` is negative. */
  function FormatD3(n: int): (s: string)
    ensures n >= 0 ==> |s| >= 3 && AllDigits(s) && DigitsValue(s) == n
    ensures n >= 0 ==> (|s| > 3 ==> s[0] != '0')
    ensures n >= 0 ==> (n < 1000 <==> |s| == 3)
    ensures n < 0 ==> |s| >= 4 && s[0] == '-' && AllDigits(s[1..]) && DigitsValue(s[1..]) == -n
    ensures n < 0 && |s| > 4 ==> s[1] != '0'
  {
    if n >= 0 then
      var d := NatToString(n);
      Thousand(n);
      PadZeros(d, 3)
    else
      var d := NatToString(-n);
      Thousand(-n);
      var p := PadZeros(d, 3);
      assert ("-" + p)[1..] == p;
      "-" + p
  }

  lemma Thousand(n: nat)
    ensures n < 1000 <==> |NatToString(n)| <= 3
  {
    var s := NatToString(n);
    assert Pow10(3) == 1000;
    if n < 1000 {
      NatToStringLength(n, 3);
    } else {
      DigitsValueBound(s);
    }
  }

  /** `$"INV-{year}-"`. */
  function Prefix(year: nat): (p: string)
    ensures |p| > 0 && p[0] == 'I'
  {
    "INV-" + NatToString(year) + "-"
  }

  /** The numbers that start with the prefix, in their original order. */
  function Matching(numbers: seq<string>, prefix: string): (m: seq<string>)
    ensures forall x :: x in m <==> x in numbers && StartsWith(x, prefix)
  {
    if numbers == [] then []
    else if StartsWith(numbers[0], prefix) then [numbers[0]] + Matching(numbers[1..], prefix)
    else Matching(numbers[1..], prefix)
  }

  /** `OrderByDescending(n => n).First()`: the ordinally greatest string. */
  function Greatest(ns: seq<string>): (g: string)
    requires |ns| > 0
    ensures g in ns
    ensures forall x :: x in ns ==> LexLessEq(x, g)
  {
    if |ns| == 1 then ns[0]
    else
      var g := Greatest(ns[1..]);
      assert forall x :: x in ns ==> x == ns[0] || x in ns[1..];
      if LexLess(g, ns[0]) then
        assert forall x :: x in ns[1..] ==> LexLessEq(x, ns[0]) by {
          forall x | x in ns[1..] ensures LexLessEq(x, ns[0]) {
            LexLessEqTransitive(x, g, ns[0]);
          }
        }
        ns[0]
      else
        LexLessTotal(g, ns[0]);
        g
  }

  /** The suffix that follows the prefix in the generated number, given
      the greatest matching number. */
  function NextSuffix(last: string, prefix: string): string
    requires |prefix| > 0
  {
    match TryParseInt32(ReplaceAll(last, prefix, ""))
    case Some(number) => FormatD3(WrapInt32(number + 1))
    case None => "001"
  }

  /** `GenerateNextInvoiceNumber`, over the caller's invoice numbers. */
  function GenerateNextInvoiceNumber(year: nat, numbers: seq<string>): (r: string)
    ensures StartsWith(r, Prefix(year))
    ensures (forall x :: x in numbers ==> !StartsWith(x, Prefix(year))) ==> r == Prefix(year) + "001"
  {
    var prefix := Prefix(year);
    var matches := Matching(numbers, prefix);
    var r := if |matches| == 0 then prefix + "001"
             else prefix + NextSuffix(Greatest(matches), prefix);
    assert r[..|prefix|] == prefix;
    assert (forall x :: x in numbers ==> !StartsWith(x, prefix)) ==> |matches| == 0 by {
      if |matches| > 0 { assert matches[0] in matches; }
    }
    r
  }

  /** The generated number is computed from whichever matching number is
      ordinally greatest. */
  lemma NextFromGreatest(year: nat, numbers: seq<string>, g: string)
    requires g in numbers && StartsWith(g, Prefix(year))
    requires forall x :: x in numbers && StartsWith(x, Prefix(year)) ==> LexLessEq(x, g)
    ensures GenerateNextInvoiceNumber(year, numbers) == Prefix(year) + NextSuffix(g, Prefix(year))
  {
    var prefix := Prefix(year);
    var matches := Matching(numbers, prefix);
    assert g in matches;
    var h := Greatest(matches);
    assert LexLessEq(g, h) && LexLessEq(h, g);
    if g != h { LexLessAsymmetric(g, h); }
  }

  /** When the greatest matching number does not end in a parsable
      number, the sequence restarts at `001`. */
  lemma UnparsableFallsBack(year: nat, numbers: seq<string>, g: string)
    requires g in numbers && StartsWith(g, Prefix(year))
    requires forall x :: x in numbers && StartsWith(x, Prefix(year)) ==> LexLessEq(x, g)
    requires TryParseInt32(ReplaceAll(g, Prefix(year), "")).None?
    ensures GenerateNextInvoiceNumber(year, numbers) == Prefix(year) + "001"
  {
    NextFromGreatest(year, numbers, g);
  }

  /** A number such as `INV-{year}-abc` sorts above `INV-{year}-001`, does
      not parse, and so the generator offers `INV-{year}-001` again. */
  lemma FallbackRepeats(year: nat)
    ensures var numbers := [Prefix(year) + "001", Prefix(year) + "abc"];
            GenerateNextInvoiceNumber(year, numbers) == Prefix(year) + "001" &&
            GenerateNextInvoiceNumber(year, numbers) in numbers
  {
    var prefix := Prefix(year);
    var numbers := [prefix + "001", prefix + "abc"];
    var g := prefix + "abc";
    assert g[..|prefix|] == prefix;
    assert LexLess("001", "abc");
    LexLessCommonPrefix(prefix, "001", "abc");
    ReplaceAllLeading(prefix, "abc");
    assert !AllDigits("abc") by { assert !IsDigit("abc"[0]); }
    UnparsableFallsBack(year, numbers, g);
  }

  /** Digits never contain the prefix's first letter, so removing the
      prefix from a canonical number leaves its digits. */
  lemma SuffixOfCanonical(prefix: string, digits: string)
    requires |prefix| > 0 && prefix[0] == 'I' && AllDigits(digits)
    ensures ReplaceAll(prefix + digits, prefix, "") == digits
  {
    ReplaceAllLeading(prefix, digits);
  }

  /** When the greatest matching number is the canonical form of `n`, the
      next number is the canonical form of `n + 1`, taken through unchecked
      32-bit addition. */
  lemma NextAfterCanonical(year: nat, numbers: seq<string>, n: nat)
    requires n <= Int32Max
    requires Prefix(year) + FormatD3(n) in numbers
    requires forall x :: x in numbers && StartsWith(x, Prefix(year)) ==> LexLessEq(x, Prefix(year) + FormatD3(n))
    ensures GenerateNextInvoiceNumber(year, numbers) == Prefix(year) + FormatD3(WrapInt32(n + 1))
    ensures n < Int32Max ==> GenerateNextInvoiceNumber(year, numbers) == Prefix(year) + FormatD3(n + 1)
  {
    var prefix, digits := Prefix(year), FormatD3(n);
    var g := prefix + digits;
    assert g[..|prefix|] == prefix;
    NextFromGreatest(year, numbers, g);
    SuffixOfCanonical(prefix, digits);
    assert TryParseInt32(digits) == Some(n);
  }

  /** The first `n` numbers of a year, `INV-{year}-001` to `INV-{year}-n`. */
  function Canonical(year: nat, n: nat): (s: seq<string>)
    ensures |s| == n
    ensures forall k :: 0 <= k < n ==> s[k] == Prefix(year) + FormatD3(k + 1)
  {
    if n == 0 then []
    else
      var prev := Canonical(year, n - 1);
      var s := prev + [Prefix(year) + FormatD3(n)];
      assert forall k :: 0 <= k < n - 1 ==> s[k] == prev[k];
      s
  }

  /** Up to 999, sequential creation leaves no gaps: after `001`..`n` the
      next number is `n + 1`. */
  lemma SequentialNumbers(year: nat, n: nat)
    requires n <= 999
    ensures GenerateNextInvoiceNumber(year, Canonical(year, n)) == Prefix(year) + FormatD3(n + 1)
  {
    var numbers, prefix := Canonical(year, n), Prefix(year);
    if n == 0 {
      assert FormatD3(1) == "001" by { assert NatToString(1) == "1"; }
    } else {
      CanonicalTop(year, n);
      NextAfterCanonical(year, numbers, n);
    }
  }

  /** The last of the first `n` numbers is the greatest of them. */
  lemma CanonicalTop(year: nat, n: nat)
    requires 0 < n <= 999
    ensures Prefix(year) + FormatD3(n) in Canonical(year, n)
    ensures forall x :: x in Canonical(year, n) && StartsWith(x, Prefix(year)) ==>
              LexLessEq(x, Prefix(year) + FormatD3(n))
  {
    var numbers, prefix := Canonical(year, n), Prefix(year);
    var top := prefix + FormatD3(n);
    assert top == numbers[n - 1];
    forall x | x in numbers && StartsWith(x, prefix)
      ensures LexLessEq(x, top)
    {
      var k :| 0 <= k < n && numbers[k] == x;
      DigitsOrder(FormatD3(k + 1), FormatD3(n));
      LexLessCommonPrefix(prefix, FormatD3(k + 1), FormatD3(n));
    }
  }

  /** When `INV-{year}-2147483647` is the greatest number, the unchecked
      `number + 1` wraps to `int.MinValue`, and the generated number carries
      a minus sign. */
  lemma Int32Wraps(year: nat, numbers: seq<string>, n: int)
    requires n == Int32Max
    requires Prefix(year) + FormatD3(n) in numbers
    requires forall x :: x in numbers && StartsWith(x, Prefix(year)) ==> LexLessEq(x, Prefix(year) + FormatD3(n))
    ensures GenerateNextInvoiceNumber(year, numbers) == Prefix(year) + FormatD3(-n - 1)
    ensures GenerateNextInvoiceNumber(year, numbers)[|Prefix(year)|] == '-'
  {
    WrapAtMax(n);
    NextAfterCanonical(year, numbers, n);
    MinusAfterPrefix(Prefix(year), FormatD3(-n - 1));
  }


  lemma MinusAfterPrefix(prefix: string, digits: string)
    requires |digits| > 0 && digits[0] == '-'
    ensures (prefix + digits)[|prefix|] == '-'
  {}


  lemma FormatNineNinetyNine()
    ensures FormatD3(999) == "999" && FormatD3(1000) == "1000"
  {
    assert NatToString(9) == "9";
    assert NatToString(99) == NatToString(9) + "9";
    assert NatToString(999) == NatToString(99) + "9";
    assert NatToString(1) == "1";
    assert NatToString(10) == NatToString(1) + "0";
    assert NatToString(100) == NatToString(10) + "0";
    assert NatToString(1000) == NatToString(100) + "0";
  }

  /** Once `INV-{year}-1000` exists, `INV-{year}-999` still sorts highest,
      so `INV-{year}-1000` is generated again. */
  lemma RolloverRepeats(year: nat)
    ensures var numbers := [Prefix(year) + "999", Prefix(year) + "1000"];
            GenerateNextInvoiceNumber(year, numbers) == Prefix(year) + "1000" &&
            GenerateNextInvoiceNumber(year, numbers) in numbers
  {
    var prefix := Prefix(year);
    var numbers := [prefix + "999", prefix + "1000"];
    FormatNineNinetyNine();
    assert LexLess("1000", "999");
    LexLessCommonPrefix(prefix, "1000", "999");
    NextAfterCanonical(year, numbers, 999);
  }

  // ---------------------------------------------------------------------
  // The numbering evidently intended: numeric maximum of the suffixes
  // ---------------------------------------------------------------------

  /** The suffix of a matching number, when it is a run of digits. */
  predicate HasNumericSuffix(x: string, prefix: string)
    requires |prefix| > 0
  {
    var rest := ReplaceAll(x, prefix, "");
    StartsWith(x, prefix) && |rest| > 0 && AllDigits(rest)
  }

  function SuffixValue(x: string, prefix: string): nat
    requires |prefix| > 0 && HasNumericSuffix(x, prefix)
  {
    DigitsValue(ReplaceAll(x, prefix, ""))
  }

  /** The largest numeric suffix among the matching numbers (0 if none). */
  function MaxSuffix(numbers: seq<string>, prefix: string): (m: nat)
    requires |prefix| > 0
    ensures forall x :: x in numbers && HasNumericSuffix(x, prefix) ==> SuffixValue(x, prefix) <= m
    ensures m > 0 ==> exists x :: x in numbers && HasNumericSuffix(x, prefix) && SuffixValue(x, prefix) == m
  {
    if numbers == [] then 0
    else
      var rest := MaxSuffix(numbers[1..], prefix);
      assert forall x :: x in numbers ==> x == numbers[0] || x in numbers[1..];
      if HasNumericSuffix(numbers[0], prefix) && SuffixValue(numbers[0], prefix) > rest
      then SuffixValue(numbers[0], prefix)
      else rest
  }

  /** The next number as the numeric successor of the largest suffix,
      without a 32-bit limit. */
  function NextNumberNumeric(year: nat, numbers: seq<string>): (r: string)
    ensures StartsWith(r, Prefix(year))
    ensures r !in numbers
  {
    var prefix := Prefix(year);
    var m := MaxSuffix(numbers, prefix);
    var r := prefix + FormatD3(m + 1);
    assert r[..|prefix|] == prefix;
    assert r !in numbers by {
      if r in numbers {
        SuffixOfCanonical(prefix, FormatD3(m + 1));
        assert HasNumericSuffix(r, prefix);
      }
    }
    r
  }

  /** The intended numbering agrees with the source up to 999 and moves on
      to 1001 where the source repeats 1000. */
  lemma NumericPassesRollover(year: nat)
    ensures var numbers := [Prefix(year) + "999", Prefix(year) + "1000"];
            NextNumberNumeric(year, numbers) == Prefix(year) + "1001"
            && NextNumberNumeric(year, numbers) !in numbers
  {
    var prefix := Prefix(year);
    FormatNineNinetyNine();
    CanonicalSuffixValue(prefix, "999");
    CanonicalSuffixValue(prefix, "1000");
    MaxSuffixPair(prefix + "999", prefix + "1000", prefix);
    FormatThousandOne();
  }

  lemma CanonicalSuffixValue(prefix: string, digits: string)
    requires |prefix| > 0 && prefix[0] == 'I' && |digits| > 0 && AllDigits(digits)
    ensures HasNumericSuffix(prefix + digits, prefix)
    ensures SuffixValue(prefix + digits, prefix) == DigitsValue(digits)
  {
    SuffixOfCanonical(prefix, digits);
    assert (prefix + digits)[..|prefix|] == prefix;
  }

  lemma MaxSuffixPair(x: string, y: string, prefix: string)
    requires |prefix| > 0 && HasNumericSuffix(x, prefix) && HasNumericSuffix(y, prefix)
    requires SuffixValue(x, prefix) <= SuffixValue(y, prefix)
    ensures MaxSuffix([x, y], prefix) == SuffixValue(y, prefix)
  {
    assert [y][1..] == [];
    assert MaxSuffix([], prefix) == 0;
    assert MaxSuffix([y], prefix) == SuffixValue(y, prefix);
    assert [x, y][0] == x && [x, y][1..] == [y];
  }

  lemma FormatThousandOne()
    ensures FormatD3(1001) == "1001"
  {
    assert NatToString(1) == "1";
    assert NatToString(10) == NatToString(1) + "0";
    assert NatToString(100) == NatToString(10) + "0";
    assert NatToString(1001) == NatToString(100) + "1";
  }
}
