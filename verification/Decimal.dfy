/**
  * Decimal numbers on both sides of the management interface: the server's checked folds over
  * digits, and the console's arithmetic on decimal strings that never become numbers.
  */
module Decimal {
  import opened Bytes

  predicate IsDigit(c: char) { '0' <= c <= '9' }

  function DigitOf(c: char): nat
    requires IsDigit(c)
  {
    c as nat - '0' as nat
  }

  predicate Digits(s: string) { forall i :: 0 <= i < |s| ==> IsDigit(s[i]) }

  /** The number a digit string stands for, leading zeros included. */
  function Value(s: string): nat
    requires Digits(s)
  {
    if s == "" then 0 else 10 * Value(s[..|s| - 1]) + DigitOf(s[|s| - 1])
  }

  /** How both sides print an unsigned number. */
  function Print(n: nat): (s: string)
    ensures Digits(s) && s != ""
  {
    var last := [('0' as nat + n % 10) as char];
    if n < 10 then last else Print(n / 10) + last
  }

  // ----- printing and value ----------------------------------------------------------------

  /** A printed form: no leading zero unless it is the only digit. */
  predicate Canonical(s: string) {
    s != "" && Digits(s) && (s[0] != '0' || |s| == 1)
  }

  lemma {:induction false} PrintValue(n: nat)
    ensures Value(Print(n)) == n && Canonical(Print(n))
    ensures n > 0 ==> Print(n)[0] != '0'
  {
    var s := Print(n);
    if n >= 10 {
      PrintValue(n / 10);
      assert s[..|s| - 1] == Print(n / 10);
    }
  }

  lemma {:induction false} ValuePrint(s: string)
    requires Canonical(s)
    ensures Print(Value(s)) == s
    ensures s[0] != '0' ==> Value(s) > 0
  {
    var front := s[..|s| - 1];
    if |s| > 1 {
      ValuePrint(front);
      assert s == front + [s[|s| - 1]];
    }
  }

  // ----- checked folds ---------------------------------------------------------------------

  /** `try_fold` with `checked_mul(10)` and `checked_add`: it stops at the first overflow. */
  function Fold(s: string): (r: Option<nat>)
    requires Digits(s)
  {
    if s == "" then Some(0)
    else match Fold(s[..|s| - 1])
         case None => None
         case Some(n) =>
           if n * 10 > U64_MAX || n * 10 + DigitOf(s[|s| - 1]) > U64_MAX then None
           else Some(n * 10 + DigitOf(s[|s| - 1]))
  }

  /** The fold fails exactly on overflow, and otherwise yields the value. */
  lemma {:induction false} FoldIsChecked(s: string)
    requires Digits(s)
    ensures Fold(s) == if Value(s) <= U64_MAX then Some(Value(s)) else None
  {
    if s != "" {
      FoldIsChecked(s[..|s| - 1]);
    }
  }

  /** `parse_decimal_u64`: leading zeros are allowed. */
  function ParseU64(s: string): Option<nat> {
    if s == "" || !Digits(s) then None else Fold(s)
  }

  /** `parse_canonical_decimal_token`. */
  function ParseToken(s: string): Option<nat> {
    if s == "" || !('1' <= s[0] <= '9') || !Digits(s) then None else Fold(s)
  }

  lemma ParseU64Iff(s: string, n: nat)
    ensures ParseU64(s) == Some(n) <==> s != "" && Digits(s) && Value(s) == n <= U64_MAX
  {
    if Digits(s) {
      FoldIsChecked(s);
    }
  }

  /** Token parsing accepts exactly the printed forms of 1 to 2^64 - 1 and inverts printing. */
  lemma TokenIff(s: string, n: nat)
    ensures ParseToken(s) == Some(n) <==> 1 <= n <= U64_MAX && s == Print(n)
  {
    PrintValue(n);
    if Digits(s) && s != "" {
      FoldIsChecked(s);
      if s[0] != '0' {
        ValuePrint(s);
      }
    }
  }

  // ----- the console's decimal strings -----------------------------------------------------

  /** `left < right` on strings: the first differing character decides, a proper prefix is less. */
  predicate LexLess(a: string, b: string) {
    b != "" && (a == "" || a[0] < b[0] || (a[0] == b[0] && LexLess(a[1..], b[1..])))
  }

  /** `decimalStringIsGreaterThan`. */
  predicate IsGreater(left: string, right: string) {
    |left| > |right| || (|left| == |right| && LexLess(right, left))
  }

  const U64_MAX_DECIMAL := "18446744073709551615"

  /** Drop leading zeros while another digit follows. */
  function Normalized(s: string): string {
    if |s| > 1 && s[0] == '0' && IsDigit(s[1]) then Normalized(s[1..]) else s
  }

  /** `requiredDecimalU64String`; `None` is the rejected snapshot. */
  function Required(s: string): Option<string> {
    if s == "" || !Digits(s) then None
    else
      var n := Normalized(s);
      if |n| < |U64_MAX_DECIMAL| || (|n| == |U64_MAX_DECIMAL| && !LexLess(U64_MAX_DECIMAL, n)) then Some(n) else None
  }

  function Pow10(n: nat): nat { if n == 0 then 1 else 10 * Pow10(n - 1) }

  lemma ShiftDigit(v: nat, p: nat, w: nat, d: nat)
    ensures 10 * (v * p + w) + d == v * (10 * p) + (10 * w + d)
  {
  }

  lemma {:induction false} ValueConcat(a: string, b: string)
    requires Digits(a) && Digits(b)
    ensures Value(a + b) == Value(a) * Pow10(|b|) + Value(b)
  {
    if b == "" {
      assert a + b == a;
    } else {
      var s, front := a + b, b[..|b| - 1];
      assert s[..|s| - 1] == a + front;
      ValueConcat(a, front);
      ShiftDigit(Value(a), Pow10(|b| - 1), Value(front), DigitOf(b[|b| - 1]));
    }
  }

  lemma ValueFront(s: string)
    requires Digits(s) && s != ""
    ensures Value(s) == DigitOf(s[0]) * Pow10(|s| - 1) + Value(s[1..])
  {
    assert s == s[..1] + s[1..];
    ValueConcat(s[..1], s[1..]);
    assert Value(s[..1]) == DigitOf(s[0]);
  }

  lemma {:induction false} ValueBound(s: string)
    requires Digits(s)
    ensures Value(s) < Pow10(|s|)
  {
    if s != "" {
      ValueBound(s[..|s| - 1]);
    }
  }

  lemma {:induction false} Pow10Grows(m: nat, n: nat)
    requires m <= n
    ensures 1 <= Pow10(m) <= Pow10(n)
  {
    if m < n {
      Pow10Grows(m, n - 1);
    } else if m > 0 {
      Pow10Grows(m - 1, m - 1);
    }
  }

  lemma LeadingDigit(x: nat, v: nat, y: nat, w: nat, p: nat)
    requires v < p && w < p
    ensures x * p + v < y * p + w <==> x < y || (x == y && v < w)
  {
    if x < y {
      assert (x + 1) * p <= y * p;
    } else if y < x {
      assert (y + 1) * p <= x * p;
    }
  }

  /** On digit strings of one length the lexicographic order is the numeric order. */
  lemma {:induction false} LexIsNumeric(a: string, b: string)
    requires Digits(a) && Digits(b) && |a| == |b|
    ensures LexLess(a, b) <==> Value(a) < Value(b)
  {
    if a != "" {
      ValueFront(a);
      ValueFront(b);
      ValueBound(a[1..]);
      ValueBound(b[1..]);
      LexIsNumeric(a[1..], b[1..]);
      LeadingDigit(DigitOf(a[0]), Value(a[1..]), DigitOf(b[0]), Value(b[1..]), Pow10(|a| - 1));
    }
  }

  lemma LongerIsGreater(a: string, b: string)
    requires Canonical(a) && Canonical(b) && |a| > |b|
    ensures Value(a) > Value(b)
  {
    ValueFront(a);
    ValueBound(a[1..]);
    ValueBound(b);
    Pow10Grows(|b|, |a| - 1);
    LeadingDigit(0, Value(b), DigitOf(a[0]), Value(a[1..]), Pow10(|a| - 1));
  }

  /** Comparing normalised strings, length first, agrees with the numeric order. */
  lemma GreaterIsNumeric(a: string, b: string)
    requires Canonical(a) && Canonical(b)
    ensures IsGreater(a, b) <==> Value(a) > Value(b)
  {
    if |a| > |b| {
      LongerIsGreater(a, b);
    } else if |b| > |a| {
      LongerIsGreater(b, a);
    } else {
      LexIsNumeric(b, a);
    }
  }

  lemma {:induction false} NormalizedValue(s: string)
    requires s != "" && Digits(s)
    ensures Canonical(Normalized(s)) && Value(Normalized(s)) == Value(s)
  {
    if |s| > 1 && s[0] == '0' {
      ValueFront(s);
      NormalizedValue(s[1..]);
    }
  }

  lemma ValueFour(s: string)
    requires |s| == 4 && Digits(s)
    ensures Value(s) == 1000 * DigitOf(s[0]) + 100 * DigitOf(s[1]) + 10 * DigitOf(s[2]) + DigitOf(s[3])
  {
    assert s[..1][..0] == "" && Value(s[..1]) == DigitOf(s[0]);
    assert s[..2][..1] == s[..1] && Value(s[..2]) == 10 * Value(s[..1]) + DigitOf(s[1]);
    assert s[..3][..2] == s[..2] && Value(s[..3]) == 10 * Value(s[..2]) + DigitOf(s[2]);
  }

  lemma MaximumDecimal()
    ensures Canonical(U64_MAX_DECIMAL) && Value(U64_MAX_DECIMAL) == U64_MAX
  {
    hide Value;
    var s := U64_MAX_DECIMAL;
    assert Digits(s);
    ValueFour(s[..4]);
    ValueFour(s[4..8]);
    ValueFour(s[8..12]);
    ValueFour(s[12..16]);
    ValueFour(s[16..]);
    assert Pow10(4) == 10_000;
    ValueConcat(s[..4], s[4..8]);
    assert s[..4] + s[4..8] == s[..8];
    ValueConcat(s[..8], s[8..12]);
    assert s[..8] + s[8..12] == s[..12];
    ValueConcat(s[..12], s[12..16]);
    assert s[..12] + s[12..16] == s[..16];
    ValueConcat(s[..16], s[16..]);
    assert s[..16] + s[16..] == s;
  }

  /**
    * The console accepts exactly the strings the server's fold accepts, and returns the printed
    * form of the same number.
    */
  lemma RequiredIsPrinted(s: string)
    ensures Required(s) == match ParseU64(s) case None => None case Some(n) => Some(Print(n))
  {
    if s != "" && Digits(s) {
      NormalizedValue(s);
      var n := Normalized(s);
      ValuePrint(n);
      MaximumDecimal();
      FoldIsChecked(s);
      GreaterIsNumeric(n, U64_MAX_DECIMAL);
    }
  }
}
