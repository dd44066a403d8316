/**
 * Decimal text for Go's `int`: `strconv.Itoa` (also what `fmt.Sprintf("%d")`
 * and Python's `str(int)` print) and `strconv.Atoi`, including the order in
 * which Atoi reports a syntax error or a range error.
 */
module Decimal {
  import opened Wrappers

  const MinInt64: int := -0x8000_0000_0000_0000
  const MaxInt64: int := 0x7FFF_FFFF_FFFF_FFFF
  const MaxUint64: int := 0xFFFF_FFFF_FFFF_FFFF
  const Two64: int := 0x1_0000_0000_0000_0000

  /** The values of Go's 64-bit `int`. */
  predicate InInt64(n: int) {
    MinInt64 <= n <= MaxInt64
  }

  /** Go's `a + b` on `int`: the mathematical sum, wrapped around into the 64-bit range. */
  function AddInt64(a: int, b: int): (r: int)
    requires InInt64(a) && InInt64(b)
    ensures InInt64(r)
    ensures (r - (a + b)) % Two64 == 0
    ensures InInt64(a + b) ==> r == a + b
  {
    var s := a + b;
    if s > MaxInt64 then s - Two64 else if s < MinInt64 then s + Two64 else s
  }

  predicate IsDigit(c: char) {
    '0' <= c <= '9'
  }

  predicate AllDigits(s: string) {
    forall i :: 0 <= i < |s| ==> IsDigit(s[i])
  }

  function DigitValue(c: char): (d: nat)
    requires IsDigit(c)
    ensures d < 10
  {
    c as int - '0' as int
  }

  function DigitChar(d: nat): (c: char)
    requires d < 10
    ensures IsDigit(c) && DigitValue(c) == d
  {
    (d + '0' as int) as char
  }

  /** The value of a digit string read most significant digit first (`n = n*10 + d`). */
  function DigitsValue(s: string): nat
    requires AllDigits(s)
    decreases |s|
  {
    if |s| == 0 then 0 else DigitsValue(s[..|s| - 1]) * 10 + DigitValue(s[|s| - 1])
  }

  /** A canonical digit string: non-empty, and no leading zero unless it is "0". */
  predicate Canonical(s: string) {
    |s| > 0 && AllDigits(s) && (s[0] == '0' ==> |s| == 1)
  }

  /** The canonical digits of a natural number. */
  function NatDigits(n: nat): (s: string)
    ensures Canonical(s)
    ensures s[0] == '0' <==> n == 0
    decreases n
  {
    if n < 10 then [DigitChar(n)] else NatDigits(n / 10) + [DigitChar(n % 10)]
  }

  /** `strconv.Itoa`: a minus sign for negative numbers, then the canonical digits. */
  function Itoa(n: int): (s: string)
    ensures |s| > 0
    ensures s[0] == '-' <==> n < 0
    ensures n < 0 ==> Canonical(s[1..]) && s[1] != '0'
    ensures n >= 0 ==> Canonical(s)
  {
    if n < 0 then "-" + NatDigits(-n) else NatDigits(n)
  }

  /** Reading the digits printed for `n` gives `n` back. */
  lemma {:induction false} DigitsOfNat(n: nat)
    ensures DigitsValue(NatDigits(n)) == n
    decreases n
  {
    var s := NatDigits(n);
    if n >= 10 {
      DigitsOfNat(n / 10);
      assert s[..|s| - 1] == NatDigits(n / 10);
    }
  }

  /** A digit string is worth at least its leading digit times one. */
  lemma {:induction false} LeadingDigitBound(s: string)
    requires |s| > 0 && AllDigits(s)
    ensures DigitsValue(s) >= DigitValue(s[0])
    decreases |s|
  {
    if |s| > 1 {
      LeadingDigitBound(s[..|s| - 1]);
    }
  }

  /** Printing the value of a canonical digit string gives the same string. */
  lemma {:induction false} NatOfDigits(s: string)
    requires Canonical(s)
    ensures NatDigits(DigitsValue(s)) == s
    decreases |s|
  {
    if |s| > 1 {
      var p := s[..|s| - 1];
      assert Canonical(p);
      NatOfDigits(p);
      LeadingDigitBound(p);
      assert DigitsValue(s) / 10 == DigitsValue(p);
      assert s == p + [s[|s| - 1]];
    }
  }

  /** `10^k`. */
  function Pow10(k: nat): (r: nat)
    ensures r >= 1
  {
    if k == 0 then 1 else 10 * Pow10(k - 1)
  }

  /** Digit strings of at most `k` digits are worth less than `10^k`. */
  lemma {:induction false} DigitsValueBound(s: string)
    requires AllDigits(s)
    ensures DigitsValue(s) < Pow10(|s|)
    decreases |s|
  {
    if |s| > 0 {
      DigitsValueBound(s[..|s| - 1]);
    }
  }

  /** Fewer than 19 digits never leave the unsigned 64-bit range. */
  lemma ShortDigitsFit(s: string)
    requires AllDigits(s) && |s| < 19
    ensures DigitsValue(s) <= MaxUint64
  {
    DigitsValueBound(s);
    Pow10Monotone(|s|, 18);
    assert Pow10(6) == 1_000_000;
    assert Pow10(12) == 1_000_000_000_000;
    assert Pow10(18) == 1_000_000_000_000_000_000;
  }

  lemma {:induction false} Pow10Monotone(i: nat, k: nat)
    requires i <= k
    ensures Pow10(i) <= Pow10(k)
    decreases k
  {
    if i < k {
      Pow10Monotone(i, k - 1);
    }
  }

  datatype NumErrorKind = ErrSyntax | ErrRange

  /** `strconv.NumError`: the failing function, the text it was given, and why. */
  datatype NumError = NumError(func: string, num: string, err: NumErrorKind)

  /** The length of the leading run of digits of `s`. */
  function DigitPrefix(s: string): (j: nat)
    ensures j <= |s| && AllDigits(s[..j])
    ensures j < |s| ==> !IsDigit(s[j])
    decreases |s|
  {
    if |s| == 0 || !IsDigit(s[0]) then 0
    else
      var j := 1 + DigitPrefix(s[1..]);
      assert s[..j] == [s[0]] + s[1..][..j - 1];
      j
  }

  /** The text after an optional leading `+` or `-`. */
  function Unsigned(s: string): string
    requires |s| > 0
  {
    if s[0] == '-' || s[0] == '+' then s[1..] else s
  }

  /** The language Atoi accepts: one optional sign, then one or more decimal digits. */
  predicate IsDecimal(s: string) {
    |s| > 0 && |Unsigned(s)| > 0 && AllDigits(Unsigned(s))
  }

  /** The integer a decimal text denotes, with no width limit. */
  function DecimalValue(s: string): int
    requires IsDecimal(s)
  {
    if s[0] == '-' then -(DigitsValue(Unsigned(s)) as int) else DigitsValue(Unsigned(s))
  }

  /**
   * `strconv.Atoi` on a 64-bit platform. Digits are consumed left to right:
   * once the digits read so far exceed the unsigned 64-bit range the result is
   * a range error, even if a non-digit follows; a non-digit reached first is a
   * syntax error; a well-formed number outside the `int` range is a range error.
   */
  function Atoi(s: string): (r: Result<int, NumError>)
    ensures r.Success? <==> IsDecimal(s) && InInt64(DecimalValue(s))
    ensures r.Success? ==> r.value == DecimalValue(s)
    ensures r.Failure? ==> r.error.func == "Atoi" && r.error.num == s
    ensures |s| == 0 ==> r == Failure(NumError("Atoi", s, ErrSyntax))
    ensures IsDecimal(s) && r.Failure? ==> r.error.err == ErrRange
    ensures r.Failure? && r.error.err == ErrSyntax ==> !IsDecimal(s)
    ensures 0 < |s| < 19 && !IsDecimal(s) ==> r.Failure? && r.error.err == ErrSyntax
  {
    if |s| == 0 then Failure(NumError("Atoi", s, ErrSyntax))
    else
      var body := Unsigned(s);
      var j := DigitPrefix(body);
      if |body| == 0 then Failure(NumError("Atoi", s, ErrSyntax))
      else if DigitsValue(body[..j]) > MaxUint64 then
        assert |s| >= 19 by {
          if |s| < 19 {
            ShortDigitsFit(body[..j]);
          }
        }
        assert !(IsDecimal(s) && InInt64(DecimalValue(s))) by {
          if IsDecimal(s) {
            assert body[..j] == body;
          }
        }
        Failure(NumError("Atoi", s, ErrRange))
      else if j < |body| then Failure(NumError("Atoi", s, ErrSyntax))
      else
        assert body[..j] == body;
        var v := DecimalValue(s);
        if InInt64(v) then Success(v) else Failure(NumError("Atoi", s, ErrRange))
  }

  /** Itoa prints a decimal text denoting the number printed, for any integer. */
  lemma DecimalOfItoa(n: int)
    ensures IsDecimal(Itoa(n)) && DecimalValue(Itoa(n)) == n
  {
    var s := Itoa(n);
    if n < 0 {
      assert Unsigned(s) == NatDigits(-n);
      DigitsOfNat(-n);
    } else {
      assert Unsigned(s) == NatDigits(n);
      DigitsOfNat(n);
    }
  }

  /** Atoi reads back every `int` that Itoa prints. */
  lemma AtoiOfItoa(n: int)
    requires InInt64(n)
    ensures Atoi(Itoa(n)) == Success(n)
  {
    var s := Itoa(n);
    if n < 0 {
      assert Unsigned(s) == NatDigits(-n);
      DigitsOfNat(-n);
    } else {
      assert Unsigned(s) == NatDigits(n);
      DigitsOfNat(n);
    }
  }

  /** Itoa writes only digits and a leading minus sign. */
  lemma ItoaAlphabet(n: int)
    ensures forall i :: 0 <= i < |Itoa(n)| ==> IsDigit(Itoa(n)[i]) || (i == 0 && Itoa(n)[i] == '-')
  {
    var s := Itoa(n);
    if n < 0 {
      forall i | 1 <= i < |s|
        ensures IsDigit(s[i])
      {
        assert s[i] == s[1..][i - 1];
      }
    }
  }

  /** A canonical signed decimal: canonical digits, optionally after a `-` that is not followed by zero. */
  predicate CanonicalSigned(s: string) {
    Canonical(s) || (|s| > 1 && s[0] == '-' && s[1] != '0' && Canonical(s[1..]))
  }

  /** Itoa prints back exactly the canonical texts Atoi accepts. */
  lemma ItoaOfAtoi(s: string)
    requires CanonicalSigned(s)
    requires Atoi(s).Success?
    ensures Itoa(Atoi(s).value) == s
  {
    if s[0] == '-' {
      var d := s[1..];
      assert Unsigned(s) == d;
      NatOfDigits(d);
      LeadingDigitBound(d);
      assert s == "-" + d;
    } else {
      assert Unsigned(s) == s;
      NatOfDigits(s);
    }
  }

  /** `strconv.Quote` restricted to the two characters it always escapes: `"` and `\`. */
  function Quote(s: string): (q: string)
    ensures |q| >= |s| + 2 && q[0] == '"' && q[|q| - 1] == '"'
    ensures Unquote(q[1..|q| - 1]) == Some(s)
  {
    UnquoteOfQuote(s);
    UnquoteShrinks(QuoteBody(s));
    var q := "\"" + QuoteBody(s) + "\"";
    assert q[1..|q| - 1] == QuoteBody(s);
    q
  }

  /** The quoted text without its quotes: `"` and `\` get a `\` before them, other characters stay as they are. */
  function QuoteBody(s: string): string {
    if |s| == 0 then ""
    else (if s[0] == '"' || s[0] == '\\' then ['\\', s[0]] else [s[0]]) + QuoteBody(s[1..])
  }

  /** A reader of quoted text: a `\` takes the next character as it is; a lone `\` at the end is no quoting. */
  function Unquote(q: string): Option<string>
    decreases |q|
  {
    if |q| == 0 then Some("")
    else if q[0] == '\\' then
      if |q| < 2 then None
      else match Unquote(q[2..]) case None => None case Some(t) => Some([q[1]] + t)
    else if q[0] == '"' then None
    else match Unquote(q[1..]) case None => None case Some(t) => Some([q[0]] + t)
  }

  /** Reading quoted text back never lengthens it: each character read consumes one or two. */
  lemma {:induction false} UnquoteShrinks(q: string)
    ensures Unquote(q).Some? ==> |Unquote(q).value| <= |q|
    decreases |q|
  {
    if |q| >= 2 && q[0] == '\\' {
      UnquoteShrinks(q[2..]);
    } else if |q| > 0 {
      UnquoteShrinks(q[1..]);
    }
  }

  /** Quoting keeps every character: reading the quoted text back gives the original. */
  lemma {:induction false} UnquoteOfQuote(s: string)
    ensures Unquote(QuoteBody(s)) == Some(s)
    decreases |s|
  {
    if |s| > 0 {
      var q := QuoteBody(s);
      var rest := QuoteBody(s[1..]);
      UnquoteOfQuote(s[1..]);
      if s[0] == '"' || s[0] == '\\' {
        assert q == ['\\', s[0]] + rest;
        assert q[2..] == rest;
      } else {
        assert q == [s[0]] + rest;
        assert q[1..] == rest;
      }
      assert s == [s[0]] + s[1..];
    }
  }

  /** `(*strconv.NumError).Error()`: `strconv.Atoi: parsing "abc": invalid syntax`. */
  function NumErrorText(e: NumError): (t: string)
    ensures |t| > 0
  {
    "strconv." + e.func + ": parsing " + Quote(e.num) + ": "
      + (match e.err case ErrSyntax => "invalid syntax" case ErrRange => "value out of range")
  }
}
