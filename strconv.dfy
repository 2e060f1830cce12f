/** Decimal integers as Go's `strconv.Atoi` parses them and as the `%d` verb
    of `fmt.Sprintf` prints them (for a Go `int` or `int64`, 64 bits wide). */
module Strconv {
  import opened Wrappers

  const MinInt64: int := -0x8000_0000_0000_0000
  const MaxInt64: int := 0x7fff_ffff_ffff_ffff
  const MaxUint64: int := 0xffff_ffff_ffff_ffff

  predicate IsInt64(n: int)
  {
    MinInt64 <= n <= MaxInt64
  }

  /** The two causes `strconv` reports: `ErrSyntax` and `ErrRange`. */
  datatype NumErrorKind = ErrSyntax | ErrRange

  /** `strconv.NumError`: the function that failed, the input and the cause. */
  datatype NumError = NumError(func: string, num: string, err: NumErrorKind)

  predicate IsDigit(c: char)
  {
    '0' <= c <= '9'
  }

  function DigitValue(c: char): nat
    requires IsDigit(c)
  {
    (c as int) - ('0' as int)
  }

  function DigitChar(d: nat): (c: char)
    requires d < 10
    ensures IsDigit(c) && DigitValue(c) == d
  {
    (('0' as int) + d) as char
  }

  predicate AllDigits(s: string)
  {
    forall i :: 0 <= i < |s| ==> IsDigit(s[i])
  }

  /** The value of a digit string, accumulated left to right as
      `strconv.ParseUint` does (`n = n*10 + d`). */
  function DigitsValue(s: string): nat
    requires AllDigits(s)
  {
    if s == [] then 0 else 10 * DigitsValue(s[..|s| - 1]) + DigitValue(s[|s| - 1])
  }

  /** The longest prefix of `s` made of digits only. */
  function DigitRun(s: string): (p: string)
    ensures AllDigits(p) && p <= s
    ensures |p| < |s| ==> !IsDigit(s[|p|])
  {
    if s != [] && IsDigit(s[0]) then [s[0]] + DigitRun(s[1..]) else []
  }

  /** The decimal digits of a natural number, most significant first, with no
      leading zero. */
  function NatDigits(n: nat): (s: string)
    ensures |s| >= 1 && AllDigits(s)
    decreases n
  {
    if n < 10 then [DigitChar(n)] else NatDigits(n / 10) + [DigitChar(n % 10)]
  }

  /** `fmt.Sprintf("%d", n)`: a minus sign for negative numbers, then the
      digits of the magnitude. */
  function FormatInt(n: int): (s: string)
    ensures |s| >= 1
  {
    if n < 0 then "-" + NatDigits(-n) else NatDigits(n)
  }

  /** `strconv.Atoi(s)` with a 64-bit `int`: an optional sign and then ASCII
      digits only (base 10 admits no underscores). A digit prefix above the
      largest unsigned 64-bit value is reported as out of range, even when an
      invalid character follows it, because `ParseUint` notices the overflow
      first; a well-formed number outside the 64-bit signed range is out of
      range too; anything else malformed, the empty string and a lone sign
      included, is a syntax error. The error carries the whole input. */
  function Atoi(s: string): (r: Result<int, NumError>)
    ensures r.Success? ==> IsInt64(r.value)
    ensures r.Failure? ==> r.error.func == "Atoi" && r.error.num == s
  {
    var neg := |s| > 0 && s[0] == '-';
    var body := if |s| > 0 && (s[0] == '-' || s[0] == '+') then s[1..] else s;
    var run := DigitRun(body);
    if DigitsValue(run) > MaxUint64 then Failure(NumError("Atoi", s, ErrRange))
    else if body == [] || run != body then Failure(NumError("Atoi", s, ErrSyntax))
    else
      var magnitude: int := DigitsValue(body);
      var v := if neg then -magnitude else magnitude;
      if IsInt64(v) then Success(v) else Failure(NumError("Atoi", s, ErrRange))
  }

  /** The text of a `NumError` as its `Error()` method builds it. */
  function NumErrorText(e: NumError): string
  {
    "strconv." + e.func + ": parsing " + Quote(e.num) + ": "
      + (match e.err case ErrSyntax => "invalid syntax" case ErrRange => "value out of range")
  }

  /** `strconv.Quote` for strings with nothing to escape. */
  function Quote(s: string): string
  {
    "\"" + s + "\""
  }

  lemma {:induction false} NatDigitsValue(n: nat)
    ensures DigitsValue(NatDigits(n)) == n
    decreases n
  {
    var s := NatDigits(n);
    if n < 10 {
      assert s[..|s| - 1] == [];
    } else {
      NatDigitsValue(n / 10);
      assert s[..|s| - 1] == NatDigits(n / 10);
    }
  }

  lemma {:induction false} DigitRunOfDigits(s: string)
    requires AllDigits(s)
    ensures DigitRun(s) == s
  {
    if s != [] {
      DigitRunOfDigits(s[1..]);
    }
  }

  /** A printed integer holds no character other than digits and the sign. */
  lemma FormatIntDigitsOnly(n: int, c: char)
    requires !IsDigit(c) && c != '-'
    ensures c !in FormatInt(n)
  {
    var d := NatDigits(if n < 0 then -n else n);
    assert forall i :: 0 <= i < |d| ==> d[i] != c;
  }

  /** Printing with `%d` and parsing with `Atoi` gives back every 64-bit
      value. */
  lemma {:induction false} AtoiFormatInt(n: int)
    requires IsInt64(n)
    ensures Atoi(FormatInt(n)) == Success(n)
  {
    var m: nat := if n < 0 then -n else n;
    var d := NatDigits(m);
    NatDigitsValue(m);
    DigitRunOfDigits(d);
    var s := FormatInt(n);
    if n < 0 {
      assert s[1..] == d;
    } else {
      assert s == d && !(s[0] == '-' || s[0] == '+');
    }
  }

  /** The empty string is not a number. */
  lemma AtoiEmpty()
    ensures Atoi("") == Failure(NumError("Atoi", "", ErrSyntax))
  {
  }
}
