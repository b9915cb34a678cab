/** Money as the C# model handles it: `decimal` major units on input
    (exact base-10 arithmetic, modelled by `real`), `int` minor units
    (pence) in storage, and the `AmountGBP` / `FormattedAmount` views
    of `Expense`. */
module Money {
  import opened Wrappers
  import opened Text

  /** Bounds of the `[Range]` attribute on the request amount. */
  const MinAmount: real := 0.01
  const MaxAmount: real := 999999.99

  const Int32Min: int := -0x8000_0000
  const Int32Max: int := 0x7fff_ffff

  predicate InInt32(n: int) {
    Int32Min <= n <= Int32Max
  }

  /** An amount has at most two decimal places when it is a whole
      number of pence. */
  predicate WholePence(amount: real) {
    (amount * 100.0).Floor as real == amount * 100.0
  }

  /** The integer part of a decimal, rounding toward zero as C#'s
      explicit `(int)` conversion does. */
  function TruncateTowardZero(d: real): (n: int)
    ensures d >= 0.0 ==> 0 <= n && n as real <= d < n as real + 1.0
    ensures d < 0.0 ==> n <= 0 && n as real - 1.0 < d <= n as real
  {
    if d >= 0.0 then d.Floor else -((-d).Floor)
  }

  /** C#'s `(int)d` on a decimal: the truncated value, or `None` where
      .NET throws `OverflowException` because it does not fit in 32 bits. */
  function DecimalToInt32(d: real): (r: Option<int>)
    ensures r.Some? <==> InInt32(TruncateTowardZero(d))
    ensures r.Some? ==> r.value == TruncateTowardZero(d)
  {
    var n := TruncateTowardZero(d);
    if InInt32(n) then Some(n) else None
  }

  /** `(int)(request.Amount * 100)`: major to minor units, truncating. */
  function ToMinor(amount: real): (r: Option<int>)
    ensures amount >= 0.0 && r.Some? ==>
      r.value >= 0 && r.value as real <= amount * 100.0 < r.value as real + 1.0
  {
    DecimalToInt32(amount * 100.0)
  }

  /** Every amount in the decimal interval [0.01, 999999.99] converts
      without overflow to a minor value in [1, 99999999], inside Int32. */
  lemma ValidAmountMinorBounds(amount: real)
    requires MinAmount <= amount <= MaxAmount
    ensures ToMinor(amount).Some?
    ensures 1 <= ToMinor(amount).value <= 99_999_999
    ensures InInt32(ToMinor(amount).value)
  {
    var d := amount * 100.0;
    assert 1.0 <= d <= 99_999_999.0;
    assert 1 <= d.Floor <= 99_999_999;
  }

  /** The conversion truncates: for any non-negative amount whose cast
      does not overflow, the stored pence, read back as pounds, never
      exceed the amount and fall short by less than one penny; they equal
      it exactly when the amount is a whole number of pence. */
  lemma ToMinorTruncates(amount: real)
    requires 0.0 <= amount && ToMinor(amount).Some?
    ensures AmountGbp(ToMinor(amount).value) <= amount < AmountGbp(ToMinor(amount).value) + 0.01
    ensures AmountGbp(ToMinor(amount).value) == amount <==> WholePence(amount)
  {
    var m := ToMinor(amount).value;
    assert m == (amount * 100.0).Floor;
  }

  /** `AmountGBP => AmountMinor / 100.0m`: exact decimal division. */
  function AmountGbp(minor: int): (r: real)
    ensures r * 100.0 == minor as real
    ensures r > 0.0 <==> minor > 0
    ensures r == 0.0 <==> minor == 0
  {
    minor as real / 100.0
  }

  lemma AmountGbpMonotone(a: int, b: int)
    requires a <= b
    ensures AmountGbp(a) <= AmountGbp(b)
  {
  }

  /** The `F2` rendering of `minor / 100`: optional minus sign, the whole
      pounds, a '.', and exactly two digits of pence. */
  function Fixed2(minor: int): (s: string)
    ensures |s| >= 4 && s[|s| - 3] == '.'
    ensures IsDigit(s[|s| - 2]) && IsDigit(s[|s| - 1])
    ensures s[0] == '-' <==> minor < 0
  {
    var magnitude: nat := if minor < 0 then -minor else minor;
    var pence := magnitude % 100;
    (if minor < 0 then "-" else "")
      + NatToString(magnitude / 100)
      + "."
      + [DigitChar(pence / 10), DigitChar(pence % 10)]
  }

  /** Reads a `F2` rendering back into pence. */
  function ParseFixed2(s: string): (r: Option<int>)
  {
    if |s| < 4 || s[|s| - 3] != '.' then None
    else
      var negative := s[0] == '-';
      var whole := s[(if negative then 1 else 0)..|s| - 3];
      var fraction := s[|s| - 2..];
      match (ParseNat(whole), ParseNat(fraction))
      case (Some(w), Some(f)) =>
        var magnitude: int := w * 100 + f;
        Some(if negative then -magnitude else magnitude)
      case _ => None
  }

  /** The two pence digits read back to the pence. */
  lemma PenceDigitsValue(pence: nat)
    requires pence < 100
    ensures ParseNat([DigitChar(pence / 10), DigitChar(pence % 10)]) == Some(pence)
  {
    var fraction := [DigitChar(pence / 10), DigitChar(pence % 10)];
    assert fraction[..1] == [DigitChar(pence / 10)];
    assert fraction[..1][..0] == [];
    assert DigitsValue(fraction[..1]) == pence / 10;
    assert DigitsValue(fraction) == pence;
  }

  /** Where the whole pounds and the pence sit in the rendering. */
  lemma Fixed2Parts(minor: int)
    ensures
      var s := Fixed2(minor);
      var magnitude: nat := if minor < 0 then -minor else minor;
      && s[(if s[0] == '-' then 1 else 0)..|s| - 3] == NatToString(magnitude / 100)
      && s[|s| - 2..] == [DigitChar(magnitude % 100 / 10), DigitChar(magnitude % 100 % 10)]
  {
    var s := Fixed2(minor);
    var magnitude: nat := if minor < 0 then -minor else minor;
    var sign := if minor < 0 then "-" else "";
    var whole := NatToString(magnitude / 100);
    var fraction := [DigitChar(magnitude % 100 / 10), DigitChar(magnitude % 100 % 10)];
    assert s == sign + whole + "." + fraction;
    assert s[|sign|..|s| - 3] == whole;
    assert s[|s| - 2..] == fraction;
  }

  /** The rendering is exact: it reads back to the same number of pence,
      hence denotes `AmountGBP` with no rounding. */
  lemma Fixed2RoundTrip(minor: int)
    ensures ParseFixed2(Fixed2(minor)) == Some(minor)
  {
    var magnitude: nat := if minor < 0 then -minor else minor;
    Fixed2Parts(minor);
    ParseNatToString(magnitude / 100);
    PenceDigitsValue(magnitude % 100);
  }

  /** The pound sign the formatted amount is meant to start with. */
  const PoundSign: string := "\U{00A3}"

  /** The two characters `FormattedAmount`'s literal actually holds. */
  const PoundSignAsWritten: string := "\U{00C2}\U{00A3}"

  /** `FormattedAmount` as written: the prefix literal followed by `F2`. */
  function FormattedAmountAsWritten(minor: int): (s: string)
    ensures |s| == |Fixed2(minor)| + 2
    ensures s[..2] == PoundSignAsWritten
    ensures s[2..] == Fixed2(minor)
  {
    PoundSignAsWritten + Fixed2(minor)
  }

  /** The two-byte UTF-8 encoding of a code point in [0x80, 0x800). */
  function Utf8TwoBytes(c: char): seq<int>
    requires 0x80 <= c as int < 0x800
  {
    [0xC0 + c as int / 64, 0x80 + c as int % 64]
  }

  /** The as-written prefix is the UTF-8 encoding of '£' read back one byte
      per character, so the amount does not start with the pound sign. */
  lemma PoundSignAsWrittenIsMisdecoded(minor: int)
    ensures |PoundSignAsWritten| == 2
    ensures [PoundSignAsWritten[0] as int, PoundSignAsWritten[1] as int] == Utf8TwoBytes(PoundSign[0])
    ensures !StartsWith(FormattedAmountAsWritten(minor), PoundSign)
  {
    var s := FormattedAmountAsWritten(minor);
    assert s[0] == '\U{00C2}';
  }

  /** `FormattedAmount` with the intended pound sign: the sign, then the
      amount in pounds with exactly two fractional digits. */
  function FormattedAmount(minor: int): (s: string)
    ensures StartsWith(s, PoundSign)
    ensures ParseFixed2(s[|PoundSign|..]) == Some(minor)
  {
    Fixed2RoundTrip(minor);
    var s := PoundSign + Fixed2(minor);
    assert s[|PoundSign|..] == Fixed2(minor);
    s
  }
}
