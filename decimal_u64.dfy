/**
  Unsigned 64-bit integers as the crate reads and writes them in file names:
  `str::parse::<u64>` (decimal `from_str_radix` of the Rust core library) and
  the `{}` formatting of a `u64`.
 */
module DecimalU64 {
  import opened Wrappers

  const U64_LIMIT: nat := 0x1_0000_0000_0000_0000

  type u64 = n: nat | n < U64_LIMIT

  /** `core::num::IntErrorKind`, restricted to the kinds an unsigned parse can report. */
  datatype IntErrorKind = Empty | InvalidDigit | PosOverflow

  predicate IsDigit(c: char) {
    '0' <= c <= '9'
  }

  predicate AllDigits(s: string) {
    forall i :: 0 <= i < |s| ==> IsDigit(s[i])
  }

  function DigitValue(c: char): (d: nat)
    requires IsDigit(c)
    ensures d < 10
  {
    c as int - '0' as int
  }

  function DigitChar(d: nat): (c: char)
    requires d < 10
    ensures IsDigit(c) && DigitValue(c) == d
  {
    ('0' as int + d) as char
  }

  /** The number a digit string denotes, read left to right onto the accumulator `acc`. */
  function Accumulate(acc: nat, s: string): nat
    requires AllDigits(s)
    decreases |s|
  {
    if s == [] then acc else Accumulate(acc * 10 + DigitValue(s[0]), s[1..])
  }

  /**
    The digit loop of `from_str_radix`: at each character the digit is checked
    first, then the multiply-and-add is checked for overflow.
   */
  function ScanDigits(acc: u64, s: string): Result<u64, IntErrorKind>
    decreases |s|
  {
    if s == [] then Ok(acc)
    else if !IsDigit(s[0]) then Err(InvalidDigit)
    else if acc * 10 + DigitValue(s[0]) >= U64_LIMIT then Err(PosOverflow)
    else ScanDigits(acc * 10 + DigitValue(s[0]), s[1..])
  }

  /**
    `s.parse::<u64>()`: empty input is `Empty`; a lone sign is `InvalidDigit`;
    one leading `+` is skipped (a `-` is not, and fails as a non-digit).
   */
  function ParseU64(s: string): Result<u64, IntErrorKind>
  {
    if s == [] then Err(Empty)
    else if s == "+" || s == "-" then Err(InvalidDigit)
    else if s[0] == '+' then ScanDigits(0, s[1..])
    else ScanDigits(0, s)
  }

  /** The digits `ParseU64` reads: the text without one leading `+`. */
  function UnsignedDigits(s: string): string {
    if |s| > 0 && s[0] == '+' then s[1..] else s
  }

  /** The text `ParseU64` accepts, stated without reference to its loop. */
  predicate AcceptedU64(s: string) {
    var d := UnsignedDigits(s);
    d != [] && AllDigits(d) && Accumulate(0, d) < U64_LIMIT
  }

  /** `{}` formatting of an unsigned integer: decimal digits, no sign, no leading zero. */
  function Decimal(n: nat): (s: string)
    ensures |s| > 0 && AllDigits(s)
    ensures s[0] == '0' ==> n == 0 && s == "0"
  {
    if n < 10 then [DigitChar(n)] else Decimal(n / 10) + [DigitChar(n % 10)]
  }

  /** A digit string in the form `Decimal` produces: no leading zero unless it is "0". */
  predicate Canonical(s: string) {
    s != [] && AllDigits(s) && (s[0] == '0' ==> |s| == 1)
  }

  lemma {:induction false} AccumulateAtLeast(acc: nat, s: string)
    requires AllDigits(s)
    ensures Accumulate(acc, s) >= acc
    decreases |s|
  {
    if s != [] {
      AccumulateAtLeast(acc * 10 + DigitValue(s[0]), s[1..]);
    }
  }

  /** Reading one more digit multiplies by ten and adds it. */
  lemma {:induction false} AccumulateAppend(acc: nat, s: string, c: char)
    requires AllDigits(s) && IsDigit(c)
    ensures AllDigits(s + [c])
    ensures Accumulate(acc, s + [c]) == Accumulate(acc, s) * 10 + DigitValue(c)
    decreases |s|
  {
    if s == [] {
      assert s + [c] == [c];
    } else {
      assert (s + [c])[1..] == s[1..] + [c];
      AccumulateAppend(acc * 10 + DigitValue(s[0]), s[1..], c);
    }
  }

  /** The digit loop succeeds exactly on all-digit text whose value fits, and yields that value. */
  lemma {:induction false} ScanDigitsValue(acc: u64, s: string)
    ensures ScanDigits(acc, s).Ok? <==> AllDigits(s) && Accumulate(acc, s) < U64_LIMIT
    ensures ScanDigits(acc, s).Ok? ==> ScanDigits(acc, s).value == Accumulate(acc, s)
    ensures ScanDigits(acc, s).Err? ==> ScanDigits(acc, s).error != Empty
    ensures ScanDigits(acc, s).Err? && AllDigits(s) ==> ScanDigits(acc, s).error == PosOverflow
    decreases |s|
  {
    if s != [] && IsDigit(s[0]) {
      var next := acc * 10 + DigitValue(s[0]);
      assert AllDigits(s) <==> AllDigits(s[1..]) by {
        if AllDigits(s[1..]) {
          forall i | 0 <= i < |s| ensures IsDigit(s[i]) {
            if i > 0 { assert s[i] == s[1..][i - 1]; }
          }
        }
      }
      if next >= U64_LIMIT {
        if AllDigits(s) {
          AccumulateAtLeast(next, s[1..]);
        }
      } else {
        ScanDigitsValue(next, s[1..]);
      }
    }
  }

  /** What `parse::<u64>` accepts and what it returns, and when it reports `Empty`. */
  lemma ParseU64Spec(s: string)
    ensures ParseU64(s).Ok? <==> AcceptedU64(s)
    ensures ParseU64(s).Ok? ==> ParseU64(s).value == Accumulate(0, UnsignedDigits(s))
    ensures ParseU64(s) == Err(Empty) <==> s == []
  {
    if s != [] && s != "+" && s != "-" {
      ScanDigitsValue(0, UnsignedDigits(s));
    } else if s != [] {
      assert UnsignedDigits(s) == [] || UnsignedDigits(s) == "-";
    }
  }

  /** `Decimal` writes the number it is given. */
  lemma {:induction false} DecimalValue(n: nat)
    ensures Accumulate(0, Decimal(n)) == n
  {
    if n >= 10 {
      DecimalValue(n / 10);
      AccumulateAppend(0, Decimal(n / 10), DigitChar(n % 10));
    }
  }

  /** Parsing the rendered form of a `u64` gives the number back. */
  lemma ParseDecimal(n: u64)
    ensures ParseU64(Decimal(n)) == Ok(n)
  {
    DecimalValue(n);
    ParseU64Spec(Decimal(n));
  }

  /** A canonical digit string is the rendering of its own value: `Decimal` is onto the canonical strings. */
  lemma {:induction false} DecimalOfCanonical(s: string)
    requires Canonical(s)
    ensures Decimal(Accumulate(0, s)) == s
  {
    var p, c := s[..|s| - 1], s[|s| - 1];
    assert s == p + [c];
    assert AllDigits(p) by {
      forall i | 0 <= i < |p| ensures IsDigit(p[i]) { assert p[i] == s[i]; }
    }
    AccumulateAppend(0, p, c);
    if p == [] {
      assert s == [c];
    } else {
      assert p[0] == s[0] != '0';
      assert Canonical(p);
      AccumulateAtLeast(DigitValue(p[0]), p[1..]);
      var v := Accumulate(0, p);
      assert v >= 1;
      assert (v * 10 + DigitValue(c)) / 10 == v;
      assert (v * 10 + DigitValue(c)) % 10 == DigitValue(c);
      DecimalOfCanonical(p);
      assert c == DigitChar(DigitValue(c));
    }
  }
}
