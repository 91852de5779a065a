/** Unsigned decimal numerals, as written by `{}` and read by `parse::<u64>()`. */
module Decimal {
  import opened Wrappers
  import opened Regex

  const U64_MAX: nat := 0xFFFF_FFFF_FFFF_FFFF

  function DigitChar(n: nat): char
    requires n < 10
  {
    '0' + n as char
  }

  function DigitValue(c: char): nat
    requires IsAsciiDigit(c)
  {
    c as int - '0' as int
  }

  function Dec(n: nat): string {
    if n < 10 then [DigitChar(n)] else Dec(n / 10) + [DigitChar(n % 10)]
  }

  predicate AllAscii(d: string) {
    forall i | 0 <= i < |d| :: IsAsciiDigit(d[i])
  }

  function Value(d: string): nat
    requires AllAscii(d)
  {
    if d == [] then 0 else 10 * Value(d[..|d| - 1]) + DigitValue(d[|d| - 1])
  }

  /** `parse::<u64>()` on a run of digits: fails on non-ASCII digits and on values beyond 64 bits. */
  function ParseU64(d: string): Option<nat> {
    if d != [] && AllAscii(d) && Value(d) <= U64_MAX then Some(Value(d)) else None
  }

  lemma {:induction false} DecIsNumeral(n: nat)
    ensures Dec(n) != [] && AllAscii(Dec(n)) && AllDigits(Dec(n))
    ensures Value(Dec(n)) == n
  {
    if n >= 10 {
      DecIsNumeral(n / 10);
      assert Dec(n)[..|Dec(n)| - 1] == Dec(n / 10);
    }
  }

  function Zeros(n: nat): (z: string)
    ensures |z| == n && forall i | 0 <= i < n :: z[i] == '0'
  {
    if n == 0 then "" else Zeros(n - 1) + "0"
  }

  /** `{:0>w$}`: zeros on the left up to width `w`. */
  function PadLeft(s: string, w: nat): string {
    if |s| < w then Zeros(w - |s|) + s else s
  }

  /** `{:0<w$.w$}`: cut to `w` characters, zeros on the right up to width `w`. */
  function FitRight(s: string, w: nat): string {
    if |s| >= w then s[..w] else s + Zeros(w - |s|)
  }

  function TrimEndZeros(s: string): string {
    if s != [] && s[|s| - 1] == '0' then TrimEndZeros(s[..|s| - 1]) else s
  }

  lemma {:induction false} ValueOfZerosThen(n: nat, d: string)
    requires AllAscii(d)
    ensures AllAscii(Zeros(n) + d)
    ensures Value(Zeros(n) + d) == Value(d)
    decreases |d|, n
  {
    var s := Zeros(n) + d;
    if d != [] {
      assert s[..|s| - 1] == Zeros(n) + d[..|d| - 1];
      ValueOfZerosThen(n, d[..|d| - 1]);
    } else if n > 0 {
      assert s[..|s| - 1] == Zeros(n - 1) + d;
      ValueOfZerosThen(n - 1, d);
    }
  }

  /** Trailing zeros dropped from a `w`-wide field are what the right fill puts back. */
  lemma {:induction false} TrimThenFit(s: string)
    ensures |TrimEndZeros(s)| <= |s|
    ensures TrimEndZeros(s) == s[..|TrimEndZeros(s)|]
    ensures TrimEndZeros(s) + Zeros(|s| - |TrimEndZeros(s)|) == s
  {
    if s != [] && s[|s| - 1] == '0' {
      TrimThenFit(s[..|s| - 1]);
      var t := TrimEndZeros(s);
      assert t + Zeros(|s| - |t|) == (t + Zeros(|s| - 1 - |t|)) + "0";
    }
  }

  lemma {:induction false} LengthBelow(n: nat, w: nat)
    requires 0 < w && n < Pow10(w)
    ensures |Dec(n)| <= w
  {
    if n >= 10 {
      LengthBelow(n / 10, w - 1);
    }
  }

  function Pow10(w: nat): nat {
    if w == 0 then 1 else 10 * Pow10(w - 1)
  }

  /** A non-zero number written in a `w`-wide zero-filled field survives the trim and the refill. */
  lemma {:induction false} FieldRoundTrip(n: nat, w: nat)
    requires 0 < n < Pow10(w) && 0 < w
    ensures var f := TrimEndZeros(PadLeft(Dec(n), w));
            && AllDigits(f)
            && AllAscii(FitRight(f, w))
            && FitRight(f, w) != []
            && Value(FitRight(f, w)) == n
  {
    hide TrimEndZeros, Value, PadLeft, FitRight, Pow10;
    var p := PadLeft(Dec(n), w);
    Padded(n, w);
    FitTrimmed(p);
    TrimmedDigits(p);
  }

  /** The zero-filled field: as wide as asked, and of the same value. */
  lemma Padded(n: nat, w: nat)
    requires 0 < w && n < Pow10(w)
    ensures var p := PadLeft(Dec(n), w); |p| == w && AllAscii(p) && Value(p) == n
  {
    hide Value, Pow10, Dec;
    LengthBelow(n, w);
    DecIsNumeral(n);
    ValueOfZerosThen(w - |Dec(n)|, Dec(n));
    assert PadLeft(Dec(n), w) == Zeros(w - |Dec(n)|) + Dec(n);
  }

  lemma FitTrimmed(p: string)
    ensures FitRight(TrimEndZeros(p), |p|) == p
  {
    hide TrimEndZeros;
    TrimThenFit(p);
    assert p[..|p|] == p;
  }

  /** Something is left of a field that is not zero. */
  lemma TrimmedDigits(p: string)
    requires AllAscii(p) && Value(p) != 0
    ensures AllDigits(TrimEndZeros(p))
  {
    hide TrimEndZeros, Value;
    TrimThenFit(p);
    if TrimEndZeros(p) == [] {
      ZeroField(p);
    }
  }

  lemma ZeroField(p: string)
    requires AllAscii(p) && TrimEndZeros(p) == []
    ensures Value(p) == 0
  {
    assert Value("") == 0;
    hide TrimEndZeros, Value;
    TrimThenFit(p);
    ValueOfZerosThen(|p|, "");
    assert p == Zeros(|p|) + "";
  }
}
