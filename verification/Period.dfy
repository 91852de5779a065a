/**
  `Period`, the human-readable duration: its printer and its parser.
 */
module PeriodCodec {
  import opened Wrappers
  import opened Regex
  import opened Decimal

  const YR: nat := 31_557_600
  const WK: nat := 604_800
  const DY: nat := 86_400
  const HR: nat := 3_600
  const MN: nat := 60
  const NANOS_PER_SEC: nat := 1_000_000_000

  /** A `std::time::Duration`. */
  datatype Period = Period(secs: nat, nanos: nat) {
    predicate Valid() {
      secs <= U64_MAX && nanos < NANOS_PER_SEC
    }
  }

  // ---------------------------------------------------------------- printing

  /** One component of the printed form, left out when it is zero. */
  function Part(n: nat, u: string): string {
    if n > 0 then Dec(n) + u else ""
  }

  /** A period cut into the components that are printed. */
  datatype Split = Split(
    total: nat, years: nat, weeks: nat, days: nat, hours: nat, minutes: nat, seconds: nat, nanos: nat)

  function SplitOf(p: Period): Split {
    var y := p.secs % YR;
    var w := y % WK;
    var d := w % DY;
    var h := d % HR;
    Split(p.secs, p.secs / YR, y / WK, w / DY, d / HR, h / MN, h % MN, p.nanos)
  }

  predicate HasNanos(nanos: nat) { nanos % 1_000 > 0 }
  predicate HasMicros(nanos: nat) { nanos / 1_000 % 1_000 > 0 }
  predicate HasMillis(nanos: nat) { nanos / 1_000_000 > 0 }

  /** Seconds and sub-seconds go into one decimal fraction. */
  predicate Fractional(c: Split) {
    HasMillis(c.nanos) && (c.seconds > 0 || HasNanos(c.nanos))
  }

  function FractionDigits(nanos: nat): string {
    TrimEndZeros(PadLeft(Dec(nanos), 9))
  }

  /** Sub-seconds in the coarsest unit that loses nothing: the number and the letter of its scale. */
  function SubItem(nanos: nat): Option<(nat, char)> {
    if HasNanos(nanos) then Some((nanos, 'n'))
    else if HasMicros(nanos) then Some((nanos / 1_000, 'u'))
    else if HasMillis(nanos) then Some((nanos / 1_000_000, 'm'))
    else None
  }

  function SubText(item: Option<(nat, char)>): string {
    match item
    case None => ""
    case Some((n, v)) => Dec(n) + [v, 's']
  }

  /** What follows the minutes. */
  function SecondsText(c: Split): string {
    if Fractional(c) then Dec(c.seconds) + ("." + FractionDigits(c.nanos) + "s")
    else if c.total == 0 && c.nanos == 0 then "0s"
    else Part(c.seconds, "s") + SubText(SubItem(c.nanos))
  }

  function ShowSplit(c: Split): string {
    Part(c.years, "y") + (Part(c.weeks, "w") + (Part(c.days, "d") +
    (Part(c.hours, "h") + (Part(c.minutes, "m") + SecondsText(c)))))
  }

  function Show(p: Period): string {
    ShowSplit(SplitOf(p))
  }

  method WritePart(f: string, n: nat, u: string) returns (g: string)
    ensures g == f + Part(n, u)
  {
    g := f;
    if n > 0 { g := g + Dec(n) + u; }
  }

  /** `Display::fmt`: appends component after component to the formatter. */
  method Fmt(p: Period) returns (f: string)
    requires p.Valid()
    ensures f == Show(p)
  {
    f := WritePart("", p.secs / YR, "y");
    var ySecs := p.secs % YR;
    f := WritePart(f, ySecs / WK, "w");
    var wSecs := ySecs % WK;
    f := WritePart(f, wSecs / DY, "d");
    var dSecs := wSecs % DY;
    f := WritePart(f, dSecs / HR, "h");
    var hSecs := dSecs % HR;
    f := WritePart(f, hSecs / MN, "m");
    f := FmtSeconds(f, p, hSecs % MN);
    ghost var c := SplitOf(p);
    Reassociate(Part(c.years, "y"), Part(c.weeks, "w"), Part(c.days, "d"), Part(c.hours, "h"), Part(c.minutes, "m"),
                SecondsText(c));
  }

  lemma Reassociate(a: string, b: string, c: string, d: string, e: string, t: string)
    ensures "" + a + b + c + d + e + t == a + (b + (c + (d + (e + t))))
  {
    assert "" + a + b + c == a + (b + c);
    assert "" + a + b + c + d == a + (b + (c + d));
    assert "" + a + b + c + d + e == a + (b + (c + (d + e)));
  }

  method FmtSeconds(f0: string, p: Period, s: nat) returns (f: string)
    requires p.Valid() && s == SplitOf(p).seconds
    ensures f == f0 + SecondsText(SplitOf(p))
  {
    f := f0;
    var nsecs := p.nanos;
    var isNs := nsecs % 1_000 > 0;
    var isUs := nsecs / 1_000 % 1_000 > 0;
    var isMs := nsecs / 1_000_000 > 0;
    if isMs && (s > 0 || isNs) {
      var ss := PadLeft(Dec(nsecs), 9);
      ss := TrimEndZeros(ss);
      f := f + Dec(s) + "." + ss + "s";
      assert f == f0 + SecondsText(SplitOf(p));
    } else if nsecs > 0 || s > 0 {
      f := WritePart(f, s, "s");
      f := FmtSub(f, nsecs, isNs, isUs, isMs);
    } else if nsecs == 0 && p.secs == 0 {
      f := f + "0s";
    }
  }

  method FmtSub(f0: string, nsecs: nat, isNs: bool, isUs: bool, isMs: bool) returns (f: string)
    requires isNs == HasNanos(nsecs) && isUs == HasMicros(nsecs) && isMs == HasMillis(nsecs)
    ensures f == f0 + SubText(SubItem(nsecs))
  {
    f := f0;
    if isNs { f := f + Dec(nsecs) + "ns"; }
    else if isUs { f := f + Dec(nsecs / 1_000) + "us"; }
    else if isMs { f := f + Dec(nsecs / 1_000_000) + "ms"; }
  }

  // ---------------------------------------------------------------- the accepted language

  function Lit(c: char): Re { One(Letter(c)) }

  function Word(w: string): Re {
    if w == "" then Empty else if |w| == 1 then Lit(w[0]) else Cat(Lit(w[0]), Word(w[1..]))
  }

  const SP: Re := Many(Space, 0)

  /** `\s*` unit letter, rest of the unit's name. */
  function UnitTail(c: char, suffix: Re): Re {
    Cat(SP, Cat(Lit(c), suffix))
  }

  /** `((((prefix)?c)s?)?)?`, the long forms of year, week, day and hour. */
  function LongForm(prefix: Re, c: char): Re {
    Maybe(Maybe(Cat(Cat(Maybe(prefix), Lit(c)), Maybe(Lit('s')))))
  }

  const MINUTE_REST: Re := Maybe(Cat(Cat(Word("in"), Maybe(Word("ute"))), Maybe(Lit('s'))))
  const SECOND_REST: Re := Maybe(Cat(Cat(Word("ec"), Maybe(Word("ond"))), Maybe(Lit('s'))))

  const YEARS: Re := Item(SP, Y, UnitTail('y', LongForm(Word("ea"), 'r')))
  const WEEKS: Re := Item(SP, W, UnitTail('w', LongForm(Word("ee"), 'k')))
  const DAYS: Re := Item(SP, D, UnitTail('d', LongForm(Word("a"), 'y')))
  const HOURS: Re := Item(SP, H, UnitTail('h', LongForm(Word("ou"), 'r')))
  const MINUTES: Re := Item(SP, M, UnitTail('m', MINUTE_REST))

  const FRACTIONAL: Re := Regex.Fraction(SP, SMan, AnyOf(".,"), SFra, UnitTail('s', SECOND_REST))

  /** The pattern opens this item with `(:?`, so a colon is accepted before the seconds. */
  const COLON_SP: Re := Cat(Maybe(One(AnyOf(":"))), SP)

  function SubTail(scale: Re): Re {
    Cat(SP, Cat(scale, Cat(Lit('s'), SECOND_REST)))
  }

  const MICRO_SIGN: char := '\U{03BC}'
  const MILLI: Re := Or(Lit('m'), Word("milli"))
  const MICRO: Re := Or(Lit('u'), Or(Lit(MICRO_SIGN), Word("micro")))
  const NANO: Re := Or(Lit('n'), Word("nano"))

  const WHOLE: Re := Item(COLON_SP, S, UnitTail('s', SECOND_REST))
  const MILLIS: Re := Item(SP, Ms, SubTail(MILLI))
  const MICROS: Re := Item(SP, Us, SubTail(MICRO))
  const NANOS: Re := Item(SP, Ns, SubTail(NANO))

  const SCALED: Re := Cat(WHOLE, Cat(MILLIS, Cat(MICROS, NANOS)))

  const TO_END: Stack := Then(SP, Done)
  const FROM_SECONDS: Stack := Then(Or(FRACTIONAL, SCALED), TO_END)
  const FROM_MINUTES: Stack := Then(MINUTES, FROM_SECONDS)
  const FROM_HOURS: Stack := Then(HOURS, FROM_MINUTES)
  const FROM_DAYS: Stack := Then(DAYS, FROM_HOURS)
  const FROM_WEEKS: Stack := Then(WEEKS, FROM_DAYS)
  const PERIOD: Stack := Then(YEARS, FROM_WEEKS)

  // ---------------------------------------------------------------- parsing

  datatype PeriodError =
    | NoPeriod                     // the text is not a period specification
    | BadNumber(unit: Name)      // a captured number is not a u64
    | Overflow                     // u64 arithmetic overflow while adding up

  datatype Checked<+T> = Ok(value: T) | Err(error: PeriodError)

  /** A captured number; a group that did not take part counts as zero. */
  function Field(c: Captures, name: Name): Option<nat> {
    if name in c then ParseU64(c[name]) else Some(0)
  }

  /** `acc + scale * field`, in u64. */
  function Plus(acc: Checked<nat>, scale: nat, c: Captures, name: Name): Checked<nat> {
    match acc
    case Err(e) => Err(e)
    case Ok(a) =>
      match Field(c, name)
      case None => Err(BadNumber(name))
      case Some(n) => if a + scale * n > U64_MAX then Err(Overflow) else Ok(a + scale * n)
  }

  function TotalSeconds(c: Captures): Checked<nat> {
    Plus(Plus(Plus(Plus(Plus(Plus(Ok(0), YR, c, Y), WK, c, W), DY, c, D), HR, c, H), MN, c, M),
         1, c, if S in c then S else SMan)
  }

  function TotalNanos(c: Captures): Checked<nat> {
    var fraction := if SFra in c then ParseU64(FitRight(c[SFra], 9)) else Some(0);
    match fraction
    case None => Err(BadNumber(SFra))
    case Some(f) => Plus(Plus(Plus(Ok(f), 1_000_000, c, Ms), 1_000, c, Us), 1, c, Ns)
  }

  function FromCaptures(c: Captures): Checked<Period> {
    match TotalSeconds(c)
    case Err(e) => Err(e)
    case Ok(secs) =>
      match TotalNanos(c)
      case Err(e) => Err(e)
      case Ok(nanos) =>
        if secs + nanos / NANOS_PER_SEC > U64_MAX then Err(Overflow)
        else Ok(Period(secs + nanos / NANOS_PER_SEC, nanos % NANOS_PER_SEC))
  }

  function FromStr(text: string): (r: Checked<Period>)
    ensures r.Ok? ==> r.value.Valid()
  {
    match Exec(PERIOD, text)
    case None => Err(NoPeriod)
    case Some(c) => FromCaptures(c)
  }
}
