/**
  A backtracking matcher for the small regular expressions the repository uses.  The choices of a
  leftmost-first engine are explored in priority order: a greedy option is first taken and then
  skipped, a greedy repetition first tries its longest run.  What is left to match after the
  current expression is an explicit stack, so a choice is judged by whether the whole remaining
  pattern succeeds up to the end of the text.
 */
module Regex {

  import opened Wrappers

  /** The named groups of the period pattern. */
  datatype Name = Y | W | D | H | M | SMan | SFra | S | Ms | Us | Ns

  type Captures = map<Name, string>

  /** A class of characters.  `Letter` is a literal under the case-insensitive flag. */
  datatype CharClass = Digit | Space | Letter(c: char) | AnyOf(cs: string)

  datatype Re =
    | Empty
    | One(k: CharClass)
    | Cat(left: Re, right: Re)
    | Or(first: Re, second: Re)
    | Maybe(re: Re)
    | Many(k: CharClass, atLeast: nat)
    | Group(name: Name, re: Re)

  /** What remains to be matched; `Close` records where a named group was opened. */
  datatype Stack =
    | Done
    | Then(re: Re, k: Stack)
    | Close(name: Name, from: string, k: Stack)

  // ---------------------------------------------------------------- character classes

  predicate IsAsciiDigit(c: char) {
    '0' <= c <= '9'
  }

  /** First code points of the non-ASCII runs of ten decimal digits (Unicode class Nd). */
  const DIGIT_RUNS: seq<int> := [
    0x660, 0x6F0, 0x7C0, 0x966, 0x9E6, 0xA66, 0xAE6, 0xB66, 0xBE6, 0xC66, 0xCE6, 0xD66, 0xDE6, 0xE50,
    0xED0, 0xF20, 0x1040, 0x1090, 0x17E0, 0x1810, 0x1946, 0x19D0, 0x1A80, 0x1A90, 0x1B50, 0x1BB0,
    0x1C40, 0x1C50, 0xA620, 0xA8D0, 0xA900, 0xA9D0, 0xA9F0, 0xAA50, 0xABF0, 0xFF10, 0x104A0, 0x11066,
    0x110F0, 0x11136, 0x111D0, 0x112F0, 0x11450, 0x114D0, 0x11650, 0x116C0, 0x11730, 0x118E0, 0x11C50,
    0x11D50, 0x11DA0, 0x16A60, 0x16B50, 0x1D7CE, 0x1D7D8, 0x1D7E2, 0x1D7EC, 0x1D7F6, 0x1E950]

  predicate IsDigit(c: char) {
    || IsAsciiDigit(c)
    || (c as int >= 0x660 && exists i | 0 <= i < |DIGIT_RUNS| :: DIGIT_RUNS[i] <= c as int < DIGIT_RUNS[i] + 10)
  }

  /** Unicode class White_Space. */
  predicate IsSpace(c: char) {
    var n := c as int;
    || 0x09 <= n <= 0x0D || n == 0x20 || n == 0x85 || n == 0xA0 || n == 0x1680
    || 0x2000 <= n <= 0x200A || n == 0x2028 || n == 0x2029 || n == 0x202F || n == 0x205F || n == 0x3000
  }

  /** Case-insensitive equality with a lower-case literal, including its Unicode folding partners. */
  predicate SameLetter(lit: char, c: char) {
    || c == lit
    || ('a' <= lit <= 'z' && c as int == lit as int - 32)
    || (lit == 's' && c as int == 0x17F)
    || (lit == 'k' && c as int == 0x212A)
    || (lit as int == 0x3BC && c as int in {0xB5, 0x39C})
  }

  predicate In(k: CharClass, c: char) {
    match k
    case Digit => IsDigit(c)
    case Space => IsSpace(c)
    case Letter(lit) => SameLetter(lit, c)
    case AnyOf(cs) => c in cs
  }

  /** The first character of `s` exists and belongs to `k`. */
  predicate HeadIn(k: CharClass, s: string) {
    s != [] && In(k, s[0])
  }

  // ---------------------------------------------------------------- the matcher

  function Size(re: Re): nat {
    match re
    case Cat(a, b) => 1 + Size(a) + Size(b)
    case Or(a, b) => 1 + Size(a) + Size(b)
    case Maybe(a) => 1 + Size(a)
    case Group(_, a) => 2 + Size(a)
    case _ => 1
  }

  function Weight(k: Stack): nat {
    match k
    case Done => 0
    case Then(re, k') => Size(re) + Weight(k')
    case Close(_, _, k') => 1 + Weight(k')
  }

  /** Length of the longest run of `k` characters at the head of `s`. */
  function RunLength(k: CharClass, s: string): (n: nat)
    ensures n <= |s|
    ensures forall i | 0 <= i < n :: In(k, s[i])
    ensures n < |s| ==> !In(k, s[n])
  {
    if HeadIn(k, s) then
      var n := RunLength(k, s[1..]);
      assert forall i | 0 < i < n + 1 :: s[i] == s[1..][i - 1];
      n + 1
    else 0
  }

  function Consumed(from: string, s: string): string {
    if |s| <= |from| then from[..|from| - |s|] else ""
  }

  /** The captures of the preferred way to match all of `s`, if there is one. */
  function Exec(k: Stack, s: string): Option<Captures>
    decreases Weight(k), 0, |s|
  {
    match k
    case Done => if s == [] then Some(map[]) else None
    case Close(name, from, k') =>
      (match Exec(k', s)
       case None => None
       case Some(c) => Some(c[name := Consumed(from, s)]))
    case Then(re, k') =>
      (match re
       case Empty => Exec(k', s)
       case One(c) => if HeadIn(c, s) then Exec(k', s[1..]) else None
       case Cat(a, b) =>
         assert Weight(Then(b, k')) == Size(b) + Weight(k');
         Exec(Then(a, Then(b, k')), s)
       case Or(a, b) =>
         var r := Exec(Then(a, k'), s);
         if r.Some? then r else Exec(Then(b, k'), s)
       case Maybe(a) =>
         var r := Exec(Then(a, k'), s);
         if r.Some? then r else Exec(k', s)
       case Many(c, atLeast) => ExecRuns(k', s, RunLength(c, s), atLeast)
       case Group(name, a) =>
         assert Weight(Close(name, s, k')) == 1 + Weight(k');
         Exec(Then(a, Close(name, s, k')), s))
  }

  /** Continues after dropping `n` characters, then `n - 1`, down to `atLeast`. */
  function ExecRuns(k: Stack, s: string, n: nat, atLeast: nat): Option<Captures>
    requires n <= |s|
    decreases Weight(k), 1, n
  {
    if n < atLeast then None
    else
      var r := Exec(k, s[n..]);
      if r.Some? || n == 0 then r else ExecRuns(k, s, n - 1, atLeast)
  }

  // ---------------------------------------------------------------- reasoning by the next character

  /** The next character already rules `re` out. */
  predicate Stuck(re: Re, s: string) {
    match re
    case Empty => false
    case One(c) => !HeadIn(c, s)
    case Cat(a, b) => Stuck(a, s) || (Passes(a, s) && Stuck(b, s))
    case Or(a, b) => Stuck(a, s) && Stuck(b, s)
    case Maybe(a) => false
    case Many(c, atLeast) => atLeast > 0 && !HeadIn(c, s)
    case Group(_, a) => Stuck(a, s)
  }

  /** The next character leaves `re` only the empty match. */
  predicate Passes(re: Re, s: string) {
    match re
    case Empty => true
    case Cat(a, b) => Passes(a, s) && Passes(b, s)
    case Maybe(a) => Stuck(a, s) || Passes(a, s)
    case Many(c, atLeast) => atLeast == 0 && !HeadIn(c, s)
    case _ => false
  }

  lemma {:induction false} StuckFails(re: Re, k: Stack, s: string)
    requires Stuck(re, s)
    ensures Exec(Then(re, k), s).None?
    decreases re
  {
    match re
    case Cat(a, b) =>
      if Stuck(a, s) {
        StuckFails(a, Then(b, k), s);
      } else {
        PassesSkips(a, Then(b, k), s);
        StuckFails(b, k, s);
      }
    case Or(a, b) =>
      StuckFails(a, k, s);
      StuckFails(b, k, s);
    case Group(name, a) => StuckFails(a, Close(name, s, k), s);
    case _ =>
  }

  lemma {:induction false} PassesSkips(re: Re, k: Stack, s: string)
    requires Passes(re, s)
    ensures Exec(Then(re, k), s) == Exec(k, s)
    decreases re
  {
    match re
    case Cat(a, b) =>
      PassesSkips(a, Then(b, k), s);
      PassesSkips(b, k, s);
    case Maybe(a) =>
      if Stuck(a, s) {
        StuckFails(a, k, s);
      } else {
        PassesSkips(a, k, s);
      }
    case Many(c, _) =>
      assert RunLength(c, s) == 0;
      assert s[0..] == s;
    case _ =>
  }

  /** A run that must be taken whole: no continuation can start inside it. */
  lemma {:induction false} RunTakenWhole(c: CharClass, atLeast: nat, k: Stack, run: string, t: string)
    requires forall i | 0 <= i < |run| :: In(c, run[i])
    requires !HeadIn(c, t)
    requires atLeast <= |run|
    requires forall u | u != [] && u[0] in run :: Exec(k, u).None?
    ensures Exec(Then(Many(c, atLeast), k), run + t) == Exec(k, t)
  {
    var s := run + t;
    RunLengthOf(c, run, t);
    assert s[|run|..] == t;
    if Exec(k, t).None? && |run| > 0 {
      NoShorterRun(k, run, t, |run| - 1, atLeast);
    }
  }

  lemma {:induction false} RunLengthOf(c: CharClass, run: string, t: string)
    requires forall i | 0 <= i < |run| :: In(c, run[i])
    requires !HeadIn(c, t)
    ensures RunLength(c, run + t) == |run|
  {
    var s := run + t;
    assert forall i | 0 <= i < |run| :: s[i] == run[i];
    assert |run| < |s| ==> s[|run|] == t[0];
  }

  lemma {:induction false} NoShorterRun(k: Stack, run: string, t: string, n: nat, atLeast: nat)
    requires n < |run|
    requires forall u | u != [] && u[0] in run :: Exec(k, u).None?
    ensures ExecRuns(k, run + t, n, atLeast).None?
    decreases n
  {
    assert (run + t)[n..][0] == run[n];
    if n > 0 {
      NoShorterRun(k, run, t, n - 1, atLeast);
    }
  }

  // ---------------------------------------------------------------- an optional "number unit" item

  /** `(?: lead (?P<name> \d+ ) tail )?`, the shape of every component of a period. */
  function Item(lead: Re, name: Name, tail: Re): Re {
    Maybe(Cat(lead, Cat(Group(name, Many(Digit, 1)), tail)))
  }

  /** No number can be followed by another digit before its unit. */
  ghost predicate TailNeedsUnit(tail: Re) {
    forall u | u != [] && IsAsciiDigit(u[0]) :: Stuck(tail, u)
  }

  predicate AllDigits(d: string) {
    d != [] && forall i | 0 <= i < |d| :: IsAsciiDigit(d[i])
  }

  lemma {:induction false} NumberThenTail(name: Name, tail: Re, k: Stack, d: string, m: string)
    requires AllDigits(d) && !HeadIn(Digit, m) && TailNeedsUnit(tail)
    ensures Exec(Then(Group(name, Many(Digit, 1)), Then(tail, k)), d + m) ==
            (match Exec(Then(tail, k), m)
             case None => None
             case Some(c) => Some(c[name := d]))
  {
    var s := d + m;
    var k' := Close(name, s, Then(tail, k));
    forall u | u != [] && u[0] in d
      ensures Exec(k', u).None?
    {
      StuckFails(tail, k, u);
    }
    RunTakenWhole(Digit, 1, k', d, m);
    assert Consumed(s, m) == d;
  }

  lemma {:induction false} ItemTaken(lead: Re, name: Name, tail: Re, k: Stack, d: string, m: string, t: string)
    requires AllDigits(d) && !HeadIn(Digit, m + t) && TailNeedsUnit(tail)
    requires Passes(lead, d + m + t)
    requires Exec(Then(tail, k), m + t) == Exec(k, t)
    requires Exec(k, t).Some?
    ensures Exec(Then(Item(lead, name, tail), k), d + m + t) == Some(Exec(k, t).value[name := d])
  {
    var number := Group(name, Many(Digit, 1));
    assert d + m + t == d + (m + t);
    PassesSkips(lead, Then(Cat(number, tail), k), d + m + t);
    NumberThenTail(name, tail, k, d, m + t);
  }

  lemma {:induction false} ItemSkipped(lead: Re, name: Name, tail: Re, k: Stack, d: string, m: string)
    requires AllDigits(d) && !HeadIn(Digit, m) && TailNeedsUnit(tail)
    requires Passes(lead, d + m)
    requires Exec(Then(tail, k), m).None?
    ensures Exec(Then(Item(lead, name, tail), k), d + m) == Exec(k, d + m)
  {
    var number := Group(name, Many(Digit, 1));
    PassesSkips(lead, Then(Cat(number, tail), k), d + m);
    NumberThenTail(name, tail, k, d, m);
  }

  lemma ItemPasses(lead: Re, name: Name, tail: Re, s: string)
    requires Passes(lead, s) && !HeadIn(Digit, s)
    ensures Passes(Item(lead, name, tail), s)
  {
    var number := Group(name, Many(Digit, 1));
    assert Stuck(number, s);
    assert Stuck(Cat(number, tail), s);
    assert Stuck(Cat(lead, Cat(number, tail)), s);
  }

  // ---------------------------------------------------------------- an optional "number separator number" item

  /** `(?: lead (?P<man> \d+ )? sep (?P<fra> \d+ ) tail )?` */
  function Fraction(lead: Re, man: Name, sep: CharClass, fra: Name, tail: Re): Re {
    Maybe(Cat(lead, Cat(Maybe(Group(man, Many(Digit, 1))), FractionRest(sep, fra, tail))))
  }

  function FractionRest(sep: CharClass, fra: Name, tail: Re): Re {
    Cat(One(sep), Cat(Group(fra, Many(Digit, 1)), tail))
  }

  ghost predicate NoDigit(sep: CharClass) {
    forall c | IsAsciiDigit(c) :: !In(sep, c)
  }

  lemma {:induction false} FractionTaken(
    lead: Re, man: Name, sep: CharClass, fra: Name, tail: Re, k: Stack, d: string, x: char, f: string, m: string)
    requires AllDigits(d) && AllDigits(f) && NoDigit(sep) && TailNeedsUnit(tail)
    requires In(sep, x) && !IsDigit(x) && !HeadIn(Digit, m)
    requires Passes(lead, d + ([x] + f + m))
    requires Exec(Then(tail, k), m).Some?
    ensures Exec(Then(Fraction(lead, man, sep, fra, tail), k), d + ([x] + f + m)) ==
            Some(Exec(Then(tail, k), m).value[fra := f][man := d])
  {
    var rest := FractionRest(sep, fra, tail);
    var number := Group(man, Many(Digit, 1));
    var t := [x] + f + m;
    assert t[0] == x && t[1..] == f + m;
    NumberThenTail(fra, tail, k, f, m);
    var inner := Cat(Group(fra, Many(Digit, 1)), tail);
    assert Exec(Then(One(sep), Then(inner, k)), t) == Exec(Then(inner, k), f + m);
    assert Exec(Then(rest, k), t) == Some(Exec(Then(tail, k), m).value[fra := f]);
    NumberThenTail(man, rest, k, d, t);
    PassesSkips(lead, Then(Cat(Maybe(number), rest), k), d + t);
  }

  lemma {:induction false} FractionRefused(
    lead: Re, man: Name, sep: CharClass, fra: Name, tail: Re, k: Stack, d: string, m: string)
    requires AllDigits(d) && NoDigit(sep) && !HeadIn(Digit, m) && !HeadIn(sep, m)
    requires Passes(lead, d + m)
    ensures Exec(Then(Fraction(lead, man, sep, fra, tail), k), d + m) == Exec(k, d + m)
  {
    var rest := FractionRest(sep, fra, tail);
    var number := Group(man, Many(Digit, 1));
    assert TailNeedsUnit(rest);
    StuckFails(rest, k, m);
    assert (d + m)[0] == d[0];
    StuckFails(rest, k, d + m);
    NumberThenTail(man, rest, k, d, m);
    PassesSkips(lead, Then(Cat(Maybe(number), rest), k), d + m);
  }

  lemma FractionPasses(lead: Re, man: Name, sep: CharClass, fra: Name, tail: Re, s: string)
    requires Passes(lead, s) && !HeadIn(Digit, s) && !HeadIn(sep, s)
    ensures Passes(Fraction(lead, man, sep, fra, tail), s)
  {
    var rest := FractionRest(sep, fra, tail);
    var number := Group(man, Many(Digit, 1));
    assert Stuck(rest, s) && Stuck(number, s);
    assert Passes(Maybe(number), s);
    assert Stuck(Cat(Maybe(number), rest), s);
    assert Stuck(Cat(lead, Cat(Maybe(number), rest)), s);
  }
}
