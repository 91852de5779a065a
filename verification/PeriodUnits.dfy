/** Where the accepted texts differ from the list in the documentation: sub-second letters and the colon. */
module PeriodUnits {
  import opened Wrappers
  import opened Regex
  import opened Decimal
  import opened PeriodCodec
  import opened PeriodRoundTrip

  /** `s((ec(ond)?)s?)?`, which has to follow the letter of a sub-second unit. */
  const SECOND_MARK: Re := Cat(Lit('s'), SECOND_REST)

  function Tagged(c: Option<Captures>, name: Name, d: string): Option<Captures> {
    match c
    case None => None
    case Some(captures) => Some(captures[name := d])
  }

  /** The first character of `m` is a letter that no unit above the second starts with. */
  predicate SubSecondLetter(m: string) {
    m != [] && m[0] in ['u', 'n', MICRO_SIGN]
  }

  lemma LetterFacts(d: string, m: string)
    requires AllDigits(d) && SubSecondLetter(m)
    ensures (d + m)[0] == d[0] && Passes(SP, d + m) && Passes(COLON_SP, d + m)
    ensures !HeadIn(Regex.Digit, m) && !HeadIn(Space, m) && !HeadIn(AnyOf(".,"), m)
    ensures forall u | u in "ywdhms" :: !HeadIn(Letter(u), m)
  {
    ColonPasses(d + m);
  }

  /** None of the units down to the minute takes the number. */
  lemma {:induction false} SkipsToSeconds(d: string, m: string)
    requires AllDigits(d) && SubSecondLetter(m)
    ensures Exec(PERIOD, d + m) == Exec(FROM_SECONDS, d + m)
  {
    LetterFacts(d, m);
    hide Exec, Passes, Stuck, SubSecondLetter;
    UnitItemSkipped(SP, Y, 'y', LongForm(Word("ea"), 'r'), FROM_WEEKS, d, m);
    UnitItemSkipped(SP, W, 'w', LongForm(Word("ee"), 'k'), FROM_DAYS, d, m);
    UnitItemSkipped(SP, D, 'd', LongForm(Word("a"), 'y'), FROM_HOURS, d, m);
    UnitItemSkipped(SP, H, 'h', LongForm(Word("ou"), 'r'), FROM_MINUTES, d, m);
    UnitItemSkipped(SP, M, 'm', MINUTE_REST, FROM_SECONDS, d, m);
  }

  /** Neither do fractional or whole seconds. */
  lemma {:induction false} SkipsWhole(d: string, m: string)
    requires AllDigits(d) && SubSecondLetter(m)
    ensures Exec(FROM_SECONDS, d + m) == Exec(AFTER_WHOLE, d + m)
    ensures Exec(TO_END, d + m).None?
  {
    LetterFacts(d, m);
    NotAtEnd(d + m);
    hide Exec, Passes, Stuck, SubSecondLetter;
    FractionRefused(SP, SMan, AnyOf(".,"), SFra, UnitTail('s', SECOND_REST), TO_END, d, m);
    OrSecond(FRACTIONAL, SCALED, TO_END, d + m);
    CatSplits(WHOLE, Cat(MILLIS, Cat(MICROS, NANOS)), TO_END, d + m);
    UnitItemSkipped(COLON_SP, S, 's', SECOND_REST, AFTER_WHOLE, d, m);
  }

  /** An item takes the number if the rest can be matched then, and is skipped otherwise. */
  lemma {:induction false} ItemOutcome(name: Name, tail: Re, k: Stack, d: string, m: string)
    requires AllDigits(d) && !HeadIn(Regex.Digit, m) && TailNeedsUnit(tail) && Passes(SP, d + m)
    ensures Exec(Then(Item(SP, name, tail), k), d + m) ==
            var taken := Exec(Then(tail, k), m); if taken.Some? then Tagged(taken, name, d) else Exec(k, d + m)
  {
    var number := Group(name, Many(Regex.Digit, 1));
    PassesSkips(SP, Then(Cat(number, tail), k), d + m);
    NumberThenTail(name, tail, k, d, m);
  }

  lemma ScaleSkipped(scale: Re, u: char, name: Name, k: Stack, d: string, m: string)
    requires ScaleOf(scale, u) && AllDigits(d) && SubSecondLetter(m) && Stuck(scale, m)
    ensures Exec(Then(Item(SP, name, SubTail(scale)), k), d + m) == Exec(k, d + m)
  {
    LetterFacts(d, m);
    SubTailNeedsUnit(scale, u);
    SubTailStuck(scale, u, m);
    StuckFails(SubTail(scale), k, m);
    ItemOutcome(name, SubTail(scale), k, d, m);
  }

  /** A unit mark of one letter or one word is no way past another letter. */
  lemma LetterOrWordStuck(u: char, w: string, m: string)
    requires w != [] && w[0] == u && !HeadIn(Letter(u), m)
    ensures Stuck(Or(Lit(u), Word(w)), m)
  {
    WordStuck(w, m);
    hide Word;
  }

  lemma MilliStuck(m: string)
    requires SubSecondLetter(m)
    ensures Stuck(MILLI, m) && (m[0] == 'n' ==> Stuck(MICRO, m)) && (m[0] != 'n' ==> Stuck(NANO, m))
  {
    hide Stuck, Word;
    LetterOrWordStuck('m', "milli", m);
    if m[0] == 'n' {
      MicroStuck(m);
    } else {
      LetterOrWordStuck('n', "nano", m);
    }
  }

  lemma MicroStuck(m: string)
    requires m != [] && m[0] == 'n'
    ensures Stuck(MICRO, m)
  {
    WordStuck("micro", m);
    hide Word;
    assert Stuck(Or(Lit(MICRO_SIGN), Word("micro")), m);
  }

  /** After the letter of microseconds only the mark of the second can follow. */
  lemma {:induction false} MicroTail(u: char, k: Stack, t: string)
    requires u in ['u', MICRO_SIGN]
    ensures Exec(Then(SubTail(MICRO), k), [u] + t) == Exec(Then(SECOND_MARK, k), t)
  {
    var s, after := [u] + t, Then(SECOND_MARK, k);
    assert s[0] == u && s[1..] == t;
    assert Passes(SP, s);
    PassesSkips(SP, Then(Cat(MICRO, SECOND_MARK), k), s);
    WordStuck("micro", s);
    StuckFails(Word("micro"), after, s);
    CatSplits(MICRO, SECOND_MARK, k, s);
    var others := Or(Lit(MICRO_SIGN), Word("micro"));
    if u == 'u' {
      assert Exec(Then(Lit('u'), after), s) == Exec(after, t);
      assert Exec(Then(Lit(MICRO_SIGN), after), s).None?;
      assert Exec(Then(others, after), s).None?;
    } else {
      assert Exec(Then(Lit('u'), after), s).None?;
      assert Exec(Then(Lit(MICRO_SIGN), after), s) == Exec(after, t);
      assert Exec(Then(others, after), s) == Exec(after, t);
    }
  }

  /** After an `n` it is the mark of the second, or the rest of `nano` and then the mark. */
  lemma {:induction false} NanoTail(k: Stack, t: string)
    ensures Exec(Then(SubTail(NANO), k), "n" + t) ==
            var short := Exec(Then(SECOND_MARK, k), t);
            if short.Some? then short else Exec(Then(Word("ano"), Then(SECOND_MARK, k)), t)
  {
    var s, after := "n" + t, Then(SECOND_MARK, k);
    assert s[0] == 'n' && s[1..] == t;
    assert Passes(SP, s);
    PassesSkips(SP, Then(Cat(NANO, SECOND_MARK), k), s);
    CatSplits(NANO, SECOND_MARK, k, s);
    assert "nano"[1..] == "ano";
    assert Exec(Then(Word("nano"), after), s) == Exec(Then(Word("ano"), after), t);
  }

  /** A number with `u` or the micro sign: exactly the continuations with the mark of the second are accepted. */
  lemma {:induction false} MicroContinuation(d: string, u: char, t: string)
    requires AllDigits(d) && u in ['u', MICRO_SIGN]
    ensures Exec(PERIOD, d + ([u] + t)) == Tagged(Exec(Then(SECOND_MARK, AFTER_MICROS), t), Us, d)
  {
    var m := [u] + t;
    LetterFacts(d, m);
    SkipsToSeconds(d, m);
    SkipsWhole(d, m);
    MilliStuck(m);
    hide Exec, Passes, Stuck;
    CatSplits(MILLIS, Cat(MICROS, NANOS), TO_END, d + m);
    ScaleSkipped(MILLI, 'm', Ms, AFTER_MILLIS, d, m);
    CatSplits(MICROS, NANOS, TO_END, d + m);
    SubTailNeedsUnit(MICRO, 'u');
    ItemOutcome(Us, SubTail(MICRO), AFTER_MICROS, d, m);
    MicroTail(u, AFTER_MICROS, t);
    ScaleSkipped(NANO, 'n', Ns, TO_END, d, m);
  }

  /** A number with `n`: the mark of the second, possibly after the rest of `nano`. */
  lemma {:induction false} NanoContinuation(d: string, t: string)
    requires AllDigits(d)
    ensures Exec(PERIOD, d + ("n" + t)) ==
            var short := Exec(Then(SECOND_MARK, TO_END), t);
            Tagged(if short.Some? then short else Exec(Then(Word("ano"), Then(SECOND_MARK, TO_END)), t), Ns, d)
  {
    var m := "n" + t;
    LetterFacts(d, m);
    SkipsToSeconds(d, m);
    SkipsWhole(d, m);
    MilliStuck(m);
    hide Exec, Passes, Stuck;
    CatSplits(MILLIS, Cat(MICROS, NANOS), TO_END, d + m);
    ScaleSkipped(MILLI, 'm', Ms, AFTER_MILLIS, d, m);
    CatSplits(MICROS, NANOS, TO_END, d + m);
    ScaleSkipped(MICRO, 'u', Us, AFTER_MICROS, d, m);
    SubTailNeedsUnit(NANO, 'n');
    ItemOutcome(Ns, SubTail(NANO), TO_END, d, m);
    NanoTail(TO_END, t);
  }

  /** The letters alone, which the documentation lists, are refused; so is anything but an `s` after `u`. */
  lemma {:induction false} BareLettersRefused(d: string, u: char, t: string)
    requires AllDigits(d) && u in ['u', 'n', MICRO_SIGN] && !HeadIn(Letter('s'), t)
    requires u == 'n' ==> !HeadIn(Letter('a'), t)
    ensures FromStr(d + ([u] + t)) == Err(NoPeriod)
  {
    assert Stuck(SECOND_MARK, t);
    if u == 'n' {
      NanoContinuation(d, t);
      StuckFails(SECOND_MARK, TO_END, t);
      WordStuck("ano", t);
      StuckFails(Word("ano"), Then(SECOND_MARK, TO_END), t);
      assert [u] + t == "n" + t;
    } else {
      MicroContinuation(d, u, t);
      StuckFails(SECOND_MARK, AFTER_MICROS, t);
    }
  }

  // ---------------------------------------------------------------- a colon before the seconds

  lemma ColonFacts(s: string)
    requires s != [] && s[0] == ':'
    ensures Passes(SP, s) && !HeadIn(Regex.Digit, s) && !HeadIn(AnyOf(".,"), s) && !IsSpace(s[0])
  {
  }

  lemma {:induction false} ColonSkipped(name: Name, tail: Re, k: Stack, s: string)
    requires s != [] && s[0] == ':'
    ensures Exec(Then(Item(SP, name, tail), k), s) == Exec(k, s)
  {
    ColonFacts(s);
    ItemPasses(SP, name, tail, s);
    PassesSkips(Item(SP, name, tail), k, s);
  }

  lemma {:induction false} ColonToSeconds(s: string)
    requires s != [] && s[0] == ':'
    ensures Exec(FROM_SECONDS, s) == Exec(Then(WHOLE, AFTER_WHOLE), s)
  {
    ColonFacts(s);
    NotAtEnd(s);
    FractionPasses(SP, SMan, AnyOf(".,"), SFra, UnitTail('s', SECOND_REST), s);
    hide Exec, Passes, Stuck;
    PassesSkips(FRACTIONAL, TO_END, s);
    OrSecond(FRACTIONAL, SCALED, TO_END, s);
    CatSplits(WHOLE, Cat(MILLIS, Cat(MICROS, NANOS)), TO_END, s);
  }

  /** The seconds item drops a leading colon. */
  lemma {:induction false} ColonTaken(name: Name, tail: Re, k: Stack, s: string)
    requires Passes(COLON_SP, s) && Exec(Then(Cat(Group(name, Many(Regex.Digit, 1)), tail), k), s).Some?
    ensures Exec(Then(Item(COLON_SP, name, tail), k), ":" + s) == Exec(Then(Item(COLON_SP, name, tail), k), s)
  {
    var body, c := Cat(Group(name, Many(Regex.Digit, 1)), tail), ":" + s;
    var rest := Then(body, k);
    assert c[0] == ':' && c[1..] == s;
    PassesSkips(COLON_SP, rest, s);
    PassesSkips(SP, rest, s);
    assert Exec(Then(Cat(COLON_SP, body), k), s) == Exec(rest, s);
    assert Exec(Then(One(AnyOf(":")), Then(SP, rest)), c) == Exec(rest, s);
    assert Exec(Then(Maybe(One(AnyOf(":"))), Then(SP, rest)), c) == Exec(rest, s);
    assert Exec(Then(COLON_SP, rest), c) == Exec(rest, s);
    assert Exec(Then(Cat(COLON_SP, body), k), c) == Exec(rest, s);
  }

  /** A colon before whole seconds makes no difference to the rest of the pattern. */
  lemma {:induction false} ColonSeconds(d: string, t: string)
    requires AllDigits(d) && Begins(t, "mun") && Exec(AFTER_WHOLE, t).Some?
    ensures Exec(FROM_SECONDS, ":" + (d + "s" + t)) == Some(Exec(AFTER_WHOLE, t).value[S := d])
    ensures Exec(FROM_SECONDS, d + "s" + t) == Some(Exec(AFTER_WHOLE, t).value[S := d])
  {
    var s, tail := d + "s" + t, UnitTail('s', SECOND_REST);
    WholeMatched(d, t);
    BeginsHead(t, "mun");
    RestsPass(t);
    assert s == d + ("s" + t) && s[0] == d[0] && ("s" + t)[0] == 's' && "s" + t == ['s'] + t;
    ColonPasses(s);
    ColonToSeconds(":" + s);
    UnitItemTaken(COLON_SP, S, 's', SECOND_REST, AFTER_WHOLE, d, t);
    UnitTailNeedsUnit('s', SECOND_REST);
    UnitTailTaken('s', SECOND_REST, AFTER_WHOLE, t);
    NumberThenTail(S, tail, AFTER_WHOLE, d, "s" + t);
    CatSplits(Group(S, Many(Regex.Digit, 1)), tail, AFTER_WHOLE, s);
    hide Exec, Stuck, Passes;
    ColonTaken(S, tail, AFTER_WHOLE, s);
  }

  /** `t` starts with a colon, or with a number followed by one of the characters in `marks`. */
  ghost predicate Leads(t: string, marks: string) {
    Begins(t, marks) || (t != [] && t[0] == ':')
  }

  lemma {:induction false} ColonPart(name: Name, u: char, suffix: Re, k: Stack, n: nat, t: string, marks: string)
    requires LowerCase(u) && Leads(t, marks) && Passes(suffix, t) && Exec(k, t).Some?
    requires forall c | c in marks :: !IsDigit(c) && !IsSpace(c) && !SameLetter(u, c)
    ensures Exec(Then(Item(SP, name, UnitTail(u, suffix)), k), Part(n, [u]) + t) ==
            Some(With(Exec(k, t).value, name, n))
    ensures Leads(Part(n, [u]) + t, [u] + marks)
  {
    hide Exec, Passes, Begins;
    if Begins(t, marks) {
      PartMatched(name, u, suffix, k, n, t, marks);
    } else if n == 0 {
      assert Part(n, [u]) + t == t;
      ColonSkipped(name, UnitTail(u, suffix), k, t);
    } else {
      NumberPasses(n, [u] + t);
      DecIsNumeral(n);
      assert Part(n, [u]) + t == Dec(n) + [u] + t == Dec(n) + ([u] + t);
      UnitItemTaken(SP, name, u, suffix, k, Dec(n), t);
      BeginsWith(Dec(n), [u] + t, [u] + marks);
    }
  }

  lemma NumberPasses(n: nat, m: string)
    ensures Passes(SP, Dec(n) + m)
  {
    DecIsNumeral(n);
    assert (Dec(n) + m)[0] == Dec(n)[0];
  }

  lemma LeadsHead(t: string, marks: string)
    requires Leads(t, marks)
    ensures forall c: char | LowerCase(c) :: !HeadIn(Letter(c), t)
  {
    if Begins(t, marks) {
      BeginsHead(t, marks);
    }
  }

  lemma LongFormAbsent(prefix: string, last: char, t: string)
    requires prefix != [] && LowerCase(prefix[0]) && LowerCase(last)
    requires forall c: char | LowerCase(c) :: !HeadIn(Letter(c), t)
    ensures Passes(LongForm(Word(prefix), last), t)
  {
    assert !HeadIn(Letter(prefix[0]), t) && !HeadIn(Letter(last), t) && !HeadIn(Letter('s'), t);
    WordStuck(prefix, t);
    hide Word, LowerCase;
    assert Passes(Maybe(Word(prefix)), t) && Stuck(Lit(last), t);
    assert Stuck(Cat(Maybe(Word(prefix)), Lit(last)), t);
    assert Stuck(Cat(Cat(Maybe(Word(prefix)), Lit(last)), Maybe(Lit('s'))), t);
  }

  lemma {:induction false} ColonLongPart(
    name: Name, u: char, prefix: string, last: char, k: Stack, n: nat, t: string, marks: string)
    requires LowerCase(u) && LowerCase(last) && prefix != [] && LowerCase(prefix[0])
    requires Leads(t, marks) && Exec(k, t).Some?
    requires forall x | x in marks :: !IsDigit(x) && !IsSpace(x) && !SameLetter(u, x)
    ensures Exec(Then(Item(SP, name, UnitTail(u, LongForm(Word(prefix), last))), k), Part(n, [u]) + t) ==
            Some(With(Exec(k, t).value, name, n))
    ensures Leads(Part(n, [u]) + t, [u] + marks)
  {
    hide Exec, Passes, Leads;
    LeadsHead(t, marks);
    LongFormAbsent(prefix, last, t);
    ColonPart(name, u, LongForm(Word(prefix), last), k, n, t, marks);
  }

  /** Years to hours before a text that starts with a colon or with minutes. */
  lemma {:induction false} ColonLongParts(k: Stack, y: nat, w: nat, d: nat, h: nat, t: string)
    requires Leads(t, "m") && Exec(k, t).Some?
    ensures Exec(Then(YEARS, Then(WEEKS, Then(DAYS, Then(HOURS, k)))),
                 Part(y, "y") + (Part(w, "w") + (Part(d, "d") + (Part(h, "h") + t)))) ==
            Some(With(With(With(With(Exec(k, t).value, H, h), D, d), W, w), Y, y))
  {
    hide Exec, Leads, Part, With;
    assert ['h'] + "m" == "hm" && ['d'] + "hm" == "dhm" && ['w'] + "dhm" == "wdhm";
    ColonLongPart(H, 'h', "ou", 'r', k, h, t, "m");
    var kh, th := Then(HOURS, k), Part(h, "h") + t;
    ColonLongPart(D, 'd', "a", 'y', kh, d, th, "hm");
    var kd, td := Then(DAYS, kh), Part(d, "d") + th;
    ColonLongPart(W, 'w', "ee", 'k', kd, w, td, "dhm");
    ColonLongPart(Y, 'y', "ea", 'r', Then(WEEKS, kd), y, Part(w, "w") + td, "wdhm");
  }

  lemma {:induction false} ColonMinutes(m: nat, secs: string, t: string)
    requires AllDigits(secs) && Begins(t, "mun") && Exec(AFTER_WHOLE, t).Some?
    ensures var s := ":" + (secs + "s" + t);
            && Leads(Part(m, "m") + s, "m")
            && Exec(FROM_MINUTES, Part(m, "m") + s) == Some(With(Exec(AFTER_WHOLE, t).value[S := secs], M, m))
  {
    var s := ":" + (secs + "s" + t);
    assert s[0] == ':';
    LeadsHead(s, "");
    assert !HeadIn(Letter('i'), s) && !HeadIn(Letter('e'), s);
    hide Exec, Passes, Part, With, Begins;
    ColonSeconds(secs, t);
    RestsPass(s);
    ColonPart(M, 'm', MINUTE_REST, FROM_SECONDS, m, s, "");
  }

  /**
    A colon before whole seconds, whatever larger units come before it, is taken: the captures are those
    of the components.
   */
  lemma {:induction false} ColonAccepted(y: nat, w: nat, d: nat, h: nat, m: nat, secs: string, t: string)
    requires AllDigits(secs) && Begins(t, "mun") && Exec(AFTER_WHOLE, t).Some?
    ensures Exec(PERIOD, Part(y, "y") + (Part(w, "w") + (Part(d, "d") + (Part(h, "h") + (Part(m, "m") +
                         (":" + (secs + "s" + t))))))) ==
            Some(With(With(With(With(With(Exec(AFTER_WHOLE, t).value[S := secs], M, m), H, h), D, d), W, w), Y, y))
  {
    hide Exec, Leads, Part, With;
    ColonMinutes(m, secs, t);
    ColonLongParts(FROM_MINUTES, y, w, d, h, Part(m, "m") + (":" + (secs + "s" + t)));
  }
}
