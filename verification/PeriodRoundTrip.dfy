/** The parser reads back every printed period, component by component and to the nanosecond. */
module PeriodRoundTrip {
  import opened Wrappers
  import opened Regex
  import opened Decimal
  import opened PeriodCodec

  // ---------------------------------------------------------------- heads of the printed text

  /** `t` is empty or a number followed by one of the characters in `marks`. */
  ghost predicate Begins(t: string, marks: string) {
    t == [] || exists d, m :: t == d + m && AllDigits(d) && m != [] && m[0] in marks
  }

  lemma BeginsWith(d: string, m: string, marks: string)
    requires AllDigits(d) && m != [] && m[0] in marks
    ensures Begins(d + m, marks)
  {
  }

  lemma {:induction false} BeginsHead(t: string, marks: string)
    requires Begins(t, marks)
    ensures t == [] || IsAsciiDigit(t[0])
  {
    if t != [] {
      var d, m :| t == d + m && AllDigits(d) && m != [] && m[0] in marks;
      assert t[0] == d[0];
    }
  }

  lemma {:induction false} PartBegins(n: nat, u: char, t: string, marks: string)
    requires Begins(t, marks)
    ensures Begins(Part(n, [u]) + t, [u] + marks)
  {
    if n > 0 {
      DecIsNumeral(n);
      assert Part(n, [u]) + t == Dec(n) + ([u] + t);
    } else {
      assert Part(n, [u]) + t == t;
      if t != [] {
        var d, m :| t == d + m && AllDigits(d) && m != [] && m[0] in marks;
        assert m[0] in [u] + marks;
      }
    }
  }

  // ---------------------------------------------------------------- letters after a number

  predicate LowerCase(c: char) {
    'a' <= c <= 'z'
  }

  lemma UnitTailNeedsUnit(c: char, suffix: Re)
    requires LowerCase(c)
    ensures TailNeedsUnit(UnitTail(c, suffix))
  {
    forall u: string | u != [] && IsAsciiDigit(u[0])
      ensures Stuck(UnitTail(c, suffix), u)
    {
      UnitTailStuck(c, suffix, u);
    }
  }

  lemma UnitTailStuck(c: char, suffix: Re, s: string)
    requires !HeadIn(Space, s) && !HeadIn(Letter(c), s)
    ensures Stuck(UnitTail(c, suffix), s)
  {
    assert Stuck(Cat(Lit(c), suffix), s);
    assert Passes(SP, s);
  }

  lemma {:induction false} UnitTailTaken(c: char, suffix: Re, k: Stack, t: string)
    requires LowerCase(c) && Passes(suffix, t)
    ensures Exec(Then(UnitTail(c, suffix), k), [c] + t) == Exec(k, t)
  {
    var s := [c] + t;
    assert s[0] == c && s[1..] == t;
    PassesSkips(SP, Then(Cat(Lit(c), suffix), k), s);
    PassesSkips(suffix, k, t);
  }

  lemma LongFormPasses(prefix: Re, c: char, t: string)
    requires t == [] || IsAsciiDigit(t[0])
    requires LowerCase(c) && Stuck(prefix, t)
    ensures Passes(LongForm(prefix, c), t)
  {
    assert Stuck(Cat(Maybe(prefix), Lit(c)), t);
    assert Stuck(Cat(Cat(Maybe(prefix), Lit(c)), Maybe(Lit('s'))), t);
    assert Passes(Maybe(Cat(Cat(Maybe(prefix), Lit(c)), Maybe(Lit('s')))), t);
  }

  lemma WordStuck(w: string, t: string)
    requires w != [] && !HeadIn(Letter(w[0]), t)
    ensures Stuck(Word(w), t)
  {
  }

  lemma RestsPass(t: string)
    requires !HeadIn(Letter('i'), t) && !HeadIn(Letter('e'), t)
    ensures Passes(MINUTE_REST, t) && Passes(SECOND_REST, t)
  {
    WordStuck("in", t);
    WordStuck("ec", t);
    assert Stuck(Cat(Word("in"), Maybe(Word("ute"))), t);
    assert Stuck(Cat(Word("ec"), Maybe(Word("ond"))), t);
    assert Stuck(Cat(Cat(Word("in"), Maybe(Word("ute"))), Maybe(Lit('s'))), t);
    assert Stuck(Cat(Cat(Word("ec"), Maybe(Word("ond"))), Maybe(Lit('s'))), t);
  }

  // ---------------------------------------------------------------- years to hours

  lemma {:induction false} UnitItemTaken(lead: Re, name: Name, u: char, suffix: Re, k: Stack, d: string, t: string)
    requires LowerCase(u) && AllDigits(d) && Passes(suffix, t) && Passes(lead, d + [u] + t)
    requires Exec(k, t).Some?
    ensures Exec(Then(Item(lead, name, UnitTail(u, suffix)), k), d + [u] + t) == Some(Exec(k, t).value[name := d])
  {
    UnitTailNeedsUnit(u, suffix);
    UnitTailTaken(u, suffix, k, t);
    ItemTaken(lead, name, UnitTail(u, suffix), k, d, [u], t);
  }

  lemma {:induction false} UnitItemSkipped(lead: Re, name: Name, u: char, suffix: Re, k: Stack, d: string, m: string)
    requires LowerCase(u) && AllDigits(d) && Passes(lead, d + m)
    requires !HeadIn(Regex.Digit, m) && !HeadIn(Space, m) && !HeadIn(Letter(u), m)
    ensures Exec(Then(Item(lead, name, UnitTail(u, suffix)), k), d + m) == Exec(k, d + m)
  {
    UnitTailNeedsUnit(u, suffix);
    UnitTailStuck(u, suffix, m);
    StuckFails(UnitTail(u, suffix), k, m);
    ItemSkipped(lead, name, UnitTail(u, suffix), k, d, m);
  }

  /** Nothing printed for this unit, and the remainder's own unit is another letter. */
  lemma {:induction false} PartSkipped(name: Name, u: char, suffix: Re, k: Stack, t: string, marks: string)
    requires LowerCase(u) && Begins(t, marks)
    requires forall c | c in marks :: !IsDigit(c) && !IsSpace(c) && !SameLetter(u, c)
    ensures Exec(Then(Item(SP, name, UnitTail(u, suffix)), k), t) == Exec(k, t)
  {
    var tail := UnitTail(u, suffix);
    if t == [] {
      ItemPasses(SP, name, tail, t);
      PassesSkips(Item(SP, name, tail), k, t);
    } else {
      var d, m :| t == d + m && AllDigits(d) && m != [] && m[0] in marks;
      assert t[0] == d[0];
      UnitItemSkipped(SP, name, u, suffix, k, d, m);
    }
  }

  lemma {:induction false} PartMatched(name: Name, u: char, suffix: Re, k: Stack, n: nat, t: string, marks: string)
    requires LowerCase(u) && Begins(t, marks) && Passes(suffix, t)
    requires forall c | c in marks :: !IsDigit(c) && !IsSpace(c) && !SameLetter(u, c)
    requires Exec(k, t).Some?
    ensures Exec(Then(Item(SP, name, UnitTail(u, suffix)), k), Part(n, [u]) + t) ==
            Some(With(Exec(k, t).value, name, n))
    ensures Begins(Part(n, [u]) + t, [u] + marks)
  {
    PartBegins(n, u, t, marks);
    if n > 0 {
      DecIsNumeral(n);
      assert (Dec(n) + [u] + t)[0] == Dec(n)[0];
      UnitItemTaken(SP, name, u, suffix, k, Dec(n), t);
    } else {
      assert Part(n, [u]) + t == t;
      PartSkipped(name, u, suffix, k, t, marks);
    }
  }

  /** The captures `c` plus the numeral of `n`, when a component was printed for it. */
  function With(c: Captures, name: Name, n: nat): Captures {
    if n > 0 then c[name := Dec(n)] else c
  }

  // ---------------------------------------------------------------- fractional seconds

  lemma {:induction false} AtEnd()
    ensures Exec(TO_END, "") == Some(map[])
  {
    PassesSkips(SP, Done, "");
  }

  lemma {:induction false} NotAtEnd(t: string)
    requires t != [] && !IsSpace(t[0])
    ensures Exec(TO_END, t).None?
  {
    PassesSkips(SP, Done, t);
  }

  /** A unit at the very end of the text. */
  lemma {:induction false} LastUnit(c: char, suffix: Re)
    requires LowerCase(c) && Passes(suffix, "")
    ensures Exec(Then(UnitTail(c, suffix), TO_END), [c]) == Some(map[])
  {
    AtEnd();
    UnitTailTaken(c, suffix, TO_END, "");
    assert [c] + "" == [c];
  }

  lemma {:induction false} FractionMatched(d: string, f: string)
    requires AllDigits(d) && AllDigits(f)
    ensures Exec(FROM_SECONDS, d + ("." + f + "s")) == Some(map[SFra := f, SMan := d])
  {
    var tail := UnitTail('s', SECOND_REST);
    UnitTailNeedsUnit('s', SECOND_REST);
    RestsPass("");
    LastUnit('s', SECOND_REST);
    var s := d + ("." + f + "s");
    assert s[0] == d[0];
    FractionTaken(SP, SMan, AnyOf(".,"), SFra, tail, TO_END, d, '.', f, "s");
    OrFirst(FRACTIONAL, SCALED, TO_END, s);
  }

  lemma OrFirst(a: Re, b: Re, k: Stack, s: string)
    requires Exec(Then(a, k), s).Some?
    ensures Exec(Then(Or(a, b), k), s) == Exec(Then(a, k), s)
  {
  }

  lemma OrSecond(a: Re, b: Re, k: Stack, s: string)
    requires Exec(Then(a, k), s).None?
    ensures Exec(Then(Or(a, b), k), s) == Exec(Then(b, k), s)
  {
  }

  lemma CatSplits(a: Re, b: Re, k: Stack, s: string)
    ensures Exec(Then(Cat(a, b), k), s) == Exec(Then(a, Then(b, k)), s)
  {
  }

  // ---------------------------------------------------------------- scaled seconds

  const AFTER_WHOLE: Stack := Then(Cat(MILLIS, Cat(MICROS, NANOS)), TO_END)
  const AFTER_MILLIS: Stack := Then(Cat(MICROS, NANOS), TO_END)
  const AFTER_MICROS: Stack := Then(NANOS, TO_END)

  /** Without a decimal separator the fractional alternative gives up. */
  lemma {:induction false} ScaledFrom(t: string)
    requires Begins(t, "smun") && t != []
    ensures Exec(FROM_SECONDS, t) == Exec(Then(WHOLE, AFTER_WHOLE), t)
  {
    var d, m :| t == d + m && AllDigits(d) && m != [] && m[0] in "smun";
    assert t[0] == d[0];
    NotAtEnd(t);
    Regex.FractionRefused(SP, SMan, AnyOf(".,"), SFra, UnitTail('s', SECOND_REST), TO_END, d, m);
    OrSecond(FRACTIONAL, SCALED, TO_END, t);
    CatSplits(WHOLE, Cat(MILLIS, Cat(MICROS, NANOS)), TO_END, t);
  }

  /** The first letter of a scale is `u`, and its spelled-out forms do not start with a digit or with `s`. */
  predicate ScaleOf(scale: Re, u: char) {
    (scale == MILLI && u == 'm') || (scale == MICRO && u == 'u') || (scale == NANO && u == 'n')
  }

  lemma ScaleStuck(scale: Re, u: char, s: string)
    requires ScaleOf(scale, u)
    requires s == [] || (!SameLetter('m', s[0]) && !SameLetter('u', s[0]) && !SameLetter('n', s[0]) &&
                         !SameLetter(MICRO_SIGN, s[0]))
    ensures Stuck(scale, s)
  {
    WordStuck("milli", s);
    WordStuck("micro", s);
    WordStuck("nano", s);
  }

  /** The three sub-second tails, with the two-character marks the printer uses, end the text. */
  lemma {:induction false} SubTailTaken(scale: Re, u: char, k: Stack)
    requires ScaleOf(scale, u)
    requires Exec(k, "").Some?
    ensures Exec(Then(SubTail(scale), k), [u, 's']) == Exec(k, "")
  {
    var s := [u, 's'];
    var rest := Cat(Lit('s'), SECOND_REST);
    assert Passes(SP, s);
    hide Stuck, Passes;
    PassesSkips(SP, Then(Cat(scale, rest), k), s);
    RestsPass("");
    PassesSkips(SECOND_REST, k, "");
    assert s[1..] == "s" && "s"[1..] == "";
    assert Exec(Then(rest, k), "s") == Exec(k, "");
    assert Exec(Then(Lit(u), Then(rest, k)), s) == Exec(k, "");
    CatSplits(scale, rest, k, s);
    OrFirst(Lit(u), scale.second, Then(rest, k), s);
  }

  lemma SubTailStuck(scale: Re, u: char, s: string)
    requires ScaleOf(scale, u) && Stuck(scale, s) && !HeadIn(Space, s)
    ensures Stuck(SubTail(scale), s)
  {
    assert Stuck(Cat(scale, Cat(Lit('s'), SECOND_REST)), s);
    assert Passes(SP, s);
  }

  lemma SubTailNeedsUnit(scale: Re, u: char)
    requires ScaleOf(scale, u)
    ensures TailNeedsUnit(SubTail(scale))
  {
    forall v: string | v != [] && IsAsciiDigit(v[0])
      ensures Stuck(SubTail(scale), v)
    {
      ScaleStuck(scale, u, v);
      SubTailStuck(scale, u, v);
    }
  }

  /** An item before the end of the text: taken if the unit `m` is its own, else skipped. */
  lemma {:induction false} LastItem(tail: Re, name: Name, k: Stack, d: string, m: string, own: bool)
    requires AllDigits(d) && TailNeedsUnit(tail) && !HeadIn(Regex.Digit, m)
    requires own ==> Exec(k, "").Some? && Exec(Then(tail, k), m) == Exec(k, "")
    requires !own ==> Stuck(tail, m)
    ensures Exec(Then(Item(SP, name, tail), k), d + m) ==
            if own then Some(Exec(k, "").value[name := d]) else Exec(k, d + m)
  {
    assert (d + m)[0] == d[0];
    if own {
      assert m + "" == m && d + m + "" == d + m;
      ItemTaken(SP, name, tail, k, d, m, "");
    } else {
      StuckFails(tail, k, m);
      ItemSkipped(SP, name, tail, k, d, m);
    }
  }

  /** The sub-second item with scale `u` before a number in scale `v`. */
  lemma {:induction false} ScaleItem(scale: Re, u: char, name: Name, k: Stack, d: string, v: char)
    requires ScaleOf(scale, u) && AllDigits(d) && v in "mun"
    requires u == v ==> Exec(k, "").Some?
    requires u != v ==> Stuck(scale, [v, 's'])
    ensures Exec(Then(Item(SP, name, SubTail(scale)), k), d + [v, 's']) ==
            if u == v then Some(Exec(k, "").value[name := d]) else Exec(k, d + [v, 's'])
  {
    hide Exec;
    SubTailNeedsUnit(scale, u);
    if u == v {
      SubTailTaken(scale, u, k);
    } else {
      SubTailStuck(scale, u, [v, 's']);
    }
    LastItem(SubTail(scale), name, k, d, [v, 's'], u == v);
  }

  /** The items after whole seconds, at the end of the text. */
  lemma {:induction false} NoSubSeconds()
    ensures Exec(AFTER_WHOLE, "") == Some(map[])
    ensures Exec(AFTER_MILLIS, "") == Some(map[])
    ensures Exec(AFTER_MICROS, "") == Some(map[])
  {
    AtEnd();
    ItemPasses(SP, Ms, SubTail(MILLI), "");
    ItemPasses(SP, Us, SubTail(MICRO), "");
    ItemPasses(SP, Ns, SubTail(NANO), "");
    PassesSkips(NANOS, TO_END, "");
    CatSplits(MICROS, NANOS, TO_END, "");
    PassesSkips(MICROS, AFTER_MICROS, "");
    CatSplits(MILLIS, Cat(MICROS, NANOS), TO_END, "");
    PassesSkips(MILLIS, AFTER_MILLIS, "");
  }

  function ScaleName(v: char): Name
    requires v in "mun"
  {
    if v == 'm' then Ms else if v == 'u' then Us else Ns
  }

  lemma {:induction false} SubSecondsMatched(d: string, v: char)
    requires AllDigits(d) && v in "mun"
    ensures Exec(AFTER_WHOLE, d + [v, 's']) == Some(map[ScaleName(v) := d])
  {
    var t := d + [v, 's'];
    NoSubSeconds();
    AtEnd();
    CatSplits(MILLIS, Cat(MICROS, NANOS), TO_END, t);
    CatSplits(MICROS, NANOS, TO_END, t);
    if v == 'm' {
      ScaleItem(MILLI, 'm', Ms, AFTER_MILLIS, d, v);
    } else {
      WordStuck("milli", [v, 's']);
      WordStuck("micro", [v, 's']);
      assert Stuck(MILLI, [v, 's']);
      ScaleItem(MILLI, 'm', Ms, AFTER_MILLIS, d, v);
      if v == 'u' {
        ScaleItem(MICRO, 'u', Us, AFTER_MICROS, d, v);
      } else {
        assert Stuck(Or(Lit(MICRO_SIGN), Word("micro")), [v, 's']);
        ScaleItem(MICRO, 'u', Us, AFTER_MICROS, d, v);
        ScaleItem(NANO, 'n', Ns, TO_END, d, v);
      }
    }
  }

  lemma ColonPasses(s: string)
    requires s != [] && IsAsciiDigit(s[0])
    ensures Passes(COLON_SP, s)
  {
    assert Passes(Maybe(One(AnyOf(":"))), s);
  }

  /** Whole seconds, then at most one sub-second item. */
  lemma {:induction false} WholeMatched(d: string, t: string)
    requires AllDigits(d) && Begins(t, "mun") && Exec(AFTER_WHOLE, t).Some?
    ensures Begins(d + "s" + t, "smun")
    ensures Exec(FROM_SECONDS, d + "s" + t) == Some(Exec(AFTER_WHOLE, t).value[S := d])
  {
    BeginsHead(t, "mun");
    RestsPass(t);
    var s := d + "s" + t;
    assert s == d + ("s" + t) && s[0] == d[0];
    assert ("s" + t)[0] == 's';
    ScaledFrom(s);
    ColonPasses(s);
    UnitItemTaken(COLON_SP, S, 's', SECOND_REST, AFTER_WHOLE, d, t);
  }

  lemma {:induction false} SubSecondsOnly(d: string, v: char)
    requires AllDigits(d) && v in "mun"
    ensures Begins(d + [v, 's'], "mun")
    ensures Exec(FROM_SECONDS, d + [v, 's']) == Some(map[ScaleName(v) := d])
  {
    var m := [v, 's'];
    var s := d + m;
    assert s[0] == d[0] && m[0] == v;
    assert Begins(s, "smun");
    ScaledFrom(s);
    SubSecondsMatched(d, v);
    ColonPasses(s);
    UnitItemSkipped(COLON_SP, S, 's', SECOND_REST, AFTER_WHOLE, d, m);
  }

  lemma {:induction false} NoSeconds()
    ensures Exec(FROM_SECONDS, "") == Some(map[])
  {
    AtEnd();
    FractionPasses(SP, SMan, AnyOf(".,"), SFra, UnitTail('s', SECOND_REST), "");
    PassesSkips(FRACTIONAL, TO_END, "");
    OrFirst(FRACTIONAL, SCALED, TO_END, "");
  }

  // ---------------------------------------------------------------- minutes against milliseconds

  /** What would be left if the `m` of `ms` were read as minutes is no period. */
  lemma {:induction false} LoneSecondMark()
    ensures Exec(FROM_SECONDS, "s").None?
  {
    NotAtEnd("s");
    FractionPasses(SP, SMan, AnyOf(".,"), SFra, UnitTail('s', SECOND_REST), "s");
    PassesSkips(FRACTIONAL, TO_END, "s");
    OrSecond(FRACTIONAL, SCALED, TO_END, "s");
    ItemPasses(COLON_SP, S, UnitTail('s', SECOND_REST), "s");
    ItemPasses(SP, Ms, SubTail(MILLI), "s");
    ItemPasses(SP, Us, SubTail(MICRO), "s");
    ItemPasses(SP, Ns, SubTail(NANO), "s");
    assert Passes(Cat(MICROS, NANOS), "s");
    assert Passes(Cat(MILLIS, Cat(MICROS, NANOS)), "s");
    PassesSkips(SCALED, TO_END, "s");
  }

  /** The optional minutes item gives the `m` of a millisecond count back. */
  lemma {:induction false} MillisAreNotMinutes(d: string)
    requires AllDigits(d)
    ensures Exec(FROM_MINUTES, d + "ms") == Exec(FROM_SECONDS, d + "ms")
  {
    assert (d + "ms")[0] == d[0];
    assert Passes(SP, d + "ms");
    hide Exec, Stuck, Passes, TailNeedsUnit;
    var tail := UnitTail('m', MINUTE_REST);
    LoneSecondMark();
    RestsPass("s");
    UnitTailTaken('m', MINUTE_REST, FROM_SECONDS, "s");
    assert ['m'] + "s" == "ms";
    UnitTailNeedsUnit('m', MINUTE_REST);
    ItemSkipped(SP, M, tail, FROM_SECONDS, d, "ms");
  }

  // ---------------------------------------------------------------- the whole text

  /** The captures taken from the text after the minutes. */
  function SecondsCaptures(c: Split): Captures {
    if Fractional(c) then map[SFra := FractionDigits(c.nanos), SMan := Dec(c.seconds)]
    else if c.total == 0 && c.nanos == 0 then map[S := "0"]
    else With(SubCaptures(SubItem(c.nanos)), S, c.seconds)
  }

  function SubCaptures(item: Option<(nat, char)>): Captures
    requires item.Some? ==> item.value.1 in "mun"
  {
    match item
    case None => map[]
    case Some((n, v)) => map[ScaleName(v) := Dec(n)]
  }

  /** Whole seconds and at most one sub-second item. */
  lemma {:induction false} ScaledMatched(s: nat, item: Option<(nat, char)>)
    requires item.Some? ==> item.value.1 in "mun"
    ensures Exec(FROM_SECONDS, Part(s, "s") + SubText(item)) == Some(With(SubCaptures(item), S, s))
  {
    DecIsNumeral(s);
    NoSubSeconds();
    match item {
      case None =>
        if s == 0 {
          NoSeconds();
        } else {
          WholeMatched(Dec(s), "");
        }
        assert Part(s, "s") + "" == Part(s, "s");
      case Some((n, v)) =>
        DecIsNumeral(n);
        SubSecondsMatched(Dec(n), v);
        SubSecondsOnly(Dec(n), v);
        if s > 0 {
          WholeMatched(Dec(s), SubText(item));
        } else {
          assert Part(s, "s") + SubText(item) == SubText(item);
        }
    }
  }

  lemma {:induction false} FractionDigitsRoundTrip(nanos: nat)
    requires 0 < nanos < NANOS_PER_SEC
    ensures AllDigits(FractionDigits(nanos))
    ensures ParseU64(FitRight(FractionDigits(nanos), 9)) == Some(nanos)
  {
    assert Pow10(9) == NANOS_PER_SEC;
    FieldRoundTrip(nanos, 9);
  }

  lemma {:induction false} SecondsMatched(c: Split)
    requires c.nanos < NANOS_PER_SEC
    ensures Exec(FROM_SECONDS, SecondsText(c)) == Some(SecondsCaptures(c))
  {
    if Fractional(c) {
      DecIsNumeral(c.seconds);
      FractionDigitsRoundTrip(c.nanos);
      FractionMatched(Dec(c.seconds), FractionDigits(c.nanos));
    } else if c.total == 0 && c.nanos == 0 {
      NoSubSeconds();
      WholeMatched("0", "");
      assert "0" + "s" + "" == "0s";
    } else {
      ScaledMatched(c.seconds, SubItem(c.nanos));
    }
  }

  /** The text after the minutes is empty, a millisecond count, or marked by another letter than `m`. */
  ghost predicate SecondsShape(t: string) {
    Begins(t, ".smun") && (Begins(t, ".sun") || exists d :: AllDigits(d) && t == d + "ms")
  }

  lemma SecondsTextShape(c: Split)
    ensures SecondsShape(SecondsText(c))
  {
    DecIsNumeral(c.seconds);
    if Fractional(c) {
      BeginsWith(Dec(c.seconds), "." + FractionDigits(c.nanos) + "s", ".smun");
      BeginsWith(Dec(c.seconds), "." + FractionDigits(c.nanos) + "s", ".sun");
    } else if c.total == 0 && c.nanos == 0 {
      BeginsWith("0", "s", ".smun");
      BeginsWith("0", "s", ".sun");
    } else if c.seconds > 0 {
      var t := SubText(SubItem(c.nanos));
      assert SecondsText(c) == Dec(c.seconds) + ("s" + t);
      BeginsWith(Dec(c.seconds), "s" + t, ".smun");
      BeginsWith(Dec(c.seconds), "s" + t, ".sun");
    } else {
      assert SecondsText(c) == SubText(SubItem(c.nanos));
      SubTextShape(SubItem(c.nanos));
    }
  }

  lemma {:induction false} SubTextShape(item: Option<(nat, char)>)
    requires item.Some? ==> item.value.1 in "mun"
    ensures SecondsShape(SubText(item))
  {
    if item.Some? {
      var (n, v) := item.value;
      DecIsNumeral(n);
      BeginsWith(Dec(n), [v, 's'], ".smun");
      if v == 'm' {
        assert SubText(item) == Dec(n) + "ms";
      } else {
        BeginsWith(Dec(n), [v, 's'], ".sun");
      }
    }
  }

  lemma {:induction false} MinutesAbsent(t: string)
    requires SecondsShape(t)
    ensures Exec(FROM_MINUTES, t) == Exec(FROM_SECONDS, t)
  {
    hide Exec;
    if Begins(t, ".sun") {
      PartSkipped(M, 'm', MINUTE_REST, FROM_SECONDS, t, ".sun");
    } else {
      var d :| AllDigits(d) && t == d + "ms";
      MillisAreNotMinutes(d);
    }
  }

  lemma {:induction false} MinutesPresent(n: nat, t: string)
    requires Begins(t, ".smun") && Exec(FROM_SECONDS, t).Some? && n > 0
    ensures Exec(FROM_MINUTES, Dec(n) + ['m'] + t) == Some(Exec(FROM_SECONDS, t).value[M := Dec(n)])
  {
    BeginsHead(t, ".smun");
    RestsPass(t);
    DecIsNumeral(n);
    assert (Dec(n) + ['m'] + t)[0] == Dec(n)[0];
    UnitItemTaken(SP, M, 'm', MINUTE_REST, FROM_SECONDS, Dec(n), t);
  }

  lemma {:induction false} MinutesMatched(n: nat, t: string)
    requires SecondsShape(t) && Exec(FROM_SECONDS, t).Some?
    ensures Begins(Part(n, "m") + t, "m.smun")
    ensures Exec(FROM_MINUTES, Part(n, "m") + t) == Some(With(Exec(FROM_SECONDS, t).value, M, n))
  {
    PartBegins(n, 'm', t, ".smun");
    if n > 0 {
      MinutesPresent(n, t);
    } else {
      assert Part(n, "m") + t == t;
      MinutesAbsent(t);
    }
  }

  /** A component with a spelled-out long form, before the rest of the text. */
  lemma {:induction false} LongPartMatched(
    name: Name, u: char, prefix: string, last: char, k: Stack, n: nat, t: string, marks: string)
    requires LowerCase(u) && LowerCase(last) && prefix != [] && LowerCase(prefix[0])
    requires Begins(t, marks) && Exec(k, t).Some?
    requires forall x | x in marks :: !IsDigit(x) && !IsSpace(x) && !SameLetter(u, x)
    ensures Exec(Then(Item(SP, name, UnitTail(u, LongForm(Word(prefix), last))), k), Part(n, [u]) + t) ==
            Some(With(Exec(k, t).value, name, n))
    ensures Begins(Part(n, [u]) + t, [u] + marks)
  {
    BeginsHead(t, marks);
    WordStuck(prefix, t);
    LongFormPasses(Word(prefix), last, t);
    PartMatched(name, u, LongForm(Word(prefix), last), k, n, t, marks);
  }

  lemma {:induction false} HoursMatched(k: Stack, n: nat, t: string)
    requires Begins(t, "m.smun") && Exec(k, t).Some?
    ensures Begins(Part(n, "h") + t, "hm.smun")
    ensures Exec(Then(HOURS, k), Part(n, "h") + t) == Some(With(Exec(k, t).value, H, n))
  {
    LongPartMatched(H, 'h', "ou", 'r', k, n, t, "m.smun");
  }

  lemma {:induction false} DaysMatched(k: Stack, n: nat, t: string)
    requires Begins(t, "hm.smun") && Exec(k, t).Some?
    ensures Begins(Part(n, "d") + t, "dhm.smun")
    ensures Exec(Then(DAYS, k), Part(n, "d") + t) == Some(With(Exec(k, t).value, D, n))
  {
    LongPartMatched(D, 'd', "a", 'y', k, n, t, "hm.smun");
  }

  lemma {:induction false} WeeksMatched(k: Stack, n: nat, t: string)
    requires Begins(t, "dhm.smun") && Exec(k, t).Some?
    ensures Begins(Part(n, "w") + t, "wdhm.smun")
    ensures Exec(Then(WEEKS, k), Part(n, "w") + t) == Some(With(Exec(k, t).value, W, n))
  {
    LongPartMatched(W, 'w', "ee", 'k', k, n, t, "dhm.smun");
  }

  lemma {:induction false} YearsMatched(k: Stack, n: nat, t: string)
    requires Begins(t, "wdhm.smun") && Exec(k, t).Some?
    ensures Exec(Then(YEARS, k), Part(n, "y") + t) == Some(With(Exec(k, t).value, Y, n))
  {
    LongPartMatched(Y, 'y', "ea", 'r', k, n, t, "wdhm.smun");
  }

  /** Years to hours before a text that the rest of the pattern matches. */
  lemma {:induction false} LongPartsMatched(k: Stack, y: nat, w: nat, d: nat, h: nat, t: string)
    requires Begins(t, "m.smun") && Exec(k, t).Some?
    ensures Exec(Then(YEARS, Then(WEEKS, Then(DAYS, Then(HOURS, k)))),
                 Part(y, "y") + (Part(w, "w") + (Part(d, "d") + (Part(h, "h") + t)))) ==
            Some(With(With(With(With(Exec(k, t).value, H, h), D, d), W, w), Y, y))
  {
    HoursMatched(k, h, t);
    var kh, th := Then(HOURS, k), Part(h, "h") + t;
    DaysMatched(kh, d, th);
    var kd, td := Then(DAYS, kh), Part(d, "d") + th;
    WeeksMatched(kd, w, td);
    YearsMatched(Then(WEEKS, kd), y, Part(w, "w") + td);
  }

  /** The captures taken from a whole printed period. */
  function ShowCaptures(c: Split): Captures {
    With(With(With(With(With(SecondsCaptures(c), M, c.minutes), H, c.hours), D, c.days), W, c.weeks), Y, c.years)
  }

  /** The preferred match of a printed period captures exactly its numerals. */
  lemma {:induction false} ShowMatched(c: Split)
    requires c.nanos < NANOS_PER_SEC
    ensures Exec(PERIOD, ShowSplit(c)) == Some(ShowCaptures(c))
  {
    var t := SecondsText(c);
    SecondsMatched(c);
    SecondsTextShape(c);
    MinutesMatched(c.minutes, t);
    LongPartsMatched(FROM_MINUTES, c.years, c.weeks, c.days, c.hours, Part(c.minutes, "m") + t);
  }

  // ---------------------------------------------------------------- adding the numbers up

  /** The field of a component that is printed when it is not zero. */
  lemma {:induction false} NumeralField(c: Captures, name: Name, n: nat)
    requires n <= U64_MAX && name !in c
    ensures Field(With(c, name, n), name) == Some(n)
    ensures forall other | other != name ::
              (other in With(c, name, n) <==> other in c) && (other in c ==> With(c, name, n)[other] == c[other])
  {
    DecIsNumeral(n);
  }

  lemma {:induction false} FieldsOf(c: Captures, y: nat, w: nat, d: nat, h: nat, m: nat)
    requires Y !in c && W !in c && D !in c && H !in c && M !in c
    requires y <= U64_MAX && w <= U64_MAX && d <= U64_MAX && h <= U64_MAX && m <= U64_MAX
    ensures var e := With(With(With(With(With(c, M, m), H, h), D, d), W, w), Y, y);
            && Field(e, Y) == Some(y) && Field(e, W) == Some(w) && Field(e, D) == Some(d)
            && Field(e, H) == Some(h) && Field(e, M) == Some(m)
            && (forall name | name !in {Y, W, D, H, M} ::
                  (name in e <==> name in c) && (name in c ==> e[name] == c[name]))
  {
    NumeralField(c, M, m);
    var c1 := With(c, M, m);
    NumeralField(c1, H, h);
    var c2 := With(c1, H, h);
    NumeralField(c2, D, d);
    var c3 := With(c2, D, d);
    NumeralField(c3, W, w);
    NumeralField(With(c3, W, w), Y, y);
  }

  /** Fields with a total below the limit add up without a partial sum overflowing. */
  lemma PlusChain(c: Captures, y: nat, w: nat, d: nat, h: nat, m: nat, s: nat)
    requires Field(c, Y) == Some(y) && Field(c, W) == Some(w) && Field(c, D) == Some(d)
    requires Field(c, H) == Some(h) && Field(c, M) == Some(m)
    requires Field(c, if S in c then S else SMan) == Some(s)
    requires YR * y + WK * w + DY * d + HR * h + MN * m + s <= U64_MAX
    ensures TotalSeconds(c) == Ok(YR * y + WK * w + DY * d + HR * h + MN * m + s)
  {
  }

  lemma {:induction false} SecondsField(c: Split)
    requires c.seconds <= U64_MAX && (c.total == 0 ==> c.seconds == 0)
    ensures var e := SecondsCaptures(c); Field(e, if S in e then S else SMan) == Some(c.seconds)
  {
    DecIsNumeral(c.seconds);
    DecIsNumeral(0);
    assert Dec(0) == "0";
  }

  function ScaleNanos(v: char): nat {
    if v == 'm' then 1_000_000 else if v == 'u' then 1_000 else 1
  }

  lemma SubItemLosesNothing(nanos: nat)
    requires 0 < nanos < NANOS_PER_SEC
    ensures SubItem(nanos).Some?
    ensures var (n, v) := SubItem(nanos).value; v in "mun" && n <= nanos && ScaleNanos(v) * n == nanos
  {
  }

  lemma {:induction false} SubCapturesTotal(n: nat, v: char, c: Captures)
    requires v in "mun" && n < NANOS_PER_SEC && ScaleNanos(v) * n < NANOS_PER_SEC
    requires SFra !in c && Ms !in c && Us !in c && Ns !in c
    ensures TotalNanos(c[ScaleName(v) := Dec(n)]) == Ok(ScaleNanos(v) * n)
  {
    DecIsNumeral(n);
    var e := c[ScaleName(v) := Dec(n)];
    assert Field(e, ScaleName(v)) == Some(n);
    assert forall other | other in {Ms, Us, Ns} && other != ScaleName(v) :: Field(e, other) == Some(0);
  }

  lemma {:induction false} NanosField(c: Split)
    requires c.nanos < NANOS_PER_SEC
    ensures TotalNanos(SecondsCaptures(c)) == Ok(c.nanos)
  {
    if Fractional(c) {
      FractionDigitsRoundTrip(c.nanos);
    } else if c.nanos > 0 {
      SubItemLosesNothing(c.nanos);
      var (n, v) := SubItem(c.nanos).value;
      ScaledTotal(n, v, c.seconds);
    }
  }

  lemma {:induction false} ScaledTotal(n: nat, v: char, s: nat)
    requires v in "mun" && n < NANOS_PER_SEC && ScaleNanos(v) * n < NANOS_PER_SEC
    ensures TotalNanos(With(SubCaptures(Some((n, v))), S, s)) == Ok(ScaleNanos(v) * n)
  {
    var e := With(map[], S, s);
    SubCapturesTotal(n, v, e);
    assert With(SubCaptures(Some((n, v))), S, s) == e[ScaleName(v) := Dec(n)];
  }

  /** Equal in every capture that the seconds and the nanoseconds are read from. */
  predicate SameSeconds(c: Captures, e: Captures) {
    forall name | name in {S, SMan, SFra, Ms, Us, Ns} ::
      (name in c <==> name in e) && (name in c ==> c[name] == e[name])
  }

  lemma SameSecondsSameNanos(c: Captures, e: Captures)
    requires SameSeconds(c, e)
    ensures TotalNanos(c) == TotalNanos(e)
    ensures Field(c, if S in c then S else SMan) == Field(e, if S in e then S else SMan)
  {
    hide ParseU64, FitRight;
    assert forall name | name in {S, SMan, SFra, Ms, Us, Ns} :: Field(c, name) == Field(e, name);
  }

  /** Captures of the printed components give the period back whenever the components add up to it. */
  lemma {:induction false} CapturesGivePeriod(c: Split)
    requires c.total == YR * c.years + WK * c.weeks + DY * c.days + HR * c.hours + MN * c.minutes + c.seconds
    requires c.total <= U64_MAX && c.nanos < NANOS_PER_SEC
    ensures FromCaptures(ShowCaptures(c)) == Ok(Period(c.total, c.nanos))
  {
    hide TotalSeconds, TotalNanos, FromCaptures, SecondsCaptures, Field, With;
    SecondsCapturesNames(c);
    SecondsField(c);
    NanosField(c);
    TotalsUnderComponents(SecondsCaptures(c), c.years, c.weeks, c.days, c.hours, c.minutes, c.seconds);
    FromTotals(ShowCaptures(c), c.total, c.nanos);
  }

  lemma SecondsCapturesNames(c: Split)
    ensures Y !in SecondsCaptures(c) && W !in SecondsCaptures(c) && D !in SecondsCaptures(c)
    ensures H !in SecondsCaptures(c) && M !in SecondsCaptures(c)
  {
  }

  /** Adding the larger components to the captures of the seconds adds them to the total only. */
  lemma {:induction false} TotalsUnderComponents(c: Captures, y: nat, w: nat, d: nat, h: nat, m: nat, s: nat)
    requires Y !in c && W !in c && D !in c && H !in c && M !in c
    requires Field(c, if S in c then S else SMan) == Some(s)
    requires YR * y + WK * w + DY * d + HR * h + MN * m + s <= U64_MAX
    ensures var e := With(With(With(With(With(c, M, m), H, h), D, d), W, w), Y, y);
            && TotalSeconds(e) == Ok(YR * y + WK * w + DY * d + HR * h + MN * m + s)
            && TotalNanos(e) == TotalNanos(c)
  {
    var e := With(With(With(With(With(c, M, m), H, h), D, d), W, w), Y, y);
    FieldsOf(c, y, w, d, h, m);
    SameSecondsSameNanos(e, c);
    PlusChain(e, y, w, d, h, m, s);
  }

  lemma FromTotals(c: Captures, secs: nat, nanos: nat)
    requires TotalSeconds(c) == Ok(secs) && TotalNanos(c) == Ok(nanos)
    requires secs <= U64_MAX && nanos < NANOS_PER_SEC
    ensures FromCaptures(c) == Ok(Period(secs, nanos))
  {
  }

  lemma SplitAddsUp(p: Period)
    ensures var c := SplitOf(p);
            p.secs == YR * c.years + WK * c.weeks + DY * c.days + HR * c.hours + MN * c.minutes + c.seconds
  {
    var c := SplitOf(p);
    var y := p.secs % YR;
    var w := y % WK;
    var d := w % DY;
    var h := d % HR;
    assert y == WK * c.weeks + w;
    assert w == DY * c.days + d;
    assert d == HR * c.hours + h;
    assert h == MN * c.minutes + c.seconds;
  }

  /** Every period survives printing and parsing, and no sum overflows on the way. */
  lemma {:induction false} ShowThenParse(p: Period)
    requires p.Valid()
    ensures FromStr(Show(p)) == Ok(p)
  {
    SplitAddsUp(p);
    ShowMatched(SplitOf(p));
    CapturesGivePeriod(SplitOf(p));
  }

  /** Distinct periods print differently. */
  lemma {:induction false} ShowInjective(p: Period, q: Period)
    requires p.Valid() && q.Valid()
    ensures Show(p) == Show(q) ==> p == q
  {
    ShowThenParse(p);
    ShowThenParse(q);
  }

  /** Printing what was parsed is a canonical form: it parses to the same period and prints as itself. */
  lemma {:induction false} CanonicalForm(text: string)
    requires FromStr(text).Ok?
    ensures var canon := Show(FromStr(text).value);
            && FromStr(canon) == FromStr(text)
            && Show(FromStr(canon).value) == canon
  {
    ShowThenParse(FromStr(text).value);
  }
}
