/** File name patterns: `*`, `?` and bracketed classes. */
module Glob {

  import opened Wrappers

  datatype Spec = Single(c: char) | Range(lo: char, hi: char)

  datatype Token = Char(c: char) | AnyChar | AnySequence | Within(specs: seq<Spec>) | Except(specs: seq<Spec>)

  /** No character that a pattern reads as anything but itself. */
  predicate Literal(p: string) {
    '*' !in p && '?' !in p && '[' !in p
  }

  /** A wildcard behind a leading dot: such a pattern is also put to the entries `.` and `..`. */
  predicate Dotted(p: string) {
    !Literal(p) && p[0] == '.'
  }

  /** The inside of brackets. */
  function Specs(s: string): seq<Spec> {
    if s == "" then []
    else if |s| >= 3 && s[1] == '-' then [Range(s[0], s[2])] + Specs(s[3..])
    else [Single(s[0])] + Specs(s[1..])
  }

  /** The first closing bracket at or after `i`. */
  function Closing(p: string, i: nat): (r: Option<nat>)
    ensures r.Some? ==> i <= r.value < |p|
    decreases |p| - i
  {
    if i >= |p| then None else if p[i] == ']' then Some(i) else Closing(p, i + 1)
  }

  /** The tokens of a pattern that is one path component; two stars in a row are refused inside a component. */
  function Compile(p: string): Option<seq<Token>>
    decreases |p|
  {
    if p == "" then Some([])
    else if p[0] == '?' then Prepend(AnyChar, Compile(p[1..]))
    else if p[0] == '*' then
      if |p| > 1 && p[1] == '*' then None else Prepend(AnySequence, Compile(p[1..]))
    else if p[0] == '[' then
      var except := |p| > 1 && p[1] == '!';
      var from := if except then 2 else 1;
      var close := Closing(p, from + 1);
      if close.None? then None
      else
        var specs := Specs(p[from..close.value]);
        Prepend(if except then Except(specs) else Within(specs), Compile(p[close.value + 1..]))
    else Prepend(Char(p[0]), Compile(p[1..]))
  }

  function Prepend(t: Token, rest: Option<seq<Token>>): Option<seq<Token>> {
    if rest.None? then None else Some([t] + rest.value)
  }

  predicate InSpecs(specs: seq<Spec>, c: char) {
    exists i | 0 <= i < |specs| ::
      match specs[i] case Single(d) => c == d case Range(lo, hi) => lo <= c <= hi
  }

  predicate Accepts(t: Token, c: char) {
    match t
    case Char(d) => c == d
    case AnyChar => true
    case AnySequence => true
    case Within(specs) => InSpecs(specs, c)
    case Except(specs) => !InSpecs(specs, c)
  }

  predicate Matches(ts: seq<Token>, name: string)
    decreases |ts| + |name|
  {
    if ts == [] then name == ""
    else if ts[0] == AnySequence then Matches(ts[1..], name) || (name != "" && Matches(ts, name[1..]))
    else name != "" && Accepts(ts[0], name[0]) && Matches(ts[1..], name[1..])
  }

  predicate Globs(p: string, name: string) {
    var ts := Compile(p);
    ts.Some? && Matches(ts.value, name)
  }

  /** A literal pattern matches its own text only. */
  lemma {:induction false} LiteralGlob(p: string, name: string)
    requires Literal(p)
    ensures Compile(p).Some? && (Globs(p, name) <==> p == name)
  {
    if p != "" {
      assert p == [p[0]] + p[1..];
      LiteralGlob(p[1..], if name == "" then "" else name[1..]);
      assert name != "" ==> name == [name[0]] + name[1..];
    }
  }

  lemma {:induction false} SequenceMatches(name: string)
    ensures Matches([AnySequence], name)
  {
    assert [AnySequence][1..] == [];
    if name != "" {
      SequenceMatches(name[1..]);
    }
  }

  /** A star at the end matches whatever begins with the text before it. */
  lemma {:induction false} StarGlob(p: string, name: string)
    requires Literal(p)
    ensures Globs(p + "*", name) <==> p <= name
  {
    var q := p + "*";
    if p == "" {
      assert q[1..] == "";
      assert Compile(q).value == [AnySequence];
      SequenceMatches(name);
    } else {
      assert p == [p[0]] + p[1..];
      assert q[0] == p[0] && q[1..] == p[1..] + "*";
      StarGlob(p[1..], if name == "" then "" else name[1..]);
      CompileStar(p[1..]);
      assert name != "" ==> name == [name[0]] + name[1..];
    }
  }

  lemma {:induction false} CompileStar(p: string)
    requires Literal(p)
    ensures Compile(p + "*").Some?
  {
    var q := p + "*";
    if p == "" {
      assert q[1..] == "";
    } else {
      assert p == [p[0]] + p[1..];
      assert q[0] == p[0] && q[1..] == p[1..] + "*";
      CompileStar(p[1..]);
    }
  }
}
