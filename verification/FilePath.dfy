/** Joining a text onto a directory, as paths do: slashes separate, dots are followed. */
module FilePath {

  /** An absolute path, resolved to its components. */
  type Path = seq<string>

  /** Empty and single-dot pieces stay where they are. */
  function Piece(t: string): seq<string> {
    if t == "" || t == "." then [] else [t]
  }

  /** The position of the first slash, or the end. */
  function FirstSlash(t: string): (n: nat)
    ensures n <= |t|
  {
    if t == "" || t[0] == '/' then 0 else FirstSlash(t[1..]) + 1
  }

  /** No slash before position `n`. */
  predicate NoSlashBefore(t: string, n: nat)
    requires n <= |t|
  {
    forall i | 0 <= i < n :: t[i] != '/'
  }

  lemma {:induction false} SlashAt(t: string, n: nat)
    requires n <= |t| && NoSlashBefore(t, n) && (n < |t| ==> t[n] == '/')
    ensures FirstSlash(t) == n
  {
    if n > 0 {
      assert t[0] != '/';
      assert forall i | 0 <= i < n - 1 :: t[1..][i] == t[i + 1];
      SlashAt(t[1..], n - 1);
    }
  }

  lemma {:induction false} BeforeFirstSlash(t: string)
    ensures NoSlashBefore(t, FirstSlash(t))
  {
    if t != "" && t[0] != '/' {
      BeforeFirstSlash(t[1..]);
      forall i | 0 <= i < FirstSlash(t)
        ensures t[i] != '/'
      {
        if i > 0 {
          assert t[i] == t[1..][i - 1];
        }
      }
    }
  }

  lemma {:induction false} FirstSlashAppend(t: string)
    ensures FirstSlash(t + "/") == FirstSlash(t)
  {
    if t != "" && t[0] != '/' {
      assert (t + "/")[1..] == t[1..] + "/";
      FirstSlashAppend(t[1..]);
    }
  }

  /** The components of a text. */
  function Parts(t: string): seq<string>
    decreases |t|
  {
    var n := FirstSlash(t);
    if n == |t| then Piece(t) else Piece(t[..n]) + Parts(t[n + 1..])
  }

  function Enter(base: Path, part: string): Path {
    if part != ".." then base + [part]
    else if base == [] then []
    else base[..|base| - 1]
  }

  function Walk(base: Path, parts: seq<string>): Path {
    if parts == [] then base else Enter(Walk(base, parts[..|parts| - 1]), parts[|parts| - 1])
  }

  /** The directories passed on the way, start and end included. */
  function Passed(base: Path, parts: seq<string>): (r: seq<Path>)
    ensures |r| == |parts| + 1 && forall i | 0 <= i <= |parts| :: r[i] == Walk(base, parts[..i])
  {
    seq(|parts| + 1, i requires 0 <= i <= |parts| => Walk(base, parts[..i]))
  }

  /** A text that starts with a slash leaves the base behind. */
  function Start(base: Path, t: string): Path {
    if t != "" && t[0] == '/' then [] else base
  }

  function Join(base: Path, t: string): Path {
    Walk(Start(base, t), Parts(t))
  }

  /** A text that names one entry of a directory. */
  predicate Component(t: string) {
    t != "" && t != "." && t != ".." && '/' !in t
  }

  lemma JoinComponent(base: Path, t: string)
    requires Component(t)
    ensures Start(base, t) == base && Parts(t) == [t] && Join(base, t) == base + [t]
    ensures Passed(base, Parts(t)) == [base, base + [t]]
  {
    assert t[0] in t;
    assert forall i | 0 <= i < |t| :: t[i] in t;
    SlashAt(t, |t|);
    assert [t][..0] == [] && [t][..1] == [t];
    assert Walk(base, [t]) == Enter(Walk(base, [t][..0]), t);
  }

  /** Without steps up, walking appends. */
  lemma {:induction false} WalkDown(base: Path, parts: seq<string>)
    requires ".." !in parts
    ensures Walk(base, parts) == base + parts
  {
    if parts == [] {
      assert base + parts == base;
    } else {
      var front, last := parts[..|parts| - 1], parts[|parts| - 1];
      assert last in parts;
      WalkDown(base, front);
      assert base + front + [last] == base + parts;
    }
  }

  /** Every component names one entry. */
  ghost predicate Resolved(p: Path) {
    forall i | 0 <= i < |p| :: Component(p[i])
  }

  lemma {:induction false} PartsAreNames(t: string)
    ensures forall i | 0 <= i < |Parts(t)| :: Parts(t)[i] == ".." || Component(Parts(t)[i])
    decreases |t|
  {
    hide Parts, FirstSlash;
    var n := FirstSlash(t);
    PartsAt(t);
    BeforeFirstSlash(t);
    assert t[..n] == t || n < |t|;
    assert forall i | 0 <= i < n :: t[..n][i] == t[i];
    if n < |t| {
      PartsAreNames(t[n + 1..]);
    }
  }

  lemma {:induction false} WalkResolved(base: Path, parts: seq<string>)
    requires Resolved(base) && forall i | 0 <= i < |parts| :: parts[i] == ".." || Component(parts[i])
    ensures Resolved(Walk(base, parts))
  {
    if parts != [] {
      WalkResolved(base, parts[..|parts| - 1]);
    }
  }

  /** The components before and after the first slash. */
  lemma PartsAt(t: string)
    ensures var n := FirstSlash(t);
            Parts(t) == if n == |t| then Piece(t) else Piece(t[..n]) + Parts(t[n + 1..])
  {
    hide FirstSlash, Piece;
  }

  lemma {:induction false} PartsTrailingSlash(t: string)
    ensures Parts(t + "/") == Parts(t)
    decreases |t|
  {
    assert Parts("") == [];
    hide Parts, FirstSlash, Piece;
    var n, u := FirstSlash(t), t + "/";
    PartsAt(t);
    PartsAt(u);
    FirstSlashAppend(t);
    if n < |t| {
      assert u[..n] == t[..n] && u[n + 1..] == t[n + 1..] + "/";
      PartsTrailingSlash(t[n + 1..]);
    } else {
      assert u[..n] == t && u[n + 1..] == "";
      assert Piece(t) + [] == Piece(t);
    }
  }

  /** A slash at the end changes nothing. */
  lemma TrailingSlash(base: Path, t: string)
    requires t != ""
    ensures Join(base, t + "/") == Join(base, t)
  {
    PartsTrailingSlash(t);
    assert (t + "/")[0] == t[0];
  }
}
