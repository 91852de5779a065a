/**
  Keys that no directory entry can have, adds that were cut off, and the look-up before an add: for each
  the exact condition and an input that meets or fails it.
 */
module EavCuts {

  import opened Wrappers
  import opened AttributeText
  import opened FilePath
  import opened Glob
  import opened EavStore
  import opened EavQuery
  import opened EavKeys

  // ---------------------------------------------------------------- keys that name no entry

  /** The store's directory is resolved; files and indices are named by single entries. */
  ghost predicate Proper(c: Codec) {
    && Resolved(c.root)
    && (forall e :: Component(c.file(e)))
    && (forall i :: Component(c.indexName(i)))
  }

  lemma DirResolved(c: Codec, s: Sub, e: Eav, i: nat)
    requires Proper(c) && i <= |Parts(Key(s, e))|
    ensures Resolved(Walk(Start(Tree(c, s), Key(s, e)), Parts(Key(s, e))[..i]))
  {
    PartsAreNames(Key(s, e));
    assert Component(TreeName(s));
    WalkResolved(Start(Tree(c, s), Key(s, e)), Parts(Key(s, e))[..i]);
  }

  lemma TreeResolved(c: Codec, s: Sub, e: Eav, x: Effect)
    requires Proper(c) && x in TreeEffects(c, s, e)
    ensures Resolved(x.path)
  {
    hide Walk, Start, Tree, Key, Parts;
    var parts := Parts(Key(s, e));
    var passed := Passed(Start(Tree(c, s), Key(s, e)), parts);
    DirResolved(c, s, e, |parts|);
    assert parts[..|parts|] == parts;
    if x in MakeDirs(passed) {
      var i :| 0 <= i < |passed| && x == MakeDir(passed[i]);
      DirResolved(c, s, e, i);
    }
  }

  lemma ListedResolved(c: Codec, h: seq<Add>, s: Sub, n: string)
    requires Proper(c) && Listed(c, h, s, n)
    ensures Component(n)
  {
    hide TreeEffects, Performed, Component;
    var p, x := Tree(c, s) + [n], MakeDir(Tree(c, s) + [n]);
    if !Performed(c, h, x) {
      var t :| Performed(c, h, MakeFile(p, t));
      x := MakeFile(p, t);
    }
    var i, j := PerformedBy(c, h, x);
    var e := h[i].eav;
    assert x in Effects(c, e);
    var u := if x in TreeEffects(c, E, e) then E else if x in TreeEffects(c, A, e) then A else V;
    TreeResolved(c, u, e, x);
    assert p[|p| - 1] == n;
  }

  /** A triple is led to by its own key only if the key names one entry. */
  lemma OwnNeedsName(c: Codec, h: seq<Add>, s: Sub, e: Eav)
    requires Proper(c) && LeadsTo(c, h, s, Own(s, e), e)
    ensures Component(Key(s, e))
  {
    hide Listed, Reaches, ReadAs, Component, Finds;
    var n :| Open(c, h, s, n) && ReadAs(s, n) == Some(Own(s, e)) && Finds(c, h, s, n, e);
    ListedResolved(c, h, s, n);
    OwnName(s, n, e);
  }

  ghost predicate AllComplete(c: Codec, h: seq<Add>) {
    forall i | 0 <= i < |h| :: h[i].steps >= |Effects(c, h[i].eav)|
  }

  /**
    After any adds that ran to their end, of any keys whatever, the store agrees with filtering one set
    exactly when every key names one entry, finds itself, and is picked by no other.
   */
  lemma CompleteAgrees(c: Codec, h: seq<Add>)
    requires Faithful(c) && Proper(c) && AllComplete(c, h)
    ensures Agrees(c, h) <==> NamedHistory(h) && KeysApart(h)
  {
    hide Agrees, KeysApart, Effects, LeadsTo, Component, Own, Key;
    if Agrees(c, h) {
      AgreesExactly(c, h);
      forall i, s | 0 <= i < |h|
        ensures Component(Key(s, h[i].eav))
      {
        var e := h[i].eav;
        assert Complete(c, h, e) && Straight(c, h, e);
        assert LeadsTo(c, h, s, Own(s, e), e);
        OwnNeedsName(c, h, s, e);
      }
    }
    if NamedHistory(h) {
      NamedAgrees(c, h);
    }
  }

  /** Wherever a key's directory turns out to lie in its tree, its name there leads to the triple, if it is open. */
  lemma ResolvedName(c: Codec, h: seq<Add>, s: Sub, n: string, e: Eav)
    requires Faithful(c) && Complete(c, h, e) && DirOf(c, s, e) == Tree(c, s) + [n]
    requires Open(c, h, s, n) && ReadAs(s, n).Some? && Picks(n, n)
    ensures LeadsTo(c, h, s, ReadAs(s, n).value, e)
  {
    hide DirOf, Tree, ReadAs, Performed, Complete, Reaches, Picks, Open, EndsTxt;
    CompleteDir(c, h, s, e);
    ReachesOwn(Tree(c, s), n, c.indexName(e.index), c.file(e));
    assert Finds(c, h, s, n, e);
  }

  lemma ReachesOwn(base: Path, n: string, index: string, file: string)
    requires Picks(n, n) && EndsTxt(file)
    ensures Reaches(base, n, base + [n] + [index, file])
  {
    hide Globs, EndsTxt;
    var p := base + [n] + [index, file];
    assert p[..|base|] == base && p[|base|..] == [n, index, file];
  }

  /** A slash at the end of a key makes the same directories as the key without it. */
  lemma SlashTree(c: Codec, s: Sub, e: Eav, n: string)
    requires Component(n) && Key(s, e) == n + "/"
    ensures var t, i := Tree(c, s), c.indexName(e.index);
            && DirOf(c, s, e) == t + [n]
            && TreeEffects(c, s, e) ==
               [MakeDir(t), MakeDir(t + [n]), MakeDir(t + [n, i]), MakeFile(t + [n, i, c.file(e)], c.text(e))]
  {
    var t, i := Tree(c, s), c.indexName(e.index);
    JoinComponent(t, n);
    PartsTrailingSlash(n);
    assert (n + "/")[0] == n[0];
    hide Parts, Tree, Key, Component;
    assert Start(t, Key(s, e)) == t;
    assert DirOf(c, s, e) == t + [n];
    assert t + [n] + [i] == t + [n, i];
    assert t + [n] + [i, c.file(e)] == t + [n, i, c.file(e)];
    assert MakeDirs([t, t + [n]]) == [MakeDir(t), MakeDir(t + [n])];
  }

  /** A slash at the end of a tag: the triple is found under the tag without it. */
  lemma SlashTag(c: Codec, h: seq<Add>, e: Eav, kind: string, tag: string)
    requires Faithful(c) && ShallowHistory(c, h) && Complete(c, h, e) && e.attribute == LinkTag(kind, tag + "/")
    requires Clean(LinkTag(kind, tag))
    requires var n := Show(LinkTag(kind, tag)); Component(n) && Picks(n, n)
    ensures LeadsTo(c, h, A, Attr(LinkTag(kind, tag)), e) && !Straight(c, h, e)
  {
    hide Show, Key, DirOf, TreeEffects, ReadAs, Complete, LeadsTo, Straight, Picks, Performed, Open, Tree;
    hide Component, Clean, Shallow, Faithful, Dotted;
    var n := Show(LinkTag(kind, tag));
    SlashNames(e, kind, tag);
    SlashTree(c, A, e, n);
    CompleteDir(c, h, A, e);
    LinkNotDotted(kind, tag);
    ShallowOpen(c, h, A, n);
    ResolvedName(c, h, A, n, e);
    OtherValue(c, h, A, Attr(LinkTag(kind, tag)), e);
  }

  lemma LinkNotDotted(kind: string, tag: string)
    ensures !Dotted(Show(LinkTag(kind, tag)))
  {
    assert Show(LinkTag(kind, tag))[0] == LINK[0];
  }

  lemma SlashNames(e: Eav, kind: string, tag: string)
    requires e.attribute == LinkTag(kind, tag + "/") && Clean(LinkTag(kind, tag))
    ensures Key(A, e) == Show(LinkTag(kind, tag)) + "/"
    ensures ReadAs(A, Show(LinkTag(kind, tag))) == Some(Attr(LinkTag(kind, tag)))
  {
    hide Parse, Clean;
    AttributeRoundTrip(LinkTag(kind, tag));
  }

  lemma OtherValue(c: Codec, h: seq<Add>, s: Sub, kv: KeyValue, e: Eav)
    requires Complete(c, h, e) && LeadsTo(c, h, s, kv, e) && kv != Own(s, e)
    ensures !Straight(c, h, e)
  {
    hide Complete, LeadsTo;
  }

  /** The tag `x/`, added alone. */
  lemma SlashTagFound(c: Codec, e: Eav, steps: nat)
    requires Faithful(c) && Component(e.entity) && Component(e.value) && e.attribute == LinkTag("t", "x/")
    requires steps >= |Effects(c, e)|
    ensures LeadsTo(c, [Add(e, steps)], A, Attr(LinkTag("t", "x")), e) && !Agrees(c, [Add(e, steps)])
  {
    hide LeadsTo, Straight, Agrees, Picks, Effects, Show, Component, Clean, Shallow;
    var h := [Add(e, steps)];
    assert h[0].eav == e && Complete(c, h, e);
    XName();
    assert "x/" == "x" + "/";
    SlashNames(e, "t", "x");
    SlashShallow(c, e, "link__t__x");
    SlashTag(c, h, e, "t", "x");
    AgreesExactly(c, h);
  }

  lemma XName()
    ensures Show(LinkTag("t", "x")) == "link__t__x" && Component("link__t__x") && Picks("link__t__x", "link__t__x")
    ensures Clean(LinkTag("t", "x"))
  {
    hide Globs;
    LiteralGlob("link__t__x", "link__t__x");
    assert forall i: nat :: !SeparatorAt("_" + "x", i);
  }

  lemma SlashShallow(c: Codec, e: Eav, n: string)
    requires Component(n) && Key(A, e) == n + "/" && Component(e.entity) && Component(e.value)
    ensures Shallow(c, e)
  {
    hide TreeEffects, Component;
    SlashTree(c, A, e, n);
    forall u, x | x in TreeEffects(c, u, e) && x.MakeDir?
      ensures ShallowPath(c, e, x.path)
    {
      if u == A {
        ShallowTree(c, u, e, n, x);
      } else {
        NamedTree(c, u, e);
        ShallowTree(c, u, e, Key(u, e), x);
      }
    }
  }

  /** A directory at the depth of files whose name ends in `.txt` hides everything under the name above it. */
  lemma TxtDirHides(c: Codec, h: seq<Add>, s: Sub, n: string, index: string, dir: string)
    requires Performed(c, h, MakeDir(Tree(c, s) + [n, index, dir])) && EndsTxt(dir) && Picks(n, n)
    ensures !Open(c, h, s, n)
  {
    hide Performed, Listed, Picks, EndsTxt, Reaches;
    ReachesOwn(Tree(c, s), n, index, dir);
    assert Tree(c, s) + [n, index, dir] == Tree(c, s) + [n] + [index, dir];
  }

  /** An entity `k/0/y.txt`, once its directories are there, hides every triple of the entity `k`. */
  lemma TxtEntityHides(c: Codec, h: seq<Add>, f: Eav, e: Eav)
    requires Complete(c, h, f) && f.entity == "k/0/y.txt"
    ensures !LeadsTo(c, h, E, Text("k"), e)
  {
    hide Complete, Performed, Reaches, Finds, Open, Parts;
    TxtParts();
    assert f.entity[0] != '/';
    WalkDown(Tree(c, E), ["k", "0", "y.txt"]);
    CompleteDir(c, h, E, f);
    LiteralGlob("k", "k");
    TxtDirHides(c, h, E, "k", "0", "y.txt");
  }

  lemma TxtParts()
    ensures Parts("k/0/y.txt") == ["k", "0", "y.txt"]
  {
    hide Parts, FirstSlash;
    TxtPart();
    var t, u := "k/0/y.txt", "0/y.txt";
    assert t[..1] == "k" && t[2..] == u;
    SlashAt(t, 1);
    PartsAt(t);
  }

  lemma TxtPart()
    ensures Parts("0/y.txt") == ["0", "y.txt"]
  {
    hide Parts, FirstSlash;
    var u := "0/y.txt";
    assert u[..1] == "0" && u[2..] == "y.txt";
    SlashAt(u, 1);
    PartsAt(u);
    JoinComponent([], "y.txt");
  }

  lemma CompleteDir(c: Codec, h: seq<Add>, s: Sub, e: Eav)
    requires Complete(c, h, e)
    ensures Performed(c, h, MakeDir(DirOf(c, s, e))) && FileMade(c, h, s, e)
  {
    hide TreeEffects, Performed, DirOf, FileOf;
    var i :| 0 <= i < |h| && h[i].eav == e && h[i].steps >= |Effects(c, e)|;
    LastOfTree(c, s, e);
    forall x | x in TreeEffects(c, s, e)
      ensures Performed(c, h, x)
    {
      assert x in Effects(c, e);
      var j :| 0 <= j < |Effects(c, e)| && Effects(c, e)[j] == x;
      DoneBy(c, h, i, j);
    }
  }

  lemma LastOfTree(c: Codec, s: Sub, e: Eav)
    ensures MakeDir(DirOf(c, s, e)) in TreeEffects(c, s, e)
    ensures MakeFile(FileOf(c, s, e), c.text(e)) in TreeEffects(c, s, e)
  {
    hide Walk, Start, Tree, Key, Parts, FileOf;
    var parts := Parts(Key(s, e));
    var dirs := MakeDirs(Passed(Start(Tree(c, s), Key(s, e)), parts));
    assert parts[..|parts|] == parts;
    assert dirs[|parts|] == MakeDir(DirOf(c, s, e));
    assert TreeEffects(c, s, e)[|parts|] == dirs[|parts|];
    assert TreeEffects(c, s, e)[|parts| + 2] == MakeFile(FileOf(c, s, e), c.text(e));
  }

  // ---------------------------------------------------------------- adds that were cut off

  lemma CompleteWithout(c: Codec, h: seq<Add>, k: nat, e: Eav)
    requires k < |h| && h[k].steps < |Effects(c, h[k].eav)|
    ensures Complete(c, h, e) <==> Complete(c, Without(h, k), e)
  {
    hide Effects;
    var g := Without(h, k);
    if Complete(c, h, e) {
      var i :| 0 <= i < |h| && h[i].eav == e && h[i].steps >= |Effects(c, e)|;
      assert g[if i < k then i else i - 1] == h[i];
    }
    if Complete(c, g, e) {
      var i :| 0 <= i < |g| && g[i].eav == e && g[i].steps >= |Effects(c, e)|;
      assert h[if i < k then i else i + 1] == g[i];
    }
  }

  lemma NamedWithout(h: seq<Add>, k: nat)
    requires k < |h| && NamedHistory(h)
    ensures NamedHistory(Without(h, k))
  {
    hide Named;
    var g := Without(h, k);
    assert forall i | 0 <= i < |g| :: g[i] == h[if i < k then i else i + 1];
  }

  lemma EnteredWithout(h: seq<Add>, k: nat, s: Sub, n: string)
    requires k < |h|
    ensures Entered(h, s, n) <==>
            Entered(Without(h, k), s, n) || (Key(s, h[k].eav) == n && h[k].steps >= Entering(s))
  {
    hide Key;
    var g := Without(h, k);
    if Entered(h, s, n) {
      var i :| 0 <= i < |h| && Key(s, h[i].eav) == n && h[i].steps >= Entering(s);
      assert i != k ==> g[if i < k then i else i - 1] == h[i];
    }
    if Entered(g, s, n) {
      var i :| 0 <= i < |g| && Key(s, g[i].eav) == n && g[i].steps >= Entering(s);
      assert h[if i < k then i else i + 1] == g[i];
    }
  }

  /** Some usable and readable name picks the key. */
  ghost predicate Picked(h: seq<Add>, s: Sub, key: string) {
    exists n :: Usable(h, s, n) && ReadAs(s, n).Some? && Picks(n, key)
  }

  ghost predicate Reachable(h: seq<Add>, e: Eav) {
    forall s :: Picked(h, s, Key(s, e))
  }

  /** The same readable names that pick the key are usable. */
  ghost predicate SameNames(h: seq<Add>, g: seq<Add>, s: Sub, key: string) {
    forall n | ReadAs(s, n).Some? && Picks(n, key) :: Usable(h, s, n) <==> Usable(g, s, n)
  }

  /** What is asked of the keys: either nothing finds the triple, or the same names do. */
  ghost predicate KeysAlike(h: seq<Add>, g: seq<Add>, e: Eav) {
    (!Reachable(h, e) && !Reachable(g, e)) || forall s :: SameNames(h, g, s, Key(s, e))
  }

  /** Whether the `k`th add is invisible can be told from the keys of the completed triples and of all adds. */
  ghost predicate Hidden(h: seq<Add>, k: nat)
    requires k < |h|
  {
    forall j | 0 <= j < |h| && h[j].steps >= ALL :: KeysAlike(h, Without(h, k), h[j].eav)
  }

  lemma WaysAlike(h: seq<Add>, g: seq<Add>, s: Sub, key: string)
    ensures (forall kv :: Way(h, s, kv, key) <==> Way(g, s, kv, key)) <==> SameNames(h, g, s, key)
  {
    hide Usable, ReadAs, Picks;
    if forall kv :: Way(h, s, kv, key) <==> Way(g, s, kv, key) {
      forall n | ReadAs(s, n).Some? && Picks(n, key)
        ensures Usable(h, s, n) <==> Usable(g, s, n)
      {
        WayOfName(h, s, n, key);
        WayOfName(g, s, n, key);
      }
    }
  }

  /** A readable name that picks the key is usable exactly when what it reads as is a way. */
  lemma WayOfName(h: seq<Add>, s: Sub, n: string, key: string)
    requires ReadAs(s, n).Some? && Picks(n, key)
    ensures Usable(h, s, n) <==> Way(h, s, ReadAs(s, n).value, key)
  {
    hide Usable, ReadAs, Picks;
    var kv := ReadAs(s, n).value;
    if Way(h, s, kv, key) {
      var m :| Usable(h, s, m) && ReadAs(s, m) == Some(kv) && Picks(m, key);
      SameReading(s, m, n);
    }
  }

  lemma SameReading(s: Sub, m: string, n: string)
    requires ReadAs(s, m).Some? && ReadAs(s, m) == ReadAs(s, n)
    ensures m == n
  {
    ShowOfParsed(m);
    ShowOfParsed(n);
  }

  lemma UnreachedKeys(c: Codec, h: seq<Add>, e: Eav)
    requires Faithful(c) && NamedHistory(h) && Complete(c, h, e)
    ensures OutOfReach(c, h, e) <==> !Reachable(h, e)
  {
    hide LeadsTo, FileMade, Complete, Usable, ReadAs, Picks, Key;
    CompleteFiles(c, h, e);
    forall s, kv
      ensures LeadsTo(c, h, s, kv, e) <==> Way(h, s, kv, Key(s, e))
    {
      NamedLeads(c, h, s, kv, e);
    }
    forall s
      ensures Unreached(c, h, s, e) <==> !Picked(h, s, Key(s, e))
    {
      if n :| Usable(h, s, n) && ReadAs(s, n).Some? && Picks(n, Key(s, e)) {
        assert Way(h, s, ReadAs(s, n).value, Key(s, e));
      }
    }
  }

  lemma LedAlikeKeys(c: Codec, h: seq<Add>, g: seq<Add>, s: Sub, e: Eav)
    requires Faithful(c) && NamedHistory(h) && NamedHistory(g)
    requires FileMade(c, h, s, e) && FileMade(c, g, s, e)
    ensures LedAlike(c, h, g, s, e) <==> SameNames(h, g, s, Key(s, e))
  {
    hide LeadsTo, FileMade, Way, SameNames, Key, Named;
    forall kv
      ensures LeadsTo(c, h, s, kv, e) <==> Way(h, s, kv, Key(s, e))
      ensures LeadsTo(c, g, s, kv, e) <==> Way(g, s, kv, Key(s, e))
    {
      NamedLeads(c, h, s, kv, e);
      NamedLeads(c, g, s, kv, e);
    }
    WaysAlike(h, g, s, Key(s, e));
  }

  lemma IncompleteOutOfReach(c: Codec, h: seq<Add>, e: Eav)
    requires Faithful(c) && NamedHistory(h) && !Complete(c, h, e)
    ensures OutOfReach(c, h, e)
  {
    hide LeadsTo, FileMade, Complete, Key, Way, Named;
    CompleteFiles(c, h, e);
    forall kv
      ensures !LeadsTo(c, h, V, kv, e)
    {
      NamedLeads(c, h, V, kv, e);
    }
    assert Unreached(c, h, V, e);
  }

  lemma SameWaysKeys(c: Codec, h: seq<Add>, g: seq<Add>, e: Eav)
    requires Faithful(c) && NamedHistory(h) && NamedHistory(g) && (Complete(c, h, e) <==> Complete(c, g, e))
    ensures SameWays(c, h, g, e) <==> (Complete(c, h, e) ==> KeysAlike(h, g, e))
  {
    hide LedAlike, FileMade, Complete, Reachable, SameNames, OutOfReach, Entered, Key, Named;
    if Complete(c, h, e) {
      CompleteFiles(c, h, e);
      CompleteFiles(c, g, e);
      UnreachedKeys(c, h, e);
      UnreachedKeys(c, g, e);
      forall s
        ensures LedAlike(c, h, g, s, e) <==> SameNames(h, g, s, Key(s, e))
      {
        LedAlikeKeys(c, h, g, s, e);
      }
    } else {
      IncompleteOutOfReach(c, h, e);
      IncompleteOutOfReach(c, g, e);
    }
  }

  /**
    With keys that name one entry each, an add that was cut off is invisible to every query exactly when
    for each completed triple the same names find it without the add, or none did and none do.
   */
  lemma TornInvisibleExactly(c: Codec, h: seq<Add>, k: nat)
    requires Faithful(c) && NamedHistory(h) && k < |h| && h[k].steps < |Effects(c, h[k].eav)|
    ensures SameResults(c, h, Without(h, k)) <==> Hidden(h, k)
  {
    hide SameResults, SameWays, KeysAlike, Effects, Named, Without;
    var g := Without(h, k);
    AlikeExactly(c, h, g);
    NamedWithout(h, k);
    forall e
      ensures SameWays(c, h, g, e) <==> (Complete(c, h, e) ==> KeysAlike(h, g, e))
    {
      CompleteWithout(c, h, k, e);
      SameWaysKeys(c, h, g, e);
    }
    forall j | 0 <= j < |h|
      ensures |Effects(c, h[j].eav)| == ALL
    {
      EffectAt(c, h[j].eav, E, 0);
    }
    if forall e :: SameWays(c, h, g, e) {
      forall j | 0 <= j < |h| && h[j].steps >= ALL
        ensures KeysAlike(h, g, h[j].eav)
      {
        assert Complete(c, h, h[j].eav);
      }
    }
  }

  // ---------------------------------------------------------------- plain keys

  /** Every key names one entry, is no pattern, and is read back as itself. */
  ghost predicate Plain(e: Eav) {
    Named(e) && Clean(e.attribute) && forall s :: Literal(Key(s, e))
  }

  ghost predicate PlainHistory(h: seq<Add>) {
    forall i | 0 <= i < |h| :: Plain(h[i].eav)
  }

  lemma PlainEntered(h: seq<Add>, s: Sub, n: string, key: string)
    requires PlainHistory(h) && Entered(h, s, n)
    ensures (Picks(n, key) <==> n == key) && Usable(h, s, n)
  {
    hide Globs, Key;
    var i :| 0 <= i < |h| && Key(s, h[i].eav) == n && h[i].steps >= Entering(s);
    assert Literal(Key(s, h[i].eav));
    LiteralGlob(n, key);
  }

  /** With plain keys, after any adds and wherever they were cut off, the store agrees with filtering one set. */
  lemma PlainAgrees(c: Codec, h: seq<Add>)
    requires Faithful(c) && PlainHistory(h)
    ensures Agrees(c, h)
  {
    hide Agrees, Picks, Key, Literal, Hindered;
    forall j, s | 0 <= j < |h| && h[j].steps >= ALL
      ensures FindsItself(h, s, h[j].eav) && Apart(h, s, Key(s, h[j].eav))
    {
      assert Entered(h, s, Key(s, h[j].eav));
      forall n | Entered(h, s, n)
        ensures (Picks(n, Key(s, h[j].eav)) <==> n == Key(s, h[j].eav)) && Usable(h, s, n)
      {
        PlainEntered(h, s, n, Key(s, h[j].eav));
      }
    }
    NamedAgrees(c, h);
  }

  /** With plain keys an add that was cut off is invisible to every query. */
  lemma TornPlainInvisible(c: Codec, h: seq<Add>, k: nat, q: Query)
    requires Faithful(c) && PlainHistory(h) && k < |h| && h[k].steps < |Effects(c, h[k].eav)|
    ensures Intersection(c, DiskAfter(c, h), q) == Intersection(c, DiskAfter(c, Without(h, k)), q)
  {
    hide Effects, SameResults, Intersection, DiskAfter, SameNames, Plain;
    var g := Without(h, k);
    assert forall i | 0 <= i < |g| :: g[i] == h[if i < k then i else i + 1];
    assert PlainHistory(g);
    forall i | 0 <= i < |h|
      ensures Named(h[i].eav)
    {
      PlainIsNamed(h[i].eav);
    }
    EffectAt(c, h[k].eav, E, 0);
    forall j, s | 0 <= j < |h| && h[j].steps >= ALL
      ensures SameNames(h, g, s, Key(s, h[j].eav))
    {
      assert g[if j < k then j else j - 1] == h[j];
      PlainSameNames(h, g, j, if j < k then j else j - 1, s);
    }
    TornInvisibleExactly(c, h, k);
    SameTexts(c, h, g, q);
  }

  lemma PlainIsNamed(e: Eav)
    requires Plain(e)
    ensures Named(e)
  {
  }

  /** In two plain histories that both complete a triple, its own key and no other name finds it. */
  lemma PlainSameNames(h: seq<Add>, g: seq<Add>, j: nat, i: nat, s: Sub)
    requires PlainHistory(h) && PlainHistory(g) && j < |h| && i < |g| && g[i] == h[j] && h[j].steps >= ALL
    ensures SameNames(h, g, s, Key(s, h[j].eav))
  {
    hide Picks, Key, ReadAs, Plain, Hindered;
    var key := Key(s, h[j].eav);
    assert Entered(h, s, key) && Entered(g, s, key);
    forall n | Picks(n, key)
      ensures Usable(h, s, n) <==> n == key
      ensures Usable(g, s, n) <==> n == key
    {
      if Entered(h, s, n) {
        PlainEntered(h, s, n, key);
      }
      if Entered(g, s, n) {
        PlainEntered(g, s, n, key);
      }
    }
  }

  /** A tag `*`, cut off as soon as its directory is there: it makes a triple with another tag show up. */
  lemma TornStarVisible(c: Codec, e: Eav, star: Eav)
    requires Faithful(c) && Plain(e) && e.attribute == LinkTag("t", "x")
    requires Named(star) && star.attribute == LinkTag("t", "*")
    ensures var h := [Add(e, ALL), Add(star, Entering(A))];
            !Complete(c, h, star) && !SameResults(c, h, Without(h, 1)) && !Agrees(c, h)
  {
    hide Globs, ReadAs, SameResults, Agrees, Effects, Hindered;
    var h := [Add(e, ALL), Add(star, Entering(A))];
    StarFacts();
    var k := "link__t__*";
    assert Key(A, star) == k && Key(A, e) == "link__t__x";
    EffectAt(c, star, E, 0);
    assert star.attribute != e.attribute;
    forall s
      ensures Picked(h, s, Key(s, e))
    {
      PlainReachable(h, 0, s);
    }
    assert h[0].steps >= ALL && Reachable(h, h[0].eav);
    assert Without(h, 1) == [h[0]];
    assert !Entered([h[0]], A, k);
    assert Entered(h, A, Key(A, h[1].eav));
    NotHindered(h, k);
    assert !SameNames(h, [h[0]], A, Key(A, h[0].eav));
    TornInvisibleExactly(c, h, 1);
    assert !Apart(h, A, Key(A, h[0].eav));
    NamedAgrees(c, h);
  }

  lemma NotHindered(h: seq<Add>, n: string)
    requires n == "" || n[0] != '.' || Literal(n)
    ensures !Hindered(h, n)
  {
  }

  /** The entities `.*` and `k.txt`: the first, read as a pattern, finds the second by way of the parent. */
  lemma DotPatternFails(c: Codec, dot: Eav, txt: Eav)
    requires Faithful(c) && Named(dot) && Named(txt) && dot.entity == ".*" && txt.entity == "k.txt"
    ensures !Agrees(c, [Add(dot, ALL), Add(txt, ALL)])
  {
    hide Agrees, Globs;
    var h := [Add(dot, ALL), Add(txt, ALL)];
    assert h[0].eav == dot && Key(E, h[0].eav) == ".*" && Key(E, h[1].eav) == "k.txt";
    assert Entered(h, E, "k.txt") && EndsTxt("k.txt");
    assert ".*" == "." + "*";
    StarGlob(".", "..");
    assert Hindered(h, ".*");
    assert !FindsItself(h, E, h[0].eav);
    NamedAgrees(c, h);
  }

  lemma StarFacts()
    ensures Show(LinkTag("t", "*")) == "link__t__*" && Show(LinkTag("t", "x")) == "link__t__x"
    ensures Picks("link__t__*", "link__t__x") && ReadAs(A, "link__t__*").Some?
    ensures "link__t__*" != "link__t__x"
  {
    hide Groups, Globs;
    StarPicks();
    assert LINK + "t" + "__" + "*" == "link__t__*";
    GroupsOfPrinted(LINK, "t", "*");
    assert "link__t__*"[9] != "link__t__x"[9];
  }

  lemma StarPicks()
    ensures Globs("link__t__*", "link__t__x")
  {
    hide Globs;
    assert "link__t__*" == "link__t__" + "*";
    assert "link__t__x"[..9] == "link__t__";
    StarGlob("link__t__", "link__t__x");
  }

  lemma PlainReachable(h: seq<Add>, j: nat, s: Sub)
    requires j < |h| && Plain(h[j].eav) && h[j].steps >= ALL
    ensures Picked(h, s, Key(s, h[j].eav))
  {
    var e := h[j].eav;
    OwnName(s, Key(s, e), e);
    LiteralGlob(Key(s, e), Key(s, e));
    NotHindered(h, Key(s, e));
    hide Globs, ReadAs, Key, Hindered;
    assert Entered(h, s, Key(s, e));
  }

  // ---------------------------------------------------------------- the look-up before an add

  /** The path that an add looks up: its star is a name and no pattern. */
  function Probe(c: Codec, e: Eav): Path {
    c.root + ["*", "e", c.indexName(e.index), c.file(e)]
  }

  predicate Taken(c: Codec, disk: Disk, e: Eav) {
    Probe(c, e) in disk.files || Probe(c, e) in disk.dirs
  }

  /**
    The look-up finds something exactly when the triple itself was written with a key that resolves to
    the directory named star, or some key's directory is the very path.
   */
  lemma LookupExact(c: Codec, h: seq<Add>, e: Eav)
    requires Faithful(c)
    ensures Taken(c, DiskAfter(c, h), e) <==>
            || (exists s :: FileMade(c, h, s, e) && DirOf(c, s, e) == c.root + ["*", "e"])
            || Performed(c, h, MakeDir(Probe(c, e)))
  {
    hide DiskAfter, Performed, DirOf;
    DiskHolds(c, h);
    var p, base := Probe(c, e), c.root + ["*", "e"];
    assert p == base + [c.indexName(e.index), c.file(e)];
    if p in DiskAfter(c, h).files {
      var s, f := WhoseFile(c, h, p);
      var q := FileOf(c, s, f);
      assert p[|p| - 1] == c.file(e) && q[|q| - 1] == c.file(f);
      assert p[..|p| - 2] == base && q[..|q| - 2] == DirOf(c, s, f);
    }
    if s :| FileMade(c, h, s, e) && DirOf(c, s, e) == base {
      FileHolds(c, h, s, e);
    }
  }

  lemma NamedPath(c: Codec, h: seq<Add>, x: Effect)
    requires NamedHistory(h) && Performed(c, h, x)
    ensures |x.path| > |c.root| && x.path[|c.root|] != "*"
  {
    hide TreeEffects, Effects, Performed;
    var i, j := PerformedBy(c, h, x);
    EffectAt(c, h[i].eav, E, 0);
    var u := TreeAt(j);
    EffectAt(c, h[i].eav, u, j - Rank(u));
    NamedTree(c, u, h[i].eav);
    assert TreeName(u)[0] != '*';
  }

  /** With keys that name one entry each the look-up finds nothing, whatever was added before. */
  lemma LookupFindsNothing(c: Codec, h: seq<Add>, e: Eav)
    requires NamedHistory(h)
    ensures !Taken(c, DiskAfter(c, h), e)
  {
    hide DiskAfter, Performed;
    DiskHolds(c, h);
    var p := Probe(c, e);
    assert p[|c.root|] == "*";
    if p in DiskAfter(c, h).files {
      var t :| Performed(c, h, MakeFile(p, t));
      NamedPath(c, h, MakeFile(p, t));
    }
    if p in DiskAfter(c, h).dirs {
      NamedPath(c, h, MakeDir(p));
    }
  }

  /** An entity that steps out of its tree and into a directory named star is found. */
  lemma LookupFinds(c: Codec, h: seq<Add>, e: Eav)
    requires Faithful(c) && Complete(c, h, e) && e.entity == "../*/e"
    ensures Taken(c, DiskAfter(c, h), e)
  {
    hide DiskAfter, Performed, Complete;
    StepsOut(Tree(c, E), e.entity);
    assert Tree(c, E)[..|c.root|] == c.root;
    assert c.root + ["*", "e"] == Tree(c, E)[..|Tree(c, E)| - 1] + ["*", "e"];
    CompleteDir(c, h, E, e);
    LookupExact(c, h, e);
  }

  lemma PartsOut()
    ensures Parts("../*/e") == ["..", "*", "e"]
  {
    hide Parts, FirstSlash;
    var t, u := "../*/e", "*/e";
    assert t[..2] == ".." && t[3..] == u && u[..1] == "*" && u[2..] == "e";
    SlashAt(t, 2);
    SlashAt(u, 1);
    PartsAt(t);
    PartsAt(u);
    JoinComponent([], "e");
  }

  lemma StepsOut(base: Path, t: string)
    requires base != [] && t == "../*/e"
    ensures Join(base, t) == base[..|base| - 1] + ["*", "e"]
  {
    PartsOut();
    hide Parts;
    var ps, up := ["..", "*", "e"], base[..|base| - 1];
    assert ps[..2] == ["..", "*"] && ["..", "*"][..1] == [".."] && [".."][..0] == [];
    assert Walk(base, [".."]) == up;
    assert Walk(base, ["..", "*"]) == up + ["*"];
    assert up + ["*"] + ["e"] == up + ["*", "e"];
  }
}
