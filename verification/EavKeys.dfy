/** Which keys keep the EAV store in agreement with one filtered set, and what the others do. */
module EavKeys {

  import opened Wrappers
  import opened AttributeText
  import opened FilePath
  import opened Glob
  import opened EavStore
  import opened EavQuery

  /** Each of the three keys names one entry of a directory. */
  ghost predicate Named(e: Eav) {
    forall s :: Component(Key(s, e))
  }

  ghost predicate NamedHistory(h: seq<Add>) {
    forall i | 0 <= i < |h| :: Named(h[i].eav)
  }

  // ---------------------------------------------------------------- the effects of an add with named keys

  lemma NamedTree(c: Codec, s: Sub, e: Eav)
    requires Component(Key(s, e))
    ensures var t, k, i := Tree(c, s), Key(s, e), c.indexName(e.index);
            && DirOf(c, s, e) == t + [k] && FileOf(c, s, e) == t + [k, i, c.file(e)]
            && TreeEffects(c, s, e) ==
               [MakeDir(t), MakeDir(t + [k]), MakeDir(t + [k, i]), MakeFile(t + [k, i, c.file(e)], c.text(e))]
  {
    var t, k, i := Tree(c, s), Key(s, e), c.indexName(e.index);
    JoinComponent(t, k);
    hide Parts, Start, Join, Passed, Tree, Key;
    assert t + [k] + [i] == t + [k, i];
    assert t + [k] + [i, c.file(e)] == t + [k, i, c.file(e)];
    assert MakeDirs([t, t + [k]]) == [MakeDir(t), MakeDir(t + [k])];
  }

  /** The place of a tree's four effects among the twelve. */
  function Rank(s: Sub): nat {
    match s case E => 0 case A => 4 case V => 8
  }

  /** How many effects enter a key into a tree, and how many complete an add. */
  function Entering(s: Sub): nat { Rank(s) + 2 }

  const ALL: nat := 12

  lemma EffectAt(c: Codec, e: Eav, s: Sub, j: nat)
    requires Named(e) && j < 4
    ensures |Effects(c, e)| == ALL && |TreeEffects(c, s, e)| == 4
    ensures Effects(c, e)[Rank(s) + j] == TreeEffects(c, s, e)[j]
  {
    NamedTree(c, E, e);
    NamedTree(c, A, e);
    NamedTree(c, V, e);
    hide TreeEffects;
  }

  /** Which tree an effect belongs to. */
  function TreeAt(j: nat): (s: Sub)
    requires j < ALL
    ensures Rank(s) <= j < Rank(s) + 4
  {
    if j < 4 then E else if j < 8 then A else V
  }

  lemma TreesDiffer(c: Codec, s: Sub, t: Sub, x: Path, y: Path)
    requires Tree(c, s) + x == Tree(c, t) + y
    ensures s == t && x == y
  {
    assert (Tree(c, s) + x)[|c.root|] == TreeName(s);
    assert (Tree(c, t) + y)[|c.root|] == TreeName(t);
    assert TreeName(s)[0] == TreeName(t)[0];
    assert (Tree(c, s) + x)[|c.root| + 1..] == x;
    assert (Tree(c, t) + y)[|c.root| + 1..] == y;
  }

  lemma TreeLengths(c: Codec, s: Sub, u: Sub)
    ensures |Tree(c, s)| == |Tree(c, u)| == |c.root| + 1
  {
  }

  // ---------------------------------------------------------------- what such adds have made

  lemma PerformedBy(c: Codec, h: seq<Add>, x: Effect) returns (i: nat, j: nat)
    requires Performed(c, h, x)
    ensures i < |h| && j < |Effects(c, h[i].eav)| && j < h[i].steps && Effects(c, h[i].eav)[j] == x
  {
    hide Effects;
    i :| 0 <= i < |h| && x in Done(c, h[i]);
    j :| 0 <= j < |Done(c, h[i])| && Done(c, h[i])[j] == x;
  }

  lemma DoneBy(c: Codec, h: seq<Add>, i: nat, j: nat)
    requires i < |h| && j < |Effects(c, h[i].eav)| && j < h[i].steps
    ensures Performed(c, h, Effects(c, h[i].eav)[j])
  {
    hide Effects;
    assert Done(c, h[i])[j] == Effects(c, h[i].eav)[j];
  }

  /** Some add has got as far as entering this name into the tree. */
  ghost predicate Entered(h: seq<Add>, s: Sub, n: string) {
    exists i | 0 <= i < |h| :: Key(s, h[i].eav) == n && h[i].steps >= Entering(s)
  }

  /** What lies two below the store's directory is a key that was entered into a tree. */
  lemma NamedEntry(c: Codec, h: seq<Add>, x: Effect) returns (u: Sub, k: string)
    requires NamedHistory(h) && Performed(c, h, x) && |x.path| == |c.root| + 2
    ensures x == MakeDir(Tree(c, u) + [k]) && Entered(h, u, k)
  {
    hide TreeEffects, Effects, Performed;
    var i, j := PerformedBy(c, h, x);
    EffectAt(c, h[i].eav, E, 0);
    u := TreeAt(j);
    EffectAt(c, h[i].eav, u, j - Rank(u));
    NamedTree(c, u, h[i].eav);
    k := Key(u, h[i].eav);
    hide Tree, Key;
    TreeLengths(c, u, u);
    assert x == MakeDir(Tree(c, u) + [k]);
  }

  lemma ListedEntered(c: Codec, h: seq<Add>, s: Sub, n: string)
    requires NamedHistory(h) && Listed(c, h, s, n)
    ensures Entered(h, s, n)
  {
    hide Performed, Entered, Tree;
    var p, x := Tree(c, s) + [n], MakeDir(Tree(c, s) + [n]);
    if !Performed(c, h, x) {
      var t :| Performed(c, h, MakeFile(p, t));
      x := MakeFile(p, t);
    }
    TreeLengths(c, s, s);
    var u, k := NamedEntry(c, h, x);
    TreesDiffer(c, s, u, [n], [k]);
  }

  lemma EnteredListed(c: Codec, h: seq<Add>, s: Sub, n: string)
    requires NamedHistory(h) && Entered(h, s, n)
    ensures Performed(c, h, MakeDir(Tree(c, s) + [n])) && Listed(c, h, s, n)
  {
    hide TreeEffects, Effects, Performed, Key;
    var i :| 0 <= i < |h| && Key(s, h[i].eav) == n && h[i].steps >= Entering(s);
    EffectAt(c, h[i].eav, s, 1);
    NamedTree(c, s, h[i].eav);
    DoneBy(c, h, i, Rank(s) + 1);
  }

  lemma SameFile(c: Codec, s: Sub, e: Eav, u: Sub, f: Eav)
    requires Faithful(c) && FileOf(c, s, e) == FileOf(c, u, f)
    ensures e == f && DirOf(c, s, e) == DirOf(c, u, f)
  {
    hide DirOf;
    var p, q := FileOf(c, s, e), FileOf(c, u, f);
    assert p[|p| - 1] == c.file(e) && q[|q| - 1] == c.file(f);
    assert p[..|p| - 2] == DirOf(c, s, e) && q[..|q| - 2] == DirOf(c, u, f);
  }

  /** A file of a triple was made by an add of that triple that got to the end of that tree. */
  lemma FileMadeBy(c: Codec, h: seq<Add>, s: Sub, e: Eav) returns (i: nat)
    requires Faithful(c) && NamedHistory(h) && FileMade(c, h, s, e)
    ensures i < |h| && h[i].eav == e && h[i].steps >= Rank(s) + 4
  {
    hide TreeEffects, Effects;
    var j;
    i, j := PerformedBy(c, h, MakeFile(FileOf(c, s, e), c.text(e)));
    var f := h[i].eav;
    EffectAt(c, f, E, 0);
    var u := TreeAt(j);
    EffectAt(c, f, u, j - Rank(u));
    NamedTree(c, u, f);
    assert FileOf(c, s, e) == FileOf(c, u, f) && j == Rank(u) + 3;
    SameFile(c, s, e, u, f);
    NamedTree(c, s, e);
    TreesDiffer(c, s, u, [Key(s, e), c.indexName(e.index), c.file(e)], [Key(u, f), c.indexName(f.index), c.file(f)]);
  }

  lemma MadeFile(c: Codec, h: seq<Add>, i: nat, s: Sub)
    requires NamedHistory(h) && i < |h| && h[i].steps >= Rank(s) + 4
    ensures FileMade(c, h, s, h[i].eav)
  {
    hide TreeEffects, Effects, Performed, Key;
    EffectAt(c, h[i].eav, s, 3);
    NamedTree(c, s, h[i].eav);
    DoneBy(c, h, i, Rank(s) + 3);
  }

  lemma CompleteMakes(c: Codec, h: seq<Add>, e: Eav, s: Sub)
    requires NamedHistory(h) && Complete(c, h, e)
    ensures FileMade(c, h, s, e) && Entered(h, s, Key(s, e))
  {
    hide FileMade, Effects, Key, Named;
    var i :| 0 <= i < |h| && h[i].eav == e && h[i].steps >= |Effects(c, e)|;
    EffectAt(c, e, E, 0);
    MadeFile(c, h, i, s);
  }

  lemma CompleteFiles(c: Codec, h: seq<Add>, e: Eav)
    requires Faithful(c) && NamedHistory(h)
    ensures Complete(c, h, e) <==> FileMade(c, h, V, e)
    ensures Complete(c, h, e) ==> forall s :: FileMade(c, h, s, e) && Entered(h, s, Key(s, e))
  {
    hide FileMade, Effects, Key, Named, Entered, Faithful;
    if FileMade(c, h, V, e) {
      var i := FileMadeBy(c, h, V, e);
      EffectAt(c, e, E, 0);
    }
    if Complete(c, h, e) {
      forall s
        ensures FileMade(c, h, s, e) && Entered(h, s, Key(s, e))
      {
        CompleteMakes(c, h, e, s);
      }
    }
  }

  // ---------------------------------------------------------------- which names find which

  /** No directory lies deeper than an index, and those two below a tree are indices. */
  ghost predicate Shallow(c: Codec, e: Eav) {
    forall u, x | x in TreeEffects(c, u, e) && x.MakeDir? :: ShallowPath(c, e, x.path)
  }

  predicate ShallowPath(c: Codec, e: Eav, p: Path) {
    |p| <= |c.root| + 2 || (|p| == |c.root| + 3 && p[|c.root| + 2] == c.indexName(e.index))
  }

  ghost predicate ShallowHistory(c: Codec, h: seq<Add>) {
    forall i | 0 <= i < |h| :: Shallow(c, h[i].eav)
  }

  lemma NamedShallow(c: Codec, e: Eav)
    requires Named(e)
    ensures Shallow(c, e)
  {
    hide TreeEffects, Key, Component;
    forall u, x | x in TreeEffects(c, u, e) && x.MakeDir?
      ensures ShallowPath(c, e, x.path)
    {
      NamedTree(c, u, e);
      ShallowTree(c, u, e, Key(u, e), x);
    }
  }

  lemma ShallowTree(c: Codec, u: Sub, e: Eav, k: string, x: Effect)
    requires var t, i := Tree(c, u), c.indexName(e.index);
             x in [MakeDir(t), MakeDir(t + [k]), MakeDir(t + [k, i])]
    ensures ShallowPath(c, e, x.path)
  {
  }

  lemma ShallowDir(c: Codec, h: seq<Add>, d: Path) returns (i: nat)
    requires ShallowHistory(c, h) && Performed(c, h, MakeDir(d))
    ensures i < |h| && ShallowPath(c, h[i].eav, d)
  {
    hide TreeEffects, Performed;
    var j;
    i, j := PerformedBy(c, h, MakeDir(d));
    var e := h[i].eav;
    assert MakeDir(d) in Effects(c, e);
    var u := if MakeDir(d) in TreeEffects(c, E, e) then E else if MakeDir(d) in TreeEffects(c, A, e) then A else V;
    assert MakeDir(d) in TreeEffects(c, u, e);
    assert Shallow(c, e);
  }

  /** The only directories that a pattern can then find are entries of the trees, by way of the parent. */
  lemma ShallowReach(c: Codec, h: seq<Add>, s: Sub, n: string, d: Path)
    requires Faithful(c) && ShallowHistory(c, h) && Performed(c, h, MakeDir(d))
    ensures Reaches(Tree(c, s), n, d) <==> Dotted(n) && Globs(n, "..") && TwoBelow(c.root, d)
  {
    hide Performed, Globs, EndsTxt, Dotted, Shallow;
    var i := ShallowDir(c, h, d);
    TreeLengths(c, s, s);
    assert !EndsTxt(c.indexName(h[i].eav.index));
    assert Tree(c, s)[..|c.root|] == c.root;
  }

  lemma ShallowOpen(c: Codec, h: seq<Add>, s: Sub, n: string)
    requires Faithful(c) && ShallowHistory(c, h) && !Dotted(n)
    ensures Open(c, h, s, n) <==> Listed(c, h, s, n)
  {
    hide Listed, Performed, Reaches, Dotted, Shallow;
    forall d | Performed(c, h, MakeDir(d))
      ensures !Reaches(Tree(c, s), n, d)
    {
      ShallowReach(c, h, s, n, d);
    }
  }

  /** By way of the parent directory the pattern finds a key that ends in `.txt`, which is a directory. */
  ghost predicate Hindered(h: seq<Add>, n: string) {
    Dotted(n) && Globs(n, "..") && exists u, k :: Entered(h, u, k) && EndsTxt(k)
  }

  /** The name was entered, and reading it does not fail. */
  ghost predicate Usable(h: seq<Add>, s: Sub, n: string) {
    Entered(h, s, n) && !Hindered(h, n)
  }

  lemma NamedOpen(c: Codec, h: seq<Add>, s: Sub, n: string)
    requires Faithful(c) && NamedHistory(h)
    ensures Open(c, h, s, n) <==> Listed(c, h, s, n) && !Hindered(h, n)
  {
    hide Listed, Named, Shallow, Performed, Reaches, Dotted, Globs, Entered;
    forall i | 0 <= i < |h|
      ensures Shallow(c, h[i].eav)
    {
      NamedShallow(c, h[i].eav);
    }
    forall d | Performed(c, h, MakeDir(d))
      ensures Reaches(Tree(c, s), n, d) ==> Hindered(h, n)
    {
      ShallowReach(c, h, s, n, d);
      if Reaches(Tree(c, s), n, d) {
        var u, k := NamedEntry(c, h, MakeDir(d));
        assert d[|d| - 1] == k;
      }
    }
    if Hindered(h, n) {
      var u, k :| Entered(h, u, k) && EndsTxt(k);
      EnteredListed(c, h, u, k);
      var d := Tree(c, u) + [k];
      assert d[..|c.root|] == c.root && d[|d| - 1] == k;
      ShallowReach(c, h, s, n, d);
    }
  }

  /** Read as a pattern, the name picks the key. */
  predicate Picks(n: string, key: string) {
    n == "**" || Globs(n, key)
  }

  lemma NamedReaches(c: Codec, s: Sub, n: string, u: Sub, e: Eav)
    requires Named(e) && EndsTxt(c.file(e))
    ensures Reaches(Tree(c, s), n, FileOf(c, u, e)) <==> s == u && Picks(n, Key(s, e))
  {
    NamedTree(c, u, e);
    var base, rel := Tree(c, u), [Key(u, e), c.indexName(e.index), c.file(e)];
    hide Globs, Key;
    var p := base + rel;
    TreeLengths(c, s, u);
    if Below(Tree(c, s), p) {
      assert p == Tree(c, s) + p[|Tree(c, s)|..];
      TreesDiffer(c, s, u, p[|Tree(c, s)|..], rel);
    }
    if s == u {
      assert p[..|base|] == base && p[|base|..] == rel;
    }
  }

  /** A usable name reads as `kv` and picks the key. */
  ghost predicate Way(h: seq<Add>, s: Sub, kv: KeyValue, key: string) {
    exists n :: Usable(h, s, n) && ReadAs(s, n) == Some(kv) && Picks(n, key)
  }

  lemma NamedLeads(c: Codec, h: seq<Add>, s: Sub, kv: KeyValue, e: Eav)
    requires Faithful(c) && NamedHistory(h)
    ensures LeadsTo(c, h, s, kv, e) <==> FileMade(c, h, s, e) && Way(h, s, kv, Key(s, e))
  {
    hide Listed, Open, FileMade, Reaches, Tree, FileOf, Entered, Hindered, ReadAs, Picks, Key, EndsTxt;
    if LeadsTo(c, h, s, kv, e) {
      var n :| Open(c, h, s, n) && ReadAs(s, n) == Some(kv) && Finds(c, h, s, n, e);
      var u :| FileMade(c, h, u, e) && Reaches(Tree(c, s), n, FileOf(c, u, e));
      NamedOpen(c, h, s, n);
      ListedEntered(c, h, s, n);
      var j := FileMadeBy(c, h, u, e);
      NamedReaches(c, s, n, u, e);
    }
    if FileMade(c, h, s, e) && Way(h, s, kv, Key(s, e)) {
      var n :| Usable(h, s, n) && ReadAs(s, n) == Some(kv) && Picks(n, Key(s, e));
      EnteredListed(c, h, s, n);
      NamedOpen(c, h, s, n);
      var j := FileMadeBy(c, h, s, e);
      NamedReaches(c, s, n, s, e);
      assert Finds(c, h, s, n, e);
    }
  }

  /** Only the key itself reads as the key's value. */
  lemma OwnName(s: Sub, n: string, e: Eav)
    ensures ReadAs(s, n) == Some(Own(s, e)) ==> n == Key(s, e)
    ensures ReadAs(s, Key(s, e)) == Some(Own(s, e)) <==> s == A ==> Clean(e.attribute)
  {
    ShowOfParsed(n);
    AttributeRoundTrip(e.attribute);
  }

  // ---------------------------------------------------------------- exactly when the store agrees

  /** The key is read back as itself, as a pattern picks itself, and is not hindered. */
  ghost predicate FindsItself(h: seq<Add>, s: Sub, e: Eav) {
    Picks(Key(s, e), Key(s, e)) && !Hindered(h, Key(s, e)) && (s == A ==> Clean(e.attribute))
  }

  /** No other usable and readable name picks the key. */
  ghost predicate Apart(h: seq<Add>, s: Sub, key: string) {
    forall n | Usable(h, s, n) && ReadAs(s, n).Some? && Picks(n, key) :: n == key
  }

  /** What is asked of the keys of every add that was completed, against all keys entered. */
  ghost predicate KeysApart(h: seq<Add>) {
    forall j, s | 0 <= j < |h| && h[j].steps >= ALL ::
      FindsItself(h, s, h[j].eav) && Apart(h, s, Key(s, h[j].eav))
  }

  lemma OneWay(h: seq<Add>, s: Sub, e: Eav)
    requires Entered(h, s, Key(s, e))
    ensures (forall kv :: Way(h, s, kv, Key(s, e)) <==> kv == Own(s, e)) <==>
            FindsItself(h, s, e) && Apart(h, s, Key(s, e))
  {
    hide Entered, Hindered, ReadAs, Picks, Key, Own;
    var key := Key(s, e);
    forall n
      ensures ReadAs(s, n) == Some(Own(s, e)) ==> n == key
      ensures ReadAs(s, key) == Some(Own(s, e)) <==> s == A ==> Clean(e.attribute)
    {
      OwnName(s, n, e);
    }
    if forall kv :: Way(h, s, kv, key) <==> kv == Own(s, e) {
      assert Way(h, s, Own(s, e), key);
      forall n | Usable(h, s, n) && ReadAs(s, n).Some? && Picks(n, key)
        ensures n == key
      {
        assert Way(h, s, ReadAs(s, n).value, key);
      }
    }
    if FindsItself(h, s, e) && Apart(h, s, key) {
      assert Way(h, s, Own(s, e), key);
    }
  }

  lemma StraightKeys(c: Codec, h: seq<Add>, e: Eav)
    requires Faithful(c) && NamedHistory(h)
    ensures Straight(c, h, e) <==>
            (Complete(c, h, e) ==> forall s :: FindsItself(h, s, e) && Apart(h, s, Key(s, e)))
  {
    hide LeadsTo, FileMade, Complete, Way, FindsItself, Apart, Entered, Key;
    CompleteFiles(c, h, e);
    forall s, kv
      ensures LeadsTo(c, h, s, kv, e) <==> FileMade(c, h, s, e) && Way(h, s, kv, Key(s, e))
    {
      NamedLeads(c, h, s, kv, e);
    }
    if Complete(c, h, e) {
      forall s
        ensures (forall kv :: LeadsTo(c, h, s, kv, e) <==> kv == Own(s, e)) <==>
                FindsItself(h, s, e) && Apart(h, s, Key(s, e))
      {
        OneWay(h, s, e);
      }
    } else {
      assert Unreached(c, h, V, e);
    }
  }

  /**
    With keys that name one entry each, and wherever adds were cut off, the store agrees with filtering
    one set for every query exactly when, in every tree, each completed key finds itself and no other
    usable key picks it.
   */
  lemma NamedAgrees(c: Codec, h: seq<Add>)
    requires Faithful(c) && NamedHistory(h)
    ensures Agrees(c, h) <==> KeysApart(h)
  {
    hide Agrees, Straight, FindsItself, Apart, Effects, Named, Key;
    AgreesExactly(c, h);
    forall e
      ensures Straight(c, h, e) <==> (Complete(c, h, e) ==> forall s :: FindsItself(h, s, e) && Apart(h, s, Key(s, e)))
    {
      StraightKeys(c, h, e);
    }
    forall j | 0 <= j < |h|
      ensures |Effects(c, h[j].eav)| == ALL
    {
      EffectAt(c, h[j].eav, E, 0);
    }
    if forall e :: Straight(c, h, e) {
      forall j, s | 0 <= j < |h| && h[j].steps >= ALL
        ensures FindsItself(h, s, h[j].eav) && Apart(h, s, Key(s, h[j].eav))
      {
        assert Complete(c, h, h[j].eav);
      }
    }
  }
}
