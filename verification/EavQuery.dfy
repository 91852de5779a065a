/**
  Queries of the file-backed EAV store: which directory names lead to which triples, and exactly when
  a query finds what filtering one set of triples would find.
 */
module EavQuery {

  import opened Wrappers
  import opened AttributeText
  import opened FilePath
  import opened Glob
  import opened EavStore

  /** What a filter is put to: an address or an attribute. */
  datatype KeyValue = Text(t: string) | Attr(a: Attribute)

  /** What a directory name is read as. */
  function ReadAs(s: Sub, name: string): Option<KeyValue> {
    match s
    case A => (match Parse(name) case None => None case Some(a) => Some(Attr(a)))
    case _ => Some(Text(name))
  }

  function Own(s: Sub, e: Eav): KeyValue {
    match s
    case E => Text(e.entity)
    case A => Attr(e.attribute)
    case V => Text(e.value)
  }

  datatype Query = Query(entity: Address -> bool, attribute: Attribute -> bool, value: Address -> bool)

  predicate Asks(q: Query, s: Sub, kv: KeyValue) {
    match s
    case E => kv.Text? && q.entity(kv.t)
    case A => kv.Attr? && q.attribute(kv.a)
    case V => kv.Text? && q.value(kv.t)
  }

  predicate Passes(q: Query, s: Sub, name: string) {
    var kv := ReadAs(s, name); kv.Some? && Asks(q, s, kv.value)
  }

  // ---------------------------------------------------------------- reading

  predicate Below(base: Path, p: Path) {
    |base| <= |p| && p[..|base|] == base
  }

  /** The pattern of `read_eav`: two levels below what the name matches; two stars match any depth. */
  predicate FoundBy(name: string, rel: Path) {
    && (if name == "**" then |rel| >= 2 else |rel| == 3 && Globs(name, rel[0]))
    && EndsTxt(rel[|rel| - 1])
  }

  predicate TwoBelow(base: Path, p: Path) {
    Below(base, p) && |p| == |base| + 2 && EndsTxt(p[|p| - 1])
  }

  /** What the pattern finds, by way of an entry of the directory, of the directory itself or of its parent. */
  predicate Reaches(base: Path, name: string, p: Path) {
    || (Below(base, p) && FoundBy(name, p[|base|..]))
    || (Dotted(name) && Globs(name, ".") && TwoBelow(base, p))
    || (Dotted(name) && Globs(name, "..") && base != [] && TwoBelow(base[..|base| - 1], p))
  }

  function Names(disk: Disk, base: Path): set<string> {
    set d | d in disk.dirs + disk.files.Keys && |d| == |base| + 1 && Below(base, d) :: d[|base|]
  }

  /** `read_eav` fails on a directory that its pattern finds. */
  predicate Fails(disk: Disk, base: Path, name: string) {
    exists d | d in disk.dirs :: Reaches(base, name, d)
  }

  /** `read_from_dir`: a name on which `read_eav` fails is passed over. */
  function ReadFromDir(c: Codec, disk: Disk, s: Sub, q: Query): set<string> {
    set p, n | && p in disk.files && n in Names(disk, Tree(c, s)) && Passes(q, s, n)
               && Reaches(Tree(c, s), n, p) && !Fails(disk, Tree(c, s), n) ::
      disk.files[p]
  }

  function Intersection(c: Codec, disk: Disk, q: Query): set<string> {
    (ReadFromDir(c, disk, V, q) * ReadFromDir(c, disk, A, q)) * ReadFromDir(c, disk, E, q)
  }

  // ---------------------------------------------------------------- which names lead to a triple

  /** The name is listed in the tree. */
  ghost predicate Listed(c: Codec, h: seq<Add>, s: Sub, n: string) {
    var p := Tree(c, s) + [n];
    Performed(c, h, MakeDir(p)) || exists t :: Performed(c, h, MakeFile(p, t))
  }

  /** Read as a pattern, the name finds a file of the triple, which may have been meant for another tree. */
  ghost predicate Finds(c: Codec, h: seq<Add>, s: Sub, n: string, e: Eav) {
    exists u :: FileMade(c, h, u, e) && Reaches(Tree(c, s), n, FileOf(c, u, e))
  }

  /** The name can be listed, and as a pattern it finds no directory. */
  ghost predicate Open(c: Codec, h: seq<Add>, s: Sub, n: string) {
    Listed(c, h, s, n) && forall d | Performed(c, h, MakeDir(d)) :: !Reaches(Tree(c, s), n, d)
  }

  /** A name that is open and reads as `kv` finds the triple in tree `s`. */
  ghost predicate LeadsTo(c: Codec, h: seq<Add>, s: Sub, kv: KeyValue, e: Eav) {
    exists n :: Open(c, h, s, n) && ReadAs(s, n) == Some(kv) && Finds(c, h, s, n, e)
  }

  ghost predicate Shown(c: Codec, h: seq<Add>, q: Query, s: Sub, e: Eav) {
    exists kv :: LeadsTo(c, h, s, kv, e) && Asks(q, s, kv)
  }

  ghost predicate Found(c: Codec, h: seq<Add>, q: Query, e: Eav) {
    Shown(c, h, q, E, e) && Shown(c, h, q, A, e) && Shown(c, h, q, V, e)
  }

  lemma NamesListed(c: Codec, h: seq<Add>, s: Sub, n: string)
    ensures n in Names(DiskAfter(c, h), Tree(c, s)) <==> Listed(c, h, s, n)
  {
    hide DiskAfter, Performed, Tree;
    DiskHolds(c, h);
    var disk, base := DiskAfter(c, h), Tree(c, s);
    var p := base + [n];
    assert p[..|base|] == base && p[|base|] == n;
    if n in Names(disk, base) {
      var d :| d in disk.dirs + disk.files.Keys && |d| == |base| + 1 && Below(base, d) && d[|base|] == n;
      assert d == d[..|base|] + [d[|base|]];
      assert d == p;
    }
  }

  lemma OpenNames(c: Codec, h: seq<Add>, s: Sub, n: string)
    ensures Open(c, h, s, n) <==>
            n in Names(DiskAfter(c, h), Tree(c, s)) && !Fails(DiskAfter(c, h), Tree(c, s), n)
  {
    hide DiskAfter, Performed, Tree, Listed, Names, Reaches;
    NamesListed(c, h, s, n);
    DiskHolds(c, h);
  }

  lemma ShownIsRead(c: Codec, h: seq<Add>, q: Query, s: Sub, e: Eav)
    requires Faithful(c) && Shown(c, h, q, s, e)
    ensures c.text(e) in ReadFromDir(c, DiskAfter(c, h), s, q)
  {
    hide DiskAfter, FileMade, FileOf, Open, Names, Fails, Reaches, Tree, ReadAs, Asks;
    var kv :| LeadsTo(c, h, s, kv, e) && Asks(q, s, kv);
    var n :| Open(c, h, s, n) && ReadAs(s, n) == Some(kv) && Finds(c, h, s, n, e);
    var u :| FileMade(c, h, u, e) && Reaches(Tree(c, s), n, FileOf(c, u, e));
    OpenNames(c, h, s, n);
    FileHolds(c, h, u, e);
    var p, disk := FileOf(c, u, e), DiskAfter(c, h);
    assert && p in disk.files && n in Names(disk, Tree(c, s)) && Passes(q, s, n)
           && Reaches(Tree(c, s), n, p) && !Fails(disk, Tree(c, s), n);
  }

  lemma ReadIsShown(c: Codec, h: seq<Add>, q: Query, s: Sub, text: string) returns (e: Eav)
    requires Faithful(c) && text in ReadFromDir(c, DiskAfter(c, h), s, q)
    ensures text == c.text(e) && Shown(c, h, q, s, e)
  {
    hide DiskAfter, FileMade, FileOf, Open, Names, Fails, Reaches, Tree, ReadAs, Asks;
    var disk := DiskAfter(c, h);
    var p, n :| && p in disk.files && n in Names(disk, Tree(c, s)) && Passes(q, s, n)
                && Reaches(Tree(c, s), n, p) && !Fails(disk, Tree(c, s), n) && disk.files[p] == text;
    var u;
    u, e := WhoseFile(c, h, p);
    OpenNames(c, h, s, n);
    assert Finds(c, h, s, n, e);
    assert LeadsTo(c, h, s, ReadAs(s, n).value, e);
  }

  /**
    Whatever adds were made, of whatever keys and wherever any of them was cut off: the three trees
    have in common exactly the texts of the triples that in each tree some passing name leads to.
   */
  lemma FetchExact(c: Codec, h: seq<Add>, q: Query, text: string)
    requires Faithful(c)
    ensures text in Intersection(c, DiskAfter(c, h), q) <==> exists e :: text == c.text(e) && Found(c, h, q, e)
  {
    hide DiskAfter, Shown, ReadFromDir;
    if text in Intersection(c, DiskAfter(c, h), q) {
      var e := ReadIsShown(c, h, q, E, text);
      var a := ReadIsShown(c, h, q, A, text);
      var v := ReadIsShown(c, h, q, V, text);
      assert c.parse(text) == Some(e) == Some(a) == Some(v);
      assert Found(c, h, q, e);
    }
    if e :| text == c.text(e) && Found(c, h, q, e) {
      ShownIsRead(c, h, q, E, e);
      ShownIsRead(c, h, q, A, e);
      ShownIsRead(c, h, q, V, e);
    }
  }

  lemma FetchTriple(c: Codec, h: seq<Add>, q: Query, e: Eav)
    requires Faithful(c)
    ensures c.text(e) in Intersection(c, DiskAfter(c, h), q) <==> Found(c, h, q, e)
  {
    hide DiskAfter, Found, Intersection;
    FetchExact(c, h, q, c.text(e));
    if f :| c.text(e) == c.text(f) && Found(c, h, q, f) {
      assert c.parse(c.text(e)) == Some(e) == Some(f);
    }
  }

  // ---------------------------------------------------------------- agreement with one filtered set

  /** What filtering a single set of triples finds. */
  ghost predicate DirectMatch(c: Codec, h: seq<Add>, q: Query, e: Eav) {
    Complete(c, h, e) && Asks(q, E, Own(E, e)) && Asks(q, A, Own(A, e)) && Asks(q, V, Own(V, e))
  }

  /**
    A complete triple is led to in every tree by its own key and by no other; one that is not complete
    is out of reach in some tree.
   */
  ghost predicate Straight(c: Codec, h: seq<Add>, e: Eav) {
    if Complete(c, h, e) then forall s, kv :: LeadsTo(c, h, s, kv, e) <==> kv == Own(s, e)
    else exists s :: Unreached(c, h, s, e)
  }

  ghost predicate Unreached(c: Codec, h: seq<Add>, s: Sub, e: Eav) {
    forall kv :: !LeadsTo(c, h, s, kv, e)
  }

  function Everything(): Query {
    Query(_ => true, _ => true, _ => true)
  }

  /** Asks for one value in one tree and for anything in the others. */
  function Only(s: Sub, kv: KeyValue): Query {
    Query(x => s != E || Text(x) == kv, x => s != A || Attr(x) == kv, x => s != V || Text(x) == kv)
  }

  /** The kind of value that the tree's filter takes. */
  predicate Fits(s: Sub, kv: KeyValue) {
    if s == A then kv.Attr? else kv.Text?
  }

  lemma LeadsFits(c: Codec, h: seq<Add>, s: Sub, kv: KeyValue, e: Eav)
    requires LeadsTo(c, h, s, kv, e)
    ensures Fits(s, kv) && Asks(Everything(), s, kv)
  {
  }

  lemma OnlyAsks(t: Sub, kv: KeyValue, s: Sub, kv': KeyValue)
    requires Fits(s, kv')
    ensures Asks(Only(t, kv), s, kv') <==> (t == s ==> kv' == kv)
    ensures Asks(Everything(), s, kv')
  {
  }

  /** A query for everything finds exactly the triples that are within reach in every tree. */
  lemma FoundByEverything(c: Codec, h: seq<Add>, e: Eav)
    ensures Found(c, h, Everything(), e) <==> !exists s :: Unreached(c, h, s, e)
  {
    hide LeadsTo, Asks;
    forall s
      ensures Shown(c, h, Everything(), s, e) <==> !Unreached(c, h, s, e)
    {
      if kv :| LeadsTo(c, h, s, kv, e) {
        LeadsFits(c, h, s, kv, e);
      }
    }
    if s :| Unreached(c, h, s, e) {
      assert !Shown(c, h, Everything(), s, e);
      assert s == E || s == A || s == V;
    }
  }

  /** A query for one value in one tree finds the triples within reach that this value leads to. */
  lemma FoundByOnly(c: Codec, h: seq<Add>, t: Sub, kv: KeyValue, e: Eav)
    requires Fits(t, kv)
    ensures Found(c, h, Only(t, kv), e) <==> Found(c, h, Everything(), e) && LeadsTo(c, h, t, kv, e)
  {
    hide LeadsTo, Asks, Only, Everything;
    forall s
      ensures Shown(c, h, Only(t, kv), s, e) <==>
              if s == t then LeadsTo(c, h, t, kv, e) else Shown(c, h, Everything(), s, e)
      ensures LeadsTo(c, h, t, kv, e) && s == t ==> Shown(c, h, Everything(), s, e)
    {
      forall kv' | LeadsTo(c, h, s, kv', e)
        ensures Asks(Only(t, kv), s, kv') <==> (t == s ==> kv' == kv)
        ensures Asks(Everything(), s, kv')
      {
        LeadsFits(c, h, s, kv', e);
        OnlyAsks(t, kv, s, kv');
      }
    }
  }

  lemma OwnFits(e: Eav)
    ensures forall s :: Fits(s, Own(s, e))
  {
  }

  /** On a straight triple the store and the filtered set agree, whatever is asked. */
  lemma StraightAgrees(c: Codec, h: seq<Add>, q: Query, e: Eav)
    requires Straight(c, h, e)
    ensures Found(c, h, q, e) <==> DirectMatch(c, h, q, e)
  {
    hide LeadsTo, Asks, Complete;
    if Complete(c, h, e) {
      forall s
        ensures Shown(c, h, q, s, e) <==> Asks(q, s, Own(s, e))
      {
        assert LeadsTo(c, h, s, Own(s, e), e);
      }
    } else {
      var s :| Unreached(c, h, s, e);
      assert !Shown(c, h, q, s, e);
      assert s == E || s == A || s == V;
    }
  }

  /** A triple on which they agree for these two kinds of queries is straight. */
  lemma AgreesStraight(c: Codec, h: seq<Add>, e: Eav)
    requires forall q :: Found(c, h, q, e) <==> DirectMatch(c, h, q, e)
    ensures Straight(c, h, e)
  {
    hide LeadsTo, Found, Complete;
    FoundByEverything(c, h, e);
    OwnFits(e);
    if Complete(c, h, e) {
      assert Found(c, h, Everything(), e);
      forall s, kv
        ensures LeadsTo(c, h, s, kv, e) <==> kv == Own(s, e)
      {
        if LeadsTo(c, h, s, kv, e) || kv == Own(s, e) {
          if LeadsTo(c, h, s, kv, e) {
            LeadsFits(c, h, s, kv, e);
          }
          FoundByOnly(c, h, s, kv, e);
          assert Found(c, h, Only(s, kv), e) <==> DirectMatch(c, h, Only(s, kv), e);
          OnlyAsks(s, kv, E, Own(E, e));
          OnlyAsks(s, kv, A, Own(A, e));
          OnlyAsks(s, kv, V, Own(V, e));
        }
      }
    } else {
      assert !Found(c, h, Everything(), e);
    }
  }

  /** For every query the store finds the texts that filtering one set would give, and no others. */
  ghost predicate Agrees(c: Codec, h: seq<Add>) {
    forall q, e :: c.text(e) in Intersection(c, DiskAfter(c, h), q) <==> DirectMatch(c, h, q, e)
  }

  /**
    The store agrees with filtering one set of triples, for every query, exactly when every triple is
    straight. Whether it is can be told from the keys that were added.
   */
  lemma AgreesExactly(c: Codec, h: seq<Add>)
    requires Faithful(c)
    ensures Agrees(c, h) <==> forall e :: Straight(c, h, e)
  {
    hide Intersection, DiskAfter, Found, DirectMatch, Straight;
    forall q, e
      ensures c.text(e) in Intersection(c, DiskAfter(c, h), q) <==> Found(c, h, q, e)
    {
      FetchTriple(c, h, q, e);
    }
    if Agrees(c, h) {
      forall e
        ensures Straight(c, h, e)
      {
        AgreesStraight(c, h, e);
      }
    }
    if forall e :: Straight(c, h, e) {
      forall q, e
        ensures Found(c, h, q, e) <==> DirectMatch(c, h, q, e)
      {
        StraightAgrees(c, h, q, e);
      }
    }
  }

  // ---------------------------------------------------------------- two histories compared

  ghost predicate SameResults(c: Codec, h: seq<Add>, g: seq<Add>) {
    forall q, e :: Found(c, h, q, e) <==> Found(c, g, q, e)
  }

  /** In this tree the same values lead to the triple. */
  ghost predicate LedAlike(c: Codec, h: seq<Add>, g: seq<Add>, s: Sub, e: Eav) {
    forall kv :: LeadsTo(c, h, s, kv, e) <==> LeadsTo(c, g, s, kv, e)
  }

  ghost predicate OutOfReach(c: Codec, h: seq<Add>, e: Eav) {
    exists s :: Unreached(c, h, s, e)
  }

  /** The triple is out of reach after both histories, or the same ways lead to it. */
  ghost predicate SameWays(c: Codec, h: seq<Add>, g: seq<Add>, e: Eav) {
    || (OutOfReach(c, h, e) && OutOfReach(c, g, e))
    || (forall s :: LedAlike(c, h, g, s, e))
  }

  lemma OutOfReachNotFound(c: Codec, h: seq<Add>, q: Query, e: Eav)
    requires OutOfReach(c, h, e)
    ensures !Found(c, h, q, e)
  {
    hide LeadsTo, Asks;
    var s :| Unreached(c, h, s, e);
    assert !Shown(c, h, q, s, e);
    assert s == E || s == A || s == V;
  }

  lemma SameWaysSameResult(c: Codec, h: seq<Add>, g: seq<Add>, q: Query, e: Eav)
    requires SameWays(c, h, g, e)
    ensures Found(c, h, q, e) <==> Found(c, g, q, e)
  {
    hide LeadsTo, Asks;
    if OutOfReach(c, h, e) && OutOfReach(c, g, e) {
      OutOfReachNotFound(c, h, q, e);
      OutOfReachNotFound(c, g, q, e);
    } else {
      forall s
        ensures Shown(c, h, q, s, e) <==> Shown(c, g, q, s, e)
      {
        assert LedAlike(c, h, g, s, e);
      }
    }
  }

  lemma SameResultSameWays(c: Codec, h: seq<Add>, g: seq<Add>, e: Eav)
    requires forall q :: Found(c, h, q, e) <==> Found(c, g, q, e)
    ensures SameWays(c, h, g, e)
  {
    hide LeadsTo, Found;
    FoundByEverything(c, h, e);
    FoundByEverything(c, g, e);
    assert Found(c, h, Everything(), e) <==> Found(c, g, Everything(), e);
    if Found(c, h, Everything(), e) {
      forall s
        ensures LedAlike(c, h, g, s, e)
      {
        forall kv
          ensures LeadsTo(c, h, s, kv, e) <==> LeadsTo(c, g, s, kv, e)
        {
          SameResultSameLead(c, h, g, s, kv, e);
        }
      }
    }
  }

  lemma SameResultSameLead(c: Codec, h: seq<Add>, g: seq<Add>, s: Sub, kv: KeyValue, e: Eav)
    requires forall q :: Found(c, h, q, e) <==> Found(c, g, q, e)
    requires Found(c, h, Everything(), e)
    ensures LeadsTo(c, h, s, kv, e) <==> LeadsTo(c, g, s, kv, e)
  {
    hide LeadsTo, Found;
    if LeadsTo(c, h, s, kv, e) || LeadsTo(c, g, s, kv, e) {
      if LeadsTo(c, h, s, kv, e) {
        LeadsFits(c, h, s, kv, e);
      } else {
        LeadsFits(c, g, s, kv, e);
      }
      FoundByOnly(c, h, s, kv, e);
      FoundByOnly(c, g, s, kv, e);
      assert Found(c, h, Only(s, kv), e) <==> Found(c, g, Only(s, kv), e);
    }
  }

  /** Two histories answer every query alike exactly when for every triple the same ways lead to it, if any do. */
  lemma AlikeExactly(c: Codec, h: seq<Add>, g: seq<Add>)
    ensures SameResults(c, h, g) <==> forall e :: SameWays(c, h, g, e)
  {
    hide Found, SameWays;
    if SameResults(c, h, g) {
      forall e
        ensures SameWays(c, h, g, e)
      {
        SameResultSameWays(c, h, g, e);
      }
    }
    if forall e :: SameWays(c, h, g, e) {
      forall q, e
        ensures Found(c, h, q, e) <==> Found(c, g, q, e)
      {
        SameWaysSameResult(c, h, g, q, e);
      }
    }
  }

  /** The history without its `k`th add. */
  function Without(h: seq<Add>, k: nat): seq<Add>
    requires k < |h|
  {
    h[..k] + h[k + 1..]
  }

  /** Same results are same sets of texts. */
  lemma SameTexts(c: Codec, h: seq<Add>, g: seq<Add>, q: Query)
    requires Faithful(c) && SameResults(c, h, g)
    ensures Intersection(c, DiskAfter(c, h), q) == Intersection(c, DiskAfter(c, g), q)
  {
    hide Intersection, DiskAfter, Found;
    forall text
      ensures text in Intersection(c, DiskAfter(c, h), q) <==> text in Intersection(c, DiskAfter(c, g), q)
    {
      FetchExact(c, h, q, text);
      FetchExact(c, g, q, text);
    }
  }
}
