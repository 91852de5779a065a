/**
  The file-backed EAV store: every triple is written to three directory trees, one after the other,
  and a query intersects what it finds in the three. A key becomes a directory by joining paths and is
  read back as a file name pattern.
 */
module EavStore {

  import opened Wrappers
  import opened AttributeText
  import opened FilePath
  import opened Glob

  type Address = string

  datatype Eav = Eav(entity: Address, attribute: Attribute, value: Address, index: int)

  datatype Sub = E | A | V

  /** The store's directory, the file name and the text of a triple, and the text of an index. */
  datatype Codec = Codec(
    root: Path, file: Eav -> string, text: Eav -> string, parse: string -> Option<Eav>, indexName: int -> string)

  /** What `*.txt` matches. */
  predicate EndsTxt(name: string) {
    |name| >= 4 && name[|name| - 4..] == ".txt"
  }

  /** Texts can be read back, files are named by content, and they and no indices end in `.txt`. */
  ghost predicate Faithful(c: Codec) {
    && (forall e :: c.parse(c.text(e)) == Some(e))
    && (forall e, f :: c.file(e) == c.file(f) ==> e == f)
    && (forall e :: EndsTxt(c.file(e)))
    && (forall i :: !EndsTxt(c.indexName(i)))
  }

  function Key(s: Sub, e: Eav): string {
    match s
    case E => e.entity
    case A => Show(e.attribute)
    case V => e.value
  }

  function TreeName(s: Sub): string {
    match s
    case E => "e"
    case A => "a"
    case V => "v"
  }

  function Tree(c: Codec, s: Sub): Path {
    c.root + [TreeName(s)]
  }

  function DirOf(c: Codec, s: Sub, e: Eav): Path {
    Join(Tree(c, s), Key(s, e))
  }

  function FileOf(c: Codec, s: Sub, e: Eav): Path {
    DirOf(c, s, e) + [c.indexName(e.index), c.file(e)]
  }

  // ---------------------------------------------------------------- adding

  datatype Effect = MakeDir(path: Path) | MakeFile(path: Path, text: string)

  function MakeDirs(paths: seq<Path>): (r: seq<Effect>)
    ensures |r| == |paths| && forall i | 0 <= i < |r| :: r[i] == MakeDir(paths[i])
  {
    seq(|paths|, i requires 0 <= i < |paths| => MakeDir(paths[i]))
  }

  /** `write_to_file`: the directories on the way, the one of the index, and the file. */
  function TreeEffects(c: Codec, s: Sub, e: Eav): seq<Effect> {
    MakeDirs(Passed(Start(Tree(c, s), Key(s, e)), Parts(Key(s, e)))) +
    [MakeDir(DirOf(c, s, e) + [c.indexName(e.index)]), MakeFile(FileOf(c, s, e), c.text(e))]
  }

  function Effects(c: Codec, e: Eav): seq<Effect> {
    TreeEffects(c, E, e) + TreeEffects(c, A, e) + TreeEffects(c, V, e)
  }

  /** An add that got as far as `steps` of its effects on the file system. */
  datatype Add = Add(eav: Eav, steps: nat)

  function Done(c: Codec, a: Add): seq<Effect> {
    var all := Effects(c, a.eav);
    if a.steps < |all| then all[..a.steps] else all
  }

  datatype Disk = Disk(dirs: set<Path>, files: map<Path, string>)

  function Perform(disk: Disk, x: Effect): Disk {
    match x
    case MakeDir(p) => disk.(dirs := disk.dirs + {p})
    case MakeFile(p, t) => disk.(files := disk.files[p := t])
  }

  function PerformAll(disk: Disk, xs: seq<Effect>): Disk {
    if xs == [] then disk else Perform(PerformAll(disk, xs[..|xs| - 1]), xs[|xs| - 1])
  }

  function DiskAfter(c: Codec, h: seq<Add>): Disk {
    if h == [] then Disk({}, map[]) else PerformAll(DiskAfter(c, h[..|h| - 1]), Done(c, h[|h| - 1]))
  }

  /** Some add of the history has had this effect. */
  ghost predicate Performed(c: Codec, h: seq<Add>, x: Effect) {
    exists i | 0 <= i < |h| :: x in Done(c, h[i])
  }

  ghost predicate Complete(c: Codec, h: seq<Add>, e: Eav) {
    exists i | 0 <= i < |h| :: h[i].eav == e && h[i].steps >= |Effects(c, e)|
  }

  ghost predicate FileMade(c: Codec, h: seq<Add>, s: Sub, e: Eav) {
    Performed(c, h, MakeFile(FileOf(c, s, e), c.text(e)))
  }

  // ---------------------------------------------------------------- what the disk holds

  /** A file carries the text of the triple that its name is for. */
  ghost predicate OwnText(c: Codec, p: Path, t: string) {
    p != [] && exists e :: c.file(e) == p[|p| - 1] && t == c.text(e)
  }

  lemma OneText(c: Codec, p: Path, t: string, u: string)
    requires Faithful(c) && OwnText(c, p, t) && OwnText(c, p, u)
    ensures t == u
  {
  }

  ghost predicate Truthful(c: Codec, xs: seq<Effect>) {
    forall x | x in xs && x.MakeFile? :: OwnText(c, x.path, x.text)
  }

  lemma TreeEffectIsOf(c: Codec, s: Sub, e: Eav, x: Effect)
    requires x in TreeEffects(c, s, e) && x.MakeFile?
    ensures x == MakeFile(FileOf(c, s, e), c.text(e))
  {
    hide DirOf, FileOf, Parts, Start, Tree, Key;
    var dirs := MakeDirs(Passed(Start(Tree(c, s), Key(s, e)), Parts(Key(s, e))));
    assert forall i | 0 <= i < |dirs| :: dirs[i].MakeDir?;
  }

  lemma EffectIsOf(c: Codec, e: Eav, x: Effect) returns (s: Sub)
    requires x in Effects(c, e) && x.MakeFile?
    ensures x == MakeFile(FileOf(c, s, e), c.text(e))
  {
    hide TreeEffects, FileOf;
    s := if x in TreeEffects(c, E, e) then E else if x in TreeEffects(c, A, e) then A else V;
    TreeEffectIsOf(c, s, e, x);
  }

  lemma DoneTruthful(c: Codec, a: Add)
    ensures Truthful(c, Done(c, a))
  {
    forall x | x in Done(c, a) && x.MakeFile?
      ensures OwnText(c, x.path, x.text)
    {
      var s := EffectIsOf(c, a.eav, x);
      assert x.path[|x.path| - 1] == c.file(a.eav);
    }
  }

  lemma {:induction false} PerformAllHolds(c: Codec, disk: Disk, xs: seq<Effect>)
    requires Truthful(c, xs) && forall p | p in disk.files :: OwnText(c, p, disk.files[p])
    ensures var d := PerformAll(disk, xs);
            && (forall p :: p in d.dirs <==> p in disk.dirs || MakeDir(p) in xs)
            && (forall p :: p in d.files <==> p in disk.files || exists t :: MakeFile(p, t) in xs)
            && (forall p | p in d.files :: OwnText(c, p, d.files[p]))
  {
    if xs != [] {
      var front, last := xs[..|xs| - 1], xs[|xs| - 1];
      assert xs == front + [last];
      PerformAllHolds(c, disk, front);
      assert last in xs;
    }
  }

  /** Exactly what some add has made is there, and every file holds the text that was written. */
  ghost predicate Holds(c: Codec, disk: Disk, h: seq<Add>) {
    && (forall p :: p in disk.dirs <==> Performed(c, h, MakeDir(p)))
    && (forall p :: p in disk.files <==> exists t :: Performed(c, h, MakeFile(p, t)))
    && (forall p | p in disk.files :: OwnText(c, p, disk.files[p]))
  }

  lemma PerformedLater(c: Codec, h: seq<Add>, a: Add, x: Effect)
    ensures Performed(c, h + [a], x) <==> Performed(c, h, x) || x in Done(c, a)
  {
    var longer := h + [a];
    assert forall i | 0 <= i < |h| :: longer[i] == h[i];
    assert longer[|h|] == a;
  }

  lemma DirsAfter(c: Codec, disk: Disk, h: seq<Add>, a: Add, p: Path)
    requires Holds(c, disk, h) && Truthful(c, Done(c, a))
    ensures p in PerformAll(disk, Done(c, a)).dirs <==> Performed(c, h + [a], MakeDir(p))
  {
    hide Done, PerformAll, Performed, OwnText;
    PerformAllHolds(c, disk, Done(c, a));
    PerformedLater(c, h, a, MakeDir(p));
  }

  lemma FilesAfter(c: Codec, disk: Disk, h: seq<Add>, a: Add, p: Path)
    requires Holds(c, disk, h) && Truthful(c, Done(c, a))
    ensures p in PerformAll(disk, Done(c, a)).files <==> exists t :: Performed(c, h + [a], MakeFile(p, t))
  {
    hide Done, PerformAll, Performed, OwnText;
    PerformAllHolds(c, disk, Done(c, a));
    forall t
      ensures Performed(c, h + [a], MakeFile(p, t)) <==> Performed(c, h, MakeFile(p, t)) || MakeFile(p, t) in Done(c, a)
    {
      PerformedLater(c, h, a, MakeFile(p, t));
    }
  }

  lemma HoldsLater(c: Codec, disk: Disk, h: seq<Add>, a: Add)
    requires Holds(c, disk, h)
    ensures Holds(c, PerformAll(disk, Done(c, a)), h + [a])
  {
    hide Done, PerformAll, Performed, OwnText;
    DoneTruthful(c, a);
    forall p
      ensures p in PerformAll(disk, Done(c, a)).dirs <==> Performed(c, h + [a], MakeDir(p))
      ensures p in PerformAll(disk, Done(c, a)).files <==> exists t :: Performed(c, h + [a], MakeFile(p, t))
    {
      DirsAfter(c, disk, h, a, p);
      FilesAfter(c, disk, h, a, p);
    }
    forall p | p in PerformAll(disk, Done(c, a)).files
      ensures OwnText(c, p, PerformAll(disk, Done(c, a)).files[p])
    {
      PerformAllHolds(c, disk, Done(c, a));
    }
  }

  lemma NothingHeld(c: Codec)
    ensures Holds(c, Disk({}, map[]), [])
  {
  }

  lemma {:induction false} DiskHolds(c: Codec, h: seq<Add>)
    ensures Holds(c, DiskAfter(c, h), h)
  {
    hide Holds, Done, PerformAll;
    if h == [] {
      NothingHeld(c);
    } else {
      var front, last := h[..|h| - 1], h[|h| - 1];
      assert front + [last] == h;
      DiskHolds(c, front);
      HoldsLater(c, DiskAfter(c, front), front, last);
    }
  }

  /** The file at the place of a triple in a tree holds its text. */
  lemma FileHolds(c: Codec, h: seq<Add>, s: Sub, e: Eav)
    requires Faithful(c) && FileMade(c, h, s, e)
    ensures var disk := DiskAfter(c, h); FileOf(c, s, e) in disk.files && disk.files[FileOf(c, s, e)] == c.text(e)
  {
    DiskHolds(c, h);
    var p := FileOf(c, s, e);
    assert p[|p| - 1] == c.file(e);
    OneText(c, p, c.text(e), DiskAfter(c, h).files[p]);
  }

  /** Every file is that of some triple in some tree. */
  lemma WhoseFile(c: Codec, h: seq<Add>, p: Path) returns (s: Sub, e: Eav)
    requires Faithful(c) && p in DiskAfter(c, h).files
    ensures p == FileOf(c, s, e) && FileMade(c, h, s, e) && DiskAfter(c, h).files[p] == c.text(e)
  {
    hide Effects, FileOf, DiskAfter;
    DiskHolds(c, h);
    var t :| Performed(c, h, MakeFile(p, t));
    var i :| 0 <= i < |h| && MakeFile(p, t) in Done(c, h[i]);
    e := h[i].eav;
    s := EffectIsOf(c, e, MakeFile(p, t));
    FileHolds(c, h, s, e);
  }
}
