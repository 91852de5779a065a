/** Exactly which directory trees survive packing and unpacking. */
module BundleRoundTrip {

  import opened Wrappers
  import opened Bundle

  /** The unpacked tree is the packed one; a config file is compared by the JSON object it holds. */
  ghost predicate Same(codec: Codec, d: Node, out: map<Name, Out>)
    requires d.Dir?
    decreases d, 0
  {
    && (forall n | n in out :: exists i | 0 <= i < |d.entries| :: d.entries[i].name == n)
    && (forall i | 0 <= i < |d.entries| ::
          d.entries[i].name in out &&
          SameEntry(codec, d.entries[i].node, out[d.entries[i].name], ConfigIndex(d.entries, 0) == Some(i)))
  }

  ghost predicate SameEntry(codec: Codec, d: Node, out: Out, isConfig: bool)
    decreases d, 1
  {
    match d
    case File(content) =>
      out.OutFile? && if isConfig then codec.parse(out.content) == codec.parse(content) else out.content == content
    case Dir(_) => out.OutDir? && Same(codec, d, out.entries)
  }

  ghost predicate RoundTrips(codec: Codec, d: Node)
    requires d.Dir?
  {
    var b := Bundled(codec, d);
    b.Ok? &&
    var u := Unpacked(codec, JObject(b.value));
    u.Ok? && Same(codec, d, u.value)
  }

  /**
    What a directory must look like: nothing but the config file may be called `__META__`; a config
    file holds a non-empty object that has neither that key nor the name of another entry; without a
    config file every plain file is listed after some directory.
   */
  ghost predicate FaithfulHere(codec: Codec, es: seq<Entry>) {
    var c := ConfigIndex(es, 0);
    && (forall i | 0 <= i < |es| && c != Some(i) :: es[i].name != META)
    && (c.Some? ==>
          var p := codec.parse(es[c.value].node.content);
          && p.Parsed? && p.o != map[] && META !in p.o
          && forall i | 0 <= i < |es| && i != c.value :: es[i].name !in p.o)
    && (c.None? ==> forall i | 0 <= i < |es| && es[i].node.File? :: exists j | 0 <= j < i :: es[j].node.Dir?)
  }

  ghost predicate Faithful(codec: Codec, d: Node)
    requires d.Dir?
    decreases d
  {
    FaithfulHere(codec, d.entries) &&
    forall i | 0 <= i < |d.entries| && d.entries[i].node.Dir? :: Faithful(codec, d.entries[i].node)
  }

  // ---------------------------------------------------------------- the packed trees, key by key

  lemma {:induction false} Located(es: seq<Entry>, vals: seq<Json>, base: Object, i: nat, k: nat)
    requires i < k <= |es| == |vals| && DistinctNames(es) && Included(es, base, i)
    ensures var n := es[i].name;
            && n in MainTree(es, vals, base, k) && MainTree(es, vals, base, k)[n] == vals[i]
            && n in MetaTree(es, base, k) && MetaTree(es, base, k)[n] == KindOf(es[i].node)
    decreases k
  {
    if i < k - 1 {
      Located(es, vals, base, i, k - 1);
    }
  }

  lemma {:induction false} TreeNames(es: seq<Entry>, base: Object, k: nat, n: Name) returns (i: nat)
    requires k <= |es| && n in MetaTree(es, base, k)
    ensures i < k && Included(es, base, i) && es[i].name == n
  {
    if Included(es, base, k - 1) && es[k - 1].name == n {
      i := k - 1;
    } else {
      i := TreeNames(es, base, k - 1, n);
    }
  }

  /** Away from the indexed names the tree is the config object. */
  lemma {:induction false} BaseBeneath(es: seq<Entry>, vals: seq<Json>, base: Object, k: nat, n: Name)
    requires k <= |es| == |vals|
    ensures n !in MetaTree(es, base, k) ==> (n in MainTree(es, vals, base, k) <==> n in base)
    ensures n !in MetaTree(es, base, k) && n in base ==> MainTree(es, vals, base, k)[n] == base[n]
    ensures n in MetaTree(es, base, k) ==> n in MainTree(es, vals, base, k)
  {
    if k > 0 {
      BaseBeneath(es, vals, base, k - 1, n);
    }
  }

  lemma LeftoverIsBase(es: seq<Entry>, vals: seq<Json>, base: Object)
    requires |es| == |vals|
    ensures var tree := MetaTree(es, base, |es|);
            Leftover(MainTree(es, vals, base, |es|), tree) == Leftover(base, tree)
  {
    forall n
      ensures var tree := MetaTree(es, base, |es|);
              n !in tree ==>
                && (n in MainTree(es, vals, base, |es|) <==> n in base)
                && (n in base ==> MainTree(es, vals, base, |es|)[n] == base[n])
    {
      BaseBeneath(es, vals, base, |es|, n);
    }
  }

  // ---------------------------------------------------------------- unpacking what packing made

  ghost predicate RestOk(codec: Codec, main: Object, tree: Object) {
    forall n | n in tree :: n != META && n in main && Restored(codec, tree[n], main[n]).Ok?
  }

  ghost function Restoration(codec: Codec, main: Object, tree: Object): map<Name, Out> {
    map n | n in tree && n in main && Restored(codec, tree[n], main[n]).Ok? :: Restored(codec, tree[n], main[n]).value
  }

  ghost function AddConfig(codec: Codec, out: map<Name, Out>, config: Option<Name>, left: Object): map<Name, Out> {
    if config.Some? && left != map[] then out[config.value := OutFile(codec.render(left))] else out
  }

  lemma SectionParts(config: Option<Name>, tree: Object)
    ensures var s := MetaSection(config, tree);
            && (s == map[] <==> config.None? && tree == map[])
            && TreeOf(s) == tree
            && (CONFIG in s <==> config.Some?)
            && (config.Some? ==> s[CONFIG] == JString(config.value))
  {
    assert |CONFIG| != |TREE|;
    var s := MetaSection(config, tree);
    if config.Some? {
      assert CONFIG in s;
    }
    if tree != map[] {
      assert TREE in s;
    }
  }

  /** Unpacking a sealed bundle sees exactly the tree and the index that were sealed. */
  lemma UnpackSealed(codec: Codec, main: Object, config: Option<Name>, tree: Object)
    requires config.None? && tree == map[] ==> main == map[]
    ensures Unpacked(codec, JObject(Seal(main, config, tree))) ==
            if RestOk(codec, main, tree)
            then Ok(AddConfig(codec, Restoration(codec, main, tree), config, Leftover(main, tree)))
            else Err
  {
    var j := JObject(Seal(main, config, tree));
    SectionParts(config, tree);
    if config.None? && tree == map[] {
      assert Restoration(codec, main, tree) == map[];
    } else {
      assert TreeOk(codec, j, tree, tree.Keys) <==> RestOk(codec, main, tree);
      if RestOk(codec, main, tree) {
        assert Written(codec, j, tree, tree.Keys) == Restoration(codec, main, tree);
        assert Leftover(j.o, tree) == Leftover(main, tree);
      }
    }
  }

  lemma EntryRestored(codec: Codec, d: Node, v: Json)
    requires Inverse(codec) && Value(codec, d) == Ok(v)
    ensures d.File? ==> Restored(codec, KindOf(d), v) == Ok(OutFile(d.content))
    ensures d.Dir? ==>
              && Bundled(codec, d).Ok? && v == JObject(Bundled(codec, d).value)
              && var u := Unpacked(codec, v);
                 Restored(codec, KindOf(d), v) == if u.Ok? then Ok(OutDir(u.value)) else Err
  {
    assert |FILE| != |DIR|;
  }

  /** A directory that packs, with the object its config file holds and the values of its entries. */
  ghost predicate Packs(codec: Codec, d: Node, base: Object, vals: seq<Json>) {
    && d.Dir? && DistinctNames(d.entries) && BaseOf(codec, d.entries) == Ok(base)
    && AllOk(Values(codec, d)) && vals == Unwrapped(Values(codec, d))
  }

  ghost function Main(d: Node, base: Object, vals: seq<Json>): Object
    requires d.Dir? && |vals| == |d.entries|
  {
    MainTree(d.entries, vals, base, |d.entries|)
  }

  ghost function Tree(d: Node, base: Object): Object
    requires d.Dir?
  {
    MetaTree(d.entries, base, |d.entries|)
  }

  /** What unpacking writes when every indexed entry can be restored and `left` goes into the config file. */
  ghost function OutputOf(codec: Codec, d: Node, base: Object, vals: seq<Json>, left: Object): map<Name, Out>
    requires d.Dir? && |vals| == |d.entries|
  {
    AddConfig(codec, Restoration(codec, Main(d, base, vals), Tree(d, base)), ConfigName(d.entries), left)
  }

  lemma NothingPacked(d: Node, base: Object, vals: seq<Json>)
    requires d.Dir? && |vals| == |d.entries| && base == map[] && Tree(d, base) == map[]
    ensures Main(d, base, vals) == map[]
  {
    forall n
      ensures n !in Main(d, base, vals)
    {
      BaseBeneath(d.entries, vals, base, |d.entries|, n);
    }
  }

  lemma UnpackPacked(codec: Codec, d: Node, base: Object, vals: seq<Json>)
    requires Packs(codec, d, base, vals)
    ensures var main, tree := Main(d, base, vals), Tree(d, base);
            && Bundled(codec, d).Ok?
            && Unpacked(codec, JObject(Bundled(codec, d).value)) ==
               if RestOk(codec, main, tree)
               then Ok(OutputOf(codec, d, base, vals, Leftover(base, tree)))
               else Err
  {
    var main, tree := Main(d, base, vals), Tree(d, base);
    if ConfigName(d.entries).None? && tree == map[] {
      NothingPacked(d, base, vals);
    }
    UnpackSealed(codec, main, ConfigName(d.entries), tree);
    LeftoverIsBase(d.entries, vals, base);
  }

  // ---------------------------------------------------------------- the condition is needed

  /** An entry other than the config file that is found again was packed, and under a name of its own. */
  lemma FoundMeansIncluded(codec: Codec, d: Node, base: Object, vals: seq<Json>, i: nat)
    requires Packs(codec, d, base, vals) && i < |d.entries| && ConfigIndex(d.entries, 0) != Some(i)
    requires RestOk(codec, Main(d, base, vals), Tree(d, base))
    requires d.entries[i].name in
             OutputOf(codec, d, base, vals, Leftover(base, Tree(d, base)))
    ensures Included(d.entries, base, i) && d.entries[i].name in Tree(d, base) && d.entries[i].name != META
  {
    assert d.entries[i].name in Tree(d, base);
    var k := TreeNames(d.entries, base, |d.entries|, d.entries[i].name);
    assert k == i;
  }

  lemma ConfigNotIndexed(d: Node, base: Object)
    requires d.Dir? && DistinctNames(d.entries) && ConfigIndex(d.entries, 0).Some?
    ensures d.entries[ConfigIndex(d.entries, 0).value].name !in Tree(d, base)
  {
    var c := ConfigIndex(d.entries, 0).value;
    if d.entries[c].name in Tree(d, base) {
      var k := TreeNames(d.entries, base, |d.entries|, d.entries[c].name);
    }
  }

  /** A config file that is found again was an object and lost no key. */
  lemma FoundConfigIsWhole(codec: Codec, d: Node, base: Object, vals: seq<Json>, out: map<Name, Out>)
    requires Inverse(codec) && Packs(codec, d, base, vals) && ConfigIndex(d.entries, 0).Some?
    requires out == OutputOf(codec, d, base, vals, Leftover(base, Tree(d, base)))
    requires Same(codec, d, out)
    ensures var p := codec.parse(d.entries[ConfigIndex(d.entries, 0).value].node.content);
            p == Parsed(base) && base != map[] && META !in base && forall n | n in Tree(d, base) :: n !in base
  {
    var c, left := ConfigIndex(d.entries, 0).value, Leftover(base, Tree(d, base));
    var name := d.entries[c].name;
    ConfigNotIndexed(d, base);
    assert name in out && SameEntry(codec, d.entries[c].node, out[name], true);
    assert out[name] == OutFile(codec.render(left));
    assert codec.parse(codec.render(left)) == Parsed(left);
  }

  lemma EntryBack(codec: Codec, d: Node, base: Object, vals: seq<Json>, i: nat)
    requires Inverse(codec) && Packs(codec, d, base, vals) && i < |d.entries| && Included(d.entries, base, i)
    ensures var n := d.entries[i].name;
            && n in Tree(d, base) && n in Main(d, base, vals)
            && Restored(codec, Tree(d, base)[n], Main(d, base, vals)[n]) ==
               Restored(codec, KindOf(d.entries[i].node), vals[i])
            && Value(codec, d.entries[i].node) == Ok(vals[i])
  {
    Located(d.entries, vals, base, i, |d.entries|);
    assert Values(codec, d)[i] == Value(codec, d.entries[i].node);
  }

  lemma SubtreeRoundTrips(codec: Codec, d: Node, base: Object, vals: seq<Json>, out: map<Name, Out>, i: nat)
    requires Inverse(codec) && Packs(codec, d, base, vals) && i < |d.entries| && d.entries[i].node.Dir?
    requires RestOk(codec, Main(d, base, vals), Tree(d, base))
    requires out == OutputOf(codec, d, base, vals, Leftover(base, Tree(d, base)))
    requires Same(codec, d, out)
    ensures RoundTrips(codec, d.entries[i].node)
  {
    var e := d.entries[i];
    EntryBack(codec, d, base, vals, i);
    EntryRestored(codec, e.node, vals[i]);
    assert e.name in out && SameEntry(codec, e.node, out[e.name], false);
    assert out[e.name] == Restored(codec, KindOf(e.node), vals[i]).value;
  }

  lemma RoundTripParts(codec: Codec, d: Node) returns (base: Object, vals: seq<Json>, out: map<Name, Out>)
    requires d.Dir? && DistinctNames(d.entries) && RoundTrips(codec, d)
    ensures Packs(codec, d, base, vals) && RestOk(codec, Main(d, base, vals), Tree(d, base))
    ensures out == OutputOf(codec, d, base, vals, Leftover(base, Tree(d, base))) && Same(codec, d, out)
  {
    base, vals := BaseOf(codec, d.entries).value, Unwrapped(Values(codec, d));
    UnpackPacked(codec, d, base, vals);
    out := Unpacked(codec, JObject(Bundled(codec, d).value)).value;
  }

  lemma FaithfulNeeded(codec: Codec, d: Node)
    requires Inverse(codec) && d.Dir? && DistinctNames(d.entries) && RoundTrips(codec, d)
    ensures FaithfulHere(codec, d.entries)
    ensures forall i | 0 <= i < |d.entries| && d.entries[i].node.Dir? :: RoundTrips(codec, d.entries[i].node)
  {
    hide RoundTrips, OutputOf, Main, Tree, RestOk;
    var es := d.entries;
    var base, vals, out := RoundTripParts(codec, d);
    forall i | 0 <= i < |es| && ConfigIndex(es, 0) != Some(i)
      ensures Included(es, base, i) && es[i].name in Tree(d, base) && es[i].name != META
    {
      assert es[i].name in out;
      FoundMeansIncluded(codec, d, base, vals, i);
    }
    if ConfigIndex(es, 0).Some? {
      FoundConfigIsWhole(codec, d, base, vals, out);
    }
    forall i | 0 <= i < |es| && es[i].node.Dir?
      ensures RoundTrips(codec, es[i].node)
    {
      SubtreeRoundTrips(codec, d, base, vals, out, i);
    }
  }

  // ---------------------------------------------------------------- the condition suffices

  lemma FaithfulPacks(codec: Codec, d: Node) returns (base: Object, vals: seq<Json>)
    requires d.Dir? && DistinctNames(d.entries) && FaithfulHere(codec, d.entries)
    requires forall i | 0 <= i < |d.entries| && d.entries[i].node.Dir? :: RoundTrips(codec, d.entries[i].node)
    ensures Packs(codec, d, base, vals)
    ensures forall i | 0 <= i < |d.entries| && ConfigIndex(d.entries, 0) != Some(i) :: Included(d.entries, base, i)
  {
    base := BaseOf(codec, d.entries).value;
    vals := Unwrapped(Values(codec, d));
    forall i | 0 <= i < |d.entries|
      ensures Values(codec, d)[i].Ok?
    {
      assert Values(codec, d)[i] == Value(codec, d.entries[i].node);
    }
  }

  lemma FaithfulRestores(codec: Codec, d: Node, base: Object, vals: seq<Json>, i: nat)
    requires Inverse(codec) && Packs(codec, d, base, vals) && i < |d.entries| && Included(d.entries, base, i)
    requires d.entries[i].node.Dir? ==> RoundTrips(codec, d.entries[i].node)
    ensures var n := d.entries[i].name;
            && n in Tree(d, base) && n in Main(d, base, vals)
            && var r := Restored(codec, Tree(d, base)[n], Main(d, base, vals)[n]);
               r.Ok? && SameEntry(codec, d.entries[i].node, r.value, false)
  {
    EntryBack(codec, d, base, vals, i);
    EntryRestored(codec, d.entries[i].node, vals[i]);
  }

  /** Every indexed entry comes back as it was. */
  lemma FaithfulRestOk(codec: Codec, d: Node, base: Object, vals: seq<Json>)
    requires Inverse(codec) && Packs(codec, d, base, vals) && FaithfulHere(codec, d.entries)
    requires forall i | 0 <= i < |d.entries| && d.entries[i].node.Dir? :: RoundTrips(codec, d.entries[i].node)
    ensures RestOk(codec, Main(d, base, vals), Tree(d, base))
  {
    forall n | n in Tree(d, base)
      ensures n != META && n in Main(d, base, vals) && Restored(codec, Tree(d, base)[n], Main(d, base, vals)[n]).Ok?
    {
      var i := TreeNames(d.entries, base, |d.entries|, n);
      FaithfulRestores(codec, d, base, vals, i);
    }
  }

  lemma FaithfulLeftover(codec: Codec, d: Node, base: Object)
    requires d.Dir? && FaithfulHere(codec, d.entries) && BaseOf(codec, d.entries) == Ok(base)
    ensures Leftover(base, Tree(d, base)) == base
  {
    forall n | n in Tree(d, base)
      ensures n !in base
    {
      var i := TreeNames(d.entries, base, |d.entries|, n);
    }
    if ConfigIndex(d.entries, 0).Some? {
      assert META !in base;
    }
  }

  lemma EntrySame(codec: Codec, d: Node, base: Object, vals: seq<Json>, out: map<Name, Out>, i: nat)
    requires Inverse(codec) && Packs(codec, d, base, vals) && FaithfulHere(codec, d.entries) && i < |d.entries|
    requires ConfigIndex(d.entries, 0) != Some(i) ==> Included(d.entries, base, i)
    requires d.entries[i].node.Dir? ==> RoundTrips(codec, d.entries[i].node)
    requires out == OutputOf(codec, d, base, vals, base)
    ensures d.entries[i].name in out
    ensures SameEntry(codec, d.entries[i].node, out[d.entries[i].name], ConfigIndex(d.entries, 0) == Some(i))
  {
    var e := d.entries[i];
    if ConfigIndex(d.entries, 0) == Some(i) {
      assert out[e.name] == OutFile(codec.render(base));
      assert codec.parse(codec.render(base)) == Parsed(base);
    } else {
      FaithfulRestores(codec, d, base, vals, i);
      assert out[e.name] == Restored(codec, Tree(d, base)[e.name], Main(d, base, vals)[e.name]).value;
    }
  }

  lemma NoOthers(codec: Codec, d: Node, base: Object, vals: seq<Json>, out: map<Name, Out>, n: Name)
    requires Packs(codec, d, base, vals) && n in out
    requires out == OutputOf(codec, d, base, vals, base)
    ensures exists i | 0 <= i < |d.entries| :: d.entries[i].name == n
  {
    if n in Tree(d, base) {
      var i := TreeNames(d.entries, base, |d.entries|, n);
    } else {
      assert d.entries[ConfigIndex(d.entries, 0).value].name == n;
    }
  }

  lemma FaithfulSuffices(codec: Codec, d: Node)
    requires Inverse(codec) && d.Dir? && DistinctNames(d.entries) && FaithfulHere(codec, d.entries)
    requires forall i | 0 <= i < |d.entries| && d.entries[i].node.Dir? :: RoundTrips(codec, d.entries[i].node)
    ensures RoundTrips(codec, d)
  {
    var base, vals := FaithfulPacks(codec, d);
    UnpackPacked(codec, d, base, vals);
    FaithfulRestOk(codec, d, base, vals);
    FaithfulLeftover(codec, d, base);
    var out := Unpacked(codec, JObject(Bundled(codec, d).value)).value;
    forall i | 0 <= i < |d.entries|
      ensures d.entries[i].name in out
      ensures SameEntry(codec, d.entries[i].node, out[d.entries[i].name], ConfigIndex(d.entries, 0) == Some(i))
    {
      EntrySame(codec, d, base, vals, out, i);
    }
    forall n | n in out
      ensures exists i | 0 <= i < |d.entries| :: d.entries[i].name == n
    {
      NoOthers(codec, d, base, vals, out, n);
    }
  }

  // ---------------------------------------------------------------- the round trip

  /** A tree comes back from packing and unpacking exactly when every directory in it is faithful. */
  lemma {:induction false} RoundTrip(codec: Codec, d: Node)
    requires Inverse(codec) && d.Dir? && WellFormed(d)
    ensures RoundTrips(codec, d) <==> Faithful(codec, d)
    decreases d
  {
    forall i | 0 <= i < |d.entries| && d.entries[i].node.Dir?
      ensures RoundTrips(codec, d.entries[i].node) <==> Faithful(codec, d.entries[i].node)
    {
      RoundTrip(codec, d.entries[i].node);
    }
    if RoundTrips(codec, d) {
      FaithfulNeeded(codec, d);
    }
    if Faithful(codec, d) {
      FaithfulSuffices(codec, d);
    }
  }

  /** A lone plain file is dropped: without a config file or an earlier directory it is never packed. */
  lemma LoneFileIsLost(codec: Codec, name: Name, content: Bytes)
    requires Inverse(codec) && !EndsWithJson(name)
    ensures Bundled(codec, Dir([Entry(name, File(content))])) == Ok(map[])
    ensures !RoundTrips(codec, Dir([Entry(name, File(content))]))
  {
    var d := Dir([Entry(name, File(content))]);
    assert ConfigIndex(d.entries, 0).None?;
    assert !Included(d.entries, map[], 0);
    assert MainTree(d.entries, Unwrapped(Values(codec, d)), map[], 1) == map[];
    assert MetaTree(d.entries, map[], 1) == map[];
    assert !FaithfulHere(codec, d.entries) by {
      assert d.entries[0].node.File?;
    }
    RoundTrip(codec, d);
  }
}
