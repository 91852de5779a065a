/** Packing a directory tree into one JSON object with a `__META__` index, and unpacking it again. */
module Bundle {

  import opened Wrappers

  datatype Result<+T> = Ok(value: T) | Err

  type Name = string
  type Bytes = seq<bv8>
  type Object = map<string, Json>

  datatype Json = JString(s: string) | JObject(o: Object) | JOther(n: int)

  /** A directory as the walk lists it: in some order, names once each. */
  datatype Node = File(content: Bytes) | Dir(entries: seq<Entry>)
  datatype Entry = Entry(name: Name, node: Node)

  /** What unpacking leaves on disk. */
  datatype Out = OutFile(content: Bytes) | OutDir(entries: map<Name, Out>)

  datatype Parsed = NotText | NotObject | Parsed(o: Object)

  /** Base64 and the JSON reader and writer. */
  datatype Codec = Codec(encode: Bytes -> string, decode: string -> Option<Bytes>,
                         parse: Bytes -> Parsed, render: Object -> Bytes)

  /** The decoder undoes the encoder and the reader undoes the writer. */
  ghost predicate Inverse(c: Codec) {
    && (forall b :: c.decode(c.encode(b)) == Some(b))
    && (forall o :: c.parse(c.render(o)) == Parsed(o))
  }

  const META: string := "__META__"
  const TREE: string := "tree"
  const CONFIG: string := "config_file"
  const FILE: string := "file"
  const DIR: string := "dir"

  predicate EndsWithJson(n: Name) {
    |n| >= 5 && n[|n| - 5..] == ".json"
  }

  predicate IsConfig(e: Entry) {
    e.node.File? && EndsWithJson(e.name)
  }

  ghost predicate DistinctNames(es: seq<Entry>) {
    forall i, j | 0 <= i < j < |es| :: es[i].name != es[j].name
  }

  ghost predicate WellFormed(d: Node) {
    match d
    case File(_) => true
    case Dir(es) => DistinctNames(es) && forall i | 0 <= i < |es| :: WellFormed(es[i].node)
  }

  // ---------------------------------------------------------------- packing, as a function

  /** The first file whose name ends in `.json`. */
  function ConfigIndex(es: seq<Entry>, from: nat): (r: Option<nat>)
    requires from <= |es|
    ensures r.Some? ==> from <= r.value < |es| && IsConfig(es[r.value])
    ensures r.Some? ==> forall i | from <= i < r.value :: !IsConfig(es[i])
    ensures r.None? ==> forall i | from <= i < |es| :: !IsConfig(es[i])
    decreases |es| - from
  {
    if from == |es| then None
    else if IsConfig(es[from]) then Some(from)
    else ConfigIndex(es, from + 1)
  }

  /** The object that the config file holds, empty when it holds no object or there is no such file. */
  function BaseOf(codec: Codec, es: seq<Entry>): Result<Object> {
    var c := ConfigIndex(es, 0);
    if c.None? then Ok(map[])
    else match codec.parse(es[c.value].node.content)
         case NotText => Err
         case NotObject => Ok(map[])
         case Parsed(o) => Ok(o)
  }

  /** Entry `i` gets into the bundle: a directory always does, a plain file only when something came before it. */
  ghost predicate Included(es: seq<Entry>, base: Object, i: nat)
    requires i < |es|
  {
    && ConfigIndex(es, 0) != Some(i)
    && (es[i].node.Dir? || base != map[] || exists j | 0 <= j < i :: es[j].node.Dir?)
  }

  /** The first `k` entries laid over the config object. */
  ghost function MainTree(es: seq<Entry>, vals: seq<Json>, base: Object, k: nat): Object
    requires k <= |es| == |vals|
  {
    if k == 0 then base
    else if Included(es, base, k - 1) then MainTree(es, vals, base, k - 1)[es[k - 1].name := vals[k - 1]]
    else MainTree(es, vals, base, k - 1)
  }

  function KindOf(d: Node): Json {
    if d.File? then JString(FILE) else JString(DIR)
  }

  /** The index of the first `k` entries. */
  ghost function MetaTree(es: seq<Entry>, base: Object, k: nat): Object
    requires k <= |es|
  {
    if k == 0 then map[]
    else if Included(es, base, k - 1) then MetaTree(es, base, k - 1)[es[k - 1].name := KindOf(es[k - 1].node)]
    else MetaTree(es, base, k - 1)
  }

  function MetaSection(config: Option<Name>, tree: Object): Object {
    var section: Object := if config.Some? then map[CONFIG := JString(config.value)] else map[];
    if tree == map[] then section else section[TREE := JObject(tree)]
  }

  function Seal(main: Object, config: Option<Name>, tree: Object): Object {
    var section := MetaSection(config, tree);
    if section == map[] then main else main[META := JObject(section)]
  }

  function ConfigName(es: seq<Entry>): Option<Name> {
    var c := ConfigIndex(es, 0);
    if c.None? then None else Some(es[c.value].name)
  }

  ghost function Packed(es: seq<Entry>, vals: seq<Json>, base: Object): Object
    requires |es| == |vals|
  {
    Seal(MainTree(es, vals, base, |es|), ConfigName(es), MetaTree(es, base, |es|))
  }

  /** What an entry becomes in the bundle. */
  ghost function Value(codec: Codec, d: Node): Result<Json>
    decreases d, 2
  {
    if d.File? then Ok(JString(codec.encode(d.content)))
    else
      var b := Bundled(codec, d);
      if b.Ok? then Ok(JObject(b.value)) else Err
  }

  ghost function Values(codec: Codec, d: Node): (r: seq<Result<Json>>)
    requires d.Dir?
    ensures |r| == |d.entries| && forall i | 0 <= i < |r| :: r[i] == Value(codec, d.entries[i].node)
    decreases d, 0
  {
    seq(|d.entries|, i requires 0 <= i < |d.entries| => Value(codec, d.entries[i].node))
  }

  ghost predicate AllOk(rs: seq<Result<Json>>) {
    forall i | 0 <= i < |rs| :: rs[i].Ok?
  }

  ghost function Unwrapped(rs: seq<Result<Json>>): (r: seq<Json>)
    ensures |r| == |rs| && forall i | 0 <= i < |r| && rs[i].Ok? :: r[i] == rs[i].value
  {
    seq(|rs|, i requires 0 <= i < |rs| => if rs[i].Ok? then rs[i].value else JOther(0))
  }

  ghost function Bundled(codec: Codec, d: Node): Result<Object>
    requires d.Dir?
    decreases d, 1
  {
    var base := BaseOf(codec, d.entries);
    var vals := Values(codec, d);
    if base.Err? || !AllOk(vals) then Err
    else Ok(Packed(d.entries, Unwrapped(vals), base.value))
  }

  // ---------------------------------------------------------------- packing, as the code does it

  /** The tree being built is non-empty exactly when it was to begin with or a directory has gone in. */
  lemma {:induction false} MainTreeEmpty(es: seq<Entry>, vals: seq<Json>, base: Object, k: nat)
    requires k <= |es| == |vals|
    ensures MainTree(es, vals, base, k) != map[] <==> base != map[] || exists j | 0 <= j < k :: es[j].node.Dir?
  {
    if k > 0 {
      MainTreeEmpty(es, vals, base, k - 1);
      if es[k - 1].node.Dir? {
        assert Included(es, base, k - 1);
      }
      if Included(es, base, k - 1) {
        assert es[k - 1].name in MainTree(es, vals, base, k);
      }
    }
  }

  /** The test that the code makes on each entry. */
  lemma IncludedExactly(es: seq<Entry>, vals: seq<Json>, base: Object, k: nat)
    requires k < |es| == |vals|
    ensures Included(es, base, k) <==>
            es[k].node.Dir? || (ConfigIndex(es, 0) != Some(k) && MainTree(es, vals, base, k) != map[])
  {
    MainTreeEmpty(es, vals, base, k);
  }

  /** `bundle_recurse`, with the meta section kept. */
  method BundleRecurse(codec: Codec, d: Node) returns (r: Result<Object>)
    requires d.Dir?
    ensures r == Bundled(codec, d)
    decreases d, 1
  {
    var base := BaseOf(codec, d.entries);
    if base.Err? {
      return Err;
    }
    var ok, main, metaTree := PackEntries(codec, d, base.value);
    if !ok {
      return Err;
    }
    main := AddMeta(main, ConfigName(d.entries), metaTree);
    return Ok(main);
  }

  /** The loop over all nodes but the config file. */
  method PackEntries(codec: Codec, d: Node, base: Object) returns (ok: bool, main: Object, metaTree: Object)
    requires d.Dir?
    ensures ok <==> AllOk(Values(codec, d))
    ensures ok ==> main == MainTree(d.entries, Unwrapped(Values(codec, d)), base, |d.entries|)
    ensures ok ==> metaTree == MetaTree(d.entries, base, |d.entries|)
    decreases d, 0
  {
    var es, config := d.entries, ConfigIndex(d.entries, 0);
    ghost var results := Values(codec, d);
    ghost var vals := Unwrapped(results);
    ok, main, metaTree := true, base, map[];
    for k := 0 to |es|
      invariant ok && forall i | 0 <= i < k :: results[i].Ok?
      invariant main == MainTree(es, vals, base, k) && metaTree == MetaTree(es, base, k)
    {
      IncludedExactly(es, vals, base, k);
      assert results[k] == Value(codec, es[k].node);
      if es[k].node.Dir? {
        var sub := BundleRecurse(codec, es[k].node);
        if sub.Err? {
          return false, map[], map[];
        }
        metaTree := metaTree[es[k].name := JString(DIR)];
        main := main[es[k].name := JObject(sub.value)];
      } else if config != Some(k) && main != map[] {
        metaTree := metaTree[es[k].name := JString(FILE)];
        main := main[es[k].name := JString(codec.encode(es[k].node.content))];
      }
    }
  }

  method AddMeta(main: Object, config: Option<Name>, metaTree: Object) returns (r: Object)
    ensures r == Seal(main, config, metaTree)
  {
    var section: Object := map[];
    if config.Some? {
      section := section[CONFIG := JString(config.value)];
    }
    if metaTree != map[] {
      section := section[TREE := JObject(metaTree)];
    }
    r := main;
    if section != map[] {
      r := r[META := JObject(section)];
    }
  }

  // ---------------------------------------------------------------- unpacking, as a function

  /** What an indexed entry is written out as. */
  ghost function Restored(codec: Codec, kind: Json, entry: Json): Result<Out>
    decreases entry, 2
  {
    if kind == JString(FILE) && entry.JString? then
      var content := codec.decode(entry.s);
      if content.Some? then Ok(OutFile(content.value)) else Err
    else if kind == JString(DIR) && entry.JObject? then
      var sub := Unpacked(codec, entry);
      if sub.Ok? then Ok(OutDir(sub.value)) else Err
    else Err
  }

  /** The indexed entries among `names` are there and can be written out. */
  ghost predicate TreeOk(codec: Codec, j: Json, tree: Object, names: set<Name>)
    requires j.JObject?
    decreases j, 0
  {
    forall n | n in names && n in tree :: n != META && n in j.o && Restored(codec, tree[n], j.o[n]).Ok?
  }

  ghost function Written(codec: Codec, j: Json, tree: Object, names: set<Name>): map<Name, Out>
    requires j.JObject?
    decreases j, 0
  {
    map n | n in names && n in tree && n in j.o && Restored(codec, tree[n], j.o[n]).Ok? ::
      Restored(codec, tree[n], j.o[n]).value
  }

  /** What is left of the bundle once the index and the indexed entries are taken out. */
  function Leftover(o: Object, tree: Object): Object {
    o - ({META} + tree.Keys)
  }

  function TreeOf(section: Object): Object {
    if TREE in section && section[TREE].JObject? then section[TREE].o else map[]
  }

  function WithConfig(codec: Codec, out: map<Name, Out>, section: Object, left: Object): Result<map<Name, Out>> {
    if CONFIG !in section then Ok(out)
    else if !section[CONFIG].JString? then Err
    else if left == map[] then Ok(out)
    else Ok(out[section[CONFIG].s := OutFile(codec.render(left))])
  }

  ghost function Unpacked(codec: Codec, j: Json): Result<map<Name, Out>>
    requires j.JObject?
    decreases j, 1
  {
    if META !in j.o || !j.o[META].JObject? then Ok(map[])
    else
      var section := j.o[META].o;
      var tree := TreeOf(section);
      if !TreeOk(codec, j, tree, tree.Keys) then Err
      else WithConfig(codec, Written(codec, j, tree, tree.Keys), section, Leftover(j.o, tree))
  }

  // ---------------------------------------------------------------- unpacking, as the code does it

  /** `unpack_recurse`; the index is a map, so its entries come in no particular order. */
  method UnpackRecurse(codec: Codec, j: Json) returns (r: Result<map<Name, Out>>)
    requires j.JObject?
    ensures r == Unpacked(codec, j)
    decreases j, 0
  {
    if META !in j.o || !j.o[META].JObject? {
      return Ok(map[]);
    }
    var obj, section := j.o - {META}, j.o[META].o;
    var tree := TreeOf(section);
    var todo, out: map<Name, Out> := tree.Keys, map[];
    ghost var names: set<Name> := {};
    while todo != {}
      invariant todo <= tree.Keys && names == tree.Keys - todo && obj == j.o - ({META} + names)
      invariant TreeOk(codec, j, tree, names) && out == Written(codec, j, tree, names)
      decreases todo
    {
      var n :| n in todo;
      if n !in obj {
        return Err;
      }
      var entry := UnpackEntry(codec, tree[n], obj[n]);
      if entry.Err? {
        return Err;
      }
      obj := obj - {n};
      out := out[n := entry.value];
      todo, names := todo - {n}, names + {n};
    }
    assert names == tree.Keys;
    assert obj == Leftover(j.o, tree);
    return WithConfig(codec, out, section, obj);
  }

  /** One entry of the index: a file is decoded, a directory unpacked, anything else is refused. */
  method UnpackEntry(codec: Codec, kind: Json, entry: Json) returns (r: Result<Out>)
    ensures r == Restored(codec, kind, entry)
    decreases entry, 1
  {
    if kind == JString(FILE) && entry.JString? {
      var content := codec.decode(entry.s);
      return if content.Some? then Ok(OutFile(content.value)) else Err;
    } else if kind == JString(DIR) && entry.JObject? {
      var sub := UnpackRecurse(codec, entry);
      return if sub.Ok? then Ok(OutDir(sub.value)) else Err;
    } else {
      return Err;
    }
  }
}
