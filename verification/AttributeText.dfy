/** Attributes of the EAV store as directory names: printed with separators, parsed by a greedy match. */
module AttributeText {

  import opened Wrappers

  datatype Attribute =
    | CrudStatus
    | CrudLink
    | EntryHeader
    | Link
    | LinkRemove
    | LinkTag(kind: string, tag: string)
    | RemovedLink(kind: string, tag: string)
    | PendingEntry

  const LINK: string := "link__"
  const REMOVED: string := "removed_link__"

  function Show(a: Attribute): string {
    match a
    case CrudStatus => "crud-status"
    case CrudLink => "crud-link"
    case EntryHeader => "entry-header"
    case Link => "link"
    case LinkRemove => "link_remove"
    case LinkTag(kind, tag) => LINK + kind + "__" + tag
    case RemovedLink(kind, tag) => REMOVED + kind + "__" + tag
    case PendingEntry => "pending-entry"
  }

  predicate HasPrefix(s: string, p: string) {
    |s| >= |p| && s[..|p|] == p
  }

  predicate SeparatorAt(s: string, i: nat) {
    i + 2 <= |s| && s[i] == '_' && s[i + 1] == '_'
  }

  /** The last separator in the first `n` characters, which is where a greedy first group ends. */
  function LastSeparator(s: string, n: nat): (r: Option<nat>)
    requires n <= |s|
    ensures r.Some? ==> SeparatorAt(s, r.value) && r.value < n && forall j: nat | r.value < j < n :: !SeparatorAt(s, j)
    ensures r.None? ==> forall j: nat | j < n :: !SeparatorAt(s, j)
  {
    if n == 0 then None
    else if SeparatorAt(s, n - 1) then Some(n - 1)
    else LastSeparator(s, n - 1)
  }

  /** `^prefix(.*)__(.*)$`: the two groups, if the text matches; a dot matches anything but a line feed. */
  function Groups(s: string, prefix: string): Option<(string, string)> {
    if !HasPrefix(s, prefix) then None
    else
      var rest := s[|prefix|..];
      var p := LastSeparator(rest, |rest|);
      if p.None? || '\n' in rest then None else Some((rest[..p.value], rest[p.value + 2..]))
  }

  function Fixed(s: string): Option<Attribute> {
    if s == "crud-status" then Some(CrudStatus)
    else if s == "crud-link" then Some(CrudLink)
    else if s == "entry-header" then Some(EntryHeader)
    else if s == "link" then Some(Link)
    else if s == "link_remove" then Some(LinkRemove)
    else if s == "pending-entry" then Some(PendingEntry)
    else None
  }

  function Parse(s: string): Option<Attribute> {
    var link := Groups(s, LINK);
    if link.Some? then Some(LinkTag(link.value.0, link.value.1))
    else
      var removed := Groups(s, REMOVED);
      if removed.Some? then Some(RemovedLink(removed.value.0, removed.value.1)) else Fixed(s)
  }

  /** No second separator in the tag, counting one that its leading underscore would complete, and no line feed. */
  ghost predicate CleanTag(kind: string, tag: string) {
    && '\n' !in kind && '\n' !in tag
    && forall i: nat :: !SeparatorAt("_" + tag, i)
  }

  ghost predicate Clean(a: Attribute) {
    a.LinkTag? || a.RemovedLink? ==> CleanTag(a.kind, a.tag)
  }

  /** A separator in the tag, its leading underscore included, is one behind the printed separator. */
  lemma SeparatorShift(kind: string, tag: string, i: nat)
    ensures SeparatorAt("_" + tag, i) <==> SeparatorAt(kind + "__" + tag, |kind| + 1 + i)
  {
    var t, rest := "_" + tag, kind + "__" + tag;
    assert rest == (kind + "_") + t;
    if i + 2 <= |t| {
      assert t[i] == rest[|kind| + 1 + i] && t[i + 1] == rest[|kind| + 1 + i + 1];
    }
  }

  /** The last separator of a printed link is the one that was printed exactly when the tag holds no other. */
  lemma LastOfPrinted(kind: string, tag: string)
    ensures var rest := kind + "__" + tag;
            var p := LastSeparator(rest, |rest|);
            && p.Some? && p.value >= |kind|
            && (p.value == |kind| <==> forall i: nat :: !SeparatorAt("_" + tag, i))
  {
    hide LastSeparator;
    var k, rest := |kind|, kind + "__" + tag;
    assert rest[k] == '_' && rest[k + 1] == '_';
    assert SeparatorAt(rest, k);
    var p := LastSeparator(rest, |rest|);
    assert p.Some? && p.value >= k;
    if p.value > k {
      SeparatorShift(kind, tag, p.value - k - 1);
    } else {
      forall i: nat
        ensures !SeparatorAt("_" + tag, i)
      {
        SeparatorShift(kind, tag, i);
        assert SeparatorAt(rest, k + 1 + i) ==> k + 1 + i < |rest|;
      }
    }
  }

  /** The groups of a text that begins with the prefix. */
  lemma GroupsBehind(prefix: string, rest: string)
    ensures Groups(prefix + rest, prefix) ==
            var p := LastSeparator(rest, |rest|);
            if p.None? || '\n' in rest then None else Some((rest[..p.value], rest[p.value + 2..]))
  {
    hide LastSeparator;
    var s := prefix + rest;
    assert s[..|prefix|] == prefix && s[|prefix|..] == rest;
  }

  /** The groups of a printed link are its two parts exactly when the tag is clean. */
  lemma GroupsOfPrinted(prefix: string, kind: string, tag: string)
    ensures Groups(prefix + kind + "__" + tag, prefix) == Some((kind, tag)) <==> CleanTag(kind, tag)
    ensures Groups(prefix + kind + "__" + tag, prefix).Some? <==> '\n' !in kind && '\n' !in tag
  {
    hide Groups, LastSeparator, SeparatorAt;
    var rest := kind + "__" + tag;
    assert prefix + kind + "__" + tag == prefix + rest;
    GroupsBehind(prefix, rest);
    LastOfPrinted(kind, tag);
    assert '\n' in rest <==> '\n' in kind || '\n' in tag;
    var p := LastSeparator(rest, |rest|).value;
    assert |rest[..p]| == |kind| <==> p == |kind|;
    assert rest[..|kind|] == kind && rest[|kind| + 2..] == tag;
  }

  lemma FixedRoundTrip(a: Attribute)
    requires !a.LinkTag? && !a.RemovedLink?
    ensures Parse(Show(a)) == Some(a)
  {
    assert "link_remove"[5] != LINK[5];
    assert !HasPrefix(Show(a), LINK) && !HasPrefix(Show(a), REMOVED);
  }

  /** Printing and parsing an attribute gives it back exactly when it is clean. */
  lemma AttributeRoundTrip(a: Attribute)
    ensures Parse(Show(a)) == Some(a) <==> Clean(a)
  {
    match a {
      case LinkTag(kind, tag) => GroupsOfPrinted(LINK, kind, tag);
      case RemovedLink(kind, tag) =>
        GroupsOfPrinted(REMOVED, kind, tag);
        assert Show(a)[0] == 'r' && LINK[0] == 'l';
        assert !HasPrefix(Show(a), LINK);
      case _ => FixedRoundTrip(a);
    }
  }

  /** A text that parses is the printed form of what it is read as. */
  lemma ShowOfParsed(s: string)
    ensures Parse(s).Some? ==> Show(Parse(s).value) == s
  {
    GroupsOfText(s, LINK);
    GroupsOfText(s, REMOVED);
  }

  lemma GroupsOfText(s: string, prefix: string)
    ensures var g := Groups(s, prefix); g.Some? ==> prefix + g.value.0 + "__" + g.value.1 == s
  {
    var g := Groups(s, prefix);
    if g.Some? {
      var rest := s[|prefix|..];
      var p := LastSeparator(rest, |rest|).value;
      assert rest == rest[..p] + rest[p..p + 2] + rest[p + 2..];
      assert rest[p..p + 2] == "__";
      assert s == prefix + rest;
    }
  }

  /** A tag with a separator of its own: its first part moves over to the kind. */
  lemma MovedSeparator()
    ensures Parse(Show(LinkTag("kind", "a__b"))) == Some(LinkTag("kind__a", "b"))
  {
    hide Groups;
    GroupsOfPrinted(LINK, "kind__a", "b");
    assert forall i: nat :: !SeparatorAt("_" + "b", i);
    assert Show(LinkTag("kind", "a__b")) == Show(LinkTag("kind__a", "b"));
  }
}
