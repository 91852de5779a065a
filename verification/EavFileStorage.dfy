/** The file-backed EAV store as an object: adding, with the look-up for a collision, and fetching. */
module EavFileStorage {

  import opened Wrappers
  import opened AttributeText
  import opened EavStore
  import opened EavQuery
  import opened EavKeys
  import opened EavCuts

  // ---------------------------------------------------------------- the order of texts

  predicate AtMost(s: string, t: string) {
    s == "" || (t != "" && (s[0] < t[0] || (s[0] == t[0] && AtMost(s[1..], t[1..]))))
  }

  lemma {:induction false} Total(s: string, t: string)
    ensures AtMost(s, t) || AtMost(t, s)
    ensures AtMost(s, t) && AtMost(t, s) <==> s == t
  {
    if s != "" && t != "" {
      Total(s[1..], t[1..]);
      assert s == [s[0]] + s[1..] && t == [t[0]] + t[1..];
    }
  }

  lemma {:induction false} Transitive(s: string, t: string, u: string)
    requires AtMost(s, t) && AtMost(t, u)
    ensures AtMost(s, u)
  {
    if s != "" && s[0] == t[0] == u[0] {
      Transitive(s[1..], t[1..], u[1..]);
    }
  }

  ghost predicate Least(s: string, texts: set<string>) {
    s in texts && forall t | t in texts :: AtMost(s, t)
  }

  lemma {:induction false} LeastExists(texts: set<string>)
    requires texts != {}
    ensures exists s :: Least(s, texts)
    decreases |texts|
  {
    hide AtMost;
    var t :| t in texts;
    var rest := texts - {t};
    Total(t, t);
    if rest == {} {
      assert texts == {t};
      assert Least(t, texts);
    } else {
      LeastExists(rest);
      var s :| Least(s, rest);
      Total(s, t);
      var m := if AtMost(s, t) then s else t;
      forall u | u in texts
        ensures AtMost(m, u)
      {
        if u != t {
          Transitive(m, s, u);
        }
      }
      assert Least(m, texts);
    }
  }

  // ---------------------------------------------------------------- fetching

  ghost predicate AllParse(c: Codec, texts: set<string>) {
    forall t | t in texts :: c.parse(t).Some?
  }

  ghost predicate Reads(c: Codec, t: string, e: Eav) {
    c.parse(t) == Some(e)
  }

  ghost predicate FirstText(c: Codec, texts: set<string>, t: string, index: int) {
    t in texts && forall u, f | u in texts && Reads(c, u, f) && f.index == index :: AtMost(t, u)
  }

  /** Of the triples with its index, the one whose text sorts first. */
  ghost predicate First(c: Codec, texts: set<string>, e: Eav) {
    exists t :: Reads(c, t, e) && FirstText(c, texts, t, e.index)
  }

  /** What the collected set compares by. */
  predicate HasIndex(es: set<Eav>, index: int) {
    exists e :: e in es && e.index == index
  }

  ghost predicate Collected(c: Codec, texts: set<string>, es: set<Eav>) {
    && (forall e :: e in es <==> First(c, texts, e))
    && (forall t, f | t in texts && Reads(c, t, f) :: HasIndex(es, f.index))
  }

  /** Collecting one more text, which sorts after those seen: kept if its index is new. */
  lemma CollectOne(c: Codec, seen: set<string>, es: set<Eav>, t: string, e: Eav)
    requires Collected(c, seen, es) && t !in seen && Reads(c, t, e) && forall u | u in seen :: AtMost(u, t)
    ensures Collected(c, seen + {t}, if HasIndex(es, e.index) then es else es + {e})
  {
    hide AtMost;
    var more, next := seen + {t}, if HasIndex(es, e.index) then es else es + {e};
    forall f
      ensures f in next <==> First(c, more, f)
    {
      CollectOneAt(c, seen, es, t, e, f);
    }
    assert HasIndex(next, e.index);
    forall u, f | u in more && Reads(c, u, f)
      ensures HasIndex(next, f.index)
    {
      if u != t {
        assert HasIndex(es, f.index);
      }
    }
  }

  lemma CollectOneAt(c: Codec, seen: set<string>, es: set<Eav>, t: string, e: Eav, f: Eav)
    requires Collected(c, seen, es) && t !in seen && Reads(c, t, e) && forall u | u in seen :: AtMost(u, t)
    ensures f in (if HasIndex(es, e.index) then es else es + {e}) <==> First(c, seen + {t}, f)
  {
    hide AtMost;
    var more := seen + {t};
    Total(t, t);
    if First(c, seen, f) {
      var u :| Reads(c, u, f) && FirstText(c, seen, u, f.index);
      assert FirstText(c, more, u, f.index);
    }
    if First(c, more, f) {
      var u :| Reads(c, u, f) && FirstText(c, more, u, f.index);
      if u == t {
        if g :| g in es && g.index == e.index {
          var w :| Reads(c, w, g) && FirstText(c, seen, w, g.index);
          Total(w, t);
        }
      } else {
        assert FirstText(c, seen, u, f.index);
      }
    }
    if !HasIndex(es, e.index) {
      assert FirstText(c, more, t, e.index);
    }
  }

  /** A text that does not parse leaves the collected triples as they are. */
  lemma CollectNone(c: Codec, seen: set<string>, es: set<Eav>, t: string)
    requires Collected(c, seen, es) && c.parse(t).None?
    ensures Collected(c, seen + {t}, es)
  {
    hide AtMost;
    forall f
      ensures First(c, seen, f) <==> First(c, seen + {t}, f)
    {
      if First(c, seen, f) {
        var u :| Reads(c, u, f) && FirstText(c, seen, u, f.index);
        assert FirstText(c, seen + {t}, u, f.index);
      }
      if First(c, seen + {t}, f) {
        var u :| Reads(c, u, f) && FirstText(c, seen + {t}, u, f.index);
        assert FirstText(c, seen, u, f.index);
      }
    }
  }

  /** `fetch_eavi` up to the filter on the index: in the order of the texts, into a set compared by index. */
  method Collect(c: Codec, texts: set<string>) returns (r: Option<set<Eav>>)
    ensures r.Some? <==> AllParse(c, texts)
    ensures r.Some? ==> forall e :: e in r.value <==> First(c, texts, e)
  {
    hide AtMost, First;
    var rest, es, failed := texts, {}, false;
    assert texts - rest == {};
    EmptyCollected(c);
    while rest != {}
      invariant rest <= texts && Collected(c, texts - rest, es)
      invariant forall t, u | t in texts - rest && u in rest :: AtMost(t, u)
      invariant failed <==> !AllParse(c, texts - rest)
      decreases |rest|
    {
      LeastExists(rest);
      var t :| t in rest && forall u | u in rest :: AtMost(t, u);
      assert texts - (rest - {t}) == texts - rest + {t};
      var e := c.parse(t);
      if e.None? {
        CollectNone(c, texts - rest, es, t);
        failed := true;
      } else {
        CollectOne(c, texts - rest, es, t, e.value);
        if !HasIndex(es, e.value.index) {
          es := es + {e.value};
        }
      }
      rest := rest - {t};
    }
    assert texts - rest == texts;
    r := if failed then None else Some(es);
  }

  lemma EmptyCollected(c: Codec)
    ensures Collected(c, {}, {})
  {
  }

  /** No text that a query collects fails to parse. */
  lemma AllFetchedParse(c: Codec, h: seq<Add>, q: Query)
    requires Faithful(c)
    ensures AllParse(c, Intersection(c, DiskAfter(c, h), q))
  {
    hide Intersection, DiskAfter, Found;
    forall t | t in Intersection(c, DiskAfter(c, h), q)
      ensures c.parse(t).Some?
    {
      FetchExact(c, h, q, t);
    }
  }

  /** Of the triples found with its index, its text sorts first. */
  ghost predicate SortsFirst(c: Codec, h: seq<Add>, q: Query, e: Eav) {
    forall f | Found(c, h, q, f) && f.index == e.index :: AtMost(c.text(e), c.text(f))
  }

  ghost predicate Fetched(c: Codec, h: seq<Add>, q: Query, es: set<Eav>) {
    forall e :: e in es <==> Found(c, h, q, e) && SortsFirst(c, h, q, e)
  }

  /**
    What is handed on to the filter on the index: of the triples that are found, for each index the one
    whose text sorts first.
   */
  lemma FetchedExactly(c: Codec, h: seq<Add>, q: Query, e: Eav)
    requires Faithful(c)
    ensures First(c, Intersection(c, DiskAfter(c, h), q), e) <==>
            Found(c, h, q, e) && SortsFirst(c, h, q, e)
  {
    hide Intersection, DiskAfter, Found, AtMost;
    var texts := Intersection(c, DiskAfter(c, h), q);
    forall t
      ensures t in texts <==> exists f :: t == c.text(f) && Found(c, h, q, f)
    {
      FetchExact(c, h, q, t);
    }
    forall t, f | t in texts && Reads(c, t, f)
      ensures t == c.text(f) && Found(c, h, q, f)
    {
      var g :| t == c.text(g) && Found(c, h, q, g);
    }
    forall f
      ensures Reads(c, c.text(f), f)
    {
    }
    if First(c, texts, e) {
      var t :| Reads(c, t, e) && FirstText(c, texts, t, e.index);
      forall f | Found(c, h, q, f) && f.index == e.index
        ensures AtMost(c.text(e), c.text(f))
      {
        assert Reads(c, c.text(f), f);
      }
    }
    if Found(c, h, q, e) && SortsFirst(c, h, q, e) {
      assert FirstText(c, texts, c.text(e), e.index);
    }
  }

  /** Nothing that is found is lost exactly when no two of the triples found share an index. */
  lemma NothingLost(c: Codec, h: seq<Add>, q: Query)
    requires Faithful(c)
    ensures (forall e | Found(c, h, q, e) :: First(c, Intersection(c, DiskAfter(c, h), q), e)) <==>
            (forall e, f | Found(c, h, q, e) && Found(c, h, q, f) && e.index == f.index :: e == f)
  {
    hide Intersection, DiskAfter, Found, First, AtMost;
    forall e
      ensures First(c, Intersection(c, DiskAfter(c, h), q), e) <==>
              Found(c, h, q, e) && SortsFirst(c, h, q, e)
    {
      FetchedExactly(c, h, q, e);
    }
    forall e, f
      ensures AtMost(c.text(e), c.text(f)) && AtMost(c.text(f), c.text(e)) <==> e == f
    {
      Total(c.text(e), c.text(f));
      assert c.parse(c.text(e)) == Some(e) && c.parse(c.text(f)) == Some(f);
    }
  }

  // ---------------------------------------------------------------- the store

  /** Link kinds with one of these characters are refused by the constructor of triples. */
  predicate Refused(a: Attribute) {
    (a.LinkTag? || a.RemovedLink?) && exists i :: 0 <= i < |a.kind| && a.kind[i] in "/:*?<>\"'\\|+"
  }

  datatype Outcome = Added(eav: Eav) | CutOff | Invalid

  class FileStorage {
    const codec: Codec
    var disk: Disk
    ghost var history: seq<Add>

    ghost predicate Valid()
      reads this
    {
      disk == DiskAfter(codec, history)
    }

    constructor (c: Codec)
      ensures Valid() && codec == c && history == []
    {
      codec, disk, history := c, Disk({}, map[]), [];
    }

    /** `add_eavi` at the time `now`, cut off after `steps` effects on the file system. */
    method AddEavi(e: Eav, steps: nat, now: int) returns (r: Outcome)
      requires Valid()
      modifies this
      ensures Valid()
      ensures r.Invalid? <==> Taken(codec, old(disk), e) && Refused(e.attribute)
      ensures r.Invalid? ==> history == old(history)
      ensures !r.Invalid? ==>
                var w := if Taken(codec, old(disk), e) then e.(index := now) else e;
                && history == old(history) + [Add(w, steps)]
                && r == if steps < |Effects(codec, w)| then CutOff else Added(w)
      ensures NamedHistory(old(history)) ==> history == old(history) + [Add(e, steps)]
    {
      hide DiskAfter, Effects;
      if NamedHistory(history) {
        LookupFindsNothing(codec, history, e);
      }
      var w := e;
      if Taken(codec, disk, e) {
        if Refused(e.attribute) {
          return Invalid;
        }
        w := e.(index := now);
      }
      var todo := Effects(codec, w);
      var i := 0;
      while i < |todo| && i < steps
        invariant i <= |todo| && i <= steps
        invariant disk == PerformAll(old(disk), todo[..i])
        invariant history == old(history)
      {
        assert todo[..i + 1][..i] == todo[..i];
        disk := Perform(disk, todo[i]);
        i := i + 1;
      }
      assert todo[..i] == Done(codec, Add(w, steps)) by {
        assert todo[..|todo|] == todo;
      }
      history := history + [Add(w, steps)];
      AfterAdd(codec, old(history), Add(w, steps));
      r := if steps < |todo| then CutOff else Added(w);
    }

    /** `fetch_eavi` up to the filter on the index; it fails if some text does not parse. */
    method Fetch(q: Query) returns (r: Option<set<Eav>>)
      requires Valid()
      ensures r.Some? <==> AllParse(codec, Intersection(codec, disk, q))
      ensures r.Some? ==> forall e :: e in r.value <==> First(codec, Intersection(codec, disk, q), e)
      ensures Faithful(codec) ==> r.Some? && Fetched(codec, history, q, r.value)
    {
      hide Intersection, DiskAfter, First, Found;
      r := Collect(codec, Intersection(codec, disk, q));
      if Faithful(codec) {
        AllFetchedParse(codec, history, q);
        forall e
          ensures e in r.value <==> Found(codec, history, q, e) && SortsFirst(codec, history, q, e)
        {
          FetchedExactly(codec, history, q, e);
        }
      }
    }
  }

  lemma AfterAdd(c: Codec, h: seq<Add>, a: Add)
    ensures DiskAfter(c, h + [a]) == PerformAll(DiskAfter(c, h), Done(c, a))
  {
    assert (h + [a])[..|h|] == h;
  }
}
