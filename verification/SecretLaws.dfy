/** What holds of the keystore over every run, whatever passphrases it is given. */
module SecretLaws {

  import opened Wrappers
  import opened SecretStore

  // ---------------------------------------------------------------- what one operation does to the store

  predicate Sized(s: Secret) {
    s.Seed? ==> |s.bytes| == SEED_SIZE
  }

  /** Stored seeds have their size, in the blobs and in the cache. */
  ghost predicate WellSized(st: Store) {
    forall id | id in st.secrets :: Sized(st.secrets[id].secret) && (id in st.cache ==> Sized(st.cache[id]))
  }

  /** At most one new secret, encrypted with what the manager answered. */
  ghost predicate Puts(before: map<Id, Blob>, after: map<Id, Blob>, pass: Option<Pass>) {
    after == before ||
    exists id, s :: id !in before && pass.Some? && after == before[id := Blob(pass.value, s)]
  }

  /** The check text stays, the secrets gain at most two entries, and sizes are kept. */
  ghost predicate Regular(st: Store, w: Store, a: Answers) {
    && w.check == st.check && (WellSized(st) ==> WellSized(w))
    && exists mid :: Puts(st.secrets, mid, a.enc1) && Puts(mid, w.secrets, a.enc2)
  }

  lemma GetFacts(cached: bool, st: Store, answer: Option<Pass>, id: Id)
    ensures var (w, s) := Get(cached, st, answer, id);
            && w.check == st.check && w.secrets == st.secrets && (WellSized(st) ==> WellSized(w))
            && (s.Ok? ==> id in st.secrets && (WellSized(st) ==> Sized(s.value)))
            && (s.Err? ==> s.error != Panic)
  {
  }

  lemma AddFacts(k: Crypto, st: Store, answer: Option<Pass>, id: Id, s: Secret)
    ensures var (w, r) := Add(k, st, answer, id, s);
            && w.check == st.check && (WellSized(st) ==> WellSized(w))
            && (r.Err? ==> w.secrets == st.secrets)
            && (r.Ok? <==> id !in st.secrets && answer.Some? && Storable(k, s))
            && (r.Ok? ==> w.secrets == st.secrets[id := Blob(answer.value, AsStored(k, s))])
            && (r == Err(Panic) <==> !Storable(k, s) && id !in st.secrets && answer.Some?)
            && Puts(st.secrets, w.secrets, answer)
  {
    hide Decoded, Field;
    var (w, r) := Add(k, st, answer, id, s);
    if r.Ok? {
      assert w.secrets == st.secrets[id := Blob(answer.value, AsStored(k, s))];
    }
  }

  /** Encoding a public key and decoding it gives it back. */
  ghost predicate Codecs(k: Crypto) {
    && (forall b: SeedBytes :: k.decodeSign(k.encodeSign(b)) == Some(b))
    && (forall b: SeedBytes :: k.decodeKx(k.encodeKx(b)) == Some(b))
  }

  /** The secret that comes back from the file is the one that was stored. */
  predicate Intact(k: Crypto, s: Secret) {
    match s
    case Seed(bytes) => |bytes| == SEED_SIZE
    case SigningKey(public, private) =>
      var raw := k.decodeSign(public);
      Decoded(raw) && k.encodeSign(raw.value) == public && |private| == SIGN_SECRET
    case EncryptingKey(public, private) =>
      var raw := k.decodeKx(public);
      Decoded(raw) && k.encodeKx(raw.value) == public && |private| == KX_SECRET
  }

  /** A private key comes back from its field exactly when it has the field's size. */
  lemma FieldExactly(k: Crypto, private: Bytes, size: nat)
    requires size <= SIGN_SECRET
    ensures Field(k, private, size) == private <==> |private| == size
    ensures |Field(k, private, size)| == size
  {
  }

  /** A key comes back as it was exactly when its private half has its size and its public half is canonical. */
  lemma IntactExactly(k: Crypto, s: Secret)
    ensures Intact(k, s) <==> Storable(k, s) && AsStored(k, s) == s
  {
    hide Field;
    if !s.Seed? {
      FieldExactly(k, s.private, if s.SigningKey? then SIGN_SECRET else KX_SECRET);
    }
  }

  /** Derived keys are intact. */
  lemma DerivedIntact(k: Crypto, seed: Bytes)
    requires Codecs(k)
    ensures Intact(k, SigningFromSeed(k, seed)) && Intact(k, EncryptingFromSeed(k, seed, Zeros()).0)
  {
    assert k.decodeSign(k.encodeSign(k.signPublic(seed))) == Some(k.signPublic(seed));
    assert k.decodeKx(k.encodeKx(Zeros())) == Some(Zeros());
  }

  lemma SourceFacts(cached: bool, st: Store, answer: Option<Pass>, src: Id, dst: Id, other: Error)
    requires other != Panic
    ensures var (w, seed) := Source(cached, st, answer, src, dst, other);
            && w.check == st.check && w.secrets == st.secrets && (WellSized(st) ==> WellSized(w))
            && (seed.Ok? ==> dst !in st.secrets && src in st.secrets && (WellSized(st) ==> |seed.value| == SEED_SIZE))
            && (seed.Err? ==> seed.error != Panic)
  {
    GetFacts(cached, st, answer, src);
  }

  /** `w` after one derivation of a key that is stored under `dst`. */
  ghost predicate Derives(st: Store, w: Store, enc: Option<Pass>, ok: bool) {
    && w.check == st.check && (WellSized(st) ==> WellSized(w))
    && Puts(st.secrets, w.secrets, enc) && (!ok ==> w.secrets == st.secrets)
  }

  lemma SeedFromSeedFacts(k: Crypto, cached: bool, st: Store, a: Answers, src: Id, dst: Id, context: Bytes, index: nat)
    ensures var (w, r) := SeedFromSeed(k, cached, st, a, src, dst, context, index);
            Derives(st, w, a.enc1, r.Ok?) && (WellSized(st) ==> r != Err(Panic))
  {
    hide Source, Add, WellSized, AsStored;
    var (u, seed) := Source(cached, st, a.get1, src, dst, NotARootSeed);
    SourceFacts(cached, st, a.get1, src, dst, NotARootSeed);
    if seed.Ok? {
      AddFacts(k, u, a.enc1, dst, Seed(k.derive(seed.value, context, index)));
    }
  }

  lemma SigningFacts(k: Crypto, cached: bool, st: Store, get: Option<Pass>, enc: Option<Pass>, src: Id, dst: Id)
    ensures var (w, r) := SigningKeyFromSeed(k, cached, st, get, enc, src, dst);
            && Derives(st, w, enc, r.Ok?) && (WellSized(st) && Codecs(k) ==> r != Err(Panic))
            && (r.Ok? ==> dst !in st.secrets && w.secrets.Keys == st.secrets.Keys + {dst})
  {
    hide Source, Add, WellSized, Storable, AsStored, Codecs, Intact;
    var (u, seed) := Source(cached, st, get, src, dst, NotASeed);
    SourceFacts(cached, st, get, src, dst, NotASeed);
    if seed.Ok? {
      if Codecs(k) {
        DerivedIntact(k, seed.value);
      }
      IntactExactly(k, SigningFromSeed(k, seed.value));
      AddFacts(k, u, enc, dst, SigningFromSeed(k, seed.value));
    }
  }

  lemma OverwriteKeepsSizes(st: Store, src: Id, seed: SeedBytes)
    requires WellSized(st)
    ensures WellSized(st.(cache := st.cache[src := Seed(seed)]))
  {
  }

  lemma EncryptingFacts(k: Crypto, cached: bool, st: Store, get: Option<Pass>, enc: Option<Pass>, src: Id, dst: Id)
    ensures var (w, r) := EncryptingKeyFromSeed(k, cached, st, get, enc, src, dst);
            Derives(st, w, enc, r.Ok?) && (WellSized(st) && Codecs(k) ==> r != Err(Panic))
  {
    hide Source, Add, WellSized, Storable, AsStored, Codecs, Intact;
    var (u, seed) := Source(cached, st, get, src, dst, NotASeed);
    SourceFacts(cached, st, get, src, dst, NotASeed);
    if seed.Ok? {
      var (key, seedBuf) := EncryptingFromSeed(k, seed.value, Zeros());
      if Codecs(k) {
        DerivedIntact(k, seed.value);
      }
      IntactExactly(k, key);
      if WellSized(u) {
        OverwriteKeepsSizes(u, src, k.kxPrivate(Zeros()));
      }
      AddFacts(k, u.(cache := u.cache[src := Seed(seedBuf)]), enc, dst, key);
    }
  }

  /** `w` after an operation that stores the two halves of a bundle, the signing half first. */
  ghost predicate Bundles(st: Store, w: Store, a: Answers, prefix: Id, ok: bool) {
    && Regular(st, w, a)
    && (!ok ==> w.secrets == st.secrets ||
                (SignId(prefix) !in st.secrets && w.secrets.Keys == st.secrets.Keys + {SignId(prefix)}))
  }

  function SignHalf(b: KeyBundle): Secret { SigningKey(b.signPublic, b.signPrivate) }
  function EncHalf(b: KeyBundle): Secret { EncryptingKey(b.encPublic, b.encPrivate) }

  /** A half of the bundle is about to be stored under a free identifier and cannot be. */
  predicate StoresBadHalf(k: Crypto, st: Store, a: Answers, prefix: Id, b: KeyBundle) {
    && SignId(prefix) !in st.secrets && a.enc1.Some?
    && (Storable(k, SignHalf(b)) ==>
          EncId(prefix) !in st.secrets && a.enc2.Some? && !Storable(k, EncHalf(b)))
  }

  lemma AddBundleFacts(k: Crypto, st: Store, a: Answers, prefix: Id, b: KeyBundle)
    ensures var (w, r) := AddBundle(k, st, a, prefix, b);
            Bundles(st, w, a, prefix, r.Ok?) && (r == Err(Panic) <==> StoresBadHalf(k, st, a, prefix, b))
  {
    hide Add, WellSized, Storable, AsStored;
    assert |SignId(prefix)| != |EncId(prefix)|;
    AddFacts(k, st, a.enc1, SignId(prefix), SignHalf(b));
    var (u, r) := Add(k, st, a.enc1, SignId(prefix), SignHalf(b));
    AddFacts(k, u, a.enc2, EncId(prefix), EncHalf(b));
    assert Puts(u.secrets, u.secrets, a.enc2);
  }

  lemma BundleFromSeedFacts(k: Crypto, cached: bool, st: Store, a: Answers, src: Id, prefix: Id)
    ensures var (w, r) := BundleFromSeed(k, cached, st, a, src, prefix);
            Bundles(st, w, a, prefix, r.Ok?) && (WellSized(st) && Codecs(k) ==> r != Err(Panic))
  {
    hide SigningKeyFromSeed, EncryptingKeyFromSeed, WellSized, Codecs;
    SigningFacts(k, cached, st, a.get1, a.enc1, src, SignId(prefix));
    var (u, s) := SigningKeyFromSeed(k, cached, st, a.get1, a.enc1, src, SignId(prefix));
    EncryptingFacts(k, cached, u, a.get2, a.enc2, src, EncId(prefix));
    assert Puts(u.secrets, u.secrets, a.enc2);
  }

  lemma ReadFacts(k: Crypto, cached: bool, st: Store, a: Answers, prefix: Id, id: Id, data: string)
    ensures var (w, r) := GetBundle(cached, st, a, prefix);
            w.check == st.check && w.secrets == st.secrets && (WellSized(st) ==> WellSized(w)) && r != Err(Panic)
    ensures var (w, r) := Sign(k, cached, st, a, id, data);
            w.check == st.check && w.secrets == st.secrets && (WellSized(st) ==> WellSized(w)) && r != Err(Panic)
  {
    hide Get, WellSized;
    GetFacts(cached, st, a.get1, SignId(prefix));
    GetFacts(cached, Get(cached, st, a.get1, SignId(prefix)).0, a.get2, EncId(prefix));
    GetFacts(cached, st, a.get1, id);
  }

  lemma OneIsRegular(st: Store, w: Store, a: Answers)
    requires w.check == st.check && (WellSized(st) ==> WellSized(w)) && Puts(st.secrets, w.secrets, a.enc1)
    ensures Regular(st, w, a)
  {
    assert Puts(w.secrets, w.secrets, a.enc2);
  }

  /** The calls that panic: a passphrase is there, the identifier is free, and the secret cannot be stored. */
  predicate StoresBad(k: Crypto, st: Store, a: Answers, op: Op) {
    match op
    case OpAdd(id, s) => !Storable(k, s) && id !in st.secrets && a.enc1.Some?
    case OpAddBundle(prefix, b) => StoresBadHalf(k, st, a, prefix, b)
    case _ => false
  }

  /** Every operation but the change of passphrase, with its effect on the secrets, its failures and its panics. */
  lemma StepFacts(k: Crypto, cached: bool, st: Store, a: Answers, op: Op)
    requires !op.OpChange?
    ensures var (w, reply) := Step(k, cached, st, a, op);
            && Regular(st, w, a)
            && (ErrorOf(reply).Some? ==>
                  w.secrets == st.secrets ||
                  ((op.OpAddBundle? || op.OpBundleFromSeed?) && SignId(op.prefix) !in st.secrets &&
                   w.secrets.Keys == st.secrets.Keys + {SignId(op.prefix)}))
            && (WellSized(st) && Codecs(k) ==> (ErrorOf(reply) == Some(Panic) <==> StoresBad(k, st, a, op)))
  {
    hide Add, SeedFromSeed, SigningKeyFromSeed, EncryptingKeyFromSeed, AddBundle, BundleFromSeed, Get, GetBundle;
    hide Sign, Regular, Puts, WellSized, Codecs, Storable, AsStored, StoresBadHalf;
    var w := Step(k, cached, st, a, op).0;
    assert Puts(st.secrets, st.secrets, a.enc1) by { SelfPuts(st.secrets, a.enc1); }
    match op {
      case OpAdd(id, s) => AddFacts(k, st, a.enc1, id, s);
      case OpSeedFromSeed(src, dst, c, i) => SeedFromSeedFacts(k, cached, st, a, src, dst, c, i);
      case OpSigningFromSeed(src, dst) => SigningFacts(k, cached, st, a.get1, a.enc1, src, dst);
      case OpEncryptingFromSeed(src, dst) => EncryptingFacts(k, cached, st, a.get1, a.enc1, src, dst);
      case OpAddBundle(prefix, b) => AddBundleFacts(k, st, a, prefix, b);
      case OpBundleFromSeed(src, prefix) => BundleFromSeedFacts(k, cached, st, a, src, prefix);
      case OpGet(id) => GetFacts(cached, st, a.get1, id);
      case OpGetBundle(prefix) => ReadFacts(k, cached, st, a, prefix, prefix, "");
      case OpSign(id, data) => ReadFacts(k, cached, st, a, id, id, data);
    }
    if !op.OpAddBundle? && !op.OpBundleFromSeed? {
      OneIsRegular(st, w, a);
    }
  }

  /** A change of passphrase touches nothing but the check text, and that only if it succeeds. */
  lemma ChangeFacts(k: Crypto, cached: bool, st: Store, a: Answers, op: Op)
    requires op.OpChange?
    ensures var (w, reply) := Step(k, cached, st, a, op);
            && w.secrets == st.secrets && w.cache == st.cache && (WellSized(st) ==> WellSized(w))
            && (ErrorOf(reply).Some? ==> w.check == st.check)
            && ErrorOf(reply) != Some(Panic) && !StoresBad(k, st, a, op)
  {
  }

  lemma SelfPuts(secrets: map<Id, Blob>, pass: Option<Pass>)
    ensures Puts(secrets, secrets, pass)
  {
  }

  // ---------------------------------------------------------------- secrets are only ever added

  ghost predicate Extends(w: Store, v: Store) {
    forall id | id in v.secrets :: id in w.secrets && w.secrets[id] == v.secrets[id]
  }

  lemma StepExtends(k: Crypto, cached: bool, st: Store, a: Answers, op: Op)
    ensures Extends(Step(k, cached, st, a, op).0, st)
  {
    hide Step;
    if op.OpChange? {
      ChangeFacts(k, cached, st, a, op);
    } else {
      StepFacts(k, cached, st, a, op);
    }
  }

  /** No run changes or loses a stored blob. */
  lemma {:induction false} AppendOnly(k: Crypto, cached: bool, st: Store, calls: seq<Call>)
    ensures Extends(Run(k, cached, st, calls).0, st)
    decreases |calls|
  {
    hide Step;
    if calls != [] {
      StepExtends(k, cached, st, calls[0].answers, calls[0].op);
      AppendOnly(k, cached, Step(k, cached, st, calls[0].answers, calls[0].op).0, calls[1..]);
    }
  }

  /** A failed call adds nothing, except that a failed bundle may leave its signing half. */
  lemma FailureAddsNothing(k: Crypto, cached: bool, st: Store, a: Answers, op: Op)
    requires ErrorOf(Step(k, cached, st, a, op).1).Some?
    ensures var w := Step(k, cached, st, a, op).0;
            && w.check == st.check
            && (w.secrets == st.secrets ||
                ((op.OpAddBundle? || op.OpBundleFromSeed?) && SignId(op.prefix) !in st.secrets &&
                 w.secrets.Keys == st.secrets.Keys + {SignId(op.prefix)}))
  {
    hide Step;
    if op.OpChange? {
      ChangeFacts(k, cached, st, a, op);
    } else {
      StepFacts(k, cached, st, a, op);
    }
  }

  // ---------------------------------------------------------------- one passphrase for everything

  ghost predicate Uniform(st: Store) {
    forall id | id in st.secrets :: st.secrets[id].pass == st.check
  }

  /** Whenever the manager answers a request to encrypt, it is with `p`. */
  predicate EncryptsWith(a: Answers, p: Pass) {
    (a.enc1.Some? ==> a.enc1.value == p) && (a.enc2.Some? ==> a.enc2.value == p)
  }

  lemma UniformStep(k: Crypto, cached: bool, st: Store, a: Answers, op: Op)
    requires Uniform(st) && EncryptsWith(a, st.check) && !op.OpChange?
    ensures var w := Step(k, cached, st, a, op).0; Uniform(w) && w.check == st.check
  {
    hide Step;
    StepFacts(k, cached, st, a, op);
  }

  /** With a constant passphrase and no change of it, all blobs and the check text share it. */
  lemma {:induction false} UniformRun(k: Crypto, cached: bool, st: Store, calls: seq<Call>)
    requires Uniform(st)
    requires forall i | 0 <= i < |calls| :: EncryptsWith(calls[i].answers, st.check) && !calls[i].op.OpChange?
    ensures var w := Run(k, cached, st, calls).0; Uniform(w) && w.check == st.check
    decreases |calls|
  {
    hide Step;
    if calls != [] {
      UniformStep(k, cached, st, calls[0].answers, calls[0].op);
      UniformRun(k, cached, Step(k, cached, st, calls[0].answers, calls[0].op).0, calls[1..]);
    }
  }

  /**
    The passphrase is checked and the answer ignored: an add keeps uniformity exactly when it cannot
    store anything or the passphrase is the right one.
   */
  lemma UniformAfterAdd(k: Crypto, st: Store, answer: Option<Pass>, id: Id, s: Secret)
    requires Uniform(st)
    ensures Uniform(Add(k, st, answer, id, s).0) <==>
            id in st.secrets || answer.None? || !Storable(k, s) || answer.value == st.check
  {
    var w := Add(k, st, answer, id, s).0;
    assert id in w.secrets && id !in st.secrets ==> w.secrets[id].pass == answer.value;
  }

  /** A successful change of passphrase keeps it exactly when the store is empty or nothing changes. */
  lemma UniformAfterChange(st: Store, old': Pass, new': Pass)
    requires Uniform(st) && old' == st.check
    ensures Uniform(Change(st, old', new').0) <==> st.secrets == map[] || new' == old'
  {
    if st.secrets != map[] {
      var id :| id in st.secrets;
      assert Change(st, old', new').0.secrets[id].pass == old';
    }
  }

  // ---------------------------------------------------------------- what was added comes back

  /** The keystore as it is read from its file: nothing is cached. */
  function Reloaded(st: Store): Store {
    st.(cache := map[])
  }

  /** In the same process an added secret is got back whatever passphrase is given, or none. */
  lemma AddThenGet(k: Crypto, st: Store, answer: Option<Pass>, id: Id, s: Secret, later: Option<Pass>)
    requires Add(k, st, answer, id, s).1.Ok?
    ensures Get(true, Add(k, st, answer, id, s).0, later, id).1 == Ok(s)
  {
  }

  /**
    From the file it is got back exactly when decryption uses the passphrase of the add and the secret is
    intact, a zeroed seed aside.
   */
  lemma AddReloadGet(k: Crypto, st: Store, answer: Option<Pass>, id: Id, s: Secret, later: Option<Pass>)
    requires Add(k, st, answer, id, s).1.Ok?
    ensures var p := PassToDecrypt(st.check, later);
            Get(true, Reloaded(Add(k, st, answer, id, s).0), later, id).1 == Ok(s) <==>
            (p == answer && Intact(k, s)) || (p.Some? && s == Seed(Zeros()))
  {
    hide Storable, AsStored, Intact;
    IntactExactly(k, s);
    KindKept(k, s);
    ZerosIntact(k);
  }

  lemma KindKept(k: Crypto, s: Secret)
    requires Storable(k, s)
    ensures AsStored(k, s).Seed? == s.Seed? && AsStored(k, s).SigningKey? == s.SigningKey?
  {
  }

  lemma ZerosIntact(k: Crypto)
    ensures Storable(k, Seed(Zeros())) && Intact(k, Seed(Zeros()))
  {
  }

  /**
    A key bundle that was added is got back, in the same process always, from the file exactly with its
    passphrases and if both halves are intact.
   */
  lemma BundleRoundTrip(k: Crypto, st: Store, a: Answers, prefix: Id, b: KeyBundle, later: Answers)
    requires AddBundle(k, st, a, prefix, b).1.Ok?
    ensures var w := AddBundle(k, st, a, prefix, b).0;
            && GetBundle(true, w, later, prefix).1 == Ok(b)
            && (GetBundle(true, Reloaded(w), later, prefix).1 == Ok(b) <==>
                && PassToDecrypt(st.check, later.get1) == a.enc1 && PassToDecrypt(st.check, later.get2) == a.enc2
                && Intact(k, SignHalf(b)) && Intact(k, EncHalf(b)))
  {
    hide Storable, AsStored, Intact;
    assert |SignId(prefix)| != |EncId(prefix)|;
    IntactExactly(k, SignHalf(b));
    IntactExactly(k, EncHalf(b));
    KindKept(k, SignHalf(b));
    KindKept(k, EncHalf(b));
  }

  /** Signatures made with the private key of a seed verify under its public key. */
  ghost predicate Signs(k: Crypto) {
    forall seed, data :: k.verify(k.encodeSign(k.signPublic(seed)), data, k.sign(k.signPrivate(seed), data))
  }

  /** What is signed with a derived key verifies under the public key that the derivation returned. */
  lemma SignatureVerifies(k: Crypto, st: Store, a: Answers, src: Id, dst: Id, later: Answers, data: string)
    requires Signs(k)
    ensures var (w, public) := SigningKeyFromSeed(k, true, st, a.get1, a.enc1, src, dst);
            public.Ok? ==>
              var signed := Sign(k, true, w, later, dst, data).1;
              signed.Ok? && k.verify(public.value, data, signed.value)
  {
  }

  // ---------------------------------------------------------------- panics

  /** A call panics exactly when it stores a secret that cannot be stored. */
  lemma PanicsExactly(k: Crypto, cached: bool, st: Store, a: Answers, op: Op)
    requires WellSized(st) && Codecs(k)
    ensures ErrorOf(Step(k, cached, st, a, op).1) == Some(Panic) <==> StoresBad(k, st, a, op)
    ensures WellSized(Step(k, cached, st, a, op).0)
  {
    hide Step, WellSized, Codecs, StoresBad;
    if op.OpChange? {
      ChangeFacts(k, cached, st, a, op);
    } else {
      StepFacts(k, cached, st, a, op);
    }
  }

  /** A key whose public half does not decode cannot be stored, nor one that is longer than its blob has room for. */
  lemma BadKeysPanic(k: Crypto, cached: bool, p: Pass, id: Id, public: string, private: Bytes)
    requires k.decodeSign(public).None? || |private| > 71
    ensures Step(k, cached, Store(p, map[], map[]), Answers(None, Some(p), None, None),
                 OpAdd(id, SigningKey(public, private))).1 == Done(Err(Panic))
  {
  }

  /** The call asks for something to be stored that cannot be, whatever the keystore holds. */
  predicate AsksForBad(k: Crypto, call: Call) {
    match call.op
    case OpAdd(_, s) => call.answers.enc1.Some? && !Storable(k, s)
    case OpAddBundle(_, b) =>
      call.answers.enc1.Some? &&
      (!Storable(k, SignHalf(b)) || (call.answers.enc2.Some? && !Storable(k, EncHalf(b))))
    case _ => false
  }

  lemma BadAsksForBad(k: Crypto, st: Store, call: Call)
    ensures StoresBad(k, st, call.answers, call.op) ==> AsksForBad(k, call)
    ensures st.secrets == map[] && AsksForBad(k, call) ==> StoresBad(k, st, call.answers, call.op)
  {
    hide Storable;
  }

  /** No call of the run, each in the state it finds, stores a secret that cannot be stored. */
  ghost predicate NothingBad(k: Crypto, cached: bool, st: Store, calls: seq<Call>)
    decreases |calls|
  {
    calls != [] ==>
      && !StoresBad(k, st, calls[0].answers, calls[0].op)
      && NothingBad(k, cached, Step(k, cached, st, calls[0].answers, calls[0].op).0, calls[1..])
  }

  /** The run gave a reply to every call and none of them was a panic. */
  ghost predicate Completes(replies: seq<Reply>, calls: seq<Call>) {
    |replies| == |calls| && forall i | 0 <= i < |replies| :: ErrorOf(replies[i]) != Some(Panic)
  }

  /** A run goes through to its end exactly when none of its calls stores a secret that cannot be stored. */
  lemma {:induction false} RunsThrough(k: Crypto, cached: bool, st: Store, calls: seq<Call>)
    requires WellSized(st) && Codecs(k)
    ensures WellSized(Run(k, cached, st, calls).0)
    ensures NothingBad(k, cached, st, calls) <==> Completes(Run(k, cached, st, calls).1, calls)
    decreases |calls|
  {
    hide Step, StoresBad, WellSized, Codecs, ErrorOf;
    if calls != [] {
      var (u, reply) := Step(k, cached, st, calls[0].answers, calls[0].op);
      PanicsExactly(k, cached, st, calls[0].answers, calls[0].op);
      RunsThrough(k, cached, u, calls[1..]);
      var rest := Run(k, cached, u, calls[1..]).1;
      assert forall i | 0 <= i < |rest| :: ([reply] + rest)[i + 1] == rest[i];
      assert ([reply] + rest)[0] == reply;
    }
  }

  /** Calls none of which asks for something bad go through, from any keystore. */
  lemma {:induction false} GoodCalls(k: Crypto, cached: bool, st: Store, calls: seq<Call>)
    requires WellSized(st) && Codecs(k) && forall i | 0 <= i < |calls| :: !AsksForBad(k, calls[i])
    ensures NothingBad(k, cached, st, calls)
    decreases |calls|
  {
    hide Step, StoresBad, AsksForBad, WellSized, Codecs;
    if calls != [] {
      BadAsksForBad(k, st, calls[0]);
      PanicsExactly(k, cached, st, calls[0].answers, calls[0].op);
      GoodCalls(k, cached, Step(k, cached, st, calls[0].answers, calls[0].op).0, calls[1..]);
    }
  }

  /** From every keystore whose seeds have their size, the calls from the `i`th on go through. */
  ghost predicate AlwaysCompletes(k: Crypto, cached: bool, calls: seq<Call>, i: nat)
    requires i <= |calls|
  {
    forall st | WellSized(st) :: Completes(Run(k, cached, st, calls[i..]).1, calls[i..])
  }

  /**
    On the calls alone: every part of a list of calls goes through from every keystore exactly when none
    of the calls asks for something to be stored that cannot be.
   */
  lemma SafeCalls(k: Crypto, cached: bool, calls: seq<Call>)
    requires Codecs(k)
    ensures (forall i: nat | i <= |calls| :: AlwaysCompletes(k, cached, calls, i)) <==>
            forall i | 0 <= i < |calls| :: !AsksForBad(k, calls[i])
  {
    hide Run, Codecs, AsksForBad, Completes, WellSized, NothingBad;
    forall i: nat | i < |calls| && AsksForBad(k, calls[i])
      ensures !AlwaysCompletes(k, cached, calls, i)
    {
      BadStart(k, cached, calls[i..]);
    }
    if forall i | 0 <= i < |calls| :: !AsksForBad(k, calls[i]) {
      forall i: nat, st | i <= |calls| && WellSized(st)
        ensures Completes(Run(k, cached, st, calls[i..]).1, calls[i..])
      {
        GoodCalls(k, cached, st, calls[i..]);
        RunsThrough(k, cached, st, calls[i..]);
      }
    }
  }

  lemma BadStart(k: Crypto, cached: bool, calls: seq<Call>)
    requires Codecs(k) && calls != [] && AsksForBad(k, calls[0])
    ensures var st := Store("", map[], map[]);
            WellSized(st) && !Completes(Run(k, cached, st, calls).1, calls)
  {
    hide Step, StoresBad, AsksForBad, Codecs;
    var st := Store("", map[], map[]);
    BadAsksForBad(k, st, calls[0]);
    RunsThrough(k, cached, st, calls);
  }

  // ---------------------------------------------------------------- stray cache entries

  /** Equal except for cache entries of identifiers that are not stored. */
  ghost predicate Alike(st: Store, su: Store) {
    && st.check == su.check && st.secrets == su.secrets
    && forall id | id in st.secrets ::
         (id in st.cache <==> id in su.cache) && (id in st.cache ==> st.cache[id] == su.cache[id])
  }

  lemma GetAlike(cached: bool, st: Store, su: Store, answer: Option<Pass>, id: Id)
    requires Alike(st, su)
    ensures var (a, b) := (Get(cached, st, answer, id), Get(cached, su, answer, id)); a.1 == b.1 && Alike(a.0, b.0)
  {
  }

  lemma AddAlike(k: Crypto, st: Store, su: Store, answer: Option<Pass>, id: Id, s: Secret)
    requires Alike(st, su)
    ensures var (a, b) := (Add(k, st, answer, id, s), Add(k, su, answer, id, s)); a.1 == b.1 && Alike(a.0, b.0)
  {
  }

  lemma SourceAlike(cached: bool, st: Store, su: Store, answer: Option<Pass>, src: Id, dst: Id, other: Error)
    requires Alike(st, su)
    ensures var (a, b) := (Source(cached, st, answer, src, dst, other), Source(cached, su, answer, src, dst, other));
            a.1 == b.1 && Alike(a.0, b.0)
  {
    hide Get;
    GetAlike(cached, st, su, answer, src);
  }

  lemma SeedAlike(
    k: Crypto, cached: bool, st: Store, su: Store, a: Answers, src: Id, dst: Id, context: Bytes, index: nat)
    requires Alike(st, su)
    ensures var x, y := SeedFromSeed(k, cached, st, a, src, dst, context, index),
                        SeedFromSeed(k, cached, su, a, src, dst, context, index);
            x.1 == y.1 && Alike(x.0, y.0)
  {
    hide Source, Add, Alike;
    SourceAlike(cached, st, su, a.get1, src, dst, NotARootSeed);
    var (u, seed) := Source(cached, st, a.get1, src, dst, NotARootSeed);
    if seed.Ok? {
      AddAlike(k, u, Source(cached, su, a.get1, src, dst, NotARootSeed).0, a.enc1, dst,
               Seed(k.derive(seed.value, context, index)));
    }
  }

  lemma SigningAlike(
    k: Crypto, cached: bool, st: Store, su: Store, get: Option<Pass>, enc: Option<Pass>, src: Id, dst: Id)
    requires Alike(st, su)
    ensures var x, y := SigningKeyFromSeed(k, cached, st, get, enc, src, dst),
                        SigningKeyFromSeed(k, cached, su, get, enc, src, dst);
            x.1 == y.1 && Alike(x.0, y.0)
  {
    hide Source, Add, Alike;
    SourceAlike(cached, st, su, get, src, dst, NotASeed);
    var (u, seed) := Source(cached, st, get, src, dst, NotASeed);
    if seed.Ok? {
      AddAlike(k, u, Source(cached, su, get, src, dst, NotASeed).0, enc, dst, SigningFromSeed(k, seed.value));
    }
  }

  lemma OverwriteAlike(st: Store, su: Store, id: Id, s: Secret)
    requires Alike(st, su)
    ensures Alike(st.(cache := st.cache[id := s]), su.(cache := su.cache[id := s]))
  {
  }

  lemma EncryptingAlike(
    k: Crypto, cached: bool, st: Store, su: Store, get: Option<Pass>, enc: Option<Pass>, src: Id, dst: Id)
    requires Alike(st, su)
    ensures var x, y := EncryptingKeyFromSeed(k, cached, st, get, enc, src, dst),
                        EncryptingKeyFromSeed(k, cached, su, get, enc, src, dst);
            x.1 == y.1 && Alike(x.0, y.0)
  {
    hide Source, Add, Alike;
    SourceAlike(cached, st, su, get, src, dst, NotASeed);
    var (u, seed) := Source(cached, st, get, src, dst, NotASeed);
    var v := Source(cached, su, get, src, dst, NotASeed).0;
    if seed.Ok? {
      var (key, seedBuf) := EncryptingFromSeed(k, seed.value, Zeros());
      OverwriteAlike(u, v, src, Seed(seedBuf));
      var x, z := u.(cache := u.cache[src := Seed(seedBuf)]), v.(cache := v.cache[src := Seed(seedBuf)]);
      AddAlike(k, x, z, enc, dst, key);
    }
  }

  lemma BundleAlike(
    k: Crypto, cached: bool, st: Store, su: Store, a: Answers, src: Id, prefix: Id, b: KeyBundle)
    requires Alike(st, su)
    ensures var x, y := AddBundle(k, st, a, prefix, b), AddBundle(k, su, a, prefix, b); x.1 == y.1 && Alike(x.0, y.0)
    ensures var x, y := BundleFromSeed(k, cached, st, a, src, prefix), BundleFromSeed(k, cached, su, a, src, prefix);
            x.1 == y.1 && Alike(x.0, y.0)
  {
    hide Add, SigningKeyFromSeed, EncryptingKeyFromSeed, Alike;
    var sign, enc := SigningKey(b.signPublic, b.signPrivate), EncryptingKey(b.encPublic, b.encPrivate);
    AddAlike(k, st, su, a.enc1, SignId(prefix), sign);
    var first, second := Add(k, st, a.enc1, SignId(prefix), sign).0, Add(k, su, a.enc1, SignId(prefix), sign).0;
    AddAlike(k, first, second, a.enc2, EncId(prefix), enc);
    SigningAlike(k, cached, st, su, a.get1, a.enc1, src, SignId(prefix));
    EncryptingAlike(k, cached, SigningKeyFromSeed(k, cached, st, a.get1, a.enc1, src, SignId(prefix)).0,
                    SigningKeyFromSeed(k, cached, su, a.get1, a.enc1, src, SignId(prefix)).0,
                    a.get2, a.enc2, src, EncId(prefix));
  }

  lemma ReadAlike(k: Crypto, cached: bool, st: Store, su: Store, a: Answers, prefix: Id, id: Id, data: string)
    requires Alike(st, su)
    ensures var x, y := GetBundle(cached, st, a, prefix), GetBundle(cached, su, a, prefix);
            x.1 == y.1 && Alike(x.0, y.0)
    ensures var x, y := Sign(k, cached, st, a, id, data), Sign(k, cached, su, a, id, data);
            x.1 == y.1 && Alike(x.0, y.0)
  {
    hide Get, Alike;
    GetAlike(cached, st, su, a.get1, SignId(prefix));
    GetAlike(cached, Get(cached, st, a.get1, SignId(prefix)).0, Get(cached, su, a.get1, SignId(prefix)).0,
             a.get2, EncId(prefix));
    GetAlike(cached, st, su, a.get1, id);
  }

  lemma StepAlike(k: Crypto, cached: bool, st: Store, su: Store, a: Answers, op: Op)
    requires Alike(st, su)
    ensures var x, y := Step(k, cached, st, a, op), Step(k, cached, su, a, op); x.1 == y.1 && Alike(x.0, y.0)
  {
    hide Add, SeedFromSeed, SigningKeyFromSeed, EncryptingKeyFromSeed, AddBundle, BundleFromSeed;
    hide Get, GetBundle, Sign, Change, Alike;
    match op {
      case OpAdd(id, s) => AddAlike(k, st, su, a.enc1, id, s);
      case OpSeedFromSeed(src, dst, c, i) => SeedAlike(k, cached, st, su, a, src, dst, c, i);
      case OpSigningFromSeed(src, dst) => SigningAlike(k, cached, st, su, a.get1, a.enc1, src, dst);
      case OpEncryptingFromSeed(src, dst) => EncryptingAlike(k, cached, st, su, a.get1, a.enc1, src, dst);
      case OpAddBundle(prefix, b) => BundleAlike(k, cached, st, su, a, prefix, prefix, b);
      case OpBundleFromSeed(src, prefix) => BundleAlike(k, cached, st, su, a, src, prefix, KeyBundle("", [], "", []));
      case OpGet(id) => GetAlike(cached, st, su, a.get1, id);
      case OpGetBundle(prefix) => ReadAlike(k, cached, st, su, a, prefix, prefix, "");
      case OpSign(id, data) => ReadAlike(k, cached, st, su, a, id, id, data);
      case OpChange(o, n) => ChangeAlike(st, su, o, n);
    }
  }

  lemma ChangeAlike(st: Store, su: Store, old': Pass, new': Pass)
    requires Alike(st, su)
    ensures var x, y := Change(st, old', new'), Change(su, old', new'); x.1 == y.1 && Alike(x.0, y.0)
  {
  }

  /**
    A secret that a failed add has left in the cache is never observed: whatever is cached for
    identifiers that are not stored, every run gives the same replies and stores the same blobs.
   */
  lemma {:induction false} StrayUnobservable(k: Crypto, cached: bool, st: Store, su: Store, calls: seq<Call>)
    requires Alike(st, su)
    ensures var (x, y) := (Run(k, cached, st, calls), Run(k, cached, su, calls)); x.1 == y.1 && Alike(x.0, y.0)
    decreases |calls|
  {
    hide Step, Alike;
    if calls != [] {
      var a, op := calls[0].answers, calls[0].op;
      StepAlike(k, cached, st, su, a, op);
      StrayUnobservable(k, cached, Step(k, cached, st, a, op).0, Step(k, cached, su, a, op).0, calls[1..]);
    }
  }

  /** What a failed add leaves behind is stray: the store afterwards is like the store before. */
  lemma FailedAddIsStray(k: Crypto, st: Store, answer: Option<Pass>, id: Id, s: Secret)
    requires Add(k, st, answer, id, s).1.Err?
    ensures Alike(Add(k, st, answer, id, s).0, st)
  {
  }
}
