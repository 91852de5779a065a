/** When the cache of decrypted secrets makes no difference, and where it does. */
module KeystoreCache {

  import opened Wrappers
  import opened SecretStore
  import opened SecretLaws

  /** Whatever is cached for a stored secret is what decrypting it with `p` would give. */
  ghost predicate Coherent(st: Store, p: Pass) {
    forall id | id in st.secrets && id in st.cache :: Decrypted(st, Some(p), id) == Ok(st.cache[id])
  }

  /** Decryption uses the passphrase that is given: the check text is not of the default one, or it is given. */
  predicate Settled(check: Pass, p: Pass) {
    check != DEFAULT_PASSPHRASE || p == DEFAULT_PASSPHRASE
  }

  /** The manager answers with `p`, except that it may fail when asked to encrypt. */
  predicate AnswersWith(a: Answers, p: Pass) {
    a.get1 == Some(p) && a.get2 == Some(p) && EncryptsWith(a, p)
  }

  /** Stored, if it can be, without a change. */
  predicate Kept(k: Crypto, s: Secret) {
    Storable(k, s) ==> Intact(k, s)
  }

  /** The calls that neither derive an encrypting key nor change the passphrase, and store secrets unchanged. */
  predicate CacheSafe(k: Crypto, op: Op) {
    && !op.OpEncryptingFromSeed? && !op.OpBundleFromSeed? && !op.OpChange?
    && (op.OpAdd? ==> Kept(k, op.secret))
    && (op.OpAddBundle? ==> Kept(k, SignHalf(op.bundle)) && Kept(k, EncHalf(op.bundle)))
  }

  /** A coherent keystore and one without a cache that holds the same secrets. */
  ghost predicate Tracks(st: Store, su: Store, p: Pass) {
    st.check == su.check && st.secrets == su.secrets && Settled(st.check, p) && Coherent(st, p)
  }

  // ---------------------------------------------------------------- one fixed passphrase

  lemma TrackGet(st: Store, su: Store, p: Pass, id: Id)
    requires Tracks(st, su, p)
    ensures var x, y := Get(true, st, Some(p), id), Get(false, su, Some(p), id); x.1 == y.1 && Tracks(x.0, y.0, p)
  {
  }

  lemma TrackAdd(k: Crypto, st: Store, su: Store, p: Pass, answer: Option<Pass>, id: Id, s: Secret)
    requires Tracks(st, su, p) && (answer.Some? ==> answer.value == p) && Kept(k, s)
    ensures var x, y := Add(k, st, answer, id, s), Add(k, su, answer, id, s); x.1 == y.1 && Tracks(x.0, y.0, p)
  {
    hide Storable, AsStored, Intact;
    IntactExactly(k, s);
  }

  lemma TrackSource(st: Store, su: Store, p: Pass, src: Id, dst: Id, other: Error)
    requires Tracks(st, su, p)
    ensures var x, y := Source(true, st, Some(p), src, dst, other), Source(false, su, Some(p), src, dst, other);
            x.1 == y.1 && Tracks(x.0, y.0, p)
  {
    TrackGet(st, su, p, src);
  }

  lemma TrackSeed(k: Crypto, st: Store, su: Store, p: Pass, a: Answers, src: Id, dst: Id, context: Bytes, index: nat)
    requires Tracks(st, su, p) && AnswersWith(a, p)
    ensures var x, y := SeedFromSeed(k, true, st, a, src, dst, context, index),
                        SeedFromSeed(k, false, su, a, src, dst, context, index);
            x.1 == y.1 && Tracks(x.0, y.0, p)
  {
    hide Source, Add, Tracks, AsStored;
    TrackSource(st, su, p, src, dst, NotARootSeed);
    var (u, seed) := Source(true, st, Some(p), src, dst, NotARootSeed);
    if seed.Ok? {
      TrackAdd(k, u, Source(false, su, Some(p), src, dst, NotARootSeed).0, p, a.enc1, dst,
               Seed(k.derive(seed.value, context, index)));
    }
  }

  lemma TrackSigning(k: Crypto, st: Store, su: Store, p: Pass, a: Answers, src: Id, dst: Id)
    requires Tracks(st, su, p) && AnswersWith(a, p) && Codecs(k)
    ensures var x, y := SigningKeyFromSeed(k, true, st, a.get1, a.enc1, src, dst),
                        SigningKeyFromSeed(k, false, su, a.get1, a.enc1, src, dst);
            x.1 == y.1 && Tracks(x.0, y.0, p)
  {
    hide Source, Add, Tracks, Codecs, Intact, Storable;
    TrackSource(st, su, p, src, dst, NotASeed);
    var (u, seed) := Source(true, st, Some(p), src, dst, NotASeed);
    if seed.Ok? {
      DerivedIntact(k, seed.value);
      TrackAdd(k, u, Source(false, su, Some(p), src, dst, NotASeed).0, p, a.enc1, dst, SigningFromSeed(k, seed.value));
    }
  }

  lemma TrackAddBundle(k: Crypto, st: Store, su: Store, p: Pass, a: Answers, prefix: Id, b: KeyBundle)
    requires Tracks(st, su, p) && AnswersWith(a, p) && Kept(k, SignHalf(b)) && Kept(k, EncHalf(b))
    ensures var x, y := AddBundle(k, st, a, prefix, b), AddBundle(k, su, a, prefix, b);
            x.1 == y.1 && Tracks(x.0, y.0, p)
  {
    hide Add, Tracks, Kept;
    TrackAdd(k, st, su, p, a.enc1, SignId(prefix), SignHalf(b));
    var first := Add(k, st, a.enc1, SignId(prefix), SignHalf(b)).0;
    var second := Add(k, su, a.enc1, SignId(prefix), SignHalf(b)).0;
    TrackAdd(k, first, second, p, a.enc2, EncId(prefix), EncHalf(b));
  }

  lemma TrackGetBundle(st: Store, su: Store, p: Pass, a: Answers, prefix: Id)
    requires Tracks(st, su, p) && AnswersWith(a, p)
    ensures var x, y := GetBundle(true, st, a, prefix), GetBundle(false, su, a, prefix);
            x.1 == y.1 && Tracks(x.0, y.0, p)
  {
    hide Get, Tracks;
    TrackGet(st, su, p, SignId(prefix));
    TrackGet(Get(true, st, a.get1, SignId(prefix)).0, Get(false, su, a.get1, SignId(prefix)).0, p, EncId(prefix));
  }

  lemma TrackStep(k: Crypto, st: Store, su: Store, p: Pass, a: Answers, op: Op)
    requires Tracks(st, su, p) && AnswersWith(a, p) && CacheSafe(k, op) && Codecs(k)
    ensures var x, y := Step(k, true, st, a, op), Step(k, false, su, a, op); x.1 == y.1 && Tracks(x.0, y.0, p)
  {
    hide Add, SeedFromSeed, SigningKeyFromSeed, EncryptingKeyFromSeed, AddBundle, BundleFromSeed;
    hide Get, GetBundle, Tracks, Kept, Codecs;
    match op {
      case OpAdd(id, s) => TrackAdd(k, st, su, p, a.enc1, id, s);
      case OpSeedFromSeed(src, dst, c, i) => TrackSeed(k, st, su, p, a, src, dst, c, i);
      case OpSigningFromSeed(src, dst) => TrackSigning(k, st, su, p, a, src, dst);
      case OpAddBundle(prefix, b) => TrackAddBundle(k, st, su, p, a, prefix, b);
      case OpGet(id) => TrackGet(st, su, p, id);
      case OpGetBundle(prefix) => TrackGetBundle(st, su, p, a, prefix);
      case OpSign(id, data) => TrackGet(st, su, p, id);
    }
  }

  /**
    Under one fixed passphrase, every run of adds, derivations of seeds and signing keys, bundles, gets
    and signatures gives the replies of a keystore without a cache and stores the same secrets, even
    if the manager sometimes fails to give the passphrase for an encryption or a call panics.
   */
  lemma {:induction false} CacheUnobservable(k: Crypto, st: Store, su: Store, p: Pass, calls: seq<Call>)
    requires Tracks(st, su, p) && Codecs(k)
    requires forall i | 0 <= i < |calls| :: AnswersWith(calls[i].answers, p) && CacheSafe(k, calls[i].op)
    ensures var x, y := Run(k, true, st, calls), Run(k, false, su, calls); x.1 == y.1 && Tracks(x.0, y.0, p)
    decreases |calls|
  {
    hide Step, Tracks, AnswersWith, CacheSafe, Codecs;
    if calls != [] {
      var a, op := calls[0].answers, calls[0].op;
      TrackStep(k, st, su, p, a, op);
      CacheUnobservable(k, Step(k, true, st, a, op).0, Step(k, false, su, a, op).0, p, calls[1..]);
    }
  }

  // ---------------------------------------------------------------- where the cache goes wrong

  /**
    An add keeps the cache right exactly when decryption will use the same passphrase and the secret comes
    back unchanged. The first fails when the check text is of the default passphrase and another one is
    given: the secret is then encrypted with the one and decrypted with the other.
   */
  lemma CacheAfterAdd(k: Crypto, st: Store, p: Pass, id: Id, s: Secret)
    requires Coherent(st, p) && Add(k, st, Some(p), id, s).1.Ok?
    ensures Coherent(Add(k, st, Some(p), id, s).0, p) <==>
            (Settled(st.check, p) && Intact(k, s)) || s == Seed(Zeros())
  {
    hide Storable, AsStored, Intact;
    IntactExactly(k, s);
    KindKept(k, s);
    ZerosIntact(k);
    var w := Add(k, st, Some(p), id, s).0;
    assert forall x | x in st.secrets :: Decrypted(w, Some(p), x) == Decrypted(st, Some(p), x);
    assert id in w.secrets && id in w.cache;
  }

  function KeyOfZeros(k: Crypto): Secret {
    EncryptingKey(k.encodeKx(Zeros()), k.kxPublic(Zeros()))
  }

  /** What the cached source seed becomes. */
  function Overwritten(k: Crypto): Secret {
    Seed(k.kxPrivate(Zeros()))
  }

  /** One derivation that succeeds: with the buffers in the wrong order, the key is made from a zeroed seed. */
  lemma EncryptingKeyOfZeros(
    k: Crypto, cached: bool, st: Store, get: Option<Pass>, enc: Option<Pass>, src: Id, dst: Id)
    requires EncryptingKeyFromSeed(k, cached, st, get, enc, src, dst).1.Ok?
    ensures var (w, r) := EncryptingKeyFromSeed(k, cached, st, get, enc, src, dst);
            && r.value == k.encodeKx(Zeros()) && dst in w.secrets && Storable(k, KeyOfZeros(k))
            && w.secrets[dst].secret == AsStored(k, KeyOfZeros(k))
  {
    hide Source, Add, Storable, AsStored;
    var (u, seed) := Source(cached, st, get, src, dst, NotASeed);
    AddFacts(k, u.(cache := u.cache[src := Overwritten(k)]), enc, dst, KeyOfZeros(k));
  }

  /** Any two encrypting keys, derived from any seeds in any two keystores, are the same key. */
  lemma EncryptingKeysCoincide(
    k: Crypto, st: Store, a: Answers, src: Id, dst: Id, su: Store, b: Answers, src': Id, dst': Id)
    requires EncryptingKeyFromSeed(k, true, st, a.get1, a.enc1, src, dst).1.Ok?
    requires EncryptingKeyFromSeed(k, true, su, b.get1, b.enc1, src', dst').1.Ok?
    ensures var x := EncryptingKeyFromSeed(k, true, st, a.get1, a.enc1, src, dst);
            var y := EncryptingKeyFromSeed(k, true, su, b.get1, b.enc1, src', dst');
            && x.1 == y.1 && dst in x.0.secrets && dst' in y.0.secrets
            && x.0.secrets[dst].secret == y.0.secrets[dst'].secret
  {
    hide EncryptingKeyFromSeed;
    EncryptingKeyOfZeros(k, true, st, a.get1, a.enc1, src, dst);
    EncryptingKeyOfZeros(k, true, su, b.get1, b.enc1, src', dst');
  }

  /** The derivation of an encrypting key gets as far as making the key. */
  predicate Derives(st: Store, p: Pass, src: Id, dst: Id) {
    var s := Source(true, st, Some(p), src, dst, NotASeed).1; s.Ok? && |s.value| == SEED_SIZE
  }

  lemma EncryptingState(k: Crypto, st: Store, p: Pass, enc: Option<Pass>, src: Id, dst: Id)
    requires Coherent(st, p) && Settled(st.check, p) && Derives(st, p, src, dst) && (enc.Some? ==> enc.value == p)
    requires Codecs(k)
    ensures var w := EncryptingKeyFromSeed(k, true, st, Some(p), enc, src, dst).0;
            && src in w.secrets && src in w.cache && w.cache[src] == Overwritten(k)
            && Decrypted(w, Some(p), src) == Decrypted(st, Some(p), src) && Decrypted(st, Some(p), src).Ok?
            && (forall id | id in w.secrets && id in w.cache && id != src ::
                  Decrypted(w, Some(p), id) == Ok(w.cache[id]))
  {
    var (u, seed) := Source(true, st, Some(p), src, dst, NotASeed);
    var v := u.(cache := u.cache[src := Overwritten(k)]);
    assert Coherent(u, p) && u.secrets == st.secrets && u.check == st.check;
    assert forall id | id in v.secrets && id in v.cache && id != src :: Decrypted(v, Some(p), id) == Ok(v.cache[id]);
    hide Storable, AsStored, Intact, Codecs, Source, Coherent;
    DerivedIntact(k, seed.value);
    IntactExactly(k, KeyOfZeros(k));
  }

  /**
    Deriving an encrypting key, whether or not it can be stored, leaves the cache right exactly when the
    source seed happens to be what it is overwritten with.
   */
  lemma EncryptingKeyBreaksCache(k: Crypto, st: Store, p: Pass, enc: Option<Pass>, src: Id, dst: Id)
    requires Coherent(st, p) && Settled(st.check, p) && Derives(st, p, src, dst) && (enc.Some? ==> enc.value == p)
    requires Codecs(k)
    ensures Coherent(EncryptingKeyFromSeed(k, true, st, Some(p), enc, src, dst).0, p) <==>
            Decrypted(st, Some(p), src) == Ok(Overwritten(k))
  {
    hide EncryptingKeyFromSeed;
    EncryptingState(k, st, p, enc, src, dst);
  }

  /** A later get of the source differs from what the file holds exactly when the seed does. */
  lemma LaterGetDiffers(k: Crypto, st: Store, p: Pass, enc: Option<Pass>, src: Id, dst: Id)
    requires Coherent(st, p) && Settled(st.check, p) && Derives(st, p, src, dst) && (enc.Some? ==> enc.value == p)
    requires Codecs(k)
    ensures var w := EncryptingKeyFromSeed(k, true, st, Some(p), enc, src, dst).0;
            && Get(true, w, Some(p), src).1 == Ok(Overwritten(k))
            && (Get(true, w, Some(p), src).1 != Get(false, w, Some(p), src).1 <==>
                Decrypted(st, Some(p), src) != Ok(Overwritten(k)))
  {
    hide EncryptingKeyFromSeed;
    EncryptingState(k, st, p, enc, src, dst);
  }

  /** So does a later derivation of a signing key, if different seeds have different public keys. */
  lemma LaterSigningKeyDiffers(k: Crypto, st: Store, p: Pass, enc: Option<Pass>, src: Id, dst: Id, other: Id)
    requires Coherent(st, p) && Settled(st.check, p) && Derives(st, p, src, dst) && (enc.Some? ==> enc.value == p)
    requires Codecs(k)
    requires forall x, y :: k.encodeSign(k.signPublic(x)) == k.encodeSign(k.signPublic(y)) ==> x == y
    requires other !in EncryptingKeyFromSeed(k, true, st, Some(p), enc, src, dst).0.secrets
    ensures var w := EncryptingKeyFromSeed(k, true, st, Some(p), enc, src, dst).0;
            SigningKeyFromSeed(k, true, w, Some(p), Some(p), src, other).1 !=
            SigningKeyFromSeed(k, false, w, Some(p), Some(p), src, other).1 <==>
            Decrypted(st, Some(p), src) != Ok(Overwritten(k))
  {
    hide EncryptingKeyFromSeed;
    EncryptingState(k, st, p, enc, src, dst);
    var w := EncryptingKeyFromSeed(k, true, st, Some(p), enc, src, dst).0;
    var seed := Source(true, st, Some(p), src, dst, NotASeed).1.value;
    assert Decrypted(st, Some(p), src) == Ok(Seed(seed));
    DerivedIntact(k, seed);
    DerivedIntact(k, k.kxPrivate(Zeros()));
    IntactExactly(k, SigningFromSeed(k, seed));
    IntactExactly(k, SigningFromSeed(k, k.kxPrivate(Zeros())));
    hide Storable, AsStored, Intact, Codecs;
    assert SigningKeyFromSeed(k, true, w, Some(p), Some(p), src, other).1 ==
           Ok(k.encodeSign(k.signPublic(k.kxPrivate(Zeros()))));
    assert SigningKeyFromSeed(k, false, w, Some(p), Some(p), src, other).1 == Ok(k.encodeSign(k.signPublic(seed)));
  }
}
