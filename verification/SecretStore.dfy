/**
  The keystore as a value: encrypted secrets, the cache of decrypted ones and the check text, with
  every operation for every answer the passphrase manager may give. Encryption is symbolic: a blob
  keeps the passphrase and the secret that can be read from it. Decrypting with another passphrase leaves
  the output buffer zeroed, which a key blob's version check refuses and a seed blob does not.
 */
module SecretStore {

  import opened Wrappers
  import KeyBlob

  type Id = string
  type Pass = string
  type Bytes = seq<nat>

  const SEED_SIZE: nat := 32
  const PUBLIC_SIZE: nat := 32
  const SIGN_SECRET: nat := KeyBlob.SIGN_SECRET
  const KX_SECRET: nat := KeyBlob.KX_SECRET

  /** The room for the private key in a key blob, its padding included. */
  const SIGN_ROOM: nat := KeyBlob.SigningRoom()
  const KX_ROOM: nat := KeyBlob.EncryptingRoom()

  const DEFAULT_PASSPHRASE: Pass := "convenient and insecure keystore"

  function Zeros(): (r: Bytes)
    ensures |r| == SEED_SIZE
  {
    seq(SEED_SIZE, _ => 0)
  }

  /** The content of a buffer that the sodium functions fill with a seed or a key of that size. */
  type SeedBytes = b: Bytes | |b| == SEED_SIZE witness Zeros()
  type SignBytes = b: Bytes | |b| == SIGN_SECRET witness Zeros() + Zeros()

  datatype Secret =
    | Seed(bytes: Bytes)
    | SigningKey(public: string, private: Bytes)
    | EncryptingKey(public: string, private: Bytes)

  datatype Blob = Blob(pass: Pass, secret: Secret)

  datatype Error =
    | IdentifierExists
    | UnknownSource
    | NoPassphrase       // the passphrase manager gave none
    | CouldNotDecrypt
    | NotARootSeed
    | NotASeed
    | InvalidIndex
    | NotASigningKey
    | NotAnEncryptingKey
    | BadPassphrase
    | Panic              // a failed assertion or `expect`

  datatype Result<+T> = Ok(value: T) | Err(error: Error)

  /**
    The sodium functions (key derivation, the two key pairs of a seed, signatures), the two codecs of
    public keys, and what a fresh secure buffer holds where a private key goes.
   */
  datatype Crypto = Crypto(
    derive: (Bytes, Bytes, nat) -> SeedBytes,
    signPublic: Bytes -> SeedBytes, signPrivate: Bytes -> SignBytes, sign: (Bytes, string) -> string,
    verify: (string, string, string) -> bool,
    kxPublic: Bytes -> SeedBytes, kxPrivate: Bytes -> SeedBytes,
    encodeSign: Bytes -> string, decodeSign: string -> Option<Bytes>,
    encodeKx: Bytes -> string, decodeKx: string -> Option<Bytes>,
    blank: SignBytes)

  datatype KeyBundle = KeyBundle(signPublic: string, signPrivate: Bytes, encPublic: string, encPrivate: Bytes)

  /** `check` is the passphrase that the check text was encrypted with. */
  datatype Store = Store(check: Pass, secrets: map<Id, Blob>, cache: map<Id, Secret>)

  /** What the manager says when asked to decrypt and to encrypt, the first and the second time in a call. */
  datatype Answers = Answers(get1: Option<Pass>, enc1: Option<Pass>, get2: Option<Pass>, enc2: Option<Pass>)

  // ---------------------------------------------------------------- reading and storing one secret

  function Decrypt(b: Blob, p: Pass): Result<Secret> {
    if p == b.pass then Ok(b.secret)
    else if b.secret.Seed? then Ok(Seed(Zeros()))
    else Err(CouldNotDecrypt)
  }

  /** `decrypt` tries the default passphrase against the check text before asking for one. */
  function PassToDecrypt(check: Pass, answer: Option<Pass>): Option<Pass> {
    if check == DEFAULT_PASSPHRASE then Some(DEFAULT_PASSPHRASE) else answer
  }

  /** What decrypting the stored blob gives, cache aside. */
  function Decrypted(st: Store, answer: Option<Pass>, id: Id): Result<Secret> {
    if id !in st.secrets then Err(UnknownSource)
    else
      var p := PassToDecrypt(st.check, answer);
      if p.None? then Err(NoPassphrase) else Decrypt(st.secrets[id], p.value)
  }

  /** `get`. With `cached` false the cache is not looked at: that is the keystore without one. */
  function Get(cached: bool, st: Store, answer: Option<Pass>, id: Id): (Store, Result<Secret>) {
    if cached && id in st.secrets && id in st.cache then (st, Ok(st.cache[id]))
    else
      var s := Decrypted(st, answer, id);
      (if s.Ok? then st.(cache := st.cache[id := s.value]) else st, s)
  }

  /** The decoded public key is of the size that `as_blob` asserts. */
  predicate Decoded(raw: Option<Bytes>) {
    raw.Some? && |raw.value| == PUBLIC_SIZE
  }

  /** `as_blob` goes through: a seed of its size, or a key that decodes and does not overflow its blob. */
  predicate Storable(k: Crypto, s: Secret) {
    match s
    case Seed(bytes) => |bytes| == SEED_SIZE
    case SigningKey(public, private) => Decoded(k.decodeSign(public)) && |private| <= SIGN_ROOM
    case EncryptingKey(public, private) => Decoded(k.decodeKx(public)) && |private| <= KX_ROOM
  }

  /** What is read back from the field of a private key: cut to its size, or filled up with what was there. */
  function Field(k: Crypto, private: Bytes, size: nat): Bytes
    requires size <= SIGN_SECRET
  {
    if |private| >= size then private[..size] else private + k.blank[|private|..size]
  }

  /** `from_blob` of `as_blob`. */
  function AsStored(k: Crypto, s: Secret): Secret
    requires Storable(k, s)
  {
    match s
    case Seed(_) => s
    case SigningKey(public, private) =>
      SigningKey(k.encodeSign(k.decodeSign(public).value), Field(k, private, SIGN_SECRET))
    case EncryptingKey(public, private) =>
      EncryptingKey(k.encodeKx(k.decodeKx(public).value), Field(k, private, KX_SECRET))
  }

  /** `add`: the secret enters the cache first; one that cannot be stored panics, once a passphrase is there. */
  function Add(k: Crypto, st: Store, answer: Option<Pass>, id: Id, s: Secret): (Store, Result<()>) {
    if id in st.secrets then (st, Err(IdentifierExists))
    else
      var c := st.(cache := st.cache[id := s]);
      if answer.None? then (c, Err(NoPassphrase))
      else if !Storable(k, s) then (c, Err(Panic))
      else (c.(secrets := st.secrets[id := Blob(answer.value, AsStored(k, s))]), Ok(()))
  }

  // ---------------------------------------------------------------- derivations

  /** `kx::seed_keypair(seed, pk, sk)` on the contents of its three buffers. */
  function SeedKeypair(k: Crypto, seed: Bytes, pk: Bytes, sk: Bytes): (Bytes, Bytes, Bytes) {
    (seed, k.kxPublic(seed), k.kxPrivate(seed))
  }

  /**
    `EncryptingKeyPair::new_from_seed`: the new key and the seed buffer afterwards. It passes the public
    buffer, the private buffer and the seed, in this order. `private` is what the fresh secure buffer holds.
   */
  function EncryptingFromSeed(k: Crypto, seed: Bytes, private: Bytes): (Secret, Bytes) {
    var (pubBuf, privBuf, seedBuf) := SeedKeypair(k, Zeros(), private, seed);
    (EncryptingKey(k.encodeKx(pubBuf), privBuf), seedBuf)
  }

  function SigningFromSeed(k: Crypto, seed: Bytes): Secret {
    SigningKey(k.encodeSign(k.signPublic(seed)), k.signPrivate(seed))
  }

  /** Identifier checks and the source seed, as every derivation starts. */
  function Source(cached: bool, st: Store, answer: Option<Pass>, src: Id, dst: Id, other: Error)
    : (Store, Result<Bytes>)
  {
    if dst in st.secrets then (st, Err(IdentifierExists))
    else
      var (u, s) := Get(cached, st, answer, src);
      (u, if s.Err? then Err(s.error) else if !s.value.Seed? then Err(other) else Ok(s.value.bytes))
  }

  function SeedFromSeed(
    k: Crypto, cached: bool, st: Store, a: Answers, src: Id, dst: Id, context: Bytes, index: nat): (Store, Result<()>)
  {
    var (u, seed) := Source(cached, st, a.get1, src, dst, NotARootSeed);
    if seed.Err? then (u, Err(seed.error))
    else if index == 0 then (u, Err(InvalidIndex))
    else Add(k, u, a.enc1, dst, Seed(k.derive(seed.value, context, index)))
  }

  function SigningKeyFromSeed(
    k: Crypto, cached: bool, st: Store, get: Option<Pass>, enc: Option<Pass>, src: Id, dst: Id): (Store, Result<string>)
  {
    var (u, seed) := Source(cached, st, get, src, dst, NotASeed);
    if seed.Err? then (u, Err(seed.error))
    else if |seed.value| != SEED_SIZE then (u, Err(Panic))
    else
      var key := SigningFromSeed(k, seed.value);
      var (v, r) := Add(k, u, enc, dst, key);
      (v, if r.Err? then Err(r.error) else Ok(key.public))
  }

  /** The seed that is overwritten is the one in the cache, where `get` has put it. */
  function EncryptingKeyFromSeed(
    k: Crypto, cached: bool, st: Store, get: Option<Pass>, enc: Option<Pass>, src: Id, dst: Id): (Store, Result<string>)
  {
    var (u, seed) := Source(cached, st, get, src, dst, NotASeed);
    if seed.Err? then (u, Err(seed.error))
    else if |seed.value| != SEED_SIZE then (u, Err(Panic))
    else
      var (key, seedBuf) := EncryptingFromSeed(k, seed.value, Zeros());
      var (v, r) := Add(k, u.(cache := u.cache[src := Seed(seedBuf)]), enc, dst, key);
      (v, if r.Err? then Err(r.error) else Ok(key.public))
  }

  // ---------------------------------------------------------------- key bundles

  function SignId(prefix: Id): Id { prefix + ":sign_key" }
  function EncId(prefix: Id): Id { prefix + ":enc_key" }

  function AddBundle(k: Crypto, st: Store, a: Answers, prefix: Id, b: KeyBundle): (Store, Result<()>) {
    var (u, r) := Add(k, st, a.enc1, SignId(prefix), SigningKey(b.signPublic, b.signPrivate));
    if r.Err? then (u, r) else Add(k, u, a.enc2, EncId(prefix), EncryptingKey(b.encPublic, b.encPrivate))
  }

  function BundleFromSeed(
    k: Crypto, cached: bool, st: Store, a: Answers, src: Id, prefix: Id): (Store, Result<(string, string)>)
  {
    var (u, s) := SigningKeyFromSeed(k, cached, st, a.get1, a.enc1, src, SignId(prefix));
    if s.Err? then (u, Err(s.error))
    else
      var (v, e) := EncryptingKeyFromSeed(k, cached, u, a.get2, a.enc2, src, EncId(prefix));
      (v, if e.Err? then Err(e.error) else Ok((s.value, e.value)))
  }

  function GetBundle(cached: bool, st: Store, a: Answers, prefix: Id): (Store, Result<KeyBundle>) {
    var (u, s) := Get(cached, st, a.get1, SignId(prefix));
    if s.Err? then (u, Err(s.error))
    else if !s.value.SigningKey? then (u, Err(NotASigningKey))
    else
      var (v, e) := Get(cached, u, a.get2, EncId(prefix));
      if e.Err? then (v, Err(e.error))
      else if !e.value.EncryptingKey? then (v, Err(NotAnEncryptingKey))
      else (v, Ok(KeyBundle(s.value.public, s.value.private, e.value.public, e.value.private)))
  }

  function Sign(k: Crypto, cached: bool, st: Store, a: Answers, id: Id, data: string): (Store, Result<string>) {
    var (u, s) := Get(cached, st, a.get1, id);
    (u, if s.Err? then Err(s.error)
        else if !s.value.SigningKey? then Err(NotASigningKey)
        else Ok(k.sign(s.value.private, data)))
  }

  /** `change_passphrase` re-encrypts the check text and nothing else. */
  function Change(st: Store, old': Pass, new': Pass): (Store, Result<()>) {
    if old' == st.check then (st.(check := new'), Ok(())) else (st, Err(BadPassphrase))
  }

  // ---------------------------------------------------------------- runs

  datatype Op =
    | OpAdd(id: Id, secret: Secret)
    | OpSeedFromSeed(src: Id, dst: Id, context: Bytes, index: nat)
    | OpSigningFromSeed(src: Id, dst: Id)
    | OpEncryptingFromSeed(src: Id, dst: Id)
    | OpAddBundle(prefix: Id, bundle: KeyBundle)
    | OpBundleFromSeed(src: Id, prefix: Id)
    | OpGet(id: Id)
    | OpGetBundle(prefix: Id)
    | OpSign(id: Id, data: string)
    | OpChange(old': Pass, new': Pass)

  datatype Reply =
    | Done(r: Result<()>)
    | Key(k: Result<string>)
    | Keys(ks: Result<(string, string)>)
    | Found(s: Result<Secret>)
    | FoundBundle(b: Result<KeyBundle>)

  function Step(k: Crypto, cached: bool, st: Store, a: Answers, op: Op): (Store, Reply) {
    match op
    case OpAdd(id, s) => var (u, r) := Add(k, st, a.enc1, id, s); (u, Done(r))
    case OpSeedFromSeed(src, dst, c, i) => var (u, r) := SeedFromSeed(k, cached, st, a, src, dst, c, i); (u, Done(r))
    case OpSigningFromSeed(src, dst) =>
      var (u, r) := SigningKeyFromSeed(k, cached, st, a.get1, a.enc1, src, dst); (u, Key(r))
    case OpEncryptingFromSeed(src, dst) =>
      var (u, r) := EncryptingKeyFromSeed(k, cached, st, a.get1, a.enc1, src, dst); (u, Key(r))
    case OpAddBundle(prefix, b) => var (u, r) := AddBundle(k, st, a, prefix, b); (u, Done(r))
    case OpBundleFromSeed(src, prefix) => var (u, r) := BundleFromSeed(k, cached, st, a, src, prefix); (u, Keys(r))
    case OpGet(id) => var (u, r) := Get(cached, st, a.get1, id); (u, Found(r))
    case OpGetBundle(prefix) => var (u, r) := GetBundle(cached, st, a, prefix); (u, FoundBundle(r))
    case OpSign(id, data) => var (u, r) := Sign(k, cached, st, a, id, data); (u, Key(r))
    case OpChange(o, n) => var (u, r) := Change(st, o, n); (u, Done(r))
  }

  function ErrorOf(r: Reply): Option<Error> {
    match r
    case Done(x) => if x.Err? then Some(x.error) else None
    case Key(x) => if x.Err? then Some(x.error) else None
    case Keys(x) => if x.Err? then Some(x.error) else None
    case Found(x) => if x.Err? then Some(x.error) else None
    case FoundBundle(x) => if x.Err? then Some(x.error) else None
  }

  datatype Call = Call(answers: Answers, op: Op)

  /** The calls one after the other, up to and including the first that panics. */
  function Run(k: Crypto, cached: bool, st: Store, calls: seq<Call>): (Store, seq<Reply>)
    decreases |calls|
  {
    if calls == [] then (st, [])
    else
      var (u, reply) := Step(k, cached, st, calls[0].answers, calls[0].op);
      if ErrorOf(reply) == Some(Panic) then (u, [reply])
      else
        var (v, replies) := Run(k, cached, u, calls[1..]);
        (v, [reply] + replies)
  }
}
