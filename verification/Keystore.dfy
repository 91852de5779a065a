/** The keystore in place: every method does to its fields what the store's operation of that name does. */
module Keystore {

  import opened Wrappers
  import opened SecretStore
  import opened KeystoreCache
  import SecretLaws

  class CachingKeystore {
    const crypto: Crypto
    var check: Pass
    var secrets: map<Id, Blob>
    var cache: map<Id, Secret>

    ghost function Abs(): Store
      reads this
    {
      Store(check, secrets, cache)
    }

    /** `Keystore::new`. */
    constructor (crypto: Crypto, p: Pass)
      ensures Abs() == Store(p, map[], map[]) && this.crypto == crypto
    {
      this.crypto := crypto;
      check, secrets, cache := p, map[], map[];
    }

    predicate CheckPassphrase(p: Pass)
      reads this
    {
      p == check
    }

    /** `decrypt`: fills the cache. */
    method DecryptInto(answer: Option<Pass>, id: Id) returns (r: Result<()>)
      requires id in secrets
      modifies this`cache
      ensures var s := Decrypted(old(Abs()), answer, id);
              && (s.Ok? ==> r == Ok(()) && cache == old(cache)[id := s.value])
              && (s.Err? ==> r == Err(s.error) && cache == old(cache))
    {
      var blob := secrets[id];
      var secret: Result<Secret>;
      if CheckPassphrase(DEFAULT_PASSPHRASE) {
        secret := Decrypt(blob, DEFAULT_PASSPHRASE);
      } else {
        if answer.None? {
          return Err(NoPassphrase);
        }
        secret := Decrypt(blob, answer.value);
      }
      if secret.Err? {
        return Err(secret.error);
      }
      cache := cache[id := secret.value];
      return Ok(());
    }

    method GetSecret(answer: Option<Pass>, id: Id) returns (r: Result<Secret>)
      modifies this`cache
      ensures (Abs(), r) == Get(true, old(Abs()), answer, id)
    {
      if id !in secrets {
        return Err(UnknownSource);
      }
      if id !in cache {
        var d := DecryptInto(answer, id);
        if d.Err? {
          return Err(d.error);
        }
      }
      return Ok(cache[id]);
    }

    /** `encrypt`: the passphrase is checked and the outcome not looked at. */
    method EncryptFrom(answer: Option<Pass>, id: Id) returns (r: Result<()>)
      requires id in cache && id !in secrets
      modifies this`secrets
      ensures (Abs(), r) == Add(crypto, old(Abs()), answer, id, cache[id])
    {
      ghost var st := Abs();
      assert st.cache[id := cache[id]] == st.cache;
      if answer.None? {
        return Err(NoPassphrase);
      }
      var _ := CheckPassphrase(answer.value);
      var s := cache[id];
      if !Storable(crypto, s) {
        return Err(Panic);
      }
      secrets := secrets[id := Blob(answer.value, AsStored(crypto, s))];
      return Ok(());
    }

    /** `add` and `add_random_seed`. */
    method AddSecret(answer: Option<Pass>, id: Id, s: Secret) returns (r: Result<()>)
      modifies this`secrets, this`cache
      ensures (Abs(), r) == Add(crypto, old(Abs()), answer, id, s)
    {
      if id in secrets {
        return Err(IdentifierExists);
      }
      cache := cache[id := s];
      r := EncryptFrom(answer, id);
    }

    method AddSeedFromSeed(a: Answers, src: Id, dst: Id, context: Bytes, index: nat) returns (r: Result<()>)
      modifies this`secrets, this`cache
      ensures (Abs(), r) == SeedFromSeed(crypto, true, old(Abs()), a, src, dst, context, index)
    {
      if dst in secrets {
        return Err(IdentifierExists);
      }
      var s := GetSecret(a.get1, src);
      if s.Err? {
        return Err(s.error);
      }
      if !s.value.Seed? {
        return Err(NotARootSeed);
      }
      if index == 0 {
        return Err(InvalidIndex);
      }
      r := AddSecret(a.enc1, dst, Seed(crypto.derive(s.value.bytes, context, index)));
    }

    method AddSigningKeyFromSeed(get: Option<Pass>, enc: Option<Pass>, src: Id, dst: Id) returns (r: Result<string>)
      modifies this`secrets, this`cache
      ensures (Abs(), r) == SigningKeyFromSeed(crypto, true, old(Abs()), get, enc, src, dst)
    {
      if dst in secrets {
        return Err(IdentifierExists);
      }
      var s := GetSecret(get, src);
      if s.Err? {
        return Err(s.error);
      }
      if !s.value.Seed? {
        return Err(NotASeed);
      }
      if |s.value.bytes| != SEED_SIZE {
        return Err(Panic);
      }
      var key := SigningFromSeed(crypto, s.value.bytes);
      var added := AddSecret(enc, dst, key);
      return if added.Err? then Err(added.error) else Ok(key.public);
    }

    /** `add_key_from_seed` for an encrypting key; the seed buffer it hands over is the one in the cache. */
    method AddEncryptingKeyFromSeed(get: Option<Pass>, enc: Option<Pass>, src: Id, dst: Id) returns (r: Result<string>)
      modifies this`secrets, this`cache
      ensures (Abs(), r) == EncryptingKeyFromSeed(crypto, true, old(Abs()), get, enc, src, dst)
      ensures r.Ok? && get.Some? && enc == get && Coherent(old(Abs()), get.value) && Settled(old(check), get.value) &&
              SecretLaws.Codecs(crypto) ==>
                (Coherent(Abs(), get.value) <==> Decrypted(old(Abs()), get, src) == Ok(Overwritten(crypto)))
    {
      ghost var st := Abs();
      if dst in secrets {
        return Err(IdentifierExists);
      }
      var s := GetSecret(get, src);
      if s.Err? {
        return Err(s.error);
      }
      if !s.value.Seed? {
        return Err(NotASeed);
      }
      if |s.value.bytes| != SEED_SIZE {
        return Err(Panic);
      }
      var (key, seedBuf) := EncryptingFromSeed(crypto, s.value.bytes, Zeros());
      cache := cache[src := Seed(seedBuf)];
      var added := AddSecret(enc, dst, key);
      r := if added.Err? then Err(added.error) else Ok(key.public);
      if get.Some? && enc == get && Coherent(st, get.value) && Settled(st.check, get.value) &&
         SecretLaws.Codecs(crypto) {
        EncryptingKeyBreaksCache(crypto, st, get.value, enc, src, dst);
      }
    }

    method AddKeybundle(a: Answers, prefix: Id, b: KeyBundle) returns (r: Result<()>)
      modifies this`secrets, this`cache
      ensures (Abs(), r) == AddBundle(crypto, old(Abs()), a, prefix, b)
    {
      r := AddSecret(a.enc1, SignId(prefix), SigningKey(b.signPublic, b.signPrivate));
      if r.Err? {
        return;
      }
      r := AddSecret(a.enc2, EncId(prefix), EncryptingKey(b.encPublic, b.encPrivate));
    }

    method AddKeybundleFromSeed(a: Answers, src: Id, prefix: Id) returns (r: Result<(string, string)>)
      modifies this`secrets, this`cache
      ensures (Abs(), r) == BundleFromSeed(crypto, true, old(Abs()), a, src, prefix)
    {
      var s := AddSigningKeyFromSeed(a.get1, a.enc1, src, SignId(prefix));
      if s.Err? {
        return Err(s.error);
      }
      var e := AddEncryptingKeyFromSeed(a.get2, a.enc2, src, EncId(prefix));
      return if e.Err? then Err(e.error) else Ok((s.value, e.value));
    }

    method GetKeybundle(a: Answers, prefix: Id) returns (r: Result<KeyBundle>)
      modifies this`cache
      ensures (Abs(), r) == GetBundle(true, old(Abs()), a, prefix)
    {
      var s := GetSecret(a.get1, SignId(prefix));
      if s.Err? {
        return Err(s.error);
      }
      if !s.value.SigningKey? {
        return Err(NotASigningKey);
      }
      var e := GetSecret(a.get2, EncId(prefix));
      if e.Err? {
        return Err(e.error);
      }
      if !e.value.EncryptingKey? {
        return Err(NotAnEncryptingKey);
      }
      return Ok(KeyBundle(s.value.public, s.value.private, e.value.public, e.value.private));
    }

    method SignWith(a: Answers, id: Id, data: string) returns (r: Result<string>)
      modifies this`cache
      ensures (Abs(), r) == Sign(crypto, true, old(Abs()), a, id, data)
    {
      var s := GetSecret(a.get1, id);
      if s.Err? {
        return Err(s.error);
      }
      if !s.value.SigningKey? {
        return Err(NotASigningKey);
      }
      return Ok(crypto.sign(s.value.private, data));
    }

    method ChangePassphrase(old': Pass, new': Pass) returns (r: Result<()>)
      modifies this`check
      ensures (Abs(), r) == Change(old(Abs()), old', new')
    {
      if !CheckPassphrase(old') {
        return Err(BadPassphrase);
      }
      check := new';
      return Ok(());
    }

    /** One call, for every passphrase the manager may give. */
    method Do(a: Answers, op: Op) returns (reply: Reply)
      modifies this
      ensures (Abs(), reply) == Step(crypto, true, old(Abs()), a, op)
    {
      hide Add, SeedFromSeed, SigningKeyFromSeed, EncryptingKeyFromSeed, AddBundle, BundleFromSeed;
      hide Get, GetBundle, Sign;
      match op {
        case OpAdd(id, s) => var r := AddSecret(a.enc1, id, s); reply := Done(r);
        case OpSeedFromSeed(src, dst, c, i) => var r := AddSeedFromSeed(a, src, dst, c, i); reply := Done(r);
        case OpSigningFromSeed(src, dst) => var r := AddSigningKeyFromSeed(a.get1, a.enc1, src, dst); reply := Key(r);
        case OpEncryptingFromSeed(src, dst) =>
          var r := AddEncryptingKeyFromSeed(a.get1, a.enc1, src, dst);
          reply := Key(r);
        case OpAddBundle(prefix, b) => var r := AddKeybundle(a, prefix, b); reply := Done(r);
        case OpBundleFromSeed(src, prefix) => var r := AddKeybundleFromSeed(a, src, prefix); reply := Keys(r);
        case OpGet(id) => var r := GetSecret(a.get1, id); reply := Found(r);
        case OpGetBundle(prefix) => var r := GetKeybundle(a, prefix); reply := FoundBundle(r);
        case OpSign(id, data) => var r := SignWith(a, id, data); reply := Key(r);
        case OpChange(o, n) => var r := ChangePassphrase(o, n); reply := Done(r);
      }
    }

    /** A whole run, up to a panic. */
    method DoAll(calls: seq<Call>) returns (replies: seq<Reply>)
      modifies this
      ensures (Abs(), replies) == Run(crypto, true, old(Abs()), calls)
    {
      hide Step;
      replies := [];
      ghost var whole := Run(crypto, true, Abs(), calls);
      assert calls[0..] == calls && [] + whole.1 == whole.1;
      for i := 0 to |calls|
        invariant var rest := Run(crypto, true, Abs(), calls[i..]); whole == (rest.0, replies + rest.1)
      {
        assert calls[i..][1..] == calls[i + 1..];
        ghost var before := replies;
        var reply := Do(calls[i].answers, calls[i].op);
        replies := replies + [reply];
        assert forall more :: before + ([reply] + more) == replies + more;
        if ErrorOf(reply) == Some(Panic) {
          assert replies + [] == replies;
          return;
        }
      }
      assert calls[|calls|..] == [] && replies + [] == replies;
    }
  }
}
