/** The byte layout of key blobs: written field after field at a running offset, read by fixed slices. */
module KeyBlob {

  import opened Wrappers
  import opened SecBuf

  type Bytes = seq<Byte>

  const SIGN_PUBLIC: nat := 32
  const SIGN_SECRET: nat := 64
  const KX_PUBLIC: nat := 32
  const KX_SECRET: nat := 32

  const KEYBUNDLE_VERSION: Byte := 2
  const SIGNING_VERSION: Byte := 1
  const ENCRYPTING_VERSION: Byte := 1

  const KEYBUNDLE_SIZE: nat := 1 + SIGN_PUBLIC + KX_PUBLIC + SIGN_SECRET + KX_SECRET
  const SIGNING_SIZE: nat := 1 + SIGN_PUBLIC + SIGN_SECRET
  const ENCRYPTING_SIZE: nat := 1 + KX_PUBLIC + KX_SECRET

  /** Rounded up to whole 8-byte words. */
  function Aligned(size: nat): (r: nat)
    ensures r % 8 == 0 && size <= r < size + 8
  {
    ((size + 8 - 1) / 8) * 8
  }

  /** The room for a private key behind the version byte and the public key, padding included. */
  function SigningRoom(): (r: nat)
    ensures r == 71
  {
    Aligned(SIGNING_SIZE) - 1 - SIGN_PUBLIC
  }

  function EncryptingRoom(): (r: nat)
    ensures r == 39
  {
    Aligned(ENCRYPTING_SIZE) - 1 - KX_PUBLIC
  }

  datatype Result<+T> = Ok(value: T) | InvalidFormat(version: Byte) | InvalidSize

  datatype SigningKeys = SigningKeys(public: Bytes, private: Bytes)
  datatype EncryptingKeys = EncryptingKeys(public: Bytes, private: Bytes)
  datatype Bundle = Bundle(sign: SigningKeys, enc: EncryptingKeys)

  predicate SigningSized(k: SigningKeys) {
    |k.public| == SIGN_PUBLIC && |k.private| == SIGN_SECRET
  }

  predicate EncryptingSized(k: EncryptingKeys) {
    |k.public| == KX_PUBLIC && |k.private| == KX_SECRET
  }

  // ---------------------------------------------------------------- reading

  /** `from_blob` of a signing key, on the decrypted buffer. */
  function DecodeSigning(b: Bytes): Result<SigningKeys> {
    if |b| != Aligned(SIGNING_SIZE) then InvalidSize
    else if b[0] != SIGNING_VERSION then InvalidFormat(b[0])
    else Ok(SigningKeys(b[1..33], b[33..97]))
  }

  function DecodeEncrypting(b: Bytes): Result<EncryptingKeys> {
    if |b| != Aligned(ENCRYPTING_SIZE) then InvalidSize
    else if b[0] != ENCRYPTING_VERSION then InvalidFormat(b[0])
    else Ok(EncryptingKeys(b[1..33], b[33..65]))
  }

  function DecodeBundle(b: Bytes): Result<Bundle> {
    if |b| != Aligned(KEYBUNDLE_SIZE) then InvalidSize
    else if b[0] != KEYBUNDLE_VERSION then InvalidFormat(b[0])
    else Ok(Bundle(SigningKeys(b[1..33], b[65..129]), EncryptingKeys(b[33..65], b[129..161])))
  }

  // ---------------------------------------------------------------- writing

  function Joined(fields: seq<Bytes>): Bytes {
    if fields == [] then [] else Joined(fields[..|fields| - 1]) + fields[|fields| - 1]
  }

  lemma {:induction false} PrefixFits(fields: seq<Bytes>, i: nat)
    requires i < |fields|
    ensures |Joined(fields[..i])| + |fields[i]| <= |Joined(fields)|
    decreases |fields|
  {
    if i == |fields| - 1 {
      assert fields[..i] == fields[..|fields| - 1];
    } else {
      PrefixFits(fields[..|fields| - 1], i);
      assert fields[..|fields| - 1][..i] == fields[..i];
    }
  }

  /** What has been written after `i` fields. */
  function Sofar(version: Byte, fields: seq<Bytes>, i: nat): Bytes
    requires i <= |fields|
  {
    [version] + Joined(fields[..i])
  }

  lemma SofarNext(version: Byte, fields: seq<Bytes>, i: nat)
    requires i < |fields|
    ensures Sofar(version, fields, i + 1) == Sofar(version, fields, i) + fields[i]
    ensures |Sofar(version, fields, i)| + |fields[i]| <= 1 + |Joined(fields)|
  {
    assert fields[..i + 1][..i] == fields[..i];
    PrefixFits(fields, i);
  }

  lemma SofarEnds(version: Byte, fields: seq<Bytes>)
    ensures Sofar(version, fields, 0) == [version]
    ensures Sofar(version, fields, |fields|) == [version] + Joined(fields)
  {
    assert fields[..|fields|] == fields;
  }

  /** The buffer begins with these bytes. */
  ghost predicate Starts(b: Bytes, done: Bytes) {
    |done| <= |b| && b[..|done|] == done
  }

  /** Writing one more field right behind what is there. */
  lemma OneMoreField(before: Bytes, after: Bytes, done: Bytes, field: Bytes)
    requires Starts(before, done) && |done| + |field| <= |before|
    requires after == before[..|done|] + field + before[|done| + |field|..]
    ensures Starts(after, done + field)
  {
    var n := |done| + |field|;
    assert after == (done + field) + before[n..];
    assert |done + field| == n;
  }

  /** One field at the running offset. */
  method AppendField(buf: Buffer, offset: nat, field: Bytes, ghost done: Bytes)
    requires buf.AtRest() && offset == |done| && offset + |field| <= buf.data.Length && Starts(buf.data[..], done)
    modifies buf`p, buf`page, buf.data
    ensures buf.AtRest() && Starts(buf.data[..], done + field)
  {
    ghost var before := buf.data[..];
    var _ := buf.Write(offset, field);
    assert before[..offset] == old(buf.data[..offset]);
    assert before[offset + |field|..] == old(buf.data[offset + |field|..]);
    hide Starts;
    OneMoreField(before, buf.data[..], done, field);
  }

  /** A fresh buffer with the version byte and the fields one after the other; the padding is unspecified. */
  method WriteFields(version: Byte, fields: seq<Bytes>, length: nat) returns (buf: Buffer)
    requires length % 8 == 0 && 1 + |Joined(fields)| <= length
    ensures fresh(buf) && fresh(buf.data) && buf.AtRest() && buf.t == Secure
    ensures buf.data.Length == length && Starts(buf.data[..], [version] + Joined(fields))
  {
    buf := new Buffer.WithSecure(length);
    assert Starts(buf.data[..], []);
    hide Joined, Sofar, Starts;
    AppendField(buf, 0, [version], []);
    assert [] + [version] == [version];
    SofarEnds(version, fields);
    var offset := 1;
    for i := 0 to |fields|
      invariant fresh(buf) && fresh(buf.data) && buf.AtRest() && buf.t == Secure && buf.data.Length == length
      invariant offset == |Sofar(version, fields, i)| && Starts(buf.data[..], Sofar(version, fields, i))
    {
      SofarNext(version, fields, i);
      AppendField(buf, offset, fields[i], Sofar(version, fields, i));
      offset := offset + |fields[i]|;
    }
  }

  /**
    `as_blob` of a signing key, up to the encryption. It panics, which is no buffer here, exactly when the
    public key has another size or the private key overflows the blob. Decoding gives the keys back exactly
    when the private key has its size.
   */
  method BlobSigning(k: SigningKeys) returns (r: Option<Buffer>)
    ensures r.None? <==> |k.public| != SIGN_PUBLIC || |k.private| > SigningRoom()
    ensures r.Some? ==> fresh(r.value) && fresh(r.value.data) && r.value.AtRest()
    ensures r.Some? ==>
              var b := r.value.data[..];
              && |b| == Aligned(SIGNING_SIZE)
              && DecodeSigning(b) == Ok(SigningKeys(k.public, FieldOf(b, k.private, SIGN_SECRET)))
              && (DecodeSigning(b) == Ok(k) <==> |k.private| == SIGN_SECRET)
  {
    if |k.public| != SIGN_PUBLIC || |k.private| > SigningRoom() {
      return None;
    }
    JoinTwo(k.public, k.private);
    var buf := WriteFields(SIGNING_VERSION, [k.public, k.private], Aligned(SIGNING_SIZE));
    AnySigning(buf.data[..], k);
    return Some(buf);
  }

  method BlobEncrypting(k: EncryptingKeys) returns (r: Option<Buffer>)
    ensures r.None? <==> |k.public| != KX_PUBLIC || |k.private| > EncryptingRoom()
    ensures r.Some? ==> fresh(r.value) && fresh(r.value.data) && r.value.AtRest()
    ensures r.Some? ==>
              var b := r.value.data[..];
              && |b| == Aligned(ENCRYPTING_SIZE)
              && DecodeEncrypting(b) == Ok(EncryptingKeys(k.public, FieldOf(b, k.private, KX_SECRET)))
              && (DecodeEncrypting(b) == Ok(k) <==> |k.private| == KX_SECRET)
  {
    if |k.public| != KX_PUBLIC || |k.private| > EncryptingRoom() {
      return None;
    }
    JoinTwo(k.public, k.private);
    var buf := WriteFields(ENCRYPTING_VERSION, [k.public, k.private], Aligned(ENCRYPTING_SIZE));
    AnyEncrypting(buf.data[..], k);
    return Some(buf);
  }

  method BlobBundle(k: Bundle) returns (buf: Buffer)
    requires SigningSized(k.sign) && EncryptingSized(k.enc)
    ensures fresh(buf) && fresh(buf.data) && buf.AtRest()
    ensures DecodeBundle(buf.data[..]) == Ok(k)
  {
    JoinFour(k.sign.public, k.enc.public, k.sign.private, k.enc.private);
    var fields := [k.sign.public, k.enc.public, k.sign.private, k.enc.private];
    buf := WriteFields(KEYBUNDLE_VERSION, fields, Aligned(KEYBUNDLE_SIZE));
    BundleLayout(buf.data[..], k);
  }

  lemma JoinTwo(a: Bytes, b: Bytes)
    ensures Joined([a, b]) == a + b
  {
    assert [a, b][..1] == [a] && [a][..0] == [];
    assert Joined([a]) == a;
  }

  lemma JoinFour(a: Bytes, b: Bytes, c: Bytes, d: Bytes)
    ensures Joined([a, b, c, d]) == a + b + c + d
  {
    JoinTwo(a, b);
    assert [a, b, c][..2] == [a, b];
    assert Joined([a, b, c]) == a + b + c;
    assert [a, b, c, d][..3] == [a, b, c];
  }

  /**
    A buffer decodes to given keys exactly when it starts with the version byte and the fields, one
    after the other: the slices neither overlap nor leave a gap, and the padding is not looked at.
   */
  lemma SigningLayout(b: Bytes, k: SigningKeys)
    requires SigningSized(k) && |b| == Aligned(SIGNING_SIZE)
    ensures DecodeSigning(b) == Ok(k) <==> b[..SIGNING_SIZE] == [SIGNING_VERSION] + (k.public + k.private)
  {
    var layout := [SIGNING_VERSION] + (k.public + k.private);
    assert b[..SIGNING_SIZE] == [b[0]] + (b[1..33] + b[33..97]);
    assert layout[1..33] == k.public && layout[33..97] == k.private;
    assert b[..SIGNING_SIZE][1..33] == b[1..33] && b[..SIGNING_SIZE][33..97] == b[33..97];
  }

  lemma EncryptingLayout(b: Bytes, k: EncryptingKeys)
    requires EncryptingSized(k) && |b| == Aligned(ENCRYPTING_SIZE)
    ensures DecodeEncrypting(b) == Ok(k) <==> b[..ENCRYPTING_SIZE] == [ENCRYPTING_VERSION] + (k.public + k.private)
  {
    var layout := [ENCRYPTING_VERSION] + (k.public + k.private);
    assert b[..ENCRYPTING_SIZE] == [b[0]] + (b[1..33] + b[33..65]);
    assert layout[1..33] == k.public && layout[33..65] == k.private;
    assert b[..ENCRYPTING_SIZE][1..33] == b[1..33] && b[..ENCRYPTING_SIZE][33..65] == b[33..65];
  }

  /** The field of a private key: cut to its size, or filled up with what the buffer held. */
  function FieldOf(b: Bytes, private: Bytes, size: nat): Bytes
    requires |b| >= 33 + size
  {
    if |private| >= size then private[..size] else private + b[33 + |private|..33 + size]
  }

  lemma HeadRead(b: Bytes, public: Bytes, private: Bytes, version: Byte)
    requires |public| == 32 && Starts(b, [version] + (public + private))
    ensures b[0] == version && b[1..33] == public && b[33..33 + |private|] == private
  {
    var keys, n := public + private, 33 + |private|;
    assert b[..n] == [version] + keys;
    assert b[..n][0] == version && b[..n][1..] == keys;
    assert b[1..n] == keys;
    assert keys[..32] == public && keys[32..] == private;
    assert b[1..n][..32] == b[1..33] && b[1..n][32..] == b[33..n];
  }

  lemma FieldRead(b: Bytes, private: Bytes, size: nat)
    requires 33 + |private| <= |b| && 33 + size <= |b| && b[33..33 + |private|] == private
    ensures b[33..33 + size] == FieldOf(b, private, size)
    ensures FieldOf(b, private, size) == private <==> |private| == size
  {
    var m := 33 + |private|;
    if |private| >= size {
      assert b[33..m][..size] == b[33..33 + size];
    } else {
      assert b[33..m] + b[m..33 + size] == b[33..33 + size];
    }
  }

  lemma AnySigning(b: Bytes, k: SigningKeys)
    requires |k.public| == SIGN_PUBLIC && |k.private| <= SigningRoom() && |b| == Aligned(SIGNING_SIZE)
    requires Starts(b, [SIGNING_VERSION] + (k.public + k.private))
    ensures DecodeSigning(b) == Ok(SigningKeys(k.public, FieldOf(b, k.private, SIGN_SECRET)))
    ensures DecodeSigning(b) == Ok(k) <==> |k.private| == SIGN_SECRET
  {
    hide FieldOf, Starts;
    HeadRead(b, k.public, k.private, SIGNING_VERSION);
    FieldRead(b, k.private, SIGN_SECRET);
  }

  lemma AnyEncrypting(b: Bytes, k: EncryptingKeys)
    requires |k.public| == KX_PUBLIC && |k.private| <= EncryptingRoom() && |b| == Aligned(ENCRYPTING_SIZE)
    requires Starts(b, [ENCRYPTING_VERSION] + (k.public + k.private))
    ensures DecodeEncrypting(b) == Ok(EncryptingKeys(k.public, FieldOf(b, k.private, KX_SECRET)))
    ensures DecodeEncrypting(b) == Ok(k) <==> |k.private| == KX_SECRET
  {
    hide FieldOf, Starts;
    HeadRead(b, k.public, k.private, ENCRYPTING_VERSION);
    FieldRead(b, k.private, KX_SECRET);
  }

  function BundleFields(k: Bundle): Bytes {
    k.sign.public + k.enc.public + k.sign.private + k.enc.private
  }

  lemma BundleLayout(b: Bytes, k: Bundle)
    requires SigningSized(k.sign) && EncryptingSized(k.enc) && |b| == Aligned(KEYBUNDLE_SIZE)
    ensures DecodeBundle(b) == Ok(k) <==> b[..KEYBUNDLE_SIZE] == [KEYBUNDLE_VERSION] + BundleFields(k)
  {
    var layout, head := [KEYBUNDLE_VERSION] + BundleFields(k), b[..KEYBUNDLE_SIZE];
    assert head == [b[0]] + (b[1..33] + b[33..65] + b[65..129] + b[129..161]);
    assert layout[1..33] == k.sign.public && layout[33..65] == k.enc.public;
    assert layout[65..129] == k.sign.private && layout[129..161] == k.enc.private;
    assert head[1..33] == b[1..33] && head[33..65] == b[33..65];
    assert head[65..129] == b[65..129] && head[129..161] == b[129..161];
  }

  /** A zeroed buffer, which is what a wrong passphrase leaves, is no key blob of any kind. */
  lemma ZeroedIsRefused(b: Bytes)
    requires forall i | 0 <= i < |b| :: b[i] == 0
    ensures !DecodeSigning(b).Ok? && !DecodeEncrypting(b).Ok? && !DecodeBundle(b).Ok?
  {
  }

  // ---------------------------------------------------------------- reading, as the code does it

  /** A slice of the blob copied into a buffer of its own. */
  method CopyOut(b: Bytes, lo: nat, hi: nat, secure: bool) returns (out: Bytes)
    requires lo <= hi <= |b| && (hi - lo) % 8 == 0
    ensures out == b[lo..hi]
  {
    var buf: Buffer;
    if secure {
      buf := new Buffer.WithSecure(hi - lo);
    } else {
      buf := new Buffer.WithInsecure(hi - lo);
    }
    var _ := buf.Write(0, b[lo..hi]);
    out := buf.data[..];
  }

  /** `from_blob` of a key bundle: the decrypted buffer is locked for reading and at rest again afterwards. */
  method UnblobBundle(buf: Buffer) returns (r: Result<Bundle>)
    requires buf.AtRest() && buf.data.Length == Aligned(KEYBUNDLE_SIZE)
    modifies buf`p, buf`page
    ensures buf.AtRest() && r == DecodeBundle(buf.data[..])
  {
    var _ := buf.Lock(false);
    var b := buf.data[..];
    if b[0] != KEYBUNDLE_VERSION {
      buf.Unlock();
      return InvalidFormat(b[0]);
    }
    var pubSign := CopyOut(b, 1, 33, false);
    var pubEnc := CopyOut(b, 33, 65, false);
    var privSign := CopyOut(b, 65, 129, true);
    var privEnc := CopyOut(b, 129, 161, true);
    buf.Unlock();
    return Ok(Bundle(SigningKeys(pubSign, privSign), EncryptingKeys(pubEnc, privEnc)));
  }
}
