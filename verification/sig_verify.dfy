/** The signature check of the verify canister (`verify`) and the
    Ethereum "personal_sign" digest it is fed (`hash_keccak256`).

    The secp256k1 library and Keccak-256 are foreign code: they enter as the
    function-valued fields of `Curve` and as a `Keccak` function, about which
    nothing is assumed. What is modelled is the length gates, the dispatch on
    the public-key field, the order of the parsing steps, and the preimage. */
module SigVerify {
  import opened Results

  const MessageSize: nat := 32
  const SignatureSize: nat := 64
  const FullKeySize: nat := 65
  const RawKeySize: nat := 64
  const CompressedKeySize: nat := 33
  const RecoveryIdSize: nat := 1

  /** The SEC 1 encodings `PublicKey::parse_slice` is told to expect:
      uncompressed `04 || x || y` (section 2.3.3 of SEC 1 v2), the same
      without its tag byte, and compressed `02/03 || x`. */
  datatype KeyFormat = Full | Raw | Compressed

  /** Carriers for the library's parsed values. */
  datatype Message = Message(digest: seq<byte>)
  datatype Signature = Signature(rs: seq<byte>)
  datatype PublicKey = PublicKey(point: seq<byte>)
  datatype RecoveryId = RecoveryId(id: byte)

  /** The library entry points the check calls, uninterpreted:
      `Message::parse_slice`, `Signature::parse_standard_slice`,
      `PublicKey::parse_slice`, `recover` and `verify`. */
  datatype Curve = Curve(
    parseMessage: seq<byte> -> Option<Message>,
    parseSignature: seq<byte> -> Option<Signature>,
    parseKey: (seq<byte>, KeyFormat) -> Option<PublicKey>,
    recover: (Message, Signature, RecoveryId) -> Option<PublicKey>,
    check: (Message, Signature, PublicKey) -> bool)

  /** `RecoveryId::parse`: the library accepts the four ids 0 to 3. */
  function ParseRecoveryId(b: byte): (r: Option<RecoveryId>)
    ensures r.Some? <==> b < 4
    ensures r.Some? ==> r.value.id == b
  {
    if b < 4 then Some(RecoveryId(b)) else None
  }

  datatype Verification = Verification(message: seq<byte>, signature: seq<byte>, publicKey: seq<byte>)

  /** The key the signature is checked against: the key field parsed in the
      format its length selects, or, for a one-byte field, the key recovered
      from the digest, the signature and that recovery id. */
  function ResolveKey(c: Curve, field: seq<byte>, m: Message, s: Signature): (r: Option<PublicKey>)
    ensures r.Some? ==> |field| in {FullKeySize, RawKeySize, CompressedKeySize, RecoveryIdSize}
    ensures |field| == RecoveryIdSize && field[0] >= 4 ==> r.None?
  {
    if |field| == FullKeySize then c.parseKey(field, Full)
    else if |field| == RawKeySize then c.parseKey(field, Raw)
    else if |field| == CompressedKeySize then c.parseKey(field, Compressed)
    else if |field| == RecoveryIdSize then
      match ParseRecoveryId(field[0])
      case None => None
      case Some(id) => c.recover(m, s, id)
    else None
  }

  /** `verify`: true only when every gate and every parse passes and the
      library's check accepts; every failure is a plain `false`. */
  function Verify(c: Curve, v: Verification): (ok: bool)
    ensures |v.message| != MessageSize ==> !ok
    ensures |v.signature| != SignatureSize ==> !ok
    ensures c.parseMessage(v.message).None? || c.parseSignature(v.signature).None? ==> !ok
    ensures |v.publicKey| !in {FullKeySize, RawKeySize, CompressedKeySize, RecoveryIdSize} ==> !ok
    ensures |v.publicKey| == RecoveryIdSize && v.publicKey[0] >= 4 ==> !ok
  {
    if |v.message| != MessageSize then false
    else match c.parseMessage(v.message)
    case None => false
    case Some(m) =>
      if |v.signature| != SignatureSize then false
      else match c.parseSignature(v.signature)
      case None => false
      case Some(s) =>
        match ResolveKey(c, v.publicKey, m, s)
        case None => false
        case Some(k) => c.check(m, s, k)
  }

  /** The library check succeeds on a resolved key. */
  predicate Checks(c: Curve, m: Message, s: Signature, k: Option<PublicKey>) {
    k.Some? && c.check(m, s, k.value)
  }

  /** Once the digest and the signature have parsed, the key field's length
      alone decides how the key is obtained. */
  lemma KeyFieldDispatch(c: Curve, v: Verification, m: Message, s: Signature)
    requires |v.message| == MessageSize && c.parseMessage(v.message) == Some(m)
    requires |v.signature| == SignatureSize && c.parseSignature(v.signature) == Some(s)
    ensures |v.publicKey| == FullKeySize ==> (Verify(c, v) <==> Checks(c, m, s, c.parseKey(v.publicKey, Full)))
    ensures |v.publicKey| == RawKeySize ==> (Verify(c, v) <==> Checks(c, m, s, c.parseKey(v.publicKey, Raw)))
    ensures |v.publicKey| == CompressedKeySize ==> (Verify(c, v) <==> Checks(c, m, s, c.parseKey(v.publicKey, Compressed)))
    ensures |v.publicKey| == RecoveryIdSize && v.publicKey[0] < 4 ==>
      (Verify(c, v) <==> Checks(c, m, s, c.recover(m, s, RecoveryId(v.publicKey[0]))))
  {
  }

  /** `k` is a key the field denotes, in whichever reading its length allows. */
  ghost predicate Denotes(c: Curve, field: seq<byte>, m: Message, s: Signature, k: PublicKey) {
    || (|field| == FullKeySize && c.parseKey(field, Full) == Some(k))
    || (|field| == RawKeySize && c.parseKey(field, Raw) == Some(k))
    || (|field| == CompressedKeySize && c.parseKey(field, Compressed) == Some(k))
    || (|field| == RecoveryIdSize && field[0] < 4 && c.recover(m, s, RecoveryId(field[0])) == Some(k))
  }

  /** The relational reading of a successful check: right-sized inputs that
      parse, and a key the field denotes that the library accepts. */
  ghost predicate Accepts(c: Curve, v: Verification) {
    && |v.message| == MessageSize
    && |v.signature| == SignatureSize
    && exists m: Message, s: Signature, k: PublicKey ::
         && c.parseMessage(v.message) == Some(m)
         && c.parseSignature(v.signature) == Some(s)
         && Denotes(c, v.publicKey, m, s, k)
         && c.check(m, s, k)
  }

  lemma VerifyMeansAccepts(c: Curve, v: Verification)
    ensures Verify(c, v) <==> Accepts(c, v)
  {
    if Verify(c, v) {
      var m := c.parseMessage(v.message).value;
      var s := c.parseSignature(v.signature).value;
      var k := ResolveKey(c, v.publicKey, m, s).value;
      assert Denotes(c, v.publicKey, m, s, k);
    }
    if Accepts(c, v) {
      var m: Message, s: Signature, k: PublicKey :|
        && c.parseMessage(v.message) == Some(m)
        && c.parseSignature(v.signature) == Some(s)
        && Denotes(c, v.publicKey, m, s, k)
        && c.check(m, s, k);
      assert ResolveKey(c, v.publicKey, m, s) == Some(k);
    }
  }

  // ---- hash_keccak256 -------------------------------------------------

  /** A Keccak-256 output. */
  type Digest = d: seq<byte> | |d| == 32 witness seq(32, i => 0)

  predicate IsDigit(b: byte) {
    48 <= b <= 57
  }

  /** `format!("{}", n)` for an unsigned integer: ASCII decimal digits with
      no leading zero. */
  function Decimal(n: nat): (r: seq<byte>)
    ensures |r| >= 1
    ensures forall i | 0 <= i < |r| :: IsDigit(r[i])
    ensures |r| > 1 ==> r[0] != 48
    decreases n
  {
    if n < 10 then [48 + n] else Decimal(n / 10) + [48 + n % 10]
  }

  /** Reading a digit string back as a number. */
  function DigitsValue(ds: seq<byte>): nat
    requires forall i | 0 <= i < |ds| :: IsDigit(ds[i])
  {
    if ds == [] then 0
    else
      assert IsDigit(ds[|ds| - 1]);
      DigitsValue(ds[..|ds| - 1]) * 10 + (ds[|ds| - 1] - 48)
  }

  lemma {:induction false} DecimalRoundTrip(n: nat)
    ensures DigitsValue(Decimal(n)) == n
    decreases n
  {
    if n >= 10 {
      DecimalRoundTrip(n / 10);
      var d := Decimal(n);
      assert d[..|d| - 1] == Decimal(n / 10);
    }
  }

  /** A larger number never has fewer digits. */
  lemma {:induction false} DecimalLengthMonotone(n: nat, m: nat)
    requires n <= m
    ensures |Decimal(n)| <= |Decimal(m)|
    decreases n
  {
    if n >= 10 {
      DecimalLengthMonotone(n / 10, m / 10);
    }
  }

  /** "\x19Ethereum Signed Message:\n" as bytes. */
  const EthPrefix: seq<byte> :=
    [25, 69, 116, 104, 101, 114, 101, 117, 109, 32, 83, 105, 103, 110,
     101, 100, 32, 77, 101, 115, 115, 97, 103, 101, 58, 10]

  /** The EIP-191 version 0x45 preimage: prefix, the payload's byte length in
      decimal, then the payload. */
  function Preimage(payload: seq<byte>): (r: seq<byte>)
    ensures |r| == |EthPrefix| + |Decimal(|payload|)| + |payload|
    ensures r[..|EthPrefix|] == EthPrefix
    ensures r[|EthPrefix|..|EthPrefix| + |Decimal(|payload|)|] == Decimal(|payload|)
    ensures r[|r| - |payload|..] == payload
  {
    EthPrefix + Decimal(|payload|) + payload
  }

  /** The length field makes the preimage unambiguous: distinct payloads
      never share a preimage, even when a payload begins with digits. */
  lemma PreimageInjective(a: seq<byte>, b: seq<byte>)
    requires Preimage(a) == Preimage(b)
    ensures a == b
  {
    if |a| < |b| {
      DecimalLengthMonotone(|a|, |b|);
    } else if |b| < |a| {
      DecimalLengthMonotone(|b|, |a|);
    }
    assert |a| == |b|;
  }

  /** `hash_keccak256`: Keccak-256, a parameter, of the EIP-191 text: the
      prefix, the decimal byte length, the payload. */
  function HashKeccak256(keccak: seq<byte> -> Digest, payload: seq<byte>): (d: Digest)
    ensures d == keccak(EthPrefix + Decimal(|payload|) + payload)
  {
    keccak(Preimage(payload))
  }
}
