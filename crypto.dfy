/**
 * The result-protection pipeline of crypto.go: `encrypt` and `decrypt` as chains of
 * library stages with an early return on the first error.
 *
 * Go strings and byte slices are both sequences of bytes and converting one into the
 * other copies the bytes unchanged, so both are `string` here, one character per byte.
 * The library stages (base64, PEM, x509, RSA-OAEP with SHA-256) are not modelled: each
 * is an arbitrary function carried by a `Library` value, and every property below holds
 * whatever those functions are.
 */
module Crypto {
  import opened Wrappers

  /** An RSA public key: modulus and public exponent. */
  datatype RsaPublicKey = RsaPublicKey(n: nat, e: nat)

  /** An RSA private key; like Go's `rsa.PrivateKey` it embeds its public half. */
  datatype RsaPrivateKey = RsaPrivateKey(publicKey: RsaPublicKey, d: nat)

  /** What a PKIX SubjectPublicKeyInfo parse yields: an RSA key, or a key of another algorithm. */
  datatype PkixPublicKey = PkixRsa(rsa: RsaPublicKey) | PkixOther

  /** A PEM block: its type label and its decoded contents. */
  datatype PemBlock = PemBlock(blockType: string, bytes: string)

  /**
   * The library stages the pipeline calls. `pemDecode` yields the first block or nothing
   * (Go returns a nil block). `encryptOaep` stands for OAEP encryption with SHA-256 under
   * one fixed draw of the random source.
   */
  datatype Library = Library(
    base64Decode: string -> Result<string>,
    base64Encode: string -> string,
    pemDecode: string -> Option<PemBlock>,
    parsePkix: string -> Result<PkixPublicKey>,
    parsePkcs1: string -> Result<RsaPrivateKey>,
    encryptOaep: (RsaPublicKey, string) -> Result<string>,
    decryptOaep: (RsaPrivateKey, string) -> Result<string>)

  const MissingPublicPem := "failed to parse PEM block containing the public key"
  const MissingPrivatePem := "failed to parse PEM block containing the private key"

  /**
   * The key stages of `encrypt`: base64 decode, PEM block, PKIX parse. The first stage that
   * fails decides the error; a missing PEM block has its own fixed message.
   */
  function LoadPublicKey(lib: Library, key: string): (r: Result<PkixPublicKey>)
    ensures lib.base64Decode(key).Err? ==> r == Err(lib.base64Decode(key).error)
    ensures lib.base64Decode(key).Ok? && lib.pemDecode(lib.base64Decode(key).value).None? ==>
      r == Err(Error(MissingPublicPem))
    ensures lib.base64Decode(key).Ok? && lib.pemDecode(lib.base64Decode(key).value).Some? ==>
      r == lib.parsePkix(lib.pemDecode(lib.base64Decode(key).value).value.bytes)
  {
    match lib.base64Decode(key)
    case Err(e) => Err(e)
    case Ok(pem) =>
      match lib.pemDecode(pem)
      case None => Err(Error(MissingPublicPem))
      case Some(block) => lib.parsePkix(block.bytes)
  }

  /**
   * The key stages of `decrypt`: base64 decode, PEM block, PKCS #1 parse. The first stage
   * that fails decides the error; a missing PEM block has its own fixed message.
   */
  function LoadPrivateKey(lib: Library, key: string): (r: Result<RsaPrivateKey>)
    ensures lib.base64Decode(key).Err? ==> r == Err(lib.base64Decode(key).error)
    ensures lib.base64Decode(key).Ok? && lib.pemDecode(lib.base64Decode(key).value).None? ==>
      r == Err(Error(MissingPrivatePem))
    ensures lib.base64Decode(key).Ok? && lib.pemDecode(lib.base64Decode(key).value).Some? ==>
      r == lib.parsePkcs1(lib.pemDecode(lib.base64Decode(key).value).value.bytes)
  {
    match lib.base64Decode(key)
    case Err(e) => Err(e)
    case Ok(pem) =>
      match lib.pemDecode(pem)
      case None => Err(Error(MissingPrivatePem))
      case Some(block) => lib.parsePkcs1(block.bytes)
  }

  /**
   * What `encrypt` takes for granted: a configured key that parses as PKIX holds an RSA
   * key (the unchecked type assertion on the parsed key panics otherwise).
   */
  predicate PkixKeyIsRsa(lib: Library, key: string)
  {
    key != "" && LoadPublicKey(lib, key).Ok? ==> LoadPublicKey(lib, key).value.PkixRsa?
  }

  /**
   * `encrypt(rsaPublicKey, content)`: the content unchanged when no key is configured,
   * otherwise the base64 text of its OAEP ciphertext. Every failure yields `""` and an error.
   */
  function Encrypt(lib: Library, rsaPublicKey: string, content: string): (r: Returned)
    requires PkixKeyIsRsa(lib, rsaPublicKey)
    ensures r.err.Some? ==> r.text == ""
    ensures rsaPublicKey == "" ==> r == Returned(content, None)
    ensures rsaPublicKey != "" && LoadPublicKey(lib, rsaPublicKey).Err? ==>
      r == Returned("", Some(LoadPublicKey(lib, rsaPublicKey).error))
    ensures rsaPublicKey != "" && LoadPublicKey(lib, rsaPublicKey).Ok? ==>
      var pub := LoadPublicKey(lib, rsaPublicKey).value.rsa;
      && (lib.encryptOaep(pub, content).Err? ==> r == Returned("", Some(lib.encryptOaep(pub, content).error)))
      && (lib.encryptOaep(pub, content).Ok? ==> r == Returned(lib.base64Encode(lib.encryptOaep(pub, content).value), None))
  {
    if rsaPublicKey == "" then Returned(content, None)
    else
      match LoadPublicKey(lib, rsaPublicKey)
      case Err(e) => Returned("", Some(e))
      case Ok(pub) =>
        match lib.encryptOaep(pub.rsa, content)
        case Err(e) => Returned("", Some(e))
        case Ok(ciphertext) => Returned(lib.base64Encode(ciphertext), None)
  }

  /**
   * `decrypt(rsaPrivateKey, encryptBytes)`: the input unchanged when no key is configured,
   * otherwise the OAEP decryption of its base64-decoded bytes. Every failure yields `""`
   * and an error.
   */
  function Decrypt(lib: Library, rsaPrivateKey: string, encryptBytes: string): (r: Returned)
    ensures r.err.Some? ==> r.text == ""
    ensures rsaPrivateKey == "" ==> r == Returned(encryptBytes, None)
    ensures rsaPrivateKey != "" && LoadPrivateKey(lib, rsaPrivateKey).Err? ==>
      r == Returned("", Some(LoadPrivateKey(lib, rsaPrivateKey).error))
    ensures rsaPrivateKey != "" && LoadPrivateKey(lib, rsaPrivateKey).Ok? && lib.base64Decode(encryptBytes).Err? ==>
      r == Returned("", Some(lib.base64Decode(encryptBytes).error))
    ensures rsaPrivateKey != "" && LoadPrivateKey(lib, rsaPrivateKey).Ok? && lib.base64Decode(encryptBytes).Ok? ==>
      var plain := lib.decryptOaep(LoadPrivateKey(lib, rsaPrivateKey).value, lib.base64Decode(encryptBytes).value);
      && (plain.Err? ==> r == Returned("", Some(plain.error)))
      && (plain.Ok? ==> r == Returned(plain.value, None))
  {
    if rsaPrivateKey == "" then Returned(encryptBytes, None)
    else
      match LoadPrivateKey(lib, rsaPrivateKey)
      case Err(e) => Returned("", Some(e))
      case Ok(prv) =>
        match lib.base64Decode(encryptBytes)
        case Err(e) => Returned("", Some(e))
        case Ok(ciphertext) =>
          match lib.decryptOaep(prv, ciphertext)
          case Err(e) => Returned("", Some(e))
          case Ok(plaintext) => Returned(plaintext, None)
  }

  /** With no key configured, decryption undoes encryption: both are the identity. */
  lemma EmptyKeyRoundTrip(lib: Library, x: string)
    ensures Encrypt(lib, "", x) == Returned(x, None)
    ensures Decrypt(lib, "", Encrypt(lib, "", x).text) == Returned(x, None)
  {
  }

  /** A key whose base64 text holds no PEM block fails with the fixed message, in both directions. */
  lemma MissingPemBlockMessages(lib: Library, key: string, x: string)
    requires key != ""
    requires lib.base64Decode(key).Ok? && lib.pemDecode(lib.base64Decode(key).value).None?
    ensures PkixKeyIsRsa(lib, key)
    ensures Encrypt(lib, key, x) == Returned("", Some(Error(MissingPublicPem)))
    ensures Decrypt(lib, key, x) == Returned("", Some(Error(MissingPrivatePem)))
  {
  }

  /**
   * `decrypt` validates the private key before it looks at the ciphertext: a bad key gives
   * the key's error whatever the ciphertext, and a good key with malformed base64 gives the
   * ciphertext's decoding error.
   */
  lemma DecryptChecksKeyFirst(lib: Library, key: string, y1: string, y2: string)
    requires key != ""
    ensures LoadPrivateKey(lib, key).Err? ==>
      && Decrypt(lib, key, y1) == Decrypt(lib, key, y2)
      && Decrypt(lib, key, y1) == Returned("", Some(LoadPrivateKey(lib, key).error))
    ensures LoadPrivateKey(lib, key).Ok? && lib.base64Decode(y1).Err? ==>
      Decrypt(lib, key, y1) == Returned("", Some(lib.base64Decode(y1).error))
  {
  }

  /** Every base64 text the encoder writes decodes back to the same bytes. */
  ghost predicate Base64RoundTrips(lib: Library)
  {
    forall b :: lib.base64Decode(lib.base64Encode(b)) == Ok(b)
  }

  /** Decrypting with `prv` undoes every successful encryption under its public half. */
  ghost predicate OaepInverts(lib: Library, prv: RsaPrivateKey)
  {
    forall m :: lib.encryptOaep(prv.publicKey, m).Ok? ==>
      lib.decryptOaep(prv, lib.encryptOaep(prv.publicKey, m).value) == Ok(m)
  }

  /**
   * The pipelines compose: for keys that load as the two halves of one RSA key pair, and
   * library stages that obey the base64 and OAEP inverse laws (stated as hypotheses, since
   * the stages themselves are not modelled), decrypting what `encrypt` produced gives back
   * the original content.
   */
  lemma RoundTrip(lib: Library, publicKey: string, privateKey: string, prv: RsaPrivateKey, x: string)
    requires publicKey != "" && privateKey != ""
    requires LoadPrivateKey(lib, privateKey) == Ok(prv)
    requires LoadPublicKey(lib, publicKey) == Ok(PkixRsa(prv.publicKey))
    requires Base64RoundTrips(lib) && OaepInverts(lib, prv)
    ensures PkixKeyIsRsa(lib, publicKey)
    ensures Encrypt(lib, publicKey, x).err.None? ==>
      Decrypt(lib, privateKey, Encrypt(lib, publicKey, x).text) == Returned(x, None)
  {
    if Encrypt(lib, publicKey, x).err.None? {
      var ciphertext := lib.encryptOaep(prv.publicKey, x).value;
      assert lib.base64Decode(lib.base64Encode(ciphertext)) == Ok(ciphertext);
    }
  }
}
