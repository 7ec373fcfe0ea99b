# gen-wallet: a Dafny model of the vanity-address search and its result protection

gen-wallet mines "vanity" Ethereum addresses. Worker goroutines generate random key pairs
until one has an EIP-55 address with a configured prefix and suffix. The private key of the
hit can be encrypted with a configured RSA public key. The report then goes to a Discord
webhook, or to standard output.

This project models the sequential logic of that program:

- `Matcher` (matcher.dfy) holds the address test. It is a literal, case-sensitive prefix
  and suffix comparison, written the way Go's `strings.HasPrefix` and `strings.HasSuffix`
  define it.
- `Search` (search.dfy) holds one batch of the search (`genWallet`). The batch is the class
  `Search.Generator`: the package-level attempt counter `count` and everything the process
  emits (`deliveries`) are its fields. `GenWallet` runs the batch as a `while` loop and is
  proved against the specification function `Batch`; the lemmas about `Batch` state the
  properties of the search. The module also holds the protection step
  (`encryptWithRSAPublicKey`), the report text and where it goes, the log-level gate of
  `printLog`, one polling turn of `genWorker`, and `maxParallelism`.
- `Crypto` (crypto.dfy) holds `encrypt` and `decrypt`. Each is a chain of library stages
  that returns early on the first error: base64 decoding (RFC 4648 section 4), PEM
  extraction (RFC 7468), the key parse, and RSAES-OAEP with SHA-256 (RFC 8017 section 7.1).
  The key parse is PKIX SubjectPublicKeyInfo (RFC 5280 section 4.1) for `encrypt` and
  PKCS #1 RSAPrivateKey (RFC 8017 appendix A.1.2) for `decrypt`.
- `Types` (types.dfy) mirrors the `Config` and `Message` records. `Wrappers` (wrappers.dfy)
  holds Go's error conventions. A `Result` is a value or a non-nil error. A `Returned` is a
  `(string, error)` pair.

Modelling choices:

- Go strings and byte slices are both `string`, one character per byte. Converting between
  them copies the bytes, so the model treats the conversion as the identity.
- The library stages are not modelled. Each is an arbitrary function held in a
  `Crypto.Library` value, and every property here holds for every such library.
  `encryptOaep` stands for one fixed draw of the random source.
- Key generation and address derivation are not modelled either. A batch receives
  `draw: nat -> KeyPair`, where `draw(i)` is what attempt `i` obtains. The source ignores
  the generator's error, so every attempt is assumed to yield a key pair.
- `encrypt` type-asserts the parsed PKIX key to `*rsa.PublicKey` without checking, and
  panics on any other key type. `Crypto.PkixKeyIsRsa` makes this a precondition. The same
  precondition is carried by `Search.Batch`, `Search.Generator.GenWallet` and
  `Search.Generator.GenWorkerStep` for the whole batch, although the source reaches the
  assertion (main.go:174) only after an address matched.
- Behaviour of the code worth noting:
  - The code does not reject a concurrency of 0.
  - A key-generation error is ignored, not retried.
  - Matching is always case-sensitive; there is no setting for it.
  - A hit whose protection fails is skipped: the batch moves on to its next attempt.
  - A report is printed only when the log level is at most INFO (1). A protection failure
    is printed only at DEBUG (0).

## Model

| member | source | states |
|---|---|---|
| `Matcher.HasPrefix` | main.go:130 | `strings.HasPrefix`: holds exactly when the address is at least as long as the prefix and agrees with it character by character at the start, with no case folding |
| `Matcher.HasSuffix` | main.go:130 | `strings.HasSuffix`: holds exactly when the address is at least as long as the suffix and agrees with it character by character at the end, with no case folding |
| `Matcher.MatchesCharacterwise` | main.go:130 | the match test holds exactly when both the prefix agrees at the start and the suffix agrees at the end, character by character |
| `Matcher.HasPrefixIsConcatenation` | main.go:130 | the prefix test holds exactly when the address is the prefix followed by some rest (both directions) |
| `Matcher.HasSuffixIsConcatenation` | main.go:130 | the suffix test holds exactly when the address is some front followed by the suffix (both directions) |
| `Matcher.MatchesIsDecomposition` | main.go:130 | an address matches exactly when it starts with the prefix and, independently, ends with the suffix |
| `Matcher.EmptyPatternMatchesAll` | main.go:130 | with an empty prefix and an empty suffix every address matches |
| `Matcher.MatchIsCaseSensitive` | main.go:130 | the comparison is literal: a prefix or suffix differing only in the case of a hex digit does not match |
| `Search.MaxParallelism` | main.go:205-212 | the result is the minimum of `GOMAXPROCS(0)` and the CPU count: no larger than either, and equal to one of them |
| `Search.PrintLog` | main.go:214-218 | the text is printed once when the configured log level is at most the message's level, and nothing is printed otherwise |
| `Search.FailureNotice` | main.go:134 | the diagnostic line for a failed protection is `"encryptWithRSAPublicKey failed: "`, then the error text, then a newline |
| `Search.ReportMessage` | main.go:138 | the report is exactly `"Wallet Address: "` + address + `"\nPrivate Key: "` + protected key: it begins with the labelled address, ends with the labelled key, and has no other characters |
| `Search.ReportMessageLayout` | main.go:138 | the address sits right after the first label, is followed by a newline, and the protected key is everything after the second label |
| `Search.ReportMessageInjective` | main.go:138 | for addresses without a newline, the report determines both the address and the protected key |
| `Search.ReportDeliveries` | main.go:140-144 | with a webhook URL configured the report is one webhook post of `{content: message}`; otherwise the message plus a newline is printed once to standard output when the log level is INFO or below, and nothing is emitted above INFO (main.go:214-218) |
| `Search.EncryptWithRsaPublicKey` | main.go:152-181 | every error comes with an empty string; with no key configured the content passes through unchanged; a key that fails to load (base64, PEM, PKIX) gives that stage's error |
| `Search.EncryptWithRsaPublicKeyIsEncrypt` | main.go:152-181 | the protection step equals `encrypt` of crypto.go applied to the configured public key, on every input, and returns its input unchanged when no key is configured |
| `Search.Batch` | main.go:121-150 | a batch started at attempt `i` makes at least `i` and at most `max(i, CountPerGeneration)` attempts; without a hit it makes all of them, and a hit ends it after at least one attempt of its own |
| `Search.BatchIsFirstSuccess` | main.go:121-150 | a batch reports a hit exactly when some attempt below `CountPerGeneration` has a matching address whose key is protected. The last attempt made is the first such one, and no earlier attempt succeeded. The report carries that attempt's address and protected key. Without a hit the batch makes all `CountPerGeneration` attempts |
| `Search.BatchOutputs` | main.go:132-145 | a batch emits only protection-failure notices, then, on a hit, the report delivery. Nothing goes to the webhook or to the report unless the batch found a hit |
| `Search.BatchAttemptsBounded` | main.go:122 | one batch makes at most `CountPerGeneration` attempts. When that setting is zero or negative it makes none, emits nothing and reports no hit (main.go:149) |
| `Search.BatchReportsOnlyMatches` | main.go:130-145 | a reported hit is real: the address of the batch's last attempt has the prefix and the suffix |
| `Search.EmptyPatternStopsAtFirstAttempt` | main.go:130-145 | with an empty prefix and suffix and no encryption key, the first attempt is the hit, and its report carries the plain private key |
| `Search.Generator.constructor` | main.go:37-38 | a fresh search state: counter zero, nothing emitted, the given configuration |
| `Search.Generator.GenWallet` | main.go:121-150 | returns whether the batch found a hit. The counter rises by exactly the batch's number of attempts, one per attempt whether or not it matched, so it never decreases. What is emitted is exactly the batch's output |
| `Search.Generator.GenWorkerStep` | main.go:107-117 | a worker that observes cancellation stops without making an attempt or changing any state; otherwise it runs one batch and signals completion exactly when the batch found a hit |
| `Crypto.LoadPublicKey` | crypto.go:18-31 | the key stages run in order (base64, PEM, PKIX) and the first that fails decides the error; a missing PEM block gives the fixed public-key message; otherwise the result is the PKIX parse of the block |
| `Crypto.LoadPrivateKey` | crypto.go:50-62 | the key stages run in order (base64, PEM, PKCS #1) and the first that fails decides the error; a missing PEM block gives the fixed private-key message; otherwise the result is the PKCS #1 parse of the block |
| `Crypto.Encrypt` | crypto.go:13-43 | every error comes with an empty string. An empty key returns the content unchanged. A key that fails to load gives the key stage's error; otherwise an OAEP failure gives its own error, and OAEP success gives the base64 encoding of the ciphertext with no error |
| `Crypto.Decrypt` | crypto.go:45-80 | every error comes with an empty string. An empty key returns the input unchanged. A key that fails to load gives the key stage's error; then malformed base64 in the ciphertext gives its decoding error; then an OAEP failure gives its own error, and OAEP success gives the plaintext with no error |
| `Crypto.EmptyKeyRoundTrip` | crypto.go:14-16 | with no key configured, `encrypt` is the identity and `decrypt("", encrypt("", x))` gives back `x` with no error (crypto.go:46-48) |
| `Crypto.MissingPemBlockMessages` | crypto.go:23-26 | a key whose base64 text holds no PEM block fails with the fixed public-key message in `encrypt`, and with the private-key message in `decrypt` (crypto.go:54-57) |
| `Crypto.DecryptChecksKeyFirst` | crypto.go:50-67 | a bad private key gives the key's own error, whatever the ciphertext. With a good key, malformed base64 in the ciphertext gives the ciphertext's decoding error |
| `Crypto.RoundTrip` | crypto.go:13-80 | if the two keys load as the halves of one RSA key pair, base64 decoding inverts encoding, and OAEP decryption inverts encryption, then decrypting a successful `encrypt` output gives back the original content |

## Left out

- Goroutines, the `sync.WaitGroup`, context cancellation, `finishCh`, the interrupt handler
  and the ticker (main.go:54-102). They are concurrency. `genWorker` is modelled as one
  sequential polling turn (`GenWorkerStep`), not as its unbounded loop.
- The progress line (main.go:88-95): it computes throughput and elapsed time in floating point.
- Flag parsing and its defaults (main.go:40-52).
- The HTTP request and JSON encoding of `sendToDiscord` (main.go:183-203). The model stops at
  the `Webhook` delivery value, which carries the URL and the `Message` body.
- The format strings of the DEBUG lines "[worker %d] start/exit" and "main exited". The model
  keeps only the outputs of `genWallet`.
- Key generation, public-key derivation, EIP-55 address text and hex encoding of the private
  key (main.go:123-126, main.go:131). They are library code, and a batch receives their
  results as `draw`.
- The internals of base64, PEM, x509 and RSA-OAEP. `Crypto.Library` keeps them uninterpreted.
  `decrypt(encrypt(x)) == x` for a non-empty key is not promised by the code: `Crypto.RoundTrip`
  proves it only under stated inverse laws for the library stages.
- `Search.Generator.GenWallet`: requires the configured public key, when it parses as PKIX,
  to be an RSA key for every batch. The source only panics on a non-RSA key once an address
  matches, so a batch with such a key and no match is not covered by the model.
- `Search.Generator.GenWallet`: `count` is an unbounded integer, not a 64-bit one. The model
  does not capture wrap-around after 2^63 attempts, and does not capture atomicity, because
  it runs one batch at a time.
- `decrypt` is not wired into the program's `main`. The `RSAPrivateKey` and `EncryptedBytes`
  fields of `Config` are never read by the search, so no decrypt mode of the process is modelled.
