/**
 * The sequential part of main.go: one batch of the vanity-address search (`genWallet`),
 * the protection step it applies to a hit (`encryptWithRSAPublicKey`), the report it
 * emits, one polling step of a worker (`genWorker`) and the default parallelism.
 *
 * Key generation and address derivation are not modelled: a batch receives `draw`, where
 * `draw(i)` is the key pair and address that attempt `i` of the batch obtains. Standard
 * output and the webhook are modelled as the list of `Delivery` values the process emits.
 */
module Search {
  import opened Wrappers
  import opened Types
  import opened Matcher
  import Crypto

  /** The two log levels of `printLog`. */
  const DEBUG := 0
  const INFO := 1

  const AddressLabel := "Wallet Address: "
  const KeyLabel := "\nPrivate Key: "
  const FailureLabel := "encryptWithRSAPublicKey failed: "

  /** One attempt's candidate: the hex text of the private key and the EIP-55 address. */
  datatype KeyPair = KeyPair(privateKeyHex: string, address: string)

  /** Something the process emits: text on standard output, or a POST to a webhook URL. */
  datatype Delivery = Console(text: string) | Webhook(url: string, body: Message)

  function Max(a: int, b: int): int
  {
    if a < b then b else a
  }

  /** `maxParallelism`: the smaller of the scheduler's thread limit and the CPU count. */
  function MaxParallelism(maxProcs: int, numCpu: int): (r: int)
    ensures r <= maxProcs && r <= numCpu
    ensures r == maxProcs || r == numCpu
  {
    if maxProcs < numCpu then maxProcs else numCpu
  }

  /** `printLog(level, ...)`: the text reaches standard output only when the configured level admits it. */
  function PrintLog(cfg: Config, level: int, text: string): (out: seq<Delivery>)
    ensures cfg.logLevel <= level ==> out == [Console(text)]
    ensures level < cfg.logLevel ==> out == []
  {
    if cfg.logLevel <= level then [Console(text)] else []
  }

  /** The report text for a hit: the address, a newline, and the protected key. */
  function ReportMessage(address: string, content: string): (m: string)
    ensures |m| == |AddressLabel| + |address| + |KeyLabel| + |content|
    ensures HasPrefix(m, AddressLabel + address)
    ensures HasSuffix(m, KeyLabel + content)
  {
    AddressLabel + address + KeyLabel + content
  }

  lemma ReportMessageLayout(address: string, content: string)
    ensures ReportMessage(address, content)[|AddressLabel|..|AddressLabel| + |address|] == address
    ensures ReportMessage(address, content)[|AddressLabel| + |address|] == '\n'
    ensures ReportMessage(address, content)[|AddressLabel| + |address| + |KeyLabel|..] == content
  {
    var m := ReportMessage(address, content);
    assert m == (AddressLabel + address) + (KeyLabel + content);
    assert m[|AddressLabel| + |address|] == KeyLabel[0];
  }

  /**
   * The report can be read back: for addresses without a newline (hexadecimal addresses
   * have none) the message determines both the address and the protected key.
   */
  lemma ReportMessageInjective(a1: string, c1: string, a2: string, c2: string)
    requires '\n' !in a1 && '\n' !in a2
    requires ReportMessage(a1, c1) == ReportMessage(a2, c2)
    ensures a1 == a2 && c1 == c2
  {
    ReportMessageLayout(a1, c1);
    ReportMessageLayout(a2, c2);
    assert |a1| == |a2| by {
      if |a1| < |a2| {
        assert false;
      } else if |a2| < |a1| {
        assert false;
      }
    }
  }

  /** Where the report goes: to the webhook when one is configured, to standard output otherwise. */
  function ReportDeliveries(cfg: Config, message: string): (out: seq<Delivery>)
    ensures cfg.discordWebhook != "" ==> out == [Webhook(cfg.discordWebhook, Message(message))]
    ensures cfg.discordWebhook == "" && cfg.logLevel <= INFO ==> out == [Console(message + "\n")]
    ensures cfg.discordWebhook == "" && INFO < cfg.logLevel ==> out == []
  {
    if cfg.discordWebhook != "" then [Webhook(cfg.discordWebhook, Message(message))]
    else PrintLog(cfg, INFO, message + "\n")
  }

  /** The diagnostic line written when protection of a hit fails. */
  function FailureNotice(e: Error): (line: string)
    ensures HasPrefix(line, FailureLabel)
    ensures HasSuffix(line, e.text + "\n")
    ensures |line| == |FailureLabel| + |e.text| + 1
  {
    FailureLabel + e.text + "\n"
  }

  predicate IsFailureNotice(d: Delivery)
  {
    d.Console? && HasPrefix(d.text, FailureLabel)
  }

  /**
   * `encryptWithRSAPublicKey(content)`: main.go's own copy of the encryption chain, keyed
   * by the configured public key.
   */
  function EncryptWithRsaPublicKey(cfg: Config, lib: Crypto.Library, content: string): (r: Returned)
    requires Crypto.PkixKeyIsRsa(lib, cfg.rsaPublicKey)
    ensures r.err.Some? ==> r.text == ""
    ensures cfg.rsaPublicKey == "" ==> r == Returned(content, None)
    ensures cfg.rsaPublicKey != "" && Crypto.LoadPublicKey(lib, cfg.rsaPublicKey).Err? ==>
      r == Returned("", Some(Crypto.LoadPublicKey(lib, cfg.rsaPublicKey).error))
  {
    if cfg.rsaPublicKey == "" then Returned(content, None)
    else
      match lib.base64Decode(cfg.rsaPublicKey)
      case Err(e) => Returned("", Some(e))
      case Ok(pem) =>
        match lib.pemDecode(pem)
        case None => Returned("", Some(Error(Crypto.MissingPublicPem)))
        case Some(block) =>
          match lib.parsePkix(block.bytes)
          case Err(e) => Returned("", Some(e))
          case Ok(pub) =>
            match lib.encryptOaep(pub.rsa, content)
            case Err(e) => Returned("", Some(e))
            case Ok(ciphertext) => Returned(lib.base64Encode(ciphertext), None)
  }

  /** The protection step is `encrypt` of crypto.go applied to the configured key. */
  lemma EncryptWithRsaPublicKeyIsEncrypt(cfg: Config, lib: Crypto.Library, content: string)
    requires Crypto.PkixKeyIsRsa(lib, cfg.rsaPublicKey)
    ensures EncryptWithRsaPublicKey(cfg, lib, content) == Crypto.Encrypt(lib, cfg.rsaPublicKey, content)
    ensures cfg.rsaPublicKey == "" ==> EncryptWithRsaPublicKey(cfg, lib, content) == Returned(content, None)
  {
  }

  /** An attempt ends the batch: its address matches and protecting its key succeeds. */
  predicate Succeeds(cfg: Config, lib: Crypto.Library, kp: KeyPair)
    requires Crypto.PkixKeyIsRsa(lib, cfg.rsaPublicKey)
  {
    Matches(kp.address, cfg.prefix, cfg.suffix) && EncryptWithRsaPublicKey(cfg, lib, kp.privateKeyHex).err.None?
  }

  /**
   * The outcome of a batch: how many attempts it made, the report it sent if it found a
   * hit, and everything it emitted, in order.
   */
  datatype BatchResult = BatchResult(attempts: nat, report: Option<string>, output: seq<Delivery>)

  /** The batch `genWallet` runs, from attempt `i` on. */
  function Batch(cfg: Config, lib: Crypto.Library, draw: nat -> KeyPair, i: nat): (r: BatchResult)
    requires Crypto.PkixKeyIsRsa(lib, cfg.rsaPublicKey)
    ensures i <= r.attempts <= Max(i, cfg.countPerGeneration)
    ensures r.report.None? ==> r.attempts == Max(i, cfg.countPerGeneration)
    ensures r.report.Some? ==> i < r.attempts
    decreases cfg.countPerGeneration - i
  {
    if cfg.countPerGeneration <= i then BatchResult(i, None, [])
    else
      var kp := draw(i);
      if !Matches(kp.address, cfg.prefix, cfg.suffix) then Batch(cfg, lib, draw, i + 1)
      else
        var protected := EncryptWithRsaPublicKey(cfg, lib, kp.privateKeyHex);
        if protected.err.Some? then
          var rest := Batch(cfg, lib, draw, i + 1);
          rest.(output := PrintLog(cfg, DEBUG, FailureNotice(protected.err.value)) + rest.output)
        else
          var message := ReportMessage(kp.address, protected.text);
          BatchResult(i + 1, Some(message), ReportDeliveries(cfg, message))
  }

  /**
   * A batch stops at its first successful attempt and at no other: it reports a hit
   * exactly when some attempt below `countPerGeneration` succeeds, the last attempt it
   * makes is the first such one and its report carries that attempt's address and
   * protected key; without a hit it makes every attempt up to `countPerGeneration`.
   */
  lemma {:induction false} BatchIsFirstSuccess(cfg: Config, lib: Crypto.Library, draw: nat -> KeyPair, i: nat)
    requires Crypto.PkixKeyIsRsa(lib, cfg.rsaPublicKey)
    ensures var r := Batch(cfg, lib, draw, i);
      && (r.report.Some? <==> exists j :: i <= j < cfg.countPerGeneration && Succeeds(cfg, lib, draw(j)))
      && (r.report.Some? ==>
            && i < r.attempts <= cfg.countPerGeneration
            && Succeeds(cfg, lib, draw(r.attempts - 1))
            && (forall j :: i <= j < r.attempts - 1 ==> !Succeeds(cfg, lib, draw(j)))
            && r.report.value == ReportMessage(draw(r.attempts - 1).address,
                                               EncryptWithRsaPublicKey(cfg, lib, draw(r.attempts - 1).privateKeyHex).text))
      && (r.report.None? ==> r.attempts == Max(i, cfg.countPerGeneration))
    decreases cfg.countPerGeneration - i
  {
    var r := Batch(cfg, lib, draw, i);
    if cfg.countPerGeneration <= i {
      assert r == BatchResult(i, None, []);
    } else {
      BatchStep(cfg, lib, draw, i);
      if Succeeds(cfg, lib, draw(i)) {
        assert r.attempts - 1 == i;
      } else {
        BatchIsFirstSuccess(cfg, lib, draw, i + 1);
        var r' := Batch(cfg, lib, draw, i + 1);
        assert r.report == r'.report && r.attempts == r'.attempts;
        if r.report.None? {
          forall j | i <= j < cfg.countPerGeneration
            ensures !Succeeds(cfg, lib, draw(j))
          {
            if j != i { assert i + 1 <= j; }
          }
        }
      }
    }
  }

  /** One attempt of a batch: a success ends it with that attempt's report, anything else moves on. */
  lemma BatchStep(cfg: Config, lib: Crypto.Library, draw: nat -> KeyPair, i: nat)
    requires Crypto.PkixKeyIsRsa(lib, cfg.rsaPublicKey)
    requires i < cfg.countPerGeneration
    ensures Succeeds(cfg, lib, draw(i)) ==>
      Batch(cfg, lib, draw, i).attempts == i + 1 &&
      Batch(cfg, lib, draw, i).report ==
        Some(ReportMessage(draw(i).address, EncryptWithRsaPublicKey(cfg, lib, draw(i).privateKeyHex).text))
    ensures !Succeeds(cfg, lib, draw(i)) ==>
      Batch(cfg, lib, draw, i).attempts == Batch(cfg, lib, draw, i + 1).attempts &&
      Batch(cfg, lib, draw, i).report == Batch(cfg, lib, draw, i + 1).report
  {
  }

  /**
   * Nothing reaches the webhook or the report channel unless the batch finds a hit: its
   * output is a run of protection-failure notices followed, on a hit, by the report.
   */
  lemma {:induction false} BatchOutputs(cfg: Config, lib: Crypto.Library, draw: nat -> KeyPair, i: nat)
    requires Crypto.PkixKeyIsRsa(lib, cfg.rsaPublicKey)
    ensures var r := Batch(cfg, lib, draw, i);
      var tail := if r.report.Some? then ReportDeliveries(cfg, r.report.value) else [];
      && |tail| <= |r.output|
      && r.output[|r.output| - |tail|..] == tail
      && forall k :: 0 <= k < |r.output| - |tail| ==> IsFailureNotice(r.output[k])
    decreases cfg.countPerGeneration - i
  {
    if i < cfg.countPerGeneration && Matches(draw(i).address, cfg.prefix, cfg.suffix) {
      var protected := EncryptWithRsaPublicKey(cfg, lib, draw(i).privateKeyHex);
      if protected.err.Some? {
        BatchOutputs(cfg, lib, draw, i + 1);
        var notice := FailureNotice(protected.err.value);
        assert notice == FailureLabel + (protected.err.value.text + "\n");
        assert IsFailureNotice(Console(notice));
      }
    } else if i < cfg.countPerGeneration {
      BatchOutputs(cfg, lib, draw, i + 1);
    }
  }

  /**
   * One call makes at most `countPerGeneration` attempts, and none (and no hit) when that
   * setting is zero or negative.
   */
  lemma BatchAttemptsBounded(cfg: Config, lib: Crypto.Library, draw: nat -> KeyPair)
    requires Crypto.PkixKeyIsRsa(lib, cfg.rsaPublicKey)
    ensures Batch(cfg, lib, draw, 0).attempts <= Max(0, cfg.countPerGeneration)
    ensures cfg.countPerGeneration <= 0 ==> Batch(cfg, lib, draw, 0) == BatchResult(0, None, [])
  {
    BatchIsFirstSuccess(cfg, lib, draw, 0);
  }

  /** A reported hit is a real one: the address of the last attempt satisfies the prefix and the suffix. */
  lemma BatchReportsOnlyMatches(cfg: Config, lib: Crypto.Library, draw: nat -> KeyPair)
    requires Crypto.PkixKeyIsRsa(lib, cfg.rsaPublicKey)
    ensures var r := Batch(cfg, lib, draw, 0);
      r.report.Some? ==> 1 <= r.attempts && Matches(draw(r.attempts - 1).address, cfg.prefix, cfg.suffix)
  {
    BatchIsFirstSuccess(cfg, lib, draw, 0);
  }

  /**
   * With an empty prefix and suffix and no encryption key, the first attempt is a hit and
   * its report carries the plain private key.
   */
  lemma EmptyPatternStopsAtFirstAttempt(cfg: Config, lib: Crypto.Library, draw: nat -> KeyPair)
    requires cfg.prefix == "" && cfg.suffix == "" && cfg.rsaPublicKey == ""
    requires 1 <= cfg.countPerGeneration
    ensures Batch(cfg, lib, draw, 0).attempts == 1
    ensures Batch(cfg, lib, draw, 0).report == Some(ReportMessage(draw(0).address, draw(0).privateKeyHex))
  {
    EmptyPatternMatchesAll(draw(0).address);
  }

  /**
   * The search state of the process: the package-level attempt counter and what has been
   * emitted so far, for a fixed configuration and library.
   */
  class Generator {
    var count: int
    var deliveries: seq<Delivery>
    const config: Config
    const lib: Crypto.Library

    constructor (config: Config, lib: Crypto.Library)
      ensures this.config == config && this.lib == lib
      ensures count == 0 && deliveries == []
    {
      this.config := config;
      this.lib := lib;
      count := 0;
      deliveries := [];
    }

    /**
     * `genWallet`: up to `countPerGeneration` attempts, each counted once, stopping at the
     * first hit whose key is protected; returns whether it found one.
     */
    method GenWallet(draw: nat -> KeyPair) returns (found: bool)
      requires Crypto.PkixKeyIsRsa(lib, config.rsaPublicKey)
      modifies this
      ensures var r := Batch(config, lib, draw, 0);
        && found == r.report.Some?
        && count == old(count) + r.attempts
        && deliveries == old(deliveries) + r.output
      ensures old(count) <= count
    {
      ghost var whole := Batch(config, lib, draw, 0);
      var i: nat := 0;
      while i < config.countPerGeneration
        invariant count == old(count) + i
        invariant Batch(config, lib, draw, i).attempts == whole.attempts
        invariant Batch(config, lib, draw, i).report == whole.report
        invariant deliveries + Batch(config, lib, draw, i).output == old(deliveries) + whole.output
        decreases config.countPerGeneration - i
      {
        var kp := draw(i);
        count := count + 1;
        if Matches(kp.address, config.prefix, config.suffix) {
          var protected := EncryptWithRsaPublicKey(config, lib, kp.privateKeyHex);
          if protected.err.Some? {
            deliveries := deliveries + PrintLog(config, DEBUG, FailureNotice(protected.err.value));
            i := i + 1;
            continue;
          }
          var message := ReportMessage(kp.address, protected.text);
          deliveries := deliveries + ReportDeliveries(config, message);
          return true;
        }
        i := i + 1;
      }
      return false;
    }

    /**
     * One turn of `genWorker`'s polling loop: stop if cancellation was observed, otherwise
     * run one batch and signal completion when it found a hit.
     */
    method GenWorkerStep(cancelled: bool, draw: nat -> KeyPair) returns (exited: bool, finished: bool)
      requires Crypto.PkixKeyIsRsa(lib, config.rsaPublicKey)
      modifies this
      ensures exited == cancelled
      ensures cancelled ==> !finished && count == old(count) && deliveries == old(deliveries)
      ensures !cancelled ==>
        var r := Batch(config, lib, draw, 0);
        && finished == r.report.Some?
        && count == old(count) + r.attempts
        && deliveries == old(deliveries) + r.output
    {
      if cancelled {
        return true, false;
      }
      finished := GenWallet(draw);
      exited := false;
    }
  }
}
