/** The records of types.go. */
module Types {

  /**
   * The process-wide configuration, filled from the command line once at start-up.
   * `rsaPrivateKey` and `encryptedBytes` exist in the record but the search never reads them.
   */
  datatype Config = Config(
    prefix: string,
    suffix: string,
    concurrent: int,
    logLevel: int,
    countPerGeneration: int,
    discordWebhook: string,
    rsaPublicKey: string,
    rsaPrivateKey: string,
    encryptedBytes: string)

  /** The JSON body posted to the Discord webhook: `{"content": ...}`. */
  datatype Message = Message(content: string)
}
