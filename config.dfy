/** The configuration records of internal/config/config.go that the broker
    client builder reads. Loading them from YAML and the environment is not
    part of this model; they are plain values here. */
module Config {

  /** Transport security settings. An empty path means "not set". */
  datatype TLSConfig = TLSConfig(
    Enabled: bool,
    CAPath: string,
    CertPath: string,
    KeyPath: string)

  /** Credentials and the SCRAM strength selector (0 means plain SASL). */
  datatype KafkaAuth = KafkaAuth(
    Username: string,
    Password: string,
    Scram: int,
    TLS: TLSConfig)

  /** Seed brokers, authentication and the default produce topic. */
  datatype KafkaConfig = KafkaConfig(
    Brokers: seq<string>,
    Auth: KafkaAuth,
    Topic: string)
}
