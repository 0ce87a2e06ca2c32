# tibor-rest broker client option builder, in Dafny

tibor-rest is a small HTTP-to-Kafka gateway. Its one piece of decision logic
is `GetDefaultConfig` in `internal/kafka/client.go`: it turns a `KafkaConfig`
into the ordered franz-go (kgo) client options: seed brokers, a logger
adapter, the default produce topic, one dialer (plain, or TLS with an
optional CA pool and client key pair) and one SASL mechanism (plain,
SCRAM-SHA-256 or SCRAM-SHA-512). It panics on bad configurations. The same
file holds the logger adapter that maps the host's `slog` levels to kgo's
log levels (`Logger.Level`) and back (`kgoToSlogLevel`).

Files:

- `wrappers.dfy`: `Option` and `Result`.
- `config.dfy`: the records `KafkaConfig`, `KafkaAuth` and `TLSConfig` of
  `internal/config/config.go`.
- `platform.dfy`: the file system and the PEM / X.509 parsers, as a `Host`
  value given to the builder. It also holds `os.ReadFile`,
  `CertPool.AppendCertsFromPEM` and `tls.LoadX509KeyPair` over that value.
- `kafka.dfy`: the option and failure datatypes and the log levels. It holds
  the builder twice. `GetDefaultConfig` is a method that grows the option
  list and the TLS config step by step, as the source does. It is proved
  equal to `DefaultConfig`, a specification assembled from three
  components: `TlsConfigFor` (the TLS config, with every field decided at
  once), `TransportFor` (the dialer) and `MechanismFor` (the SASL
  mechanism).
- `kafka_properties.dfy`: lemmas that relate several calls.

A panic is a `Failure` value, and a failed build carries no options. TLS
errors are raised before SCRAM errors, in source order. The source reads the
default topic from the global `config.Conf.Kafka.Topic` rather than from its
argument, so the model takes it as a separate input (`globalTopic`).
`TopicFieldIgnored` shows that the `Topic` field of the argument plays no
part. The logger `slog.Default()` is an input too (`defaultLogger`).
Constants follow the libraries: kgo levels None..Debug are 0..4 (int8); slog
Debug/Info/Warn/Error are -4/0/4/8; `tls.VersionTLS12` is 0x0303; the dial
timeout is 10 s in nanoseconds.

## Model

| member | source | states |
|---|---|---|
| `Kafka.GetDefaultConfig` | internal/kafka/client.go:29-98 | The step-by-step build (three initial options, TLS config created then mutated, dialer appended, SASL appended) equals the specification `DefaultConfig`. A SCRAM selector other than 0/256/512 always fails. A success has five options, with a dialer fourth and a SASL option fifth. |
| `Kafka.DefaultConfig` | internal/kafka/client.go:29-98 | Succeeds iff both the dialer and the mechanism can be built. A TLS failure is reported ahead of a SCRAM failure. A success is exactly [seed brokers, logger over the given slog logger, global default topic, the dialer, the mechanism]. |
| `Kafka.TlsConfigFor` | internal/kafka/client.go:39-67 | Each failure case is listed: unreadable CA, CA yielding no certificate, exactly one of cert/key set, key pair not loadable. It succeeds iff the CA is usable and the key pair is usable. The result is None iff no CA, cert or key is set. Any config created has MinVersion TLS 1.2. RootCAs is the CA pool when a CA is set and absent otherwise. The certificates are exactly the loaded key pair when set, and none when both paths are empty. |
| `Kafka.TransportFor` | internal/kafka/client.go:38-76 | TLS off gives a plain dialer with a 10 s timeout. TLS on succeeds iff `TlsConfigFor` does, and then gives a TLS dialer over that config with the same timeout. Failures are passed through. |
| `Kafka.MechanismFor` | internal/kafka/client.go:78-95 | Fails iff the selector is not 0, 256 or 512, and then the error is `InvalidScram(selector)`. Otherwise the mechanism is plain iff 0, SCRAM-SHA-256 iff 256 and SCRAM-SHA-512 iff 512. It always carries the configured username and password. |
| `Kafka.Level` | internal/kafka/client.go:112-126 | The result is between None and Debug. A result other than None has its slog counterpart enabled. No more verbose kgo level has its counterpart enabled, so the result is the most verbose enabled level. |
| `Kafka.KgoToSlogLevel` | internal/kafka/client.go:133-147 | Error, Warn, Info and Debug map to the slog level of the same name (8, 4, 0, -4). Every other value maps to Info. The result is always one of slog's four named levels. |
| `KafkaProperties.KgoToSlogLevelReversesOrder` | internal/kafka/client.go:133-147 | A more verbose kgo level maps to a strictly more verbose slog level, so the four levels map to four distinct slog levels. |
| `KafkaProperties.LevelNoneIffNothingEnabled` | internal/kafka/client.go:112-126 | `Level` is None exactly when none of the four levels is enabled. |
| `KafkaProperties.LevelSuppressesNothing` | internal/kafka/client.go:112-147 | For a severity-filtering host logger, every kgo level at or below the reported level maps to an enabled slog level. |
| `KafkaProperties.LevelOfThresholdRoundTrip` | internal/kafka/client.go:112-147 | Take a host logger whose minimum level is one of slog's named levels. `kgoToSlogLevel(Level(..))` gives that minimum level back. |
| `KafkaProperties.LevelMonotone` | internal/kafka/client.go:112-126 | Lowering the host's minimum level never makes the reported level less verbose. |
| `KafkaProperties.OneOptionOfEachKind` | internal/kafka/client.go:30-95 | A successful build holds exactly one option of each kind. In particular it has exactly one dialer and exactly one SASL mechanism. |
| `KafkaProperties.BuildSucceedsIff` | internal/kafka/client.go:38-95 | The build succeeds iff TLS is off or its CA and key pair are usable, and the SCRAM selector is 0, 256 or 512. |
| `KafkaProperties.PlainDialerIgnoresTlsMaterial` | internal/kafka/client.go:38-76 | With TLS off, the result is the same whatever the CA/cert/key paths are, even when only one of cert/key is set. It is also the same whatever files and parsers the host has. The dialer is plain with a 10 s timeout. |
| `KafkaProperties.TopicFieldIgnored` | internal/kafka/client.go:33 | The `Topic` field of the argument does not affect the result. The default topic option is the global topic. |
| `KafkaProperties.TlsDialerConfig` | internal/kafka/client.go:48-72 | With TLS on, a successful dialer is a TLS dialer. Any config it carries has MinVersion TLS 1.2. The config is nil (library default) iff no CA, cert or key path is set. |

## Left out

- `kafka.New` (internal/kafka/client.go:20-27) wraps `kgo.NewClient`, a foreign call that opens connections. Its error joining is not modelled.
- `Logger.Log` (internal/kafka/client.go:129-131) only forwards to `slog`.
- The contents of a log call are not modelled. Only the level mapping is.
- File reading, PEM decoding and X.509 key-pair parsing are inputs of the model (`Platform.Host`). Their real behaviour is not modelled.
- Platform.ReadFile: a lookup in the `Host` file map standing for `os.ReadFile`; it promises nothing beyond that lookup.
- Platform.NewCertPool: stands for `x509.NewCertPool` (an empty pool); a library helper, not a modelled member.
- Platform.AppendCertsFromPEM: stands for `CertPool.AppendCertsFromPEM` over the `Host` PEM decoder; a library helper, not a modelled member. Go's pool also drops a certificate repeated within the one CA file; the model's pool keeps the repeat; the set of trusted roots is the same.
- Platform.LoadX509KeyPair: stands for `tls.LoadX509KeyPair` (read both files, parse them as a pair) over the `Host` files and key-pair parser; a library helper, not a modelled member.
- Kafka.Threshold: stands for an slog handler with a minimum level (enabled iff the level is at least that minimum); a library helper that the level lemmas use as the shape of a host logger, not a modelled member.
- Dialer internals and SASL handshakes are not modelled. So are the fields of `scram.Auth` and `plain.Auth` other than user and password.
- The `tls.Config` pointer is a value here. It is created and then updated in place, and nothing else sees it before the dialer takes it, so aliasing plays no part.
- The panic message texts are not modelled. Each panic is a `Failure` constructor carrying the paths or the selector it reports.
- `main.go` is not part of this model. It covers process start-up, signal handling, the HTTP server and its shutdown timeout.
- `InitConfig` in internal/config/config.go reads YAML and environment variables. It is not part of this model; only the record shapes are used.
- The HTTP produce handler in internal/handlers/produce.go makes a network call and writes HTTP status codes. It is not part of this model.
- Building the same configuration twice gives the same options. This is immediate in a model where the builder is a function of its inputs.
