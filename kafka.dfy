/** The broker client option builder of internal/kafka/client.go:
    `GetDefaultConfig`, which turns a `KafkaConfig` into the ordered list of
    franz-go (kgo) client options, and the logger adapter that maps the
    host's slog levels onto kgo's log levels and back.

    A Go panic in the builder is a `Failure` value here. The default produce
    topic is read by the source from the global `config.Conf.Kafka.Topic`,
    not from the argument, so the model takes it as a separate input. */
module Kafka {
  import opened Wrappers
  import opened Config
  import opened Platform

  // ---------------------------------------------------------------------
  // Log levels and the logger adapter
  // ---------------------------------------------------------------------

  newtype int8 = x: int | -128 <= x < 128

  /** kgo.LogLevel (an int8): None, Error, Warn, Info, Debug are 0..4. */
  type LogLevel = int8
  const LogLevelNone: LogLevel := 0
  const LogLevelError: LogLevel := 1
  const LogLevelWarn: LogLevel := 2
  const LogLevelInfo: LogLevel := 3
  const LogLevelDebug: LogLevel := 4

  /** slog.Level (an int): lower is more verbose. */
  type SlogLevel = int
  const SlogLevelDebug: SlogLevel := -4
  const SlogLevelInfo: SlogLevel := 0
  const SlogLevelWarn: SlogLevel := 4
  const SlogLevelError: SlogLevel := 8

  /** The host's slog.Logger, seen through its `Enabled` check (the
      context argument is always context.Background() and is dropped). */
  datatype SlogLogger = SlogLogger(enabled: SlogLevel -> bool)

  /** The kgo.Logger adapter wrapping an slog logger. */
  datatype Logger = Logger(sl: SlogLogger)

  /** An slog handler configured with a minimum level, the usual way slog
      decides `Enabled`. */
  function Threshold(min: SlogLevel): (sl: SlogLogger)
    ensures forall x :: sl.enabled(x) <==> x >= min
  {
    SlogLogger(x => x >= min)
  }

  /** An slog logger that lets through everything at least as severe as a
      level it lets through. */
  ghost predicate Monotone(sl: SlogLogger)
  {
    forall a, b :: a <= b && sl.enabled(a) ==> sl.enabled(b)
  }

  /** kgoToSlogLevel: each of kgo's four real levels to the slog level of
      the same name; every other value (None included) to slog's Info. */
  function KgoToSlogLevel(level: LogLevel): (r: SlogLevel)
    ensures r in {SlogLevelDebug, SlogLevelInfo, SlogLevelWarn, SlogLevelError}
    ensures level == LogLevelError ==> r == SlogLevelError
    ensures level == LogLevelWarn ==> r == SlogLevelWarn
    ensures level == LogLevelInfo ==> r == SlogLevelInfo
    ensures level == LogLevelDebug ==> r == SlogLevelDebug
    ensures !(LogLevelError <= level <= LogLevelDebug) ==> r == SlogLevelInfo
  {
    match level
    case 1 => SlogLevelError
    case 2 => SlogLevelWarn
    case 3 => SlogLevelInfo
    case 4 => SlogLevelDebug
    case _ => SlogLevelInfo
  }

  /** Logger.Level: the most verbose kgo level whose slog counterpart the
      host logger has enabled, tried in the order Debug, Info, Warn, Error;
      None when none of the four is enabled. */
  function Level(l: Logger): (r: LogLevel)
    ensures LogLevelNone <= r <= LogLevelDebug
    ensures r != LogLevelNone ==> l.sl.enabled(KgoToSlogLevel(r))
    ensures forall k: LogLevel :: r < k <= LogLevelDebug ==> !l.sl.enabled(KgoToSlogLevel(k))
  {
    if l.sl.enabled(SlogLevelDebug) then LogLevelDebug
    else if l.sl.enabled(SlogLevelInfo) then LogLevelInfo
    else if l.sl.enabled(SlogLevelWarn) then LogLevelWarn
    else if l.sl.enabled(SlogLevelError) then LogLevelError
    else LogLevelNone
  }

  // ---------------------------------------------------------------------
  // Client options
  // ---------------------------------------------------------------------

  /** One second as a time.Duration (nanoseconds). */
  const Second: int := 1_000_000_000
  /** The connection timeout of both dialers. */
  const DialTimeout: int := 10 * Second
  /** tls.VersionTLS12. */
  const VersionTLS12: int := 0x0303

  /** The fields of tls.Config that the builder sets. */
  datatype TlsConfig = TlsConfig(
    rootCAs: Option<CertPool>,
    minVersion: int,
    certificates: seq<KeyPair>)

  /** The dial function handed to kgo.Dialer: a plain net.Dialer, or a
      tls.Dialer whose Config may be nil (None: the library default). */
  datatype Dial =
    | PlainDialer(timeout: int)
    | TlsDialer(timeout: int, config: Option<TlsConfig>)

  /** The SASL mechanism handed to kgo.SASL. */
  datatype Mechanism =
    | PlainAuth(user: string, pass: string)
    | ScramSha256(user: string, pass: string)
    | ScramSha512(user: string, pass: string)

  /** The kgo.Opt values the builder produces. */
  datatype Opt =
    | SeedBrokers(brokers: seq<string>)
    | WithLogger(logger: Logger)
    | DefaultProduceTopic(topic: string)
    | Dialer(dial: Dial)
    | Sasl(mechanism: Mechanism)

  /** The panics of the builder. */
  datatype Failure =
    | CAUnreadable(caPath: string)
    | CAAppendFailed(caPath: string)
    | CertKeyPathMismatch
    | KeyPairUnloadable(certPath: string, keyPath: string)
    | InvalidScram(alg: int)

  // ---------------------------------------------------------------------
  // The builder, component by component
  // ---------------------------------------------------------------------

  /** The CA file is not set, or it is readable and yields a certificate. */
  predicate CAUsable(t: TLSConfig, host: Host)
  {
    t.CAPath == "" || (t.CAPath in host.files && |host.pemCerts(host.files[t.CAPath])| > 0)
  }

  /** Neither client certificate path is set, or both are and load as a pair. */
  predicate KeyPairUsable(t: TLSConfig, host: Host)
  {
    (t.CertPath == "" && t.KeyPath == "")
    || (t.CertPath != "" && t.KeyPath != "" && LoadX509KeyPair(host, t.CertPath, t.KeyPath).Some?)
  }

  /** The tls.Config an enabled TLS section yields, all fields decided at
      once: None when neither a CA nor a client certificate is configured,
      otherwise the CA pool (if any), minimum version TLS 1.2 and the client
      key pair (if any). */
  function TlsConfigFor(t: TLSConfig, host: Host): (r: Result<Option<TlsConfig>, Failure>)
    // error cases, in the order the source checks them
    ensures t.CAPath != "" && t.CAPath !in host.files ==> r == Failure(CAUnreadable(t.CAPath))
    ensures t.CAPath != "" && t.CAPath in host.files && |host.pemCerts(host.files[t.CAPath])| == 0
            ==> r == Failure(CAAppendFailed(t.CAPath))
    ensures CAUsable(t, host) && (t.CertPath == "") != (t.KeyPath == "") ==> r == Failure(CertKeyPathMismatch)
    ensures CAUsable(t, host) && t.CertPath != "" && t.KeyPath != ""
            && LoadX509KeyPair(host, t.CertPath, t.KeyPath).None?
            ==> r == Failure(KeyPairUnloadable(t.CertPath, t.KeyPath))
    ensures r.Success? <==> CAUsable(t, host) && KeyPairUsable(t, host)
    // what a successful result holds
    ensures r.Success? ==> (r.value.None? <==> t.CAPath == "" && t.CertPath == "" && t.KeyPath == "")
    ensures r.Success? && r.value.Some? ==> r.value.value.minVersion == VersionTLS12
    ensures r.Success? && r.value.Some? ==>
              r.value.value.rootCAs == (if t.CAPath == "" then None
                                        else Some(CertPool(host.pemCerts(host.files[t.CAPath]))))
    ensures r.Success? && r.value.Some? ==>
              r.value.value.certificates == (if t.CertPath == "" then []
                                             else [LoadX509KeyPair(host, t.CertPath, t.KeyPath).value])
  {
    var ca: Result<Option<CertPool>, Failure> :=
      if t.CAPath == "" then Success(None)
      else if t.CAPath !in host.files then Failure(CAUnreadable(t.CAPath))
      else if |host.pemCerts(host.files[t.CAPath])| == 0 then Failure(CAAppendFailed(t.CAPath))
      else Success(Some(CertPool(host.pemCerts(host.files[t.CAPath]))));
    if ca.Failure? then Failure(ca.error)
    else if t.CertPath == "" && t.KeyPath == "" then
      Success(if ca.value.None? then None else Some(TlsConfig(ca.value, VersionTLS12, [])))
    else if t.CertPath == "" || t.KeyPath == "" then Failure(CertKeyPathMismatch)
    else match LoadX509KeyPair(host, t.CertPath, t.KeyPath)
      case None => Failure(KeyPairUnloadable(t.CertPath, t.KeyPath))
      case Some(kp) => Success(Some(TlsConfig(ca.value, VersionTLS12, [kp])))
  }

  /** The dialer option: plain with a 10s timeout when TLS is off, otherwise
      a TLS dialer with the same timeout over `TlsConfigFor`. */
  function TransportFor(t: TLSConfig, host: Host): (r: Result<Dial, Failure>)
    ensures !t.Enabled ==> r == Success(PlainDialer(DialTimeout))
    ensures t.Enabled ==> (r.Success? <==> TlsConfigFor(t, host).Success?)
    ensures t.Enabled && r.Success? ==> r.value == TlsDialer(DialTimeout, TlsConfigFor(t, host).value)
    ensures t.Enabled && r.Failure? ==> r.error == TlsConfigFor(t, host).error
    ensures r.Success? ==> r.value.timeout == DialTimeout
  {
    if !t.Enabled then Success(PlainDialer(DialTimeout))
    else match TlsConfigFor(t, host)
      case Failure(e) => Failure(e)
      case Success(cfg) => Success(TlsDialer(DialTimeout, cfg))
  }

  /** The SASL mechanism: plain for selector 0, SCRAM-SHA-256 for 256,
      SCRAM-SHA-512 for 512, each with the configured credentials; any
      other selector is an error. */
  function MechanismFor(auth: KafkaAuth): (r: Result<Mechanism, Failure>)
    ensures r.Failure? <==> auth.Scram !in {0, 256, 512}
    ensures r.Failure? ==> r.error == InvalidScram(auth.Scram)
    ensures r.Success? ==> r.value.user == auth.Username && r.value.pass == auth.Password
    ensures r.Success? ==> (r.value.PlainAuth? <==> auth.Scram == 0)
    ensures r.Success? ==> (r.value.ScramSha256? <==> auth.Scram == 256)
    ensures r.Success? ==> (r.value.ScramSha512? <==> auth.Scram == 512)
  {
    if auth.Scram == 0 then Success(PlainAuth(auth.Username, auth.Password))
    else if auth.Scram == 256 then Success(ScramSha256(auth.Username, auth.Password))
    else if auth.Scram == 512 then Success(ScramSha512(auth.Username, auth.Password))
    else Failure(InvalidScram(auth.Scram))
  }

  /** The whole option list: seed brokers, logger, default topic, the
      dialer, the SASL mechanism. A TLS error is raised before a SCRAM
      error. */
  function DefaultConfig(conf: KafkaConfig, globalTopic: string, sl: SlogLogger, host: Host)
    : (r: Result<seq<Opt>, Failure>)
    ensures r.Success? <==> TransportFor(conf.Auth.TLS, host).Success? && MechanismFor(conf.Auth).Success?
    ensures TransportFor(conf.Auth.TLS, host).Failure? ==> r == Failure(TransportFor(conf.Auth.TLS, host).error)
    ensures TransportFor(conf.Auth.TLS, host).Success? && MechanismFor(conf.Auth).Failure?
            ==> r == Failure(InvalidScram(conf.Auth.Scram))
    ensures r.Success? ==>
              && |r.value| == 5
              && r.value[0] == SeedBrokers(conf.Brokers)
              && r.value[1] == WithLogger(Logger(sl))
              && r.value[2] == DefaultProduceTopic(globalTopic)
              && r.value[3] == Dialer(TransportFor(conf.Auth.TLS, host).value)
              && r.value[4] == Sasl(MechanismFor(conf.Auth).value)
  {
    match TransportFor(conf.Auth.TLS, host)
    case Failure(e) => Failure(e)
    case Success(d) =>
      match MechanismFor(conf.Auth)
      case Failure(e) => Failure(e)
      case Success(m) =>
        Success([SeedBrokers(conf.Brokers), WithLogger(Logger(sl)), DefaultProduceTopic(globalTopic),
                 Dialer(d), Sasl(m)])
  }

  /** GetDefaultConfig, step by step as the source does it: start with three
      options, create the TLS config when a CA is given, create it (if
      needed) and append the client certificate when a key pair is given,
      append the dialer, append the SASL mechanism. `globalTopic` stands for
      the global config.Conf.Kafka.Topic and `defaultLogger` for
      slog.Default(). */
  method GetDefaultConfig(conf: KafkaConfig, globalTopic: string, defaultLogger: SlogLogger, host: Host)
    returns (r: Result<seq<Opt>, Failure>)
    ensures r == DefaultConfig(conf, globalTopic, defaultLogger, host)
    ensures conf.Auth.Scram !in {0, 256, 512} ==> r.Failure?
    ensures r.Success? ==> |r.value| == 5 && r.value[3].Dialer? && r.value[4].Sasl?
  {
    var options := [SeedBrokers(conf.Brokers), WithLogger(Logger(defaultLogger)),
                    DefaultProduceTopic(globalTopic)];
    var t := conf.Auth.TLS;
    var tlsConfig: Option<TlsConfig> := None;
    if t.Enabled {
      if t.CAPath != "" {
        var caCert := ReadFile(host, t.CAPath);
        if caCert.None? {
          return Failure(CAUnreadable(t.CAPath));
        }
        var pool := NewCertPool();
        var (withCA, appended) := AppendCertsFromPEM(host, pool, caCert.value);
        assert withCA.certs == host.pemCerts(caCert.value);
        if !appended {
          return Failure(CAAppendFailed(t.CAPath));
        }
        tlsConfig := Some(TlsConfig(Some(withCA), VersionTLS12, []));
      }
      if t.CertPath != "" || t.KeyPath != "" {
        if t.CertPath == "" || t.KeyPath == "" {
          return Failure(CertKeyPathMismatch);
        }
        var cert := LoadX509KeyPair(host, t.CertPath, t.KeyPath);
        if cert.None? {
          return Failure(KeyPairUnloadable(t.CertPath, t.KeyPath));
        }
        if tlsConfig.None? {
          tlsConfig := Some(TlsConfig(None, VersionTLS12, []));
        }
        assert tlsConfig.value.certificates == [];
        tlsConfig := Some(tlsConfig.value.(certificates := tlsConfig.value.certificates + [cert.value]));
        assert tlsConfig.value.certificates == [cert.value];
      }
      assert TlsConfigFor(t, host) == Success(tlsConfig);
      options := options + [Dialer(TlsDialer(DialTimeout, tlsConfig))];
    } else {
      options := options + [Dialer(PlainDialer(DialTimeout))];
    }

    if conf.Auth.Scram != 0 {
      if conf.Auth.Scram == 256 {
        options := options + [Sasl(ScramSha256(conf.Auth.Username, conf.Auth.Password))];
      } else if conf.Auth.Scram == 512 {
        options := options + [Sasl(ScramSha512(conf.Auth.Username, conf.Auth.Password))];
      } else {
        return Failure(InvalidScram(conf.Auth.Scram));
      }
    } else {
      options := options + [Sasl(PlainAuth(conf.Auth.Username, conf.Auth.Password))];
    }
    assert options == [options[0], options[1], options[2], options[3], options[4]];
    return Success(options);
  }
}
