/** Properties of the broker client option builder and of the logger
    adapter that relate several calls or quantify over inputs. */
module KafkaProperties {
  import opened Wrappers
  import opened Config
  import opened Platform
  import opened Kafka

  // ---------------------------------------------------------------------
  // Logger adapter
  // ---------------------------------------------------------------------

  /** kgoToSlogLevel reverses the order: a more verbose kgo level maps to a
      strictly lower (more verbose) slog level, so the four real levels map
      to four distinct slog levels. */
  lemma KgoToSlogLevelReversesOrder(a: LogLevel, b: LogLevel)
    requires LogLevelError <= a < b <= LogLevelDebug
    ensures KgoToSlogLevel(b) < KgoToSlogLevel(a)
  {
  }

  /** Level reports None exactly when the host logger has none of the four
      levels enabled. */
  lemma LevelNoneIffNothingEnabled(l: Logger)
    ensures Level(l) == LogLevelNone
            <==> forall k: LogLevel :: LogLevelError <= k <= LogLevelDebug ==> !l.sl.enabled(KgoToSlogLevel(k))
  {
  }

  /** For a host logger that filters by severity, every kgo message at or
      below the reported level (in verbosity) reaches the host logger: the
      adapter never advertises a level whose messages would be dropped. */
  lemma LevelSuppressesNothing(l: Logger, k: LogLevel)
    requires Monotone(l.sl)
    requires LogLevelError <= k <= Level(l)
    ensures l.sl.enabled(KgoToSlogLevel(k))
  {
    if k < Level(l) {
      KgoToSlogLevelReversesOrder(k, Level(l));
    }
  }

  /** A host logger with minimum level s, one of slog's four named levels,
      is reported as the kgo level of the same name: the two mappings are
      inverse on the named levels. */
  lemma LevelOfThresholdRoundTrip(s: SlogLevel)
    requires s in {SlogLevelDebug, SlogLevelInfo, SlogLevelWarn, SlogLevelError}
    ensures Level(Logger(Threshold(s))) != LogLevelNone
    ensures KgoToSlogLevel(Level(Logger(Threshold(s)))) == s
  {
  }

  /** Lowering the host logger's minimum level never makes the reported kgo
      level less verbose. */
  lemma LevelMonotone(a: SlogLevel, b: SlogLevel)
    requires a <= b
    ensures Level(Logger(Threshold(b))) <= Level(Logger(Threshold(a)))
  {
  }

  // ---------------------------------------------------------------------
  // Option list
  // ---------------------------------------------------------------------

  datatype OptKind = BrokersKind | LoggerKind | TopicKind | DialerKind | SaslKind

  function KindOf(o: Opt): OptKind
  {
    match o
    case SeedBrokers(_) => BrokersKind
    case WithLogger(_) => LoggerKind
    case DefaultProduceTopic(_) => TopicKind
    case Dialer(_) => DialerKind
    case Sasl(_) => SaslKind
  }

  /** How many options of kind `k` a list holds. */
  function Count(opts: seq<Opt>, k: OptKind): nat
  {
    if opts == [] then 0
    else (if KindOf(opts[0]) == k then 1 else 0) + Count(opts[1..], k)
  }

  lemma {:induction false} CountConcat(a: seq<Opt>, b: seq<Opt>, k: OptKind)
    ensures Count(a + b, k) == Count(a, k) + Count(b, k)
  {
    if a == [] {
      assert a + b == b;
    } else {
      assert (a + b)[1..] == a[1..] + b;
      CountConcat(a[1..], b, k);
    }
  }

  /** A successful build holds exactly one option of each kind: one seed
      broker list, one logger, one default topic, one dialer and one SASL
      mechanism. */
  lemma OneOptionOfEachKind(conf: KafkaConfig, globalTopic: string, sl: SlogLogger, host: Host, k: OptKind)
    requires DefaultConfig(conf, globalTopic, sl, host).Success?
    ensures Count(DefaultConfig(conf, globalTopic, sl, host).value, k) == 1
  {
    var opts := DefaultConfig(conf, globalTopic, sl, host).value;
    assert opts == [opts[0]] + [opts[1]] + [opts[2]] + [opts[3]] + [opts[4]];
    CountConcat([opts[0]] + [opts[1]] + [opts[2]] + [opts[3]], [opts[4]], k);
    CountConcat([opts[0]] + [opts[1]] + [opts[2]], [opts[3]], k);
    CountConcat([opts[0]] + [opts[1]], [opts[2]], k);
    CountConcat([opts[0]], [opts[1]], k);
  }

  /** The build succeeds exactly when the TLS material is usable (or TLS is
      off) and the SCRAM selector is 0, 256 or 512. */
  lemma BuildSucceedsIff(conf: KafkaConfig, globalTopic: string, sl: SlogLogger, host: Host)
    ensures DefaultConfig(conf, globalTopic, sl, host).Success?
            <==> (!conf.Auth.TLS.Enabled || (CAUsable(conf.Auth.TLS, host) && KeyPairUsable(conf.Auth.TLS, host)))
                 && conf.Auth.Scram in {0, 256, 512}
  {
  }

  /** With TLS off no certificate file is consulted: the result depends
      neither on the CA, certificate and key paths (even when only one of
      certificate and key is set) nor on the files and parsers of the host. */
  lemma PlainDialerIgnoresTlsMaterial(
    conf: KafkaConfig, globalTopic: string, sl: SlogLogger, host: Host,
    caPath: string, certPath: string, keyPath: string, otherHost: Host)
    requires !conf.Auth.TLS.Enabled
    ensures DefaultConfig(conf.(Auth := conf.Auth.(TLS := TLSConfig(false, caPath, certPath, keyPath))),
                          globalTopic, sl, otherHost)
            == DefaultConfig(conf, globalTopic, sl, host)
    ensures DefaultConfig(conf, globalTopic, sl, host).Success? ==>
              DefaultConfig(conf, globalTopic, sl, host).value[3] == Dialer(PlainDialer(DialTimeout))
  {
  }

  /** The default produce topic comes from the global configuration, never
      from the `Topic` field of the configuration passed in. */
  lemma TopicFieldIgnored(conf: KafkaConfig, topic: string, globalTopic: string, sl: SlogLogger, host: Host)
    ensures DefaultConfig(conf.(Topic := topic), globalTopic, sl, host) == DefaultConfig(conf, globalTopic, sl, host)
    ensures DefaultConfig(conf, globalTopic, sl, host).Success? ==>
              DefaultConfig(conf, globalTopic, sl, host).value[2] == DefaultProduceTopic(globalTopic)
  {
  }

  /** Every TLS configuration the builder creates requires TLS 1.2 or later;
      with neither a CA nor a client key pair the dialer gets the library's
      default configuration (none). */
  lemma TlsDialerConfig(t: TLSConfig, host: Host)
    requires t.Enabled && TransportFor(t, host).Success?
    ensures TransportFor(t, host).value.TlsDialer?
    ensures TransportFor(t, host).value.config.Some? ==> TransportFor(t, host).value.config.value.minVersion == VersionTLS12
    ensures TransportFor(t, host).value.config.None? <==> t.CAPath == "" && t.CertPath == "" && t.KeyPath == ""
  {
  }
}
