/** The parts of Go's standard library that the broker client builder calls
    for TLS material: reading a file (os.ReadFile), adding PEM certificates
    to a pool (x509.CertPool.AppendCertsFromPEM) and loading a client
    certificate with its key (tls.LoadX509KeyPair). The file system and the
    PEM / X.509 parsers are inputs of the model: a `Host` value fixes which
    files are readable and what the parsers make of their bytes. */
module Platform {
  import opened Wrappers

  newtype byte = x: int | 0 <= x < 256

  type Bytes = seq<byte>

  /** A parsed X.509 certificate, kept as its DER encoding. */
  datatype X509Cert = X509Cert(der: Bytes)

  /** A client certificate chain together with its private key. */
  datatype KeyPair = KeyPair(chain: seq<X509Cert>, privateKey: Bytes)

  /** A trust pool of root certificates. */
  datatype CertPool = CertPool(certs: seq<X509Cert>)

  /** The environment the builder runs in:
      - `files`: every readable file and its contents;
      - `pemCerts`: the certificates the PEM decoder finds in some bytes;
      - `keyPairOf`: the key pair parsed from certificate and key PEM bytes,
        or None when they do not parse or do not match. */
  datatype Host = Host(
    files: map<string, Bytes>,
    pemCerts: Bytes -> seq<X509Cert>,
    keyPairOf: (Bytes, Bytes) -> Option<KeyPair>)

  /** os.ReadFile: the contents of a readable file, None when it cannot be read. */
  function ReadFile(host: Host, path: string): (r: Option<Bytes>)
    ensures r.Some? <==> path in host.files
    ensures r.Some? ==> r.value == host.files[path]
  {
    if path in host.files then Some(host.files[path]) else None
  }

  /** x509.NewCertPool: an empty pool. */
  function NewCertPool(): (p: CertPool)
    ensures |p.certs| == 0
  {
    CertPool([])
  }

  /** CertPool.AppendCertsFromPEM: adds every certificate found in `pem` and
      reports whether the PEM decoder found at least one. */
  function AppendCertsFromPEM(host: Host, pool: CertPool, pem: Bytes): (r: (CertPool, bool))
    ensures r.0.certs == pool.certs + host.pemCerts(pem)
    ensures r.1 <==> |host.pemCerts(pem)| > 0
  {
    var found := host.pemCerts(pem);
    (CertPool(pool.certs + found), |found| > 0)
  }

  /** tls.LoadX509KeyPair: reads both files and parses them as a matching
      certificate/key pair; None when either file is unreadable or the
      contents do not form a pair. */
  function LoadX509KeyPair(host: Host, certFile: string, keyFile: string): (r: Option<KeyPair>)
    ensures r.Some? ==> certFile in host.files && keyFile in host.files
    ensures r.Some? ==> host.keyPairOf(host.files[certFile], host.files[keyFile]) == r
    ensures certFile in host.files && keyFile in host.files
            ==> r == host.keyPairOf(host.files[certFile], host.files[keyFile])
  {
    match (ReadFile(host, certFile), ReadFile(host, keyFile))
    case (Some(certPEM), Some(keyPEM)) => host.keyPairOf(certPEM, keyPEM)
    case _ => None
  }
}
