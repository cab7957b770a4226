/** The records the scanner, the store, the anomaly engine and the query engine exchange. */
module Records {
  import opened Bytes
  import opened Strings
  import opened Wrappers

  const TWO63: int := 0x8000_0000_0000_0000
  const TWO64: int := 0x1_0000_0000_0000_0000

  /** `time.Time.UnixNano()`: a signed 64-bit count of nanoseconds. */
  type Time = t: int | -TWO63 <= t < TWO63

  /** What is scanned: a host (by the text of its address), a port and a protocol. */
  datatype Endpoint = Endpoint(ip: Text, port: Port, proto: Text)

  datatype StateRecord = StateRecord(
    timestamp: Time, open: bool, banner: Text, serviceName: Text, version: Text,
    tlsFingerprint: Text, tlsSubject: Text, tlsExpiry: Option<Time>, responseMs: int)

  datatype AnomalyKind = NewPort | PortClosed | BannerDrift | CertRotation | VersionDrift | LatencySpike

  datatype Severity = High | Medium | Low

  datatype Event = Event(
    timestamp: Time, endpoint: Endpoint, kind: AnomalyKind, severity: Severity,
    before: Option<StateRecord>, after: StateRecord)
}
