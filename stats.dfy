/**
 * Connection-timing telemetry. The raw connector reports the process start,
 * DNS-resolve start/end and raw-connect start/end; the TLS layer adds the
 * handshake start/end. Timestamps are readings of a monotonic clock, so they
 * are natural numbers here.
 */
module Stats {
  import opened Wrappers

  datatype ConnectionStats = ConnectionStats(
    startTime: nat,
    dnsResolveStart: Option<nat>,
    dnsResolveEnd: Option<nat>,
    connectStart: Option<nat>,
    connectEnd: Option<nat>,
    tlsConnectStart: Option<nat>,
    tlsConnectEnd: Option<nat>)

  /** The five fields the raw connector owns. */
  datatype RawTimes = RawTimes(
    startTime: nat,
    dnsResolveStart: Option<nat>,
    dnsResolveEnd: Option<nat>,
    connectStart: Option<nat>,
    connectEnd: Option<nat>)

  function RawPart(s: ConnectionStats): (t: RawTimes) {
    RawTimes(s.startTime, s.dnsResolveStart, s.dnsResolveEnd, s.connectStart, s.connectEnd)
  }

  /** Both handshake timestamps are present and the start is not after the end. */
  predicate TlsTimed(s: ConnectionStats) {
    s.tlsConnectStart.Some? && s.tlsConnectEnd.Some? &&
    s.tlsConnectStart.value <= s.tlsConnectEnd.value
  }

  /** Every present timestamp is at or after the one before it. */
  predicate Chronological(times: seq<Option<nat>>) {
    forall i, j :: 0 <= i < j < |times| && times[i].Some? && times[j].Some? ==>
      times[i].value <= times[j].value
  }

  function Timeline(s: ConnectionStats): (times: seq<Option<nat>>) {
    [Some(s.startTime), s.dnsResolveStart, s.dnsResolveEnd, s.connectStart, s.connectEnd,
     s.tlsConnectStart, s.tlsConnectEnd]
  }

  /** An upper bound of every timestamp among the raw connector's fields. */
  function LatestRaw(s: ConnectionStats): (t: nat)
    ensures forall k :: 0 <= k < 5 && Timeline(s)[k].Some? ==> Timeline(s)[k].value <= t
  {
    var a := s.dnsResolveStart.UnwrapOr(0);
    var b := s.dnsResolveEnd.UnwrapOr(0);
    var c := s.connectStart.UnwrapOr(0);
    var d := s.connectEnd.UnwrapOr(0);
    Max(Max(s.startTime, a), Max(Max(b, c), d))
  }

  function Max(x: nat, y: nat): (m: nat) {
    if x < y then y else x
  }

  /**
   * `stats.map(|s| ConnectionStats { .., tls_connect_start: Some(tlsStart),
   * tls_connect_end: Some(tlsEnd) })`: no stats stay no stats; present stats
   * keep their raw fields and get both handshake timestamps.
   */
  function WithTlsTimes(stats: Option<ConnectionStats>, tlsStart: nat, tlsEnd: nat): (r: Option<ConnectionStats>)
    ensures r.Some? <==> stats.Some?
    ensures r.Some? ==> RawPart(r.value) == RawPart(stats.value)
    ensures r.Some? ==> r.value.tlsConnectStart == Some(tlsStart) && r.value.tlsConnectEnd == Some(tlsEnd)
  {
    match stats
    case None => None
    case Some(s) => Some(s.(tlsConnectStart := Some(tlsStart), tlsConnectEnd := Some(tlsEnd)))
  }

  /** With a monotonic clock the merged stats carry an ordered handshake interval. */
  lemma WithTlsTimesTimed(stats: Option<ConnectionStats>, tlsStart: nat, tlsEnd: nat)
    requires stats.Some? && tlsStart <= tlsEnd
    ensures TlsTimed(WithTlsTimes(stats, tlsStart, tlsEnd).value)
  {
  }

  /** Apart from the two handshake fields nothing of the raw stats changes. */
  lemma WithTlsTimesOnlyTls(s: ConnectionStats, tlsStart: nat, tlsEnd: nat)
    ensures WithTlsTimes(Some(s), tlsStart, tlsEnd).value.(tlsConnectStart := s.tlsConnectStart,
                                                           tlsConnectEnd := s.tlsConnectEnd) == s
  {
  }

  /** A later merge overrides an earlier one: the raw fields are never touched (a property of the model; the connector merges once). */
  lemma WithTlsTimesOverride(stats: Option<ConnectionStats>, a: nat, b: nat, c: nat, d: nat)
    ensures WithTlsTimes(WithTlsTimes(stats, a, b), c, d) == WithTlsTimes(stats, c, d)
  {
  }

  /**
   * If the raw timeline is in order and the handshake is timed after the raw
   * connect finished, the merged timeline is in order as a whole.
   */
  lemma WithTlsTimesChronological(s: ConnectionStats, tlsStart: nat, tlsEnd: nat)
    requires Chronological(Timeline(s)[..5])
    requires LatestRaw(s) <= tlsStart <= tlsEnd
    ensures Chronological(Timeline(WithTlsTimes(Some(s), tlsStart, tlsEnd).value))
  {
    var m := WithTlsTimes(Some(s), tlsStart, tlsEnd).value;
    var t := Timeline(m);
    assert Timeline(s)[..5] == t[..5];
    forall i, j | 0 <= i < j < |t| && t[i].Some? && t[j].Some?
      ensures t[i].value <= t[j].value
    {
      if j < 5 {
        assert t[..5][i] == t[i] && t[..5][j] == t[j];
      } else if i < 5 {
        assert t[i] == Timeline(s)[i];
      }
    }
  }
}
