/**
 * The HTTPS connector: a service that, for one URI, checks the scheme against
 * its https-only policy, connects through the raw (TCP) connector and, for
 * https, runs the TLS handshake over the raw stream, handing back either a
 * plain or an encrypted stream.
 *
 * The raw connector, the TLS provider and the clock are collaborators: their
 * outcomes are parameters of Call, and Call returns a trace of which
 * collaborators it invoked, in order.
 */
module Client {
  import opened Wrappers
  import opened Stats
  import opened ServerName

  /** The parts of a URI the connector looks at; `scheme` is what `scheme_str` returns. */
  datatype Uri = Uri(scheme: Option<string>, host: Option<string>, pathAndQuery: string)

  /** Opaque identities of the collaborators the connector owns. */
  datatype RawConnector = RawConnector(id: nat)
  datatype TlsConnector = TlsConnector(id: nat)

  /** A connected raw stream and the stats it reports (`tcp.stats()`). */
  datatype RawStream = RawStream(id: nat, stats: Option<ConnectionStats>)
  datatype TlsStream = TlsStream(id: nat)

  datatype RawErr = RawErr(code: nat)
  datatype TlsErr = TlsErr(code: nat)

  /** The boxed error a call can end in, tagged by where it came from. */
  datatype ConnectError =
    | ForceHttpsButUriNotHttps
    | RawError(raw: RawErr)
    | TlsError(tls: TlsErr)

  /** `MaybeHttpsStream`: the plain raw stream, or the TLS stream with its merged stats. */
  datatype MaybeHttpsStream =
    | Http(tcp: RawStream)
    | Https(tls: TlsStream, stats: Option<ConnectionStats>)

  /** A collaborator invocation made by Call. */
  datatype Invocation =
    | RawCalled(dst: Uri)
    | HandshakeCalled(serverName: string, over: RawStream)

  datatype Poll<T> = Ready(value: T) | Pending

  /** The server name handed to the TLS provider: the host, or "" without one, with brackets trimmed. */
  function HostName(dst: Uri): (name: string)
    ensures Unbracketed(name)
    ensures dst.host.None? ==> name == ""
    ensures dst.host.Some? ==> TrimmedOf(dst.host.value, name)
  {
    TrimBracketsUnbracketed(dst.host.UnwrapOr(""));
    TrimBrackets(dst.host.UnwrapOr(""))
  }

  /** Number of handshakes a trace records. */
  function HandshakeCount(trace: seq<Invocation>): (n: nat)
    ensures n <= |trace|
    ensures n == 0 <==> forall k :: 0 <= k < |trace| ==> !trace[k].HandshakeCalled?
  {
    if trace == [] then 0
    else HandshakeCount(trace[..|trace| - 1]) + (if trace[|trace| - 1].HandshakeCalled? then 1 else 0)
  }

  /**
   * The shapes a trace of Call can take: nothing, the raw connect alone, or
   * the raw connect followed by one handshake over the raw stream it gave.
   */
  predicate OrderedTrace(dst: Uri, trace: seq<Invocation>) {
    trace == [] || trace == [RawCalled(dst)] ||
    (|trace| == 2 && trace[0] == RawCalled(dst) && trace[1].HandshakeCalled?)
  }

  class HttpsConnector {
    var forceHttps: bool
    var http: RawConnector
    var tls: TlsConnector

    /** `From<(T, TlsConnector)>`: the policy starts off. */
    constructor From(http: RawConnector, tls: TlsConnector)
      ensures !forceHttps && this.http == http && this.tls == tls
    {
      forceHttps := false;
      this.http := http;
      this.tls := tls;
    }

    /** `https_only(enable)`: sets the policy flag and nothing else. */
    method HttpsOnly(enable: bool)
      modifies this`forceHttps
      ensures forceHttps == enable
      ensures http == old(http) && tls == old(tls)
    {
      forceHttps := enable;
    }

    /** `#[derive(Clone)]`: a new connector with the same fields and a flag of its own. */
    method Clone() returns (c: HttpsConnector)
      ensures fresh(c)
      ensures c.forceHttps == forceHttps && c.http == http && c.tls == tls
    {
      c := new HttpsConnector.From(http, tls);
      c.forceHttps := forceHttps;
    }

    /** `poll_ready`: the raw connector's readiness, with its error converted. */
    method PollReady(inner: Poll<Result<(), RawErr>>) returns (p: Poll<Result<(), ConnectError>>)
      ensures p == Ready(Ok(())) <==> inner == Ready(Ok(()))
      ensures p.Pending? <==> inner.Pending?
      ensures inner.Ready? && inner.value.Err? ==> p == Ready(Err(RawError(inner.value.error)))
      ensures p.Ready? && p.value.Err? ==> p.value.error.RawError?
    {
      match inner
      case Ready(Ok(u)) =>
        p := Ready(Ok(u));
      case Ready(Err(e)) => p := Ready(Err(RawError(e)));
      case Pending => p := Pending;
    }

    /**
     * `call(dst)` driven to completion. `raw` is what the raw connector's
     * future yields, `handshake` what the TLS provider's `connect` yields, and
     * `tlsStart` / `tlsEnd` the clock readings taken around the handshake.
     */
    method Call(dst: Uri, raw: Result<RawStream, RawErr>, handshake: Result<TlsStream, TlsErr>,
                tlsStart: nat, tlsEnd: nat)
      returns (r: Result<MaybeHttpsStream, ConnectError>, trace: seq<Invocation>)
      requires tlsStart <= tlsEnd
      ensures OrderedTrace(dst, trace)
      // The policy check comes first: a refused URI touches no collaborator.
      ensures dst.scheme != Some("https") && forceHttps ==> r == Err(ForceHttpsButUriNotHttps) && trace == []
      ensures r == Err(ForceHttpsButUriNotHttps) <==> dst.scheme != Some("https") && forceHttps
      ensures trace == [] <==> dst.scheme != Some("https") && forceHttps
      // A failed raw connect is returned as is, with no handshake.
      ensures trace != [] && raw.Err? ==> r == Err(RawError(raw.error)) && trace == [RawCalled(dst)]
      // Plain http hands back exactly the raw stream.
      ensures dst.scheme != Some("https") && !forceHttps && raw.Ok? ==>
                r == Ok(Http(raw.value)) && trace == [RawCalled(dst)]
      // https: exactly one handshake, with the trimmed host, over the raw stream.
      ensures dst.scheme == Some("https") && raw.Ok? ==>
                trace == [RawCalled(dst), HandshakeCalled(HostName(dst), raw.value)]
      ensures dst.scheme == Some("https") && raw.Ok? && handshake.Err? ==> r == Err(TlsError(handshake.error))
      ensures dst.scheme == Some("https") && raw.Ok? && handshake.Ok? ==>
                r == Ok(Https(handshake.value, WithTlsTimes(raw.value.stats, tlsStart, tlsEnd)))
      // The handshake runs only for https and only after a successful raw connect.
      ensures HandshakeCount(trace) == (if dst.scheme == Some("https") && raw.Ok? then 1 else 0)
      // The stream's tag records how it was made.
      ensures r.Ok? && r.value.Https? ==>
                dst.scheme == Some("https") && raw.Ok? && handshake == Ok(r.value.tls) &&
                HandshakeCount(trace) == 1
      ensures r.Ok? && r.value.Http? ==> raw == Ok(r.value.tcp) && HandshakeCount(trace) == 0
      ensures r.Ok? && r.value.Https? && r.value.stats.Some? ==> TlsTimed(r.value.stats.value)
    {
      var isHttps := dst.scheme == Some("https");
      // Early abort if HTTPS is forced but cannot be used.
      if !isHttps && forceHttps {
        return Err(ForceHttpsButUriNotHttps), [];
      }
      var host := HostName(dst);
      trace := [RawCalled(dst)];
      match raw {
        case Err(e) =>
          r := Err(RawError(e));
        case Ok(tcp) =>
          if isHttps {
            var stats := tcp.stats;
            trace := trace + [HandshakeCalled(host, tcp)];
            match handshake {
              case Err(e) =>
                r := Err(TlsError(e));
              case Ok(tlsStream) =>
                r := Ok(Https(tlsStream, WithTlsTimes(stats, tlsStart, tlsEnd)));
            }
          } else {
            r := Ok(Http(tcp));
          }
      }
    }
  }
}
