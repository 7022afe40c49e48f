# HTTPS connector model

A Dafny model of the connection-selecting core of hyper-tls: the
`HttpsConnector` service. For one URI it

1. decides whether the target is https (`scheme_str() == Some("https")`) and,
   when the connector is set to https-only and the target is not https, fails
   at once with `ForceHttpsButUriNotHttps` without touching any collaborator;
2. derives the TLS server name from the host (`""` when there is none) by
   trimming every leading and trailing `[` / `]`;
3. runs the raw connect and, for https only, the TLS handshake over the raw
   stream; an error at either stage is the result;
4. hands back `Http(raw stream)` or `Https(tls stream, stats)`, where the raw
   stream's stats, if any, are copied with the two handshake timestamps added.

Modules (the trimming and the stats merge sit inline in `call` in
src/client.rs; they are modules of their own here so that their lemmas stand
apart from the connector):

- `Wrappers` (wrappers.dfy): `Option` and `Result`.
- `ServerName` (server_name.dfy): `trim_matches` of brackets as `TrimStart`
  and `TrimEnd`, an independent description `TrimmedOf` of a trimmed string,
  and the lemmas that `TrimBrackets` meets it and is the only string that does,
  is bracket-free at both ends and is idempotent.
- `Stats` (stats.dfy): `ConnectionStats` and the merge `WithTlsTimes`.
- `Client` (client.dfy): the `HttpsConnector` class with its mutable
  `forceHttps` flag, `From`, `HttpsOnly`, `Clone`, `PollReady` and `Call`.

`Call` is the asynchronous future collapsed into one method. The raw connect
outcome (`Result<RawStream, RawErr>`), the handshake outcome
(`Result<TlsStream, TlsErr>`) and the two clock readings taken around the
handshake (naturals with `tlsStart <= tlsEnd`, since `Instant::now` is
monotonic) are its parameters. Besides the result it returns the trace of
collaborator invocations: `RawCalled(dst)`, then
`HandshakeCalled(serverName, rawStream)`. Its postconditions state the policy
check before any invocation, the error propagation at each stage, the
plain/encrypted outcome, that the handshake happens exactly once and only
for https after a successful raw connect, and the stats merge.

`WithTlsTimes` copies all five raw fields (`start_time`, both DNS and both
connect timestamps), as src/client.rs:160-165 does.

## Model

| member | source | states |
|---|---|---|
| `ServerName.TrimStart` | src/client.rs:143 | the result is a suffix of the input, everything removed is a bracket, and the result does not start with a bracket |
| `ServerName.TrimEnd` | src/client.rs:143 | the result is a prefix of the input, everything removed is a bracket, and the result does not end with a bracket |
| `ServerName.TrimBrackets` | src/client.rs:140-144 | the result is a slice of the host with only brackets before and after it and no bracket at either of its ends |
| `ServerName.TrimmedOfUnique` | src/client.rs:140-144 | at most one string is such a bracket-free slice, so that description fixes the server name |
| `ServerName.TrimBracketsIsTrimmedOf` | src/client.rs:140-144 | a string meets the description exactly when it is what the trimming returns |
| `ServerName.TrimBracketsUnbracketed` | src/client.rs:140-144 | the server name neither starts nor ends with `[` or `]` |
| `ServerName.TrimStartUnbracketed` | src/client.rs:143 | a string not starting with a bracket loses nothing at the front |
| `ServerName.TrimEndUnbracketed` | src/client.rs:143 | a string not ending with a bracket loses nothing at the back |
| `ServerName.TrimBracketsNoOp` | src/client.rs:140-144 | a host with no bracket at either end is passed through unchanged |
| `ServerName.TrimBracketsIdempotent` | src/client.rs:140-144 | trimming the server name again changes nothing |
| `ServerName.TrimBracketsBracketed` | src/client.rs:140-144 | for `h` with no bracket at either end, `"[" + h + "]"` yields `h`; inner brackets stay |
| `ServerName.TrimBracketsLoopback` | src/client.rs:140-144 | `"[::1]"` yields `"::1"` |
| `ServerName.TrimBracketsHostName` | src/client.rs:140-144 | `"example.com"` is unchanged |
| `Stats.WithTlsTimes` | src/client.rs:153-168 | no stats stay no stats; present stats keep all five raw fields and get `Some(tlsStart)` / `Some(tlsEnd)` as the handshake fields |
| `Stats.WithTlsTimesTimed` | src/client.rs:155-167 | with clock readings taken in order, merged stats carry both handshake timestamps, start not after end |
| `Stats.WithTlsTimesOnlyTls` | src/client.rs:160-168 | the merge changes the two handshake fields and nothing else |
| `Stats.WithTlsTimesOverride` | src/client.rs:160-168 | a property of the model only (the source merges once): merging twice is the same as merging once with the later readings, so the raw fields are never touched |
| `Stats.WithTlsTimesChronological` | src/client.rs:153-168 | a raw timeline in order, followed by a handshake timed after it, gives a merged timeline in order |
| `Client.HostName` | src/client.rs:140-144 | the server name is bracket-free at both ends, is `""` for a URI without host, and is the trimmed host otherwise |
| `Client.HttpsConnector.From` | src/client.rs:95-103 | a new connector has the policy off and holds the given raw connector and TLS handle |
| `Client.HttpsConnector.HttpsOnly` | src/client.rs:66-72 | sets the policy flag to the argument and leaves the raw connector and TLS handle unchanged |
| `Client.HttpsConnector.Clone` | src/client.rs:18-23 | a clone is a fresh object with equal fields, so its flag changes independently |
| `Client.HttpsConnector.PollReady` | src/client.rs:125-131 | ready stays ready, pending stays pending, a raw error comes back as a raw error, in both directions |
| `Client.HttpsConnector.Call` | src/client.rs:133-182 | policy failure exactly when not https and forced, with no collaborator invoked; raw error returned as is with no handshake; plain http returns exactly the raw stream; https invokes one handshake with the trimmed host over the raw stream, returns its error or `Https` with the merged stats; an `Https` result always went through a successful raw connect and handshake, an `Http` result never through a handshake |

## Left out

- The `Future`, `Pin` and `Box` machinery and the polling of `HttpsConnecting` (src/client.rs:184-195): asynchronous plumbing; `Call` is the computation driven to completion, and cancellation by dropping the future is not modelled.
- The real TCP connect, the real TLS negotiation and the `TokioIo` wrapping (src/client.rs:145, 154-158): foreign library calls, represented only by their outcomes; the handshake outcome is a parameter that does not depend on the host or stream it is given.
- `new`, `new_`, `new_with_connector` and `Default` (src/client.rs:25-64, 74-93): TLS context construction, its panics and `enforce_http(false)` are foreign initialisation.
- Real `Instant` values: clock readings are abstract naturals.
- The `Debug` and `Display` impls (src/client.rs:105-112, 197-201, 208-212): formatting only; the error is kept as the tag `ForceHttpsButUriNotHttps`.
- `MaybeHttpsStream` and its read/write/stats forwarding: `crate::stream` is not part of this model, so the stream is the two-variant datatype only.
- URI parsing and scheme normalisation: `Uri` holds the scheme and host as `scheme_str` and `host` report them.
- The real `ConnectionStats` declaration lives in hyper and is not shown: `start_time` is assumed to be a natural and the other raw fields optional naturals; the merge copies them whatever their type.
- Boxing of errors (`BoxError`): errors are tagged by their origin instead of type-erased.
- The changes `call` may make to the raw connector through `&mut self`, and the readiness discipline of calling `poll_ready` before `call`: the raw connector's state is foreign.
