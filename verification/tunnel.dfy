/** internal/tunnel/ssh.go: the values an SSH tunnel is built from.

    Listening, dialling and copying bytes between connections are left out;
    what remains is how `CreateSSHTunnel` wires its endpoints and client
    configuration together. `getFreePort` is an input: the port it found, or
    its error. An SSH authentication method is an opaque credential.
 */
module Tunnel {
  import opened Results
  import opened Text

  /** One side of a tunnel. */
  datatype Endpoint = Endpoint(host: string, port: int, user: string)

  /** `Endpoint.String`: `"%s:%d"` of host and port. */
  function EndpointString(e: Endpoint): (r: string)
    ensures HasPrefix(r, e.host) && |r| > |e.host| && r[|e.host|] == ':'
    ensures ':' !in r[|e.host| + 1..]
  {
    e.host + ":" + Itoa(e.port)
  }

  /** Reads a `host:port` address back, splitting at its last colon. */
  function SplitHostPort(s: string): (r: Option<(string, int)>)
    ensures r.Some? ==> |r.value.0| < |s| && s[..|r.value.0|] == r.value.0 && s[|r.value.0|] == ':'
  {
    match LastIndex(s, ':')
    case None => None
    case Some(i) =>
      match ParseInt(s[i + 1..])
      case None => None
      case Some(port) => Some((s[..i], port))
  }

  /** Formatting an endpoint loses only its user: host and port are read back
      exactly, even when the host itself contains colons. */
  lemma EndpointStringRoundTrip(e: Endpoint)
    ensures SplitHostPort(EndpointString(e)) == Some((e.host, e.port))
  {
    var digits := Itoa(e.port);
    LastIndexBefore(e.host, ':', digits);
    var s := e.host + [':'] + digits;
    assert EndpointString(e) == s;
    assert s[|e.host| + 1..] == digits;
    assert s[..|e.host|] == e.host;
    ItoaRoundTrip(e.port);
  }

  /** An SSH authentication method (an agent signer or a private key). */
  datatype AuthMethod = AgentAuth | KeyAuth(keyFile: string)

  /** A host-key callback: host name, remote address and offered key to a verdict. */
  type HostKeyCallback = (string, string, string) -> Outcome

  /** The `ssh.ClientConfig` a tunnel dials with. */
  datatype ClientConfig = ClientConfig(user: string, auth: seq<AuthMethod>, hostKeyCallback: HostKeyCallback)

  /** A tunnel: where it listens, the SSH server, the forwarded-to address. */
  datatype SshTunnel = SshTunnel(local: Endpoint, server: Endpoint, remote: Endpoint, cfg: ClientConfig)

  /** `SSHTunnel.LocalPort`: the port of the address the tunnel listens on. */
  function LocalPort(t: SshTunnel): (r: int)
    ensures SplitHostPort(EndpointString(t.local)) == Some((t.local.host, r))
  {
    EndpointStringRoundTrip(t.local);
    t.local.port
  }

  /** `SSHTunnel.LocalHost`: the host of the address the tunnel listens on. */
  function LocalHost(t: SshTunnel): (r: string)
    ensures SplitHostPort(EndpointString(t.local)) == Some((r, t.local.port))
  {
    EndpointStringRoundTrip(t.local);
    t.local.host
  }

  /** `CreateSSHTunnel`, with the outcome of `getFreePort` as `freePort`. A
      port-allocation failure is returned unchanged; otherwise the local
      endpoint takes the allocated port and keeps its host and user, the
      server and remote endpoints are stored as given, and the client logs in
      as the server endpoint's user with exactly the given method, accepting
      any host key. */
  function CreateSshTunnel(local: Endpoint, server: Endpoint, remote: Endpoint, auth: AuthMethod,
                           freePort: Result<int>): (r: Result<SshTunnel>)
    ensures r.Err? <==> freePort.Err?
    ensures r.Err? ==> r.error == freePort.error
    ensures r.Ok? ==>
      && LocalPort(r.value) == freePort.value
      && LocalHost(r.value) == local.host
      && r.value.local.user == local.user
      && r.value.server == server
      && r.value.remote == remote
      && r.value.cfg.user == server.user
      && r.value.cfg.auth == [auth]
      && (forall h, a, k :: r.value.cfg.hostKeyCallback(h, a, k) == Pass)
  {
    match freePort
    case Err(e) => Err(e)
    case Ok(port) =>
      var cfg := ClientConfig(server.user, [auth], (hostname, remote, key) => Pass);
      Ok(SshTunnel(local.(port := port), server, remote, cfg))
  }

  /** `StartSSHTunnel`: create the tunnel, then serve it in the background.
      Serving is not modelled, so the caller sees exactly what
      `CreateSSHTunnel` produced. */
  function StartSshTunnel(local: Endpoint, server: Endpoint, remote: Endpoint, auth: AuthMethod,
                          freePort: Result<int>): (r: Result<SshTunnel>)
    ensures r.Err? <==> freePort.Err?
    ensures r.Err? ==> r.error == freePort.error
    ensures r.Ok? ==> LocalPort(r.value) == freePort.value && r.value.server == server && r.value.remote == remote
  {
    CreateSshTunnel(local, server, remote, auth, freePort)
  }
}
