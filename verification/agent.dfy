/**
 The HTTP agent each upstream client owns (`agent.py`). Its endpoint factory
 ignores the host name in a request URI when it opens the TCP connection: the
 connection always goes to the one IP address the upstream was configured
 with, on the URI's port. For `https` the connection is wrapped in TLS whose
 expected identity is the URI's host, so certificate checks still use the
 configured name. The TLS policy and the connection pool themselves are
 outside this model; only the values this code passes to them are kept.
 */
module Agent {
  import opened Bytes

  /** The parts of a request URI the factory looks at. */
  datatype Uri = Uri(scheme: string, host: string, port: nat)

  /** `HostnameEndpoint(reactor, address, port)`: where the TCP connection goes. */
  datatype Connection = Connection(address: string, port: nat)

  /** `creatorForNetloc(host, port)`: the identity the TLS handshake verifies. */
  datatype TlsIdentity = TlsIdentity(host: string, port: nat)

  datatype Endpoint =
    | Plain(tcp: Connection)
    | Tls(identity: TlsIdentity, tcp: Connection)

  /** `MyEndpointFactory(reactor, address)`. */
  datatype EndpointFactory = EndpointFactory(address: string)

  /** `endpointForURI`: `None` stands for the implicit `return None` of an unknown scheme. */
  function EndpointForUri(f: EndpointFactory, uri: Uri): (e: Option<Endpoint>)
    ensures e.Some? <==> uri.scheme == "http" || uri.scheme == "https"
    ensures e.Some? ==> (e.value.Tls? <==> uri.scheme == "https")
    ensures e.Some? ==> e.value.tcp == Connection(f.address, uri.port)
    ensures e.Some? && e.value.Tls? ==> e.value.identity == TlsIdentity(uri.host, uri.port)
  {
    var tcp := Connection(f.address, uri.port);
    if uri.scheme == "http" then Some(Plain(tcp))
    else if uri.scheme == "https" then Some(Tls(TlsIdentity(uri.host, uri.port), tcp))
    else None
  }

  /** Two URIs that differ only in their host open the same TCP connection. */
  lemma HostDoesNotRoute(f: EndpointFactory, u1: Uri, u2: Uri)
    requires u1.scheme == u2.scheme && u1.port == u2.port
    ensures EndpointForUri(f, u1).Some? == EndpointForUri(f, u2).Some?
    ensures EndpointForUri(f, u1).Some? ==> EndpointForUri(f, u1).value.tcp == EndpointForUri(f, u2).value.tcp
  {
  }

  /** The settings `get_agent_for_address` gives the `HTTPConnectionPool`. */
  datatype Pool = Pool(persistent: bool, maxPersistentPerHost: nat, quietFactory: bool)

  datatype HttpAgent = HttpAgent(pool: Pool, factory: EndpointFactory)

  /** The largest number of idle connections kept per host. */
  const MaxPersistentPerHost: nat := 2

  /** `get_agent_for_address(reactor, address)`. */
  function AgentForAddress(address: string): (a: HttpAgent)
    ensures a.pool.persistent && a.pool.maxPersistentPerHost == MaxPersistentPerHost && a.pool.quietFactory
    ensures a.factory.address == address
  {
    HttpAgent(Pool(true, MaxPersistentPerHost, true), EndpointFactory(address))
  }

  /** An agent built for an address connects to that address for every `http`/`https` URI. */
  lemma AgentConnectsOnlyTo(address: string, uri: Uri)
    requires uri.scheme == "http" || uri.scheme == "https"
    ensures EndpointForUri(AgentForAddress(address).factory, uri).value.tcp.address == address
  {
  }
}
