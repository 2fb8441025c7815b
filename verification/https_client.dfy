/**
 The DNS-over-HTTPS clients (`https_client.py`). A client is built for one
 upstream: a URL, a pinned IP address and an agent for that address. Its
 `request` turns the wire bytes of a DNS query into an HTTP request, and the
 agent's outcome settles the client's `finished` deferred exactly once:
 with the gathered body for status 200, with `HttpsClientError(status, body)`
 for any other status, and with the agent's own failure when no response
 came back. The deferred is modelled as the one settlement it receives.
 */
module HttpsClient {
  import opened Bytes
  import Base64Url
  import Util
  import Agent

  /** One `name=value` pair of a URL's query, in order. */
  datatype QueryParam = QueryParam(name: string, value: string)

  /** A `hyperlink.URL`, reduced to the parts this code reads or changes. */
  datatype Url = Url(scheme: string, host: string, port: nat, path: seq<string>, query: seq<QueryParam>)

  /** `URL.add(name, value)`: a new URL with one more query parameter at the end. */
  function Add(u: Url, name: string, value: string): (r: Url)
    ensures r.query == u.query + [QueryParam(name, value)]
    ensures r.scheme == u.scheme && r.host == u.host && r.port == u.port && r.path == u.path
  {
    u.(query := u.query + [QueryParam(name, value)])
  }

  /** The URI the agent sees for a URL. */
  function UriOf(u: Url): (r: Agent.Uri)
    ensures r.scheme == u.scheme && r.host == u.host && r.port == u.port
  {
    Agent.Uri(u.scheme, u.host, u.port)
  }

  const DnsMessage: string := "application/dns-message"

  datatype Method = Get | Post

  /** `HttpsGetClient` or `HttpsPostClient`. */
  datatype Kind = GetClient | PostClient

  type Headers = map<string, seq<string>>

  datatype Client = Client(kind: Kind, uid: string, url: Url, address: string, agent: Agent.HttpAgent)

  /** The constructor: the agent is built for the client's own address. */
  function NewClient(kind: Kind, uid: string, url: Url, address: string): (c: Client)
    ensures c.kind == kind && c.uid == uid && c.url == url && c.address == address
    ensures c.agent.factory.address == address
  {
    Client(kind, uid, url, address, Agent.AgentForAddress(address))
  }

  /** The class attributes `method` (here `verb`) and `headers`. */
  function MethodOf(kind: Kind): Method
  {
    if kind == GetClient then Get else Post
  }

  function HeadersOf(kind: Kind): (h: Headers)
    ensures "Accept" in h && h["Accept"] == [DnsMessage]
    ensures kind == GetClient ==> h.Keys == {"Accept"}
    ensures kind == PostClient ==> h.Keys == {"Accept", "Content-Type"} && h["Content-Type"] == [DnsMessage]
  {
    if kind == GetClient then map["Accept" := [DnsMessage]]
    else map["Content-Type" := [DnsMessage], "Accept" := [DnsMessage]]
  }

  /** What `_request` passes to `agent.request`. */
  datatype Request = Request(verb: Method, url: Url, headers: Headers, body: Option<Util.Producer>)

  /** The `dns` parameter of the GET form: `urlsafe_b64encode(data)`, padding kept. */
  function DnsParam(data: seq<Byte>): (s: string)
    ensures Base64Url.Decode(s) == Some(data)
  {
    Base64Url.DecodeEncode(data);
    Base64Url.Encode(data)
  }

  /** `HttpsGetClient.request` / `HttpsPostClient.request`, up to the call into the agent. */
  function MakeRequest(c: Client, data: seq<Byte>): (r: Request)
    ensures r.verb == MethodOf(c.kind) && r.headers == HeadersOf(c.kind)
    ensures c.kind == GetClient ==>
      r.body.None? && r.url == c.url.(query := c.url.query + [QueryParam("dns", DnsParam(data)), QueryParam("ct", DnsMessage)])
    ensures c.kind == PostClient ==> r.url == c.url && r.body == Some(Util.NewProducer(data))
  {
    match c.kind
    case GetClient =>
      var url := Add(Add(c.url, "dns", DnsParam(data)), "ct", DnsMessage);
      Request(Get, url, HeadersOf(GetClient), None)
    case PostClient =>
      Request(Post, c.url, HeadersOf(PostClient), Some(Util.NewProducer(data)))
  }

  /**
   What a server receives from either form is the query: the POST body is
   written in one piece and announces its length, and the GET `dns`
   parameter decodes back to it.
   */
  lemma RequestCarriesQuery(c: Client, data: seq<Byte>)
    ensures c.kind == PostClient ==>
      Concat(Util.StartProducing(MakeRequest(c, data).body.value).writes) == data &&
      MakeRequest(c, data).body.value.length == |data|
    ensures c.kind == GetClient ==>
      |MakeRequest(c, data).url.query| == |c.url.query| + 2 &&
      MakeRequest(c, data).url.query[|c.url.query|].name == "dns" &&
      Base64Url.Decode(MakeRequest(c, data).url.query[|c.url.query|].value) == Some(data)
  {
    if c.kind == PostClient {
      Util.ProducerDeliversBody(data);
    }
  }

  /**
   The `dns` parameter ends in `=` whenever the query length is not a
   multiple of three, so it is not the unpadded form section 4.1 of RFC 8484
   requires.
   */
  lemma GetParamKeepsPadding(c: Client, data: seq<Byte>)
    requires c.kind == GetClient
    ensures var dns := MakeRequest(c, data).url.query[|c.url.query|].value;
      ('=' in dns <==> |data| % 3 != 0) && (|data| % 3 != 0 ==> dns != Base64Url.EncodeUnpadded(data))
  {
    Base64Url.PaddedUnlessMultipleOfThree(data);
  }

  /**
   A 12-byte query (a header alone) has no padding. The 29-byte query for
   the A record of `example.com` (a 12-byte header, the 13-byte name, then
   type and class) ends in exactly one `=`.
   */
  lemma PaddingExamples(q: seq<Byte>)
    requires |q| == 29
    ensures '=' !in DnsParam(q[..12])
    ensures |DnsParam(q)| == 40
    ensures DnsParam(q)[39] == '=' && DnsParam(q)[38] != '='
  {
    Base64Url.PaddedUnlessMultipleOfThree(q[..12]);
    Base64Url.EncodeShape(q);
    assert Base64Url.PadCount(29) == 1;
    assert Base64Url.Groups(29) == 10;
    assert Base64Url.IsSymbol(DnsParam(q)[38]);
  }

  /** The GET form section 4.1 of RFC 8484 asks for: the `dns` value without padding. */
  function MakeRequestUnpadded(c: Client, data: seq<Byte>): (r: Request)
    requires c.kind == GetClient
    ensures r.verb == Get && r.headers == HeadersOf(GetClient) && r.body.None?
    ensures |r.url.query| == |c.url.query| + 2 && r.url.query[..|c.url.query|] == c.url.query
    ensures r.url.query[|c.url.query|].name == "dns" && '=' !in r.url.query[|c.url.query|].value
    ensures Base64Url.DecodeUnpadded(r.url.query[|c.url.query|].value) == Some(data)
    ensures r.url.query[|c.url.query| + 1] == QueryParam("ct", DnsMessage)
  {
    var dns := Base64Url.EncodeUnpadded(data);
    Base64Url.UnpaddedRoundTrip(data);
    Request(Get, Add(Add(c.url, "dns", dns), "ct", DnsMessage), HeadersOf(GetClient), None)
  }

  /** Both GET forms carry the same bytes; only the trailing `=` differ. */
  lemma UnpaddedIsPaddedWithoutPadding(c: Client, data: seq<Byte>)
    requires c.kind == GetClient
    ensures var p := MakeRequest(c, data).url.query[|c.url.query|].value;
      var u := MakeRequestUnpadded(c, data).url.query[|c.url.query|].value;
      u + Base64Url.Padding(|u|) == p
  {
  }

  /** The connection a request opens: TLS to the pinned address, verified against the URL host. */
  lemma RequestGoesToPinnedAddress(kind: Kind, uid: string, url: Url, address: string, data: seq<Byte>)
    requires url.scheme == "https"
    ensures var c := NewClient(kind, uid, url, address);
      Agent.EndpointForUri(c.agent.factory, UriOf(MakeRequest(c, data).url))
      == Some(Agent.Tls(Agent.TlsIdentity(url.host, url.port), Agent.Connection(address, url.port)))
  {
  }

  /** The transport failure `agent.request` may report instead of a response. */
  datatype TransportFailure = TransportFailure(description: string)

  /** A response: its status and the body as it arrives, ending with the given reason. */
  datatype Response = Response(code: int, chunks: seq<seq<Byte>>, ending: Util.LossReason)

  datatype AgentOutcome = Responded(response: Response) | Failed(failure: TransportFailure)

  /** What `finished` errbacks with. */
  datatype ClientError =
    | HttpsClientError(code: int, data: seq<Byte>)
    | Transport(failure: TransportFailure)

  /**
   The body as `handle_response` collects it: a fresh `Gather` with a
   `finished` deferred receives every chunk and then loses the connection.
   */
  function GatherBody(r: Response): (body: seq<Byte>)
    ensures body == Concat(r.chunks)
  {
    var g := Util.ReceivedAll(Util.NewCollector(true), r.chunks);
    Util.GatherDeliversBody(r.chunks, r.ending);
    Util.GatherConnectionLost(g, r.ending).delivered.value
  }

  /**
   `handle_response` with `return_response`/`return_error`, and
   `handle_error`: the one value `finished` is settled with.
   */
  function Settle(outcome: AgentOutcome): (r: Result<seq<Byte>, ClientError>)
    ensures r.Success? <==> outcome.Responded? && outcome.response.code == 200
    ensures r.Success? ==> r.value == Concat(outcome.response.chunks)
    ensures outcome.Responded? && outcome.response.code != 200 ==>
      r == Failure(HttpsClientError(outcome.response.code, Concat(outcome.response.chunks)))
    ensures outcome.Failed? ==> r == Failure(Transport(outcome.failure))
  {
    match outcome
    case Failed(f) => Failure(Transport(f))
    case Responded(resp) =>
      var body := GatherBody(resp);
      if resp.code == 200 then Success(body) else Failure(HttpsClientError(resp.code, body))
  }

  /** A 200 response whose body was cut off still settles as a normal answer. */
  lemma TruncatedBodyIsAnswered(chunks: seq<seq<Byte>>, description: string)
    ensures Settle(Responded(Response(200, chunks, Util.OtherLoss(description)))) == Success(Concat(chunks))
  {
  }

  /** The settlement depends only on the status and the body bytes, not on how the body was split. */
  lemma SettleIgnoresChunking(code: int, c1: seq<seq<Byte>>, c2: seq<seq<Byte>>, e1: Util.LossReason, e2: Util.LossReason)
    requires Concat(c1) == Concat(c2)
    ensures Settle(Responded(Response(code, c1, e1))) == Settle(Responded(Response(code, c2, e2)))
  {
  }
}
