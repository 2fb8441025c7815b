/**
 Start-up of the proxy (`main` in `main.py`): a fold over the configured
 upstreams that builds the registry of clients by id, then one pass over the
 UDP listeners and one over the TCP listeners, each looking up its upstream
 in the registry and binding a port to that client.

 The configuration arrives already loaded: lists and entries that may be
 absent are `Option`s. IP parsing (`ipaddress.ip_address` followed by
 `str`) is a parameter `parse` that gives the canonical text of a valid
 IPv4/IPv6 literal and `None` for anything else. Listening itself is
 recorded as a `Binding`; the reactor does not appear.

 `main` runs inside `reactor.callWhenRunning`, so an exception stops the
 remaining start-up but leaves the ports bound so far in place; the result
 therefore carries the bindings made and, separately, the error that
 stopped start-up.
 */
module Startup {
  import opened Bytes
  import HttpsClient

  /** One entry of `upstreams`: its `id`, `url`, `ip` and `method`. */
  datatype UpstreamConfig = UpstreamConfig(id: string, url: HttpsClient.Url, ip: string, methodName: string)

  /** One entry of `udp_listeners` or `tcp_listeners`. */
  datatype ListenerConfig = ListenerConfig(port: int, interface: Option<string>, upstream: Option<string>)

  /** The `server` mapping: either list may be missing. */
  datatype ServerConfig = ServerConfig(udpListeners: Option<seq<ListenerConfig>>, tcpListeners: Option<seq<ListenerConfig>>)

  datatype Config = Config(upstreams: Option<seq<UpstreamConfig>>, server: Option<ServerConfig>)

  datatype LogEntry =
    | InvalidAddress(address: string)
    | UnknownMethod(methodName: string, uid: string)

  datatype Protocol = Udp | Tcp

  datatype StartupError =
    /** The error branch for an invalid `ip` read `address` before anything assigned it. */
    | UnboundAddress
    /** `config.get('server', {}).get(...)` gave `None` and the loop could not iterate it. */
    | MissingListeners(protocol: Protocol)
    /** `upstreams[uid]` with an id the registry does not hold (`None` when the entry had no `upstream`). */
    | UnknownUpstream(uid: Option<string>)

  /** The loop's state: the registry, the variable `address`, and what was logged. */
  datatype Registry = Registry(entries: map<string, HttpsClient.Client>, address: Option<string>, log: seq<LogEntry>)

  /** The client class a `method` names. */
  function KindOf(methodName: string): (k: Option<HttpsClient.Kind>)
    ensures k.Some? <==> methodName == "https_post" || methodName == "https_get"
    ensures k == Some(HttpsClient.PostClient) <==> methodName == "https_post"
  {
    if methodName == "https_post" then Some(HttpsClient.PostClient)
    else if methodName == "https_get" then Some(HttpsClient.GetClient)
    else None
  }

  /** An upstream the loop stores: its `ip` parses and its `method` is known. */
  predicate Accepted(u: UpstreamConfig, parse: string -> Option<string>)
  {
    parse(u.ip).Some? && KindOf(u.methodName).Some?
  }

  /** The client stored for an accepted upstream: built with the canonical address. */
  function ClientFor(u: UpstreamConfig, parse: string -> Option<string>): (c: HttpsClient.Client)
    requires Accepted(u, parse)
    ensures c.uid == u.id && c.url == u.url && c.address == parse(u.ip).value
    ensures c.kind == KindOf(u.methodName).value
  {
    HttpsClient.NewClient(KindOf(u.methodName).value, u.id, u.url, parse(u.ip).value)
  }

  /**
   One pass of the upstream loop. An invalid `ip` logs the value `address`
   still holds from an earlier pass and skips the entry; with no earlier
   value the error branch fails. A valid `ip` rebinds `address` even when
   the method then turns out to be unknown.
   */
  function Absorb(st: Registry, u: UpstreamConfig, parse: string -> Option<string>): (r: Result<Registry, StartupError>)
    ensures r.Failure? <==> parse(u.ip).None? && st.address.None?
    ensures r.Failure? ==> r.error == UnboundAddress
    ensures r.Success? ==> r.value.address.Some?
    ensures r.Success? && parse(u.ip).Some? ==> r.value.address == parse(u.ip)
    ensures r.Success? && parse(u.ip).None? ==> r.value.address == st.address
    ensures r.Success? && Accepted(u, parse) ==>
      r.value.entries == st.entries[u.id := ClientFor(u, parse)] && r.value.log == st.log
    ensures r.Success? && !Accepted(u, parse) ==> r.value.entries == st.entries
    ensures r.Success? && parse(u.ip).None? ==> r.value.log == st.log + [InvalidAddress(st.address.value)]
    ensures r.Success? && parse(u.ip).Some? && !Accepted(u, parse) ==>
      r.value.log == st.log + [UnknownMethod(u.methodName, u.id)]
  {
    match parse(u.ip)
    case None =>
      if st.address.None? then Failure(UnboundAddress)
      else Success(st.(log := st.log + [InvalidAddress(st.address.value)]))
    case Some(address) =>
      var st1 := st.(address := Some(address));
      match KindOf(u.methodName)
      case Some(kind) =>
        Success(st1.(entries := st1.entries[u.id := HttpsClient.NewClient(kind, u.id, u.url, address)]))
      case None =>
        Success(st1.(log := st1.log + [UnknownMethod(u.methodName, u.id)]))
  }

  /**
   The loop over the remaining upstreams. The only way it can fail is the
   unbound `address`, and once `address` is bound it stays bound.
   */
  function Fold(st: Registry, ups: seq<UpstreamConfig>, parse: string -> Option<string>): (r: Result<Registry, StartupError>)
    ensures r.Failure? ==> r.error == UnboundAddress
    ensures r.Success? && st.address.Some? ==> r.value.address.Some?
    decreases |ups|
  {
    if |ups| == 0 then Success(st)
    else match Absorb(st, ups[0], parse)
      case Failure(e) => Failure(e)
      case Success(st1) => Fold(st1, ups[1..], parse)
  }

  const Empty: Registry := Registry(map[], None, [])

  /** Lines 31-55: the registry built from the configured upstreams. */
  function BuildRegistry(ups: seq<UpstreamConfig>, parse: string -> Option<string>): Result<Registry, StartupError>
  {
    Fold(Empty, ups, parse)
  }

  /** Once `address` holds a value, no later pass can fail. */
  lemma {:induction false} FoldNeverFailsOnceBound(st: Registry, ups: seq<UpstreamConfig>, parse: string -> Option<string>)
    requires st.address.Some?
    ensures Fold(st, ups, parse).Success?
    decreases |ups|
  {
    if |ups| > 0 {
      FoldNeverFailsOnceBound(Absorb(st, ups[0], parse).value, ups[1..], parse);
    }
  }

  /** Building the registry fails exactly when the first upstream's `ip` is invalid. */
  lemma BuildFailsIffFirstIpInvalid(ups: seq<UpstreamConfig>, parse: string -> Option<string>)
    ensures BuildRegistry(ups, parse).Failure? <==> |ups| > 0 && parse(ups[0].ip).None?
    ensures BuildRegistry(ups, parse).Failure? ==> BuildRegistry(ups, parse).error == UnboundAddress
  {
    if |ups| > 0 && parse(ups[0].ip).Some? {
      FoldNeverFailsOnceBound(Absorb(Empty, ups[0], parse).value, ups[1..], parse);
    }
  }

  /** Some upstream in `ups` is accepted and has id `k`. */
  predicate SomeAccepted(ups: seq<UpstreamConfig>, parse: string -> Option<string>, k: string)
  {
    exists i :: 0 <= i < |ups| && Accepted(ups[i], parse) && ups[i].id == k
  }

  lemma SomeAcceptedCons(ups: seq<UpstreamConfig>, parse: string -> Option<string>, k: string)
    requires |ups| > 0
    ensures SomeAccepted(ups, parse, k) <==> (Accepted(ups[0], parse) && ups[0].id == k) || SomeAccepted(ups[1..], parse, k)
  {
    if SomeAccepted(ups[1..], parse, k) {
      var i :| 0 <= i < |ups[1..]| && Accepted(ups[1..][i], parse) && ups[1..][i].id == k;
      assert ups[i + 1] == ups[1..][i];
    }
    if SomeAccepted(ups, parse, k) {
      var i :| 0 <= i < |ups| && Accepted(ups[i], parse) && ups[i].id == k;
      if i > 0 {
        assert ups[1..][i - 1] == ups[i];
      }
    }
  }

  /** An id is in the registry exactly when it was there already or some accepted upstream has it. */
  lemma {:induction false} FoldKeys(st: Registry, ups: seq<UpstreamConfig>, parse: string -> Option<string>, k: string)
    requires Fold(st, ups, parse).Success?
    ensures k in Fold(st, ups, parse).value.entries <==> k in st.entries || SomeAccepted(ups, parse, k)
    decreases |ups|
  {
    if |ups| > 0 {
      var st1 := Absorb(st, ups[0], parse).value;
      FoldKeys(st1, ups[1..], parse, k);
      SomeAcceptedCons(ups, parse, k);
    }
  }

  /** On success, the registry's ids are exactly those of the accepted upstreams. */
  lemma RegistryKeys(ups: seq<UpstreamConfig>, parse: string -> Option<string>, k: string)
    requires BuildRegistry(ups, parse).Success?
    ensures k in BuildRegistry(ups, parse).value.entries <==> SomeAccepted(ups, parse, k)
  {
    FoldKeys(Empty, ups, parse, k);
  }

  /** No upstream after position `i` is accepted with the same id. */
  predicate LastWithId(ups: seq<UpstreamConfig>, parse: string -> Option<string>, i: int)
    requires 0 <= i < |ups|
  {
    forall j :: i < j < |ups| ==> !(Accepted(ups[j], parse) && ups[j].id == ups[i].id)
  }

  /** Entries no later upstream touches are kept. */
  lemma {:induction false} FoldKeepsUntouched(st: Registry, ups: seq<UpstreamConfig>, parse: string -> Option<string>, k: string)
    requires Fold(st, ups, parse).Success? && k in st.entries
    requires forall j :: 0 <= j < |ups| ==> !(Accepted(ups[j], parse) && ups[j].id == k)
    ensures k in Fold(st, ups, parse).value.entries && Fold(st, ups, parse).value.entries[k] == st.entries[k]
    decreases |ups|
  {
    if |ups| > 0 {
      var st1 := Absorb(st, ups[0], parse).value;
      assert !(Accepted(ups[0], parse) && ups[0].id == k);
      forall j | 0 <= j < |ups[1..]|
        ensures !(Accepted(ups[1..][j], parse) && ups[1..][j].id == k)
      {
        assert ups[1..][j] == ups[j + 1];
      }
      FoldKeepsUntouched(st1, ups[1..], parse, k);
    }
  }

  /** The stored client comes from the last accepted upstream with that id: later entries overwrite. */
  lemma {:induction false} FoldLastWins(st: Registry, ups: seq<UpstreamConfig>, parse: string -> Option<string>, i: int)
    requires Fold(st, ups, parse).Success?
    requires 0 <= i < |ups| && Accepted(ups[i], parse) && LastWithId(ups, parse, i)
    ensures ups[i].id in Fold(st, ups, parse).value.entries
    ensures Fold(st, ups, parse).value.entries[ups[i].id] == ClientFor(ups[i], parse)
    decreases |ups|
  {
    var st1 := Absorb(st, ups[0], parse).value;
    if i == 0 {
      assert st1.entries[ups[0].id] == ClientFor(ups[0], parse);
      FoldKeepsUntouched(st1, ups[1..], parse, ups[0].id);
    } else {
      assert ups[1..][i - 1] == ups[i];
      assert LastWithId(ups[1..], parse, i - 1) by {
        forall j | i - 1 < j < |ups[1..]|
          ensures !(Accepted(ups[1..][j], parse) && ups[1..][j].id == ups[i].id)
        {
          assert ups[1..][j] == ups[j + 1];
        }
      }
      FoldLastWins(st1, ups[1..], parse, i - 1);
    }
  }

  /** The registry maps each id to the client built from its last accepted upstream. */
  lemma RegistryValues(ups: seq<UpstreamConfig>, parse: string -> Option<string>, i: int)
    requires BuildRegistry(ups, parse).Success?
    requires 0 <= i < |ups| && Accepted(ups[i], parse) && LastWithId(ups, parse, i)
    ensures ups[i].id in BuildRegistry(ups, parse).value.entries
    ensures BuildRegistry(ups, parse).value.entries[ups[i].id].address == parse(ups[i].ip).value
    ensures BuildRegistry(ups, parse).value.entries[ups[i].id] == ClientFor(ups[i], parse)
  {
    FoldLastWins(Empty, ups, parse, i);
  }

  /** What a listener binds: `interface` defaults to the empty string. */
  datatype Binding = Binding(protocol: Protocol, port: int, interface: string, client: HttpsClient.Client)

  /** `upstreams[uid]` succeeds for this listener. */
  predicate Resolves(l: ListenerConfig, entries: map<string, HttpsClient.Client>)
  {
    l.upstream.Some? && l.upstream.value in entries
  }

  function BindingFor(p: Protocol, l: ListenerConfig, entries: map<string, HttpsClient.Client>): (b: Binding)
    requires Resolves(l, entries)
    ensures b.protocol == p && b.port == l.port && b.client == entries[l.upstream.value]
    ensures b.interface == (if l.interface.Some? then l.interface.value else "")
  {
    Binding(p, l.port, if l.interface.Some? then l.interface.value else "", entries[l.upstream.value])
  }

  /** The bindings one listener loop made, and the error that stopped it, if any. */
  datatype Bound = Bound(bindings: seq<Binding>, error: Option<StartupError>)

  /**
   One listener loop (lines 60-65 or 67-72): listeners are bound in order
   until one names an id the registry lacks.
   */
  function BindAll(p: Protocol, ls: seq<ListenerConfig>, entries: map<string, HttpsClient.Client>): (r: Bound)
    ensures r.error.None? <==> forall i :: 0 <= i < |ls| ==> Resolves(ls[i], entries)
    ensures r.error.None? ==> |r.bindings| == |ls|
    ensures r.error.Some? ==>
      |r.bindings| < |ls| && !Resolves(ls[|r.bindings|], entries) &&
      r.error.value == UnknownUpstream(ls[|r.bindings|].upstream)
    ensures |r.bindings| <= |ls|
    ensures forall i :: 0 <= i < |r.bindings| ==> Resolves(ls[i], entries) && r.bindings[i] == BindingFor(p, ls[i], entries)
    decreases |ls|
  {
    if |ls| == 0 then Bound([], None)
    else if !Resolves(ls[0], entries) then Bound([], Some(UnknownUpstream(ls[0].upstream)))
    else
      var rest := BindAll(p, ls[1..], entries);
      assert forall i :: 1 <= i < |ls| ==> ls[i] == ls[1..][i - 1];
      Bound([BindingFor(p, ls[0], entries)] + rest.bindings, rest.error)
  }

  /** Everything `main` did: the registry, its log, the ports bound, and the error that stopped it. */
  datatype Outcome = Outcome(registry: Registry, bindings: seq<Binding>, error: Option<StartupError>)

  /** A listener list, or the error of iterating `None`. */
  function Listeners(server: Option<ServerConfig>, p: Protocol): Option<seq<ListenerConfig>>
  {
    if server.None? then None
    else if p == Udp then server.value.udpListeners
    else server.value.tcpListeners
  }

  /** `main`: the registry loop, then the UDP listeners, then the TCP listeners. */
  function Start(config: Config, parse: string -> Option<string>): (o: Outcome)
    ensures BuildRegistry(UpstreamsOf(config), parse).Failure? ==>
      o.error == Some(BuildRegistry(UpstreamsOf(config), parse).error) && o.bindings == []
    ensures BuildRegistry(UpstreamsOf(config), parse).Success? ==>
      o.registry == BuildRegistry(UpstreamsOf(config), parse).value
    ensures o.error.None? ==>
      && BuildRegistry(UpstreamsOf(config), parse).Success?
      && Listeners(config.server, Udp).Some? && Listeners(config.server, Tcp).Some?
      && var udp, tcp := Listeners(config.server, Udp).value, Listeners(config.server, Tcp).value;
         && |o.bindings| == |udp| + |tcp|
         && (forall i :: 0 <= i < |udp| ==>
               Resolves(udp[i], o.registry.entries) && o.bindings[i] == BindingFor(Udp, udp[i], o.registry.entries))
         && (forall i :: 0 <= i < |tcp| ==>
               Resolves(tcp[i], o.registry.entries) && o.bindings[|udp| + i] == BindingFor(Tcp, tcp[i], o.registry.entries))
    ensures o.error.None? <==>
      && BuildRegistry(UpstreamsOf(config), parse).Success?
      && Listeners(config.server, Udp).Some? && Listeners(config.server, Tcp).Some?
      && var entries := BuildRegistry(UpstreamsOf(config), parse).value.entries;
         var udp, tcp := Listeners(config.server, Udp).value, Listeners(config.server, Tcp).value;
         && (forall i :: 0 <= i < |udp| ==> Resolves(udp[i], entries))
         && (forall i :: 0 <= i < |tcp| ==> Resolves(tcp[i], entries))
    ensures BuildRegistry(UpstreamsOf(config), parse).Success? && Listeners(config.server, Udp).None? ==>
      o.error == Some(MissingListeners(Udp))
    ensures
      (&& BuildRegistry(UpstreamsOf(config), parse).Success?
       && Listeners(config.server, Udp).Some? && Listeners(config.server, Tcp).None?
       && var entries := BuildRegistry(UpstreamsOf(config), parse).value.entries;
          forall l :: l in Listeners(config.server, Udp).value ==> Resolves(l, entries))
      ==> o.error == Some(MissingListeners(Tcp))
    ensures forall i, j :: 0 <= i < j < |o.bindings| && o.bindings[j].protocol == Udp ==> o.bindings[i].protocol == Udp
    ensures o.error == Some(UnboundAddress) || o.error == Some(MissingListeners(Udp)) ==> o.bindings == []
    ensures o.error == Some(MissingListeners(Tcp)) ==>
      && Listeners(config.server, Udp).Some?
      && var udp := Listeners(config.server, Udp).value;
         && |o.bindings| == |udp|
         && forall i :: 0 <= i < |udp| ==>
              Resolves(udp[i], o.registry.entries) && o.bindings[i] == BindingFor(Udp, udp[i], o.registry.entries)
  {
    var ups := UpstreamsOf(config);
    match BuildRegistry(ups, parse)
    case Failure(e) => Outcome(Empty, [], Some(e))
    case Success(reg) =>
      match Listeners(config.server, Udp)
      case None => Outcome(reg, [], Some(MissingListeners(Udp)))
      case Some(udp) =>
        var u := BindAll(Udp, udp, reg.entries);
        if u.error.Some? then Outcome(reg, u.bindings, u.error)
        else
          match Listeners(config.server, Tcp)
          case None => Outcome(reg, u.bindings, Some(MissingListeners(Tcp)))
          case Some(tcp) =>
            var t := BindAll(Tcp, tcp, reg.entries);
            Outcome(reg, u.bindings + t.bindings, t.error)
  }

  /** The upstream list `main` folds over: `config.get('upstreams', [])`. */
  function UpstreamsOf(config: Config): seq<UpstreamConfig>
  {
    if config.upstreams.Some? then config.upstreams.value else []
  }

  /**
   A UDP listener naming an unknown upstream stops start-up after the UDP
   listeners before it are bound, and before any TCP listener.
   */
  lemma UnknownUdpUpstream(config: Config, parse: string -> Option<string>, k: int)
    requires BuildRegistry(UpstreamsOf(config), parse).Success?
    requires Listeners(config.server, Udp).Some?
    requires var udp := Listeners(config.server, Udp).value; var entries := BuildRegistry(UpstreamsOf(config), parse).value.entries;
      0 <= k < |udp| && !Resolves(udp[k], entries) && forall i :: 0 <= i < k ==> Resolves(udp[i], entries)
    ensures var udp := Listeners(config.server, Udp).value; var entries := BuildRegistry(UpstreamsOf(config), parse).value.entries;
      var o := Start(config, parse);
      o.error == Some(UnknownUpstream(udp[k].upstream)) && |o.bindings| == k &&
      forall i :: 0 <= i < k ==> o.bindings[i] == BindingFor(Udp, udp[i], entries)
  {
  }

  /**
   A TCP listener naming an unknown upstream stops start-up after every UDP
   listener and the TCP listeners before it are bound.
   */
  lemma UnknownTcpUpstream(config: Config, parse: string -> Option<string>, k: int)
    requires BuildRegistry(UpstreamsOf(config), parse).Success?
    requires Listeners(config.server, Udp).Some? && Listeners(config.server, Tcp).Some?
    requires var udp := Listeners(config.server, Udp).value; var entries := BuildRegistry(UpstreamsOf(config), parse).value.entries;
      forall i :: 0 <= i < |udp| ==> Resolves(udp[i], entries)
    requires var tcp := Listeners(config.server, Tcp).value; var entries := BuildRegistry(UpstreamsOf(config), parse).value.entries;
      0 <= k < |tcp| && !Resolves(tcp[k], entries) && forall i :: 0 <= i < k ==> Resolves(tcp[i], entries)
    ensures var udp := Listeners(config.server, Udp).value; var tcp := Listeners(config.server, Tcp).value;
      var entries := BuildRegistry(UpstreamsOf(config), parse).value.entries;
      var o := Start(config, parse);
      o.error == Some(UnknownUpstream(tcp[k].upstream)) && |o.bindings| == |udp| + k &&
      (forall i :: 0 <= i < |udp| ==> o.bindings[i] == BindingFor(Udp, udp[i], entries)) &&
      (forall i :: 0 <= i < k ==> o.bindings[|udp| + i] == BindingFor(Tcp, tcp[i], entries))
  {
    var entries := BuildRegistry(UpstreamsOf(config), parse).value.entries;
    var u := BindAll(Udp, Listeners(config.server, Udp).value, entries);
    var t := BindAll(Tcp, Listeners(config.server, Tcp).value, entries);
    assert Start(config, parse).bindings == u.bindings + t.bindings;
  }

  /** A configuration without a `server` mapping binds nothing and fails on the UDP loop. */
  lemma MissingServerFails(config: Config, parse: string -> Option<string>)
    requires config.server.None? && BuildRegistry(UpstreamsOf(config), parse).Success?
    ensures Start(config, parse).error == Some(MissingListeners(Udp)) && Start(config, parse).bindings == []
  {
  }

  /**
   The pass the error branch evidently intends: an invalid `ip` is logged
   with the offending text and the entry skipped, wherever it appears.
   */
  function AbsorbFixed(st: Registry, u: UpstreamConfig, parse: string -> Option<string>): (r: Registry)
    ensures Accepted(u, parse) ==> r.entries == st.entries[u.id := ClientFor(u, parse)]
    ensures !Accepted(u, parse) ==> r.entries == st.entries
    ensures parse(u.ip).None? ==> r.log == st.log + [InvalidAddress(u.ip)]
  {
    match parse(u.ip)
    case None => st.(log := st.log + [InvalidAddress(u.ip)])
    case Some(address) =>
      var st1 := st.(address := Some(address));
      match KindOf(u.methodName)
      case Some(kind) =>
        st1.(entries := st1.entries[u.id := HttpsClient.NewClient(kind, u.id, u.url, address)])
      case None =>
        st1.(log := st1.log + [UnknownMethod(u.methodName, u.id)])
  }

  function FoldFixed(st: Registry, ups: seq<UpstreamConfig>, parse: string -> Option<string>): Registry
    decreases |ups|
  {
    if |ups| == 0 then st else FoldFixed(AbsorbFixed(st, ups[0], parse), ups[1..], parse)
  }

  /** The registry loop without the unbound-variable failure: it always produces a registry. */
  function BuildRegistryFixed(ups: seq<UpstreamConfig>, parse: string -> Option<string>): Registry
  {
    FoldFixed(Empty, ups, parse)
  }

  /** The corrected loop stores an upstream exactly when it is accepted, whatever came before it. */
  lemma {:induction false} FoldFixedKeys(st: Registry, ups: seq<UpstreamConfig>, parse: string -> Option<string>, k: string)
    ensures k in FoldFixed(st, ups, parse).entries <==> k in st.entries || SomeAccepted(ups, parse, k)
    decreases |ups|
  {
    if |ups| > 0 {
      FoldFixedKeys(AbsorbFixed(st, ups[0], parse), ups[1..], parse, k);
      SomeAcceptedCons(ups, parse, k);
    }
  }

  lemma FixedRegistryKeys(ups: seq<UpstreamConfig>, parse: string -> Option<string>, k: string)
    ensures k in BuildRegistryFixed(ups, parse).entries <==> SomeAccepted(ups, parse, k)
  {
    FoldFixedKeys(Empty, ups, parse, k);
  }

  /** Where the written loop succeeds, the corrected one builds the same registry. */
  lemma {:induction false} FoldFixedAgrees(st: Registry, st': Registry, ups: seq<UpstreamConfig>, parse: string -> Option<string>)
    requires Fold(st, ups, parse).Success? && st.entries == st'.entries
    ensures FoldFixed(st', ups, parse).entries == Fold(st, ups, parse).value.entries
    decreases |ups|
  {
    if |ups| > 0 {
      FoldFixedAgrees(Absorb(st, ups[0], parse).value, AbsorbFixed(st', ups[0], parse), ups[1..], parse);
    }
  }

  lemma FixedRegistryAgrees(ups: seq<UpstreamConfig>, parse: string -> Option<string>)
    requires BuildRegistry(ups, parse).Success?
    ensures BuildRegistryFixed(ups, parse).entries == BuildRegistry(ups, parse).value.entries
  {
    FoldFixedAgrees(Empty, Empty, ups, parse);
  }
}
