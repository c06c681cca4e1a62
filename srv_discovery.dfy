/**
 * The SRV unicast hosts provider: it builds a composite DNS resolver from the
 * configured name servers, looks up the SRV records of the configured query,
 * drops the records that point at this machine, and turns the rest into
 * discovery nodes.
 *
 * Everything the provider asks of the outside world is a parameter here:
 * whether dnsjava can build a resolver (`canResolve`, `canCombine`), the SRV
 * lookup (`lookup`), forward resolution of a host name (`resolve`), the
 * addresses bound to the local network interfaces (`interfaces`) and the
 * transport layer's address parser (`transportService`).
 */
module SrvDiscovery {
  import opened Wrappers
  import opened JavaText
  import opened Seqs

  /** Protocol used when `discovery.srv.protocol` is not set. */
  const DEFAULT_PROTOCOL := "tcp"
  /** Prefix of the identifier of every node this provider emits. */
  const NODE_ID_PREFIX := "#srv-"
  /** Message of the exception thrown when no resolver could be built. */
  const NO_RESOLVERS := "Unable to find resolvers"
  /** The largest port a resolver's socket address accepts. */
  const MAX_PORT := 0xFFFF
  /** The port a resolver entry starts with before its port field is read. */
  const UNSET_PORT := -1

  /** The `discovery.srv.*` settings; `None` is a key that is not set. */
  datatype Settings = Settings(
    query: Option<string>,          // discovery.srv.query
    servers: seq<string>,           // discovery.srv.servers, empty when unset
    protocol: Option<string>,       // discovery.srv.protocol
    consulPostfix: Option<string>)  // discovery.srv.consulpostfix

  /** An SRV port: an unsigned 16-bit number. */
  type Port = p: int | 0 <= p < 0x1_0000

  /** An SRV record: the target host name (absolute, so usually ending in '.') and its port. */
  datatype SrvRecord = SrvRecord(target: string, port: Port)

  /** A resolver for one name server; `port` is `Some(p)` when `setPort(p)` was called, else the DNS default. */
  datatype SimpleResolver = SimpleResolver(host: Option<string>, port: Option<int>)

  /** The composite resolver that sends a query to all of its name servers. */
  datatype ExtendedResolver = ExtendedResolver(resolvers: seq<SimpleResolver>, tcp: bool)

  /** A connectable address produced by the transport layer. */
  datatype TransportAddress = TransportAddress(host: string, port: int)

  /** The version attached to every emitted node. */
  datatype Version = Version(id: int)

  datatype DiscoveryNode = DiscoveryNode(id: string, address: TransportAddress, version: Version)

  /** What an SRV lookup gives: the query was no valid DNS name, or `run()` returned (possibly null). */
  datatype LookupResult = TextParseError | Answer(records: Option<seq<SrvRecord>>)

  /** Outcome of `buildDynamicNodes`: the node list, or the NullPointerException that escapes it. */
  datatype Discovery = Nodes(nodes: seq<DiscoveryNode>) | NullPointerThrown

  // ---------------------------------------------------------------------
  // Resolver set
  // ---------------------------------------------------------------------

  /** Host and port read from one `host[:port]` entry of `discovery.srv.servers`. */
  datatype Endpoint = Endpoint(host: Option<string>, port: int)

  /**
   * Splits an entry on ':': the host is the first part, the port the second if
   * it parses. The host is the text before the first ':', and only an entry
   * made of colons alone (":", "::", ...) has none.
   */
  function ParseEndpoint(address: string): (e: Endpoint)
    ensures e.host == if address != "" && AllSeparators(address, ':') then None else Some(Before(address, ':'))
  {
    var parts := Split(address, ':');
    assert parts == [] <==> address != "" && AllSeparators(address, ':') by {
      SplitEmpty(address, ':');
    }
    assert |parts| > 0 ==> parts[0] == Before(address, ':') by {
      if |parts| > 0 {
        SplitFirst(address, ':');
      }
    }
    var host := if |parts| > 0 then Some(parts[0]) else None;
    var port := if |parts| > 1 then ParseInt(parts[1]).GetOr(UNSET_PORT) else UNSET_PORT;
    Endpoint(host, port)
  }

  /** The port set on the resolver: only a positive one is applied. */
  function AppliedPort(e: Endpoint): Option<int> {
    if e.port > 0 then Some(e.port) else None
  }

  /**
   * The entry names a host dnsjava accepts but a port above `MAX_PORT`: setting
   * that port on the resolver throws an `IllegalArgumentException`, which the
   * handler for unknown hosts does not catch.
   */
  predicate PortRejected(address: string, canResolve: Option<string> -> bool) {
    var e := ParseEndpoint(address);
    canResolve(e.host) && e.port > MAX_PORT
  }

  function PortRejectedOf(canResolve: Option<string> -> bool): string -> bool {
    address => PortRejected(address, canResolve)
  }

  /** No entry has its port rejected. */
  predicate NoPortRejected(addresses: seq<string>, canResolve: Option<string> -> bool) {
    NoneSatisfy(addresses, PortRejectedOf(canResolve))
  }

  /** Why building the resolver, and so the provider, fails. */
  datatype BuildError =
    | RuntimeError(message: string)     // thrown by buildResolver itself
    | IllegalArgument(port: int)        // thrown by setting an out-of-range port

  /** The resolver one entry yields, or `None` when dnsjava cannot build it. */
  function NameServer(address: string, canResolve: Option<string> -> bool): Option<SimpleResolver> {
    var e := ParseEndpoint(address);
    if canResolve(e.host) then Some(SimpleResolver(e.host, AppliedPort(e))) else None
  }

  function NameServerOf(canResolve: Option<string> -> bool): string -> Option<SimpleResolver> {
    address => NameServer(address, canResolve)
  }

  /** The resolvers collected from the entries, in configured order. */
  function NameServers(addresses: seq<string>, canResolve: Option<string> -> bool): seq<SimpleResolver> {
    FilterMap(addresses, NameServerOf(canResolve))
  }

  /** The protocol setting, `"tcp"` when unset. */
  function Protocol(settings: Settings): string {
    settings.protocol.GetOr(DEFAULT_PROTOCOL)
  }

  /** Reliable transport is asked for by exactly the string "tcp". */
  predicate IsTCP(protocol: string) {
    protocol == "tcp"
  }

  /** The host and port read from one entry, a malformed port leaving the port unset. */
  method ParseEntry(address: string) returns (host: Option<string>, port: int)
    ensures Endpoint(host, port) == ParseEndpoint(address)
  {
    host := None;
    port := UNSET_PORT;
    var parts := Split(address, ':');
    if |parts| > 0 {
      host := Some(parts[0]);
      if |parts| > 1 {
        var parsed := ParseInt(parts[1]);
        if parsed.Some? {
          port := parsed.value;
        }
      }
    }
  }

  /** Reading one more entry adds the resolver it yields, if any, to those collected so far. */
  lemma NameServersStep(addresses: seq<string>, i: nat, canResolve: Option<string> -> bool,
                        host: Option<string>, port: int)
    requires i < |addresses| && Endpoint(host, port) == ParseEndpoint(addresses[i])
    ensures NameServers(addresses[..i + 1], canResolve)
         == NameServers(addresses[..i], canResolve)
            + (if canResolve(host) then [SimpleResolver(host, AppliedPort(Endpoint(host, port)))] else [])
  {
    assert addresses[..i + 1] == addresses[..i] + [addresses[i]];
    FilterMapSnoc(addresses[..i], addresses[i], NameServerOf(canResolve));
  }

  /** Whether one more entry has its port rejected depends on that entry alone. */
  lemma PortRejectedStep(addresses: seq<string>, i: nat, canResolve: Option<string> -> bool,
                         host: Option<string>, port: int)
    requires i < |addresses| && Endpoint(host, port) == ParseEndpoint(addresses[i])
    ensures PortRejected(addresses[i], canResolve) <==> canResolve(host) && port > MAX_PORT
    ensures NoPortRejected(addresses[..i + 1], canResolve)
        <==> NoPortRejected(addresses[..i], canResolve) && !PortRejected(addresses[i], canResolve)
    ensures PortRejected(addresses[i], canResolve) ==> !NoPortRejected(addresses, canResolve)
  {
    RejectedPrefix(addresses, i, PortRejectedOf(canResolve));
  }

  lemma RejectedPrefix(addresses: seq<string>, i: nat, rejected: string -> bool)
    requires i < |addresses|
    ensures NoneSatisfy(addresses[..i + 1], rejected)
        <==> NoneSatisfy(addresses[..i], rejected) && !rejected(addresses[i])
    ensures rejected(addresses[i]) ==> !NoneSatisfy(addresses, rejected)
  {
    assert addresses[..i + 1] == addresses[..i] + [addresses[i]];
    NoneSatisfySnoc(addresses[..i], addresses[i], rejected);
  }

  /**
   * buildResolver: one resolver per entry that dnsjava accepts, combined into
   * an extended resolver; it throws when no entry gave a resolver and yields
   * no resolver (the system default is used) when the combination fails.
   * The first accepted entry with a port above `MAX_PORT` ends it with the
   * exception that setting that port throws.
   */
  method BuildResolver(settings: Settings, canResolve: Option<string> -> bool, canCombine: seq<SimpleResolver> -> bool)
    returns (r: Result<Option<ExtendedResolver>, BuildError>)
    ensures (r.Failure? && r.error.IllegalArgument?) <==> !NoPortRejected(settings.servers, canResolve)
    ensures r.Failure? && r.error.IllegalArgument? ==>
      exists i :: && 0 <= i < |settings.servers| && PortRejected(settings.servers[i], canResolve)
                  && r.error.port == ParseEndpoint(settings.servers[i]).port
                  && NoPortRejected(settings.servers[..i], canResolve)
    ensures NoPortRejected(settings.servers, canResolve) ==>
      var rs := NameServers(settings.servers, canResolve);
      && (r.Failure? <==> rs == [])
      && (r.Failure? ==> r.error == RuntimeError(NO_RESOLVERS))
      && (r.Success? ==> (r.value.Some? <==> canCombine(rs)))
      && (r.Success? && r.value.Some? ==> r.value.value.resolvers == rs)
    ensures r.Success? && r.value.Some? ==>
      (r.value.value.tcp <==> settings.protocol.None? || settings.protocol == Some("tcp"))
  {
    var addresses := settings.servers;
    var protocol := settings.protocol.GetOr(DEFAULT_PROTOCOL);
    var resolvers: seq<SimpleResolver> := [];
    for i := 0 to |addresses|
      invariant resolvers == NameServers(addresses[..i], canResolve)
      invariant NoPortRejected(addresses[..i], canResolve)
    {
      var address := addresses[i];
      var host, port := ParseEntry(address);
      if canResolve(host) {
        var resolver := SimpleResolver(host, None);
        if port > 0 {
          if port > MAX_PORT {
            PortRejectedStep(addresses, i, canResolve, host, port);
            return Failure(IllegalArgument(port));
          }
          resolver := resolver.(port := Some(port));
        }
        assert resolver == SimpleResolver(host, AppliedPort(Endpoint(host, port)));
        resolvers := resolvers + [resolver];
      }
      NameServersStep(addresses, i, canResolve, host, port);
      PortRejectedStep(addresses, i, canResolve, host, port);
    }
    assert addresses[..|addresses|] == addresses;
    if |resolvers| > 0 {
      if canCombine(resolvers) {
        var parent := ExtendedResolver(resolvers, false);
        if IsTCP(protocol) {
          parent := parent.(tcp := true);
        }
        r := Success(Some(parent));
      } else {
        r := Success(None);
      }
    } else {
      r := Failure(RuntimeError(NO_RESOLVERS));
    }
  }

  // ---------------------------------------------------------------------
  // Records and nodes
  // ---------------------------------------------------------------------

  /**
   * The host name both the local filter and the translation derive from an
   * SRV target: one trailing '.' dropped, then every occurrence of a
   * non-empty postfix removed.
   */
  function NormalizeHost(target: string, postfix: string): (h: string)
    ensures |h| <= |target|
  {
    var name := StripTrailingDot(target);
    if postfix == "" then name else RemoveAll(name, postfix)
  }

  /** Some address bound to some local interface has the text `ip`. */
  predicate IsLocalAddress(ip: string, interfaces: seq<seq<string>>) {
    exists n, k :: 0 <= n < |interfaces| && 0 <= k < |interfaces[n]| && interfaces[n][k] == ip
  }

  /** The record's host resolves, and not to a local address. */
  predicate IsRemote(record: SrvRecord, postfix: string, resolve: string -> Option<string>, interfaces: seq<seq<string>>) {
    var ip := resolve(NormalizeHost(record.target, postfix));
    ip.Some? && !IsLocalAddress(ip.value, interfaces)
  }

  function RemoteTest(postfix: string, resolve: string -> Option<string>,
                      interfaces: seq<seq<string>>): SrvRecord -> bool {
    record => IsRemote(record, postfix, resolve, interfaces)
  }

  /** The records filterOutOwnRecord keeps, in input order. */
  function RemoteRecords(records: seq<SrvRecord>, postfix: string, resolve: string -> Option<string>,
                         interfaces: seq<seq<string>>): seq<SrvRecord> {
    Filter(records, RemoteTest(postfix, resolve, interfaces))
  }

  /** The "host:port" text a record is translated from. */
  function HostPort(record: SrvRecord, postfix: string): string {
    NormalizeHost(record.target, postfix) + ":" + NatToString(record.port)
  }

  /** The node parseRecords emits for one record, or `None` when the transport layer rejects it. */
  function NodeFor(record: SrvRecord, postfix: string, transport: string -> Option<seq<TransportAddress>>,
                   version: Version): Option<DiscoveryNode>
  {
    var address := HostPort(record, postfix);
    match transport(address)
    case Some(addresses) =>
      if |addresses| > 0 then Some(DiscoveryNode(NODE_ID_PREFIX + address, addresses[0], version)) else None
    case None => None
  }

  function NodeOf(postfix: string, transport: string -> Option<seq<TransportAddress>>,
                  version: Version): SrvRecord -> Option<DiscoveryNode> {
    record => NodeFor(record, postfix, transport, version)
  }

  /** The nodes parseRecords emits, in input order. */
  function TranslatedNodes(records: seq<SrvRecord>, postfix: string,
                           transport: string -> Option<seq<TransportAddress>>, version: Version): seq<DiscoveryNode> {
    FilterMap(records, NodeOf(postfix, transport, version))
  }

  /** One discovery cycle: lookup, local filter, translation. */
  function Discover(query: Option<string>, postfix: Option<string>, resolver: Option<ExtendedResolver>,
                    transport: string -> Option<seq<TransportAddress>>, version: Version,
                    lookup: (string, Option<ExtendedResolver>) -> LookupResult,
                    resolve: string -> Option<string>, interfaces: seq<seq<string>>): Discovery
  {
    if query.None? then Nodes([])
    else
      match lookup(query.value, resolver)
      case TextParseError => Nodes([])
      case Answer(answer) =>
        var kept := RemoteRecords(answer.GetOr([]), postfix.GetOr(""), resolve, interfaces);
        if kept == [] then Nodes([])
        else if postfix.None? then NullPointerThrown
        else Nodes(TranslatedNodes(kept, postfix.value, transport, version))
  }

  // ---------------------------------------------------------------------
  // The provider
  // ---------------------------------------------------------------------

  class SrvUnicastHostsProvider {
    const settings: Settings
    const transportService: string -> Option<seq<TransportAddress>>
    const version: Version
    const query: Option<string>
    const resolver: Option<ExtendedResolver>

    /** Stores the collaborators and the resolver already built from the settings. */
    constructor Init(settings: Settings, transportService: string -> Option<seq<TransportAddress>>,
                     version: Version, resolver: Option<ExtendedResolver>)
      ensures this.settings == settings && this.transportService == transportService
      ensures this.version == version && this.resolver == resolver
      ensures query == settings.query
    {
      this.settings := settings;
      this.transportService := transportService;
      this.version := version;
      this.query := settings.query;
      this.resolver := resolver;
    }

    /** The provider's constructor: it fails exactly when buildResolver throws, with its exception. */
    static method Create(settings: Settings, transportService: string -> Option<seq<TransportAddress>>,
                         version: Version, canResolve: Option<string> -> bool,
                         canCombine: seq<SimpleResolver> -> bool)
      returns (r: Result<SrvUnicastHostsProvider, BuildError>)
      ensures r.Failure? <==> !NoPortRejected(settings.servers, canResolve)
                              || NameServers(settings.servers, canResolve) == []
      ensures r.Failure? ==> (r.error.IllegalArgument? <==> !NoPortRejected(settings.servers, canResolve))
      ensures r.Failure? && r.error.IllegalArgument? ==>
        exists i :: && 0 <= i < |settings.servers| && PortRejected(settings.servers[i], canResolve)
                    && r.error.port == ParseEndpoint(settings.servers[i]).port
                    && NoPortRejected(settings.servers[..i], canResolve)
      ensures r.Failure? && r.error.RuntimeError? ==> r.error.message == NO_RESOLVERS
      ensures r.Success? ==> r.value.settings == settings && r.value.query == settings.query
                             && r.value.version == version && r.value.transportService == transportService
      ensures r.Success? ==>
        var rs := NameServers(settings.servers, canResolve);
        r.value.resolver == if canCombine(rs) then Some(ExtendedResolver(rs, IsTCP(Protocol(settings)))) else None
    {
      var built := BuildResolver(settings, canResolve, canCombine);
      if built.Failure? {
        return Failure(built.error);
      }
      var provider := new SrvUnicastHostsProvider.Init(settings, transportService, version, built.value);
      return Success(provider);
    }

    /** isLocalIP: scans every address of every interface and stops at the first equal one. */
    method IsLocalIP(ip: string, interfaces: seq<seq<string>>) returns (local: bool)
      ensures local == IsLocalAddress(ip, interfaces)
    {
      var n := 0;
      while n < |interfaces|
        invariant 0 <= n <= |interfaces|
        invariant forall m, k :: 0 <= m < n && 0 <= k < |interfaces[m]| ==> interfaces[m][k] != ip
      {
        var addresses := interfaces[n];
        var k := 0;
        while k < |addresses|
          invariant 0 <= k <= |addresses|
          invariant forall j :: 0 <= j < k ==> addresses[j] != ip
        {
          if addresses[k] == ip {
            return true;
          }
          k := k + 1;
        }
        n := n + 1;
      }
      return false;
    }

    /** filterOutOwnRecord: keeps the records whose host resolves to an address that is not local. */
    method FilterOutOwnRecord(records: seq<SrvRecord>, resolve: string -> Option<string>,
                              interfaces: seq<seq<string>>) returns (kept: seq<SrvRecord>)
      ensures kept == RemoteRecords(records, settings.consulPostfix.GetOr(""), resolve, interfaces)
    {
      var postfix := settings.consulPostfix.GetOr("");
      kept := [];
      for i := 0 to |records|
        invariant kept == RemoteRecords(records[..i], postfix, resolve, interfaces)
      {
        var record := records[i];
        var hostname := NormalizeHost(record.target, postfix);
        match resolve(hostname) {
          case Some(ip) =>
            var local := IsLocalIP(ip, interfaces);
            if !local {
              kept := kept + [record];
            }
          case None =>
        }
        assert records[..i + 1][..i] == records[..i];
      }
      assert records[..|records|] == records;
    }

    /** lookupRecords: an SRV lookup of the query; `None` is a TextParseException, a null answer is empty. */
    method LookupRecords(lookup: (string, Option<ExtendedResolver>) -> LookupResult)
      returns (records: Option<seq<SrvRecord>>)
      requires query.Some?
      ensures records.None? <==> lookup(query.value, resolver).TextParseError?
      ensures records.Some? ==> records.value == lookup(query.value, resolver).records.GetOr([])
    {
      var answer := lookup(query.value, resolver);
      if answer.TextParseError? {
        return None;
      }
      var found := answer.records;
      if found.None? {
        found := Some([]);
      }
      return found;
    }

    /** parseRecords: one node per record whose "host:port" the transport layer accepts. */
    method ParseRecords(records: seq<SrvRecord>) returns (nodes: seq<DiscoveryNode>)
      requires records != [] ==> settings.consulPostfix.Some?
      ensures nodes == TranslatedNodes(records, settings.consulPostfix.GetOr(""), transportService, version)
    {
      nodes := [];
      for i := 0 to |records|
        invariant nodes == TranslatedNodes(records[..i], settings.consulPostfix.GetOr(""), transportService, version)
      {
        var record := records[i];
        var hostname := NormalizeHost(record.target, settings.consulPostfix.value);
        var address := hostname + ":" + NatToString(record.port);
        match transportService(address) {
          case Some(addresses) =>
            if |addresses| > 0 {
              nodes := nodes + [DiscoveryNode(NODE_ID_PREFIX + address, addresses[0], version)];
            }
          case None =>
        }
        assert records[..i + 1][..i] == records[..i];
      }
      assert records[..|records|] == records;
    }

    /** buildDynamicNodes: one discovery cycle. */
    method BuildDynamicNodes(lookup: (string, Option<ExtendedResolver>) -> LookupResult,
                             resolve: string -> Option<string>, interfaces: seq<seq<string>>)
      returns (r: Discovery)
      ensures r == Discover(query, settings.consulPostfix, resolver, transportService, version,
                            lookup, resolve, interfaces)
    {
      if query.None? {
        return Nodes([]);
      }
      var records := LookupRecords(lookup);
      if records.None? {
        return Nodes([]);
      }
      var filtered := FilterOutOwnRecord(records.value, resolve, interfaces);
      if |filtered| == 0 {
        return Nodes([]);
      }
      if settings.consulPostfix.None? {
        return NullPointerThrown;
      }
      var nodes := ParseRecords(filtered);
      return Nodes(nodes);
    }
  }
}
