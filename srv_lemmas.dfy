/** Properties of the SRV discovery model. */
module SrvProperties {
  import opened Wrappers
  import opened JavaText
  import opened Seqs
  import opened SrvDiscovery

  // ---------------------------------------------------------------------
  // Name-server entries
  // ---------------------------------------------------------------------

  /**
   * A port is applied exactly when the entry has a ':' and the text between
   * it and the next ':' parses as a positive int; a missing, non-numeric,
   * zero or negative port leaves the resolver's default.
   */
  lemma EndpointPort(address: string)
    ensures ':' !in address ==> AppliedPort(ParseEndpoint(address)).None?
    ensures ':' in address ==>
      var p := ParseInt(Before(After(address, ':'), ':'));
      AppliedPort(ParseEndpoint(address)) == if p.Some? && p.value > 0 then p else None
  {
    SplitSecond(address, ':');
  }

  // ---------------------------------------------------------------------
  // Resolver set
  // ---------------------------------------------------------------------

  /**
   * TCP is asked for when the protocol is unset or exactly "tcp"; the test is
   * case-sensitive, so "TCP" or "udp" leave the resolver on UDP.
   */
  lemma TcpProtocol(settings: Settings)
    ensures IsTCP(Protocol(settings)) <==> settings.protocol.None? || settings.protocol == Some("tcp")
    ensures !IsTCP("TCP") && !IsTCP("Tcp") && !IsTCP("udp") && !IsTCP("")
  {
    assert "TCP"[0] != "tcp"[0];
    assert "Tcp"[0] != "tcp"[0];
  }

  /**
   * A port that does not parse is ignored, and so is one that parses within
   * range, but an accepted host with a port above 65535 is rejected.
   */
  lemma PortRangeExample(canResolve: Option<string> -> bool)
    ensures PortRejected("ns1:70000", canResolve) <==> canResolve(Some("ns1"))
    ensures !PortRejected("ns1:65535", canResolve)
    ensures !PortRejected("ns1:abc", canResolve)
  {
    OversizeEntry();
    LargestEntry();
    NonNumericEntry();
  }

  lemma OversizeEntry()
    ensures ParseEndpoint("ns1:70000") == Endpoint(Some("ns1"), 70000)
  {
    OversizePortText();
    assert "ns1" + ":" + "70000" == "ns1:70000";
    EntryPort("ns1", 70000, "70000", "ns1:70000");
  }

  lemma LargestEntry()
    ensures ParseEndpoint("ns1:65535") == Endpoint(Some("ns1"), 65535)
  {
    LargestPortText();
    assert "ns1" + ":" + "65535" == "ns1:65535";
    EntryPort("ns1", 65535, "65535", "ns1:65535");
  }

  lemma OversizePortText()
    ensures NatToString(70000) == "70000"
  {
    assert NatToString(7) == "7";
    assert NatToString(70) == NatToString(7) + "0";
    assert NatToString(700) == NatToString(70) + "0";
    assert NatToString(7000) == NatToString(700) + "0";
    assert NatToString(70000) == NatToString(7000) + "0";
  }

  lemma LargestPortText()
    ensures NatToString(65535) == "65535"
  {
    assert NatToString(6) == "6";
    assert NatToString(65) == NatToString(6) + "5";
    assert NatToString(655) == NatToString(65) + "5";
    assert NatToString(6553) == NatToString(655) + "3";
    assert NatToString(65535) == NatToString(6553) + "5";
  }

  lemma NonNumericEntry()
    ensures ParseEndpoint("ns1:abc") == Endpoint(Some("ns1"), UNSET_PORT)
  {
    var address := "ns1:abc";
    assert address == "ns1" + [':'] + "abc";
    SplitPair("ns1", ':', "abc");
    assert Split(address, ':') == ["ns1", "abc"];
    assert ParseInt("abc").None? by {
      assert !IsDigit("abc"[0]);
    }
  }

  /** An entry `host:digits` reads as that host and the number the digits denote. */
  lemma EntryPort(host: string, port: nat, digits: string, address: string)
    requires ':' !in host && port <= MAX_INT && NatToString(port) == digits
    requires address == host + ":" + digits
    ensures ParseEndpoint(address) == Endpoint(Some(host), port)
  {
    assert ':' !in digits by {
      assert AllDigits(digits);
    }
    SplitPair(host, ':', digits);
    NatToStringParses(port);
  }

  /** Resolvers are collected entry by entry, in configured order. */
  lemma NameServersAppend(a: seq<string>, b: seq<string>, canResolve: Option<string> -> bool)
    ensures NameServers(a + b, canResolve) == NameServers(a, canResolve) + NameServers(b, canResolve)
    ensures |NameServers(a, canResolve)| <= |a|
  {
    FilterMapAppend(a, b, NameServerOf(canResolve));
  }

  /** No resolver is collected exactly when no entry yields one (the provider then throws). */
  lemma NoNameServers(addresses: seq<string>, canResolve: Option<string> -> bool)
    ensures NameServers(addresses, canResolve) == []
        <==> forall i :: 0 <= i < |addresses| ==> NameServer(addresses[i], canResolve).None?
  {
    FilterMapEmpty(addresses, NameServerOf(canResolve));
  }

  // ---------------------------------------------------------------------
  // Host names
  // ---------------------------------------------------------------------

  /**
   * Normalisation keeps the dot-stripped name up to the first occurrence of a
   * non-empty postfix, drops that occurrence and goes on removing in the rest.
   */
  lemma NormalizeHostFirstOccurrence(target: string, postfix: string, x: string, y: string)
    requires postfix != "" && StripTrailingDot(target) == x + postfix + y
    requires forall i: nat :: i < |x| ==> !OccursAt(x + postfix + y, postfix, i)
    ensures NormalizeHost(target, postfix) == x + RemoveAll(y, postfix)
  {
    RemoveAllFirstOccurrence(x, postfix, y);
  }

  /**
   * A target that is a name, then the postfix, then the root '.' comes out as
   * the name, provided the postfix does not start anywhere inside the name.
   */
  lemma NormalizeStripsPostfix(name: string, postfix: string)
    requires postfix != ""
    requires forall i: nat :: i < |name| ==> !OccursAt(name + postfix, postfix, i)
    ensures NormalizeHost(name + postfix + ".", postfix) == name
  {
    assert StripTrailingDot(name + postfix + ".") == name + postfix + "";
    assert name + postfix + "" == name + postfix;
    NormalizeHostFirstOccurrence(name + postfix + ".", postfix, name, "");
    assert name + "" == name;
  }

  /** The consul example: "node1.service.consul." with ".service.consul" gives "node1". */
  lemma ConsulExample()
    ensures NormalizeHost("node1.service.consul.", ".service.consul") == "node1"
  {
    var name, postfix := "node1", ".service.consul";
    assert "node1.service.consul." == name + postfix + ".";
    forall i: nat | i < |name| ensures !OccursAt(name + postfix, postfix, i) {
      assert (name + postfix)[i] != postfix[0];
    }
    NormalizeStripsPostfix(name, postfix);
  }

  /** A name of several labels keeps its own dots: "web.dc1.service.consul." gives "web.dc1". */
  lemma MultiLabelExample()
    ensures NormalizeHost("web.dc1.service.consul.", ".service.consul") == "web.dc1"
  {
    var name, postfix := "web.dc1", ".service.consul";
    var s := name + postfix;
    assert "web.dc1.service.consul." == name + postfix + ".";
    forall i: nat | i < |name| ensures !OccursAt(s, postfix, i) {
      if i == 3 {
        assert s[i + 1] != postfix[1];
      } else {
        assert s[i] != postfix[0];
      }
    }
    NormalizeStripsPostfix(name, postfix);
  }

  /** Every occurrence of the postfix goes, not only the first. */
  lemma RepeatedPostfixExample()
    ensures NormalizeHost("db.consul.consul.", ".consul") == "db"
  {
    var p := ".consul";
    assert StripTrailingDot("db.consul.consul.") == "db" + (p + p);
    RemoveAllFreePrefix("db", p + p, p);
    RemoveAllLeading(p, p);
    RemoveAllLeading(p, "");
    assert p + "" == p;
  }

  /** With no postfix, only the root '.' goes, and only one of them. */
  lemma EmptyPostfixStripsOneDot(name: string)
    ensures NormalizeHost(name + ".", "") == name
    ensures NormalizeHost(name + "..", "") == name + "."
    ensures (name == "" || name[|name| - 1] != '.') ==> NormalizeHost(name, "") == name
  {
    assert (name + "..")[..|name + ".."| - 1] == name + ".";
  }

  /** A postfix that does not occur leaves the name as the dot-stripping left it. */
  lemma AbsentPostfixKeepsName(target: string, postfix: string)
    requires postfix != ""
    requires forall i: nat :: !OccursAt(StripTrailingDot(target), postfix, i)
    ensures NormalizeHost(target, postfix) == StripTrailingDot(target)
  {
    RemoveAllWithoutOccurrence(StripTrailingDot(target), postfix);
  }

  // ---------------------------------------------------------------------
  // Local-record filter
  // ---------------------------------------------------------------------

  /** The filter works record by record, keeping input order and never growing the list. */
  lemma RemoteRecordsAppend(a: seq<SrvRecord>, b: seq<SrvRecord>, postfix: string,
                            resolve: string -> Option<string>, interfaces: seq<seq<string>>)
    ensures RemoteRecords(a + b, postfix, resolve, interfaces)
         == RemoteRecords(a, postfix, resolve, interfaces) + RemoteRecords(b, postfix, resolve, interfaces)
    ensures |RemoteRecords(a, postfix, resolve, interfaces)| <= |a|
  {
    FilterAppend(a, b, RemoteTest(postfix, resolve, interfaces));
  }

  /** A record survives exactly when its host resolves to an address that is not local. */
  lemma RemoteRecordsMembers(records: seq<SrvRecord>, postfix: string,
                             resolve: string -> Option<string>, interfaces: seq<seq<string>>, x: SrvRecord)
    ensures x in RemoteRecords(records, postfix, resolve, interfaces)
        <==> x in records && IsRemote(x, postfix, resolve, interfaces)
  {
    FilterMembers(records, RemoteTest(postfix, resolve, interfaces), x);
  }

  // ---------------------------------------------------------------------
  // Translation
  // ---------------------------------------------------------------------

  /** Translation works record by record, keeping input order and never growing the list. */
  lemma TranslatedNodesAppend(a: seq<SrvRecord>, b: seq<SrvRecord>, postfix: string,
                              transport: string -> Option<seq<TransportAddress>>, version: Version)
    ensures TranslatedNodes(a + b, postfix, transport, version)
         == TranslatedNodes(a, postfix, transport, version) + TranslatedNodes(b, postfix, transport, version)
    ensures |TranslatedNodes(a, postfix, transport, version)| <= |a|
  {
    FilterMapAppend(a, b, NodeOf(postfix, transport, version));
  }

  /** A node is emitted exactly when some record translates to it. */
  lemma TranslatedNodesMembers(records: seq<SrvRecord>, postfix: string,
                               transport: string -> Option<seq<TransportAddress>>, version: Version,
                               node: DiscoveryNode)
    ensures node in TranslatedNodes(records, postfix, transport, version)
        <==> exists i :: 0 <= i < |records| && NodeFor(records[i], postfix, transport, version) == Some(node)
  {
    FilterMapMembers(records, NodeOf(postfix, transport, version), node);
  }

  /**
   * The node's identifier is "#srv-" followed by a "host:port" text that the
   * name-server entry rules read back as the record's host and port.
   */
  lemma NodeIdRoundTrip(record: SrvRecord, postfix: string,
                        transport: string -> Option<seq<TransportAddress>>, version: Version)
    requires NodeFor(record, postfix, transport, version).Some?
    requires ':' !in NormalizeHost(record.target, postfix)
    ensures var id := NodeFor(record, postfix, transport, version).value.id;
      && |id| >= |NODE_ID_PREFIX| && id[..|NODE_ID_PREFIX|] == NODE_ID_PREFIX
      && ParseEndpoint(id[|NODE_ID_PREFIX|..])
         == Endpoint(Some(NormalizeHost(record.target, postfix)), record.port)
  {
    var host := NormalizeHost(record.target, postfix);
    var port := NatToString(record.port);
    var id := NodeFor(record, postfix, transport, version).value.id;
    assert id == NODE_ID_PREFIX + (host + [':'] + port);
    assert id[|NODE_ID_PREFIX|..] == host + [':'] + port;
    assert ':' !in port by {
      assert AllDigits(port);
    }
    SplitPair(host, ':', port);
    NatToStringParses(record.port);
  }

  // ---------------------------------------------------------------------
  // Discovery cycle
  // ---------------------------------------------------------------------

  /**
   * A cycle never returns more nodes than the lookup gave records, and returns
   * none when the query is unset or does not parse.
   */
  lemma DiscoverBounded(query: Option<string>, postfix: Option<string>, resolver: Option<ExtendedResolver>,
                        transport: string -> Option<seq<TransportAddress>>, version: Version,
                        lookup: (string, Option<ExtendedResolver>) -> LookupResult,
                        resolve: string -> Option<string>, interfaces: seq<seq<string>>)
    ensures var r := Discover(query, postfix, resolver, transport, version, lookup, resolve, interfaces);
      && (query.None? ==> r == Nodes([]))
      && (query.Some? && lookup(query.value, resolver).TextParseError? ==> r == Nodes([]))
      && (query.Some? && lookup(query.value, resolver).Answer? && r.Nodes? ==>
            |r.nodes| <= |lookup(query.value, resolver).records.GetOr([])|)
  {
  }

  /**
   * The NullPointerException escapes exactly when the postfix is unset and
   * some record survives the local filter.
   */
  lemma DiscoverThrows(query: Option<string>, postfix: Option<string>, resolver: Option<ExtendedResolver>,
                       transport: string -> Option<seq<TransportAddress>>, version: Version,
                       lookup: (string, Option<ExtendedResolver>) -> LookupResult,
                       resolve: string -> Option<string>, interfaces: seq<seq<string>>)
    ensures Discover(query, postfix, resolver, transport, version, lookup, resolve, interfaces).NullPointerThrown?
        <==> && query.Some? && postfix.None?
             && lookup(query.value, resolver).Answer?
             && exists x :: x in lookup(query.value, resolver).records.GetOr([])
                         && IsRemote(x, "", resolve, interfaces)
  {
    if query.Some? && lookup(query.value, resolver).Answer? {
      var records := lookup(query.value, resolver).records.GetOr([]);
      var kept := RemoteRecords(records, postfix.GetOr(""), resolve, interfaces);
      if postfix.None? {
        if kept != [] {
          RemoteRecordsMembers(records, "", resolve, interfaces, kept[0]);
        }
        forall x | x in records && IsRemote(x, "", resolve, interfaces) ensures x in kept {
          RemoteRecordsMembers(records, "", resolve, interfaces, x);
        }
      }
    }
  }

  /**
   * With the postfix set, a cycle emits exactly the nodes of the looked-up
   * records that survive the local filter, each translated from the same
   * normalised name the filter resolved.
   */
  lemma DiscoverNodeOrigin(query: string, postfix: string, resolver: Option<ExtendedResolver>,
                           transport: string -> Option<seq<TransportAddress>>, version: Version,
                           lookup: (string, Option<ExtendedResolver>) -> LookupResult,
                           resolve: string -> Option<string>, interfaces: seq<seq<string>>,
                           node: DiscoveryNode)
    requires lookup(query, resolver).Answer?
    ensures var r := Discover(Some(query), Some(postfix), resolver, transport, version, lookup, resolve, interfaces);
      && r.Nodes?
      && (node in r.nodes <==>
            exists x :: && x in lookup(query, resolver).records.GetOr([])
                        && IsRemote(x, postfix, resolve, interfaces)
                        && NodeFor(x, postfix, transport, version) == Some(node))
  {
    var records := lookup(query, resolver).records.GetOr([]);
    var kept := RemoteRecords(records, postfix, resolve, interfaces);
    var r := Discover(Some(query), Some(postfix), resolver, transport, version, lookup, resolve, interfaces);
    TranslatedNodesMembers(kept, postfix, transport, version, node);
    if node in r.nodes {
      var i :| 0 <= i < |kept| && NodeFor(kept[i], postfix, transport, version) == Some(node);
      RemoteRecordsMembers(records, postfix, resolve, interfaces, kept[i]);
    }
    if exists x :: && x in records && IsRemote(x, postfix, resolve, interfaces)
                   && NodeFor(x, postfix, transport, version) == Some(node) {
      var x :| && x in records && IsRemote(x, postfix, resolve, interfaces)
               && NodeFor(x, postfix, transport, version) == Some(node);
      RemoteRecordsMembers(records, postfix, resolve, interfaces, x);
      var i :| 0 <= i < |kept| && kept[i] == x;
    }
  }

  /** A lookup that finds no records, or returns null, gives an empty node list. */
  lemma NoRecordsScenario(query: string, postfix: Option<string>, resolver: Option<ExtendedResolver>,
                          transport: string -> Option<seq<TransportAddress>>, version: Version,
                          lookup: (string, Option<ExtendedResolver>) -> LookupResult,
                          resolve: string -> Option<string>, interfaces: seq<seq<string>>)
    requires lookup(query, resolver) == Answer(None) || lookup(query, resolver) == Answer(Some([]))
    ensures Discover(Some(query), postfix, resolver, transport, version, lookup, resolve, interfaces) == Nodes([])
  {
  }

  /**
   * One SRV record "host1.example.com." port 9300 whose host resolves to a
   * non-local address, with the postfix set to "", gives the single node
   * "#srv-host1.example.com:9300" at the address parsed from
   * "host1.example.com:9300".
   */
  lemma SingleRecordScenario(resolver: Option<ExtendedResolver>,
                             transport: string -> Option<seq<TransportAddress>>, version: Version,
                             lookup: (string, Option<ExtendedResolver>) -> LookupResult,
                             resolve: string -> Option<string>, interfaces: seq<seq<string>>,
                             ip: string, address: TransportAddress)
    requires lookup("_node._tcp.example.com", resolver) == Answer(Some([SrvRecord("host1.example.com.", 9300)]))
    requires resolve("host1.example.com") == Some(ip) && !IsLocalAddress(ip, interfaces)
    requires transport("host1.example.com:9300") == Some([address])
    ensures Discover(Some("_node._tcp.example.com"), Some(""), resolver, transport, version, lookup, resolve, interfaces)
         == Nodes([DiscoveryNode("#srv-host1.example.com:9300", address, version)])
  {
    ExampleRecordKept(resolve, interfaces, ip);
    ExampleRecordNode(transport, version, address);
  }

  /** The example record survives the filter when its host resolves to a non-local address. */
  lemma ExampleRecordKept(resolve: string -> Option<string>, interfaces: seq<seq<string>>, ip: string)
    requires resolve("host1.example.com") == Some(ip) && !IsLocalAddress(ip, interfaces)
    ensures RemoteRecords([SrvRecord("host1.example.com.", 9300)], "", resolve, interfaces)
         == [SrvRecord("host1.example.com.", 9300)]
  {
    var record := SrvRecord("host1.example.com.", 9300);
    assert NormalizeHost(record.target, "") == "host1.example.com";
    assert IsRemote(record, "", resolve, interfaces);
    assert Filter([record], RemoteTest("", resolve, interfaces)) == Filter([], RemoteTest("", resolve, interfaces)) + [record];
  }

  /** The example record's address text is "host1.example.com:9300". */
  lemma ExampleHostPort()
    ensures HostPort(SrvRecord("host1.example.com.", 9300), "") == "host1.example.com:9300"
  {
    assert NormalizeHost("host1.example.com.", "") == "host1.example.com";
    PortText();
  }

  /** The example record translates to the node "#srv-host1.example.com:9300". */
  lemma ExampleRecordNode(transport: string -> Option<seq<TransportAddress>>, version: Version,
                          address: TransportAddress)
    requires transport("host1.example.com:9300") == Some([address])
    ensures TranslatedNodes([SrvRecord("host1.example.com.", 9300)], "", transport, version)
         == [DiscoveryNode("#srv-host1.example.com:9300", address, version)]
  {
    var record := SrvRecord("host1.example.com.", 9300);
    var hostPort := "host1.example.com:9300";
    ExampleHostPort();
    assert NodeFor(record, "", transport, version) == Some(DiscoveryNode(NODE_ID_PREFIX + hostPort, address, version));
    ExampleNodeId();
    SingleTranslation(record, "", transport, version);
  }

  /** The example node's identifier. */
  lemma ExampleNodeId()
    ensures NODE_ID_PREFIX + "host1.example.com:9300" == "#srv-host1.example.com:9300"
  {
  }

  /** A one-record list translates to that record's node, if any. */
  lemma SingleTranslation(record: SrvRecord, postfix: string,
                          transport: string -> Option<seq<TransportAddress>>, version: Version)
    ensures TranslatedNodes([record], postfix, transport, version) == NodeFor(record, postfix, transport, version).ToSeq()
  {
    assert [record][..0] == [];
  }

  /**
   * The same cycle with the postfix left unset throws: parseRecords reads
   * the setting without a default.
   */
  lemma UnsetPostfixScenario(resolver: Option<ExtendedResolver>,
                             transport: string -> Option<seq<TransportAddress>>, version: Version,
                             lookup: (string, Option<ExtendedResolver>) -> LookupResult,
                             resolve: string -> Option<string>, interfaces: seq<seq<string>>, ip: string)
    requires lookup("_node._tcp.example.com", resolver) == Answer(Some([SrvRecord("host1.example.com.", 9300)]))
    requires resolve("host1.example.com") == Some(ip) && !IsLocalAddress(ip, interfaces)
    ensures Discover(Some("_node._tcp.example.com"), None, resolver, transport, version, lookup, resolve, interfaces)
         == NullPointerThrown
  {
    ExampleRecordKept(resolve, interfaces, ip);
  }

  /** Decimal text of the example port. */
  lemma PortText()
    ensures NatToString(9300) == "9300"
  {
    assert NatToString(9) == "9";
    assert NatToString(93) == NatToString(9) + "3";
    assert NatToString(930) == NatToString(93) + "0";
    assert NatToString(9300) == NatToString(930) + "0";
  }
}
