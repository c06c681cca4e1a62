# SRV unicast hosts provider — a verified model

This project models the discovery provider of the Elasticsearch SRV discovery plugin
(`SrvUnicastHostsProvider`). It covers the provider's whole logic:

- **Building the resolver.** The provider turns each `host[:port]` entry of
  `discovery.srv.servers` into a DNS resolver. It combines those resolvers into one composite
  resolver and sets TCP on it when `discovery.srv.protocol` is exactly `"tcp"`, which is the
  default.
- **Looking up records.** A discovery cycle looks up the SRV records of `discovery.srv.query`.
- **Dropping local records.** It drops every record whose host name resolves to an address of
  one of this machine's network interfaces.
- **Translating records.** It turns each remaining record into a discovery node with the
  identifier `#srv-host:port`.

Everything the provider asks of the outside world is a parameter of the model:

- whether dnsjava accepts a name-server host (`canResolve`) and a set of resolvers
  (`canCombine`);
- the SRV lookup (`lookup`), which answers with a parse error, a null answer or a record list;
- forward resolution of a host name (`resolve`);
- the address texts bound to each local network interface (`interfaces`);
- the transport layer's address parser (`transportService`).

The Java string operations the provider relies on are modelled in `JavaText`:
`String.split` with a one-character separator, `Integer.valueOf`, `Integer.toString`,
`String.replace(t, "")` and `replaceFirst("\\.$", "")`.

Files:

- `wrappers.dfy`: `Option` (a Java reference that may be null) and `Result` (a value or an
  exception).
- `java_text.dfy`: the Java string operations and their lemmas.
- `seqs.dfy`: order-preserving filter and filter-map over sequences, with append and membership
  lemmas.
- `srv_discovery.dfy`: the data model and the specification functions. It also holds
  `BuildResolver` and the class `SrvUnicastHostsProvider`, whose methods keep the source's loops
  and are proved equal to the specification functions.
- `srv_lemmas.dfy`: properties of the specification functions, plus worked scenarios.

The model keeps these behaviours of the code:

- The consul postfix is removed wherever it occurs in the host name, not only at its end.
  `String.replace` replaces every non-overlapping occurrence.
- An empty `discovery.srv.servers` list makes the constructor throw "Unable to find resolvers".
  It does not fall back to the system resolver.
- Only a null query is rejected. An empty query string goes to the lookup.
- `parseRecords` reads `discovery.srv.consulpostfix` without a default (line 228). So when the
  postfix is unset and at least one record survives the local filter, a `NullPointerException`
  escapes `buildDynamicNodes`. The model makes that outcome explicit as
  `Discovery.NullPointerThrown`.
- A port above 65535 on an entry whose host dnsjava accepts makes `setPort` throw an
  `IllegalArgumentException` (line 107). The handler at line 110 catches only
  `UnknownHostException`, so the exception escapes `buildResolver` and the constructor. The model
  records it as the failure `BuildError.IllegalArgument` carrying that port.
- When the transport layer returns an empty address array, `addresses[0]` throws. The handler
  catches it, so that record is dropped.

## Model

All source paths are under `src/main/java/org/elasticsearch/discovery/srv/`. The source cells
below give them in full.

| member | source | states |
|---|---|---|
| JavaText.Split | src/main/java/org/elasticsearch/discovery/srv/SrvUnicastHostsProvider.java:90 | no part of `s.split(c)` contains the separator |
| JavaText.SplitEmpty | src/main/java/org/elasticsearch/discovery/srv/SrvUnicastHostsProvider.java:90-91 | `split` yields no part exactly when the string is non-empty and consists of separators only (so `":"` gives a null host) |
| JavaText.SplitFirst | src/main/java/org/elasticsearch/discovery/srv/SrvUnicastHostsProvider.java:90-92 | the first part is the text before the first separator |
| JavaText.SplitSecond | src/main/java/org/elasticsearch/discovery/srv/SrvUnicastHostsProvider.java:90-95 | the second part, when present, is the text between the first and second separators; when it is absent but a separator occurs, that text is empty |
| JavaText.SplitPair | src/main/java/org/elasticsearch/discovery/srv/SrvUnicastHostsProvider.java:90 | `(a + ":" + b).split(":")` is `[a, b]` for colon-free `a` and non-empty colon-free `b` |
| JavaText.JoinPieces | src/main/java/org/elasticsearch/discovery/srv/SrvUnicastHostsProvider.java:90 | joining the untrimmed pieces with the separator gives the string back |
| JavaText.PiecesJoin | src/main/java/org/elasticsearch/discovery/srv/SrvUnicastHostsProvider.java:90 | splitting a join of separator-free pieces gives the pieces back |
| JavaText.PiecesAllEmpty | src/main/java/org/elasticsearch/discovery/srv/SrvUnicastHostsProvider.java:90 | all pieces are empty exactly when the string holds only separators |
| JavaText.ParseInt | src/main/java/org/elasticsearch/discovery/srv/SrvUnicastHostsProvider.java:95 | `Integer.valueOf` yields only values in the `int` range and rejects the empty string |
| JavaText.NatToString | src/main/java/org/elasticsearch/discovery/srv/SrvUnicastHostsProvider.java:232-233 | the decimal text of a port is non-empty, all digits, has no leading zero and denotes the port |
| JavaText.NatToStringParses | src/main/java/org/elasticsearch/discovery/srv/SrvUnicastHostsProvider.java:95 | `Integer.valueOf(Integer.toString(n)) == n` for every non-negative `int` |
| JavaText.RemoveAll | src/main/java/org/elasticsearch/discovery/srv/SrvUnicastHostsProvider.java:192 | removing the postfix never lengthens the name |
| JavaText.RemoveAllWithoutOccurrence | src/main/java/org/elasticsearch/discovery/srv/SrvUnicastHostsProvider.java:192 | `replace` leaves a string without an occurrence unchanged |
| JavaText.RemoveAllLeading | src/main/java/org/elasticsearch/discovery/srv/SrvUnicastHostsProvider.java:192 | an occurrence at the start is removed and the scan continues after it |
| JavaText.RemoveAllFirstOccurrence | src/main/java/org/elasticsearch/discovery/srv/SrvUnicastHostsProvider.java:192 | for every input: the text before the first occurrence is kept, that occurrence is removed, and the scan goes on after it (with `RemoveAllWithoutOccurrence` this fixes `replace` on every string) |
| JavaText.RemoveAllFreePrefix | src/main/java/org/elasticsearch/discovery/srv/SrvUnicastHostsProvider.java:192 | a prefix that never holds the postfix's first character passes through unchanged |
| JavaText.StripTrailingDot | src/main/java/org/elasticsearch/discovery/srv/SrvUnicastHostsProvider.java:189 | exactly one trailing `.` is dropped, and the name is unchanged exactly when it does not end in `.` |
| SrvDiscovery.ParseEndpoint | src/main/java/org/elasticsearch/discovery/srv/SrvUnicastHostsProvider.java:87-101 | an entry's host is the text before its first `:`, and null only for a non-empty entry made of colons alone |
| SrvDiscovery.ParseEntry | src/main/java/org/elasticsearch/discovery/srv/SrvUnicastHostsProvider.java:88-101 | the loop body's step-by-step reading of host and port gives exactly the entry's endpoint |
| SrvProperties.EndpointPort | src/main/java/org/elasticsearch/discovery/srv/SrvUnicastHostsProvider.java:89-108 | a port is set exactly when the text after the first `:` (up to the next) parses as an `int` greater than 0; otherwise the resolver keeps its default port |
| SrvProperties.TcpProtocol | src/main/java/org/elasticsearch/discovery/srv/SrvUnicastHostsProvider.java:132-134 | `isTCP` on the protocol setting holds exactly when the setting is unset (default `"tcp"`) or exactly `"tcp"`; the test is case-sensitive, so `"TCP"`, `"Tcp"`, `"udp"` and `""` are not TCP |
| SrvDiscovery.BuildResolver | src/main/java/org/elasticsearch/discovery/srv/SrvUnicastHostsProvider.java:78-130 | throws `IllegalArgumentException` exactly when some accepted entry has a port above 65535, carrying the port of the first such entry; when no port is rejected, it throws "Unable to find resolvers" exactly when no entry gave a resolver, and otherwise it returns a composite of exactly the collected resolvers, in order, or null when dnsjava rejects the combination; TCP is set exactly when the protocol is unset or is exactly `"tcp"` |
| SrvProperties.PortRangeExample | src/main/java/org/elasticsearch/discovery/srv/SrvUnicastHostsProvider.java:104-107 | `"ns1:70000"` is rejected exactly when dnsjava accepts `ns1`; `"ns1:65535"` and `"ns1:abc"` never are |
| SrvProperties.NameServersAppend | src/main/java/org/elasticsearch/discovery/srv/SrvUnicastHostsProvider.java:83-113 | resolvers are collected entry by entry in configured order, never more than the entries |
| SrvProperties.NoNameServers | src/main/java/org/elasticsearch/discovery/srv/SrvUnicastHostsProvider.java:115-127 | no resolver is collected, so the constructor throws, exactly when no entry yields one; this includes an empty list |
| SrvDiscovery.SrvUnicastHostsProvider.Create | src/main/java/org/elasticsearch/discovery/srv/SrvUnicastHostsProvider.java:67-75 | the constructor fails exactly when some accepted entry has a port above 65535 (an `IllegalArgumentException`) or no entry gave a resolver ("Unable to find resolvers"), and the exception carries the port of the first such entry; on success it stores the settings, the query, the transport service, the version and the resolver `buildResolver` built |
| SrvDiscovery.NormalizeHost | src/main/java/org/elasticsearch/discovery/srv/SrvUnicastHostsProvider.java:189-193 | normalisation, one function shared by the filter and the translation stages, never lengthens the target |
| SrvProperties.NormalizeHostFirstOccurrence | src/main/java/org/elasticsearch/discovery/srv/SrvUnicastHostsProvider.java:189-193 | for every target: normalisation keeps the dot-stripped name up to the first occurrence of a non-empty postfix, drops it, and removes further occurrences in the rest |
| SrvProperties.NormalizeStripsPostfix | src/main/java/org/elasticsearch/discovery/srv/SrvUnicastHostsProvider.java:227-231 | `name + postfix + "."` normalises to `name` whenever the postfix does not start inside `name` (names of several labels included) |
| SrvProperties.ConsulExample | src/main/java/org/elasticsearch/discovery/srv/SrvUnicastHostsProvider.java:189-193 | `"node1.service.consul."` with postfix `".service.consul"` gives `"node1"` |
| SrvProperties.MultiLabelExample | src/main/java/org/elasticsearch/discovery/srv/SrvUnicastHostsProvider.java:227-231 | `"web.dc1.service.consul."` with `".service.consul"` gives `"web.dc1"` |
| SrvProperties.RepeatedPostfixExample | src/main/java/org/elasticsearch/discovery/srv/SrvUnicastHostsProvider.java:192 | every occurrence of the postfix is removed: `"db.consul.consul."` with `".consul"` gives `"db"` |
| SrvProperties.EmptyPostfixStripsOneDot | src/main/java/org/elasticsearch/discovery/srv/SrvUnicastHostsProvider.java:189-191 | with an empty postfix only one trailing dot goes, and a name without one is unchanged |
| SrvProperties.AbsentPostfixKeepsName | src/main/java/org/elasticsearch/discovery/srv/SrvUnicastHostsProvider.java:191-193 | a postfix that does not occur leaves the dot-stripped name as it is |
| SrvDiscovery.SrvUnicastHostsProvider.IsLocalIP | src/main/java/org/elasticsearch/discovery/srv/SrvUnicastHostsProvider.java:161-181 | true exactly when some address of some local interface has the text `ip` |
| SrvDiscovery.SrvUnicastHostsProvider.FilterOutOwnRecord | src/main/java/org/elasticsearch/discovery/srv/SrvUnicastHostsProvider.java:183-206 | the result is the remote records: those whose normalised host resolves to a non-local address, in input order |
| SrvProperties.RemoteRecordsAppend | src/main/java/org/elasticsearch/discovery/srv/SrvUnicastHostsProvider.java:186-205 | the filter works record by record, keeps input order and never lengthens the list |
| SrvProperties.RemoteRecordsMembers | src/main/java/org/elasticsearch/discovery/srv/SrvUnicastHostsProvider.java:194-202 | a record is kept exactly when it is in the input, its host resolves, and the address is not local |
| SrvDiscovery.SrvUnicastHostsProvider.LookupRecords | src/main/java/org/elasticsearch/discovery/srv/SrvUnicastHostsProvider.java:208-220 | a query parse error propagates; a null answer becomes the empty array; any other answer is returned as is |
| SrvDiscovery.SrvUnicastHostsProvider.ParseRecords | src/main/java/org/elasticsearch/discovery/srv/SrvUnicastHostsProvider.java:222-244 | the result is the translated nodes of the records, in input order, one per record the transport layer accepts |
| SrvProperties.TranslatedNodesAppend | src/main/java/org/elasticsearch/discovery/srv/SrvUnicastHostsProvider.java:224-243 | translation works record by record, keeps input order and never lengthens the list |
| SrvProperties.TranslatedNodesMembers | src/main/java/org/elasticsearch/discovery/srv/SrvUnicastHostsProvider.java:233-241 | a node is emitted exactly when some record translates to it |
| SrvProperties.NodeIdRoundTrip | src/main/java/org/elasticsearch/discovery/srv/SrvUnicastHostsProvider.java:233-238 | a node's id is `#srv-` followed by a `host:port` text that the name-server entry rules read back as the record's normalised host and port |
| SrvDiscovery.SrvUnicastHostsProvider.BuildDynamicNodes | src/main/java/org/elasticsearch/discovery/srv/SrvUnicastHostsProvider.java:136-159 | one cycle equals the lookup, filter and translate pipeline, with its error-to-empty cases and the escaping NullPointerException |
| SrvProperties.DiscoverBounded | src/main/java/org/elasticsearch/discovery/srv/SrvUnicastHostsProvider.java:139-158 | a null query or a parse error gives no nodes, and a cycle never returns more nodes than the lookup gave records |
| SrvProperties.DiscoverThrows | src/main/java/org/elasticsearch/discovery/srv/SrvUnicastHostsProvider.java:228 | a cycle throws exactly when the postfix is unset and some looked-up record survives the local filter |
| SrvProperties.DiscoverNodeOrigin | src/main/java/org/elasticsearch/discovery/srv/SrvUnicastHostsProvider.java:144-152 | with the postfix set, a node is emitted exactly when some looked-up record survives the filter and translates to it; the filter and the translation use the same normalised name |
| SrvProperties.NoRecordsScenario | src/main/java/org/elasticsearch/discovery/srv/SrvUnicastHostsProvider.java:214-217 | a null or empty answer gives an empty node list |
| SrvProperties.SingleRecordScenario | src/main/java/org/elasticsearch/discovery/srv/SrvUnicastHostsProvider.java:136-159 | one remote record `host1.example.com.` port 9300 with an empty postfix gives the one node `#srv-host1.example.com:9300` |
| SrvProperties.UnsetPostfixScenario | src/main/java/org/elasticsearch/discovery/srv/SrvUnicastHostsProvider.java:228 | the same cycle with the postfix unset throws |

## Left out

- dnsjava internals are not modelled: `SimpleResolver`, `ExtendedResolver`, `Lookup.run`,
  `Type.SRV` and the syntax rules behind `TextParseException`. They are the oracles
  `canResolve`, `canCombine` and `lookup`. A resolver is recorded by its host and applied port
  only. Of `setPort` the model keeps only its range check (0 to 65535).
- `InetAddress.getByName` and `NetworkInterface.getNetworkInterfaces` are DNS and OS I/O. They
  are a resolution function and a given list of interface address texts. The model assumes
  neither changes during one cycle.
- The crash in `isLocalIP` when `getNetworkInterfaces` throws is not modelled. The enumeration is
  then null and `hasMoreElements` throws.
- `TransportService.addressesFromString` is an oracle. `DiscoveryNode` and `Version` are reduced
  to the fields this provider sets.
- Logging, `Settings` lookup, dependency injection and `AbstractComponent` are left out. The four
  `discovery.srv.*` values are fields of a `Settings` datatype.
- JavaText.ParseInt: accepts ASCII digits only, while `Integer.valueOf` also accepts other
  Unicode decimal digits.
- JavaText.StripTrailingDot: drops a `.` only at the very end. The regex `\.$` would also match a
  `.` just before a final line terminator, which a DNS name does not contain.
- SrvDiscovery.SrvUnicastHostsProvider.BuildDynamicNodes: a null query is shown to give no nodes,
  but with a pure lookup oracle the model cannot show that no lookup is made.
- JavaText.Split: covers a one-character separator only. The source always splits on `":"`, so an
  IPv6 literal entry is split at its colons as Java would do. No special handling is modelled.
- Concurrent discovery cycles are not modelled; the provider has no shared mutable state beyond
  its final fields.
