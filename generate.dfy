/** The routing-configuration synthesiser: from the engine's container
    listing and the services declared in the compose files, build the
    routers and load-balanced services of the Traefik dynamic configuration. */
module TraefikGenerate {
  import opened Common
  import opened GoStrings
  import opened TraefikTypes

  const ComposeServiceLabel := "com.docker.compose.service"
  const EnableLabel := "traefik.enable"
  const DefaultPort := "80"

  function RuleKey(svc: string): string { "traefik.http.routers." + svc + ".rule" }

  function PortKey(svc: string): string { "traefik.http.services." + svc + ".loadbalancer.server.port" }

  function HealthPrefix(svc: string): string { "traefik.http.services." + svc + ".loadbalancer.healthCheck" }

  /** The label holding all headers as one JSON object. */
  function HeaderBlobKey(svc: string): string { HealthPrefix(svc) + ".headers" }

  /** The prefix of the labels holding one header each. */
  function HeaderKeyPrefix(svc: string): string { HealthPrefix(svc) + ".headers." }

  /** A compose file as read and parsed: the names under its `services`
      key, or None when it could not be read or parsed. */
  type ComposeRead = Option<set<string>>

  /** `json.Unmarshal` into a string map, as a partial function. */
  type JsonParser = string -> Option<map<string, string>>

  datatype GenerateError = ComposeUnreadable(index: nat)

  // ---------------------------------------------------------------------
  // Services declared by the compose files

  predicate AllReadable(files: seq<ComposeRead>)
  {
    forall i :: 0 <= i < |files| ==> files[i].Some?
  }

  /** The union of the service names declared by the readable files. */
  function Declared(files: seq<ComposeRead>): (names: set<string>)
    decreases |files|
  {
    if files == [] then {}
    else
      var n := |files| - 1;
      Declared(files[..n]) + (if files[n].Some? then files[n].value else {})
  }

  /** A name is declared exactly when some file lists it. */
  lemma {:induction false} DeclaredExact(files: seq<ComposeRead>, s: string)
    ensures s in Declared(files) <==> exists i :: 0 <= i < |files| && files[i].Some? && s in files[i].value
    decreases |files|
  {
    if files != [] {
      var n := |files| - 1;
      DeclaredExact(files[..n], s);
      if s in Declared(files[..n]) {
        var i :| 0 <= i < n && files[..n][i].Some? && s in files[..n][i].value;
        assert files[i] == files[..n][i];
      }
      if exists i :: 0 <= i < |files| && files[i].Some? && s in files[i].value {
        var i :| 0 <= i < |files| && files[i].Some? && s in files[i].value;
        if i < n {
          assert files[..n][i] == files[i];
        }
      }
    }
  }

  /** Reads every compose file in order; the first unreadable one aborts. */
  method ReadComposeServices(files: seq<ComposeRead>) returns (r: Result<set<string>, GenerateError>)
    ensures r.Ok? <==> AllReadable(files)
    ensures r.Ok? ==> r.value == Declared(files)
    ensures r.Err? ==> r.error.index < |files| && files[r.error.index].None? && AllReadable(files[..r.error.index])
  {
    var names: set<string> := {};
    for i := 0 to |files|
      invariant AllReadable(files[..i])
      invariant names == Declared(files[..i])
    {
      if files[i].None? {
        return Err(ComposeUnreadable(i));
      }
      assert files[..i + 1][..i] == files[..i];
      names := names + files[i].value;
    }
    assert files[..|files|] == files;
    return Ok(names);
  }

  // ---------------------------------------------------------------------
  // Grouping containers by service

  function ServiceOf(c: Container): string
  {
    Lookup(c.labels, ComposeServiceLabel)
  }

  /** The containers whose compose-service label is `svc`, in listing order. */
  function Members(cs: seq<Container>, svc: string): seq<Container>
    decreases |cs|
  {
    if cs == [] then []
    else
      var n := |cs| - 1;
      Members(cs[..n], svc) + (if ServiceOf(cs[n]) == svc then [cs[n]] else [])
  }

  /** The `serviceContainers` map: every labelled container of a declared
      service appended to its service's list. */
  function Groups(cs: seq<Container>, declared: set<string>): (g: map<string, seq<Container>>)
    ensures forall svc :: svc in g ==> |g[svc]| > 0
    decreases |cs|
  {
    if cs == [] then map[]
    else
      var n := |cs| - 1;
      var g := Groups(cs[..n], declared);
      var svc := ServiceOf(cs[n]);
      if svc != "" && svc in declared then g[svc := (if svc in g then g[svc] else []) + [cs[n]]]
      else g
  }

  /** Members holds exactly the containers carrying the label. */
  lemma {:induction false} MembersExact(cs: seq<Container>, svc: string)
    ensures forall c :: c in Members(cs, svc) <==> c in cs && ServiceOf(c) == svc
    decreases |cs|
  {
    if cs != [] {
      var n := |cs| - 1;
      MembersExact(cs[..n], svc);
      assert cs == cs[..n] + [cs[n]];
    }
  }

  /** The first member is the earliest container in the listing with the label. */
  lemma {:induction false} FirstMember(cs: seq<Container>, svc: string)
    requires |Members(cs, svc)| > 0
    ensures exists i :: 0 <= i < |cs| && cs[i] == Members(cs, svc)[0] && ServiceOf(cs[i]) == svc
                   && forall j :: 0 <= j < i ==> ServiceOf(cs[j]) != svc
    decreases |cs|
  {
    var n := |cs| - 1;
    if |Members(cs[..n], svc)| > 0 {
      FirstMember(cs[..n], svc);
      var i :| 0 <= i < n && cs[..n][i] == Members(cs[..n], svc)[0] && ServiceOf(cs[..n][i]) == svc
               && forall j :: 0 <= j < i ==> ServiceOf(cs[..n][j]) != svc;
      assert cs[i] == Members(cs, svc)[0];
      assert forall j :: 0 <= j < i ==> cs[j] == cs[..n][j];
    } else {
      MembersExact(cs[..n], svc);
      assert forall j :: 0 <= j < n ==> cs[j] in cs[..n];
    }
  }

  /** Only declared, labelled services are grouped, and each group is the
      filtered listing. */
  lemma {:induction false} GroupsAreMembers(cs: seq<Container>, declared: set<string>, svc: string)
    ensures svc in Groups(cs, declared) <==> svc != "" && svc in declared && |Members(cs, svc)| > 0
    ensures svc in Groups(cs, declared) ==> Groups(cs, declared)[svc] == Members(cs, svc)
    decreases |cs|
  {
    if cs != [] {
      var n := |cs| - 1;
      GroupsAreMembers(cs[..n], declared, svc);
    }
  }

  /** The grouping loop of GenerateConfig. */
  method GroupContainers(containers: seq<Container>, declared: set<string>)
    returns (groups: map<string, seq<Container>>)
    ensures groups == Groups(containers, declared)
  {
    groups := map[];
    for i := 0 to |containers|
      invariant groups == Groups(containers[..i], declared)
    {
      var c := containers[i];
      var svc := ServiceOf(c);
      assert containers[..i + 1][..i] == containers[..i];
      if svc == "" {
        continue;
      }
      if svc in declared {
        groups := groups[svc := (if svc in groups then groups[svc] else []) + [c]];
      }
    }
    assert containers[..|containers|] == containers;
  }

  // ---------------------------------------------------------------------
  // Routers and servers

  /** `traefik.enable` is exactly "true" and a router rule is present. */
  predicate Routable(labels: map<string, string>, svc: string)
  {
    Lookup(labels, EnableLabel) == "true" && Lookup(labels, RuleKey(svc)) != ""
  }

  /** The backend port label, or "80" when it is absent or empty. */
  function PortOf(labels: map<string, string>, svc: string): string
  {
    var p := Lookup(labels, PortKey(svc));
    if p == "" then DefaultPort else p
  }

  function ServerUrl(id: ContainerId, port: string): string
  {
    "http://" + Short(id) + ":" + port
  }

  /** One server per container of the group, in order. */
  function Servers(group: seq<Container>, port: string): seq<Server>
    decreases |group|
  {
    if group == [] then []
    else
      var n := |group| - 1;
      Servers(group[..n], port) + [Server(ServerUrl(group[n].id, port))]
  }

  lemma {:induction false} ServersLayout(group: seq<Container>, port: string)
    ensures |Servers(group, port)| == |group|
    ensures forall k :: 0 <= k < |group| ==> Servers(group, port)[k].url == "http://" + group[k].id[..12] + ":" + port
    decreases |group|
  {
    if group != [] {
      ServersLayout(group[..|group| - 1], port);
    }
  }

  /** The server-building loop of GenerateConfig. */
  method BuildServers(group: seq<Container>, port: string) returns (servers: seq<Server>)
    ensures servers == Servers(group, port)
  {
    servers := [];
    for i := 0 to |group|
      invariant servers == Servers(group[..i], port)
    {
      assert group[..i + 1][..i] == group[..i];
      servers := servers + [Server(ServerUrl(group[i].id, port))];
    }
    assert group[..|group|] == group;
  }

  /** The routers GenerateConfig emits for the services in `names`: one per
      routable group, named after the service and pointing at it. */
  function RoutersFor(groups: map<string, seq<Container>>, names: set<string>): map<string, Router>
    requires forall svc :: svc in groups ==> |groups[svc]| > 0
  {
    map svc | svc in names && svc in groups && Routable(groups[svc][0].labels, svc)
      :: Router(Lookup(groups[svc][0].labels, RuleKey(svc)), svc)
  }

  lemma RoutersForAdd(groups: map<string, seq<Container>>, names: set<string>, svc: string)
    requires forall s :: s in groups ==> |groups[s]| > 0
    requires svc in groups
    ensures RoutersFor(groups, names + {svc})
            == if Routable(groups[svc][0].labels, svc)
               then RoutersFor(groups, names)[svc := Router(Lookup(groups[svc][0].labels, RuleKey(svc)), svc)]
               else RoutersFor(groups, names)
  {
  }

  /** A service gets a router exactly when it is declared, some container
      carries its label, and the first such container is routable. */
  lemma RoutingDecision(cs: seq<Container>, declared: set<string>, svc: string)
    ensures var groups := Groups(cs, declared);
            svc in RoutersFor(groups, groups.Keys)
            <==> svc != "" && svc in declared && |Members(cs, svc)| > 0 && Routable(Members(cs, svc)[0].labels, svc)
    ensures var groups := Groups(cs, declared);
            svc in RoutersFor(groups, groups.Keys)
            ==> RoutersFor(groups, groups.Keys)[svc] == Router(Lookup(Members(cs, svc)[0].labels, RuleKey(svc)), svc)
  {
    GroupsAreMembers(cs, declared, svc);
  }

  // ---------------------------------------------------------------------
  // Health checks

  /** Some label key starts with the service's health-check prefix. */
  predicate HasHealthConfig(labels: map<string, string>, svc: string)
  {
    exists key :: key in labels && HasPrefix(key, HealthPrefix(svc))
  }

  lemma PrefixSplit(key: string, p: string)
    requires HasPrefix(key, p)
    ensures key == p + key[|p|..]
  {
    assert key == key[..|p|] + key[|p|..];
  }

  function HeaderNames(labels: map<string, string>, svc: string): set<string>
  {
    var hp := HeaderKeyPrefix(svc);
    set key | key in labels && HasPrefix(key, hp) :: key[|hp|..]
  }

  lemma HeaderNamesAreKeys(labels: map<string, string>, svc: string)
    ensures forall n :: n in HeaderNames(labels, svc) ==> HeaderKeyPrefix(svc) + n in labels
  {
    var hp := HeaderKeyPrefix(svc);
    forall n | n in HeaderNames(labels, svc)
      ensures hp + n in labels
    {
      var key :| key in labels && HasPrefix(key, hp) && n == key[|hp|..];
      PrefixSplit(key, hp);
    }
  }

  /** The headers given one label each (`...healthCheck.headers.<name>`). */
  function IndividualHeaders(labels: map<string, string>, svc: string): map<string, string>
  {
    HeaderNamesAreKeys(labels, svc);
    map n | n in HeaderNames(labels, svc) :: labels[HeaderKeyPrefix(svc) + n]
  }

  /** Each `...headers.<name>=v` label contributes name -> v, and nothing else does. */
  lemma IndividualHeadersExact(labels: map<string, string>, svc: string, name: string)
    ensures name in IndividualHeaders(labels, svc) <==> HeaderKeyPrefix(svc) + name in labels
    ensures name in IndividualHeaders(labels, svc) ==> IndividualHeaders(labels, svc)[name] == labels[HeaderKeyPrefix(svc) + name]
  {
    var hp := HeaderKeyPrefix(svc);
    var key := hp + name;
    HeaderNamesAreKeys(labels, svc);
    if key in labels {
      assert HasPrefix(key, hp) && key[|hp|..] == name;
    }
  }

  function Restrict(m: map<string, string>, keys: set<string>): map<string, string>
    requires keys <= m.Keys
  {
    map n | n in keys :: m[n]
  }

  /** The header maps the label loop may produce. Without a parsable JSON
      blob the result is exactly the individual headers. With one, the blob
      replaces whatever was collected before it, and the individual headers
      visited after it are laid on top: every blob entry is present, and
      every entry comes from the blob or from its own label. */
  predicate HeadersOutcome(labels: map<string, string>, svc: string, json: JsonParser, headers: map<string, string>)
  {
    var ind := IndividualHeaders(labels, svc);
    var blob := HeaderBlobKey(svc);
    if blob in labels && json(labels[blob]).Some? then
      var parsed := json(labels[blob]).value;
      && (forall n :: n in parsed ==> n in headers)
      && (forall n :: n in headers ==> (n in parsed && headers[n] == parsed[n]) || (n in ind && headers[n] == ind[n]))
    else
      headers == ind
  }

  /** A health-check block as extractHealthCheck fills it: each scalar field
      from its own label (empty when absent), and an admissible header map. */
  predicate ValidExtraction(labels: map<string, string>, svc: string, json: JsonParser, h: HealthCheck)
  {
    var p := HealthPrefix(svc);
    && h.path == Lookup(labels, p + ".path")
    && h.interval == Lookup(labels, p + ".interval")
    && h.timeout == Lookup(labels, p + ".timeout")
    && h.scheme == Lookup(labels, p + ".scheme")
    && h.mode == Lookup(labels, p + ".mode")
    && h.hostname == Lookup(labels, p + ".hostname")
    && h.port == Lookup(labels, p + ".port")
    && h.followRedirects == Lookup(labels, p + ".followRedirects")
    && h.httpMethod == Lookup(labels, p + ".method")
    && h.status == Lookup(labels, p + ".status")
    && HeadersOutcome(labels, svc, json, h.headers)
  }

  predicate ScalarsUnset(labels: map<string, string>, svc: string)
  {
    var p := HealthPrefix(svc);
    && Lookup(labels, p + ".path") == ""
    && Lookup(labels, p + ".interval") == ""
    && Lookup(labels, p + ".timeout") == ""
    && Lookup(labels, p + ".scheme") == ""
    && Lookup(labels, p + ".mode") == ""
    && Lookup(labels, p + ".hostname") == ""
    && Lookup(labels, p + ".port") == ""
    && Lookup(labels, p + ".followRedirects") == ""
    && Lookup(labels, p + ".method") == ""
    && Lookup(labels, p + ".status") == ""
  }

  /** Some visiting order of the labels leaves the header map empty. */
  predicate HeadersCanBeEmpty(labels: map<string, string>, svc: string, json: JsonParser)
  {
    var blob := HeaderBlobKey(svc);
    if blob in labels && json(labels[blob]).Some? then json(labels[blob]).value == map[]
    else IndividualHeaders(labels, svc) == map[]
  }

  /** The health check a service entry may carry: a block is attached only
      when it has a value, and is left out only when there is no health-check
      label or every field came out empty. */
  predicate AttachedHealthCheck(labels: map<string, string>, svc: string, json: JsonParser, hc: Option<HealthCheck>)
  {
    && (hc.Some? ==> HasValues(hc.value) && ValidExtraction(labels, svc, json, hc.value))
    && (hc.None? ==> !HasHealthConfig(labels, svc) || (ScalarsUnset(labels, svc) && HeadersCanBeEmpty(labels, svc, json)))
  }

  /** The first loop of extractHealthCheck: does any label key start with
      the health-check prefix? Labels are visited in an unspecified order,
      as Go ranges over a map. */
  method ScanForHealthConfig(labels: map<string, string>, svc: string) returns (hasConfig: bool)
    ensures hasConfig <==> HasHealthConfig(labels, svc)
  {
    var prefix := HealthPrefix(svc);
    hasConfig := false;
    var unseen := labels.Keys;
    while unseen != {}
      invariant unseen <= labels.Keys
      invariant forall key :: key in labels && key !in unseen ==> !HasPrefix(key, prefix)
      decreases unseen
    {
      var key :| key in unseen;
      if HasPrefix(key, prefix) {
        hasConfig := true;
        break;
      }
      unseen := unseen - {key};
    }
  }

  /** Laying one more individual header over the collected map. */
  lemma AddHeader(base: map<string, string>, ind: map<string, string>, after: set<string>, name: string)
    requires after <= ind.Keys && name in ind
    ensures (base + Restrict(ind, after))[name := ind[name]] == base + Restrict(ind, after + {name})
  {
  }

  /** The header loop of extractHealthCheck, over the labels in an
      unspecified order. */
  method CollectHeaders(labels: map<string, string>, svc: string, json: JsonParser)
    returns (headers: map<string, string>)
    ensures HeadersOutcome(labels, svc, json, headers)
  {
    var blob := HeaderBlobKey(svc);
    var hp := HeaderKeyPrefix(svc);
    ghost var ind := IndividualHeaders(labels, svc);
    HeaderNamesAreKeys(labels, svc);
    headers := map[];
    // `base` is the map the JSON blob put in place (empty before it), and
    // `after` the header names assigned on top of it since.
    ghost var base: map<string, string> := map[];
    ghost var replaced := false;
    ghost var after: set<string> := {};
    var unvisited := labels.Keys;
    while unvisited != {}
      invariant unvisited <= labels.Keys
      invariant after <= ind.Keys
      invariant replaced ==> blob in labels && json(labels[blob]).Some? && base == json(labels[blob]).value
      invariant !replaced ==> base == map[]
      invariant !replaced && blob in labels && blob !in unvisited ==> json(labels[blob]).None?
      invariant headers == base + Restrict(ind, after)
      invariant !replaced ==> forall n :: n in ind && hp + n !in unvisited ==> n in after
      decreases unvisited
    {
      var key :| key in unvisited;
      var value := labels[key];
      if key == blob {
        var parsed := json(value);
        if parsed.Some? {
          headers := parsed.value;
          base, replaced, after := parsed.value, true, {};
          assert headers == base + Restrict(ind, after);
        }
      } else if HasPrefix(key, hp) {
        var name := key[|hp|..];
        PrefixSplit(key, hp);
        IndividualHeadersExact(labels, svc, name);
        AddHeader(base, ind, after, name);
        headers := headers[name := value];
        after := after + {name};
      }
      unvisited := unvisited - {key};
    }
    if !replaced {
      forall n | n in ind
        ensures n in after
      {
        IndividualHeadersExact(labels, svc, n);
      }
      assert Restrict(ind, after) == ind;
    }
  }

  /** extractHealthCheck: None exactly when no label has the health-check
      prefix; otherwise the block the labels describe. */
  method ExtractHealthCheck(labels: map<string, string>, svc: string, json: JsonParser)
    returns (hc: Option<HealthCheck>)
    ensures hc.None? <==> !HasHealthConfig(labels, svc)
    ensures hc.Some? ==> ValidExtraction(labels, svc, json, hc.value)
  {
    var hasConfig := ScanForHealthConfig(labels, svc);
    if !hasConfig {
      return None;
    }
    var prefix := HealthPrefix(svc);
    // Go sets a field only when its label is non-empty; a missing label
    // reads as "" and leaves the field at "", so each field is the lookup.
    var path := Lookup(labels, prefix + ".path");
    var interval := Lookup(labels, prefix + ".interval");
    var timeout := Lookup(labels, prefix + ".timeout");
    var scheme := Lookup(labels, prefix + ".scheme");
    var mode := Lookup(labels, prefix + ".mode");
    var hostname := Lookup(labels, prefix + ".hostname");
    var port := Lookup(labels, prefix + ".port");
    var followRedirects := Lookup(labels, prefix + ".followRedirects");
    var httpMethod := Lookup(labels, prefix + ".method");
    var status := Lookup(labels, prefix + ".status");

    var headers := CollectHeaders(labels, svc, json);
    var extracted := HealthCheck(path, interval, timeout, scheme, mode, hostname, port,
                                 followRedirects, httpMethod, status, map[]);
    if |headers| > 0 {
      extracted := extracted.(headers := headers);
    }
    return Some(extracted);
  }

  // ---------------------------------------------------------------------
  // The whole document

  /** What GenerateConfig stores for a routed service. */
  predicate ServiceEntry(group: seq<Container>, svc: string, json: JsonParser, s: Service)
    requires |group| > 0
  {
    var labels := group[0].labels;
    && s.loadBalancer.servers == Servers(group, PortOf(labels, svc))
    && AttachedHealthCheck(labels, svc, json, s.loadBalancer.healthCheck)
  }

  /** The body of the per-service loop of GenerateConfig: None where the
      loop skips the service (`continue`), otherwise its router and service. */
  method BuildEntry(group: seq<Container>, svc: string, json: JsonParser)
    returns (entry: Option<(Router, Service)>)
    requires |group| > 0
    ensures entry.Some? <==> Routable(group[0].labels, svc)
    ensures entry.Some? ==> entry.value.0 == Router(Lookup(group[0].labels, RuleKey(svc)), svc)
    ensures entry.Some? ==> ServiceEntry(group, svc, json, entry.value.1)
  {
    var first := group[0];
    if Lookup(first.labels, EnableLabel) != "true" {
      return None;
    }
    var rule := Lookup(first.labels, RuleKey(svc));
    if rule == "" {
      return None;
    }
    var port := Lookup(first.labels, PortKey(svc));
    if port == "" {
      port := DefaultPort;
    }
    var servers := BuildServers(group, port);
    var service := Service(LoadBalancer(servers, None));

    var healthCheck := ExtractHealthCheck(first.labels, svc, json);
    if healthCheck.Some? {
      if HasValues(healthCheck.value) {
        service := Service(LoadBalancer(servers, healthCheck));
      }
    }
    return Some((Router(rule, svc), service));
  }

  /** The loop of GenerateConfig over the grouped services, in map order:
      each routable service contributes its router and its service. */
  method BuildEntries(groups: map<string, seq<Container>>, json: JsonParser)
    returns (routers: map<string, Router>, services: map<string, Service>)
    requires forall svc :: svc in groups ==> |groups[svc]| > 0
    ensures routers == RoutersFor(groups, groups.Keys)
    ensures services.Keys == routers.Keys
    ensures forall svc :: svc in services ==> svc in groups && ServiceEntry(groups[svc], svc, json, services[svc])
  {
    routers, services := map[], map[];
    var pending := groups.Keys;
    while pending != {}
      invariant pending <= groups.Keys
      invariant routers == RoutersFor(groups, groups.Keys - pending)
      invariant services.Keys == routers.Keys
      invariant forall svc :: svc in services ==> svc in groups && ServiceEntry(groups[svc], svc, json, services[svc])
      decreases pending
    {
      var svc :| svc in pending;
      RoutersForAdd(groups, groups.Keys - pending, svc);
      assert groups.Keys - (pending - {svc}) == (groups.Keys - pending) + {svc};
      pending := pending - {svc};
      var entry := BuildEntry(groups[svc], svc, json);
      if entry.Some? {
        routers := routers[svc := entry.value.0];
        services := services[svc := entry.value.1];
      }
    }
    assert groups.Keys - pending == groups.Keys;
  }

  /** GenerateConfig, up to the YAML marshalling and the file write. */
  method GenerateConfig(containers: seq<Container>, composeFiles: seq<ComposeRead>, json: JsonParser)
    returns (r: Result<Config, GenerateError>)
    ensures r.Err? <==> !AllReadable(composeFiles)
    ensures r.Err? ==> r.error.index < |composeFiles| && composeFiles[r.error.index].None? && AllReadable(composeFiles[..r.error.index])
    ensures r.Ok? ==>
      var groups := Groups(containers, Declared(composeFiles));
      && r.value.routers == RoutersFor(groups, groups.Keys)
      && r.value.services.Keys == r.value.routers.Keys
      && forall svc :: svc in r.value.services ==> ServiceEntry(groups[svc], svc, json, r.value.services[svc])
    ensures r.Ok? ==> RoutersResolve(r.value)
    ensures r.Ok? ==> forall svc :: svc in r.value.services ==> |r.value.services[svc].loadBalancer.servers| > 0
  {
    var read := ReadComposeServices(composeFiles);
    if read.Err? {
      return Err(read.error);
    }
    var groups := GroupContainers(containers, read.value);
    var routers, services := BuildEntries(groups, json);
    forall svc | svc in services
      ensures |services[svc].loadBalancer.servers| > 0
    {
      ServersLayout(groups[svc], PortOf(groups[svc][0].labels, svc));
    }
    return Ok(Config(routers, services));
  }

  // ---------------------------------------------------------------------
  // Properties of the health-check extraction

  /** A lone header label with no JSON blob always yields an attached block
      holding that header. */
  lemma SingleHeaderAttached(labels: map<string, string>, svc: string, json: JsonParser, name: string, hc: Option<HealthCheck>)
    requires HeaderKeyPrefix(svc) + name in labels && HeaderBlobKey(svc) !in labels
    requires AttachedHealthCheck(labels, svc, json, hc)
    ensures hc.Some?
    ensures name in hc.value.headers && hc.value.headers[name] == labels[HeaderKeyPrefix(svc) + name]
  {
    var key := HeaderKeyPrefix(svc) + name;
    assert HasPrefix(key, HealthPrefix(svc)) by {
      assert key == HealthPrefix(svc) + (".headers." + name);
    }
    IndividualHeadersExact(labels, svc, name);
  }

  /** With a parsable JSON blob the outcome depends on the visiting order:
      the blob alone (visited last) and the blob overlaid by every single
      header (visited first) are both possible, and they differ as soon as
      one header label disagrees with the blob. */
  lemma BlobOrderMatters(labels: map<string, string>, svc: string, json: JsonParser, name: string)
    requires HeaderBlobKey(svc) in labels && json(labels[HeaderBlobKey(svc)]).Some?
    requires HeaderKeyPrefix(svc) + name in labels
    requires var parsed := json(labels[HeaderBlobKey(svc)]).value;
             name !in parsed || parsed[name] != labels[HeaderKeyPrefix(svc) + name]
    ensures var parsed := json(labels[HeaderBlobKey(svc)]).value;
            && HeadersOutcome(labels, svc, json, parsed)
            && HeadersOutcome(labels, svc, json, parsed + IndividualHeaders(labels, svc))
            && parsed != parsed + IndividualHeaders(labels, svc)
  {
    IndividualHeadersExact(labels, svc, name);
  }
}
