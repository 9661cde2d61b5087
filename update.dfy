/** The routing-configuration patcher: rewrite the host part of server URLs
    from old container IDs to new ones, pairing the two lists by position. */
module TraefikUpdate {
  import opened Common
  import opened GoStrings
  import opened TraefikTypes
  import TraefikGenerate

  /** The configuration file could not be read or parsed. */
  datatype UpdateError = ConfigUnreadable

  /** The `containerMap` of UpdateConfig: old short ID to new short ID for
      every position present in both lists; a later position overrides an
      earlier one with the same old short ID. */
  function IdMap(olds: seq<ContainerId>, news: seq<ContainerId>): map<string, string>
    decreases |olds|
  {
    if olds == [] then map[]
    else
      var i := |olds| - 1;
      var m := IdMap(olds[..i], news);
      if i < |news| then m[Short(olds[i]) := Short(news[i])] else m
  }

  /** The map's keys are the paired old short IDs, and each maps to the
      short form of a new ID paired with it. */
  lemma {:induction false} IdMapEntries(olds: seq<ContainerId>, news: seq<ContainerId>, k: string)
    ensures k in IdMap(olds, news) <==> exists i :: 0 <= i < |olds| && i < |news| && Short(olds[i]) == k
    ensures k in IdMap(olds, news) ==>
              exists i :: 0 <= i < |olds| && i < |news| && Short(olds[i]) == k && IdMap(olds, news)[k] == Short(news[i])
    decreases |olds|
  {
    if olds != [] {
      var n := |olds| - 1;
      IdMapEntries(olds[..n], news, k);
      assert forall i :: 0 <= i < n ==> olds[..n][i] == olds[i];
    }
  }

  /** With distinct old short IDs, position i maps to position i. */
  lemma {:induction false} IdMapPositional(olds: seq<ContainerId>, news: seq<ContainerId>, i: nat)
    requires i < |olds| && i < |news|
    requires forall j :: 0 <= j < |olds| && j != i ==> Short(olds[j]) != Short(olds[i])
    ensures Short(olds[i]) in IdMap(olds, news) && IdMap(olds, news)[Short(olds[i])] == Short(news[i])
    decreases |olds|
  {
    var n := |olds| - 1;
    if i < n {
      IdMapPositional(olds[..n], news, i);
    }
  }

  /** The URL rewrite of one server: only a URL splitting into exactly two
      parts on "//", whose second part splits into exactly two parts on ":",
      and whose host is a mapped old ID, is changed. */
  function RewriteUrl(url: string, m: map<string, string>): string
  {
    var parts := Split(url, "//");
    if |parts| != 2 then url
    else
      var hostPort := Split(parts[1], ":");
      if |hostPort| != 2 then url
      else if hostPort[0] in m then "http://" + m[hostPort[0]] + ":" + hostPort[1]
      else url
  }

  /** What UpdateConfig changes in one service entry: only server URLs. */
  predicate PatchedService(s: Service, t: Service, m: map<string, string>)
  {
    && t.loadBalancer.healthCheck == s.loadBalancer.healthCheck
    && |t.loadBalancer.servers| == |s.loadBalancer.servers|
    && forall i :: 0 <= i < |s.loadBalancer.servers| ==>
         t.loadBalancer.servers[i].url == RewriteUrl(s.loadBalancer.servers[i].url, m)
  }

  /** Routers and service names untouched; every service patched. */
  predicate Patched(before: Config, after: Config, m: map<string, string>)
  {
    && after.routers == before.routers
    && after.services.Keys == before.services.Keys
    && forall name :: name in before.services ==> PatchedService(before.services[name], after.services[name], m)
  }

  /** The inner loop of UpdateConfig over one service's servers. */
  method RewriteServers(servers: seq<Server>, containerMap: map<string, string>) returns (updated: seq<Server>)
    ensures |updated| == |servers|
    ensures forall i :: 0 <= i < |servers| ==> updated[i].url == RewriteUrl(servers[i].url, containerMap)
  {
    updated := servers;
    for i := 0 to |servers|
      invariant |updated| == |servers|
      invariant forall j :: 0 <= j < i ==> updated[j].url == RewriteUrl(servers[j].url, containerMap)
      invariant forall j :: i <= j < |servers| ==> updated[j] == servers[j]
    {
      var parts := Split(servers[i].url, "//");
      if |parts| != 2 {
        continue;
      }
      var hostPort := Split(parts[1], ":");
      if |hostPort| != 2 {
        continue;
      }
      var oldContainerId := hostPort[0];
      if oldContainerId in containerMap {
        updated := updated[i := Server("http://" + containerMap[oldContainerId] + ":" + hostPort[1])];
      }
    }
  }

  /** UpdateConfig, between reading and writing the file: `doc` is the
      parsed file, None when it could not be read or parsed. */
  method UpdateConfig(doc: Option<Config>, olds: seq<ContainerId>, news: seq<ContainerId>)
    returns (r: Result<Config, UpdateError>)
    ensures r.Err? <==> doc.None?
    ensures r.Ok? ==> Patched(doc.value, r.value, IdMap(olds, news))
  {
    if doc.None? {
      return Err(ConfigUnreadable);
    }
    var config := doc.value;

    var containerMap: map<string, string> := map[];
    for i := 0 to |olds|
      invariant containerMap == IdMap(olds[..i], news)
    {
      assert olds[..i + 1][..i] == olds[..i];
      if i < |news| {
        containerMap := containerMap[Short(olds[i]) := Short(news[i])];
      }
    }
    assert olds[..|olds|] == olds;

    var services := config.services;
    var pending := services.Keys;
    while pending != {}
      invariant pending <= config.services.Keys
      invariant services.Keys == config.services.Keys
      invariant forall name :: name in pending ==> services[name] == config.services[name]
      invariant forall name :: name in services && name !in pending ==>
                  PatchedService(config.services[name], services[name], containerMap)
      decreases pending
    {
      var name :| name in pending;
      var service := services[name];
      var servers := RewriteServers(service.loadBalancer.servers, containerMap);
      services := services[name := Service(service.loadBalancer.(servers := servers))];
      pending := pending - {name};
    }
    return Ok(config.(services := services));
  }

  // ---------------------------------------------------------------------
  // Properties of the patcher

  /** A URL written by the synthesiser is recognised: its host is replaced
      exactly when it is a mapped old ID, and the port is kept. */
  lemma RewriteGenerated(id: ContainerId, port: string, m: map<string, string>)
    requires Free(Short(id), ':') && Free(Short(id), '/') && Free(port, ':') && Free(port, '/')
    ensures RewriteUrl(TraefikGenerate.ServerUrl(id, port), m)
            == if Short(id) in m then "http://" + m[Short(id)] + ":" + port else TraefikGenerate.ServerUrl(id, port)
  {
    var host := Short(id);
    var rest := host + ":" + port;
    var url := TraefikGenerate.ServerUrl(id, port);
    assert url == "http:" + "//" + rest;
    assert Free("http:", '/');
    SplitAround("http:", "//", rest);
    assert Free(rest, '/');
    SplitAbsent(rest, "//");
    assert Split(url, "//") == ["http:", rest];
    SplitAround(host, ":", port);
    SplitAbsent(port, ":");
    assert Split(rest, ":") == [host, port];
  }

  /** Patching again with the same map changes nothing, provided no new
      short ID is itself an old short ID and new IDs contain no ':' or '/'. */
  lemma RewriteIdempotent(url: string, m: map<string, string>)
    requires forall k :: k in m ==> m[k] !in m && Free(m[k], ':') && Free(m[k], '/')
    ensures RewriteUrl(RewriteUrl(url, m), m) == RewriteUrl(url, m)
  {
    var once := RewriteUrl(url, m);
    if once != url {
      var parts := Split(url, "//");
      var hostPort := Split(parts[1], ":");
      var v, p := m[hostPort[0]], hostPort[1];
      var rest := v + ":" + p;
      assert once == "http:" + "//" + rest;
      assert Free("http:", '/');
      SplitAround("http:", "//", rest);
      var parts2 := Split(once, "//");
      if |parts2| == 2 {
        SplitSingle(rest, "//");
        assert parts2[1] == rest;
        SplitAround(v, ":", p);
        assert Split(rest, ":")[0] == v;
      }
    }
  }

  /** Distinct old and new short IDs give a map whose values are not keys. */
  lemma {:induction false} IdMapValuesFresh(olds: seq<ContainerId>, news: seq<ContainerId>)
    requires forall i, j :: 0 <= i < |news| && 0 <= j < |olds| ==> Short(news[i]) != Short(olds[j])
    ensures forall k :: k in IdMap(olds, news) ==> IdMap(olds, news)[k] !in IdMap(olds, news)
  {
    forall k | k in IdMap(olds, news)
      ensures IdMap(olds, news)[k] !in IdMap(olds, news)
    {
      IdMapEntries(olds, news, k);
      var v := IdMap(olds, news)[k];
      IdMapEntries(olds, news, v);
    }
  }

  /** UpdateConfig applied to its own output with the same ID lists is a
      no-op, under the conditions of RewriteIdempotent. */
  lemma PatchTwice(c0: Config, c1: Config, c2: Config, m: map<string, string>)
    requires forall k :: k in m ==> m[k] !in m && Free(m[k], ':') && Free(m[k], '/')
    requires Patched(c0, c1, m) && Patched(c1, c2, m)
    ensures c2 == c1
  {
    forall name | name in c1.services
      ensures c2.services[name] == c1.services[name]
    {
      var s0, s1, s2 := c0.services[name], c1.services[name], c2.services[name];
      forall i | 0 <= i < |s1.loadBalancer.servers|
        ensures s2.loadBalancer.servers[i] == s1.loadBalancer.servers[i]
      {
        RewriteIdempotent(s0.loadBalancer.servers[i].url, m);
      }
      assert s2.loadBalancer.servers == s1.loadBalancer.servers;
    }
    assert c2.services == c1.services;
  }

  /** When a new short ID is also an old one, a second patch moves the
      server again: a URL on A goes to B and then on to C. */
  lemma ChainedIdsAreNotIdempotent()
    ensures var a: ContainerId := "aaaaaaaaaaaa";
            var b: ContainerId := "bbbbbbbbbbbb";
            var c: ContainerId := "cccccccccccc";
            var m := IdMap([a, b], [b, c]);
            var url := TraefikGenerate.ServerUrl(a, "80");
            && RewriteUrl(url, m) == TraefikGenerate.ServerUrl(b, "80")
            && RewriteUrl(RewriteUrl(url, m), m) == TraefikGenerate.ServerUrl(c, "80")
  {
    var a: ContainerId := "aaaaaaaaaaaa";
    var b: ContainerId := "bbbbbbbbbbbb";
    var c: ContainerId := "cccccccccccc";
    var m := IdMap([a, b], [b, c]);
    assert [a, b][..1] == [a] && [a][..0] == [];
    assert IdMap([a], [b, c]) == map[Short(a) := Short(b)];
    assert m == map[Short(a) := Short(b), Short(b) := Short(c)];
    RewriteGenerated(a, "80", m);
    RewriteGenerated(b, "80", m);
  }

  /** A shorter new list leaves the unpaired old IDs unmapped: with old IDs
      [A, B] and new IDs [C], only A is rewritten. */
  lemma ShortNewListPairsPrefix(a: ContainerId, b: ContainerId, c: ContainerId)
    requires Short(b) != Short(a)
    ensures IdMap([a, b], [c]) == map[Short(a) := Short(c)]
  {
    assert [a, b][..1] == [a] && [a][..0] == [];
    assert IdMap([a], [c]) == map[Short(a) := Short(c)];
  }
}
