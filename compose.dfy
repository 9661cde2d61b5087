/** The `docker compose` side of the plug-in: the container filter by
    service label, the argument lists handed to `docker`, the project name,
    the wait for a freshly started stack, and the deploy decisions. */
module Compose {
  import opened Common
  import opened GoStrings
  import TraefikGenerate

  const ProjectLabel := "com.docker.compose.project"

  /** Attempts of the wait-for-running loop. */
  const MaxRetries := 30

  datatype ComposeError =
    | ListFailed
    | ExecFailed
    | ComposeUnreadable(index: nat)
    | NotFound(service: string)
    | InspectFailed
    | StartFailed
    | LogsFailed

  // ---------------------------------------------------------------------
  // Containers of one service

  /** The IDs of the containers whose compose-service label is `svc`, in
      listing order. */
  function ServiceIds(cs: seq<Container>, svc: string): seq<ContainerId>
    decreases |cs|
  {
    if cs == [] then []
    else
      var n := |cs| - 1;
      ServiceIds(cs[..n], svc) + (if Lookup(cs[n].labels, TraefikGenerate.ComposeServiceLabel) == svc then [cs[n].id] else [])
  }

  /** The filter agrees with the synthesiser's grouping: the IDs are those
      of the service's members. */
  lemma {:induction false} ServiceIdsAreMembers(cs: seq<Container>, svc: string)
    ensures ServiceIds(cs, svc) == Ids(TraefikGenerate.Members(cs, svc))
    decreases |cs|
  {
    if cs != [] {
      var n := |cs| - 1;
      ServiceIdsAreMembers(cs[..n], svc);
      var m := TraefikGenerate.Members(cs[..n], svc);
      var extra := if TraefikGenerate.ServiceOf(cs[n]) == svc then [cs[n]] else [];
      assert Ids(m + extra) == Ids(m) + Ids(extra);
    }
  }

  /** An ID is returned exactly when some listed container with that ID
      carries the label. */
  lemma {:induction false} ServiceIdsExact(cs: seq<Container>, svc: string, id: ContainerId)
    ensures id in ServiceIds(cs, svc) <==>
              exists i :: 0 <= i < |cs| && cs[i].id == id && Lookup(cs[i].labels, TraefikGenerate.ComposeServiceLabel) == svc
    decreases |cs|
  {
    if cs != [] {
      var n := |cs| - 1;
      ServiceIdsExact(cs[..n], svc, id);
      assert forall i :: 0 <= i < n ==> cs[..n][i] == cs[i];
    }
  }

  /** GetServiceContainers on the engine's listing (None when listing fails). */
  method GetServiceContainers(listing: Option<seq<Container>>, svc: string)
    returns (r: Result<seq<ContainerId>, ComposeError>)
    ensures r.Err? <==> listing.None?
    ensures r.Err? ==> r.error == ListFailed
    ensures r.Ok? ==> r.value == ServiceIds(listing.value, svc)
  {
    if listing.None? {
      return Err(ListFailed);
    }
    var containers := listing.value;
    var serviceContainers: seq<ContainerId> := [];
    for i := 0 to |containers|
      invariant serviceContainers == ServiceIds(containers[..i], svc)
    {
      assert containers[..i + 1][..i] == containers[..i];
      if Lookup(containers[i].labels, TraefikGenerate.ComposeServiceLabel) == svc {
        serviceContainers := serviceContainers + [containers[i].id];
      }
    }
    assert containers[..|containers|] == containers;
    return Ok(serviceContainers);
  }

  // ---------------------------------------------------------------------
  // Argument lists

  /** `flag v` for every value, in order. */
  function FlagPairs(flag: string, values: seq<string>): (args: seq<string>)
    ensures |args| == 2 * |values|
    ensures forall k :: 0 <= k < |values| ==> args[2 * k] == flag && args[2 * k + 1] == values[k]
    decreases |values|
  {
    if values == [] then []
    else
      var n := |values| - 1;
      FlagPairs(flag, values[..n]) + [flag, values[n]]
  }

  /** The append loop shared by every command builder. */
  method AppendFlagPairs(args: seq<string>, flag: string, values: seq<string>) returns (out: seq<string>)
    ensures out == args + FlagPairs(flag, values)
  {
    out := args;
    for i := 0 to |values|
      invariant out == args + FlagPairs(flag, values[..i])
    {
      assert values[..i + 1][..i] == values[..i];
      out := out + [flag, values[i]];
    }
    assert values[..|values|] == values;
  }

  /** `compose`, the `-f` pairs, the `--env-file` pairs, then `tail`. */
  function ComposeCommand(files: seq<string>, envs: seq<string>, tail: seq<string>): seq<string>
  {
    ["compose"] + FlagPairs("-f", files) + FlagPairs("--env-file", envs) + tail
  }

  /** Where each part sits in a compose command. */
  lemma CommandLayout(files: seq<string>, envs: seq<string>, tail: seq<string>)
    ensures var args := ComposeCommand(files, envs, tail);
            var e := 1 + 2 * |files|;
            var t := e + 2 * |envs|;
            && |args| == t + |tail|
            && args[0] == "compose"
            && (forall k :: 0 <= k < |files| ==> args[1 + 2 * k] == "-f" && args[2 + 2 * k] == files[k])
            && (forall k :: 0 <= k < |envs| ==> args[e + 2 * k] == "--env-file" && args[e + 2 * k + 1] == envs[k])
            && args[t..] == tail
  {
    var fp := FlagPairs("-f", files);
    var ep := FlagPairs("--env-file", envs);
    var args := ComposeCommand(files, envs, tail);
    assert args == ["compose"] + fp + ep + tail;
    forall k | 0 <= k < |files|
      ensures args[1 + 2 * k] == "-f" && args[2 + 2 * k] == files[k]
    {
      assert args[1 + 2 * k] == fp[2 * k] && args[2 + 2 * k] == fp[2 * k + 1];
    }
    forall k | 0 <= k < |envs|
      ensures args[1 + 2 * |files| + 2 * k] == "--env-file" && args[1 + 2 * |files| + 2 * k + 1] == envs[k]
    {
      assert args[1 + 2 * |files| + 2 * k] == ep[2 * k];
      assert args[1 + 2 * |files| + 2 * k + 1] == ep[2 * k + 1];
    }
  }

  /** The tail of the scale command. */
  function ScaleTail(svc: string, replicas: int): seq<string>
  {
    ["up", "--detach", "--scale", svc + "=" + Decimal(replicas), "--no-recreate", svc]
  }

  /** The command line ScaleService hands to `docker`. */
  method BuildScaleArgs(svc: string, replicas: int, files: seq<string>, envs: seq<string>) returns (args: seq<string>)
    ensures args == ComposeCommand(files, envs, ScaleTail(svc, replicas))
  {
    args := AppendFlagPairs(["compose"], "-f", files);
    args := AppendFlagPairs(args, "--env-file", envs);
    args := args + ScaleTail(svc, replicas);
  }

  /** The stack-up command of `DeployService("up")`. */
  method BuildStackUpArgs(files: seq<string>, envs: seq<string>) returns (args: seq<string>)
    ensures args == ComposeCommand(files, envs, ["up", "-d"])
  {
    args := AppendFlagPairs(["compose"], "-f", files);
    args := AppendFlagPairs(args, "--env-file", envs);
    args := args + ["up", "-d"];
  }

  /** The command creating one missing service. */
  method BuildCreateArgs(svc: string, files: seq<string>, envs: seq<string>) returns (args: seq<string>)
    ensures args == ComposeCommand(files, envs, ["up", "-d", "--no-recreate", svc])
  {
    args := AppendFlagPairs(["compose"], "-f", files);
    args := AppendFlagPairs(args, "--env-file", envs);
    args := args + ["up", "-d", "--no-recreate", svc];
  }

  /** The log-following command after a foreground stack-up (no env files). */
  method BuildLogsArgs(files: seq<string>) returns (args: seq<string>)
    ensures args == ComposeCommand(files, [], ["logs", "--follow", "--tail=1"])
  {
    args := AppendFlagPairs(["compose"], "-f", files);
    args := args + ["logs", "--follow", "--tail=1"];
  }

  // ---------------------------------------------------------------------
  // Decimal formatting of the replica count (`%d`)

  function DigitChar(d: nat): char
    requires d < 10
  {
    ('0' as int + d) as char
  }

  predicate IsDigit(c: char)
  {
    '0' <= c <= '9'
  }

  function Digits(n: nat): (s: string)
    ensures |s| >= 1
    ensures forall i :: 0 <= i < |s| ==> IsDigit(s[i])
    decreases n
  {
    if n < 10 then [DigitChar(n)] else Digits(n / 10) + [DigitChar(n % 10)]
  }

  function Decimal(n: int): string
  {
    if n < 0 then "-" + Digits(-n) else Digits(n)
  }

  /** The value of a string of digits. */
  function DigitsValue(s: string): nat
    requires forall i :: 0 <= i < |s| ==> IsDigit(s[i])
    decreases |s|
  {
    if s == [] then 0
    else
      var n := |s| - 1;
      assert IsDigit(s[n]);
      DigitsValue(s[..n]) * 10 + (s[n] as int - '0' as int)
  }

  /** Reading a decimal back, the inverse of Decimal. */
  function ParseDecimal(s: string): Option<int>
  {
    if |s| > 0 && s[0] == '-' then
      (if |s| > 1 && forall i :: 1 <= i < |s| ==> IsDigit(s[i]) then Some(0 - DigitsValue(s[1..]) as int) else None)
    else if |s| > 0 && forall i :: 0 <= i < |s| ==> IsDigit(s[i]) then Some(DigitsValue(s))
    else None
  }

  lemma {:induction false} DigitsRoundTrip(n: nat)
    ensures DigitsValue(Digits(n)) == n
    decreases n
  {
    if n >= 10 {
      DigitsRoundTrip(n / 10);
      var s := Digits(n);
      assert s[..|s| - 1] == Digits(n / 10);
    }
  }

  /** The replica count in the scale command reads back as the number. */
  lemma DecimalRoundTrip(n: int)
    ensures ParseDecimal(Decimal(n)) == Some(n)
  {
    if n < 0 {
      DigitsRoundTrip(-n);
      assert Decimal(n)[1..] == Digits(-n);
    } else {
      DigitsRoundTrip(n);
    }
  }

  // ---------------------------------------------------------------------
  // Project name (Go's filepath.Base and filepath.Ext on '/' paths)

  function TrimTrailingSlashes(p: string): (q: string)
    ensures |q| <= |p| && q == p[..|q|]
    decreases |p|
  {
    if |p| > 0 && p[|p| - 1] == '/' then TrimTrailingSlashes(p[..|p| - 1]) else p
  }

  /** The characters after the last '/'. */
  function LastElement(p: string): (e: string)
    ensures Free(e, '/')
    decreases |p|
  {
    if |p| == 0 || p[|p| - 1] == '/' then "" else LastElement(p[..|p| - 1]) + [p[|p| - 1]]
  }

  function Base(path: string): string
  {
    if path == "" then "."
    else
      var e := LastElement(TrimTrailingSlashes(path));
      if e == "" then "/" else e
  }

  /** The suffix from the last '.' of the last element, or "". */
  function Ext(path: string): string
    decreases |path|
  {
    if |path| == 0 || path[|path| - 1] == '/' then ""
    else if path[|path| - 1] == '.' then "."
    else
      var e := Ext(path[..|path| - 1]);
      if e == "" then "" else e + [path[|path| - 1]]
  }

  function TrimSuffix(s: string, suffix: string): string
  {
    if |suffix| <= |s| && s[|s| - |suffix|..] == suffix then s[..|s| - |suffix|] else s
  }

  /** The base name of the first compose file without its extension; ""
      when no file is given. */
  function ProjectName(composeFiles: seq<string>): string
  {
    if |composeFiles| == 0 then ""
    else
      var base := Base(composeFiles[0]);
      TrimSuffix(base, Ext(base))
  }

  /** Ext is "" or a suffix starting at the last '.', with no '/' in it. */
  lemma {:induction false} ExtIsLastDotSuffix(path: string)
    ensures var e := Ext(path);
            && |e| <= |path| && path[|path| - |e|..] == e
            && (e == "" || (e[0] == '.' && Free(e[1..], '.') && Free(e, '/')))
    decreases |path|
  {
    if |path| > 0 && path[|path| - 1] != '/' && path[|path| - 1] != '.' {
      var n := |path| - 1;
      ExtIsLastDotSuffix(path[..n]);
      var e := Ext(path[..n]);
      if e != "" {
        assert path[|path| - |e| - 1..] == path[..n][n - |e|..] + [path[n]];
        assert (e + [path[n]])[1..] == e[1..] + [path[n]];
      }
    }
  }

  /** A name with no '.' in its last element has no extension. */
  lemma {:induction false} ExtNoDot(path: string)
    requires Free(path, '.')
    ensures Ext(path) == ""
    decreases |path|
  {
    if |path| > 0 && path[|path| - 1] != '/' {
      ExtNoDot(path[..|path| - 1]);
    }
  }

  /** The project name and the extension make up the base name. */
  lemma ProjectNamePlusExt(composeFiles: seq<string>)
    requires |composeFiles| > 0
    ensures ProjectName(composeFiles) + Ext(Base(composeFiles[0])) == Base(composeFiles[0])
  {
    var base := Base(composeFiles[0]);
    ExtIsLastDotSuffix(base);
    TrimSuffixJoin(base, Ext(base));
  }

  lemma TrimSuffixJoin(s: string, suffix: string)
    requires |suffix| <= |s| && s[|s| - |suffix|..] == suffix
    ensures TrimSuffix(s, suffix) + suffix == s
  {
    assert s[..|s| - |suffix|] + s[|s| - |suffix|..] == s;
  }

  /** The last element of `dir/name` is `name`. */
  lemma {:induction false} LastElementAfterSlash(dir: string, name: string)
    requires Free(name, '/')
    ensures LastElement(dir + "/" + name) == name
    decreases |name|
  {
    if |name| == 0 {
      assert (dir + "/" + name)[|dir + "/" + name| - 1] == '/';
    } else {
      var n := |name| - 1;
      assert (dir + "/" + name)[..|dir + "/" + name| - 1] == dir + "/" + name[..n];
      LastElementAfterSlash(dir, name[..n]);
      assert name[..n] + [name[n]] == name;
    }
  }

  /** The extension of `stem.ext` is `.ext` when `ext` has no '.' or '/'. */
  lemma {:induction false} ExtAfterDot(stem: string, ext: string)
    requires Free(ext, '.') && Free(ext, '/')
    ensures Ext(stem + "." + ext) == "." + ext
    decreases |ext|
  {
    if |ext| > 0 {
      var n := |ext| - 1;
      assert (stem + "." + ext)[..|stem + "." + ext| - 1] == stem + "." + ext[..n];
      ExtAfterDot(stem, ext[..n]);
      assert "." + ext[..n] + [ext[n]] == "." + ext;
    }
  }

  /** `dir/stem.ext` names the project `stem` (stem without '/' and
      non-empty, extension without '.' or '/'). */
  lemma ProjectNameOfPath(dir: string, stem: string, ext: string, rest: seq<string>)
    requires |stem| > 0 && Free(stem, '/') && Free(ext, '.') && Free(ext, '/')
    ensures ProjectName([dir + "/" + stem + "." + ext] + rest) == stem
  {
    var name := stem + "." + ext;
    var path := dir + "/" + name;
    assert path == dir + "/" + stem + "." + ext;
    assert Free(name, '/') by {
      assert forall i :: 0 <= i < |name| ==> name[i] == (if i < |stem| then stem[i] else if i == |stem| then '.' else ext[i - |stem| - 1]);
    }
    assert path[|path| - 1] != '/' by {
      assert path[|path| - 1] == name[|name| - 1];
    }
    assert TrimTrailingSlashes(path) == path;
    LastElementAfterSlash(dir, name);
    assert Base(path) == name;
    ExtAfterDot(stem, ext);
    assert name[|name| - |"." + ext|..] == "." + ext;
    assert name[..|name| - |"." + ext|] == stem;
  }

  // ---------------------------------------------------------------------
  // Waiting for a started stack

  /** Inspection of a container during one attempt: Some(running), or
      None when inspection fails. */
  function RunningAt(inspect: (nat, ContainerId) -> Option<bool>, attempt: nat): ContainerId -> Option<bool>
  {
    (id: ContainerId) => inspect(attempt, id)
  }

  /** Every listed container of the project inspects as running. */
  predicate AllProjectRunning(cs: seq<Container>, project: string, probe: ContainerId -> Option<bool>)
  {
    forall i :: 0 <= i < |cs| && Lookup(cs[i].labels, ProjectLabel) == project ==> probe(cs[i].id) == Some(true)
  }

  /** One attempt: skip other projects' containers, stop at the first
      inspection failure or non-running container. */
  method CheckProjectRunning(cs: seq<Container>, project: string, probe: ContainerId -> Option<bool>)
    returns (allRunning: bool)
    ensures allRunning <==> AllProjectRunning(cs, project, probe)
  {
    allRunning := true;
    for i := 0 to |cs|
      invariant forall j :: 0 <= j < i && Lookup(cs[j].labels, ProjectLabel) == project ==> probe(cs[j].id) == Some(true)
    {
      if Lookup(cs[i].labels, ProjectLabel) != project {
        continue;
      }
      var info := probe(cs[i].id);
      if info.None? || !info.value {
        allRunning := false;
        break;
      }
    }
  }

  /** The wait-for-running loop over the listing taken once before it:
      at most MaxRetries attempts, a one-second sleep between attempts but
      not after the last, stopping at the first attempt that finds the
      project running. */
  method WaitForRunning(cs: seq<Container>, project: string, inspect: (nat, ContainerId) -> Option<bool>)
    returns (ready: bool, attempts: nat, sleeps: nat)
    ensures 1 <= attempts <= MaxRetries
    ensures sleeps == attempts - 1
    ensures ready <==> AllProjectRunning(cs, project, RunningAt(inspect, attempts - 1))
    ensures forall k: nat :: k < attempts - 1 ==> !AllProjectRunning(cs, project, RunningAt(inspect, k))
    ensures !ready ==> attempts == MaxRetries
  {
    sleeps := 0;
    var retry := 0;
    while retry < MaxRetries
      invariant retry <= MaxRetries
      invariant sleeps == if retry < MaxRetries then retry else MaxRetries - 1
      invariant forall k: nat :: k < retry ==> !AllProjectRunning(cs, project, RunningAt(inspect, k))
    {
      var allRunning := CheckProjectRunning(cs, project, RunningAt(inspect, retry));
      if allRunning {
        return true, retry + 1, sleeps;
      }
      if retry < MaxRetries - 1 {
        sleeps := sleeps + 1;
      }
      retry := retry + 1;
    }
    return false, MaxRetries, sleeps;
  }

  // ---------------------------------------------------------------------
  // Deploy

  /** An existing container is started only from these states. */
  predicate ShouldStart(status: string)
  {
    status == "exited" || status == "created"
  }

  /** The compose files as parsed from their paths. */
  function Parsed(composeFiles: seq<string>, parse: string -> TraefikGenerate.ComposeRead): (files: seq<TraefikGenerate.ComposeRead>)
    ensures |files| == |composeFiles|
    ensures forall i :: 0 <= i < |composeFiles| ==> files[i] == parse(composeFiles[i])
  {
    seq(|composeFiles|, i requires 0 <= i < |composeFiles| => parse(composeFiles[i]))
  }

  /** The `composeServices` list of a single-service deploy: every
      service key of every file, each file's keys in map order (chosen
      freely here); the first unreadable file aborts. */
  method CollectComposeServices(composeFiles: seq<string>, parse: string -> TraefikGenerate.ComposeRead)
    returns (r: Result<seq<string>, ComposeError>)
    ensures r.Ok? <==> TraefikGenerate.AllReadable(Parsed(composeFiles, parse))
    ensures r.Ok? ==> forall s :: s in r.value <==> s in TraefikGenerate.Declared(Parsed(composeFiles, parse))
    ensures r.Err? ==> r.error.ComposeUnreadable? && r.error.index < |composeFiles| && parse(composeFiles[r.error.index]).None?
    ensures r.Err? ==> TraefikGenerate.AllReadable(Parsed(composeFiles, parse)[..r.error.index])
  {
    ghost var files := Parsed(composeFiles, parse);
    var names: seq<string> := [];
    for i := 0 to |composeFiles|
      invariant TraefikGenerate.AllReadable(files[..i])
      invariant forall s :: s in names <==> s in TraefikGenerate.Declared(files[..i])
    {
      assert files[..i + 1][..i] == files[..i];
      var composeFile := parse(composeFiles[i]);
      if composeFile.None? {
        return Err(ComposeUnreadable(i));
      }
      var pending := composeFile.value;
      while pending != {}
        invariant pending <= composeFile.value
        invariant forall s :: s in names <==> s in TraefikGenerate.Declared(files[..i]) || s in composeFile.value - pending
        decreases pending
      {
        var serviceName :| serviceName in pending;
        names := names + [serviceName];
        pending := pending - {serviceName};
      }
    }
    assert files[..|composeFiles|] == files;
    return Ok(names);
  }

  /** The `serviceExists` flag loop. */
  method ServiceExists(names: seq<string>, svc: string) returns (found: bool)
    ensures found <==> svc in names
  {
    found := false;
    for i := 0 to |names|
      invariant !found
      invariant svc !in names[..i]
    {
      assert names[..i + 1] == names[..i] + [names[i]];
      if names[i] == svc {
        found := true;
        break;
      }
    }
    assert names[..|names|] == names;
  }

  /** What a deploy does to the outside world, in order. */
  datatype Action =
    | Exec(argv: seq<string>)
    | Poll(attempts: nat)
    | Start(id: ContainerId)
    | StreamLogs(target: string)
    | Regenerate

  /** The answers of the engine, the `docker` CLI and the file system. */
  datatype DeployEnv = DeployEnv(
    execOk: seq<string> -> bool,
    parse: string -> TraefikGenerate.ComposeRead,
    listing: Option<seq<Container>>,
    running: (nat, ContainerId) -> Option<bool>,
    status: ContainerId -> Option<string>,
    startOk: ContainerId -> bool,
    logsOk: string -> bool)

  /** What `DeployService("up")` does: the stack-up command fails the
      deploy; otherwise a failed listing ends it successfully, and a
      listing is followed by the wait (1 to 30 attempts, ending early at
      the first attempt that finds the project running), a regeneration,
      and the log-following command unless detached. */
  predicate StackDeployed(detach: bool, composeFiles: seq<string>, envFiles: seq<string>, env: DeployEnv,
                          r: Outcome<ComposeError>, trace: seq<Action>)
  {
    var up := ComposeCommand(composeFiles, envFiles, ["up", "-d"]);
    var logs := ComposeCommand(composeFiles, [], ["logs", "--follow", "--tail=1"]);
    if !env.execOk(up) then r == Fail(ExecFailed) && trace == [Exec(up)]
    else if env.listing.None? then r == Pass && trace == [Exec(up)]
    else
      && r == Pass
      && |trace| >= 2 && trace[0] == Exec(up)
      && trace[1].Poll? && 1 <= trace[1].attempts <= MaxRetries
      && (forall k: nat :: k < trace[1].attempts - 1 ==>
            !AllProjectRunning(env.listing.value, ProjectName(composeFiles), RunningAt(env.running, k)))
      && (trace[1].attempts < MaxRetries ==>
            AllProjectRunning(env.listing.value, ProjectName(composeFiles), RunningAt(env.running, trace[1].attempts - 1)))
      && trace[2..] == [Regenerate] + (if detach then [] else [Exec(logs)])
  }

  /** What `DeployService(svc)` does for one service, branch by branch:
      unreadable compose files, an undeclared service and a failed listing
      end it with no action; an existing first container is inspected and
      started when exited or created (then logs are followed unless
      detached); otherwise the service is created. Regeneration ends every
      successful detached path and the path where nothing needed starting. */
  predicate ServiceDeployed(svc: string, detach: bool, composeFiles: seq<string>, envFiles: seq<string>, env: DeployEnv,
                            r: Outcome<ComposeError>, trace: seq<Action>)
  {
    var files := Parsed(composeFiles, env.parse);
    if !TraefikGenerate.AllReadable(files) then r.Fail? && r.error.ComposeUnreadable? && trace == []
    else if svc !in TraefikGenerate.Declared(files) then r == Fail(NotFound(svc)) && trace == []
    else if env.listing.None? then r == Fail(ListFailed) && trace == []
    else
      var ids := ServiceIds(env.listing.value, svc);
      if |ids| > 0 then
        var first := ids[0];
        match env.status(first)
        case None => r == Fail(InspectFailed) && trace == []
        case Some(status) =>
          if !ShouldStart(status) then r == Pass && trace == [Regenerate]
          else if !env.startOk(first) then r == Fail(StartFailed) && trace == [Start(first)]
          else if !detach then
            && trace == [Start(first), StreamLogs(first)]
            && r == (if env.logsOk(first) then Pass else Fail(LogsFailed))
          else r == Pass && trace == [Start(first), Regenerate]
      else
        var create := ComposeCommand(composeFiles, envFiles, ["up", "-d", "--no-recreate", svc]);
        if !env.execOk(create) then r == Fail(ExecFailed) && trace == [Exec(create)]
        else if !detach then
          && trace == [Exec(create), StreamLogs(svc)]
          && r == (if env.logsOk(svc) then Pass else Fail(LogsFailed))
        else r == Pass && trace == [Exec(create), Regenerate]
  }

  /** `DeployService("up")`: bring the stack up, wait for it, regenerate
      the routing configuration, and follow logs when not detached.  A
      failed listing after the stack-up ends the deploy successfully. */
  method DeployStack(detach: bool, composeFiles: seq<string>, envFiles: seq<string>, env: DeployEnv)
    returns (r: Outcome<ComposeError>, trace: seq<Action>)
    ensures |trace| >= 1 && trace[0] == Exec(ComposeCommand(composeFiles, envFiles, ["up", "-d"]))
    ensures r.Fail? <==> !env.execOk(ComposeCommand(composeFiles, envFiles, ["up", "-d"]))
    ensures r.Fail? || env.listing.None? ==> |trace| == 1
    ensures r.Pass? && env.listing.Some? ==>
              && |trace| >= 3 && trace[1].Poll? && trace[2] == Regenerate
              && (Exec(ComposeCommand(composeFiles, [], ["logs", "--follow", "--tail=1"])) in trace <==> !detach)
    ensures StackDeployed(detach, composeFiles, envFiles, env, r, trace)
  {
    var args := BuildStackUpArgs(composeFiles, envFiles);
    trace := [Exec(args)];
    if !env.execOk(args) {
      return Fail(ExecFailed), trace;
    }
    var projectName := ProjectName(composeFiles);
    if env.listing.None? {
      return Pass, trace;
    }
    var ready, attempts, sleeps := WaitForRunning(env.listing.value, projectName, env.running);
    trace := trace + [Poll(attempts), Regenerate];
    if !detach {
      var logsArgs := BuildLogsArgs(composeFiles);
      trace := trace + [Exec(logsArgs)];
    }
    return Pass, trace;
  }

  /** `DeployService(svc)` for one service: it must be declared; its first
      existing container is started when exited or created, otherwise the
      service is created with `up -d --no-recreate`. */
  method DeployOne(svc: string, detach: bool, composeFiles: seq<string>, envFiles: seq<string>, env: DeployEnv)
    returns (r: Outcome<ComposeError>, trace: seq<Action>)
    ensures r == Fail(NotFound(svc)) <==>
              && TraefikGenerate.AllReadable(Parsed(composeFiles, env.parse))
              && svc !in TraefikGenerate.Declared(Parsed(composeFiles, env.parse))
    ensures trace != [] ==>
              && TraefikGenerate.AllReadable(Parsed(composeFiles, env.parse))
              && svc in TraefikGenerate.Declared(Parsed(composeFiles, env.parse))
              && env.listing.Some?
    ensures forall id :: Start(id) in trace ==>
              && env.listing.Some? && |ServiceIds(env.listing.value, svc)| > 0
              && id == ServiceIds(env.listing.value, svc)[0]
              && env.status(id).Some? && ShouldStart(env.status(id).value)
    ensures forall argv :: Exec(argv) in trace ==>
              && argv == ComposeCommand(composeFiles, envFiles, ["up", "-d", "--no-recreate", svc])
              && env.listing.Some? && ServiceIds(env.listing.value, svc) == []
    ensures Regenerate in trace ==> r == Pass && trace[|trace| - 1] == Regenerate
    ensures ServiceDeployed(svc, detach, composeFiles, envFiles, env, r, trace)
  {
    trace := [];
    var composeServices := CollectComposeServices(composeFiles, env.parse);
    if composeServices.Err? {
      return Fail(composeServices.error), trace;
    }
    var serviceExists := ServiceExists(composeServices.value, svc);
    if !serviceExists {
      return Fail(NotFound(svc)), trace;
    }
    var existing := GetServiceContainers(env.listing, svc);
    if existing.Err? {
      return Fail(existing.error), trace;
    }
    if |existing.value| > 0 {
      var first := existing.value[0];
      var info := env.status(first);
      if info.None? {
        return Fail(InspectFailed), trace;
      }
      if ShouldStart(info.value) {
        trace := trace + [Start(first)];
        if !env.startOk(first) {
          return Fail(StartFailed), trace;
        }
        if !detach {
          trace := trace + [StreamLogs(first)];
          return (if env.logsOk(first) then Pass else Fail(LogsFailed)), trace;
        }
      }
      trace := trace + [Regenerate];
      return Pass, trace;
    }
    var args := BuildCreateArgs(svc, composeFiles, envFiles);
    trace := trace + [Exec(args)];
    if !env.execOk(args) {
      return Fail(ExecFailed), trace;
    }
    if !detach {
      trace := trace + [StreamLogs(svc)];
      return (if env.logsOk(svc) then Pass else Fail(LogsFailed)), trace;
    }
    trace := trace + [Regenerate];
    return Pass, trace;
  }

  /** DeployService: the name "up" deploys the whole stack. */
  method DeployService(svc: string, detach: bool, composeFiles: seq<string>, envFiles: seq<string>, env: DeployEnv)
    returns (r: Outcome<ComposeError>, trace: seq<Action>)
    ensures svc == "up" ==> |trace| >= 1 && trace[0] == Exec(ComposeCommand(composeFiles, envFiles, ["up", "-d"]))
    ensures svc != "up" ==>
              (r == Fail(NotFound(svc)) <==>
                 TraefikGenerate.AllReadable(Parsed(composeFiles, env.parse))
                 && svc !in TraefikGenerate.Declared(Parsed(composeFiles, env.parse)))
    ensures svc != "up" ==> forall id :: Start(id) in trace ==>
              env.status(id).Some? && ShouldStart(env.status(id).value)
    ensures svc == "up" ==> StackDeployed(detach, composeFiles, envFiles, env, r, trace)
    ensures svc != "up" ==> ServiceDeployed(svc, detach, composeFiles, envFiles, env, r, trace)
  {
    if svc == "up" {
      r, trace := DeployStack(detach, composeFiles, envFiles, env);
    } else {
      r, trace := DeployOne(svc, detach, composeFiles, envFiles, env);
    }
  }

  /** ScaleService: run the scale command, then list the service's
      containers (`listing` is the engine's listing after the command). */
  method ScaleService(svc: string, replicas: int, composeFiles: seq<string>, envFiles: seq<string>,
                      execOk: seq<string> -> bool, listing: Option<seq<Container>>)
    returns (r: Result<seq<ContainerId>, ComposeError>)
    ensures !execOk(ComposeCommand(composeFiles, envFiles, ScaleTail(svc, replicas))) ==> r == Err(ExecFailed)
    ensures execOk(ComposeCommand(composeFiles, envFiles, ScaleTail(svc, replicas))) ==>
              r == if listing.None? then Err(ListFailed) else Ok(ServiceIds(listing.value, svc))
  {
    var args := BuildScaleArgs(svc, replicas, composeFiles, envFiles);
    if !execOk(args) {
      return Err(ExecFailed);
    }
    r := GetServiceContainers(listing, svc);
  }
}
