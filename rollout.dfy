/** The rolling update driven by `main`: double the service, filter the new
    containers, gate on their health, then either roll back or patch the
    routing configuration, wait, and tear down the old containers. */
module Rollout {
  import opened Common
  import opened TraefikTypes
  import Cli
  import Compose
  import DockerOps
  import TraefikUpdate

  /** The observable steps of a run, in order. */
  datatype Step =
    | Deploy(service: string, detach: bool, result: Outcome<Compose.ComposeError>, actions: seq<Compose.Action>)
    | Scale(service: string, replicas: int)
    | Gate(ids: seq<ContainerId>)
    | Patch(olds: seq<ContainerId>, news: seq<ContainerId>)
    | Sleep(seconds: int)
    | Teardown(ids: seq<ContainerId>)

  /** Exit status 0, or 1 (`log.Fatalf` and `os.Exit(1)`). */
  datatype Exit = Success | Failure

  /** The answers of the engine, the `docker` CLI and the file system during
      one run. */
  datatype World = World(
    deploy: Compose.DeployEnv,
    listing: Option<seq<Container>>,
    oldListing: Option<seq<Container>>,
    scaleExecOk: seq<string> -> bool,
    scaledListing: Option<seq<Container>>,
    inspect: (nat, ContainerId) -> DockerOps.Inspection,
    doc: Option<Config>,
    stopFails: set<ContainerId>,
    removeFails: set<ContainerId>)

  // ---------------------------------------------------------------------
  // New containers

  /** The IDs of `news` that are not in `olds`, in order. */
  function Difference(news: seq<ContainerId>, olds: seq<ContainerId>): seq<ContainerId>
    decreases |news|
  {
    if news == [] then []
    else
      var n := |news| - 1;
      Difference(news[..n], olds) + (if news[n] in olds then [] else [news[n]])
  }

  /** The inner loop of the filter: is the ID among the old ones? */
  method IsOld(newId: ContainerId, olds: seq<ContainerId>) returns (isOld: bool)
    ensures isOld <==> newId in olds
  {
    isOld := false;
    for j := 0 to |olds|
      invariant !isOld && newId !in olds[..j]
    {
      assert olds[..j + 1] == olds[..j] + [olds[j]];
      if newId == olds[j] {
        isOld := true;
        break;
      }
    }
    assert olds[..|olds|] == olds;
  }

  /** The `filteredNewContainers` loop. */
  method FilterNewContainers(news: seq<ContainerId>, olds: seq<ContainerId>) returns (filtered: seq<ContainerId>)
    ensures filtered == Difference(news, olds)
  {
    filtered := [];
    for i := 0 to |news|
      invariant filtered == Difference(news[..i], olds)
    {
      assert news[..i + 1][..i] == news[..i];
      var isOld := IsOld(news[i], olds);
      if !isOld {
        filtered := filtered + [news[i]];
      }
    }
    assert news[..|news|] == news;
  }

  /** The filter keeps exactly the IDs that are not old. */
  lemma {:induction false} DifferenceExact(news: seq<ContainerId>, olds: seq<ContainerId>, x: ContainerId)
    ensures x in Difference(news, olds) <==> x in news && x !in olds
    decreases |news|
  {
    if news != [] {
      var n := |news| - 1;
      DifferenceExact(news[..n], olds, x);
      assert news == news[..n] + [news[n]];
    }
  }

  /** The filter preserves order: it distributes over concatenation. */
  lemma {:induction false} DifferenceAppend(a: seq<ContainerId>, b: seq<ContainerId>, olds: seq<ContainerId>)
    ensures Difference(a + b, olds) == Difference(a, olds) + Difference(b, olds)
    decreases |b|
  {
    if b != [] {
      var n := |b| - 1;
      assert (a + b)[..|a| + n] == a + b[..n];
      DifferenceAppend(a, b[..n], olds);
    } else {
      assert a + b == a;
    }
  }

  /** A listing made of old containers followed by fresh ones filters to
      exactly the fresh ones. */
  lemma {:induction false} DifferenceOfScaledListing(a: seq<ContainerId>, b: seq<ContainerId>, olds: seq<ContainerId>)
    requires forall x :: x in a ==> x in olds
    requires forall x :: x in b ==> x !in olds
    ensures Difference(a + b, olds) == b
  {
    DifferenceAppend(a, b, olds);
    AllOld(a, olds);
    AllFresh(b, olds);
  }

  lemma {:induction false} AllOld(a: seq<ContainerId>, olds: seq<ContainerId>)
    requires forall x :: x in a ==> x in olds
    ensures Difference(a, olds) == []
    decreases |a|
  {
    if a != [] {
      assert a[|a| - 1] in a;
      AllOld(a[..|a| - 1], olds);
    }
  }

  lemma {:induction false} AllFresh(b: seq<ContainerId>, olds: seq<ContainerId>)
    requires forall x :: x in b ==> x !in olds
    ensures Difference(b, olds) == b
    decreases |b|
  {
    if b != [] {
      var n := |b| - 1;
      assert b[n] in b;
      AllFresh(b[..n], olds);
      assert b[..n] + [b[n]] == b;
    }
  }

  // ---------------------------------------------------------------------
  // Gate, patch, wait, teardown

  /** What the cut-over does, given the old and the filtered new IDs, the
      engine state before and after, and its results. */
  ghost predicate CutoverDone(olds: seq<ContainerId>, news: seq<ContainerId>, opts: Cli.Options, w: World,
                              before: map<ContainerId, DockerOps.RunState>, after: map<ContainerId, DockerOps.RunState>,
                              exit: Exit, steps: seq<Step>, published: Option<Config>)
  {
    var gate := DockerOps.Gate(news, opts.healthcheckTimeout, w.inspect, 0);
    if gate.Fail? then
      && exit == Failure
      && steps == [Gate(news), Teardown(news)]
      && published == None
      && after == DockerOps.Teardown(before, news, w.stopFails, w.removeFails).0
    else
      var teardown := DockerOps.Teardown(before, olds, w.stopFails, w.removeFails);
      && steps == [Gate(news), Patch(olds, news)]
                  + (if opts.waitAfterHealthy > 0 then [Sleep(opts.waitAfterHealthy)] else [])
                  + [Sleep(opts.noHealthcheckTimeout), Teardown(olds)]
      && (published.Some? <==> w.doc.Some?)
      && (published.Some? ==> TraefikUpdate.Patched(w.doc.value, published.value, TraefikUpdate.IdMap(olds, news)))
      && after == teardown.0
      && (exit == Success <==> teardown.1 == Pass)
  }

  /** The cut-over part of `main`, from the health gate to the end. */
  method Cutover(olds: seq<ContainerId>, news: seq<ContainerId>, opts: Cli.Options, w: World, engine: DockerOps.Engine)
    returns (exit: Exit, steps: seq<Step>, published: Option<Config>)
    modifies engine
    ensures CutoverDone(olds, news, opts, w, old(engine.containers), engine.containers, exit, steps, published)
  {
    steps := [Gate(news)];
    var healthy := DockerOps.WaitForHealthyContainers(news, opts.healthcheckTimeout, w.inspect);
    if healthy.Fail? {
      var _ := engine.StopAndRemoveContainers(news, w.stopFails, w.removeFails);
      steps := steps + [Teardown(news)];
      return Failure, steps, None;
    }
    var updated := TraefikUpdate.UpdateConfig(w.doc, olds, news);
    steps := steps + [Patch(olds, news)];
    published := if updated.Ok? then Some(updated.value) else None;
    if opts.waitAfterHealthy > 0 {
      steps := steps + [Sleep(opts.waitAfterHealthy)];
    }
    steps := steps + [Sleep(opts.noHealthcheckTimeout)];
    var removed := engine.StopAndRemoveContainers(olds, w.stopFails, w.removeFails);
    steps := steps + [Teardown(olds)];
    exit := if removed.Pass? then Success else Failure;
  }

  /** A rollback touches no container outside the new ones; in particular
      every old container keeps its state. */
  lemma RollbackSparesOld(olds: seq<ContainerId>, news: seq<ContainerId>, opts: Cli.Options, w: World,
                          before: map<ContainerId, DockerOps.RunState>, after: map<ContainerId, DockerOps.RunState>,
                          exit: Exit, steps: seq<Step>, published: Option<Config>)
    requires CutoverDone(olds, news, opts, w, before, after, exit, steps, published)
    requires DockerOps.Gate(news, opts.healthcheckTimeout, w.inspect, 0).Fail?
    requires forall x :: x in news ==> x !in olds
    ensures exit == Failure && published == None
    ensures forall s :: s in steps ==> !s.Patch?
    ensures forall k :: k in before && k in olds ==> k in after && after[k] == before[k]
    ensures after.Keys <= before.Keys
  {
    DockerOps.TeardownFrame(before, news, w.stopFails, w.removeFails);
    assert steps == [Gate(news), Teardown(news)];
  }

  /** On success the patch comes before the old containers are torn down,
      and the teardown is the last step. */
  lemma PatchBeforeTeardown(olds: seq<ContainerId>, news: seq<ContainerId>, opts: Cli.Options, w: World,
                            before: map<ContainerId, DockerOps.RunState>, after: map<ContainerId, DockerOps.RunState>,
                            exit: Exit, steps: seq<Step>, published: Option<Config>)
    requires CutoverDone(olds, news, opts, w, before, after, exit, steps, published)
    requires DockerOps.Gate(news, opts.healthcheckTimeout, w.inspect, 0) == Pass
    ensures steps[1] == Patch(olds, news) && steps[|steps| - 1] == Teardown(olds)
    ensures forall i :: 0 <= i < |steps| && steps[i].Teardown? ==> i == |steps| - 1
    ensures Sleep(opts.noHealthcheckTimeout) in steps
    ensures Sleep(opts.waitAfterHealthy) in steps <==> opts.waitAfterHealthy > 0 || opts.waitAfterHealthy == opts.noHealthcheckTimeout
  {
    var extra := if opts.waitAfterHealthy > 0 then [Sleep(opts.waitAfterHealthy)] else [];
    assert steps == [Gate(news), Patch(olds, news)] + extra + [Sleep(opts.noHealthcheckTimeout), Teardown(olds)];
    assert steps[|steps| - 2] == Sleep(opts.noHealthcheckTimeout);
    if Sleep(opts.waitAfterHealthy) in steps {
      var i :| 0 <= i < |steps| && steps[i] == Sleep(opts.waitAfterHealthy);
      assert i >= 2;
      if i < |steps| - 2 {
        assert steps[i] == extra[i - 2];
      }
    }
  }

  // ---------------------------------------------------------------------
  // main

  /** The service IDs of a successful listing. */
  function IdsOf(listing: Option<seq<Container>>, svc: string): seq<ContainerId>
  {
    if listing.Some? then Compose.ServiceIds(listing.value, svc) else []
  }

  /** What the part of `main` for a running service does with `current`
      containers: a failed listing of the old containers exits 1 before
      anything happens; otherwise the service is scaled to twice `current`,
      a failed scale command or listing exits 1, and a successful one is
      followed by the cut-over from the old IDs to the filtered new ones. */
  ghost predicate ScaledAndCutOver(opts: Cli.Options, w: World, current: nat,
                                   before: map<ContainerId, DockerOps.RunState>, after: map<ContainerId, DockerOps.RunState>,
                                   exit: Exit, steps: seq<Step>, published: Option<Config>)
  {
    var svc := opts.service;
    var scale := Compose.ComposeCommand(opts.composeFiles, opts.envFiles, Compose.ScaleTail(svc, 2 * current));
    if w.oldListing.None? then
      exit == Failure && steps == [] && published == None && after == before
    else if !w.scaleExecOk(scale) || w.scaledListing.None? then
      exit == Failure && steps == [Scale(svc, 2 * current)] && published == None && after == before
    else
      var olds := IdsOf(w.oldListing, svc);
      && |steps| > 1 && steps[0] == Scale(svc, 2 * current)
      && CutoverDone(olds, Difference(IdsOf(w.scaledListing, svc), olds),
                     opts, w, before, after, exit, steps[1..], published)
  }

  /** `main` after argument parsing, for the parsed options: "up" and
      "up -d" deploy the stack, a failed listing exits 1, an absent
      service is deployed detached, and a running one is scaled and cut
      over. Deploys leave the engine table to the deploy environment. */
  method RollingUpdate(opts: Cli.Options, w: World, engine: DockerOps.Engine)
    returns (exit: Exit, steps: seq<Step>, published: Option<Config>)
    modifies engine
    ensures opts.service == "up" || opts.service == "up -d" ==>
              && |steps| == 1 && steps[0].Deploy?
              && steps[0].service == "up" && steps[0].detach == (opts.service == "up -d")
              && Compose.StackDeployed(steps[0].detach, opts.composeFiles, opts.envFiles, w.deploy,
                                       steps[0].result, steps[0].actions)
              && (exit == Success <==> steps[0].result.Pass?)
              && (exit == Failure <==> !w.deploy.execOk(Compose.ComposeCommand(opts.composeFiles, opts.envFiles, ["up", "-d"])))
              && published == None && engine.containers == old(engine.containers)
    ensures opts.service != "up" && opts.service != "up -d" && w.listing.None? ==>
              exit == Failure && steps == [] && published == None && engine.containers == old(engine.containers)
    ensures opts.service != "up" && opts.service != "up -d" && w.listing.Some? && IdsOf(w.listing, opts.service) == [] ==>
              && |steps| == 1 && steps[0].Deploy?
              && steps[0].service == opts.service && steps[0].detach
              && Compose.ServiceDeployed(opts.service, true, opts.composeFiles, opts.envFiles, w.deploy,
                                         steps[0].result, steps[0].actions)
              && (exit == Success <==> steps[0].result.Pass?)
              && published == None && engine.containers == old(engine.containers)
    ensures opts.service != "up" && opts.service != "up -d" && |IdsOf(w.listing, opts.service)| > 0 ==>
              ScaledAndCutOver(opts, w, |IdsOf(w.listing, opts.service)|, old(engine.containers), engine.containers,
                               exit, steps, published)
  {
    steps := [];
    published := None;
    if opts.service == "up" || opts.service == "up -d" {
      var detach := opts.service == "up -d";
      var r, actions := Compose.DeployService("up", detach, opts.composeFiles, opts.envFiles, w.deploy);
      steps := [Deploy("up", detach, r, actions)];
      exit := if r.Pass? then Success else Failure;
      return;
    }

    var containers := Compose.GetServiceContainers(w.listing, opts.service);
    if containers.Err? {
      return Failure, steps, published;
    }
    if |containers.value| == 0 {
      var r, actions := Compose.DeployService(opts.service, true, opts.composeFiles, opts.envFiles, w.deploy);
      steps := [Deploy(opts.service, true, r, actions)];
      exit := if r.Pass? then Success else Failure;
      return;
    }
    exit, steps, published := ScaleAndCutover(opts, w, engine, |containers.value|);
  }

  /** The part of `main` for a running service: list the old containers,
      scale to twice the `current` count, filter, and cut over. */
  method ScaleAndCutover(opts: Cli.Options, w: World, engine: DockerOps.Engine, current: nat)
    returns (exit: Exit, steps: seq<Step>, published: Option<Config>)
    modifies engine
    ensures ScaledAndCutOver(opts, w, current, old(engine.containers), engine.containers, exit, steps, published)
  {
    steps := [];
    published := None;
    var oldContainers := Compose.GetServiceContainers(w.oldListing, opts.service);
    if oldContainers.Err? {
      return Failure, steps, published;
    }

    var scale := current * 2;
    var newContainers := Compose.ScaleService(opts.service, scale, opts.composeFiles, opts.envFiles,
                                              w.scaleExecOk, w.scaledListing);
    steps := [Scale(opts.service, scale)];
    if newContainers.Err? {
      return Failure, steps, published;
    }

    var filtered := FilterNewContainers(newContainers.value, oldContainers.value);
    var rest;
    exit, rest, published := Cutover(oldContainers.value, filtered, opts, w, engine);
    steps := steps + rest;
    assert steps[1..] == rest;
  }

  /** A running service whose old listing, scale command and new listing
      all succeed is always gated on its new containers, and a successful
      run patches before its final teardown of the old containers. */
  lemma ScaledServiceIsGated(opts: Cli.Options, w: World, current: nat,
                             before: map<ContainerId, DockerOps.RunState>, after: map<ContainerId, DockerOps.RunState>,
                             exit: Exit, steps: seq<Step>, published: Option<Config>)
    requires ScaledAndCutOver(opts, w, current, before, after, exit, steps, published)
    requires w.oldListing.Some? && w.scaledListing.Some?
    requires w.scaleExecOk(Compose.ComposeCommand(opts.composeFiles, opts.envFiles,
                                                  Compose.ScaleTail(opts.service, 2 * current)))
    ensures var olds := IdsOf(w.oldListing, opts.service);
            var news := Difference(IdsOf(w.scaledListing, opts.service), olds);
            && |steps| > 2
            && steps[0] == Scale(opts.service, 2 * current)
            && steps[1] == Gate(news)
            && (exit == Success ==> steps[2] == Patch(olds, news) && steps[|steps| - 1] == Teardown(olds))
  {
    var olds := IdsOf(w.oldListing, opts.service);
    var news := Difference(IdsOf(w.scaledListing, opts.service), olds);
    var rest := steps[1..];
    assert CutoverDone(olds, news, opts, w, before, after, exit, rest, published);
    if DockerOps.Gate(news, opts.healthcheckTimeout, w.inspect, 0) == Pass {
      PatchBeforeTeardown(olds, news, opts, w, before, after, exit, rest, published);
    }
    assert steps[1] == rest[0] && steps[|steps| - 1] == rest[|rest| - 1];
  }

  /** The filtered new containers never include an old one, so a rollback
      in `main` spares every old container. */
  lemma RollingUpdateSparesOld(opts: Cli.Options, w: World,
                                before: map<ContainerId, DockerOps.RunState>, after: map<ContainerId, DockerOps.RunState>,
                                exit: Exit, steps: seq<Step>, published: Option<Config>)
    requires |steps| > 1 && steps[0].Scale?
    requires CutoverDone(IdsOf(w.oldListing, opts.service),
                         Difference(IdsOf(w.scaledListing, opts.service), IdsOf(w.oldListing, opts.service)),
                         opts, w, before, after, exit, steps[1..], published)
    requires DockerOps.Gate(Difference(IdsOf(w.scaledListing, opts.service), IdsOf(w.oldListing, opts.service)),
                            opts.healthcheckTimeout, w.inspect, 0).Fail?
    ensures exit == Failure
    ensures forall k :: k in before && k in IdsOf(w.oldListing, opts.service) ==> k in after && after[k] == before[k]
  {
    var olds := IdsOf(w.oldListing, opts.service);
    var news := Difference(IdsOf(w.scaledListing, opts.service), olds);
    forall x | x in news
      ensures x !in olds
    {
      DifferenceExact(IdsOf(w.scaledListing, opts.service), olds, x);
    }
    RollbackSparesOld(olds, news, opts, w, before, after, exit, steps[1..], published);
  }
}
