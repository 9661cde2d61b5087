/** Engine-side operations of the rollout: the health probe of one
    container, the health gate that polls a set of containers until a
    deadline, and the teardown that stops and removes containers. */
module DockerOps {
  import opened Common

  /** What inspecting a container yields: the call fails, or the container's
      health status, None when the image defines no health check. */
  datatype Inspection = InspectFailed | Inspected(health: Option<string>)

  /** The probe of one container: an error when inspection fails; healthy
      when no health check is defined or its status is "healthy". */
  function CheckContainerHealth(insp: Inspection): (r: Result<bool, ()>)
    ensures r.Err? <==> insp.InspectFailed?
    ensures r.Ok? ==> (r.value <==> insp.health == None || insp.health == Some("healthy"))
  {
    match insp
    case InspectFailed => Err(())
    case Inspected(health) =>
      if health.None? then Ok(true) else Ok(health.value == "healthy")
  }

  /** The result of one polling round over the container list. */
  datatype Round = AllHealthy | Unhealthy | RoundError

  /** One polling round: containers are probed in order; the first failed
      inspection aborts, the first unhealthy container ends the round. */
  function Sweep(ids: seq<ContainerId>, probe: ContainerId -> Inspection): Round
    decreases |ids|
  {
    if ids == [] then AllHealthy
    else match CheckContainerHealth(probe(ids[0]))
      case Err(_) => RoundError
      case Ok(healthy) => if healthy then Sweep(ids[1..], probe) else Unhealthy
  }

  /** The containers as the engine reports them during round `t`
      (second `t` after the gate started). */
  function At(inspect: (nat, ContainerId) -> Inspection, t: nat): ContainerId -> Inspection
  {
    (id: ContainerId) => inspect(t, id)
  }

  datatype GateError = CheckFailed | Timeout

  /** The health gate from round `t` on: rounds start one second apart and
      run while the clock is before the deadline `timeout` seconds after
      the start. */
  function Gate(ids: seq<ContainerId>, timeout: int, inspect: (nat, ContainerId) -> Inspection, t: nat)
    : Outcome<GateError>
    decreases timeout - t
  {
    if t >= timeout then Fail(Timeout)
    else match Sweep(ids, At(inspect, t))
      case AllHealthy => Pass
      case RoundError => Fail(CheckFailed)
      case Unhealthy => Gate(ids, timeout, inspect, t + 1)
  }

  /** WaitForHealthyContainers with the clock as a round counter: round
      `now` observes the containers through `inspect(now, _)`. */
  method WaitForHealthyContainers(ids: seq<ContainerId>, timeout: int, inspect: (nat, ContainerId) -> Inspection)
    returns (r: Outcome<GateError>)
    ensures r == Gate(ids, timeout, inspect, 0)
  {
    var now: nat := 0;
    while now < timeout
      invariant Gate(ids, timeout, inspect, now) == Gate(ids, timeout, inspect, 0)
      decreases timeout - now
    {
      var allHealthy := true;
      var i := 0;
      while i < |ids|
        invariant 0 <= i <= |ids|
        invariant allHealthy ==> Sweep(ids, At(inspect, now)) == Sweep(ids[i..], At(inspect, now))
        invariant !allHealthy ==> Sweep(ids, At(inspect, now)) == Unhealthy
        decreases if allHealthy then |ids| - i + 1 else 0
      {
        assert ids[i..][1..] == ids[i + 1..];
        var healthy := CheckContainerHealth(inspect(now, ids[i]));
        if healthy.Err? {
          return Fail(CheckFailed);
        }
        if !healthy.value {
          allHealthy := false;
          break;
        }
        i := i + 1;
      }
      if allHealthy {
        return Pass;
      }
      now := now + 1;
    }
    return Fail(Timeout);
  }

  // ---------------------------------------------------------------------
  // Properties of the probe round and the gate

  /** A round is all-healthy exactly when every container probes healthy. */
  lemma {:induction false} SweepAllHealthy(ids: seq<ContainerId>, probe: ContainerId -> Inspection)
    ensures Sweep(ids, probe) == AllHealthy <==>
              forall i :: 0 <= i < |ids| ==> CheckContainerHealth(probe(ids[i])) == Ok(true)
    decreases |ids|
  {
    if ids != [] {
      SweepAllHealthy(ids[1..], probe);
      assert forall i :: 1 <= i < |ids| ==> ids[1..][i - 1] == ids[i];
    }
  }

  /** A round ends at the first container that is not healthy, and the
      containers after it are not probed. */
  lemma {:induction false} SweepStopsAtFirst(ids: seq<ContainerId>, probe: ContainerId -> Inspection, i: nat)
    requires i < |ids|
    requires forall j :: 0 <= j < i ==> CheckContainerHealth(probe(ids[j])) == Ok(true)
    requires CheckContainerHealth(probe(ids[i])) != Ok(true)
    ensures Sweep(ids, probe) == if probe(ids[i]).InspectFailed? then RoundError else Unhealthy
    decreases i
  {
    if i > 0 {
      SweepStopsAtFirst(ids[1..], probe, i - 1);
    }
  }

  /** The gate passes exactly when some round before the deadline is
      all-healthy and every earlier round saw an unhealthy container. */
  lemma {:induction false} GatePasses(ids: seq<ContainerId>, timeout: int, inspect: (nat, ContainerId) -> Inspection, t: nat)
    ensures Gate(ids, timeout, inspect, t) == Pass <==>
              exists k: nat :: t <= k < timeout && Sweep(ids, At(inspect, k)) == AllHealthy &&
                forall j: nat :: t <= j < k ==> Sweep(ids, At(inspect, j)) == Unhealthy
    decreases timeout - t
  {
    if t < timeout {
      GatePasses(ids, timeout, inspect, t + 1);
      if Sweep(ids, At(inspect, t)) == Unhealthy {
        if Gate(ids, timeout, inspect, t) == Pass {
          var k: nat :| t + 1 <= k < timeout && Sweep(ids, At(inspect, k)) == AllHealthy &&
                forall j: nat :: t + 1 <= j < k ==> Sweep(ids, At(inspect, j)) == Unhealthy;
          assert forall j: nat :: t <= j < k ==> Sweep(ids, At(inspect, j)) == Unhealthy;
        }
      }
    }
  }

  /** The gate times out exactly when every round before the deadline saw
      an unhealthy container; a deadline at or before the start times out
      without probing anything. */
  lemma {:induction false} GateTimesOut(ids: seq<ContainerId>, timeout: int, inspect: (nat, ContainerId) -> Inspection, t: nat)
    ensures Gate(ids, timeout, inspect, t) == Fail(Timeout) <==>
              forall k: nat :: t <= k < timeout ==> Sweep(ids, At(inspect, k)) == Unhealthy
    decreases timeout - t
  {
    if t < timeout {
      GateTimesOut(ids, timeout, inspect, t + 1);
      assert Sweep(ids, At(inspect, t)) == Unhealthy ==>
        ((forall k: nat :: t <= k < timeout ==> Sweep(ids, At(inspect, k)) == Unhealthy) <==>
         (forall k: nat :: t + 1 <= k < timeout ==> Sweep(ids, At(inspect, k)) == Unhealthy));
    }
  }

  /** The gate fails on an inspection error exactly when some round before
      the deadline hit one and every earlier round saw an unhealthy
      container. */
  lemma {:induction false} GateCheckFails(ids: seq<ContainerId>, timeout: int, inspect: (nat, ContainerId) -> Inspection, t: nat)
    ensures Gate(ids, timeout, inspect, t) == Fail(CheckFailed) <==>
              exists k: nat :: t <= k < timeout && Sweep(ids, At(inspect, k)) == RoundError &&
                forall j: nat :: t <= j < k ==> Sweep(ids, At(inspect, j)) == Unhealthy
    decreases timeout - t
  {
    if t < timeout {
      GateCheckFails(ids, timeout, inspect, t + 1);
      if Sweep(ids, At(inspect, t)) == Unhealthy {
        if Gate(ids, timeout, inspect, t) == Fail(CheckFailed) {
          var k: nat :| t + 1 <= k < timeout && Sweep(ids, At(inspect, k)) == RoundError &&
                forall j: nat :: t + 1 <= j < k ==> Sweep(ids, At(inspect, j)) == Unhealthy;
          assert forall j: nat :: t <= j < k ==> Sweep(ids, At(inspect, j)) == Unhealthy;
        }
      }
    }
  }

  /** With no containers to watch and a positive deadline the gate passes
      at once, whatever the engine reports. */
  lemma EmptyGatePasses(timeout: int, inspect: (nat, ContainerId) -> Inspection)
    requires timeout > 0
    ensures Gate([], timeout, inspect, 0) == Pass
  {
    GatePasses([], timeout, inspect, 0);
    assert Sweep([], At(inspect, 0)) == AllHealthy;
  }

  // ---------------------------------------------------------------------
  // Teardown

  /** A container's run state as far as teardown is concerned. */
  datatype RunState = Running | Stopped

  datatype TeardownError = StopFailed | RemoveFailed

  /** The engine's containers, by full ID. */
  class Engine {
    var containers: map<ContainerId, RunState>

    constructor(containers: map<ContainerId, RunState>)
      ensures this.containers == containers
    {
      this.containers := containers;
    }

    /** ContainerStop: fails for an unknown container or one in
        `stopFails` (the daemon's refusals); otherwise the container is
        stopped. */
    method Stop(id: ContainerId, stopFails: set<ContainerId>) returns (ok: bool)
      modifies this
      ensures ok <==> id in old(containers) && id !in stopFails
      ensures containers == if ok then old(containers)[id := Stopped] else old(containers)
    {
      if id !in containers || id in stopFails {
        return false;
      }
      containers := containers[id := Stopped];
      return true;
    }

    /** ContainerRemove with Force: fails for an unknown container or one in
        `removeFails`; otherwise the container is gone. */
    method Remove(id: ContainerId, removeFails: set<ContainerId>) returns (ok: bool)
      modifies this
      ensures ok <==> id in old(containers) && id !in removeFails
      ensures containers == if ok then old(containers) - {id} else old(containers)
    {
      if id !in containers || id in removeFails {
        return false;
      }
      containers := containers - {id};
      return true;
    }

    /** StopAndRemoveContainers: stop then remove each container in order,
        returning at the first failure. */
    method StopAndRemoveContainers(ids: seq<ContainerId>, stopFails: set<ContainerId>, removeFails: set<ContainerId>)
      returns (r: Outcome<TeardownError>)
      modifies this
      ensures (containers, r) == Teardown(old(containers), ids, stopFails, removeFails)
    {
      var i := 0;
      while i < |ids|
        invariant 0 <= i <= |ids|
        invariant Teardown(containers, ids[i..], stopFails, removeFails)
                  == Teardown(old(containers), ids, stopFails, removeFails)
      {
        assert ids[i..][1..] == ids[i + 1..];
        var containerId := ids[i];
        label Before:
        var ok := Stop(containerId, stopFails);
        if !ok {
          return Fail(StopFailed);
        }
        ghost var stopped := containers;
        ok := Remove(containerId, removeFails);
        if !ok {
          return Fail(RemoveFailed);
        }
        assert containers == old@Before(containers) - {containerId} by {
          assert stopped == old@Before(containers)[containerId := Stopped];
        }
        i := i + 1;
      }
      return Pass;
    }
  }

  /** The engine state and result of tearing down `ids` from state `m`. */
  function Teardown(m: map<ContainerId, RunState>, ids: seq<ContainerId>,
                    stopFails: set<ContainerId>, removeFails: set<ContainerId>)
    : (map<ContainerId, RunState>, Outcome<TeardownError>)
    decreases |ids|
  {
    if ids == [] then (m, Pass)
    else
      var id := ids[0];
      if id !in m || id in stopFails then (m, Fail(StopFailed))
      else if id in removeFails then (m[id := Stopped], Fail(RemoveFailed))
      else Teardown(m - {id}, ids[1..], stopFails, removeFails)
  }

  /** Teardown never adds a container and leaves every container outside
      `ids` exactly as it was. */
  lemma {:induction false} TeardownFrame(m: map<ContainerId, RunState>, ids: seq<ContainerId>,
                                         stopFails: set<ContainerId>, removeFails: set<ContainerId>)
    ensures Teardown(m, ids, stopFails, removeFails).0.Keys <= m.Keys
    ensures forall k :: k in m && k !in ids ==>
              k in Teardown(m, ids, stopFails, removeFails).0 && Teardown(m, ids, stopFails, removeFails).0[k] == m[k]
    decreases |ids|
  {
    if ids != [] && ids[0] in m && ids[0] !in stopFails && ids[0] !in removeFails {
      TeardownFrame(m - {ids[0]}, ids[1..], stopFails, removeFails);
      assert forall k :: k !in ids && k != ids[0] ==> k !in ids[1..];
    }
  }

  /** Teardown succeeds exactly when the IDs are distinct, all known, and
      none is refused; it then removes exactly those containers. */
  lemma {:induction false} TeardownSucceeds(m: map<ContainerId, RunState>, ids: seq<ContainerId>,
                                            stopFails: set<ContainerId>, removeFails: set<ContainerId>)
    ensures Teardown(m, ids, stopFails, removeFails).1 == Pass <==>
              && (forall i, j :: 0 <= i < j < |ids| ==> ids[i] != ids[j])
              && (forall i :: 0 <= i < |ids| ==> ids[i] in m && ids[i] !in stopFails && ids[i] !in removeFails)
    ensures Teardown(m, ids, stopFails, removeFails).1 == Pass ==>
              Teardown(m, ids, stopFails, removeFails).0 == m - set i | 0 <= i < |ids| :: ids[i]
    decreases |ids|
  {
    if ids != [] {
      var id := ids[0];
      var rest := ids[1..];
      TeardownSucceeds(m - {id}, rest, stopFails, removeFails);
      assert forall i :: 1 <= i < |ids| ==> ids[i] == rest[i - 1];
      if id in m && id !in stopFails && id !in removeFails {
        if Teardown(m, ids, stopFails, removeFails).1 == Pass {
          assert (set i | 0 <= i < |ids| :: ids[i]) == {id} + set i | 0 <= i < |rest| :: rest[i];
        } else {
          if (forall i :: 0 <= i < |rest| ==> rest[i] in m - {id}) {
            assert forall i :: 0 <= i < |rest| ==> rest[i] != id;
          }
        }
      }
    }
  }

  /** After a teardown of `ids` that failed at position `j`: the containers
      before it are gone and those outside `ids[..j + 1]` are untouched. */
  ghost predicate FailedAt(m: map<ContainerId, RunState>, ids: seq<ContainerId>,
                           after: map<ContainerId, RunState>, j: int)
  {
    && 0 <= j < |ids|
    && (forall i :: 0 <= i < j ==> ids[i] !in after)
    && (forall k :: k in m && k !in ids[..j + 1] ==> k in after && after[k] == m[k])
  }

  /** A failed teardown stops at one position: the containers before it are
      gone and those after it are untouched. */
  lemma {:induction false} TeardownStopsAtFailure(m: map<ContainerId, RunState>, ids: seq<ContainerId>,
                                                  stopFails: set<ContainerId>, removeFails: set<ContainerId>)
    requires Teardown(m, ids, stopFails, removeFails).1.Fail?
    ensures exists j :: FailedAt(m, ids, Teardown(m, ids, stopFails, removeFails).0, j)
    decreases |ids|
  {
    var id := ids[0];
    if id !in m || id in stopFails || id in removeFails {
      assert ids[..1] == [id];
      assert FailedAt(m, ids, Teardown(m, ids, stopFails, removeFails).0, 0);
    } else {
      var rest := ids[1..];
      var after := Teardown(m, ids, stopFails, removeFails).0;
      TeardownStopsAtFailure(m - {id}, rest, stopFails, removeFails);
      var j :| FailedAt(m - {id}, rest, after, j);
      TeardownFrame(m - {id}, rest, stopFails, removeFails);
      assert ids[..j + 2] == [id] + rest[..j + 1];
      assert forall i :: 1 <= i < j + 1 ==> ids[i] == rest[i - 1];
      assert FailedAt(m, ids, after, j + 1);
    }
  }
}
