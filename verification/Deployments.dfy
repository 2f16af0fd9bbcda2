/** The status of the deployments of applications (swiftwave_service/core/deployment.operations.go,
    worker/process_application_build_request.go, worker/process_application_deploy_request.go). */
module Deployments {
  import opened Wrappers

  datatype Status = Pending | DeployPending | Deployed | Stalled | Failed

  datatype Deployment = Deployment(application: string, status: Status)

  /** Rows by id; ids follow the time of creation. */
  type Rows = map<nat, Deployment>

  // ------------------------------------------------------------------
  // Queries
  // ------------------------------------------------------------------

  predicate IsDeployed(rows: Rows, application: string, id: nat) {
    id in rows && rows[id].application == application && rows[id].status == Deployed
  }

  /** FindCurrentDeployedDeploymentByApplicationId: the latest deployed one below the bound. */
  function LatestDeployed(rows: Rows, application: string, bound: nat): (r: Option<nat>)
    ensures r.Some? ==> r.value < bound && IsDeployed(rows, application, r.value)
    ensures forall id: nat :: (r.Some? ==> r.value < id) && id < bound ==> !IsDeployed(rows, application, id)
  {
    if bound == 0 then None
    else if IsDeployed(rows, application, bound - 1) then Some(bound - 1)
    else LatestDeployed(rows, application, bound - 1)
  }

  /** At most one deployment of each application is deployed. */
  ghost predicate AtMostOne(rows: Rows) {
    forall application, i: nat, j: nat :: IsDeployed(rows, application, i) && IsDeployed(rows, application, j) ==>
        i == j
  }

  // ------------------------------------------------------------------
  // Steps
  // ------------------------------------------------------------------

  /** UpdateStatus; nothing when the row is gone. */
  function WithStatus(rows: Rows, id: nat, status: Status): Rows {
    if id in rows then rows[id := rows[id].(status := status)] else rows
  }

  /** A deploy request being worked on: its transaction has read the current deployment. */
  datatype Flight = Flight(application: string, id: nat, current: Option<nat>)

  datatype State = State(rows: Rows, nextId: nat, flights: map<nat, Flight>, nextFlight: nat)

  datatype Step =
    | Create(application: string)
    | BuildDone(id: nat)
    | BuildFailed(id: nat)
    | Remove(id: nat)
    | StartDeploy(application: string, id: nat)
      /** The transaction commits. */
    | CommitDeploy(flight: nat)
      /** The service or its proxy could not be made: the transaction is rolled back, and the
          requested deployment is marked outside of it. */
    | FailDeploy(flight: nat)
      /** The commit itself fails, or the worker stops: the transaction leaves nothing. */
    | DropDeploy(flight: nat)

  /** What a deploy transaction writes: the deployment that it read first, then its own. */
  function Written(rows: Rows, f: Flight): Rows {
    WithStatus(if f.current.Some? then WithStatus(rows, f.current.value, Stalled) else rows, f.id, Deployed)
  }

  function Landed(s: State, flight: nat, rows: Rows): State {
    s.(rows := rows, flights := s.flights - {flight})
  }

  function Next(s: State, step: Step): State {
    match step
    case Create(application) => s.(rows := s.rows[s.nextId := Deployment(application, Pending)], nextId := s.nextId + 1)
    case BuildDone(id) => s.(rows := WithStatus(s.rows, id, DeployPending))
    case BuildFailed(id) => s.(rows := WithStatus(s.rows, id, Failed))
    case Remove(id) => s.(rows := s.rows - {id})
    case StartDeploy(application, id) =>
      if id !in s.rows then s
      else s.(flights := s.flights[s.nextFlight := Flight(application, id,
          LatestDeployed(s.rows, application, s.nextId))], nextFlight := s.nextFlight + 1)
    case CommitDeploy(flight) =>
      if flight in s.flights then Landed(s, flight, Written(s.rows, s.flights[flight])) else s
    case FailDeploy(flight) =>
      if flight in s.flights then Landed(s, flight, WithStatus(s.rows, s.flights[flight].id, Failed)) else s
    case DropDeploy(flight) => if flight in s.flights then Landed(s, flight, s.rows) else s
  }

  /** Deploys of one application do not overlap, and each request names the application's own
      deployment. */
  predicate Serialised(s: State, step: Step) {
    step.StartDeploy? ==>
      && (forall k :: k in s.flights ==> s.flights[k].application != step.application)
      && (step.id in s.rows ==> s.rows[step.id].application == step.application)
  }

  ghost predicate Inv(s: State) {
    && AtMostOne(s.rows)
    && (forall id :: id in s.rows ==> id < s.nextId)
    && (forall k :: k in s.flights ==> k < s.nextFlight && s.flights[k].id < s.nextId)
    && (forall k, l :: k in s.flights && l in s.flights && k != l ==>
          s.flights[k].application != s.flights[l].application)
    && (forall k :: k in s.flights ==> FlightInv(s.rows, s.flights[k]))
  }

  /** The transaction has read whatever is deployed now, and its row is the application's own. */
  ghost predicate FlightInv(rows: Rows, f: Flight) {
    && (f.id in rows ==> rows[f.id].application == f.application)
    && (forall i: nat :: IsDeployed(rows, f.application, i) ==> f.current == Some(i))
  }

  // ------------------------------------------------------------------
  // One step
  // ------------------------------------------------------------------

  lemma WrittenDeploys(rows: Rows, f: Flight, application: string, i: nat)
    ensures IsDeployed(Written(rows, f), application, i) <==>
              if i == f.id then i in rows && rows[i].application == application
              else IsDeployed(rows, application, i) && f.current != Some(i)
  {
  }

  /** A commit keeps at most one deployment deployed exactly when the transaction had read the one
      that is deployed now, if there is one beside its own. */
  lemma CommitKeepsIffRead(s: State, flight: nat)
    requires AtMostOne(s.rows) && flight in s.flights && s.flights[flight].id in s.rows
    ensures var f := s.flights[flight];
            AtMostOne(Next(s, CommitDeploy(flight)).rows)
            <==> forall i: nat :: IsDeployed(s.rows, s.rows[f.id].application, i) && i != f.id ==> f.current == Some(i)
  {
    var f := s.flights[flight];
    var rows' := Next(s, CommitDeploy(flight)).rows;
    var application := s.rows[f.id].application;
    forall a, i: nat ensures IsDeployed(rows', a, i) <==>
              if i == f.id then a == application else IsDeployed(s.rows, a, i) && f.current != Some(i)
    {
      WrittenDeploys(s.rows, f, a, i);
    }
    hide Next;
    if i: nat :| IsDeployed(s.rows, application, i) && i != f.id && f.current != Some(i) {
      assert IsDeployed(rows', application, i) && IsDeployed(rows', application, f.id);
    }
  }

  /** After a commit the requested deployment is the application's deployed one, and the only one. */
  lemma CommitLeavesExactlyTheRequested(s: State, flight: nat, i: nat)
    requires Inv(s) && flight in s.flights && s.flights[flight].id in s.rows
    ensures var f := s.flights[flight];
            IsDeployed(Next(s, CommitDeploy(flight)).rows, f.application, i) <==> i == f.id
  {
    WrittenDeploys(s.rows, s.flights[flight], s.flights[flight].application, i);
  }

  /** A failed deploy leaves the application without a deployed deployment exactly when it had none or
      the request was to deploy the current one again. */
  lemma FailLeavesNone(s: State, flight: nat)
    requires Inv(s) && flight in s.flights
    ensures var f := s.flights[flight];
            (forall i: nat :: !IsDeployed(Next(s, FailDeploy(flight)).rows, f.application, i))
            <==> (forall i: nat :: IsDeployed(s.rows, f.application, i) ==> i == f.id)
  {
    var f := s.flights[flight];
    var rows' := Next(s, FailDeploy(flight)).rows;
    assert forall i: nat :: IsDeployed(rows', f.application, i) <==> IsDeployed(s.rows, f.application, i) && i != f.id;
  }

  /** A step that deploys nothing keeps the invariant. */
  lemma DeploysNothing(s: State, s': State)
    requires Inv(s) && s'.nextId >= s.nextId && s'.nextFlight == s.nextFlight
    requires forall application, i: nat :: IsDeployed(s'.rows, application, i) ==> IsDeployed(s.rows, application, i)
    requires forall i: nat :: i in s'.rows && i in s.rows ==> s'.rows[i].application == s.rows[i].application
    requires forall i: nat :: i in s'.rows && i !in s.rows ==> s.nextId <= i < s'.nextId
    requires forall k :: k in s'.flights ==> k in s.flights && s'.flights[k] == s.flights[k]
    ensures Inv(s')
  {
  }

  lemma StartKeeps(s: State, application: string, id: nat)
    requires Inv(s) && Serialised(s, StartDeploy(application, id)) && id in s.rows
    ensures Inv(Next(s, StartDeploy(application, id)))
  {
    var current := LatestDeployed(s.rows, application, s.nextId);
    forall i: nat | IsDeployed(s.rows, application, i) ensures current == Some(i) {
      assert i < s.nextId;
    }
    assert FlightInv(s.rows, Flight(application, id, current));
  }

  lemma CommitKeeps(s: State, flight: nat)
    requires Inv(s) && flight in s.flights
    ensures Inv(Next(s, CommitDeploy(flight)))
  {
    var f := s.flights[flight];
    var s' := Next(s, CommitDeploy(flight));
    forall a, i: nat ensures IsDeployed(s'.rows, a, i) <==>
              if i == f.id then i in s.rows && s.rows[i].application == a
              else IsDeployed(s.rows, a, i) && f.current != Some(i)
    {
      WrittenDeploys(s.rows, f, a, i);
    }
    assert forall i: nat :: i in s'.rows <==> i in s.rows;
    assert forall i: nat :: i in s.rows ==> s'.rows[i].application == s.rows[i].application;
    hide Written;
    forall k | k in s'.flights ensures FlightInv(s'.rows, s'.flights[k]) {
      assert FlightInv(s.rows, s.flights[k]) && s.flights[k].application != f.application;
    }
  }

  lemma NextKeeps(s: State, step: Step)
    requires Inv(s) && Serialised(s, step)
    ensures Inv(Next(s, step))
  {
    match step
    case StartDeploy(application, id) =>
      if id in s.rows {
        StartKeeps(s, application, id);
      }
    case CommitDeploy(flight) =>
      if flight in s.flights {
        CommitKeeps(s, flight);
      }
    case _ =>
      var s' := Next(s, step);
      assert forall application, i: nat :: IsDeployed(s'.rows, application, i) ==> IsDeployed(s.rows, application, i);
      DeploysNothing(s, s');
  }

  // ------------------------------------------------------------------
  // Whole runs
  // ------------------------------------------------------------------

  function Run(s: State, steps: seq<Step>): State
    decreases |steps|
  {
    if steps == [] then s else Run(Next(s, steps[0]), steps[1..])
  }

  predicate AllSerialised(s: State, steps: seq<Step>)
    decreases |steps|
  {
    steps == [] || (Serialised(s, steps[0]) && AllSerialised(Next(s, steps[0]), steps[1..]))
  }

  /** Over every run in which the deploys of each application do not overlap, at most one deployment of
      each application is deployed, with any builds, failures and removals in between. */
  lemma {:induction false} RunKeeps(s: State, steps: seq<Step>)
    requires Inv(s) && AllSerialised(s, steps)
    ensures Inv(Run(s, steps))
    decreases |steps|
  {
    if steps != [] {
      NextKeeps(s, steps[0]);
      hide Inv, Next, Serialised;
      RunKeeps(Next(s, steps[0]), steps[1..]);
    }
  }

  /** The commit's transaction has read the deployment that is deployed now, if there is one beside the
      one that it deploys. */
  ghost predicate HasRead(s: State, step: Step) {
    step.CommitDeploy? && step.flight in s.flights && s.flights[step.flight].id in s.rows ==>
      var f := s.flights[step.flight];
      forall i: nat :: IsDeployed(s.rows, s.rows[f.id].application, i) && i != f.id ==> f.current == Some(i)
  }

  lemma NextKeepsIffRead(s: State, step: Step)
    requires AtMostOne(s.rows) && forall id :: id in s.rows ==> id < s.nextId
    ensures forall id :: id in Next(s, step).rows ==> id < Next(s, step).nextId
    ensures AtMostOne(Next(s, step).rows) <==> HasRead(s, step)
  {
    if step.CommitDeploy? && step.flight in s.flights {
      var f := s.flights[step.flight];
      if f.id in s.rows {
        CommitKeepsIffRead(s, step.flight);
      } else {
        forall a, i: nat ensures IsDeployed(Written(s.rows, f), a, i) ==> IsDeployed(s.rows, a, i) {
          WrittenDeploys(s.rows, f, a, i);
        }
      }
    } else {
      var rows' := Next(s, step).rows;
      assert forall a, i: nat :: IsDeployed(rows', a, i) ==> IsDeployed(s.rows, a, i);
    }
  }

  ghost predicate AtMostOneThroughout(s: State, steps: seq<Step>)
    decreases |steps|
  {
    AtMostOne(s.rows) && (steps == [] || AtMostOneThroughout(Next(s, steps[0]), steps[1..]))
  }

  ghost predicate AllHaveRead(s: State, steps: seq<Step>)
    decreases |steps|
  {
    steps == [] || (HasRead(s, steps[0]) && AllHaveRead(Next(s, steps[0]), steps[1..]))
  }

  /** Over every run, overlapping or not, at most one deployment of each application is deployed at
      every moment, exactly when each commit has read the one that is deployed at its moment. */
  lemma {:induction false} AtMostOneIffAllHaveRead(s: State, steps: seq<Step>)
    requires AtMostOne(s.rows) && forall id :: id in s.rows ==> id < s.nextId
    ensures AtMostOneThroughout(s, steps) <==> AllHaveRead(s, steps)
    decreases |steps|
  {
    if steps != [] {
      NextKeepsIffRead(s, steps[0]);
      hide AtMostOne, HasRead, Next;
      if AtMostOne(Next(s, steps[0]).rows) {
        AtMostOneIffAllHaveRead(Next(s, steps[0]), steps[1..]);
      }
    }
  }

  /** Two overlapping first deploys of one application leave two deployed deployments. */
  lemma OverlappingDeploysBreak(application: string)
    ensures var s := State(map[0 := Deployment(application, DeployPending),
              1 := Deployment(application, DeployPending)], 2, map[], 0);
            Inv(s) && !AtMostOne(Run(s,
                [StartDeploy(application, 0), StartDeploy(application, 1), CommitDeploy(0), CommitDeploy(1)]).rows)
  {
    var s := State(map[0 := Deployment(application, DeployPending), 1 := Deployment(application, DeployPending)], 2,
        map[], 0);
    var a, b, c, d := StartDeploy(application, 0), StartDeploy(application, 1), CommitDeploy(0), CommitDeploy(1);
    assert forall i: nat :: !IsDeployed(s.rows, application, i);
    var s1 := Next(s, a);
    var s2 := Next(s1, b);
    var s3 := Next(s2, c);
    var s4 := Next(s3, d);
    assert s2.flights == map[0 := Flight(application, 0, None), 1 := Flight(application, 1, None)];
    assert IsDeployed(s4.rows, application, 0) && IsDeployed(s4.rows, application, 1);
    RunFour(s, a, b, c, d);
  }

  lemma RunFour(s: State, a: Step, b: Step, c: Step, d: Step)
    ensures Run(s, [a, b, c, d]) == Next(Next(Next(Next(s, a), b), c), d)
  {
    hide Next;
    assert [a, b, c, d][1..] == [b, c, d] && [b, c, d][1..] == [c, d] && [c, d][1..] == [d] && [d][1..] == [];
    assert Run(s, [a, b, c, d]) == Run(Next(s, a), [b, c, d]);
    assert Run(Next(s, a), [b, c, d]) == Run(Next(Next(s, a), b), [c, d]);
    assert Run(Next(Next(s, a), b), [c, d]) == Run(Next(Next(Next(s, a), b), c), [d]);
  }

  lemma RunTwo(s: State, a: Step, b: Step)
    ensures Run(s, [a, b]) == Next(Next(s, a), b)
  {
    hide Next;
    assert [a, b][1..] == [b] && [b][1..] == [];
    assert Run(s, [a, b]) == Run(Next(s, a), [b]);
  }

  // ------------------------------------------------------------------
  // The table in place
  // ------------------------------------------------------------------

  /** How a deploy request ends. */
  datatype Outcome = Committed | ServiceFailed | CommitFailed

  /** The step which ends the first flight with this outcome. */
  function Landing(outcome: Outcome): Step {
    match outcome
    case Committed => CommitDeploy(0)
    case ServiceFailed => FailDeploy(0)
    case CommitFailed => DropDeploy(0)
  }

  class DeploymentTable {
    var rows: Rows
    var nextId: nat

    ghost predicate Valid() reads this {
      AtMostOne(rows) && forall id :: id in rows ==> id < nextId
    }

    constructor ()
      ensures Valid() && rows == map[]
    {
      rows, nextId := map[], 0;
    }

    method CreateDeployment(application: string) returns (id: nat)
      requires Valid()
      modifies this
      ensures Valid() && id !in old(rows) && rows == old(rows)[id := Deployment(application, Pending)]
    {
      id := nextId;
      rows, nextId := rows[id := Deployment(application, Pending)], nextId + 1;
      assert forall a, i: nat :: IsDeployed(rows, a, i) ==> IsDeployed(old(rows), a, i);
    }

    method UpdateStatus(id: nat, status: Status)
      requires Valid()
      modifies this`rows
      ensures rows == WithStatus(old(rows), id, status)
      ensures status != Deployed ==> Valid()
    {
      if id in rows {
        rows := rows[id := rows[id].(status := status)];
      }
      assert status != Deployed ==> forall a, i: nat :: IsDeployed(rows, a, i) ==> IsDeployed(old(rows), a, i);
    }

    method FindCurrentDeployed(application: string) returns (current: Option<nat>)
      requires Valid()
      ensures current == LatestDeployed(rows, application, nextId)
      ensures forall id: nat :: IsDeployed(rows, application, id) <==> current == Some(id)
    {
      current := None;
      var bound: nat := nextId;
      while bound > 0
        invariant bound <= nextId
        invariant LatestDeployed(rows, application, nextId) == LatestDeployed(rows, application, bound)
      {
        if IsDeployed(rows, application, bound - 1) {
          return Some(bound - 1);
        }
        bound := bound - 1;
      }
    }

    /** DeployApplication, for a request that names the application's own deployment. */
    method DeployApplication(application: string, id: nat, outcome: Outcome)
      requires Valid() && (id in rows ==> rows[id].application == application)
      modifies this`rows
      ensures Valid() && rows.Keys == old(rows).Keys
      ensures id !in old(rows) ==> rows == old(rows)
      ensures id in old(rows) && outcome == Committed ==>
                && (forall i: nat :: IsDeployed(rows, application, i) <==> i == id)
                && (forall i: nat :: i in old(rows) && i != id ==>
                      rows[i] ==
                        if IsDeployed(old(rows), application, i) then old(rows)[i].(status := Stalled)
                        else old(rows)[i])
      ensures id in old(rows) && outcome == ServiceFailed ==> rows == WithStatus(old(rows), id, Failed)
      ensures outcome == CommitFailed ==> rows == old(rows)
      // The same as two steps of the interleaved model, one after the other.
      ensures var s := State(old(rows), nextId, map[], 0);
              rows == Run(s, [StartDeploy(application, id),
                  Landing(outcome)]).rows
    {
      ghost var s, steps := State(rows, nextId, map[], 0), [StartDeploy(application, id),
          Landing(outcome)];
      RunTwo(s, steps[0], steps[1]);
      if id !in rows {
        return;
      }
      var current := FindCurrentDeployed(application);
      var tx := rows;
      if current.Some? {
        tx := tx[current.value := tx[current.value].(status := Stalled)];
      }
      tx := tx[id := tx[id].(status := Deployed)];
      match outcome
      case Committed =>
        ghost var f := Flight(application, id, current);
        assert tx == Written(rows, f);
        forall a, i: nat ensures IsDeployed(tx, a, i) <==>
                  if i == id then a == application else IsDeployed(rows, a, i) && current != Some(i)
        {
          WrittenDeploys(rows, f, a, i);
        }
        rows := tx;
      case ServiceFailed => UpdateStatus(id, Failed);
      case CommitFailed =>
    }
  }
}
