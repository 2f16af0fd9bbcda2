/** Configuration changes on many proxy nodes: first a transaction on every node, then all commits
    (swiftwave_service/graphql/helpers.go, worker/process_ingress_rule_apply_request.go). */
module StageCommit {
  import opened Wrappers

  /** The requests sent to the nodes, with their outcome. */
  datatype Event =
    | Open(node: nat, ok: bool) | Stage(node: nat, ok: bool)
    | Commit(node: nat, ok: bool) | Delete(node: nat, ok: bool)

  /** Which requests the nodes answer. */
  datatype Faults = Faults(opens: nat -> bool, commits: nat -> bool, deletes: nat -> bool)

  /** How often a transaction of the node has ended: committed, or asked to be deleted. */
  function Endings(log: seq<Event>, node: nat): nat {
    if log == [] then 0
    else Endings(log[..|log| - 1], node) + if EndsTransaction(log[|log| - 1], node) then 1 else 0
  }

  predicate EndsTransaction(e: Event, node: nat) {
    e == Commit(node, true) || (e.Delete? && e.node == node)
  }

  lemma EndingsAppend(log: seq<Event>, e: Event, node: nat)
    ensures Endings(log + [e], node) == Endings(log, node) + if EndsTransaction(e, node) then 1 else 0
  {
    assert (log + [e])[..|log|] == log;
  }

  /** After a failed commit no commit is attempted any more. */
  predicate NoCommitAfterFailure(log: seq<Event>) {
    forall i, j :: 0 <= i < j < |log| && log[i].Commit? && !log[i].ok ==> !log[j].Commit?
  }

  /** No transaction is opened and nothing is staged once a commit was attempted. */
  predicate CommitsComeLast(log: seq<Event>) {
    forall i, j :: 0 <= i < j < |log| && log[i].Commit? ==> !log[j].Open? && !log[j].Stage?
  }

  predicate NoEnding(log: seq<Event>) {
    forall e :: e in log ==> !e.Commit? && !e.Delete?
  }

  lemma {:induction false} NoEndingNoEndings(log: seq<Event>, node: nat)
    requires NoEnding(log)
    ensures Endings(log, node) == 0
  {
    if log != [] {
      assert log[|log| - 1] in log;
      NoEndingNoEndings(log[..|log| - 1], node);
    }
  }

  lemma NoEndingYet(log: seq<Event>)
    requires NoEnding(log)
    ensures NoCommitAfterFailure(log) && CommitsComeLast(log)
    ensures forall n: nat :: Endings(log, n) == 0
    ensures forall e :: e in log ==> !e.Commit?
  {
    forall n: nat ensures Endings(log, n) == 0 {
      NoEndingNoEndings(log, n);
    }
    assert forall i :: 0 <= i < |log| ==> log[i] in log;
  }

  /** Every node up to this one gets its transaction and stages. */
  predicate StagesBefore<C(!new)>(k: nat, configs: seq<C>, faults: Faults, stage: (nat, C) -> Option<C>)
    requires k <= |configs|
  {
    forall n: nat :: n < k ==> faults.opens(n) && stage(n, configs[n]).Some?
  }

  predicate StagesAll<C(!new)>(configs: seq<C>, faults: Faults, stage: (nat, C) -> Option<C>) {
    StagesBefore(|configs|, configs, faults, stage)
  }

  // ------------------------------------------------------------------
  // What the nodes' answers and the order of the transactions determine
  // ------------------------------------------------------------------

  /** Every logged outcome is the node's answer. */
  ghost predicate Truthful(log: seq<Event>, faults: Faults) {
    forall e :: e in log ==>
      match e
      case Open(n, ok) => ok == faults.opens(n)
      case Stage(_, _) => true
      case Commit(n, ok) => ok == faults.commits(n)
      case Delete(n, ok) => ok == faults.deletes(n)
  }

  /** The requests that end one transaction. */
  function Ending(n: nat, failed: bool, faults: Faults): seq<Event> {
    if failed then [Delete(n, faults.deletes(n))]
    else if faults.commits(n) then [Commit(n, true)]
    else [Commit(n, false), Delete(n, faults.deletes(n))]
  }

  /** Something has failed before, or one of the commits up to position `k`. */
  predicate FailedBy(order: seq<nat>, k: nat, failedBefore: bool, faults: Faults)
    requires k <= |order|
  {
    failedBefore || exists j :: 0 <= j < k && !faults.commits(order[j])
  }

  /** The requests that end the transactions of `order`. */
  function EndLog(order: seq<nat>, failedBefore: bool, faults: Faults): seq<Event> {
    if order == [] then []
    else
      var k := |order| - 1;
      EndLog(order[..k], failedBefore, faults) + Ending(order[k], FailedBy(order, k, failedBefore, faults), faults)
  }

  lemma EndLogMore(order: seq<nat>, n: nat, failedBefore: bool, faults: Faults)
    ensures EndLog(order + [n], failedBefore, faults)
         == EndLog(order, failedBefore, faults) + Ending(n, FailedBy(order, |order|, failedBefore, faults), faults)
  {
    assert (order + [n])[..|order|] == order;
    assert FailedBy(order + [n], |order|, failedBefore, faults) == FailedBy(order, |order|, failedBefore, faults);
  }

  lemma {:induction false} EndLogHas(order: seq<nat>, failedBefore: bool, faults: Faults, e: Event)
    ensures e in EndLog(order, failedBefore, faults)
       <==> exists k :: 0 <= k < |order| && e in Ending(order[k], FailedBy(order, k, failedBefore, faults), faults)
  {
    if order != [] {
      var n := |order| - 1;
      var init := order[..n];
      EndLogHas(init, failedBefore, faults, e);
      assert order == init + [order[n]];
      EndLogMore(init, order[n], failedBefore, faults);
      forall k | 0 <= k <= n
        ensures FailedBy(order, k, failedBefore, faults) == FailedBy(init, k, failedBefore, faults)
      {
        assert forall j :: 0 <= j < k ==> order[j] == init[j];
      }
    }
  }

  /** What the requests that end transactions tell. */
  lemma EndLogTells(order: seq<nat>, failedBefore: bool, faults: Faults)
    ensures forall n: nat :: Commit(n, true) in EndLog(order, failedBefore, faults) <==>
              !failedBefore && Commits(order, faults, n)
    ensures forall e :: e in EndLog(order, failedBefore, faults) ==> !e.Open? && !e.Stage?
    ensures Truthful(EndLog(order, failedBefore, faults), faults)
    ensures failedBefore ==> forall e :: e in EndLog(order, failedBefore, faults) ==> !e.Commit?
  {
    forall e ensures e in EndLog(order, failedBefore, faults)
       <==> exists k :: 0 <= k < |order| && e in Ending(order[k], FailedBy(order, k, failedBefore, faults), faults)
    {
      EndLogHas(order, failedBefore, faults, e);
    }
    hide EndLog;
    forall n: nat ensures Commit(n, true) in EndLog(order, failedBefore, faults) <==>
        !failedBefore && Commits(order, faults, n) {
      forall k | 0 <= k < |order|
        ensures Commit(n, true) in Ending(order[k], FailedBy(order, k, failedBefore, faults), faults)
           <==> order[k] == n && !failedBefore && forall j :: 0 <= j <= k ==> faults.commits(order[j])
      {
      }
    }
  }

  lemma {:induction false} EndingsConcat(log: seq<Event>, more: seq<Event>, n: nat)
    ensures Endings(log + more, n) == Endings(log, n) + Endings(more, n)
  {
    if more == [] {
      assert log + more == log;
    } else {
      var k := |more| - 1;
      EndingsConcat(log, more[..k], n);
      assert (log + more)[..|log| + k] == log + more[..k];
    }
  }

  lemma EndingEnds(n: nat, failed: bool, faults: Faults, m: nat)
    ensures Endings(Ending(n, failed, faults), m) == if m == n then 1 else 0
  {
    var log := Ending(n, failed, faults);
    assert Endings([], m) == 0;
    assert log[..1] == [log[0]] && [log[0]][..0] == [];
  }

  lemma {:induction false} EndLogEnds(order: seq<nat>, failedBefore: bool, faults: Faults, n: nat)
    requires forall j, k :: 0 <= j < k < |order| ==> order[j] != order[k]
    ensures Endings(EndLog(order, failedBefore, faults), n) == if n in order then 1 else 0
  {
    if order != [] {
      var k := |order| - 1;
      EndLogEnds(order[..k], failedBefore, faults, n);
      EndingEnds(order[k], FailedBy(order, k, failedBefore, faults), faults, n);
      EndingsConcat(EndLog(order[..k], failedBefore, faults),
          Ending(order[k], FailedBy(order, k, failedBefore, faults), faults), n);
      assert order == order[..k] + [order[k]];
    }
  }

  /** While nothing has failed, every commit succeeded. */
  ghost predicate Orderly(log: seq<Event>, failed: bool) {
    && NoCommitAfterFailure(log) && CommitsComeLast(log)
    && (!failed ==> forall e :: e in log && e.Commit? ==> e.ok)
  }

  lemma EndingIsOrderly(log: seq<Event>, n: nat, failed: bool, faults: Faults)
    requires Orderly(log, failed)
    ensures Orderly(log + Ending(n, failed, faults), failed || !faults.commits(n))
  {
    var more := log + Ending(n, failed, faults);
    assert forall i :: 0 <= i < |log| ==> more[i] == log[i] && log[i] in log;
  }

  lemma {:induction false} EndLogIsOrderly(log: seq<Event>, order: seq<nat>, failedBefore: bool, faults: Faults)
    requires NoEnding(log)
    ensures Orderly(log + EndLog(order, failedBefore, faults), FailedBy(order, |order|, failedBefore, faults))
  {
    if order == [] {
      NoEndingYet(log);
      assert log + [] == log;
    } else {
      var k := |order| - 1;
      var init := order[..k];
      EndLogIsOrderly(log, init, failedBefore, faults);
      assert order == init + [order[k]];
      EndLogMore(init, order[k], failedBefore, faults);
      FailedMore(init, order[k], failedBefore, faults);
      var done, failed := EndLog(init, failedBefore, faults), FailedBy(init, k, failedBefore, faults);
      hide *;
      EndingIsOrderly(log + done, order[k], failed, faults);
      assert log + done + Ending(order[k], failed, faults) == log + (done + Ending(order[k], failed, faults));
    }
  }

  lemma FailedMore(order: seq<nat>, n: nat, failedBefore: bool, faults: Faults)
    ensures FailedBy(order + [n], |order| + 1, failedBefore, faults)
       <==> FailedBy(order, |order|, failedBefore, faults) || !faults.commits(n)
  {
    assert (order + [n])[|order|] == n;
    assert forall j :: 0 <= j < |order| ==> (order + [n])[j] == order[j];
  }

  lemma CommitsMore(order: seq<nat>, n: nat, faults: Faults, m: nat)
    ensures Commits(order + [n], faults, m)
       <==> Commits(order, faults, m) || (m == n && !FailedBy(order, |order|, false, faults) && faults.commits(n))
  {
    var more := order + [n];
    assert more[|order|] == n && forall j :: 0 <= j < |order| ==> more[j] == order[j];
  }

  /** Each transaction once. */
  ghost predicate Visits(order: seq<nat>, nodes: set<nat>) {
    && (forall j, k :: 0 <= j < k < |order| ==> order[j] != order[k])
    && (forall n: nat :: n in order <==> n in nodes)
  }

  ghost predicate SomeCommitted(log: seq<Event>) {
    exists n: nat :: Commit(n, true) in log
  }

  /** The nodes that have given a transaction. */
  ghost function Opened(log: seq<Event>): set<nat> {
    set e | e in log && e.Open? && e.ok :: e.node
  }

  function Nodes(size: nat): (r: set<nat>)
    ensures forall n: nat :: n in r <==> n < size
  {
    if size == 0 then {} else Nodes(size - 1) + {size - 1}
  }

  /** The node's commit comes before any commit fails, and succeeds. */
  ghost predicate Commits(order: seq<nat>, faults: Faults, n: nat) {
    exists k :: 0 <= k < |order| && order[k] == n && forall j :: 0 <= j <= k ==> faults.commits(order[j])
  }

  lemma FirstDecides(order: seq<nat>, faults: Faults)
    ensures (exists n: nat :: Commits(order, faults, n)) <==> order != [] && faults.commits(order[0])
  {
    if order != [] && faults.commits(order[0]) {
      assert Commits(order, faults, order[0]);
    }
  }

  /** The nodes 0 to `size - 1`, with `a` first. */
  function StartingWith(a: nat, size: nat): (order: seq<nat>)
    requires a < size
    ensures |order| == size && order[0] == a
  {
    seq(size, k requires 0 <= k < size => if k == 0 then a else if k == a then 0 else k)
  }

  lemma StartingWithVisits(a: nat, size: nat)
    requires a < size
    ensures Visits(StartingWith(a, size), Nodes(size))
  {
    var order := StartingWith(a, size);
    forall n: nat | n < size ensures n in order {
      assert order[if n == a then 0 else if n == 0 then a else n] == n;
    }
  }

  /** In this order of the transactions a failure leaves the node committed. */
  ghost predicate FailureLeaves(order: seq<nat>, size: nat, faults: Faults, n: nat) {
    Visits(order, Nodes(size)) && Commits(order, faults, n) && exists m :: m in order && !faults.commits(m)
  }

  /** In some order of the transactions a failure leaves a node committed, exactly when some node
      commits and some node does not. */
  lemma FailureLeavesSomeIff(size: nat, faults: Faults)
    ensures (exists order: seq<nat>, n: nat :: FailureLeaves(order, size, faults, n))
       <==> (exists a: nat, b: nat :: a < size && b < size && faults.commits(a) && !faults.commits(b))
  {
    if order: seq<nat>, n: nat :| FailureLeaves(order, size, faults, n) {
      var m :| m in order && !faults.commits(m);
      assert n in order && faults.commits(n);
    }
    if a: nat, b: nat :| a < size && b < size && faults.commits(a) && !faults.commits(b) {
      var order := StartingWith(a, size);
      StartingWithVisits(a, size);
      hide StartingWith, Nodes;
      assert b in order && Commits(order, faults, order[0]);
      assert FailureLeaves(order, size, faults, a);
    }
  }

  /** Two nodes, of which the second refuses its commit: what is live depends on the order. */
  lemma TwoNodes(faults: Faults)
    requires faults.commits(0) && !faults.commits(1)
    ensures Visits([0, 1], {0, 1}) && Commits([0, 1], faults, 0) && !Commits([0, 1], faults, 1)
    ensures Visits([1, 0], {0, 1}) && forall n: nat :: !Commits([1, 0], faults, n)
  {
    var first, second: seq<nat> := [0, 1], [1, 0];
    assert first[0] == 0 && first[1] == 1 && second[0] == 1;
    FirstDecides(second, faults);
    assert Commits(first, faults, first[0]);
  }

  class Cluster<C(!new)> {
    /** The live configuration of each node. */
    var configs: seq<C>
    /** The requests of the last run. */
    var log: seq<Event>

    constructor (initial: seq<C>)
      ensures configs == initial && log == []
    {
      configs, log := initial, [];
    }

    /** The first loop: a transaction and the changes on each node, until something fails. The
        result holds what each opened transaction contains. */
    method StageOnAllNodes(faults: Faults, stage: (nat, C) -> Option<C>)
      returns (transactions: map<nat, C>, isFailed: bool)
      modifies this`log
      ensures !isFailed <==> StagesAll(configs, faults, stage)
      ensures NoEnding(log)
      ensures forall n: nat :: n in transactions <==> Open(n, true) in log
      ensures forall n: nat :: n in transactions <==>
                n < |configs| && faults.opens(n) && StagesBefore(n, configs, faults, stage)
      ensures !isFailed ==> forall n: nat :: n in transactions ==> stage(n, configs[n]) == Some(transactions[n])
      ensures Truthful(log, faults)
      ensures forall n: nat, ok :: Stage(n, ok) in log ==> n < |configs| && ok == stage(n, configs[n]).Some?
    {
      transactions, isFailed, log := map[], false, [];
      assert NoEnding(log) && Truthful(log, faults);
      hide NoEnding, Truthful;
      var i := 0;
      while i < |configs|
        invariant i <= |configs| && !isFailed && StagesBefore(i, configs, faults, stage) && NoEnding(log)
        invariant forall n: nat :: n in transactions <==> Open(n, true) in log
        invariant forall n: nat :: n in transactions <==> n < i
        invariant forall n: nat :: n in transactions ==> stage(n, configs[n]) == Some(transactions[n])
        invariant Truthful(log, faults)
        invariant forall n: nat, ok :: Stage(n, ok) in log ==> n < |configs| && ok == stage(n, configs[n]).Some?
      {
        StagedMore(log, Open(i, faults.opens(i)), faults);
        log := log + [Open(i, faults.opens(i))];
        if !faults.opens(i) {
          isFailed := true;
          break;
        }
        transactions := transactions[i := configs[i]];
        StagedMore(log, Stage(i, stage(i, configs[i]).Some?), faults);
        match stage(i, configs[i])
        case None =>
          log := log + [Stage(i, false)];
          isFailed := true;
          break;
        case Some(c) =>
          log := log + [Stage(i, true)];
          transactions := transactions[i := c];
          i := i + 1;
      }
    }

    /** The second loop, over the transactions in any order, which is returned: with the answers of the
        nodes it determines all requests. */
    method CommitOrDelete(faults: Faults, transactions: map<nat, C>, failedBefore: bool)
      returns (isFailed: bool, ghost order: seq<nat>)
      requires forall n :: n in transactions ==> n < |configs|
      requires NoEnding(log)
      modifies this
      ensures Visits(order, transactions.Keys)
      ensures log == old(log) + EndLog(order, failedBefore, faults)
      ensures isFailed <==> FailedBy(order, |order|, failedBefore, faults)
      // A transaction is committed exactly when nothing has failed before and no earlier commit failed.
      ensures forall n: nat :: Commit(n, true) in log <==> !failedBefore && Commits(order, faults, n)
      ensures |configs| == |old(configs)| && forall n: nat :: n < |configs| ==>
                configs[n] == if Commit(n, true) in log && n in transactions then transactions[n] else old(configs[n])
      ensures forall n: nat :: Endings(log, n) == if n in transactions then 1 else 0
      ensures NoCommitAfterFailure(log) && CommitsComeLast(log)
      ensures Truthful(old(log), faults) ==> Truthful(log, faults)
      ensures forall e: Event :: e.Open? || e.Stage? ==> (e in log <==> e in old(log))
      ensures failedBefore ==> forall e :: e in log ==> !e.Commit?
    {
      hide *;
      ghost var start := log;
      isFailed, order := EndAll(faults, transactions, failedBefore);
      EndLogTells(order, failedBefore, faults);
      EndLogIsOrderly(start, order, failedBefore, faults);
      EndsEach(start, order, transactions.Keys, failedBefore, faults);
      LogTells(start, EndLog(order, failedBefore, faults), faults);
      OrderlyMeans(log, isFailed);
    }

    method EndAll(faults: Faults, transactions: map<nat, C>, failedBefore: bool)
      returns (isFailed: bool, ghost order: seq<nat>)
      requires forall n :: n in transactions ==> n < |configs|
      modifies this
      ensures Visits(order, transactions.Keys)
      ensures log == old(log) + EndLog(order, failedBefore, faults)
      ensures isFailed <==> FailedBy(order, |order|, failedBefore, faults)
      ensures |configs| == |old(configs)| && forall n: nat :: n < |configs| ==>
                configs[n] == if !failedBefore && Commits(order, faults, n) &&
                    n in transactions then transactions[n] else old(configs[n])
    {
      isFailed, order := failedBefore, [];
      ghost var start := log;
      var remaining := transactions.Keys;
      NothingEnded(failedBefore, faults);
      hide EndLog, Commits, FailedBy, Ending;
      while remaining != {}
        invariant remaining <= transactions.Keys && Visits(order, transactions.Keys - remaining)
        invariant log == start + EndLog(order, failedBefore, faults)
        invariant isFailed <==> FailedBy(order, |order|, failedBefore, faults)
        invariant |configs| == |old(configs)| && forall n: nat :: n < |configs| ==>
                    configs[n] == if !failedBefore && Commits(order, faults, n) &&
                        n in transactions then transactions[n] else old(configs[n])
      {
        var n :| n in remaining;
        EndLogMore(order, n, failedBefore, faults);
        CommitsAfter(order, n, failedBefore, faults);
        VisitsMore(order, transactions.Keys - remaining, n);
        isFailed := EndTransaction(faults, n, transactions[n], isFailed);
        order := order + [n];
        ghost var visited := transactions.Keys - remaining + {n};
        remaining := remaining - {n};
        assert transactions.Keys - remaining == visited;
      }
    }

    /** One round of the second loop. */
    method EndTransaction(faults: Faults, n: nat, staged: C, failedBefore: bool) returns (isFailed: bool)
      requires n < |configs|
      modifies this
      ensures isFailed <==> failedBefore || !faults.commits(n)
      ensures log == old(log) + Ending(n, failedBefore, faults)
      ensures configs == if isFailed then old(configs) else old(configs)[n := staged]
    {
      isFailed := failedBefore;
      var committed := false;
      if !isFailed {
        committed := faults.commits(n);
        log := log + [Commit(n, committed)];
        if committed {
          configs := configs[n := staged];
        }
      }
      if isFailed || !committed {
        isFailed := true;
        log := log + [Delete(n, faults.deletes(n))];
      }
    }

    /** RunActionsInAllHAProxyNodes; without a node it refuses. The order of the transactions is
        returned. */
    method RunActionsInAllNodes(faults: Faults, stage: (nat, C) -> Option<C>) returns (ok: bool, ghost order: seq<nat>)
      modifies this
      // Success is every node committed, and every live configuration is the staged one.
      ensures ok <==> configs != [] && StagesAll(old(configs), faults, stage) && forall n: nat :: n < |configs| ==>
                faults.commits(n)
      ensures |configs| == |old(configs)|
      ensures ok ==> forall n: nat :: n < |configs| ==>
                Commit(n, true) in log && stage(n, old(configs[n])) == Some(configs[n])
      // The nodes that commit are those up to the first that refuses, once everything is staged.
      ensures forall n: nat :: Commit(n, true) in log <==>
                StagesAll(old(configs), faults, stage) && Commits(order, faults, n)
      ensures StagesAll(old(configs), faults, stage) ==> Visits(order, Nodes(|configs|))
      // A node changes only by its own successful commit.
      ensures forall n: nat :: n < |configs| ==>
                if Commit(n, true) in log then Some(configs[n]) == stage(n, old(configs[n]))
                else configs[n] == old(configs[n])
      // A failure leaves some node committed exactly when all staged and the first commit succeeded.
      ensures SomeCommitted(log) <==> StagesAll(old(configs), faults, stage) && order != [] && faults.commits(order[0])
      // When staging fails anywhere, nothing is committed.
      ensures !StagesAll(old(configs), faults, stage) ==> configs == old(configs) && forall e :: e in log ==> !e.Commit?
      // Each opened transaction ends once: by a commit or by a request to delete it.
      ensures Visits(order, Opened(log))
      ensures forall n: nat :: Endings(log, n) == if Open(n, true) in log then 1 else 0
      ensures NoCommitAfterFailure(log) && CommitsComeLast(log) && Truthful(log, faults)
      ensures forall n: nat, staged :: Stage(n, staged) in log ==>
                n < |configs| && staged == stage(n, old(configs[n])).Some?
    {
      hide *;
      NoNodes(faults);
      if configs == [] {
        log := [];
        StagesNone(configs, faults, stage);
        return false, [];
      }
      ok, order := StageAndCommit(faults, stage);
      FirstCommitDecides(log, order, faults, StagesAll(old(configs), faults, stage));
      if StagesAll(old(configs), faults, stage) {
        AllCommitIff(order, Nodes(|configs|), faults);
      }
    }

    method StageAndCommit(faults: Faults, stage: (nat, C) -> Option<C>) returns (ok: bool, ghost order: seq<nat>)
      modifies this
      ensures ok <==> StagesAll(old(configs), faults, stage) && !FailedBy(order, |order|, false, faults)
      ensures forall n: nat :: Commit(n, true) in log <==>
                StagesAll(old(configs), faults, stage) && Commits(order, faults, n)
      ensures StagesAll(old(configs), faults, stage) ==> Visits(order, Nodes(|configs|))
      ensures |configs| == |old(configs)| && forall n: nat :: n < |configs| ==>
                if Commit(n, true) in log then Some(configs[n]) == stage(n, old(configs[n]))
                else configs[n] == old(configs[n])
      ensures !StagesAll(old(configs), faults, stage) ==> configs == old(configs) && forall e :: e in log ==> !e.Commit?
      ensures Visits(order, Opened(log)) && forall n: nat :: Endings(log, n) == if Open(n, true) in log then 1 else 0
      ensures NoCommitAfterFailure(log) && CommitsComeLast(log) && Truthful(log, faults)
      ensures forall n: nat, staged :: Stage(n, staged) in log ==>
                n < |configs| && staged == stage(n, old(configs[n])).Some?
    {
      hide Endings, NoCommitAfterFailure, CommitsComeLast, Truthful, NoEnding, Visits, Commits, FailedBy, EndLog,
          StagesAll;
      var transactions, isFailed := StageOnAllNodes(faults, stage);
      ghost var stagedAll, staged := !isFailed, log;
      OpenedNodes(log, transactions.Keys);
      AllOpened(configs, faults, stage, transactions.Keys);
      hide *;
      isFailed, order := CommitOrDelete(faults, transactions, isFailed);
      SameOpened(staged, log);
      OnlyVisited(order, transactions.Keys, faults);
      LiveAfter(old(configs), configs, transactions, log, stage, stagedAll);
      FailedAnyway(order, faults);
      return !isFailed, order;
    }
  }

  lemma NoNodes(faults: Faults)
    ensures NoEnding([]) && Truthful([], faults) && Opened([]) == {} && Visits([], {}) && Nodes(0) == {}
    ensures NoCommitAfterFailure([]) && CommitsComeLast([]) && !SomeCommitted([])
    ensures forall n: nat :: Endings([], n) == 0 && !Commits([], faults, n)
  {
  }

  lemma StagesNone<C(!new)>(configs: seq<C>, faults: Faults, stage: (nat, C) -> Option<C>)
    requires configs == []
    ensures StagesAll(configs, faults, stage)
  {
  }

  lemma FailedAnyway(order: seq<nat>, faults: Faults)
    ensures FailedBy(order, |order|, true, faults)
  {
  }

  lemma AllOpened<C(!new)>(configs: seq<C>, faults: Faults, stage: (nat, C) -> Option<C>, nodes: set<nat>)
    requires forall n: nat :: n in nodes <==>
               n < |configs| && faults.opens(n) && StagesBefore(n, configs, faults, stage)
    ensures StagesAll(configs, faults, stage) ==> nodes == Nodes(|configs|)
  {
  }

  lemma StagedMore(log: seq<Event>, e: Event, faults: Faults)
    requires NoEnding(log) && Truthful(log, faults) && (e.Stage? || (e.Open? && e.ok == faults.opens(e.node)))
    ensures NoEnding(log + [e]) && Truthful(log + [e], faults)
  {
  }

  /** What is live on the nodes. */
  lemma LiveAfter<C(!new)>(before: seq<C>, after: seq<C>, transactions: map<nat, C>, log: seq<Event>,
      stage: (nat, C) -> Option<C>, stagedAll: bool)
    requires |after| == |before|
    requires forall n: nat :: n < |before| ==>
               after[n] == if Commit(n, true) in log && n in transactions then transactions[n] else before[n]
    requires forall n: nat :: stagedAll && n in transactions ==>
               n < |before| && stage(n, before[n]) == Some(transactions[n])
    requires forall n: nat :: Commit(n, true) in log ==> stagedAll && n in transactions
    ensures forall n: nat :: n < |before| ==>
              if Commit(n, true) in log then Some(after[n]) == stage(n, before[n]) else after[n] == before[n]
    ensures !stagedAll ==> after == before
  {
  }

  lemma OpenedNodes(log: seq<Event>, nodes: set<nat>)
    requires forall n: nat :: n in nodes <==> Open(n, true) in log
    ensures nodes == Opened(log)
  {
  }

  lemma SameOpened(log: seq<Event>, more: seq<Event>)
    requires forall e: Event :: e.Open? || e.Stage? ==> (e in more <==> e in log)
    ensures Opened(more) == Opened(log)
    ensures forall n: nat :: n in Opened(log) <==> Open(n, true) in more
  {
  }

  lemma NothingEnded(failedBefore: bool, faults: Faults)
    ensures EndLog([], failedBefore, faults) == [] && (FailedBy([], 0, failedBefore, faults) <==> failedBefore)
    ensures forall n: nat :: !Commits([], faults, n)
  {
  }

  lemma CommitsAfter(order: seq<nat>, n: nat, failedBefore: bool, faults: Faults)
    ensures FailedBy(order + [n], |order| + 1, failedBefore, faults)
       <==> FailedBy(order, |order|, failedBefore, faults) || !faults.commits(n)
    ensures failedBefore ==> FailedBy(order, |order|, failedBefore, faults)
    ensures !failedBefore ==> forall m: nat ::
              Commits(order + [n], faults, m)
              <==>
              Commits(order, faults, m) ||
              (m == n && !FailedBy(order, |order|, false, faults) && faults.commits(n))
  {
    FailedMore(order, n, failedBefore, faults);
    assert FailedBy(order, |order|, failedBefore, faults) <==> failedBefore || FailedBy(order, |order|, false, faults);
    hide Commits, FailedBy;
    forall m: nat ensures Commits(order + [n], faults, m)
                     <==>
                     Commits(order, faults, m) ||
                     (m == n && !FailedBy(order, |order|, false, faults) && faults.commits(n))
    {
      CommitsMore(order, n, faults, m);
    }
  }

  lemma VisitsMore(order: seq<nat>, nodes: set<nat>, n: nat)
    requires Visits(order, nodes) && n !in nodes
    ensures Visits(order + [n], nodes + {n})
  {
    assert forall j :: 0 <= j < |order| ==> order[j] in order;
  }

  lemma EndsEach(start: seq<Event>, order: seq<nat>, nodes: set<nat>, failedBefore: bool, faults: Faults)
    requires NoEnding(start) && Visits(order, nodes)
    ensures forall n: nat :: Endings(start + EndLog(order, failedBefore, faults), n) == if n in nodes then 1 else 0
  {
    NoEndingYet(start);
    hide EndLog, Endings, NoEnding;
    forall n: nat ensures Endings(start + EndLog(order, failedBefore, faults), n) == if n in nodes then 1 else 0 {
      EndingsConcat(start, EndLog(order, failedBefore, faults), n);
      EndLogEnds(order, failedBefore, faults, n);
    }
  }

  lemma LogTells(start: seq<Event>, more: seq<Event>, faults: Faults)
    requires NoEnding(start) && Truthful(more, faults) && forall e :: e in more ==> !e.Open? && !e.Stage?
    ensures Truthful(start, faults) ==> Truthful(start + more, faults)
    ensures forall e: Event :: e.Open? || e.Stage? ==> (e in start + more <==> e in start)
    ensures forall e: Event :: e.Commit? ==> (e in start + more <==> e in more)
  {
  }

  lemma OrderlyMeans(log: seq<Event>, failed: bool)
    requires Orderly(log, failed)
    ensures NoCommitAfterFailure(log) && CommitsComeLast(log)
  {
  }

  lemma FirstCommitDecides(log: seq<Event>, order: seq<nat>, faults: Faults, stagedAll: bool)
    requires forall n: nat :: Commit(n, true) in log <==> stagedAll && Commits(order, faults, n)
    ensures SomeCommitted(log) <==> stagedAll && order != [] && faults.commits(order[0])
  {
    FirstDecides(order, faults);
    hide Commits;
    if SomeCommitted(log) {
      var n: nat :| Commit(n, true) in log;
      assert Commits(order, faults, n);
    }
    if stagedAll && order != [] && faults.commits(order[0]) {
      var n: nat :| Commits(order, faults, n);
      assert Commit(n, true) in log;
    }
  }

  lemma OnlyVisited(order: seq<nat>, nodes: set<nat>, faults: Faults)
    requires Visits(order, nodes)
    ensures forall n: nat :: Commits(order, faults, n) ==> n in nodes
  {
  }

  lemma AllCommitIff(order: seq<nat>, nodes: set<nat>, faults: Faults)
    requires Visits(order, nodes)
    ensures FailedBy(order, |order|, false, faults) <==> exists n: nat :: n in nodes && !faults.commits(n)
    ensures forall n: nat :: n in nodes && !FailedBy(order, |order|, false, faults) ==> Commits(order, faults, n)
    ensures FailedBy(order, |order|, true, faults)
  {
    forall n: nat | n in nodes && !FailedBy(order, |order|, false, faults) ensures Commits(order, faults, n) {
      assert n in order;
    }
  }
}
