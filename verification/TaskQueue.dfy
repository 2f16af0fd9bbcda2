/** The promise that both task queues make: a task that was accepted stays owed until it has run
    successfully, or a purge deletes it. */
module AtLeastOnce {

  datatype Task = Task(queue: string, body: string)

  datatype Event =
    | Accepted(task: Task)
    | Succeeded(task: Task)
    | Purged(tasks: set<Task>)
    | Silent

  function Apply(owed: set<Task>, e: Event): set<Task> {
    match e
    case Accepted(t) => owed + {t}
    case Succeeded(t) => owed - {t}
    case Purged(ts) => owed - ts
    case Silent => owed
  }

  /** What is owed after the events of a run. */
  function Owed(trace: seq<Event>): set<Task> {
    if trace == [] then {} else Apply(Owed(trace[..|trace| - 1]), trace[|trace| - 1])
  }

  lemma OwedMore(trace: seq<Event>, e: Event)
    ensures Owed(trace + [e]) == Apply(Owed(trace), e)
  {
    assert (trace + [e])[..|trace|] == trace;
  }

  predicate Ends(e: Event, t: Task) {
    e == Succeeded(t) || (e.Purged? && t in e.tasks)
  }

  /** The task was accepted at position `a`, and has neither succeeded nor been purged since. */
  ghost predicate Open(trace: seq<Event>, a: nat, t: Task) {
    a < |trace| && trace[a] == Accepted(t) && forall j :: a < j < |trace| ==> !Ends(trace[j], t)
  }

  lemma OpenMore(trace: seq<Event>, e: Event, a: nat, t: Task)
    requires Open(trace, a, t) && !Ends(e, t)
    ensures Open(trace + [e], a, t)
  {
    var more := trace + [e];
    assert more[a] == trace[a] && forall j :: a < j < |trace| ==> more[j] == trace[j];
  }

  /** A task that is owed after one more event was just accepted, or was open before. */
  lemma OpenIn(trace: seq<Event>, e: Event, l: nat, t: Task)
    requires t in Apply(Owed(trace), e) && l < |trace|
    requires t in Owed(trace) ==> exists a: nat :: l < a && Open(trace, a, t)
    ensures exists a: nat :: l < a && Open(trace + [e], a, t)
  {
    if e == Accepted(t) {
      assert Open(trace + [e], |trace|, t);
    } else {
      var a: nat :| l < a && Open(trace, a, t);
      OpenMore(trace, e, a, t);
    }
  }

  lemma OpenAfterSuccess(trace: seq<Event>, r: nat, a: nat, t: Task)
    requires r < |trace| && trace[r] == Succeeded(t) && Open(trace, a, t)
    ensures r < a < |trace|
  {
    assert trace[r] != trace[a] && Ends(trace[r], t);
  }

  /** A task is owed exactly when some acceptance of it is followed by neither a successful run of
      it nor a purge of it. */
  lemma {:induction false} OwedMeans(trace: seq<Event>, t: Task)
    ensures t in Owed(trace) <==> exists a: nat :: Open(trace, a, t)
    decreases |trace|
  {
    if trace != [] {
      var n := |trace| - 1;
      var before, e := trace[..n], trace[n];
      assert trace == before + [e];
      OwedMeans(before, t);
      if e == Accepted(t) {
        assert Open(trace, n, t);
      } else if a: nat :| Open(trace, a, t) {
        assert Open(before, a, t) && !Ends(trace[n], t);
      } else if a: nat :| Open(before, a, t) {
        assert Ends(e, t) by {
          if !Ends(e, t) {
            OpenMore(before, e, a, t);
          }
        }
      }
    }
  }

  // ------------------------------------------------------------------
  // Schedules, from left to right
  // ------------------------------------------------------------------

  function Front<T>(steps: seq<T>): seq<T>
    requires steps != []
  {
    steps[..|steps| - 1]
  }

  function Last<T>(steps: seq<T>): T
    requires steps != []
  {
    steps[|steps| - 1]
  }
}

/** task_queue/local_task_queue.go and local_task_queue_persist.go: rows in a table, and one
    bounded channel per queue.  A SHA-256 hash stands for its body. */
module LocalQueue {
  import opened Wrappers
  import opened RuleLists
  import opened AtLeastOnce

  // ------------------------------------------------------------------
  // The row store
  // ------------------------------------------------------------------

  function IsNot(t: Task): Task -> bool { (u: Task) => u != t }

  function InQueue(q: string): Task -> bool { (u: Task) => u.queue == q }

  function NotInQueue(q: string): Task -> bool { (u: Task) => u.queue != q }

  /** DELETE ... WHERE queue_name = ? AND hash = ? */
  function Without(rows: seq<Task>, t: Task): (rest: seq<Task>)
    ensures forall u :: u in rest <==> u in rows && u != t
  {
    ProjectMembers(rows, IsNot(t));
    Project(rows, IsNot(t))
  }

  /** DELETE ... WHERE queue_name = ? */
  function WithoutQueue(rows: seq<Task>, q: string): (rest: seq<Task>)
    ensures forall u :: u in rest <==> u in rows && u.queue != q
  {
    ProjectMembers(rows, NotInQueue(q));
    Project(rows, NotInQueue(q))
  }

  /** SELECT ... WHERE queue_name = ? */
  function OfQueue(rows: seq<Task>, q: string): (found: seq<Task>)
    ensures forall u :: u in found <==> u in rows && u.queue == q
  {
    ProjectMembers(rows, InQueue(q));
    Project(rows, InQueue(q))
  }

  /** addTaskToDb, undisturbed */
  function AddRow(rows: seq<Task>, t: Task): (rows': seq<Task>)
    ensures forall u :: u in rows' <==> u in rows || u == t
  {
    if t in rows then rows else rows + [t]
  }

  function AddRows(rows: seq<Task>, tasks: seq<Task>): (rows': seq<Task>)
    ensures forall u :: u in rows' <==> u in rows || u in tasks
    decreases |tasks|
  {
    if tasks == [] then rows else AddRows(AddRow(rows, tasks[0]), tasks[1..])
  }

  /** What a channel holds after it was offered `tasks`, dropping those for which it is full. */
  function Offer(channel: seq<Task>, tasks: seq<Task>, capacity: nat): seq<Task>
    decreases |tasks|
  {
    if tasks == [] then channel
    else Offer(if |channel| == capacity then channel else channel + [tasks[0]], tasks[1..], capacity)
  }

  lemma {:induction false} OfferFillsUp(channel: seq<Task>, tasks: seq<Task>, capacity: nat)
    requires |channel| <= capacity
    ensures Offer(channel, tasks, capacity) ==
            channel + tasks[..if |channel| + |tasks| <= capacity then |tasks| else capacity - |channel|]
    decreases |tasks|
  {
    if tasks == [] {
      assert channel + [] == channel;
    } else if |channel| == capacity {
      OfferFillsUp(channel, tasks[1..], capacity);
      assert channel + [] == channel;
    } else {
      OfferFillsUp(channel + [tasks[0]], tasks[1..], capacity);
      var n := if |channel| + |tasks| <= capacity then |tasks| else capacity - |channel|;
      assert tasks[..n] == [tasks[0]] + tasks[1..][..n - 1];
    }
  }

  /** The channel has room for the task among those that it is offered. */
  ghost predicate HasRoom(channel: seq<Task>, tasks: seq<Task>, t: Task, capacity: nat) {
    exists k: nat :: k < |tasks| && tasks[k] == t && |channel| + k < capacity
  }

  /** A task is in the channel afterwards exactly when it was there, or there was room for it. */
  lemma OfferedIffRoom(channel: seq<Task>, tasks: seq<Task>, t: Task, capacity: nat)
    requires |channel| <= capacity
    ensures t in Offer(channel, tasks, capacity) <==> t in channel || HasRoom(channel, tasks, t, capacity)
  {
    OfferFillsUp(channel, tasks, capacity);
    var n := if |channel| + |tasks| <= capacity then |tasks| else capacity - |channel|;
    if t in tasks[..n] {
      var k: nat :| k < n && tasks[..n][k] == t;
      assert tasks[k] == t;
    }
    if k: nat :| k < |tasks| && tasks[k] == t && |channel| + k < capacity {
      assert tasks[..n][k] == t;
    }
  }

  /** The rows that a replay of one queue leaves. */
  function Replayed(rows: seq<Task>, q: string): seq<Task> {
    AddRows(WithoutQueue(rows, q), OfQueue(rows, q))
  }

  lemma {:induction false} WithoutOfOther(rows: seq<Task>, q: string, r: string)
    requires q != r
    ensures OfQueue(WithoutQueue(rows, q), r) == OfQueue(rows, r)
  {
    if rows != [] {
      WithoutOfOther(rows[1..], q, r);
      var first := if rows[0].queue != q then [rows[0]] else [];
      ProjectAppend(first, WithoutQueue(rows[1..], q), InQueue(r));
      ProjectCons(rows, NotInQueue(q));
      ProjectCons(rows, InQueue(r));
      assert first != [] ==> first[1..] == [];
    }
  }

  lemma {:induction false} AddedOfOther(rows: seq<Task>, tasks: seq<Task>, q: string, r: string)
    requires q != r && forall t :: t in tasks ==> t.queue == q
    ensures OfQueue(AddRows(rows, tasks), r) == OfQueue(rows, r)
    decreases |tasks|
  {
    if tasks != [] {
      assert tasks[0] in tasks;
      ProjectAppend(rows, [tasks[0]], InQueue(r));
      ProjectNone([tasks[0]], InQueue(r));
      AddedOfOther(AddRow(rows, tasks[0]), tasks[1..], q, r);
    }
  }

  /** Replaying one queue leaves the rows of every other queue as they were, in their order. */
  lemma ReplayedOfOther(rows: seq<Task>, q: string, r: string)
    requires q != r
    ensures OfQueue(Replayed(rows, q), r) == OfQueue(rows, r)
  {
    WithoutOfOther(rows, q, r);
    AddedOfOther(WithoutQueue(rows, q), OfQueue(rows, q), q, r);
  }

  // ------------------------------------------------------------------
  // The queue as a machine of interleaved steps
  // ------------------------------------------------------------------

  /** A call of addTaskToDb between its two database calls, and what the first one found. */
  datatype Adding = Adding(task: Task, found: bool)

  /** `Loaded`: the rows were read and not yet deleted.  `Restoring`: deleted, and to be added again,
      the first of them perhaps already looked up. */
  datatype Replay = Idle | Loaded(queue: string, tasks: seq<Task>) | Restoring(pending: seq<Task>, found: Option<bool>)

  /** `sending` are tasks that passed addTaskToDb and have not reached their channel; `running`
      are with a worker; `done` have run successfully and are not yet removed from the table. */
  datatype State = State(
    capacity: nat,
    channels: map<string, seq<Task>>,
    rows: seq<Task>,
    adding: seq<Adding>,
    sending: seq<Task>,
    running: seq<Task>,
    done: seq<Task>,
    replay: Replay)

  /** Each step makes at most one database call. */
  datatype Step =
      // EnqueueTask: look the task up; insert it if it was not found, and return; send it
    | Check(task: Task)
    | Accept(i: nat)
    | Send(i: nat)
    | Reject(i: nat)
      // a worker
    | Pop(queue: string)
    | Succeed(i: nat)
    | Fail(i: nat)
    | Remove(i: nat)
      // PurgeQueue
    | Purge(queue: string)
      // the replay
    | ReplayLoad(queue: string)
    | ReplayDelete
    | ReplayCheck
    | ReplayAdd
      // channels, workers and calls are gone, the table stays
    | Restart

  predicate Enabled(s: State, step: Step) {
    match step
    case Check(t) => t.queue in s.channels
    case Accept(i) => i < |s.adding|
    case Send(i) => i < |s.sending| && s.sending[i].queue in s.channels && |s.channels[s.sending[i].queue]| < s.capacity
    case Reject(i) => i < |s.sending| && s.sending[i].queue in s.channels &&
        |s.channels[s.sending[i].queue]| == s.capacity
    case Pop(q) => q in s.channels && s.channels[q] != []
    case Succeed(i) => i < |s.running|
    case Fail(i) => i < |s.running|
    case Remove(i) => i < |s.done|
    case Purge(q) => true
    case ReplayLoad(q) => s.replay == Idle && q in s.channels
    case ReplayDelete => s.replay.Loaded?
    case ReplayCheck => s.replay.Restoring? && s.replay.pending != [] && s.replay.found == None
    case ReplayAdd => s.replay.Restoring? && s.replay.pending != [] && s.replay.found.Some?
    case Restart => true
  }

  function Drop<T>(s: seq<T>, i: nat): seq<T>
    requires i < |s|
  {
    s[..i] + s[i + 1..]
  }

  /** A step that is not enabled does nothing. */
  function Next(s: State, step: Step): State {
    if !Enabled(s, step) then s
    else
      match step
      case Check(t) => s.(adding := s.adding + [Adding(t, t in s.rows)])
      case Accept(i) =>
        var Adding(t, found) := s.adding[i];
        s.(rows := if found then s.rows else s.rows + [t], adding := Drop(s.adding, i), sending := s.sending + [t])
      case Send(i) =>
        var t := s.sending[i];
        s.(channels := s.channels[t.queue := s.channels[t.queue] + [t]], sending := Drop(s.sending, i))
      case Reject(i) => s.(sending := Drop(s.sending, i))
      case Pop(q) => s.(channels := s.channels[q := s.channels[q][1..]], running := s.running + [s.channels[q][0]])
      case Succeed(i) => s.(running := Drop(s.running, i), done := s.done + [s.running[i]])
      case Fail(i) => s.(running := Drop(s.running, i))
      case Remove(i) => s.(rows := Without(s.rows, s.done[i]), done := Drop(s.done, i))
      case Purge(q) => s.(rows := WithoutQueue(s.rows, q))
      case ReplayLoad(q) => s.(replay := Loaded(q, OfQueue(s.rows, q)))
      case ReplayDelete => s.(rows := WithoutQueue(s.rows, s.replay.queue), replay := Restored(s.replay.tasks))
      case ReplayCheck => s.(replay := Restoring(s.replay.pending, Some(s.replay.pending[0] in s.rows)))
      case ReplayAdd =>
        var t := s.replay.pending[0];
        s.(rows := if s.replay.found.value then s.rows else s.rows + [t], sending := s.sending + [t],
            replay := Restored(s.replay.pending[1..]))
      case Restart => State(s.capacity, map q | q in s.channels :: [], s.rows, [], [], [], [], Idle)
  }

  function Restored(tasks: seq<Task>): Replay {
    if tasks == [] then Idle else Restoring(tasks, None)
  }

  /** A task is accepted when addTaskToDb returns, and has succeeded when its function returns; a
      purge ends what it deletes. */
  function EventOf(s: State, step: Step): Event {
    if !Enabled(s, step) then Silent
    else
      match step
      case Accept(i) => Accepted(s.adding[i].task)
      case ReplayAdd => Accepted(s.replay.pending[0])
      case Succeed(i) => Succeeded(s.running[i])
      case Purge(q) => Purged(set t | t in s.rows && t.queue == q)
      case _ => Silent
  }

  function Pending(s: State): seq<Task> {
    if s.replay.Restoring? then s.replay.pending else []
  }

  /** A task is stored while it has a row, or is pending in the running replay. */
  predicate Stored(s: State, t: Task) {
    t in s.rows || t in Pending(s)
  }

  ghost predicate NoLoss(s: State, owed: set<Task>) {
    forall t :: t in owed ==> Stored(s, t)
  }

  // ------------------------------------------------------------------
  // Schedules
  // ------------------------------------------------------------------

  /** The state after a schedule, from left to right. */
  function After(s: State, steps: seq<Step>): State {
    if steps == [] then s else Next(After(s, Front(steps)), Last(steps))
  }

  /** The events of a schedule, one for each step. */
  function Events(s: State, steps: seq<Step>): (trace: seq<Event>)
    ensures |trace| == |steps|
  {
    if steps == [] then [] else Events(s, Front(steps)) + [EventOf(After(s, Front(steps)), Last(steps))]
  }

  lemma AfterMore(s: State, past: seq<Step>, step: Step)
    ensures After(s, past + [step]) == Next(After(s, past), step)
    ensures Events(s, past + [step]) == Events(s, past) + [EventOf(After(s, past), step)]
  {
    assert Front(past + [step]) == past;
  }

  ghost predicate Init(s: State) {
    && s.rows == [] && s.adding == [] && s.sending == [] && s.running == [] && s.done == [] && s.replay == Idle
    && forall q :: q in s.channels ==> s.channels[q] == []
  }

  /** At every moment of the schedule, all that is owed is stored. */
  ghost predicate NeverLoses(s: State, steps: seq<Step>) {
    && NoLoss(After(s, steps), Owed(Events(s, steps)))
    && (steps == [] || NeverLoses(s, Front(steps)))
  }

  // ------------------------------------------------------------------
  // The four ways to lose a task
  // ------------------------------------------------------------------

  /** What was read by the replay that is loaded after `past` was read by its step number `l`. */
  ghost predicate LoadedBy(s: State, past: seq<Step>, l: nat) {
    var replay := After(s, past).replay;
    replay.Loaded? && l < |past| && past[l] == ReplayLoad(replay.queue) && After(s, past[..l + 1]).replay == replay
  }

  /** The step, after `past`, loses a task:
      - addTaskToDb had found a row, which is gone when it returns;
      - a worker removes the row of a task that was accepted again after its run had returned;
      - the replay deletes the row of a task that was accepted after it had read the rows;
      - a restart meets a task that is neither finished nor back in the table. */
  ghost predicate Hazard(s: State, past: seq<Step>, step: Step) {
    var m, trace := After(s, past), Events(s, past);
    && Enabled(m, step)
    && match step
       case Accept(i) => m.adding[i].found && !Stored(m, m.adding[i].task)
       case ReplayAdd => m.replay.found.value && m.replay.pending[0] !in m.rows &&
           m.replay.pending[0] !in m.replay.pending[1..]
       case Remove(i) =>
         && m.done[i] !in Pending(m)
         && exists r: nat, a: nat :: r < a < |trace| && trace[r] == Succeeded(m.done[i]) && Open(trace, a, m.done[i])
       case ReplayDelete =>
         exists l: nat, a: nat, t: Task ::
           LoadedBy(s, past, l) && l < a && t.queue == m.replay.queue && t !in m.replay.tasks && Open(trace, a, t)
       case Restart =>
         exists a: nat, t: Task :: t in Pending(m) && t !in m.rows && Open(trace, a, t)
       case _ => false
  }

  ghost predicate NoHazard(s: State, steps: seq<Step>) {
    steps == [] || (NoHazard(s, Front(steps)) && !Hazard(s, Front(steps), Last(steps)))
  }

  /** The same for one step, in terms of what is owed. */
  ghost predicate Loses(m: State, owed: set<Task>, step: Step) {
    && Enabled(m, step)
    && match step
       case Accept(i) => m.adding[i].found && !Stored(m, m.adding[i].task)
       case ReplayAdd => m.replay.found.value && m.replay.pending[0] !in m.rows &&
           m.replay.pending[0] !in m.replay.pending[1..]
       case Remove(i) => m.done[i] !in Pending(m) && m.done[i] in owed
       case ReplayDelete => exists t :: t in owed && t.queue == m.replay.queue && t !in m.replay.tasks
       case Restart => exists t :: t in owed && t in Pending(m) && t !in m.rows
       case _ => false
  }

  lemma StepLosesIff(m: State, owed: set<Task>, step: Step)
    requires NoLoss(m, owed)
    ensures NoLoss(Next(m, step), Apply(owed, EventOf(m, step))) <==> !Loses(m, owed, step)
  {
    var m', owed' := Next(m, step), Apply(owed, EventOf(m, step));
    if Loses(m, owed, step) {
      match step
      case Accept(i) => assert m.adding[i].task in owed' && !Stored(m', m.adding[i].task);
      case ReplayAdd => assert m.replay.pending[0] in owed' && !Stored(m', m.replay.pending[0]);
      case Remove(i) => assert m.done[i] in owed' && !Stored(m', m.done[i]);
      case ReplayDelete =>
        var t :| t in owed && t.queue == m.replay.queue && t !in m.replay.tasks;
        assert t in owed' && !Stored(m', t);
      case Restart =>
        var t :| t in owed && t in Pending(m) && t !in m.rows;
        assert t in owed' && !Stored(m', t);
    } else {
      StepKeeps(m, owed, step);
    }
  }

  lemma StepKeeps(m: State, owed: set<Task>, step: Step)
    requires NoLoss(m, owed) && !Loses(m, owed, step)
    ensures NoLoss(Next(m, step), Apply(owed, EventOf(m, step)))
  {
    if step.ReplayAdd? && Enabled(m, step) {
      assert m.replay.pending == [m.replay.pending[0]] + m.replay.pending[1..];
    }
  }

  lemma DoneStep(m: State, step: Step, t: Task)
    requires t in Next(m, step).done && t !in m.done
    ensures EventOf(m, step) == Succeeded(t)
  {
  }

  /** A task that is waiting for its removal has succeeded. */
  lemma {:induction false} DoneMeans(s: State, past: seq<Step>, t: Task)
    requires Init(s) && t in After(s, past).done
    ensures exists r: nat :: r < |past| && Events(s, past)[r] == Succeeded(t)
  {
    var m, before, step := After(s, Front(past)), Front(past), Last(past);
    var trace := Events(s, past);
    hide Init;
    if t in m.done {
      hide Next, EventOf;
      DoneMeans(s, before, t);
      var r: nat :| r < |before| && Events(s, before)[r] == Succeeded(t);
      assert trace[r] == Succeeded(t);
    } else {
      DoneStep(m, step, t);
      hide Next, EventOf;
      assert trace[|before|] == Succeeded(t);
    }
  }

  lemma LoadedStill(s: State, past: seq<Step>, step: Step, l: nat)
    requires LoadedBy(s, past, l) && After(s, past + [step]).replay == After(s, past).replay
    ensures LoadedBy(s, past + [step], l)
  {
    assert (past + [step])[..l + 1] == past[..l + 1];
  }

  /** While nothing is lost: what is owed to a loaded queue and was not read was accepted since. */
  lemma {:induction false} LoadMeans(s: State, past: seq<Step>) returns (l: nat)
    requires Init(s) && NeverLoses(s, past) && After(s, past).replay.Loaded?
    ensures LoadedBy(s, past, l)
    ensures var m, trace := After(s, past), Events(s, past);
            forall t :: t in Owed(trace) && t.queue == m.replay.queue && t !in m.replay.tasks ==>
                exists a: nat :: l < a && Open(trace, a, t)
  {
    var before, step, m' := Front(past), Last(past), After(s, past);
    var m, trace, e := After(s, before), Events(s, before), EventOf(After(s, before), Last(past));
    assert past[..|past|] == past && past == before + [step];
    assert m' == Next(m, step) && Events(s, past) == trace + [e] && NoLoss(m, Owed(trace));
    OwedMore(trace, e);
    if step.ReplayLoad? && Enabled(m, step) {
      LoadFresh(s, before, step.queue);
      return |before|;
    }
    assert m'.replay == m.replay;
    l := LoadMeans(s, before);
    LoadedStill(s, before, step, l);
    hide *;
    forall t | t in Owed(trace + [e]) && t.queue == m'.replay.queue && t !in m'.replay.tasks
      ensures exists a: nat :: l < a && Open(trace + [e], a, t)
    {
      OpenIn(trace, e, l, t);
    }
  }

  /** A replay has just read the rows of its queue: all that is owed to it is there. */
  lemma LoadFresh(s: State, past: seq<Step>, q: string)
    requires Enabled(After(s, past), ReplayLoad(q)) && NoLoss(After(s, past), Owed(Events(s, past)))
    ensures LoadedBy(s, past + [ReplayLoad(q)], |past|)
    ensures forall t :: t in Owed(Events(s, past + [ReplayLoad(q)])) && t.queue == q ==>
              t in After(s, past + [ReplayLoad(q)]).replay.tasks
  {
    AfterMore(s, past, ReplayLoad(q));
    OwedMore(Events(s, past), Silent);
    assert (past + [ReplayLoad(q)])[..|past| + 1] == past + [ReplayLoad(q)];
  }

  lemma HazardIffLoses(s: State, past: seq<Step>, step: Step)
    requires Init(s) && NeverLoses(s, past)
    ensures Hazard(s, past, step) <==> Loses(After(s, past), Owed(Events(s, past)), step)
  {
    if Enabled(After(s, past), step) {
      match step
      case Remove(i) => RemoveHazard(s, past, i);
      case ReplayDelete => DeleteHazard(s, past);
      case Restart => RestartHazard(s, past);
      case _ =>
        hide *;
        OtherHazards(s, past, step);
    }
  }

  lemma OtherHazards(s: State, past: seq<Step>, step: Step)
    requires !step.Remove? && !step.ReplayDelete? && !step.Restart?
    ensures Hazard(s, past, step) <==> Loses(After(s, past), Owed(Events(s, past)), step)
  {
    hide After, Events, Owed, Open, LoadedBy;
  }

  lemma OwedAll(trace: seq<Event>)
    ensures forall t :: t in Owed(trace) <==> exists a: nat :: Open(trace, a, t)
  {
    forall t ensures t in Owed(trace) <==> exists a: nat :: Open(trace, a, t) {
      OwedMeans(trace, t);
    }
  }

  lemma DeleteHazard(s: State, past: seq<Step>)
    requires Init(s) && NeverLoses(s, past) && Enabled(After(s, past), ReplayDelete)
    ensures Hazard(s, past, ReplayDelete) <==> Loses(After(s, past), Owed(Events(s, past)), ReplayDelete)
  {
    var m, trace := After(s, past), Events(s, past);
    if Hazard(s, past, ReplayDelete) {
      OwedAll(trace);
      hide After, Events, Owed, Open, LoadedBy, NeverLoses, Init, Enabled;
      var l: nat, a: nat, t: Task :|
        LoadedBy(s, past, l) && l < a && t.queue == m.replay.queue && t !in m.replay.tasks && Open(trace, a, t);
      assert t in Owed(trace);
    }
    if t :| t in Owed(trace) && t.queue == m.replay.queue && t !in m.replay.tasks {
      var l := LoadMeans(s, past);
      hide After, Events, Owed, Open, LoadedBy, NeverLoses, Init, Enabled;
      var a: nat :| l < a && Open(trace, a, t);
      assert Hazard(s, past, ReplayDelete);
    }
  }

  lemma RestartHazard(s: State, past: seq<Step>)
    ensures Hazard(s, past, Restart) <==> Loses(After(s, past), Owed(Events(s, past)), Restart)
  {
    OwedAll(Events(s, past));
    hide After, Events, Owed, Open, LoadedBy, Pending;
  }

  lemma RemoveHazard(s: State, past: seq<Step>, i: nat)
    requires Init(s) && Enabled(After(s, past), Remove(i))
    ensures Hazard(s, past, Remove(i)) <==> Loses(After(s, past), Owed(Events(s, past)), Remove(i))
  {
    AgainSinceRun(s, past, After(s, past).done[i]);
    hide After, Events, Owed, Open, LoadedBy, Pending, Init;
  }

  /** What waits for its removal is owed exactly when it was accepted since its run returned. */
  lemma AgainSinceRun(s: State, past: seq<Step>, t: Task)
    requires Init(s) && t in After(s, past).done
    ensures var trace := Events(s, past);
            t in Owed(trace) <==> exists r: nat, a: nat ::
                r < a < |trace| && trace[r] == Succeeded(t) &&
                Open(trace, a, t)
  {
    var trace := Events(s, past);
    OwedMeans(trace, t);
    DoneMeans(s, past, t);
    var r: nat :| r < |past| && trace[r] == Succeeded(t);
    hide After, Events, Owed, Open, Init;
    forall a: nat | Open(trace, a, t) ensures r < a < |trace| {
      OpenAfterSuccess(trace, r, a, t);
    }
  }

  /** A schedule never loses a task exactly when none of its steps is one of the four hazards. */
  lemma {:induction false} NeverLosesIffNoHazard(s: State, steps: seq<Step>)
    requires Init(s)
    ensures NeverLoses(s, steps) <==> NoHazard(s, steps)
  {
    if steps != [] {
      var past, step := Front(steps), Last(steps);
      NeverLosesIffNoHazard(s, past);
      if NeverLoses(s, past) {
        HazardIffLoses(s, past, step);
        StepLosesIff(After(s, past), Owed(Events(s, past)), step);
        OwedMore(Events(s, past), EventOf(After(s, past), step));
      }
      hide Hazard, Loses, NoLoss, Next, EventOf;
    }
  }

  // ------------------------------------------------------------------
  // Schedules that keep out of the way
  // ------------------------------------------------------------------

  /** Nothing is accepted into the queue that is being replayed, nor while an equal task waits for
      its removal; nothing is deleted under a call that has found it; no restart inside a replay. */
  predicate Calm(m: State, step: Step) {
    match step
    case Accept(i) => i < |m.adding| ==>
        m.adding[i].task !in m.done && !(m.replay.Loaded? && m.replay.queue == m.adding[i].task.queue)
    case ReplayAdd => m.replay.Restoring? && m.replay.pending != [] ==> m.replay.pending[0] !in m.done
    case Remove(i) => i < |m.done| ==> !FoundSome(m, (t: Task) => t == m.done[i])
    case Purge(q) => !FoundSome(m, (t: Task) => t.queue == q)
    case ReplayDelete => m.replay.Loaded? ==> !FoundSome(m, (t: Task) => t.queue == m.replay.queue)
    case Restart => !m.replay.Restoring?
    case _ => true
  }

  /** Some call of addTaskToDb has found such a task and not returned yet. */
  predicate FoundSome(m: State, p: Task -> bool) {
    || (exists k :: 0 <= k < |m.adding| && m.adding[k].found && p(m.adding[k].task))
    || (m.replay.Restoring? && m.replay.pending != [] && m.replay.found == Some(true) && p(m.replay.pending[0]))
  }

  predicate AllCalm(s: State, steps: seq<Step>) {
    steps == [] || (AllCalm(s, Front(steps)) && Calm(After(s, Front(steps)), Last(steps)))
  }

  ghost predicate CalmInv(m: State, owed: set<Task>) {
    NoLoss(m, owed) && NothingStale(m, owed)
  }

  ghost predicate NothingStale(m: State, owed: set<Task>) {
    && (forall t :: t in m.done ==> t !in owed)
    && (forall k :: 0 <= k < |m.adding| && m.adding[k].found ==> m.adding[k].task in m.rows)
    && (m.replay.Restoring? && m.replay.pending != [] && m.replay.found == Some(true) ==> m.replay.pending[0] in m.rows)
    && (m.replay.Loaded? ==> forall t :: t in owed && t.queue == m.replay.queue ==> t in m.replay.tasks)
  }

  lemma CalmStep(m: State, owed: set<Task>, step: Step)
    requires CalmInv(m, owed) && Calm(m, step)
    ensures CalmInv(Next(m, step), Apply(owed, EventOf(m, step)))
  {
    CalmLosesNone(m, owed, step);
    StaysFresh(m, owed, step);
    StepKeeps(m, owed, step);
    hide *;
    CalmMeans(Next(m, step), Apply(owed, EventOf(m, step)));
  }

  lemma CalmMeans(m: State, owed: set<Task>)
    requires NoLoss(m, owed) && NothingStale(m, owed)
    ensures CalmInv(m, owed)
  {
  }

  lemma CalmLosesNone(m: State, owed: set<Task>, step: Step)
    requires CalmInv(m, owed) && Calm(m, step)
    ensures !Loses(m, owed, step)
  {
  }

  lemma StaysFresh(m: State, owed: set<Task>, step: Step)
    requires CalmInv(m, owed) && Calm(m, step)
    ensures NothingStale(Next(m, step), Apply(owed, EventOf(m, step)))
  {
  }

  /** A calm schedule never loses a task. */
  lemma {:induction false} CalmLosesNothing(s: State, steps: seq<Step>)
    requires Init(s) && AllCalm(s, steps)
    ensures NeverLoses(s, steps) && CalmInv(After(s, steps), Owed(Events(s, steps)))
  {
    if steps != [] {
      var past, step := Front(steps), Last(steps);
      CalmLosesNothing(s, past);
      CalmStep(After(s, past), Owed(Events(s, past)), step);
      OwedMore(Events(s, past), EventOf(After(s, past), step));
    }
  }

  /** Over every schedule no channel is over its capacity. */
  lemma {:induction false} ChannelsNeverOverflow(s: State, steps: seq<Step>)
    requires Init(s)
    ensures After(s, steps).capacity == s.capacity
    ensures forall q :: q in After(s, steps).channels ==> |After(s, steps).channels[q]| <= s.capacity
  {
    if steps != [] {
      ChannelsNeverOverflow(s, Front(steps));
    }
  }

  // ------------------------------------------------------------------
  // Schedules that lose a task
  // ------------------------------------------------------------------

  /** A queue with room for one message, and what is going on in it. */
  function At(q: string, channel: seq<Task>, rows: seq<Task>, adding: seq<Adding>, sending: seq<Task>,
      running: seq<Task>, done: seq<Task>, replay: Replay): State {
    State(1, map[q := channel], rows, adding, sending, running, done, replay)
  }

  function New(q: string): State { At(q, [], [], [], [], [], [], Idle) }

  lemma Walk(s: State, past: seq<Step>, m: State, step: Step, m': State)
    requires After(s, past) == m && Next(m, step) == m'
    ensures After(s, past + [step]) == m' && Events(s, past + [step]) == Events(s, past) + [EventOf(m, step)]
  {
    AfterMore(s, past, step);
  }

  lemma OneRow(t: Task)
    ensures OfQueue([], t.queue) == [] && WithoutQueue([t], t.queue) == [] && Without([t], t) == []
  {
    ProjectNone([], InQueue(t.queue));
    ProjectNone([t], NotInQueue(t.queue));
    ProjectNone([t], IsNot(t));
  }

  lemma DropOnly<T>(x: T)
    ensures Drop([x], 0) == [] && [x][1..] == [] && [] + [x] == [x]
  {
  }

  /** Accepted between the two database calls of a replay, and deleted unseen. */
  lemma EnqueueDuringReplayIsLost(t: Task)
    ensures var s, steps := New(t.queue), [ReplayLoad(t.queue)] + [Check(t)] + [Accept(0)] + [ReplayDelete];
            Init(s) && t in Owed(Events(s, steps)) && !Stored(After(s, steps), t)
  {
    var q, s := t.queue, New(t.queue);
    var loaded := Loaded(q, []);
    var a, b := At(q, [], [], [], [], [], [], loaded), At(q, [], [], [Adding(t, false)], [], [], [], loaded);
    var c, d := At(q, [], [t], [], [t], [], [], loaded), At(q, [], [], [], [t], [], [], Idle);
    RaceSteps(t);
    hide Next, EventOf;
    var p := [ReplayLoad(q)];
    assert [] + [ReplayLoad(q)] == p && After(s, []) == s;
    Walk(s, [], s, ReplayLoad(q), a);
    Walk(s, p, a, Check(t), b);
    Walk(s, p + [Check(t)], b, Accept(0), c);
    Walk(s, p + [Check(t)] + [Accept(0)], c, ReplayDelete, d);
    OwedMore(Events(s, p + [Check(t)]), Accepted(t));
    OwedMore(Events(s, p + [Check(t)] + [Accept(0)]), Silent);
  }

  lemma RaceSteps(t: Task)
    ensures var q, loaded := t.queue, Loaded(t.queue, []);
            var b, c := At(q, [], [], [Adding(t, false)], [], [], [], loaded), At(q, [], [t], [], [t], [], [], loaded);
            && Next(New(q), ReplayLoad(q)) == At(q, [], [], [], [], [], [], loaded)
            && Next(At(q, [], [], [], [], [], [], loaded), Check(t)) == b
            && Next(b, Accept(0)) == c && EventOf(b, Accept(0)) == Accepted(t)
            && Next(c, ReplayDelete) == At(q, [], [], [], [t], [], [], Idle) && EventOf(c, ReplayDelete) == Silent
  {
    OneRow(t);
    DropOnly(t);
    DropOnly(Adding(t, false));
    hide Drop, OfQueue, WithoutQueue;
  }

  /** A task is run, and looked up again before its row is removed. */
  function RunAndCheck(t: Task): seq<Step> {
    [Check(t)] + [Accept(0)] + [Send(0)] + [Pop(t.queue)] + [Succeed(0)] + [Check(t)]
  }

  lemma AfterRunAndCheck(t: Task)
    ensures After(New(t.queue), RunAndCheck(t)) == At(t.queue, [], [t], [Adding(t, true)], [], [], [t], Idle)
  {
    var q, s := t.queue, New(t.queue);
    var a, b := At(q, [], [], [Adding(t, false)], [], [], [], Idle), At(q, [], [t], [], [t], [], [], Idle);
    var c, d := At(q, [t], [t], [], [], [], [], Idle), At(q, [], [t], [], [], [t], [], Idle);
    var e, f := At(q, [], [t], [], [], [], [t], Idle), At(q, [], [t], [Adding(t, true)], [], [], [t], Idle);
    DropOnly(t);
    DropOnly(Adding(t, false));
    hide Drop;
    assert Next(s, Check(t)) == a;
    assert Next(a, Accept(0)) == b;
    assert Next(b, Send(0)) == c;
    assert Next(c, Pop(q)) == d;
    assert Next(d, Succeed(0)) == e;
    assert Next(e, Check(t)) == f;
    hide Next, EventOf;
    var p := [Check(t)];
    assert [] + [Check(t)] == p && After(s, []) == s;
    Walk(s, [], s, Check(t), a);
    Walk(s, p, a, Accept(0), b);
    Walk(s, p + [Accept(0)], b, Send(0), c);
    Walk(s, p + [Accept(0)] + [Send(0)], c, Pop(q), d);
    Walk(s, p + [Accept(0)] + [Send(0)] + [Pop(q)], d, Succeed(0), e);
    Walk(s, p + [Accept(0)] + [Send(0)] + [Pop(q)] + [Succeed(0)], e, Check(t), f);
  }

  /** What the last two steps do in either order. */
  lemma AfterCheck(t: Task)
    ensures var q := t.queue;
            var m := At(q, [], [t], [Adding(t, true)], [], [], [t], Idle);
            var a, b := At(q, [], [t], [], [t], [], [t], Idle), At(q, [], [], [Adding(t, true)], [], [], [], Idle);
            var end := At(q, [], [], [], [t], [], [], Idle);
            && Next(m, Accept(0)) == a && EventOf(m, Accept(0)) == Accepted(t)
            && Next(a, Remove(0)) == end && EventOf(a, Remove(0)) == Silent
            && Next(m, Remove(0)) == b
            && Next(b, Accept(0)) == end && EventOf(b, Accept(0)) == Accepted(t)
  {
    OneRow(t);
    DropOnly(t);
    DropOnly(Adding(t, true));
    hide Drop, Without;
  }

  /** Accepted after its only run had returned; its row is removed for that run. */
  lemma EnqueueAfterRunIsLost(t: Task)
    ensures var s, steps := New(t.queue), RunAndCheck(t) + [Accept(0)] + [Remove(0)];
            Init(s) && t in Owed(Events(s, steps)) && !Stored(After(s, steps), t)
  {
    var q, s, past := t.queue, New(t.queue), RunAndCheck(t);
    AfterRunAndCheck(t);
    AfterCheck(t);
    hide Next, EventOf, RunAndCheck;
    AfterMore(s, past, Accept(0));
    AfterMore(s, past + [Accept(0)], Remove(0));
    OwedMore(Events(s, past), Accepted(t));
    OwedMore(Events(s, past) + [Accepted(t)], Silent);
  }

  /** Found in the table, which it had left when the call returned. */
  lemma StaleCheckIsLost(t: Task)
    ensures var s, steps := New(t.queue), RunAndCheck(t) + [Remove(0)] + [Accept(0)];
            Init(s) && t in Owed(Events(s, steps)) && !Stored(After(s, steps), t)
  {
    var q, s, past := t.queue, New(t.queue), RunAndCheck(t);
    AfterRunAndCheck(t);
    AfterCheck(t);
    hide Next, EventOf, RunAndCheck;
    AfterMore(s, past, Remove(0));
    AfterMore(s, past + [Remove(0)], Accept(0));
    OwedMore(Events(s, past + [Remove(0)]), Accepted(t));
  }

  lemma RestartSteps(t: Task)
    ensures var q := t.queue;
            var a, b := At(q, [], [], [Adding(t, false)], [], [], [], Idle), At(q, [], [t], [], [t], [], [], Idle);
            var c := At(q, [], [t], [], [t], [], [], Loaded(q, [t]));
            var d := At(q, [], [], [], [t], [], [], Restoring([t], None));
            && Next(New(q), Check(t)) == a
            && Next(a, Accept(0)) == b && EventOf(a, Accept(0)) == Accepted(t)
            && Next(b, ReplayLoad(q)) == c && EventOf(b, ReplayLoad(q)) == Silent
            && Next(c, ReplayDelete) == d && EventOf(c, ReplayDelete) == Silent
            && Next(d, Restart) == New(q) && EventOf(d, Restart) == Silent
  {
    OneRow(t);
    DropOnly(Adding(t, false));
    hide Drop, WithoutQueue;
    assert OfQueue([t], t.queue) == [t] by {
      assert InQueue(t.queue)(t) && [t][1..] == [];
      ProjectCons([t], InQueue(t.queue));
      ProjectNone([], InQueue(t.queue));
    }
  }

  /** Deleted by a replay that a restart keeps from writing it back. */
  lemma RestartInReplayIsLost(t: Task)
    ensures var s, steps := New(t.queue), [Check(t)] + [Accept(0)] + [ReplayLoad(t.queue)] + [ReplayDelete] + [Restart];
            Init(s) && t in Owed(Events(s, steps)) && !Stored(After(s, steps), t)
  {
    var q, s, p := t.queue, New(t.queue), [Check(t)];
    RestartSteps(t);
    hide Next, EventOf;
    assert [] + [Check(t)] == p && After(s, []) == s;
    AfterMore(s, [], Check(t));
    AfterMore(s, p, Accept(0));
    AfterMore(s, p + [Accept(0)], ReplayLoad(q));
    AfterMore(s, p + [Accept(0)] + [ReplayLoad(q)], ReplayDelete);
    AfterMore(s, p + [Accept(0)] + [ReplayLoad(q)] + [ReplayDelete], Restart);
    OwedMore(Events(s, p), Accepted(t));
    OwedMore(Events(s, p + [Accept(0)]), Silent);
    OwedMore(Events(s, p + [Accept(0)] + [ReplayLoad(q)]), Silent);
    OwedMore(Events(s, p + [Accept(0)] + [ReplayLoad(q)] + [ReplayDelete]), Silent);
  }

  // ------------------------------------------------------------------
  // The queue as the source keeps it
  // ------------------------------------------------------------------

  datatype Error = NoFunctionRegistered | QueueIsFull | AlreadyRegistered

  class LocalTaskQueue {
    const maxMessagesPerQueue: nat
    var queueToChannelMapping: map<string, seq<Task>>
    var rows: seq<Task>

    constructor (maxMessagesPerQueue: nat, rows: seq<Task>)
      ensures this.maxMessagesPerQueue == maxMessagesPerQueue && this.rows == rows && queueToChannelMapping == map[]
    {
      this.maxMessagesPerQueue := maxMessagesPerQueue;
      this.rows := rows;
      queueToChannelMapping := map[];
    }

    ghost predicate Valid()
      reads this`queueToChannelMapping
    {
      forall q :: q in queueToChannelMapping ==> |queueToChannelMapping[q]| <= maxMessagesPerQueue
    }

    /** The machine's state, with nothing else under way. */
    function Snapshot(): State
      reads this
    {
      State(maxMessagesPerQueue, queueToChannelMapping, rows, [], [], [], [], Idle)
    }

    method RegisterFunction(queue: string) returns (r: Result<(), Error>)
      requires Valid()
      modifies this`queueToChannelMapping
      ensures Valid()
      ensures r == if queue in old(queueToChannelMapping) then Err(AlreadyRegistered) else Ok(())
      ensures queueToChannelMapping ==
                if r.Ok? then old(queueToChannelMapping)[queue := []] else old(queueToChannelMapping)
    {
      if queue in queueToChannelMapping {
        return Err(AlreadyRegistered);
      }
      queueToChannelMapping := queueToChannelMapping[queue := []];
      return Ok(());
    }

    method ExistsTaskInDb(t: Task) returns (exists': bool)
      ensures exists' <==> t in rows
    {
      for i := 0 to |rows|
        invariant t !in rows[..i]
      {
        if rows[i] == t {
          return true;
        }
      }
      return false;
    }

    method AddTaskToDb(t: Task)
      modifies this`rows
      ensures t in rows && old(rows) <= rows && |rows| <= |old(rows)| + 1
      ensures t in old(rows) ==> rows == old(rows)
      ensures rows == AddRow(old(rows), t)
    {
      var exists' := ExistsTaskInDb(t);
      if !exists' {
        rows := rows + [t];
      }
    }

    /** The rows of other tasks, `kept`, stay, in their order. */
    method RemoveTaskFromDb(t: Task) returns (ghost kept: seq<nat>)
      modifies this`rows
      ensures Picks(old(rows), rows, kept, IsNot(t)) && t !in rows
      ensures rows == Without(old(rows), t)
    {
      kept := ProjectPicks(rows, IsNot(t));
      rows := Without(rows, t);
    }

    /** The rows of other queues, `kept`, stay, in their order; one step of the machine. */
    method PurgeQueue(queue: string) returns (ghost kept: seq<nat>)
      modifies this`rows
      ensures Picks(old(rows), rows, kept, NotInQueue(queue))
      ensures rows == WithoutQueue(old(rows), queue)
      ensures Snapshot() == Next(old(Snapshot()), Purge(queue))
    {
      kept := ProjectPicks(rows, NotInQueue(queue));
      rows := WithoutQueue(rows, queue);
    }

    /** The rows of the queue, `found`, in their order; on request the table then keeps the rest. */
    method GetTasksFromDb(queue: string, removeTasks: bool)
      returns (tasks: seq<Task>, ghost found: seq<nat>, ghost kept: seq<nat>)
      modifies this`rows
      ensures Picks(old(rows), tasks, found, InQueue(queue)) && tasks == OfQueue(old(rows), queue)
      ensures if removeTasks then Picks(old(rows), rows, kept, NotInQueue(queue)) else rows == old(rows)
      ensures removeTasks ==> rows == WithoutQueue(old(rows), queue)
    {
      found := ProjectPicks(rows, InQueue(queue));
      tasks := OfQueue(rows, queue);
      kept := [];
      if removeTasks {
        kept := PurgeQueue(queue);
      }
    }

    /** The row is there whatever the channel says; only the channel can be full. */
    method EnqueueTask(t: Task) returns (r: Result<(), Error>)
      requires Valid()
      modifies this
      ensures Valid()
      ensures t.queue !in old(queueToChannelMapping) ==> r == Err(NoFunctionRegistered) && Snapshot() == old(Snapshot())
      ensures t.queue in old(queueToChannelMapping) ==>
                var channel := old(queueToChannelMapping)[t.queue];
                && r == (if |channel| == maxMessagesPerQueue then Err(QueueIsFull) else Ok(()))
                && rows == AddRow(old(rows), t)
                && queueToChannelMapping ==
                   old(queueToChannelMapping)[t.queue := Offer(channel, [t], maxMessagesPerQueue)]
      // These are three steps of the machine.
      ensures t.queue in old(queueToChannelMapping) ==>
                Walks(old(Snapshot()), [Check(t), Accept(0), if r.Ok? then Send(0) else Reject(0)], Snapshot())
    {
      if t.queue !in queueToChannelMapping {
        return Err(NoFunctionRegistered);
      }
      ghost var s := Snapshot();
      AddTaskToDb(t);
      var full := |queueToChannelMapping[t.queue]| == maxMessagesPerQueue;
      EnqueueWalks(s, t);
      if full {
        return Err(QueueIsFull);
      }
      queueToChannelMapping := queueToChannelMapping[t.queue := queueToChannelMapping[t.queue] + [t]];
      return Ok(());
    }

    /** One round of listenForTasks: the next message is run, and after success its row is removed. */
    method HandleTask(queue: string, ok: bool) returns (t: Task)
      requires Valid() && queue in queueToChannelMapping && queueToChannelMapping[queue] != []
      modifies this
      ensures Valid() && t == old(queueToChannelMapping)[queue][0]
      ensures queueToChannelMapping == old(queueToChannelMapping)[queue := old(queueToChannelMapping)[queue][1..]]
      ensures rows == if ok then Without(old(rows), t) else old(rows)
      ensures Walks(old(Snapshot()), if ok then [Pop(queue), Succeed(0), Remove(0)] else [Pop(queue), Fail(0)],
                Snapshot())
    {
      ghost var s := Snapshot();
      t := queueToChannelMapping[queue][0];
      queueToChannelMapping := queueToChannelMapping[queue := queueToChannelMapping[queue][1..]];
      HandleWalks(s, queue);
      if ok {
        ghost var kept := RemoveTaskFromDb(t);
      }
    }

    /** EnqueueTask, called by the replay while `rest` is still to come. */
    method RestoreTask(t: Task, ghost rest: seq<Task>) returns (ghost steps: seq<Step>)
      requires Valid() && t.queue in queueToChannelMapping
      modifies this
      ensures Valid() && rows == AddRow(old(rows), t)
      ensures queueToChannelMapping == old(queueToChannelMapping)[t.queue := Offer(old(queueToChannelMapping)[t.queue],
                [t], maxMessagesPerQueue)]
      ensures Walks(old(Snapshot()).(replay := Restored([t] + rest)), steps, Snapshot().(replay := Restored(rest)))
    {
      RestoreWalks(Snapshot(), t, rest);
      hide Walks, AddRow, Restored;
      var r := EnqueueTask(t);
      steps := [ReplayCheck, ReplayAdd, if r.Ok? then Send(0) else Reject(0)];
    }

    /** The loop of the replay, over the tasks of one queue. */
    method RestoreTasks(queue: string, tasks: seq<Task>) returns (ghost steps: seq<Step>)
      requires Valid() && queue in queueToChannelMapping && forall t :: t in tasks ==> t.queue == queue
      modifies this
      ensures Valid() && rows == AddRows(old(rows), tasks)
      ensures queueToChannelMapping == old(queueToChannelMapping)[queue := Offer(old(queueToChannelMapping)[queue],
                tasks, maxMessagesPerQueue)]
      ensures Walks(old(Snapshot()).(replay := Restored(tasks)), steps, Snapshot())
    {
      hide Valid, Offer, AddRow, AddRows, Walks;
      ghost var start, left, before := Snapshot().(replay := Restored(tasks)), rows, queueToChannelMapping;
      NothingAdded(rows, before[queue], maxMessagesPerQueue);
      steps := [];
      NoWalk(start);
      assert before == before[queue := before[queue]] && tasks[0..] == tasks;
      for i := 0 to |tasks|
        invariant Valid() && queue in queueToChannelMapping && rows == AddRows(left, tasks[..i])
        invariant queueToChannelMapping == before[queue := Offer(before[queue], tasks[..i], maxMessagesPerQueue)]
        invariant Walks(start, steps, Snapshot().(replay := Restored(tasks[i..])))
      {
        var t := tasks[i];
        assert t in tasks;
        OfferMore(before[queue], tasks[..i], t, maxMessagesPerQueue);
        AddRowsMore(left, tasks[..i], t);
        assert tasks[..i + 1] == tasks[..i] + [t] && tasks[i..] == [t] + tasks[i + 1..];
        ghost var m := Snapshot().(replay := Restored(tasks[i..]));
        ghost var more := RestoreTask(t, tasks[i + 1..]);
        WalksOn(start, steps, m, more, Snapshot().(replay := Restored(tasks[i + 1..])));
        steps := steps + more;
      }
      assert tasks[..|tasks|] == tasks && tasks[|tasks|..] == [];
    }

    /** The replay of one queue, undisturbed: the same tasks have rows afterwards, and the channel
        was offered all of them in order. */
    method ReplayQueue(queue: string) returns (ghost steps: seq<Step>)
      requires Valid() && queue in queueToChannelMapping
      modifies this
      ensures Valid()
      ensures forall t :: t in rows <==> t in old(rows)
      ensures rows == Replayed(old(rows), queue)
      ensures queueToChannelMapping ==
              old(queueToChannelMapping)[queue := Offer(old(queueToChannelMapping)[queue], OfQueue(old(rows), queue),
                  maxMessagesPerQueue)]
      ensures Walks(old(Snapshot()), steps, Snapshot())
    {
      hide Valid, Offer, Walks;
      ghost var start := Snapshot();
      LoadWalks(start, queue);
      var tasks;
      ghost var found, kept, more;
      tasks, found, kept := GetTasksFromDb(queue, true);
      ghost var loaded := Snapshot().(replay := Restored(tasks));
      more := RestoreTasks(queue, tasks);
      WalksOn(start, [ReplayLoad(queue), ReplayDelete], loaded, more, Snapshot());
      steps := [ReplayLoad(queue), ReplayDelete] + more;
    }

    /** EnqueueProcessingQueueExpiredTask: every registered queue, in any order. Each channel is offered
        the stored tasks of its queue, in the order of the table, whatever the order of the queues. */
    method EnqueueProcessingQueueExpiredTask() returns (ghost steps: seq<Step>)
      requires Valid()
      modifies this
      ensures Valid()
      ensures forall t :: t in rows <==> t in old(rows)
      ensures queueToChannelMapping.Keys == old(queueToChannelMapping).Keys
      ensures forall q :: q in queueToChannelMapping ==>
                queueToChannelMapping[q] ==
                Offer(old(queueToChannelMapping)[q], OfQueue(old(rows), q), maxMessagesPerQueue)
      // A stored task is in its channel afterwards exactly when it was there, or there was room for it.
      ensures forall t :: t in old(rows) && t.queue in queueToChannelMapping ==>
                (t in queueToChannelMapping[t.queue] <==>
                 t in old(queueToChannelMapping)[t.queue] ||
                 HasRoom(old(queueToChannelMapping)[t.queue], OfQueue(old(rows), t.queue), t, maxMessagesPerQueue))
      ensures Walks(old(Snapshot()), steps, Snapshot())
    {
      hide Offer, OfQueue, Replayed, Walks, HasRoom;
      steps := ReplayAll();
      forall t | t in old(rows) && t.queue in queueToChannelMapping
        ensures t in queueToChannelMapping[t.queue] <==>
                t in old(queueToChannelMapping)[t.queue] ||
                HasRoom(old(queueToChannelMapping)[t.queue], OfQueue(old(rows), t.queue), t, maxMessagesPerQueue)
      {
        OfferedIffRoom(old(queueToChannelMapping)[t.queue], OfQueue(old(rows), t.queue), t, maxMessagesPerQueue);
      }
    }

    /** The loop over the queues. */
    method ReplayAll() returns (ghost steps: seq<Step>)
      requires Valid()
      modifies this
      ensures Valid()
      ensures forall t :: t in rows <==> t in old(rows)
      ensures queueToChannelMapping.Keys == old(queueToChannelMapping).Keys
      ensures forall q :: q in queueToChannelMapping ==>
                queueToChannelMapping[q] ==
                Offer(old(queueToChannelMapping)[q], OfQueue(old(rows), q), maxMessagesPerQueue)
      ensures Walks(old(Snapshot()), steps, Snapshot())
    {
      hide Offer, OfQueue, Replayed, Walks;
      var queues := queueToChannelMapping.Keys;
      steps := [];
      NoWalk(Snapshot());
      while queues != {}
        invariant Valid() && queues <= queueToChannelMapping.Keys == old(queueToChannelMapping).Keys
        invariant forall t :: t in rows <==> t in old(rows)
        invariant forall q :: q in queues ==>
                    OfQueue(rows, q) == OfQueue(old(rows), q) &&
                    queueToChannelMapping[q] == old(queueToChannelMapping)[q]
        invariant forall q :: q in queueToChannelMapping && q !in queues ==>
                    queueToChannelMapping[q] ==
                    Offer(old(queueToChannelMapping)[q], OfQueue(old(rows), q), maxMessagesPerQueue)
        invariant Walks(old(Snapshot()), steps, Snapshot())
        decreases |queues|
      {
        var queue :| queue in queues;
        ghost var s := Snapshot();
        ghost var more := ReplayQueue(queue);
        forall q | q in queues - {queue} ensures OfQueue(rows, q) == OfQueue(old(rows), q) {
          ReplayedOfOther(s.rows, queue, q);
        }
        WalksOn(old(Snapshot()), steps, s, more, Snapshot());
        steps := steps + more;
        queues := queues - {queue};
      }
    }
  }

  // ------------------------------------------------------------------
  // The methods are schedules of steps that are all enabled
  // ------------------------------------------------------------------

  predicate Possible(s: State, steps: seq<Step>) {
    steps == [] || (Possible(s, Front(steps)) && Enabled(After(s, Front(steps)), Last(steps)))
  }

  predicate Walks(s: State, steps: seq<Step>, s': State) {
    Possible(s, steps) && After(s, steps) == s'
  }

  lemma {:induction false} WalksOn(s: State, steps: seq<Step>, m: State, more: seq<Step>, s': State)
    requires Walks(s, steps, m) && Walks(m, more, s')
    ensures Walks(s, steps + more, s')
    decreases |more|
  {
    if more == [] {
      assert steps + more == steps;
    } else {
      hide Enabled, Next;
      WalksOn(s, steps, m, Front(more), After(m, Front(more)));
      assert Front(steps + more) == steps + Front(more) && Last(steps + more) == Last(more);
    }
  }

  lemma NoWalk(s: State)
    ensures Walks(s, [], s)
  {
  }

  lemma WalksTwo(s: State, a: Step, b: Step)
    requires Enabled(s, a) && Enabled(Next(s, a), b)
    ensures Walks(s, [a, b], Next(Next(s, a), b))
  {
    hide Enabled, Next;
    assert Front([a, b]) == [a] && Front([a]) == [];
    assert After(s, [a]) == Next(s, a) && Possible(s, [a]);
  }

  lemma WalksThree(s: State, a: Step, b: Step, c: Step)
    requires Enabled(s, a) && Enabled(Next(s, a), b) && Enabled(Next(Next(s, a), b), c)
    ensures Walks(s, [a, b, c], Next(Next(Next(s, a), b), c))
  {
    hide Enabled, Next;
    WalksTwo(s, a, b);
    assert Front([a, b, c]) == [a, b];
  }

  predicate Quiet(s: State) {
    s.adding == [] && s.sending == [] && s.running == [] && s.done == []
  }

  lemma EnqueueWalks(s: State, t: Task)
    requires Quiet(s) && t.queue in s.channels && |s.channels[t.queue]| <= s.capacity
    ensures var added := s.(rows := AddRow(s.rows, t));
            if |s.channels[t.queue]| == s.capacity then Walks(s, [Check(t), Accept(0), Reject(0)], added)
            else Walks(s, [Check(t), Accept(0), Send(0)],
                added.(channels := s.channels[t.queue := s.channels[t.queue] + [t]]))
  {
    var a, b := s.(adding := [Adding(t, t in s.rows)]), s.(rows := AddRow(s.rows, t), sending := [t]);
    DropOnly(t);
    DropOnly(Adding(t, t in s.rows));
    hide Drop;
    assert Next(s, Check(t)) == a;
    assert Next(a, Accept(0)) == b;
    WalksThree(s, Check(t), Accept(0), if |s.channels[t.queue]| == s.capacity then Reject(0) else Send(0));
  }

  lemma RestoreWalks(s: State, t: Task, rest: seq<Task>)
    requires Quiet(s) && t.queue in s.channels && |s.channels[t.queue]| <= s.capacity
    ensures var start, added := s.(replay := Restored([t] + rest)), s.(rows := AddRow(s.rows, t),
              replay := Restored(rest));
            if |s.channels[t.queue]| == s.capacity then Walks(start, [ReplayCheck, ReplayAdd, Reject(0)], added)
            else Walks(start, [ReplayCheck, ReplayAdd, Send(0)],
                added.(channels := s.channels[t.queue := s.channels[t.queue] + [t]]))
  {
    var start := s.(replay := Restored([t] + rest));
    var a, b := s.(replay := Restoring([t] + rest, Some(t in s.rows))), s.(rows := AddRow(s.rows, t), sending := [t],
        replay := Restored(rest));
    DropOnly(t);
    assert ([t] + rest)[1..] == rest;
    hide Drop;
    assert Next(start, ReplayCheck) == a;
    assert Next(a, ReplayAdd) == b;
    WalksThree(start, ReplayCheck, ReplayAdd, if |s.channels[t.queue]| == s.capacity then Reject(0) else Send(0));
  }

  lemma LoadWalks(s: State, queue: string)
    requires s.replay == Idle && queue in s.channels
    ensures Walks(s, [ReplayLoad(queue), ReplayDelete],
              s.(rows := WithoutQueue(s.rows, queue), replay := Restored(OfQueue(s.rows, queue))))
  {
    WalksTwo(s, ReplayLoad(queue), ReplayDelete);
  }

  lemma HandleWalks(s: State, queue: string)
    requires Quiet(s) && queue in s.channels && s.channels[queue] != []
    ensures var popped := s.(channels := s.channels[queue := s.channels[queue][1..]]);
            && Walks(s, [Pop(queue), Fail(0)], popped)
            && Walks(s, [Pop(queue), Succeed(0), Remove(0)], popped.(rows := Without(s.rows, s.channels[queue][0])))
  {
    var t := s.channels[queue][0];
    var popped := s.(channels := s.channels[queue := s.channels[queue][1..]]);
    DropOnly(t);
    hide Drop;
    assert Next(s, Pop(queue)) == popped.(running := [t]);
    assert Next(popped.(running := [t]), Fail(0)) == popped;
    WalksTwo(s, Pop(queue), Fail(0));
    assert Next(popped.(running := [t]), Succeed(0)) == popped.(done := [t]);
    assert Next(popped.(done := [t]), Remove(0)) == popped.(rows := Without(s.rows, t));
    WalksThree(s, Pop(queue), Succeed(0), Remove(0));
  }

  lemma NothingAdded(rows: seq<Task>, channel: seq<Task>, capacity: nat)
    ensures AddRows(rows, []) == rows && Offer(channel, [], capacity) == channel
  {
  }

  lemma {:induction false} AddRowsMore(rows: seq<Task>, tasks: seq<Task>, t: Task)
    ensures AddRows(rows, tasks + [t]) == AddRow(AddRows(rows, tasks), t)
    decreases |tasks|
  {
    if tasks == [] {
      assert tasks + [t] == [t] && [t][1..] == [];
    } else {
      assert (tasks + [t])[1..] == tasks[1..] + [t];
      AddRowsMore(AddRow(rows, tasks[0]), tasks[1..], t);
    }
  }

  lemma {:induction false} OfferMore(channel: seq<Task>, tasks: seq<Task>, t: Task, capacity: nat)
    ensures Offer(channel, tasks + [t], capacity) == Offer(Offer(channel, tasks, capacity), [t], capacity)
    decreases |tasks|
  {
    if tasks == [] {
      assert tasks + [t] == [t];
    } else {
      assert (tasks + [t])[1..] == tasks[1..] + [t];
      OfferMore(if |channel| == capacity then channel else channel + [tasks[0]], tasks[1..], t, capacity);
    }
  }
}
