/** The Redis part of task_queue/remote_task_queue.go: a ready list and a `_processing` list per
    queue, and any number of workers that move messages between them. */
module RedisQueue {
  import opened AtLeastOnce
  import RuleLists

  // ------------------------------------------------------------------
  // Redis lists
  // ------------------------------------------------------------------

  type Lists = map<string, seq<string>>

  function List(lists: Lists, key: string): seq<string> {
    if key in lists then lists[key] else []
  }

  function RPush(lists: Lists, key: string, x: string): Lists { lists[key := List(lists, key) + [x]] }

  function LPush(lists: Lists, key: string, x: string): Lists { lists[key := [x] + List(lists, key)] }

  function Del(lists: Lists, key: string): Lists { lists - {key} }

  /** LREM key 0 x: all equal elements. */
  function Removed(list: seq<string>, x: string): (rest: seq<string>)
    ensures forall y :: y in rest <==> y in list && y != x
  {
    if list == [] then [] else (if list[0] == x then [] else [list[0]]) + Removed(list[1..], x)
  }

  /** No other key has changed. */
  ghost predicate OnlyDiffer(before: Lists, after: Lists, keys: set<string>) {
    forall key :: key !in keys ==> (key in after <==> key in before) && List(after, key) == List(before, key)
  }

  /** The other elements stay, at increasing positions of the old list, which are returned. */
  lemma RemovedPicks(list: seq<string>, x: string) returns (kept: seq<nat>)
    ensures RuleLists.Picks(list, Removed(list, x), kept, y => y != x)
  {
    kept := RuleLists.ProjectPicks(list, y => y != x);
    RemovedIsProject(list, x);
  }

  lemma {:induction false} RemovedIsProject(list: seq<string>, x: string)
    ensures Removed(list, x) == RuleLists.Project(list, y => y != x)
  {
    if list != [] {
      RemovedIsProject(list[1..], x);
    }
  }

  function LRem(lists: Lists, key: string, x: string): Lists { lists[key := Removed(List(lists, key), x)] }

  /** BLMOVE and LMOVE source destination RIGHT LEFT */
  function LMove(lists: Lists, source: string, destination: string): Lists
    requires List(lists, source) != []
  {
    var list := List(lists, source);
    LPush(lists[source := list[..|list| - 1]], destination, Last(list))
  }

  function Processing(queue: string): string { queue + "_processing" }

  // ------------------------------------------------------------------
  // The queues as a machine of interleaved steps
  // ------------------------------------------------------------------

  /** `Returned`: the function came back.  `Held`: it failed, its message is out of the processing
      list, and not yet back in the queue. */
  datatype Pc = Waiting | Running(body: string) | Returned(body: string, ok: bool) | Held(body: string) | Dead

  datatype Worker = Worker(queue: string, pc: Pc)

  datatype State = State(queues: set<string>, lists: Lists, workers: seq<Worker>)

  datatype Step =
    | Enqueue(task: Task)
    | Take(w: nat)
    | Undecodable(w: nat)
    | Return(w: nat, ok: bool)
    | Remove(w: nat)
    | Requeue(w: nat)
    | Recover(queue: string)
    | PurgeReady(queue: string)
    | PurgeProcessing(queue: string)
    | Crash(w: nat)

  predicate At(s: State, w: nat) {
    w < |s.workers| && s.workers[w].queue in s.queues
  }

  predicate Enabled(s: State, step: Step) {
    match step
    case Enqueue(t) => t.queue in s.queues
    case Take(w) => At(s, w) && s.workers[w].pc.Waiting? && List(s.lists, s.workers[w].queue) != []
    case Undecodable(w) => At(s, w) && s.workers[w].pc.Running?
    case Return(w, _) => At(s, w) && s.workers[w].pc.Running?
    case Remove(w) => At(s, w) && s.workers[w].pc.Returned?
    case Requeue(w) => At(s, w) && s.workers[w].pc.Held?
    case Recover(q) => q in s.queues && List(s.lists, Processing(q)) != []
    case PurgeReady(q) => q in s.queues
    case PurgeProcessing(q) => q in s.queues
    case Crash(w) => At(s, w)
  }

  function With(s: State, w: nat, pc: Pc, lists: Lists): State
    requires w < |s.workers|
  {
    s.(lists := lists, workers := s.workers[w := s.workers[w].(pc := pc)])
  }

  /** A step that is not enabled does nothing. */
  function Next(s: State, step: Step): State {
    if !Enabled(s, step) then s
    else
      match step
      case Enqueue(t) => s.(lists := RPush(s.lists, t.queue, t.body))
      case Take(w) =>
        var q := s.workers[w].queue;
        With(s, w, Running(Last(List(s.lists, q))), LMove(s.lists, q, Processing(q)))
      case Undecodable(w) => With(s, w, Waiting, s.lists)
      case Return(w, ok) => With(s, w, Returned(s.workers[w].pc.body, ok), s.lists)
      case Remove(w) =>
        var pc := s.workers[w].pc;
        With(s, w, if pc.ok then Waiting else Held(pc.body), LRem(s.lists, Processing(s.workers[w].queue), pc.body))
      case Requeue(w) => With(s, w, Waiting, LPush(s.lists, s.workers[w].queue, s.workers[w].pc.body))
      case Recover(q) => s.(lists := LMove(s.lists, Processing(q), q))
      case PurgeReady(q) => s.(lists := Del(s.lists, q))
      case PurgeProcessing(q) => s.(lists := Del(s.lists, Processing(q)))
      case Crash(w) => With(s, w, Dead, s.lists)
  }

  function Tasks(queue: string, list: seq<string>): set<Task> {
    set b | b in list :: Task(queue, b)
  }

  /** A task is accepted by RPush and has succeeded when its function returns; a purge ends what is
      owed for the messages that it deletes. */
  function EventOf(s: State, step: Step): Event {
    if !Enabled(s, step) then Silent
    else
      match step
      case Enqueue(t) => Accepted(t)
      case Return(w, ok) => if ok then Succeeded(Task(s.workers[w].queue, s.workers[w].pc.body)) else Silent
      case PurgeReady(q) => Purged(Tasks(q, List(s.lists, q)))
      case PurgeProcessing(q) => Purged(Tasks(q, List(s.lists, Processing(q))))
      case _ => Silent
  }

  /** In the ready list, in the processing list, or with a worker that is about to put it back. */
  ghost predicate Stored(s: State, t: Task) {
    || t.body in List(s.lists, t.queue)
    || t.body in List(s.lists, Processing(t.queue))
    || HeldBySome(s, t)
  }

  ghost predicate HeldBySome(s: State, t: Task) {
    exists w :: 0 <= w < |s.workers| && s.workers[w] == Worker(t.queue, Held(t.body))
  }

  ghost predicate NoLoss(s: State, owed: set<Task>) {
    forall t :: t in owed ==> Stored(s, t)
  }

  /** What is owed is owed by a known queue, and no queue is named like another's processing list. */
  ghost predicate Inv(s: State, owed: set<Task>) {
    && (forall t :: t in owed ==> t.queue in s.queues)
    && (forall q, r :: q in s.queues && r in s.queues ==> q != Processing(r))
  }

  function TaskOf(s: State, w: nat): Task
    requires w < |s.workers| && (s.workers[w].pc.Running? || s.workers[w].pc.Returned? || s.workers[w].pc.Held?)
  {
    Task(s.workers[w].queue, s.workers[w].pc.body)
  }

  lemma InvKept(s: State, owed: set<Task>, step: Step)
    requires Inv(s, owed)
    ensures Inv(Next(s, step), Apply(owed, EventOf(s, step)))
  {
  }

  // ------------------------------------------------------------------
  // Schedules
  // ------------------------------------------------------------------

  /** The state after a schedule, from left to right. */
  function After(s: State, steps: seq<Step>): State {
    if steps == [] then s else Next(After(s, Front(steps)), Last(steps))
  }

  /** The events of a schedule, one for each step. */
  function Events(s: State, steps: seq<Step>): (trace: seq<Event>)
    ensures |trace| == |steps|
  {
    if steps == [] then [] else Events(s, Front(steps)) + [EventOf(After(s, Front(steps)), Last(steps))]
  }

  lemma AfterMore(s: State, past: seq<Step>, step: Step)
    ensures After(s, past + [step]) == Next(After(s, past), step)
    ensures Events(s, past + [step]) == Events(s, past) + [EventOf(After(s, past), step)]
  {
    assert Front(past + [step]) == past;
  }

  ghost predicate Init(s: State) {
    && s.lists == map[]
    && (forall w :: 0 <= w < |s.workers| ==> s.workers[w].pc == Waiting && s.workers[w].queue in s.queues)
    && (forall q, r :: q in s.queues && r in s.queues ==> q != Processing(r))
  }

  /** At every moment of the schedule, all that is owed is stored. */
  ghost predicate NeverLoses(s: State, steps: seq<Step>) {
    && NoLoss(After(s, steps), Owed(Events(s, steps)))
    && (steps == [] || NeverLoses(s, Front(steps)))
  }

  // ------------------------------------------------------------------
  // The two ways to lose a task
  // ------------------------------------------------------------------

  /** A copy other than what worker `w` holds. */
  ghost predicate HeldByOther(s: State, w: nat, t: Task) {
    exists v :: 0 <= v < |s.workers| && v != w && s.workers[v] == Worker(t.queue, Held(t.body))
  }

  /** The step, after `past`, loses a task:
      - after a successful run a worker removes every copy from the processing list, while an equal
        task was accepted since that run returned, with no copy in the ready list and none held;
      - a worker dies between removing a failed message and putting it back, and this was the last
        copy of an unfinished task. */
  ghost predicate Hazard(s: State, past: seq<Step>, step: Step) {
    var m, trace := After(s, past), Events(s, past);
    && Enabled(m, step)
    && match step
       case Remove(w) =>
         var t := TaskOf(m, w);
         && m.workers[w].pc.ok && t.body !in List(m.lists, t.queue) && !HeldBySome(m, t)
         && exists r: nat, a: nat :: r < a < |trace| && trace[r] == Succeeded(t) && Open(trace, a, t)
       case Crash(w) =>
         && m.workers[w].pc.Held?
         && var t := TaskOf(m, w);
         && t.body !in List(m.lists, t.queue) && t.body !in List(m.lists, Processing(t.queue)) && !HeldByOther(m, w, t)
         && exists a: nat :: Open(trace, a, t)
       case _ => false
  }

  ghost predicate NoHazard(s: State, steps: seq<Step>) {
    steps == [] || (NoHazard(s, Front(steps)) && !Hazard(s, Front(steps), Last(steps)))
  }

  /** The same for one step, in terms of what is owed. */
  ghost predicate Loses(m: State, owed: set<Task>, step: Step) {
    && Enabled(m, step)
    && match step
       case Remove(w) =>
         var t := TaskOf(m, w);
         m.workers[w].pc.ok && t in owed && t.body !in List(m.lists, t.queue) && !HeldBySome(m, t)
       case Crash(w) =>
         && m.workers[w].pc.Held?
         && var t := TaskOf(m, w);
         t in owed && t.body !in List(m.lists, t.queue) && t.body !in List(m.lists, Processing(t.queue)) &&
             !HeldByOther(m, w, t)
       case _ => false
  }

  // ------------------------------------------------------------------
  // What the list commands keep
  // ------------------------------------------------------------------

  lemma ProcessingApart(q: string, r: string)
    ensures Processing(q) != q && (Processing(q) == Processing(r) ==> q == r)
  {
    assert Processing(q)[..|q|] == q && Processing(r)[..|r|] == r;
  }

  lemma MoveKeeps(lists: Lists, source: string, destination: string, x: string)
    requires List(lists, source) != [] && source != destination
    ensures var lists' := LMove(lists, source, destination);
            (x in List(lists', source) || x in List(lists', destination)) <==>
                (x in List(lists, source) || x in List(lists, destination))
    ensures forall k :: k != source && k != destination ==> List(LMove(lists, source, destination), k) == List(lists, k)
  {
    var list := List(lists, source);
    assert list == list[..|list| - 1] + [Last(list)];
  }

  lemma HeldElsewhere(s: State, s': State, w: nat, t: Task)
    requires w < |s.workers| && |s'.workers| == |s.workers| && HeldBySome(s, t)
    requires s.workers[w] != Worker(t.queue, Held(t.body))
    requires forall v :: 0 <= v < |s.workers| && v != w ==> s'.workers[v] == s.workers[v]
    ensures HeldBySome(s', t)
  {
    var v :| 0 <= v < |s.workers| && s.workers[v] == Worker(t.queue, Held(t.body));
    assert s'.workers[v] == s.workers[v];
  }

  /** The steps that move a message from one of a queue's lists to the other. */
  lemma MoveStepKeeps(s: State, owed: set<Task>, step: Step, t: Task)
    requires Inv(s, owed) && t in owed && Stored(s, t) && Enabled(s, step) && (step.Take? || step.Recover?)
    ensures Stored(Next(s, step), t)
  {
    var q := if step.Take? then s.workers[step.w].queue else step.queue;
    ProcessingApart(q, t.queue);
    ProcessingApart(t.queue, q);
    if step.Take? {
      MoveKeeps(s.lists, q, Processing(q), t.body);
      if HeldBySome(s, t) {
        HeldElsewhere(s, Next(s, step), step.w, t);
      }
    } else {
      MoveKeeps(s.lists, Processing(q), q, t.body);
      assert HeldBySome(s, t) ==> HeldBySome(Next(s, step), t);
    }
  }

  /** The steps of a worker with the message that it has taken. */
  lemma WorkerStepKeeps(s: State, owed: set<Task>, step: Step, t: Task)
    requires Inv(s, owed) && t in owed && Stored(s, t) && Enabled(s, step) && !Loses(s, owed, step)
    requires step.Undecodable? || step.Return? || step.Remove? || step.Requeue?
    ensures Stored(Next(s, step), t)
  {
    var s', w := Next(s, step), step.w;
    var q := s.workers[w].queue;
    ProcessingApart(q, t.queue);
    ProcessingApart(t.queue, q);
    if s.workers[w] == Worker(t.queue, Held(t.body)) {
      assert t.body in List(s'.lists, q);
    } else if HeldBySome(s, t) {
      HeldElsewhere(s, s', w, t);
    } else if step.Remove? && TaskOf(s, w) == t && !s.workers[w].pc.ok {
      assert s'.workers[w] == Worker(t.queue, Held(t.body));
    }
  }

  lemma ClientStepKeeps(s: State, owed: set<Task>, step: Step, t: Task)
    requires Inv(s, owed) && Enabled(s, step) && (t in owed ==> Stored(s, t))
    requires step.Enqueue? || step.PurgeReady? || step.PurgeProcessing?
    requires t in Apply(owed, EventOf(s, step))
    ensures Stored(Next(s, step), t)
  {
    var q := if step.Enqueue? then step.task.queue else step.queue;
    ProcessingApart(q, t.queue);
    ProcessingApart(t.queue, q);
    assert Next(s, step).workers == s.workers;
  }

  lemma CrashKeeps(s: State, owed: set<Task>, step: Step, t: Task)
    requires t in owed && Stored(s, t) && Enabled(s, step) && step.Crash? && !Loses(s, owed, step)
    ensures Stored(Next(s, step), t)
  {
    var s' := Next(s, step);
    if s.workers[step.w] == Worker(t.queue, Held(t.body)) {
      if v :| 0 <= v < |s.workers| && v != step.w && s.workers[v] == Worker(t.queue, Held(t.body)) {
        assert s'.workers[v] == s.workers[v];
      }
    } else if HeldBySome(s, t) {
      HeldElsewhere(s, s', step.w, t);
    }
  }

  lemma StepKeeps(m: State, owed: set<Task>, step: Step)
    requires Inv(m, owed) && NoLoss(m, owed) && !Loses(m, owed, step)
    ensures NoLoss(Next(m, step), Apply(owed, EventOf(m, step)))
  {
    if Enabled(m, step) {
      hide Next, EventOf, Stored, Loses, Enabled, Inv;
      forall t | t in Apply(owed, EventOf(m, step)) ensures Stored(Next(m, step), t) {
        OnlyAccepts(m, owed, step, t);
        match step
        case Take(_) => MoveStepKeeps(m, owed, step, t);
        case Recover(_) => MoveStepKeeps(m, owed, step, t);
        case Enqueue(_) => ClientStepKeeps(m, owed, step, t);
        case PurgeReady(_) => ClientStepKeeps(m, owed, step, t);
        case PurgeProcessing(_) => ClientStepKeeps(m, owed, step, t);
        case Crash(_) => CrashKeeps(m, owed, step, t);
        case _ => WorkerStepKeeps(m, owed, step, t);
      }
    }
  }

  lemma OnlyAccepts(m: State, owed: set<Task>, step: Step, t: Task)
    requires t in Apply(owed, EventOf(m, step))
    ensures step.Enqueue? || t in owed
  {
  }

  lemma HeldAfterCrash(s: State, w: nat, t: Task)
    requires w < |s.workers|
    ensures HeldBySome(With(s, w, Dead, s.lists), t) ==> HeldByOther(s, w, t)
  {
    var s' := With(s, w, Dead, s.lists);
    if v :| 0 <= v < |s'.workers| && s'.workers[v] == Worker(t.queue, Held(t.body)) {
      assert v != w && s.workers[v] == s'.workers[v];
    }
  }

  lemma HeldAfterRemove(s: State, w: nat, lists: Lists, t: Task)
    requires w < |s.workers| && !HeldBySome(s, t)
    ensures !HeldBySome(With(s, w, Waiting, lists), t)
  {
    var s' := With(s, w, Waiting, lists);
    forall v | 0 <= v < |s'.workers| ensures s'.workers[v] != Worker(t.queue, Held(t.body)) {
      assert s.workers[v] != Worker(t.queue, Held(t.body));
    }
  }

  lemma StepLosesIff(m: State, owed: set<Task>, step: Step)
    requires Inv(m, owed) && NoLoss(m, owed)
    ensures NoLoss(Next(m, step), Apply(owed, EventOf(m, step))) <==> !Loses(m, owed, step)
  {
    if Loses(m, owed, step) {
      var t := TaskOf(m, step.w);
      ProcessingApart(t.queue, t.queue);
      if step.Crash? {
        HeldAfterCrash(m, step.w, t);
      } else {
        HeldAfterRemove(m, step.w, LRem(m.lists, Processing(t.queue), t.body), t);
      }
      assert t in Apply(owed, EventOf(m, step)) && !Stored(Next(m, step), t);
    } else {
      StepKeeps(m, owed, step);
    }
  }

  // ------------------------------------------------------------------
  // Whole schedules
  // ------------------------------------------------------------------

  lemma ReturnStep(m: State, step: Step, w: nat)
    requires w < |Next(m, step).workers| && Next(m, step).workers[w].pc.Returned? && Next(m, step).workers[w].pc.ok
    ensures w < |m.workers|
    ensures m.workers[w] == Next(m, step).workers[w] || EventOf(m, step) == Succeeded(TaskOf(Next(m, step), w))
  {
  }

  /** A task whose run has returned without an error has succeeded. */
  lemma {:induction false} ReturnedMeans(s: State, past: seq<Step>, w: nat)
    requires Init(s) && w < |After(s, past).workers| && After(s, past).workers[w].pc.Returned?
    requires After(s, past).workers[w].pc.ok
    ensures exists r: nat :: r < |past| && Events(s, past)[r] == Succeeded(TaskOf(After(s, past), w))
  {
    var before, step, trace := Front(past), Last(past), Events(s, past);
    var m := After(s, before);
    ReturnStep(m, step, w);
    hide Next, EventOf, Init;
    if m.workers[w] == After(s, past).workers[w] {
      ReturnedMeans(s, before, w);
      var r: nat :| r < |before| && Events(s, before)[r] == Succeeded(TaskOf(m, w));
      assert trace[r] == Succeeded(TaskOf(m, w));
    } else {
      assert trace[|before|] == EventOf(m, step);
    }
  }

  lemma RemoveHazard(s: State, past: seq<Step>, w: nat)
    requires Init(s) && w < |After(s, past).workers| && After(s, past).workers[w].pc.Returned?
    requires After(s, past).workers[w].pc.ok
    ensures var trace, t := Events(s, past), TaskOf(After(s, past), w);
            t in Owed(trace) <==> exists r: nat, a: nat ::
                r < a < |trace| && trace[r] == Succeeded(t) &&
                Open(trace, a, t)
  {
    var trace, t := Events(s, past), TaskOf(After(s, past), w);
    OwedMeans(trace, t);
    ReturnedMeans(s, past, w);
    var r: nat :| r < |past| && trace[r] == Succeeded(t);
    hide After, Events, Owed, Open, Init;
    forall a: nat | Open(trace, a, t) ensures r < a < |trace| {
      OpenAfterSuccess(trace, r, a, t);
    }
  }

  lemma HazardIffLoses(s: State, past: seq<Step>, step: Step)
    requires Init(s)
    ensures Hazard(s, past, step) <==> Loses(After(s, past), Owed(Events(s, past)), step)
  {
    var m, trace := After(s, past), Events(s, past);
    hide After, Events, Owed, Init;
    if Enabled(m, step) {
      if step.Remove? && m.workers[step.w].pc.ok {
        RemoveHazard(s, past, step.w);
      } else if step.Crash? && m.workers[step.w].pc.Held? {
        OwedMeans(trace, TaskOf(m, step.w));
      }
    }
  }

  lemma {:induction false} AlwaysInv(s: State, steps: seq<Step>)
    requires Init(s)
    ensures Inv(After(s, steps), Owed(Events(s, steps)))
  {
    if steps != [] {
      var past, step := Front(steps), Last(steps);
      AlwaysInv(s, past);
      InvKept(After(s, past), Owed(Events(s, past)), step);
      OwedMore(Events(s, past), EventOf(After(s, past), step));
    }
  }

  /** A schedule never loses a task exactly when none of its steps is one of the two hazards. */
  lemma {:induction false} NeverLosesIffNoHazard(s: State, steps: seq<Step>)
    requires Init(s)
    ensures NeverLoses(s, steps) <==> NoHazard(s, steps)
  {
    if steps != [] {
      var past, step := Front(steps), Last(steps);
      NeverLosesIffNoHazard(s, past);
      AlwaysInv(s, past);
      if NeverLoses(s, past) {
        HazardIffLoses(s, past, step);
        StepLosesIff(After(s, past), Owed(Events(s, past)), step);
        OwedMore(Events(s, past), EventOf(After(s, past), step));
      }
      hide Hazard, Loses, NoLoss, Next, EventOf, Inv;
    }
  }

  // ------------------------------------------------------------------
  // Schedules that keep out of the way
  // ------------------------------------------------------------------

  /** No worker dies while it holds a message, and nothing is accepted while an equal task has
      returned and not yet been removed. */
  predicate Calm(m: State, step: Step) {
    match step
    case Enqueue(t) => Worker(t.queue, Returned(t.body, true)) !in m.workers
    case Crash(w) => w < |m.workers| ==> !m.workers[w].pc.Held?
    case _ => true
  }

  predicate AllCalm(s: State, steps: seq<Step>) {
    steps == [] || (AllCalm(s, Front(steps)) && Calm(After(s, Front(steps)), Last(steps)))
  }

  ghost predicate ReturnedNotOwed(m: State, owed: set<Task>) {
    forall w :: 0 <= w < |m.workers| && m.workers[w].pc.Returned? && m.workers[w].pc.ok ==> TaskOf(m, w) !in owed
  }

  lemma CalmStep(m: State, owed: set<Task>, step: Step)
    requires ReturnedNotOwed(m, owed) && Calm(m, step)
    ensures !Loses(m, owed, step) && ReturnedNotOwed(Next(m, step), Apply(owed, EventOf(m, step)))
  {
    var m', e := Next(m, step), EventOf(m, step);
    forall w: nat | w < |m'.workers| && m'.workers[w].pc.Returned? &&
        m'.workers[w].pc.ok ensures TaskOf(m', w) !in Apply(owed, e) {
      ReturnStep(m, step, w);
      if m.workers[w] == m'.workers[w] {
        assert TaskOf(m, w) !in owed && m.workers[w] in m.workers;
      }
    }
  }

  /** A calm schedule never loses a task: not by crashes anywhere else, by equal bodies, or by
      recovering messages that are still running. */
  lemma {:induction false} CalmLosesNothing(s: State, steps: seq<Step>)
    requires Init(s) && AllCalm(s, steps)
    ensures NeverLoses(s, steps) && ReturnedNotOwed(After(s, steps), Owed(Events(s, steps)))
  {
    if steps != [] {
      var past, step := Front(steps), Last(steps);
      CalmLosesNothing(s, past);
      AlwaysInv(s, past);
      CalmStep(After(s, past), Owed(Events(s, past)), step);
      StepKeeps(After(s, past), Owed(Events(s, past)), step);
      OwedMore(Events(s, past), EventOf(After(s, past), step));
      hide Next, EventOf, Loses, Calm, Inv;
    }
  }

  // ------------------------------------------------------------------
  // Schedules that lose a task
  // ------------------------------------------------------------------

  /** One queue and two workers. */
  function Two(q: string, ready: seq<string>, processing: seq<string>, a: Pc, b: Pc): State {
    State({q}, map[q := ready, Processing(q) := processing], [Worker(q, a), Worker(q, b)])
  }

  function New(q: string): State { State({q}, map[], [Worker(q, Waiting), Worker(q, Waiting)]) }

  /** A task is run, and an equal one is accepted before the worker has removed the first. */
  function RunAndEnqueue(t: Task): seq<Step> {
    [Enqueue(t)] + [Take(0)] + [Return(0, true)] + [Enqueue(t)]
  }

  lemma FirstSteps(t: Task)
    ensures var q, b, m := t.queue, t.body, State({t.queue}, map[t.queue := [t.body]],
              [Worker(t.queue, Waiting), Worker(t.queue, Waiting)]);
            && Next(New(q), Enqueue(t)) == m
            && Next(m, Take(0)) == Two(q, [], [b], Running(b), Waiting)
            && Next(Two(q, [], [b], Running(b), Waiting), Return(0, true)) ==
               Two(q, [], [b], Returned(b, true), Waiting)
            && Next(Two(q, [], [b], Returned(b, true), Waiting), Enqueue(t)) ==
               Two(q, [b], [b], Returned(b, true), Waiting)
            && EventOf(Two(q, [], [b], Returned(b, true), Waiting), Enqueue(t)) == Accepted(t)
  {
    var q, b := t.queue, t.body;
    ProcessingApart(q, q);
    assert [] + [b] == [b] && [b] + [] == [b] && [b][..0] == [];
    var m := State({q}, map[q := [b]], [Worker(q, Waiting), Worker(q, Waiting)]);
    assert LMove(m.lists, q, Processing(q)) == map[q := [], Processing(q) := [b]];
  }

  lemma RemovesBoth(b: string)
    ensures Removed([b, b], b) == []
  {
    assert [b, b][1..] == [b] && [b][1..] == [];
    assert Removed([b], b) == [] + Removed([], b);
    assert Removed([b, b], b) == [] + Removed([b], b);
  }

  lemma LastSteps(t: Task)
    ensures var q, b := t.queue, t.body;
            var m := Two(q, [b], [b], Returned(b, true), Waiting);
            var m' := Two(q, [], [b, b], Returned(b, true), Running(b));
            && Next(m, Take(1)) == m' && EventOf(m, Take(1)) == Silent
            && Next(m', Remove(0)) == Two(q, [], [], Waiting, Running(b)) && EventOf(m', Remove(0)) == Silent
            && Next(Two(q, [], [], Waiting, Running(b)), Crash(1)) == Two(q, [], [], Waiting, Dead)
            && EventOf(Two(q, [], [], Waiting, Running(b)), Crash(1)) == Silent
  {
    var q, b := t.queue, t.body;
    ProcessingApart(q, q);
    assert [b] + [b] == [b, b] && [b][..0] == [];
    var m, m' := Two(q, [b], [b], Returned(b, true), Waiting), Two(q, [], [b, b], Returned(b, true), Running(b));
    assert LMove(m.lists, q, Processing(q)) == m'.lists;
    RemovesBoth(b);
    assert LRem(m'.lists, Processing(q), b) == Two(q, [], [], Waiting, Running(b)).lists;
  }

  /** The successful run of a message deletes the equal one that another worker is running; when that
      worker dies, nothing is left of it. */
  lemma EnqueueAfterRunIsLost(t: Task)
    ensures var s, steps := New(t.queue), RunAndEnqueue(t) + [Take(1)] + [Remove(0)] + [Crash(1)];
            Init(s) && t in Owed(Events(s, steps)) && !Stored(After(s, steps), t)
  {
    var s, past := New(t.queue), RunAndEnqueue(t);
    FirstSteps(t);
    LastSteps(t);
    ProcessingApart(t.queue, t.queue);
    hide Next, EventOf;
    var p := [Enqueue(t)];
    assert [] + [Enqueue(t)] == p && After(s, []) == s;
    AfterMore(s, [], Enqueue(t));
    AfterMore(s, p, Take(0));
    AfterMore(s, p + [Take(0)], Return(0, true));
    AfterMore(s, p + [Take(0)] + [Return(0, true)], Enqueue(t));
    AfterMore(s, past, Take(1));
    AfterMore(s, past + [Take(1)], Remove(0));
    AfterMore(s, past + [Take(1)] + [Remove(0)], Crash(1));
    OwedMore(Events(s, p + [Take(0)] + [Return(0, true)]), Accepted(t));
    OwedMore(Events(s, past), Silent);
    OwedMore(Events(s, past + [Take(1)]), Silent);
    OwedMore(Events(s, past + [Take(1)] + [Remove(0)]), Silent);
  }

  lemma FailingSteps(t: Task)
    ensures var q, b, m := t.queue, t.body, State({t.queue}, map[t.queue := [t.body]],
              [Worker(t.queue, Waiting), Worker(t.queue, Waiting)]);
            && EventOf(New(q), Enqueue(t)) == Accepted(t) && EventOf(m, Take(0)) == Silent
            && Next(Two(q, [], [b], Running(b), Waiting), Return(0, false)) ==
               Two(q, [], [b], Returned(b, false), Waiting)
            && EventOf(Two(q, [], [b], Running(b), Waiting), Return(0, false)) == Silent
            && Next(Two(q, [], [b], Returned(b, false), Waiting), Remove(0)) == Two(q, [], [], Held(b), Waiting)
            && EventOf(Two(q, [], [b], Returned(b, false), Waiting), Remove(0)) == Silent
            && Next(Two(q, [], [], Held(b), Waiting), Crash(0)) == Two(q, [], [], Dead, Waiting)
            && EventOf(Two(q, [], [], Held(b), Waiting), Crash(0)) == Silent
  {
    var q, b := t.queue, t.body;
    ProcessingApart(q, q);
    assert [b][1..] == [] && Removed([b], b) == [] + Removed([], b);
    assert LRem(map[q := [], Processing(q) := [b]], Processing(q), b) == map[q := [], Processing(q) := []];
  }

  /** The worker dies after removing its failed message and before putting it back. */
  lemma CrashWhileHeldIsLost(t: Task)
    ensures var s, steps := New(t.queue), [Enqueue(t)] + [Take(0)] + [Return(0, false)] + [Remove(0)] + [Crash(0)];
            Init(s) && t in Owed(Events(s, steps)) && !Stored(After(s, steps), t)
  {
    var s, p := New(t.queue), [Enqueue(t)];
    FirstSteps(t);
    FailingSteps(t);
    ProcessingApart(t.queue, t.queue);
    hide Next, EventOf;
    assert [] + [Enqueue(t)] == p && After(s, []) == s;
    AfterMore(s, [], Enqueue(t));
    AfterMore(s, p, Take(0));
    AfterMore(s, p + [Take(0)], Return(0, false));
    AfterMore(s, p + [Take(0)] + [Return(0, false)], Remove(0));
    AfterMore(s, p + [Take(0)] + [Return(0, false)] + [Remove(0)], Crash(0));
    OwedMore(Events(s, []), Accepted(t));
    OwedMore(Events(s, p), Silent);
    OwedMore(Events(s, p + [Take(0)]), Silent);
    OwedMore(Events(s, p + [Take(0)] + [Return(0, false)]), Silent);
    OwedMore(Events(s, p + [Take(0)] + [Return(0, false)] + [Remove(0)]), Silent);
  }

  // ------------------------------------------------------------------
  // The queue as the source keeps it
  // ------------------------------------------------------------------

  class RemoteTaskQueue {
    const queues: set<string>
    var lists: Lists
    var workers: seq<Worker>

    /** No queue is named like the processing list of a queue. */
    ghost predicate Valid() {
      forall q, r :: q in queues && r in queues ==> q != Processing(r)
    }

    constructor (queues: set<string>, workers: seq<Worker>)
      requires forall w :: 0 <= w < |workers| ==> workers[w].pc == Waiting && workers[w].queue in queues
      requires forall q, r :: q in queues && r in queues ==> q != Processing(r)
      ensures Valid() && Init(Snapshot()) && this.queues == queues && this.workers == workers
    {
      this.queues, this.workers, lists := queues, workers, map[];
    }

    function Snapshot(): State
      reads this
    {
      State(queues, lists, workers)
    }

    method EnqueueTask(t: Task) returns (ok: bool)
      modifies this`lists
      ensures ok == (t.queue in queues)
      ensures List(lists, t.queue) == List(old(lists), t.queue) + if ok then [t.body] else []
      ensures OnlyDiffer(old(lists), lists, if ok then {t.queue} else {})
      ensures Snapshot() == if ok then Next(old(Snapshot()), Enqueue(t)) else old(Snapshot())
    {
      ok := t.queue in queues;
      if ok {
        lists := RPush(lists, t.queue, t.body);
      }
    }

    /** The blocking move at the head of the worker loop; it times out on an empty list. */
    method Fetch(w: nat) returns (got: bool)
      requires Valid() && w < |workers| && workers[w].pc.Waiting? && workers[w].queue in queues
      modifies this
      ensures got <==> List(old(lists), old(workers)[w].queue) != []
      ensures !got ==> lists == old(lists) && workers == old(workers)
      ensures got ==>
                var q := old(workers)[w].queue;
                var list := List(old(lists), q);
                && workers == old(workers)[w := Worker(q, Running(Last(list)))]
                && List(lists, q) == list[..|list| - 1]
                && List(lists, Processing(q)) == [Last(list)] + List(old(lists), Processing(q))
                && OnlyDiffer(old(lists), lists, {q, Processing(q)})
      ensures got == Enabled(old(Snapshot()), Take(w))
      ensures Snapshot() == if got then Next(old(Snapshot()), Take(w)) else old(Snapshot())
    {
      var queue := workers[w].queue;
      var list := List(lists, queue);
      got := |list| != 0;
      if got {
        var content := list[|list| - 1];
        lists := lists[queue := list[..|list| - 1]];
        lists := LPush(lists, Processing(queue), content);
        workers := workers[w := Worker(queue, Running(content))];
      }
    }

    /** The rest of the loop body: decoding, running, removing, and putting back after a failure. */
    method Handle(w: nat, decodable: bool, ok: bool) returns (ghost steps: seq<Step>)
      requires Valid() && w < |workers| && workers[w].pc.Running? && workers[w].queue in queues
      modifies this
      // What cannot be decoded stays in the processing list; all equal messages leave it otherwise, and
      // after a failure one is put back.
      ensures workers == old(workers)[w := Worker(old(workers)[w].queue, Waiting)]
      ensures !decodable ==> lists == old(lists)
      ensures decodable ==>
                var q, b := old(workers)[w].queue, old(workers)[w].pc.body;
                && List(lists, Processing(q)) == Removed(List(old(lists), Processing(q)), b)
                && List(lists, q) == (if ok then [] else [b]) + List(old(lists), q)
                && OnlyDiffer(old(lists), lists, if ok then {Processing(q)} else {q, Processing(q)})
      ensures steps ==
              if !decodable then [Undecodable(w)]
              else if ok then [Return(w, ok), Remove(w)]
              else [Return(w, ok), Remove(w), Requeue(w)]
      ensures Walks(old(Snapshot()), steps, Snapshot())
    {
      var Worker(queue, Running(content)) := workers[w];
      ghost var s0 := Snapshot();
      if !decodable {
        workers := workers[w := Worker(queue, Waiting)];
        WalksOne(s0, Undecodable(w));
        return [Undecodable(w)];
      }
      ghost var s1 := Next(s0, Return(w, ok));
      WalksTwo(s0, Return(w, ok), Remove(w));
      ghost var s2 := Next(s1, Remove(w));
      lists := LRem(lists, Processing(queue), content);
      if !ok {
        lists := LPush(lists, queue, content);
      }
      workers := workers[w := Worker(queue, Waiting)];
      steps := [Return(w, ok), Remove(w)];
      if !ok {
        WalksMore(s0, steps, s2, Requeue(w));
        steps := [Return(w, ok), Remove(w)] + [Requeue(w)];
      }
      assert Snapshot() == if ok then s2 else Next(s2, Requeue(w));
    }

    /** EnqueueProcessingQueueExpiredTask: the last message of every non-empty processing list goes to
        the front of the queue, whatever the order of the queues. */
    method EnqueueProcessingQueueExpiredTask() returns (ghost steps: seq<Step>)
      requires Valid()
      modifies this`lists
      ensures forall q :: q in queues ==> RecoveredOne(old(lists), lists, q)
      ensures OnlyDiffer(old(lists), lists, KeysOf(queues))
      ensures Walks(old(Snapshot()), steps, Snapshot())
      ensures forall i :: 0 <= i < |steps| ==> steps[i].Recover?
    {
      hide Walks, LMove, List, RecoveredSome, RecoveredOne;
      steps := [];
      NothingWalked(Snapshot());
      NothingRecovered(lists, queues);
      var rest := queues;
      while rest != {}
        invariant rest <= queues && Walks(old(Snapshot()), steps, Snapshot())
        invariant forall i :: 0 <= i < |steps| ==> steps[i].Recover?
        invariant RecoveredSome(old(lists), lists, queues, rest)
        decreases |rest|
      {
        var queue :| queue in rest;
        ghost var s := Snapshot();
        RecoverMore(old(lists), lists, queues, rest, queue);
        if |List(lists, Processing(queue))| != 0 {
          lists := LMove(lists, Processing(queue), queue);
          WalksMore(old(Snapshot()), steps, s, Recover(queue));
          steps := steps + [Recover(queue)];
        }
        rest := rest - {queue};
      }
      AllRecovered(old(lists), lists, queues);
    }

    /** Deletes two lists, for any name. */
    method PurgeQueue(queue: string)
      modifies this`lists
      ensures forall key :: key in lists <==> key in old(lists) && key != queue && key != Processing(queue)
      ensures forall key :: key in lists ==> lists[key] == old(lists)[key]
      ensures queue in queues ==> Walks(old(Snapshot()), [PurgeReady(queue), PurgeProcessing(queue)], Snapshot())
    {
      if queue in queues {
        WalksTwo(Snapshot(), PurgeReady(queue), PurgeProcessing(queue));
      }
      lists := Del(lists, queue);
      lists := Del(lists, Processing(queue));
    }
  }

  /** One message went from the end of the processing list to the front of the queue, if there was one. */
  predicate RecoveredOne(before: Lists, after: Lists, q: string) {
    var list := List(before, Processing(q));
    if list == [] then List(after, q) == List(before, q) && List(after, Processing(q)) == []
    else
      List(after, q) == [list[|list| - 1]] + List(before, q) && List(after, Processing(q)) == list[..|list| - 1]
  }

  function KeysOf(queues: set<string>): set<string> {
    queues + set q | q in queues :: Processing(q)
  }

  ghost predicate Unchanged(before: Lists, after: Lists, q: string) {
    List(after, q) == List(before, q) && List(after, Processing(q)) == List(before, Processing(q))
  }

  /** All queues but those of `rest` have been recovered. */
  ghost predicate RecoveredSome(before: Lists, after: Lists, queues: set<string>, rest: set<string>) {
    && (forall q :: q in queues - rest ==> RecoveredOne(before, after, q))
    && (forall q :: q in rest ==> Unchanged(before, after, q))
    && OnlyDiffer(before, after, KeysOf(queues - rest))
  }

  lemma NothingRecovered(lists: Lists, queues: set<string>)
    ensures RecoveredSome(lists, lists, queues, queues)
  {
  }

  lemma AllRecovered(before: Lists, after: Lists, queues: set<string>)
    requires RecoveredSome(before, after, queues, {})
    ensures forall q :: q in queues ==> RecoveredOne(before, after, q)
    ensures OnlyDiffer(before, after, KeysOf(queues))
  {
    assert queues - {} == queues;
  }

  function Recovered(lists: Lists, q: string): Lists {
    if List(lists, Processing(q)) != [] then LMove(lists, Processing(q), q) else lists
  }

  lemma RecoverMore(before: Lists, lists: Lists, queues: set<string>, rest: set<string>, queue: string)
    requires RecoveredSome(before, lists, queues, rest) && queue in rest && rest <= queues
    requires forall q, r :: q in queues && r in queues ==> q != Processing(r)
    ensures RecoveredSome(before, Recovered(lists, queue), queues, rest - {queue})
  {
    var after := Recovered(lists, queue);
    assert queue in queues && Unchanged(before, lists, queue);
    RecoversOne(before, lists, queue);
    assert queues - (rest - {queue}) == queues - rest + {queue};
    DifferMore(before, lists, after, queues - rest, queue);
    hide LMove, List, Recovered, OnlyDiffer, RecoveredOne, Unchanged;
    forall q | q in queues && q != queue
      ensures q in queues - rest ==> RecoveredOne(before, after, q)
      ensures q in rest ==> Unchanged(before, after, q)
    {
      OtherQueueStays(before, lists, queue, q);
    }
  }

  lemma OtherQueueStays(before: Lists, lists: Lists, queue: string, q: string)
    requires q != queue && q != Processing(queue) && Processing(q) != queue
    ensures RecoveredOne(before, lists, q) ==> RecoveredOne(before, Recovered(lists, queue), q)
    ensures Unchanged(before, lists, q) ==> Unchanged(before, Recovered(lists, queue), q)
  {
    ProcessingInjective(q, queue);
    hide Processing;
  }

  lemma DifferMore(before: Lists, lists: Lists, after: Lists, queues: set<string>, q: string)
    requires OnlyDiffer(before, lists, KeysOf(queues)) && OnlyDiffer(lists, after, KeysOf({q}))
    ensures OnlyDiffer(before, after, KeysOf(queues + {q}))
  {
    hide List, Processing;
    assert KeysOf(queues + {q}) == KeysOf(queues) + KeysOf({q});
  }

  /** One queue's step touches the two lists of the queue only. */
  lemma RecoversOne(before: Lists, lists: Lists, queue: string)
    requires queue != Processing(queue) && Unchanged(before, lists, queue)
    ensures RecoveredOne(before, Recovered(lists, queue), queue)
    ensures OnlyDiffer(lists, Recovered(lists, queue), KeysOf({queue}))
  {
  }

  lemma ProcessingInjective(q: string, r: string)
    requires q != r
    ensures Processing(q) != Processing(r)
  {
    assert q == Processing(q)[..|Processing(q)| - 11];
    assert r == Processing(r)[..|Processing(r)| - 11];
  }

  lemma NothingWalked(s: State)
    ensures Walks(s, [], s)
  {
  }

  predicate Possible(s: State, steps: seq<Step>) {
    steps == [] || (Possible(s, Front(steps)) && Enabled(After(s, Front(steps)), Last(steps)))
  }

  /** The schedule leads from one state to the other, and each of its steps is enabled. */
  predicate Walks(s: State, steps: seq<Step>, s': State) {
    Possible(s, steps) && After(s, steps) == s'
  }

  lemma WalksMore(s: State, steps: seq<Step>, m: State, step: Step)
    requires Walks(s, steps, m) && Enabled(m, step)
    ensures Walks(s, steps + [step], Next(m, step))
  {
    AfterMore(s, steps, step);
    assert Front(steps + [step]) == steps;
  }

  lemma WalksOne(s: State, step: Step)
    requires Enabled(s, step)
    ensures Walks(s, [step], Next(s, step))
  {
    assert [] + [step] == [step];
    WalksMore(s, [], s, step);
  }

  lemma WalksTwo(s: State, a: Step, b: Step)
    requires Enabled(s, a) && Enabled(Next(s, a), b)
    ensures Walks(s, [a, b], Next(Next(s, a), b))
  {
    WalksOne(s, a);
    assert [a] + [b] == [a, b];
    WalksMore(s, [a], Next(s, a), b);
  }
}
