# Verification of swiftwave's state machines

A Dafny model of the parts of swiftwave in which something can go wrong between
two lines of code, with proofs of what they keep. `dafny verify dfyconfig.toml`
checks all of it.

| module | what it models |
|---|---|
| `SshPool` | the pool of SSH clients: one lock for the pool and one per host entry, as interleaved lock operations of any number of goroutines |
| `AtLeastOnce`, `LocalQueue`, `RedisQueue` | the two durable task queues and the abstract queue that both are measured against |
| `Template`, `TemplateSegments`, `TemplateCycles` | the filler of `{{name}}` placeholders in stack files: its rewriting, what it gives on texts without nesting, and when it ends there |
| `GitUrl`, `GitSpellings`, `Text` | the parser and the printer of repository URLs, and all the texts that the parser reads, on the string functions that they use |
| `RuleLists`, `SwitchRules`, `Frontends`, `HttpRequestRules`, `HaproxyNames`, `HaproxyManager` | the indexed rule lists of HAProxy, the frontends made and removed with them, and the names and condition texts by which rules are found again |
| `RuleTables` | which ingress and redirect rules in the database exclude each other |
| `StageCommit`, `IngressApply` | a change staged and committed on many proxy nodes, and the application of an ingress rule |
| `Reconcile` | the loops that bring stored variables, mounts and bindings to a request |
| `PubSub` | the in-process publish/subscribe client |
| `ListCompare` | the comparisons that ignore order |
| `ServiceSpecs` | a service as a swarm specification, and back |
| `Deployments` | the status of deployments, with deploys in flight |

Where the source changes fields, rows or remote lists step by step, the model has
a class whose methods do the same and are proved against functions on values; the
lemmas are about these functions. Where it interleaves, the model is a state
machine, and the class's methods are schedules of its steps.

The remote side (HAProxy lists, Redis lists, database rows, proxy nodes) is modelled
as sequences, sets and maps, and every single request to it as atomic. What the
environment decides is a parameter: which requests a node refuses, what a dial
answers, which configs exist, the random draws. The iteration order of a Go map is
an arbitrary choice.

## Where the source does less than it says

Each of these is proved, with the exact condition under which the promise holds.

- The comment at `ssh_toolkit/pool.go:62-63` says that no other goroutine can create
  a client for the same host at the same time. There is no second look after the
  write lock is taken: two calls for one host can both dial
  (`SshPool.TwoDialsIffTwoCalls`). When one of the dials fails, its clean-up closes
  whatever client the host has then, so a client can be closed under its user by any
  other call for the host (`SshPool.ReturnedClientClosedIff`).
- The local queue loses tasks in four ways (`LocalQueue.NeverLosesIffNoHazard`). The
  replay reads the rows and deletes them in a second call, and a task accepted in
  between goes with them; the replay is run by a timer while the server accepts
  requests. A task that is accepted while an equal one has run and is not yet removed
  loses its row to that removal. A lookup finds a row that is gone when the call
  returns. A restart inside a replay forgets the rows not yet written back.
- The Redis queue loses a task in two ways (`RedisQueue.NeverLosesIffNoHazard`): the
  removal after a successful run deletes all equal messages, also one accepted since;
  and a worker can die between removing a failed message and putting it back
  (`RedisQueue.CrashWhileHeldIsLost`).
- Variables can keep the filler from ending: for texts without nested placeholders
  exactly when a name is met inside its own value (`TemplateCycles.FillingEndsIff`),
  and for all texts only if a value has four braces (`Template.BoundEndsIff`).
- Deleting one link of a TCP frontend deletes the frontend with all its rules
  (`Frontends.DeleteAndOtherRules`, `Frontends.DeletionTakesTheOther`). The database
  admits one TCP rule per port; a node has two when it was not an active proxy while
  the former rule was deleted, and is active again when the next one is applied.
- Switching https redirection on is checked when the request is accepted and done
  later by a worker, without a second check (`RuleTables.LateEnableBreaks`).
- An HTTP rule is accepted on the port of a TCP rule, though not the other way round
  (`RuleTables.HttpOnATcpPort`).
- Updating an application with a mounting path used twice fails after variables and
  mounts were brought to the request, and there is no transaction around it: they stay
  as they were exactly when they were what is requested (`Reconcile.UpdateTables`,
  `Reconcile.RefusedUpdateChanges`).
- Subscribing to a topic after its removal blocks the whole client
  (`PubSub.SubscribeWedgesIffRemoved`).
- The comparison of lists accepts some lists that differ, when the first has duplicates
  (`ListCompare.ComparesIffNoDuplicates`).
- An ingress rule with status Failed is live on the nodes that had committed before
  the failed commit: on some node exactly when every node staged and the first one
  asked to commit did (`IngressApply.ApplyIngressRule`); in some order of the nodes
  exactly when one node commits and another does not
  (`StageCommit.FailureLeavesSomeIff`, `StageCommit.TwoNodes`).
- Two overlapping first deploys of one application leave two deployed deployments
  (`Deployments.OverlappingDeploysBreak`); over a run no application ever has two
  exactly when each commit has read the one that is deployed then
  (`Deployments.AtMostOneIffAllHaveRead`).
- When the current deployment is deployed again and this fails, it is marked as failed
  although the service still runs it (`Deployments.FailLeavesNone`).

## Readings

- A goroutine step of `SshPool` runs from one lock operation to the next, and so
  contains at most one access to shared data. Progress is proved for Go's lock, where
  a waiting writer keeps new readers out; the invariant holds for the weaker lock too.
- A local task is identified by queue and body: the hash in its row is injective. A
  full channel rejects the task after its row was written; it then counts as
  accepted.
- A task succeeds when its function returns without an error, before its row or message
  is removed. A purge ends what is owed for the rows or messages that it deletes. The
  steps of the local queue make at most one database call each; there is one replay at
  a time, and writing a task back passes through the same call as a new task, so it
  counts as an acceptance.
- No queue is named like another one with `_processing` appended; the no-loss results
  speak of purges of registered queues.
- What is drawn for a RANDOM_ name is a function of the name, since it is drawn once and
  then kept in the mapping. The draws for runs are free.
- Strings are sequences of characters, which is where the source has bytes. The three
  expressions of `git_manager/parser.go:14-19` are stated as conditions on positions.
- Hosts are compared without case, as `-i` asks for; the condition of a request rule holds
  when the request has the host, is not for a certificate challenge where that is excepted,
  and does not carry credentials of the user list. The first rule of `fe_http` and of
  `fe_https` is not made by this repository; all that is used of it is that it is not
  about a host.
- The methods for port 80 and port 443 that differ only in the port are one method with
  the port as a parameter.
- In `IngressApply` the second component of an application is its replica count.
- In `RuleTables` the keys of the two tables are drawn from one counter.
- In `Deployments` a transaction reads the current deployment when it starts and writes
  when it commits.

## Model

| member | source | states |
|---|---|---|
| `SshPool.NextInv` | ssh_toolkit/pool.go:21-108 | Every lock operation of every goroutine keeps the protocol: a lock is held exactly by the goroutines whose program counter says so, each map entry belongs to its host, and a stored client was stored by its creator |
| `SshPool.ClientSetOnceByCreator` | ssh_toolkit/pool.go:56-91 | An entry's client changes at most once, from nil, by the entry's creator while it holds the entry's write lock; no client is closed twice |
| `SshPool.VisibleWithoutClient` | ssh_toolkit/pool.go:56-86 | An entry that the map shows without a client is locked by its creator, or its creator still has the pool lock, or its creator has failed |
| `SshPool.LookupFindsOpenEntry` | ssh_toolkit/pool.go:22-45 | A lookup never finds an entry whose client DeleteSSHClient has closed |
| `SshPool.Progress` | ssh_toolkit/pool.go:21-108 | While some call is unfinished, some goroutine can take a step, although a waiting writer keeps new readers out |
| `SshPool.EveryRunFinishes` | ssh_toolkit/pool.go:21-108 | Every interleaving of any number of calls on any hosts is of bounded length, and one that cannot go on has finished every call |
| `SshPool.ClientIsKept` | ssh_toolkit/pool.go:88-108 | A client that an entry has received stays in it over every run |
| `SshPool.ReturnsClientOfItsHost` | ssh_toolkit/pool.go:21-91 | What a call returns is the client stored for the host it was called with |
| `SshPool.SeenClientIsReturned` | ssh_toolkit/pool.go:26-52 | A look at an entry that has a client ends the call with that client, at either of the two places |
| `SshPool.UsesWhatItSees` | ssh_toolkit/pool.go:21-91 | Over every interleaving, a call returns the first client that its looks show it and then has made no entry; a call that sees none makes exactly one entry, and is answered with the client dialled for it or with a failure |
| `SshPool.PooledClientIsReturned` | ssh_toolkit/pool.go:21-52 | While the map shows an open client for a host and no other goroutine of that host takes a step, a call whose lookup is still to come ends with this client: at no moment does it dial, and the map and the client stay |
| `SshPool.PooledCallReturns` | ssh_toolkit/pool.go:21-34 | With neither lock held for writing such a call ends in four steps of its own, after which the pool is as it was |
| `SshPool.DeleteRemovesAndCloses` | ssh_toolkit/pool.go:93-108 | Whatever runs in between, from taking the write lock to giving it back a deletion takes its host out of the map it found, nothing else, and leaves a client of the entry it found closed |
| `SshPool.CallsEndAsMeant` | ssh_toolkit/pool.go:21-108 | A deletion never ends as a failed dial, and a call for a client never as a deletion |
| `SshPool.TwoDialsIffTwoCalls` | ssh_toolkit/pool.go:49-67 | Two goroutines can be dialling one host at the same time exactly when both called getSSHClient for it: the comment at lines 62-63 is not kept |
| `SshPool.ReturnedClientClosedIff` | ssh_toolkit/pool.go:72-108 | A client that a call has returned can be closed while its user has it exactly when there is another call for the same host: one that deletes it, or one whose own dial fails |
| `SshPool.ConnectionPool.constructor` | ssh_toolkit/pool.go:14-19 | The pool starts empty and unlocked |
| `SshPool.ConnectionPool.StepGet` | ssh_toolkit/pool.go:21-34 | A step inside getSSHClient is the state machine's step |
| `SshPool.ConnectionPool.StepNew` | ssh_toolkit/pool.go:36-67 | A step inside newSSHClient up to the publication of the entry is the state machine's step |
| `SshPool.ConnectionPool.StepCreate` | ssh_toolkit/pool.go:64-91 | A step while the goroutine creates the client is the state machine's step |
| `SshPool.ConnectionPool.Execute` | ssh_toolkit/pool.go:21-108 | The pool carries out every schedule that the locks allow, as the machine does; where nobody can go on every call is finished; a returned client belongs to the host of its call; a call is answered with the first client it sees and makes one only if it sees none; a client that the map shows is used again |
| `SshPool.ConnectionPool.StepDelete` | ssh_toolkit/pool.go:93-108 | A step inside DeleteSSHClient is the state machine's step |
| `AtLeastOnce.OwedMeans` | task_queue/local_task_queue.go:43-69 | A task is owed exactly when some acceptance of it is followed by neither a successful run of it nor a purge of it; both queues are measured against this |
| `LocalQueue.NeverLosesIffNoHazard` | task_queue/local_task_queue.go:43-69 | A schedule of single database calls, channel operations and runs, with purges, replays and restarts, keeps every owed task in a row or pending in the replay at every moment exactly when none of its steps is one of four hazards: an insert skipped for a row that is gone, a removal after a task was accepted again since its run returned, a replay deletion after a task was accepted since the rows were read, a restart over an unfinished task that has no row |
| `LocalQueue.HazardIffLoses` | task_queue/local_task_queue.go:108-139 | Each hazard, told from what came before in the schedule, is the loss of an owed task by that step |
| `LocalQueue.CalmLosesNothing` | task_queue/local_task_queue.go:43-69 | Nothing is ever lost if no task is accepted into the queue under replay or while an equal one waits for its removal, nothing is deleted under a call that has found it, and no restart falls into a replay |
| `LocalQueue.ChannelsNeverOverflow` | task_queue/local_task_queue.go:63-67 | Over every schedule no channel is longer than its capacity |
| `LocalQueue.EnqueueDuringReplayIsLost` | task_queue/local_task_queue_persist.go:85-95 | A task accepted between the two database calls of a replay is deleted unseen: a schedule after which it is owed and stored nowhere |
| `LocalQueue.EnqueueAfterRunIsLost` | task_queue/local_task_queue.go:207-227 | A task accepted after its only run returned loses its row to the removal for that run |
| `LocalQueue.StaleCheckIsLost` | task_queue/local_task_queue_persist.go:29-35 | A task found in the table, which it had left when the call returned, is accepted without a row |
| `LocalQueue.RestartInReplayIsLost` | task_queue/local_task_queue.go:108-139 | A restart between the deletion of the rows and their writing back loses them: a schedule after which a task is owed and stored nowhere |
| `LocalQueue.OfferFillsUp` | task_queue/local_task_queue.go:63-67 | Offering tasks to a bounded channel keeps its contents, appends a prefix of the tasks, and rejects the rest exactly when it is full |
| `LocalQueue.OfferedIffRoom` | task_queue/local_task_queue.go:63-67 | A task is in the channel after an offer exactly when it was there before, or there was room for it |
| `LocalQueue.ReplayedOfOther` | task_queue/local_task_queue.go:109-137 | Replaying one queue leaves the rows of every other queue as they were, in their order |
| `LocalQueue.LocalTaskQueue.RegisterFunction` | task_queue/local_task_queue.go:11-41 | A queue name is registered once, with an empty channel |
| `LocalQueue.LocalTaskQueue.ExistsTaskInDb` | task_queue/local_task_queue_persist.go:51-61 | Finds a task exactly when it has a row |
| `LocalQueue.LocalTaskQueue.AddTaskToDb` | task_queue/local_task_queue_persist.go:20-49 | Adds a row unless there is an equal one |
| `LocalQueue.LocalTaskQueue.RemoveTaskFromDb` | task_queue/local_task_queue_persist.go:63-75 | The rows that stay are those of other tasks, each at its place in the old order |
| `LocalQueue.LocalTaskQueue.PurgeQueue` | task_queue/local_task_queue.go:141-143 | The rows that stay are those of other queues, in the old order |
| `LocalQueue.LocalTaskQueue.GetTasksFromDb` | task_queue/local_task_queue_persist.go:85-95 | Finds exactly the rows of the queue, in the order of the table; on request the table keeps exactly the others, in that order |
| `LocalQueue.LocalTaskQueue.EnqueueTask` | task_queue/local_task_queue.go:43-69 | The row is added whatever the channel says; a task is sent to the channel unless that is full; these are three steps of the machine |
| `LocalQueue.LocalTaskQueue.HandleTask` | task_queue/local_task_queue.go:207-227 | Takes the oldest message; after a successful run its rows go, otherwise they stay: exactly the steps of the machine |
| `LocalQueue.LocalTaskQueue.RestoreTasks` | task_queue/local_task_queue.go:115-136 | Every task gets a row if it has none, and the channel is offered all of them in order: three steps of the machine for each |
| `LocalQueue.LocalTaskQueue.ReplayQueue` | task_queue/local_task_queue.go:109-137 | An undisturbed replay of a queue leaves the same tasks with rows, and offers them to the channel in order |
| `LocalQueue.LocalTaskQueue.EnqueueProcessingQueueExpiredTask` | task_queue/local_task_queue.go:108-139 | Whatever the order of the queues, every registered channel is offered the stored tasks of its queue in the order of the table, so that a stored task is in its channel exactly when it was there or there was room; the same tasks have rows |
| `RedisQueue.NeverLosesIffNoHazard` | task_queue/remote_task_queue.go:239-294 | A schedule of any number of workers, with equal bodies, crashes, purges and recoveries of messages that are still running, keeps every owed task in the ready list, in the processing list, or held by a worker about to put it back, at every moment exactly when none of its steps is one of two hazards: a removal after success while an equal task was accepted since that run returned and has no other copy ready or held, and the crash of a worker that holds the last copy of an unfinished task |
| `RedisQueue.HazardIffLoses` | task_queue/remote_task_queue.go:284-292 | Each hazard, told from what came before in the schedule, is the loss of an owed task by that step |
| `RedisQueue.CalmLosesNothing` | task_queue/remote_task_queue.go:239-294 | Nothing is ever lost if no worker dies between LRem and LPush and nothing is accepted while an equal task has returned and is not yet removed |
| `RedisQueue.EnqueueAfterRunIsLost` | task_queue/remote_task_queue.go:284-286 | LRem after a successful run deletes the equal message that another worker is running; when that worker dies nothing is left of it |
| `RedisQueue.CrashWhileHeldIsLost` | task_queue/remote_task_queue.go:284-292 | A worker that dies between the removal of its failed message and putting it back takes the only copy along |
| `RedisQueue.RemoteTaskQueue.EnqueueTask` | task_queue/remote_task_queue.go:94-101 | Appends to the ready list of a registered queue, and refuses any other; no other list changes |
| `RedisQueue.RemoteTaskQueue.Fetch` | task_queue/remote_task_queue.go:250-262 | Gets something exactly when the ready list is not empty: its last message, which goes to the front of the processing list; no other list changes |
| `RedisQueue.RemoteTaskQueue.Handle` | task_queue/remote_task_queue.go:263-292 | A message that cannot be decoded stays in the processing list; any other leaves it with every equal copy, and one goes to the front of the queue after a failure: exactly the steps of the state machine |
| `RedisQueue.RemovedPicks` | task_queue/remote_task_queue.go:284-286 | The messages that stay are the different ones, each at its place in the old order |
| `RedisQueue.RemoteTaskQueue.EnqueueProcessingQueueExpiredTask` | task_queue/remote_task_queue.go:152-161 | Whatever the order of the queues, each non-empty processing list loses exactly its last message and its queue gains it at the front; empty ones and all other lists stay |
| `RedisQueue.RemoteTaskQueue.PurgeQueue` | task_queue/remote_task_queue.go:386-393 | Deletes the two lists of the name, leaves every other list, and is the two purge steps for a registered queue |
| `Template.FillsFirst` | swiftwave_service/stack_parser/utils.go:289-310 | One step replaces the first pair of double braces around a text without braces, which may be empty, by the value of that text, and nothing else |
| `Template.FillsNothing` | swiftwave_service/stack_parser/utils.go:289-310 | Without such a pair nothing is done |
| `Template.ValueOf` | swiftwave_service/stack_parser/utils.go:294-305 | The mapping comes first; otherwise exactly the names of RANDOM_ and at least one more character have a value |
| `Template.GrownByWords` | swiftwave_service/stack_parser/utils.go:299-305 | The mapping grows by such names only, each with a word of 16 lower-case letters |
| `Template.BracesReplace` | swiftwave_service/stack_parser/utils.go:293-308 | Replacing a placeholder by a value takes four braces away and adds those of the value |
| `Template.FillOnceShrinks` | swiftwave_service/stack_parser/utils.go:289-310 | While every value has fewer than four braces, each rewriting step lowers the brace count, also for placeholders that nesting forms |
| `Template.BoundEndsIff` | swiftwave_service/stack_parser/utils.go:279-286 | A bound on the braces of the values makes filling end for every text exactly when it is less than four |
| `Template.SelfNeverEnds` | swiftwave_service/stack_parser/utils.go:279-286 | A variable that stands for its own placeholder is still there after any number of steps |
| `TemplateCycles.FillingEndsIff` | swiftwave_service/stack_parser/utils.go:279-308 | On text without nesting filling ends exactly when no name is met inside its own value, in the order in which filling comes to names; opening values as deep as there are names decides it beforehand |
| `TemplateCycles.HelperEndsIff` | swiftwave_service/stack_parser/utils.go:261-287 | The same for the whole helper, for texts with runs and whatever is drawn for them |
| `Template.FillNormalForm` | swiftwave_service/stack_parser/utils.go:279-286 | At the end the leftmost placeholder, if there is one, names nothing that has a value |
| `Template.SameFill` | swiftwave_service/stack_parser/utils.go:299-305 | Values that were drawn meanwhile for RANDOM_ names change neither whether filling ends nor its result |
| `TemplateSegments.FillIsOnePass` | swiftwave_service/stack_parser/utils.go:279-308 | On text without nesting and with values without placeholders the repeated rewriting ends and is one pass from left to right, which stops at the first name without a value |
| `TemplateSegments.RunsBecomeWords` | swiftwave_service/stack_parser/utils.go:312-344 | Replacing runs until there is none turns each run of the mark into a random word of its own length, and nothing else |
| `TemplateSegments.HelperIsOnePass` | swiftwave_service/stack_parser/utils.go:261-287 | variableFillerHelper on text without nesting: runs of $ and # become words of their lengths, and one pass fills the names |
| `Template.RunsFilled` | swiftwave_service/stack_parser/utils.go:312-344 | Each draw shortens the text by its four braces, also where runs are nested |
| `Template.GenerateRandom` | swiftwave_service/stack_parser/utils.go:359-381 | A random word has the given length and only letters of its charset |
| `Template.Filler.RandomFiller` | swiftwave_service/stack_parser/utils.go:312-344 | Replaces the leftmost run, if there is one, by a random word of its length |
| `Template.Filler.VariableFiller` | swiftwave_service/stack_parser/utils.go:289-310 | Takes one rewriting step, for any mapping; a RANDOM_ name without value gets one that is kept; when it does nothing the text is settled |
| `Template.Filler.RunsFiller` | swiftwave_service/stack_parser/utils.go:263-277 | Replaces runs until there is none, and every draw fits its run |
| `Template.Filler.VariableFillerHelper` | swiftwave_service/stack_parser/utils.go:261-287 | Where filling ends, the result is the filling of the text without runs, and its leftmost placeholder names neither a mapped variable nor a RANDOM_ one |
| `Template.Filler.FillTexts` | swiftwave_service/stack_parser/utils.go:114-164 | Texts filled one after the other with one growing mapping are all filled with the same values: a RANDOM_ name has one value in all of them |
| `GitUrl.RoundTrip` | git_manager/parser.go:37-172 | For every repository info, parsing what URL prints gives the same info exactly when its fields keep to the grammar that reads them: all ports, any owner path for http and for ssh with a port, a non-empty owner for ssh without one |
| `GitUrl.ReparseWithPort` | git_manager/parser.go:52-69 | The ssh form with a port is read back |
| `GitUrl.ReparseWithoutPort` | git_manager/parser.go:70-86 | The ssh form without a port is read back when there is an owner |
| `GitUrl.ReparseHttp` | git_manager/parser.go:87-113 | The http and https forms are read back, whatever the number of slashes in the owner |
| `GitUrl.ParsePrintParse` | git_manager/parser.go:37-172 | Parsing, printing and parsing again gives the first info exactly when a list of checks on the parsed info holds |
| `GitUrl.StoredUrlParsesBack` | swiftwave_service/core/deployment.operations.go:193-222 | GitRepositoryURL prints from the stored fields what URL prints, and this parses back exactly under the same checks |
| `GitSpellings.EndingsParse` | git_manager/parser.go:37-113 | A printable info is read from its URL with .git, a slash or both behind it, and white space around it, in all three grammars |
| `GitSpellings.WithoutScheme` | git_manager/parser.go:87-113 | For http infos the URL without its scheme, with any of these endings, is read as the info exactly when the scheme is https and the rest is trimmed, starts with no scheme, has a slash inside and is not claimed by the ssh grammar |
| `GitSpellings.HttpIff` | git_manager/parser.go:87-113 | For every text that no ssh grammar claims: it is read as an info exactly when it is made of stripped schemes, the host, the owner and the name of the info, with or without .git and a slash behind |
| `GitSpellings.SshIff` | git_manager/parser.go:52-86 | For every text that an ssh grammar claims: it is read as an info exactly when its words are the user, the endpoint, the owner and the name of the info, with or without .git behind |
| `GitSpellings.RefusedIff` | git_manager/parser.go:52-116 | Which texts are refused as unknown, and which as invalid: fewer than three words, or no slash but at the end |
| `GitSpellings.Surrounded` | git_manager/parser.go:38-39 | White space around a text does not matter |
| `GitSpellings.KnownHosts` | git_manager/parser.go:130-140 | Endpoints with github.com, gitlab.com and bitbucket.org in them have these providers, in this order of precedence |
| `GitSpellings.OtherHosts` | git_manager/parser.go:130-140 | Any other endpoint is its own provider |
| `GitUrl.SshUrl` | git_manager/parser.go:146-163 | The text printed for an ssh info, with and without a port and an owner |
| `GitUrl.HttpUrl` | git_manager/parser.go:164-171 | The text printed for an http info |
| `SwitchRules.RouteIsHead` | haproxy_manager/backend_switch.go:32-45 | First-match routing of a host is the head of the host's own rules |
| `SwitchRules.ApplyMovesOneStack` | haproxy_manager/backend_switch.go:12-131 | Adding or deleting a link pushes on, or takes out of, the stack of its own host and leaves every other host's rules; the reserved rule stays at index 0 |
| `SwitchRules.RunRoutesByStack` | haproxy_manager/predefined_link.go:6-56 | Over every run, routing follows the stack of the requested host, computed from that host's operations alone; the reserved rule never moves or disappears |
| `SwitchRules.AddIsUpdate` | haproxy_manager/predefined_link.go:6-16 | Adding a link routes the host to it exactly when it was not already there behind another one |
| `SwitchRules.DeleteIsRemoval` | haproxy_manager/predefined_link.go:19-28 | Deleting a link leaves the host without a route exactly when there was no other |
| `SwitchRules.RoutingRefinesMap` | haproxy_manager/predefined_link.go:6-56 | With at most one link per host at a time, routing over every run is look-up in a finite map in which add is update and delete is removal |
| `SwitchRules.CustomAddRoutes` | haproxy_manager/backend_switch.go:12-60 | On a custom HTTP port adding a link routes the host to it exactly when it was not already there behind another one |
| `SwitchRules.TcpAddRoutes` | haproxy_manager/backend_switch.go:12-60 | On a TCP port the first rule takes all connections: it is the added link exactly when this was not already there behind another one; a new rule comes first and has no condition |
| `Frontends.AddKeepsPort` | haproxy_manager/custom_link.go:6-15 | AddTCPLink, also when it fails, never leaves an HTTP and a TCP frontend on one custom port, nor a frontend without rules |
| `Frontends.AddedLinkIsThere` | haproxy_manager/custom_link.go:6-15 | An accepted link is in its list, whatever was there before |
| `Frontends.LinkAcceptedIff` | haproxy_manager/frontend.go:24-104 | A link is accepted on a custom port exactly when the port is not restricted and not used in the other mode, and on a default port exactly for HTTP next to the reserved rule; a refused link changes nothing, an accepted one its own frontend only |
| `Frontends.DeleteKeepsPort` | haproxy_manager/custom_link.go:18-27 | DeleteTCPLink keeps the same |
| `Frontends.DeleteAndOtherRules` | haproxy_manager/frontend.go:151-188 | Another rule survives the deletion of a link exactly when it is in another frontend or the frontend is an HTTP one: a TCP frontend goes with all its rules |
| `Frontends.DeletionTakesTheOther` | haproxy_manager/custom_link.go:18-27 | Two services linked to one TCP port share its frontend, and deleting the link of the first takes the rule of the second along |
| `Frontends.RunKeepsPorts` | haproxy_manager/frontend.go:13-188 | Over every run of AddTCPLink and DeleteTCPLink the HTTP and TCP frontends of a custom port never coexist, and a frontend exists only with rules |
| `HaproxyNames.FrontendNameInjective` | haproxy_manager/frontend.go:13-22 | No two (mode, port) pairs share a frontend name, down to decimal printing |
| `HaproxyNames.BackendNameInjective` | haproxy_manager/backend.go:13-19 | No two (protocol, service, port) triples share a backend name, whatever underscores the service names contain |
| `HttpRequestRules.TagsTellLabelsApart` | haproxy_manager/basic_auth.go:185-191 | Two rules share a condition text exactly when they are of the same kind for the same domain (and user list), for user list names without parentheses |
| `HttpRequestRules.ParenthesesCollide` | haproxy_manager/basic_auth.go:185-191 | With parentheses in list names two different (domain, list) pairs share a text |
| `HttpRequestRules.OtherRulesStay` | haproxy_manager/redirect_rule.go:14-205 | No operation removes, adds or reorders rules with another condition, whoever made them |
| `HttpRequestRules.OwnStackMoves` | haproxy_manager/https_redirection.go:13-109 | On the rules of its own kind and domain an operation is a push or a pop |
| `HttpRequestRules.SetupThenRemove` | haproxy_manager/https_redirection.go:13-109 | Setting a rule up and removing it restores the list exactly when there was no equal https redirection before; for the other two kinds always |
| `HttpRequestRules.TagHolds` | haproxy_manager/basic_auth.go:185-191 | The condition of a rule, read as HAProxy reads it, holds exactly for the requests that the rule is about: their host, credentials, and the exception for certificate challenges |
| `HttpRequestRules.SetupAnswers` | haproxy_manager/redirect_rule.go:14-94 | A request that a rule is about is then answered as promised: a challenge, a redirect with code 302 to the given URL, or one with code 301 to https; every other request is answered as before |
| `HttpRequestRules.RemoveRestoresAnswers` | haproxy_manager/redirect_rule.go:96-205 | Setting up and removing restores the answers to all requests, under the condition of SetupThenRemove |
| `HttpRequestRules.RunByLabel` | haproxy_manager/redirect_rule.go:14-205 | Over every run the rules of one kind and domain follow that label's own operations: no removal takes another kind's or another domain's rule |
| `HttpRequestRules.ForeignRulesStay` | haproxy_manager/redirect_rule.go:96-205 | Rules that no operation of a run could have made stay over the whole run, in order |
| `HaproxyManager.Manager.FetchBackendSwitchIndex` | haproxy_manager/backend_switch.go:62-102 | The index of the first matching rule, or -1; an error for a missing frontend |
| `HaproxyManager.Manager.AddBackendSwitch` | haproxy_manager/backend_switch.go:12-60 | The new table, or the error that leaves it unchanged |
| `HaproxyManager.Manager.DeleteBackendSwitch` | haproxy_manager/backend_switch.go:104-131 | Deletes the first matching rule and nothing else |
| `HaproxyManager.Manager.AddPredefinedLink` | haproxy_manager/predefined_link.go:6-43 | The rule list becomes what the routing results are about |
| `HaproxyManager.Manager.DeletePredefinedLink` | haproxy_manager/predefined_link.go:18-56 | The rule list becomes what the routing results are about |
| `HaproxyManager.Manager.AddFrontend` | haproxy_manager/frontend.go:24-104 | Creates the frontend, accepts an existing one, and refuses ports 80 and 443 for TCP, restricted ports, and a port used in the other mode |
| `HaproxyManager.Manager.IsOtherSwitchingRuleExist` | haproxy_manager/frontend.go:127-149 | Whether some rule is left, for an existing frontend |
| `HaproxyManager.Manager.IsPortRestrictedForManualConfig` | haproxy_manager/utils.go:17-24 | Whether the port is in the list |
| `HaproxyManager.Manager.DeleteFrontend` | haproxy_manager/frontend.go:151-188 | Deletes a custom frontend with its lists, but not an HTTP one that still has rules |
| `HaproxyManager.Manager.AddTCPLink` | haproxy_manager/custom_link.go:6-15 | Result and table of the frontend and then the rule, as LinkAcceptedIff describes them |
| `HaproxyManager.Manager.DeleteTCPLink` | haproxy_manager/custom_link.go:18-27 | Table after the rule and then the frontend are deleted |
| `HaproxyManager.Manager.AddUserList` | haproxy_manager/basic_auth.go:15-44 | The list is there afterwards, whether it was there before or not, and the other lists stay |
| `HaproxyManager.Manager.SetupBasicAuthentication` | haproxy_manager/basic_auth.go:193-230 | Succeeds exactly in HTTP mode for an existing list and frontend, and then inserts the rule at index 0 |
| `HaproxyManager.Manager.RemoveBasicAuthentication` | haproxy_manager/basic_auth.go:232-297 | Deletes the first rule with that condition, guard and type |
| `HaproxyManager.Manager.AddRedirectRule` | haproxy_manager/redirect_rule.go:14-94 | Refuses blank domains and URLs; inserts the rule at index 0 without looking for an equal one |
| `HaproxyManager.Manager.DeleteRedirectRule` | haproxy_manager/redirect_rule.go:96-205 | Deletes the first rule with that condition |
| `HaproxyManager.Manager.FetchIndexOfHTTPSRedirection` | haproxy_manager/https_redirection.go:51-87 | The index of the first rule equal in five fields, or -1 |
| `HaproxyManager.Manager.EnableHTTPSRedirection` | haproxy_manager/https_redirection.go:13-49 | Inserts the rule unless there is an equal one |
| `HaproxyManager.Manager.DisableHTTPSRedirection` | haproxy_manager/https_redirection.go:89-109 | Deletes the first equal rule |
| `HaproxyManager.Manager.AddBackend` | haproxy_manager/backend.go:48-124 | The backend that comes back serves exactly the requested protocol, service and port, also when one of that name was there before; the replica count is then the old one |
| `RuleTables.AtMostOneAnswersHttp` | swiftwave_service/core/ingress_rule.operations.go:110-123 | For each domain at most one of an ingress rule on port 80, an HTTP redirect rule, and the redirection of an HTTPS rule exists |
| `RuleTables.AdmissibleIff` | swiftwave_service/core/ingress_rule.operations.go:42-125 | An ingress rule is admissible exactly when its port is not restricted, its domain and application exist, all exclusions hold with it, and it is not a TCP rule on a port of the web: nothing else is refused |
| `RuleTables.RedirectAdmissibleIff` | swiftwave_service/core/redirect_rule.oprations.go:32-73 | A redirect rule is admissible exactly when its domain exists and all exclusions hold with it |
| `RuleTables.NextKeepsIffTimely` | swiftwave_service/core/ingress_rule.operations.go:127-192 | Every operation keeps all exclusions exactly when it is not the switching on of an https redirection whose check no longer holds |
| `RuleTables.ToggleKeepsIffStillAllowed` | swiftwave_service/core/ingress_rule.operations.go:168-192 | The same for the switch alone, in both directions |
| `RuleTables.ExclusiveIffTimely` | swiftwave_service/core/ingress_rule.operations.go:42-192 | Over every run of creations, deletions, status changes and switches, the exclusions hold at every moment exactly when each switching on passes its check at the moment of the update |
| `RuleTables.LateEnableBreaks` | swiftwave_service/worker/process_ingress_rule_https_redirect.go:26-87 | The worker does not repeat the check: a rule created in between leaves the domain answered twice |
| `RuleTables.CreateKeepsPortsIff` | swiftwave_service/core/ingress_rule.operations.go:91-103 | Creation keeps HTTP and TCP rules on different ports exactly when it is not an HTTP rule on the port of a TCP rule |
| `RuleTables.HttpOnATcpPort` | swiftwave_service/core/ingress_rule.operations.go:91-96 | Such an HTTP rule is accepted |
| `RuleTables.RuleStore.IsValidNewIngressRule` | swiftwave_service/core/ingress_rule.operations.go:42-125 | Accepts exactly the admissible rules: shape, restricted ports, existing domain and application, nothing in the way |
| `RuleTables.RuleStore.NothingInTheWay` | swiftwave_service/core/ingress_rule.operations.go:90-124 | The checks against the rows, exactly |
| `RuleTables.RuleStore.CreateIngressRule` | swiftwave_service/core/ingress_rule.operations.go:127-134 | Inserts the row, without https redirection, exactly when it is admissible, and keeps the exclusions |
| `RuleTables.RuleStore.DeleteIngressRule` | swiftwave_service/core/ingress_rule.operations.go:142-157 | Marks the row, refusing one already marked, or removes it when forced |
| `RuleTables.RuleStore.ValidateForHttpsRedirectEnableRequest` | swiftwave_service/core/ingress_rule.operations.go:168-187 | Accepts exactly an HTTPS rule that is not being deleted and whose domain has neither an HTTP rule on port 80 nor an HTTP redirect rule |
| `RuleTables.RuleStore.UpdateIngressStatus` | swiftwave_service/core/ingress_rule.operations.go:163-166 | Changes the status of one row, and keeps the exclusions |
| `RuleTables.RuleStore.UpdateRedirectStatus` | swiftwave_service/core/redirect_rule.oprations.go:99-104 | Changes the status of one row, and keeps the exclusions |
| `RuleTables.RuleStore.UpdateHttpsRedirectStatus` | swiftwave_service/core/ingress_rule.operations.go:189-192 | Changes the flag of an HTTPS rule; keeps the exclusions exactly when timely |
| `RuleTables.RuleStore.CreateRedirectRule` | swiftwave_service/core/redirect_rule.oprations.go:32-73 | Inserts the row exactly when it is admissible, and keeps the exclusions |
| `RuleTables.RuleStore.DeleteRedirectRule` | swiftwave_service/core/redirect_rule.oprations.go:79-93 | Marks the row, refusing one already marked, or removes it when forced |
| `StageCommit.Cluster.StageOnAllNodes` | swiftwave_service/graphql/helpers.go:139-155 | Opens and stages node after node until something fails; says which nodes have a transaction and what it contains |
| `StageCommit.Cluster.CommitOrDelete` | swiftwave_service/graphql/helpers.go:157-169 | The order of the transactions and the nodes' answers determine every request: a transaction is committed exactly when nothing had failed before the loop and no commit up to its own fails; each one ends once, no commit follows a failed one, and a node changes only by its own commit |
| `StageCommit.Cluster.EndTransaction` | swiftwave_service/graphql/helpers.go:157-169 | One round of that loop |
| `StageCommit.Cluster.RunActionsInAllNodes` | swiftwave_service/graphql/helpers.go:117-179 | For every failure pattern and iteration order: success exactly when there are nodes, all stage and all commit; a node commits exactly when all stage and no commit up to its own in the order fails; then its configuration is the staged one, and otherwise the old one; some node has committed exactly when all stage and the first in the order commits; every opened transaction ends in exactly one of a commit and a delete request, and every logged outcome is the node's answer |
| `StageCommit.FailureLeavesSomeIff` | swiftwave_service/graphql/helpers.go:157-179 | There is an order in which a failed run leaves some node committed exactly when some node would commit and some node would not |
| `StageCommit.TwoNodes` | swiftwave_service/graphql/helpers.go:157-169 | Two nodes, the second of which refuses: in one order the first is left committed, in the other none is |
| `StageCommit.EndLogTells` | swiftwave_service/graphql/helpers.go:157-169 | The requests that end transactions, as the order and the answers determine them, hold a successful commit of exactly the nodes before the first refusal |
| `IngressApply.ApplyIngressRule` | swiftwave_service/worker/process_ingress_rule_apply_request.go:14-187 | Applied, for a rule that is not UDP, exactly when every node staged and every node commits, and then every node has the rule; a staging failure leaves every node as it was and the status Failed; whatever the status, a node has the rule exactly when all staged and no commit up to its own in the order of the transactions fails, so Failed leaves the rule somewhere exactly when all staged and the first commit succeeded; where the rule is, what it is about is routed to its service and target port unless its link is hidden; each opened transaction ended once; a UDP rule is Applied exactly when every node takes it |
| `IngressApply.StagedRuleRoutes` | swiftwave_service/worker/process_ingress_rule_apply_request.go:98-149 | Where a rule for port 80 or 443 is staged, requests of the domain go to a backend of the rule's service on its target port, with the replicas of the service if it is new, exactly when the link was not hidden behind another one; other backends and frontends stay |
| `IngressApply.StagedCustomRuleRoutes` | swiftwave_service/worker/process_ingress_rule_apply_request.go:123-149 | The same for a custom HTTP port |
| `IngressApply.StagedTcpRuleRoutes` | swiftwave_service/worker/process_ingress_rule_apply_request.go:123-149 | Where a TCP rule is staged, its port's connections go to a TCP backend of the rule's service on its target port, under the same condition |
| `IngressApply.StagedRoutes` | swiftwave_service/worker/process_ingress_rule_apply_request.go:90-149 | The three together, for whatever rule is staged |
| `IngressApply.ServingIsUnique` | swiftwave_service/worker/process_ingress_rule_apply_request.go:107-111 | There is one such backend only |
| `Reconcile.ToMap` | swiftwave_service/core/application.operations.go:385-389 | Of requested entries with one key the last counts |
| `Reconcile.ToMapWithoutRepetition` | swiftwave_service/core/application.operations.go:493-504 | Refuses exactly a request in which a mounting path is used twice |
| `Reconcile.RequestsDetermine` | swiftwave_service/core/application.operations.go:385-389 | A request list determines one map |
| `Reconcile.Table.Visit` | swiftwave_service/core/application.operations.go:392-420 | One stored row: updated, kept or deleted, and whether that changed it |
| `Reconcile.Table.KeepRequested` | swiftwave_service/core/application.operations.go:390-421 | The first loop over the rows in any order: each key no longer pending is held by one row with the requested value, and no row had a key that is still pending |
| `Reconcile.Table.AddMissing` | swiftwave_service/core/application.operations.go:422-435 | The second loop: one new row for each pending key and nothing else |
| `Reconcile.Table.ReconcileRows` | swiftwave_service/core/application.operations.go:385-435 | Whatever rows were stored, duplicates included, the application's rows are then each requested key once with its value and nothing else; other applications keep their rows; a reload is asked for exactly when the table changed, and exactly when it did not hold the request before |
| `Reconcile.UpdateTables` | swiftwave_service/core/application.operations.go:385-550 | The same for the three tables; a mounting path used twice is refused, but only after variables and config mounts were brought to the request: refused or not, each of the two tables is unchanged exactly when it held what is requested, and a later request with the same ones then asks for no reload on their account |
| `Reconcile.RefusedUpdateChanges` | swiftwave_service/core/application.operations.go:493-504 | A refused request with one new variable and one path used twice, after which the variable is stored |
| `Reconcile.ConfigSurvivesExactlyUnchanged` | swiftwave_service/core/config_mount.operations.go:25-30 | A mount has a swarm config afterwards exactly when its row is an old one, unchanged |
| `PubSub.NextKeepsLifecycle` | pubsub/local_pubsub.go:11-196 | Every call keeps: a channel is open exactly while its subscription is registered under its topic, topics with a table are topics, and no channel is over its buffer length |
| `PubSub.NextDelivers` | pubsub/local_pubsub.go:128-163 | Every call keeps, per subscription: the channel is a suffix of what was published on its topic since it subscribed, the received messages are earlier ones in order, and none of the last bufferLength messages is missing |
| `PubSub.EveryRunDelivers` | pubsub/local_pubsub.go:58-163 | Both over every run of a new client, with receives in between, and with no condition on the calls |
| `PubSub.SubscribeWedgesIffRemoved` | pubsub/local_pubsub.go:34-90 | Subscribe panics with the lock held, and blocks the client for ever, exactly when the topic was removed before: neither CreateTopic nor Publish repairs it |
| `PubSub.EndedForGood` | pubsub/local_pubsub.go:30-196 | Unsubscribing, removing the topic and closing the client each end a subscription for good: over every run that follows its subscriber receives only what was waiting |
| `PubSub.LocalPubSub.CreateTopic` | pubsub/local_pubsub.go:11-28 | Gives a new topic an empty table and leaves a known one alone |
| `PubSub.LocalPubSub.RemoveTopic` | pubsub/local_pubsub.go:30-55 | Closes the channels of the topic, each of them open, and drops its table, but keeps the topic |
| `PubSub.LocalPubSub.Subscribe` | pubsub/local_pubsub.go:58-91 | A new empty open channel, registered; or an error, or the panic |
| `PubSub.LocalPubSub.Unsubscribe` | pubsub/local_pubsub.go:94-126 | Closes an open channel and unregisters it; nothing for one that is not registered |
| `PubSub.LocalPubSub.Publish` | pubsub/local_pubsub.go:128-163 | Every subscriber of the topic gets the message, the oldest one being dropped from a full channel; never to a closed channel, never blocking |
| `PubSub.LocalPubSub.CloseClient` | pubsub/local_pubsub.go:165-196 | Closes every registered channel once; further calls fail |
| `PubSub.LocalPubSub.CloseChannels` | pubsub/local_pubsub.go:41-50 | Closes the given channels, each of which must be open |
| `PubSub.LocalPubSub.Receive` | pubsub/local_pubsub.go:154-159 | Takes the oldest message of the channel |
| `ListCompare.CoveredIffPermutation` | swiftwave_service/cronjob/sync_proxy_state.go:262-280 | For a first list without duplicates, equal length and one-sided membership mean a permutation |
| `ListCompare.ComparesIffNoDuplicates` | swiftwave_service/cronjob/sync_proxy_state.go:262-280 | The comparison tells permutations from all other lists exactly when the first list has no duplicates |
| `ListCompare.DuplicateMisleads` | container_manager/docker_proxy.go:201-218 | With a duplicate there is a list that is accepted and is no permutation |
| `ListCompare.IsListSame` | container_manager/docker_proxy.go:201-218 | The loops compute that relation |
| `ListCompare.IsPortListSame` | swiftwave_service/cronjob/sync_proxy_state.go:294-314 | The same for published ports, names aside |
| `ListCompare.RemoveDuplicates` | swiftwave_service/cronjob/sync_proxy_state.go:282-292 | The first occurrences, in order: no duplicates and the same elements |
| `ListCompare.IsSameMap` | swiftwave_service/cronjob/sync_proxy_state.go:316-330 | True exactly for equal maps, in any order of the keys |
| `ServiceSpecs.ServiceRoundTrip` | container_manager/service.go:20-91 | Reading a built specification back restores the service exactly when no variable name has an equals sign, the replica count belongs to a replicated service or is 0, and both memory settings are 0 or between 6 MB and 2^43; everything else always |
| `ServiceSpecs.EnvRoundTrip` | container_manager/service.go:34-43 | The variables come back exactly when no name has an equals sign, in whatever order the map was visited |
| `ServiceSpecs.MountsRoundTrip` | container_manager/service.go:44-59 | Volume mounts and binds come back, in order |
| `ServiceSpecs.MemoryRoundTrip` | container_manager/service.go:542-550 | A memory setting comes back exactly when it is 0, or at least 6 MB and its bytes fit in 64 bits |
| `ServiceSpecs.ServiceToServiceSpec` | container_manager/service.go:469-615 | Fails exactly for an unknown mode or config; otherwise every field of the specification is as promised |
| `ServiceSpecs.GetService` | container_manager/service.go:20-91 | The loops read what the round trip is about |
| `Deployments.RunKeeps` | swiftwave_service/worker/process_application_deploy_request.go:253-339 | Over every run in which the deploys of each application do not overlap, with builds, failures and removals in between, at most one deployment of each application is deployed |
| `Deployments.CommitKeepsIffRead` | swiftwave_service/worker/process_application_deploy_request.go:253-270 | A commit keeps that exactly when its transaction had read the deployment that is deployed now, if there is one beside its own |
| `Deployments.AtMostOneIffAllHaveRead` | swiftwave_service/worker/process_application_deploy_request.go:253-339 | Over every run, overlapping or not, at most one deployment of each application is deployed at every moment exactly when each commit has read the one that is deployed at its moment |
| `Deployments.CommitLeavesExactlyTheRequested` | swiftwave_service/worker/process_application_deploy_request.go:253-270 | After a commit the requested deployment is the deployed one and the only one |
| `Deployments.FailLeavesNone` | swiftwave_service/worker/process_application_deploy_request.go:41-52 | A failed deploy leaves the application without a deployed deployment exactly when it had none or the request was to deploy the current one again |
| `Deployments.OverlappingDeploysBreak` | swiftwave_service/worker/process_application_deploy_request.go:253-270 | Two overlapping first deploys of one application leave two deployed deployments |
| `Deployments.DeploymentTable.CreateDeployment` | swiftwave_service/core/deployment.operations.go:77-83 | A new pending row |
| `Deployments.DeploymentTable.UpdateStatus` | swiftwave_service/core/deployment.operations.go:153-157 | Changes the status of one row |
| `Deployments.DeploymentTable.FindCurrentDeployed` | swiftwave_service/core/deployment.operations.go:27-34 | The deployed deployment of the application, if there is one |
| `Deployments.DeploymentTable.DeployApplication` | swiftwave_service/worker/process_application_deploy_request.go:41-55 | Committed: exactly the requested deployment is deployed and the former one stalled; failed: only its own status changes; commit failed: nothing changes |

## Left out

- The AMQP queue, the Redis publish/subscribe client, console, REST, GraphQL, certificates, command line, backups and timers: thin wrappers.
- Failing database, Redis and JSON calls: every single call of the two queues is assumed to succeed.
- Argument types of tasks: a task's argument is its body.
- A commit whose answer is lost: a node that reports a failed commit has not committed.
- FillingEndsIff: texts whose placeholders are put together from other values are covered by the bound on braces only.
- RunsFilled: states the length only; where no runs are nested, RunsBecomeWords says what each of them becomes.
- The docs section of a stack, and the renaming of map keys after filling: only the texts are modelled.
- Password hashing, users of a user list, the replica update and deletion of backends: they touch no other rule.
- SetupBasicAuthentication: a fresh rule has no redirect fields, which the source leaves out of its request.
- Rules of other tools in the HAProxy lists that lack a condition, on which the search for an https redirection would panic.
- The update of replica counts on the proxy nodes at the end of a deploy.
- The https redirection worker's own stage and commit loop, which keeps a node without a transaction in its map.
- ApplyIngressRule: a UDP rule is not rolled back on the nodes that took it before another one failed; only its status and the untouched proxy configuration are stated.
- The other parts of Application.Update (mode, command, replicas, hosts, docker proxy, health check): one comparison and one assignment each.
- Concurrency inside the publish/subscribe client: each call is one step.
- ServiceRoundTrip: capabilities, sysctls, health check and privileges are not read back by the source and not modelled; config mounts are built but not read back.
- Row locks of the database between overlapping deploys.
