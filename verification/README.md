# Verified model of gitlab-hook

gitlab-hook is a small HTTP server that GitLab calls with webhooks. A request that is authorised by
the hooks configured for its path schedules their commands, and an action list executes the commands
one after the other, with a timeout and a kill for each. Everything happens in the callbacks of one
single-threaded event loop. This project models that behaviour in Dafny and proves what it keeps.

`dafny verify dfyconfig.toml` checks the project.

## Structure

| file | what it models |
|---|---|
| `Kernel.dfy` | child processes: running, zombie, reaped, and how each one ended |
| `Scheduler.dfy` | action list and process manager as a state machine over values: every callback is a function, every failed assert, null or dangling pointer is a `Fault` it can return |
| `SchedulerInvariant.dfy` | the inductive invariant, and that each event keeps it without a fault |
| `SchedulerRuns.dfy` | whole runs: safety, serial history, counters, draining, bounded waiting |
| `Outcomes.dfy` | the timers of an action counted from its start, and the counters in terms of how actions end |
| `ProcessList.dfy` | the intrusive list of processes: reaping on lists of any length, and the class that walks and relinks the nodes |
| `ActionList.dfy` | `action_list` and the SIGCHLD callback as objects updated in place, each method proved equal to its function in `Scheduler` |
| `Routing.dfy` | registration and lookup of HTTP handlers |
| `CommandLine.dfy`, `Environment.dfy` | splitting a command, and encoding what it finds in its environment |
| `Hooks.dfy` | authorisation, the walk over a chain, the pipeline filter, the response |
| `Jobs.dfy` | what a command gets: the variables it reads, its program and arguments, its name and timeout |
| `Answers.dfy` | every answer a request can get, and exactly when |
| `HookChain.dfy` | the same as linked hook objects and loops that append to the action list |
| `Requests.dfy` | the request from its headers to its response, with the body in chunks |
| `Setup.dfy` | the loop of `main` that chains and registers the configured hooks |
| `Program.dfy` | that loop, `newRequest` and `completeRequest` over the objects |
| `Daemon.dfy` | all connections and the action list together, and the end-to-end promises |
| `History.dfy` | the daemon's counters, and the content of its requests, in terms of the events that led to them |
| `Arrivals.dfy` | when requests and their commands are ordered as they came in |
| `Reaping.dfy` | that the two descriptions of the reaping loop, over ids and over nodes, are the same |
| `Waiting.dfy` | what the action list guarantees in time, for runs of the whole program |

The events of the action list are: an append, the dispatch of `execEv`, `timeoutEv` or `killEv`, the
exit of a child, the SIGCHLD callback with any order in which `waitid` may report the zombies, and the
passing of time. Whatever is enabled may come next, so every theorem over runs is one over all
interleavings. The daemon adds the callbacks of any number of connections, in any order.

Two layers describe the imperative code. The specification layer is made of values and functions; the
class layer (`ActionQueue`, `List`, `ProcessImpl`, `Hook`, `Request`, `Server`, `Environment`, and the
methods of `Program`) updates fields, pointers and lists in place, as the source does, and each of its
methods states the new state as the function of the old one that the theorems are about.

## What was found

Some statements that the documentation or the code itself suggests are false. The model follows the
code; for each there is a lemma that says exactly when it holds, or a concrete case in which it fails.

- The counter of failed hooks misses hooks that are killed after their timeout: it counts all bad ends
  if and only if the kill event never occurs, whose callback does not call `addFailure`
  (`FailedMeansBadIff`, `KilledIsNotFailed`).
- A timeout does not kill at once: SIGTERM is sent, and the kill follows exactly a second later, if and
  only if the child was not reaped before (`KilledOnTime`; README.md of gitlab-hook, line 142).
- An action whose child has exited well can still be killed and be lost for both counters, if SIGCHLD is
  not handled in time (`LostExit`); src/process.cpp forks the very first child in line 157 before the
  SIGCHLD event is registered from line 167. If SIGCHLD is handled before time passes, every action ends
  when its child exits and as its child exits (`PromptlyReaped`).
- Commands are ordered by when the body of a request is complete, not by when the request came in. The
  two orders are the same if and only if no request that schedules something is finished while an earlier
  one is open that is finished later and schedules something then (`CommandOrderIff`, and
  `ArrivalOrderIff` for the requests themselves); `SecondComesFirst` is a run in which the job of the
  request that was accepted first is started second (README.md of gitlab-hook, lines 176-179).
- Any number of hooks is documented for a path, but the third one ends in the assert of `hook::chain`
  (`SetUpIff`, `ThreeHooksFail`).
- A hook configured for `/x/` is unreachable if another one is configured for `/x//` (`ReachedIff`,
  `SlashHidden`).
- A body over the limit is meant to be answered with 413, but the next callback for it ends in a failed
  assert (`DeliveredIff`, `OverlongFails`, `StopsIff`).
- A response of 400 or 500 does not mean that nothing was scheduled (`AcceptedMeansScheduled`,
  `ScheduledButRefused`).
- `CI_JOB_NAMES` cannot be read back if a job name contains a space; `CI_JOB_IDS` always can
  (`ListReadableIff`, `SpacedNamesMixUp`, `JobNamesArrive`, `IdsReadBack`).

## Assumptions

- Asserts are enabled, and callbacks run one at a time to their end. A function action takes no time.
- `fork` and the creation of responses succeed. A pid is not given to a new child before the old one
  was reaped.
- `waitid` reports pid 0 if there is no zombie. The source relies on that also if there is no child at
  all, where POSIX leaves the structure unspecified.
- The HTTP library calls a request no more once its response was queued, and sizes do not wrap around.
- JSON arrives as records whose members may be absent; an absent member and one of the wrong type raise
  exceptions that are handled alike. Only `project` may be absent where it is logged; a `project` of the
  wrong type is one without members. Bytes are characters.
- The static counters are those of the life of one action list.

## Model

| member | source | states |
|---|---|---|
| SchedulerInvariant.StepKeeps | src/action_list.cpp:131-266 | every event that can occur in a state satisfying the invariant keeps it and faults nowhere: `execEv` is active iff an unstarted head waits, a running head has exactly one timer and is the only linked process, nothing is armed otherwise |
| SchedulerInvariant.EndKeeps | src/action_list.cpp:223-228 | both ways of popping the head leave a state in which the next action can be dispatched |
| SchedulerInvariant.StartKeeps | src/action_list.cpp:175-202 | dispatching a command keeps the invariant: the head is forked and linked, and exactly one timer is armed |
| Outcomes.StartArms | src/action_list.cpp:199-201 | that timer is the action's own timeout, counted from now |
| Outcomes.TimedFromStart | src/action_list.cpp:199-258 | over every run, SIGTERM does not come before the timeout has passed since the start, nor the kill before one more second has; in a timely run the kill comes exactly then, iff the child was not reaped first |
| SchedulerInvariant.CallKeeps | src/action_list.cpp:206-219 | dispatching a function action, whether it throws or not, keeps the invariant |
| SchedulerInvariant.TimeoutKeeps | src/action_list.cpp:232-243 | at the timeout the head always is a process with a pid |
| SchedulerInvariant.KillKeeps | src/action_list.cpp:247-258 | at the kill the head is a linked process with a pid, and is unlinked before it is popped |
| SchedulerInvariant.ReapHeadKeeps | src/process.cpp:276-302 | the exit of the running head's child calls its handler with that child's own status and ends that action and no other |
| SchedulerInvariant.ReapStrayKeeps | src/process.h:74-76 | the late exit of a killed child changes nothing but the zombies: no handler runs and no action is popped |
| SchedulerInvariant.SigchldKeeps | src/process.cpp:263-304 | whatever order `waitid` reports the zombies in, all are reaped and the result is the same: the head ends iff its child is among them |
| SchedulerRuns.NeverFaults | src/action_list.cpp:131-266 | no run reaches `front()` of an empty list, a signal without a pid, `remove` of an unlinked process, a dangling node or an empty handler |
| SchedulerRuns.ReachableStep | src/action_list.cpp:155-266 | the reachable states are closed under every enabled event |
| SchedulerRuns.SerialHistory | README.md:176-179 | in every run each action is started at most once and ended at most once, directly after its start and before the next start, in append order, none lost; an exit is attributed to the action whose child it was |
| SchedulerRuns.CountersConserved | src/main.cpp:194-198 | scheduled = executed + waiting, executed = good + failed + killed + running, so failed <= executed <= scheduled |
| Outcomes.FailuresCounted | src/action_list.cpp:193-215 | over every run, failed is the number of functions that threw, children ended by a signal and children that exited with another code than 0; executed is the number of all ends and of the running child |
| Outcomes.ExitCounted | src/action_list.cpp:177-197 | handling SIGCHLD raises failed by one iff the head's child was ended by a signal or exited with another code than 0 |
| Outcomes.FunctionCounted | src/action_list.cpp:206-219 | a function action raises executed, and failed iff it throws |
| Outcomes.KillCounted | src/action_list.cpp:247-258 | a kill raises neither counter |
| SchedulerRuns.FailedMeansBadIff | src/action_list.h:38-40 | the counter of failures is the number of bad ends iff the kill event is not among the events |
| SchedulerRuns.KilledIsNotFailed | src/action_list.cpp:247-258 | a run in which the one action is killed and the counter stays 0 |
| SchedulerRuns.StepMeasure | src/action_list.cpp:155-258 | every dispatch and the exit of the head lower the measure, only an append raises it, by 3 |
| SchedulerRuns.DispatchesBounded | src/action_list.cpp:155-258 | over a run, dispatches are bounded by the initial measure plus three for each append |
| SchedulerRuns.NeverStuck | src/action_list.cpp:131-258 | a queue that is not empty always has an event that is or becomes due and makes progress |
| SchedulerRuns.DrainsAlone | src/action_list.cpp:199-258 | from every state timely ticks and dispatches alone empty the queue, even if no child ever exits |
| SchedulerRuns.BoundedWait | src/action_list.cpp:199-201 | in a timely run, whatever the children do and even without SIGCHLD, each queued action is started and gone by the time the head's remaining budget and `timeout + 1` of the commands before it allow |
| SchedulerRuns.KilledOnTime | src/action_list.cpp:232-258 | in a timely run a started action is killed exactly one second after the deadline of its timer (which TimedFromStart counts from the start), iff its child was not reaped before; until then it stays at the head |
| SchedulerRuns.LostExit | src/process.cpp:157-167 | a reachable state in which a child has exited with code 0 and its action was killed |
| SchedulerRuns.PromptlyReaped | src/process.h:67-69 | if SIGCHLD is handled before time passes, a started action ends at the very time its child exits and with its status; it is killed only if the child has not exited before the kill is due |
| SchedulerInvariant.SignalsOwnChild | src/process.cpp:200-213 | whenever the timeout or the kill can be dispatched, the pid that is signalled is that of the head's own, unreaped child |
| ProcessList.LeftInOrder | src/process.cpp:263-304 | reaping leaves exactly the processes whose child did not exit, in their order, on lists of any length |
| ProcessList.CalledOnce | src/process.cpp:263-304 | the handler of each linked process is called once if its child exited, else not at all |
| ProcessList.CalledWithOwnStatus | src/process.cpp:285-300 | the call carries the status of that very child |
| ProcessList.List.Add | src/process.cpp:239-244 | adding at the head keeps the chain of nodes without a cycle |
| ProcessList.List.Remove | src/process.cpp:248-259 | a linked process is found and taken out, the other nodes stay in order |
| ProcessList.List.Seek | src/process.cpp:276-283 | the walk ends at the first process with the pid, or at the end |
| ProcessList.List.Detach | src/process.cpp:276-300 | the process is unlinked and loses its pid and handler, no other process changes |
| ProcessList.List.ReapAll | src/process.cpp:263-304 | over the linked nodes, for exits in any order and lists of any length, the reaping loop leaves `Left` and makes the calls `Calls`, of which the three lemmas above speak, and never an empty handler |
| Reaping.SigchldIsCalls | src/process.cpp:263-304 | for any order of the zombies, the callback of the state machine makes exactly the handler calls, and leaves exactly the list, of the loop over the nodes |
| Reaping.FindLinkIsFind | src/process.cpp:276-283 | both walks stop at the same node, on any list |
| Reaping.WithoutIsDrop | src/process.cpp:248-259 | both ways of unlinking take the same node out of any list |
| ProcessList.ProcessImpl.Destroy | src/process.cpp:111-117 | the destructor terminates the child iff there still is one; where the action list destroys a process there never is |
| ActionList.ActionQueue.Append | src/action_list.cpp:131-151 | `append` on the objects does what the state machine does |
| ActionList.ActionQueue.ExecuteNextAction | src/action_list.cpp:155-171 | so does `executeNextAction`, for any pid that fork may return |
| ActionList.ActionQueue.ExecuteFunction | src/action_list.cpp:206-219 | `executeFunction` ends the head, as a failure iff the function throws |
| ActionList.ActionQueue.StartChild | src/process.cpp:155-169 | `process::start` in the parent records pid and handler and links the process in front of all others |
| ActionList.ActionQueue.ExecuteProcess | src/action_list.cpp:175-202 | starting a command also arms its own timeout, counted from now |
| ActionList.ActionQueue.Complete | src/action_list.cpp:177-197 | the completion handler cancels both timers, raises failed iff the status is a signal or another code than 0, and pops the head |
| ActionList.ActionQueue.EndHead | src/action_list.cpp:223-228 | `finishExecuteAction` pops the head and activates `execEv` iff actions are left |
| ActionList.ActionQueue.TerminateCurrentAction | src/action_list.cpp:232-243 | `terminateCurrentAction`, whose asserts hold in every reachable state |
| ActionList.ActionQueue.KillCurrentAction | src/action_list.cpp:247-258 | `killCurrentAction`, with the process off the list before its item is destroyed |
| ActionList.ActionQueue.KillProcess | src/process.cpp:209-218 | `process::kill` clears pid and handler and takes the process off a list of any length |
| ActionList.ActionQueue.ReapOne | src/process.cpp:267-303 | one round reaps one zombie and does not change what reaping all comes to |
| ActionList.ActionQueue.OnSigchld | src/process.cpp:263-304 | the callback ends with no zombie left, in the state that every order of the zombies leads to |
| ActionList.ActionQueue.ChildExits | src/process.cpp:263-273 | the exit of a child between two callbacks keeps the objects valid, as the event of the state machine |
| ActionList.ActionQueue.TimePasses | src/action_list.cpp:199-201 | so does the passing of time |
| Routing.LookupMostSpecific | src/http_server.h:163-166 | the lookup yields a path iff it is the most specific registered one that is the request path or covers it as a directory, and none iff there is none |
| Routing.RegisterAllIff | src/http_server.cpp:211-222 | registration succeeds iff all paths are rooted and differ after normalisation, and then holds exactly the handlers given |
| Routing.RegisterIff | src/http_server.cpp:211-222 | which error a path is rejected with: not rooted first, then taken; else exactly one handler is added |
| Routing.NormaliseIff | src/http_server.cpp:216-217 | exactly one trailing slash is dropped if something is left |
| Routing.RegistrationOrder | src/http_server.cpp:211-222 | the result does not depend on the order of registration |
| Routing.Server.AddHandler | src/http_server.cpp:211-222 | `add_handler` adds one handler or reports which error, without a change |
| Routing.Server.FindHandler | src/http_server.cpp:448-471 | `findHandler` ends, and returns the handler of the most specific covering path |
| CommandLine.Trimmed | src/hook.cpp:61-70 | whitespace is taken off both ends and nothing else |
| CommandLine.TrimmedUnique | src/hook.cpp:61-70 | there is only one such string |
| CommandLine.TokensAreMaximalRuns | src/hook.cpp:234-256 | the tokens are exactly the maximal runs without space or tab, from left to right |
| CommandLine.SplitJoin | src/hook.cpp:234-256 | splitting joined tokens gives them back |
| CommandLine.SplitJoinSplit | src/hook.cpp:234-256 | normalising whitespace does not change how a command is split |
| CommandLine.CommandTokens | src/hook.cpp:95-96 | of a trimmed command that is not empty, program and arguments together are all its tokens |
| CommandLine.SplitCommand | src/hook.cpp:234-256 | the loop yields program and arguments, for any string |
| Environment.ListReadableIff | src/process.cpp:326-346 | a list can be read back from its entry iff no value contains a space |
| Environment.SpacedNamesMixUp | src/pipeline_hook.cpp:82 | two job names that read back as three |
| Environment.IdsReadBack | src/pipeline_hook.cpp:70-81 | the ids in the entry decode to the very same ids |
| Environment.DecimalValue | src/pipeline_hook.cpp:70 | a decimal number reads back and contains no space |
| Environment.DecimalIs | src/pipeline_hook.cpp:87 | it has digits only and no leading zero |
| Environment.Environment.SetList | src/process.cpp:326-346 | the loop writes `VAR=` and the values separated by spaces |
| Environment.Environment.SetVariable | src/process.cpp:313-322 | one entry `VAR=value` is added at the end |
| Hooks.EligibleInOrder | src/hook.cpp:142-164 | the hooks eligible before the body and those processed after it are the same: exactly those of the chain whose token and address match, each once and in its order |
| Hooks.AcceptIff | src/hook.cpp:124-151 | a request is accepted iff it posts to the very path and some hook of the chain admits its token and its peer |
| Answers.DecisionIff | src/hook.cpp:124-151 | for every request and chain, exactly when the handler throws, refuses with 405, 404, 401 or 403, or accepts; no refusal is a success |
| Answers.RefusedUnrouted | src/http_server.cpp:393-404 | an unknown method is answered with 405, and else a path that nothing registered covers with 404 |
| Answers.AnswerIff | src/hook.cpp:151-187 | for every body the code of the response: 400 for what is no JSON or has a project without URL, else 400 or 500 as the first hook that throws finds it, else 202 or 204 |
| Answers.InternalIff | src/hook.cpp:305-318 | 500 is for one case only: nothing is missing, but the project's URL has no server |
| Hooks.WalkInOrder | src/hook.cpp:162-171 | the scheduled jobs are, in the order of the chain, those of exactly the hooks that are eligible, accept the event and stand before any eligible one that throws |
| Hooks.WalkError | src/hook.cpp:162-186 | the walk fails iff some eligible hook throws |
| Hooks.WalkJobs | src/hook.cpp:162-171 | something is scheduled iff a hook accepts before any throws |
| Hooks.AcceptedMeansScheduled | src/hook.cpp:151-187 | whatever the body is, 202 is sent iff something was scheduled, exactly unless an eligible hook accepts the event and a later one finds it incomplete |
| Hooks.ScheduledButRefused | src/hook.cpp:177-181 | an event that schedules a job and is answered with 400 |
| Hooks.MatchesInOrder | src/pipeline_hook.cpp:61-72 | names and ids are two views of the builds that are wanted and succeeded, all of them, in the order of the event |
| Hooks.ProcessIff | src/pipeline_hook.cpp:49-93 | on which events a hook throws, by the members that are missing and the order in which they are read, and on which it schedules: all others are ignored |
| Hooks.ServerIff | src/hook.cpp:305-318 | the server can be taken from the URL iff it has a scheme and a path |
| Jobs.ServerIs | src/hook.cpp:305-318 | the server is the URL up to the first slash behind the first "://" |
| Jobs.EnvironmentReads | src/hook.cpp:264-272 | read as a process reads its environment, each of the nine project, server, commit and pipeline variables has the matching member of the payload, the tag is there iff the event has one, and the configured entries are exactly the rest |
| Jobs.CommandOfHook | src/hook.cpp:274-282 | the job has the name and the timeout of the hook, and its program and arguments are the tokens of the configured command |
| Jobs.FunctionOfHook | src/debug_hook.cpp:33-49 | the job of a debug hook is a function for the event and its text |
| Hooks.JobIdsArrive | src/pipeline_hook.cpp:61-82 | the first entry of the command's environment decodes to the ids of exactly the wanted builds, in the order of the event |
| Hooks.JobNamesArrive | src/pipeline_hook.cpp:61-82 | the second entry decodes to the names of exactly the wanted builds iff none contains a space; neither entry is ever the bare variable name |
| HookChain.CollectJobs | src/pipeline_hook.cpp:61-72 | the loop fills both lists index by index from the same builds |
| HookChain.ExecuteCommand | src/hook.cpp:260-290 | the loop and the settings build the environment that EnvironmentReads reads, and the command that CommandOfHook describes, or nothing is scheduled |
| HookChain.ProcessPipelineHook | src/pipeline_hook.cpp:49-93 | the filter that ProcessIff describes, and the environment that EnvironmentReads reads |
| HookChain.Hook.Chain | src/hook.cpp:116-120 | the other chain follows the hook, whose link was empty |
| HookChain.Hook.IsAllowed | src/hook.cpp:142-149 | the walk before the body allows a request iff some hook is eligible |
| HookChain.Hook.Receive | src/hook.cpp:124-151 | the checks and the walk over the chain come to the decision that DecisionIff describes |
| HookChain.Hook.Handle | src/hook.cpp:151-187 | the handler appends the jobs of the walk to the action list in chain order and returns the code |
| HookChain.Hook.WalkChain | src/hook.cpp:162-175 | the loop appends as it goes, also what precedes an exception |
| HookChain.AppendTwice | src/hook.cpp:162-171 | appending job by job is appending the concatenation |
| Requests.AddAllResult | src/http_server.cpp:564-585 | while the chunks fit, the content is their concatenation; stored content never exceeds the limit |
| Requests.DeliveredIff | src/http_server.cpp:427-444 | a body is delivered iff it is within the limit; then the handler runs once, on the concatenation of the chunks |
| Requests.OverlongFails | src/http_server.cpp:564-585 | a body that is answered with 413 and then fails the assert |
| Requests.OnlyForward | src/http_server.cpp:553-585 | over any chunks the stage never goes back, and content only grows, up to the limit |
| Requests.Request.AcceptBody | src/http_server.cpp:553-560 | `accept`, with its asserts on the method and the state |
| Requests.Request.Answer | src/http_server.cpp:599-611 | `respond_static`, whose assert is its precondition |
| Requests.Request.Add | src/http_server.cpp:564-585 | `addContent`, and when its assert fails |
| Setup.SetUpGroups | src/main.cpp:258-276 | every configured hook is in exactly one chain, with all others of its path and in configuration order, and exactly the heads are registered |
| Setup.SetUpIff | src/main.cpp:258-276 | the set-up succeeds iff no path occurs more than twice and the paths are registrable |
| Setup.ThreeHooksFail | src/hook.cpp:116-120 | the third hook of a path fails the assert |
| Setup.StopsAtIff | src/main.cpp:258-276 | why the set-up stops at a hook: the third of a path cannot be chained, the first cannot be registered if its path is not rooted, or taken |
| Setup.StatusReached | src/main.cpp:256 | the status page is always registered |
| Setup.ReachedIff | src/hook.cpp:135-136 | a request for the path of a chain reaches it unless the path ends in a slash and a hook with one more slash hides it |
| Setup.SlashHidden | src/http_server.cpp:211-222 | two hooks that the set-up accepts, of which the first cannot be reached |
| Program.FindSameHook | src/main.cpp:261-262 | the search from the end finds the chain of the path, if there is one |
| Program.ChainOnto | src/main.cpp:270-271 | chaining to the head extends that chain by one hook and touches no other |
| Program.AddConfigured | src/main.cpp:258-272 | one round of the loop on the objects adds one hook to the site, or fails as it does |
| Program.SetUpHooks | src/main.cpp:258-276 | the loop on the objects builds the chains and handlers of the site, or stops with its error |
| Program.NewRequest | src/http_server.cpp:393-423 | which requests are refused, answered or opened follows from the site alone: the hook that decides is the head of the chain of the most specific path |
| Program.FoundIsRouted | src/http_server.cpp:402-404 | the handler that is found is the one the site routes to |
| Program.CompleteRequest | src/http_server.cpp:427-444 | the handler runs on the stored content, its jobs are appended and its response is stored, iff the request was accepted |
| Program.ReplyIsConnect | src/http_server.cpp:393-423 | `newRequest` over the objects opens a request exactly when the daemon opens a connection, with the same chain and message |
| Program.FinishConnection | src/http_server.cpp:427-444 | the end of a body over the objects does to the action list, and aborts, exactly as the daemon's step does |
| Daemon.StopsIff | src/http_server.cpp:364-444 | an event stops the program iff it is more data or the end of an overlong body; the action list never does |
| Daemon.RunStopsIff | src/http_server.cpp:364-444 | a run stops iff it contains such an event |
| Daemon.RunsOn | src/http_server.cpp:364-444 | a run in which no body exceeds the limit never stops |
| Daemon.EndToEndOrder | src/hook.cpp:151-175 | at any moment the started jobs followed by the waiting ones are those of the completed requests in order of completion, one at a time, and only of requests that were authorised |
| Daemon.ConfigurationOrder | README.md:176-179 | the same for a program set up from a configuration: each request was handled by all hooks configured for its path, in the order of the configuration |
| Daemon.FinishResult | src/http_server.cpp:427-444 | finishing an open request schedules the jobs for the concatenation of all its chunks, or stops the program if that is over the limit |
| Daemon.StartedWasAskedFor | src/hook.cpp:142-175 | every action ever started is the job of a hook, configured for the very path of a completed request, whose token and address match it, made from that request's whole body |
| Daemon.StatusPageConsistent | src/main.cpp:194-198 | good requests never exceed requests, so the subtraction does not underflow, and failed <= executed <= scheduled |
| History.RequestsCounted | src/main.cpp:194-195 | over every run, counted by its events: requests is the number of those that reached a chain, refused or not, good ones are those whose body ended, and their difference is refused, closed and open |
| History.CompletedAsSent | src/http_server.cpp:364-444 | over every run, a handler gets the request that began last on its connection and all that was sent since, in order |
| Daemon.EitherCanFinishFirst | src/http_server.cpp:427-444 | of any two open requests within the limit either one may be finished first, and is then completed first |
| Arrivals.CommandOrderIff | README.md:176-179 | over any run, commands are scheduled and started in the order in which their requests were accepted iff no request that schedules something is finished while an earlier one is open that is finished later and schedules something then |
| Arrivals.ArrivalOfJob | README.md:176-179 | the arrivals in that order are, job by job, those of the requests that scheduled the jobs |
| Arrivals.ArrivalOrderIff | src/http_server.cpp:427-444 | over any run, requests are completed in the order in which they were accepted iff none is finished while an earlier one is open that is finished later |
| Arrivals.SecondComesFirst | README.md:176-179 | a run from the start, of a program set up from a configuration, in which the request accepted first has its job started second |
| Waiting.Projects | src/http_server.cpp:364-444 | a run of the program is a run of its action list: finishing a request appends its jobs, all else of the connections leaves it alone |
| Waiting.ProgramWaits | src/action_list.cpp:199-201 | in a punctual run of the program every queued action is started and gone in time, whatever the connections do |
| Waiting.ProgramKills | src/action_list.cpp:232-258 | and is killed exactly a second after the deadline of its timer, iff its child was not reaped before |
| Waiting.ProgramKillsFromStart | src/action_list.cpp:199-258 | that is when its own timeout and one second more have passed since its start |
| Waiting.ProgramDrains | src/action_list.cpp:131-258 | from every state of the program, timers alone empty the action list |

## Left out

- Teardown of the action list, the reload on a signal, and the polling in `~impl`: only runs while the action list lives are modelled.
- The child's side of `process::start` and `user_group`: foreign calls.
- The configuration file, JSON parsing, `inet_ntop`, `string_set_from` and the constructors of the hooks: hooks, payloads and addresses are typed values here. `CI_PROJECT_ID` arrives as text.
- Where the SIGTERM and SIGKILL go: a child may end at any time with any status, signalled or not.
- A failing `waitid`, `fork` or response: they end the program or the callback.
- `outcome::stop`: no hook returns it.
- libevent, libmicrohttpd, TLS, limits on connections, the watchdog, logging, and the HTML of the status page.
- Handlers other than those of hooks and the status page, which do not occur.
- `lastFailure`: the time stamp is not modelled.
- The static counters of requests are fields of the daemon's state, not of the classes; those of the action list are fields of the `ActionQueue`.
- Daemon.StopsIff: the daemon is a state machine over values; `Program` has set-up, `newRequest` and `completeRequest` over objects, each tied to the daemon's step, but there is no class that holds all connections.
- ProcessList.ProcessImpl.Destroy: that the destructor sends SIGTERM and polls for the exit is only a result here, because it never happens while the action list lives.
- ActionList.ActionQueue.OnSigchld: the inner loop is a method of its own, and the pointer to a pointer of the source is a pair of the previous and the current node.
