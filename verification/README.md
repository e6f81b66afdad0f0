# Verified model of the ambassador-agent

The agent watches a Kubernetes cluster, reports snapshots to a cloud service (the Director), and carries
out directives the Director streams back. This project models the parts of it that hold state or follow a
protocol, and proves what every run of them keeps.

| file | what it models |
|---|---|
| `Prelude.dfy` | options, results, the greater of two durations |
| `Runs.dfy` | runs of any transition system: extending, splitting, and the states around a transition |
| `Directives.dfy` | a directive, the reporting period it asks for (with int64 wrap-around), and the executions its commands lead to |
| `ReportingLoop.dfy` | the watch loop and its sender goroutines as one transition system |
| `ReportingRuns.dfy` | the invariant of every interleaving |
| `ReportingTheorems.dfy` | what follows over whole runs: no overlap, no duplicates, rate limit, connection ownership, stopping, nil comms |
| `ReportingHistory.dfy` | every field of the agent told from the labels of its run: what a launch and a dial capture, the gates of a pass, the rate limit by the clock |
| `Agent.dfy`, `DirectiveHandler.dfy`, `Watch.dfy` | the agent object, its directive handler and the loop body as imperative code, proved to be runs of the transition system |
| `Rollouts.dfy` | pausing, resuming and aborting Argo rollouts |
| `DirectiveOnCluster.dfy` | directives whose commands act on the secrets of `Secrets.dfy` and the rollouts of `Rollouts.dfy` |
| `ArgoWatch.dfy` | the supervisor that starts and stops the Argo watchers |
| `Callbacks.dfy` | delivery of informer callbacks and closing of channels under one lock |
| `ArgoDelivery.dfy` | the supervisor and the client its watches share, as one transition system |
| `ArgoStores.dfy` | the event-driven view of the cluster's rollouts and applications |
| `ApiDocs.dfy` | the cache of API documents |
| `ServerPath.dfy` | the path under which an API document is published |
| `JsonPatch.dfy`, `Secrets.dfy` | secret synchronisation, against RFC 6902 |
| `Comm.dfy` | chunked streaming |
| `Retrieval.dfy` | the directive pipeline and the wake-up channel |
| `RetrievalScript.dfy`, `Retriever.dfy` | what the retriever has to do when it meets a given script, and its goroutine, proved to do that |

`dafny verify dfyconfig.toml` checks everything.

## How the model reads the code

- Goroutines are transition systems: a state, labels, `Enabled` and `Next`, and `Exec` for runs. The
  classes beside them are the code itself; their methods extend a ghost run and prove that it is one, so
  the theorems about runs hold of the objects. Whatever other goroutines do between two statements is an
  input of the method.
- Go's map iteration order is the arbitrary choice `:|`, so every result holds for every order.
- Pointers to reports, connections and watchers are positions in a history that only grows.
- Times and durations are integers in nanoseconds. A duration the code computes is an int64 and wraps.
- Dereferencing a nil comm is a state of its own, `Crashed`, after which nothing happens.
- The package documentation says that the loop learns of a finished RPC from a channel
  (pkg/agent/doc.go:119-130). The code clears a flag that the loop polls, and the model follows it.
- Base64 is a constructor, hence injective. A secret's JSON document has no `data` member when its data is
  empty, as the API server serialises it.

## What turned out false, and when it holds

- *A directive is always handled with a live comm.* Not after the key is lost: a directive already in the
  channel of the closed comm crashes the agent (`DrainedDirectiveCrashes`). It crashes exactly when the
  directive makes the agent report and the connection it came from has been closed
  (`DirectiveFromClosedComm`); the same goes for a sender scheduled late (`LateSenderCrashes`,
  `LateRead`). From any state on, with a key that no longer changes, a crash is still possible if and only
  if there is no comm and either a launched sender has not started or a channel is left to take directives
  from (`MayCrashExactly`); an agent whose key has never changed is therefore safe
  (`StableKeyNeverCrashes`).
- *The honoured report period is the requested one, raised to the floor.* Not when the conversion wraps;
  `PeriodHonouredExactly` gives the exact condition.
- *SET is idempotent.* Not for an empty command: it creates an empty secret and deletes one
  (`SetIdempotent`). *SET then DELETE restores the cluster* holds exactly under the condition of
  `SetThenDelete`.
- *A command that fails leaves the cluster alone.* Not a RESUME whose first patch worked and whose second
  did not: it has unpaused the rollout (`FailureLeavesExactly`).
- *A watch that is running delivers its callbacks.* The watches of one client share the `done` flag, so
  closing one silences them all (`OneCloseSilencesAll`, with a run in `RunningWatchSilenced`). argoWatch
  uses one client for both resources: for a given history of discoveries, some run starves a watch that
  should be running if and only if a round missed a resource that the round before it had listed and the
  last round lists one (`StarvedExactly`). The store fed by that watch then stays stale for good
  (`StaleForGood`); while no resource disappears, every watch delivers (`EveryWatchDelivers`).
- *The document's own server path is part of the published path.* Not when it ends the prefix as a string,
  unless it leads back to where the prefix leads (`FullPathExactly`). This is harmless when it ends the
  prefix segment by segment, and loses the path when it does not, as `v1` in `/myv1` (`RelativePathLost`,
  `ExistingPathKeptExactly`).
- *A report is sent only when it differs from the one before* (pkg/agent/doc.go:141-142). For every sequence
  of reports, equal ones next to each other included, there is a run that sends exactly these
  (`AnyReportsAreSent`).
- *No connection is made without an identity* (pkg/agent/doc.go:176-178). One is (`AnonymousDial`), if and
  only if no snapshot processed before it was identified (`DialledAnonymouslyExactly`).

## Model

| member | source | states |
|---|---|---|
| Directives.PeriodHonouredExactly | pkg/agent/directive_handler.go:36-45 | the period set is at least the floor, and is the requested period raised to the floor if and only if the request fits an int64 or lies a whole number of int64 ranges below a duration at most the floor |
| Directives.OverflowingPeriod | pkg/agent/directive_handler.go:39-43 | a request for which it is not |
| Directives.ConversionIsCongruent | pkg/agent/directive_handler.go:39-43 | what a request is converted to is the one int64 a whole number of int64 ranges away from it |
| Directives.EnvReportPeriod | pkg/agent/env.go:76-85 | the initial period is at least thirty seconds, and is the configured one if that is |
| Directives.PlannedAtExact | pkg/agent/directive_handler.go:47-57 | the executable commands are found at exactly their positions, once each and in order |
| Directives.OneResultPerCommand | pkg/agent/directive_handler.go:47-162 | for any command list, one result per executable command, in order, with its ID, successful if and only if its run from the state the earlier ones left returned no error |
| ReportingRuns.InvStep | pkg/agent/agent.go:495-640 | every transition of the loop, of a sender or of the clock keeps the whole invariant |
| ReportingRuns.InvRun | pkg/agent/agent.go:495-640 | and so does every run, whatever the interleaving |
| ReportingTheorems.FlagAtLoopHead | pkg/agent/agent.go:518-640 | at each loop head of every run the flag is set if and only if exactly one sender is sending or sleeping, otherwise none is, and nothing waits to be sent while it is set |
| ReportingTheorems.NoOverlap | pkg/agent/agent.go:566-640 | at no point of any run are two snapshot RPCs in progress |
| ReportingTheorems.LaunchIsLatest | pkg/agent/agent.go:613-640 | every sender is launched with the newest report produced, the key in force, which is not empty, and an open comm dialled with that key |
| ReportingTheorems.SentOnceInOrder | pkg/agent/agent.go:613-640 | any two RPCs of a run carry different reports, the later RPC the newer report |
| ReportingTheorems.RateLimit | pkg/agent/agent.go:613-640 | every delay captured at a launch is at least the configured floor, and each RPC starts no earlier than the end of every earlier one plus the delay captured for that one |
| ReportingTheorems.Ownership | pkg/agent/agent.go:543-564 | in every run the only open connection is the agent's comm, dialled with the key in force, and directives come from it |
| ReportingTheorems.ClosedOnlyByNewKey | pkg/agent/agent.go:272-318 | a connection is closed if and only if it is the comm and a configuration event resolves to another key |
| ReportingTheorems.StopIsForever | pkg/agent/agent.go:495-567 | after a directive with the stop flag, no continuation is ever again about to take a snapshot, and none changes what waits to be sent or launches a sender |
| ReportingTheorems.AtMostOneFinishesAfterStop | pkg/agent/agent.go:495-640 | after the stop at most one RPC finishes, that of the last sender launched before it |
| ReportingTheorems.LateRead | pkg/agent/agent.go:620-621 | a sender uses the connection it was launched for if and only if that is still open, and finds nil if and only if every connection is closed |
| ReportingTheorems.DirectiveFromClosedComm | pkg/agent/agent.go:510-511 | handling a directive dereferences nil if and only if it makes the agent report and its connection has been closed |
| ReportingTheorems.MayCrashExactly | pkg/agent/agent.go:495-640 | from any state the invariant allows, a continuation under an unchanging key can dereference a nil comm if and only if there is no comm and either a launched sender has not started or a channel is left to take directives from |
| ReportingTheorems.StableKeyNeverCrashes | pkg/agent/agent.go:495-640 | a run in which the key never changes never dereferences a nil comm, nor loses one |
| ReportingTheorems.DrainedDirectiveCrashes | pkg/agent/agent.go:510-511 | a run in which a directive left in a closed comm's channel does |
| ReportingTheorems.LateSenderCrashes | pkg/agent/agent.go:620-621 | a run in which a sender scheduled after the key was removed does |
| ReportingTheorems.AnyReportsAreSent | pkg/agent/agent.go:518-640 | any sequence of reports, equal neighbours included, is what some run sends |
| ReportingHistory.DialledAnonymouslyExactly | pkg/agent/agent.go:549-562 | a connection is dialled without an identity if and only if no snapshot processed before was identified |
| ReportingTheorems.AnonymousDial | pkg/agent/agent.go:549-562 | a run that dials without an identity |
| ReportingHistory.ControlIsHistory | pkg/agent/agent.go:261-318 | in every run the period, the key and the stop flag are what the directives and configuration events so far make them: the last period asked for as honoured, the key of the last secret, config map or environment, and stopped if and only if a directive said so |
| ReportingHistory.RecordIsHistory | pkg/agent/agent.go:687-751 | in every run the identity and the snapshot kept are the latest found, the reports produced are those of the processable snapshots in order, there is a sender per launch, and time is what has elapsed |
| ReportingHistory.LoopIsHistory | pkg/agent/agent.go:495-512 | the last directive is remembered by its ID, and the loop has ended if and only if the context was cancelled; then only senders and the clock go on |
| ReportingHistory.LaunchCaptures | pkg/agent/agent.go:613-640 | the sender launched at any position of a run carries, for good, the period and the key in force and the newest report made, as told from the labels before that position |
| ReportingHistory.DialCaptures | pkg/agent/agent.go:549-562 | a connection is dialled with the key in force and the latest identity found, and directives come from it |
| ReportingHistory.GatesExactly | pkg/agent/agent.go:518-583 | a pass takes a snapshot, and launches a sender, if and only if no directive has asked to stop and every sender has finished, the launch also needing a report not yet launched; it goes on if and only if the key in force is not empty |
| ReportingHistory.RateLimitByClock | pkg/agent/agent.go:613-640 | by the clock of the run, from the end of an RPC to the start of any later one at least the delay passes that was in force at the launch of the first |
| AgentObject.Agent.constructor | pkg/agent/agent.go:113-156 | a new agent is an initial state, with the default floor |
| AgentObject.Agent.ClearComm | pkg/agent/agent.go:790-795 | closes the comm, if any, and forgets it |
| AgentObject.Agent.HandleAPIKeyConfigChange | pkg/agent/agent.go:261-318 | the key comes from the secret, else the config map, else the environment, and a new key clears the comm |
| AgentObject.Agent.ProcessSnapshot | pkg/agent/agent.go:687-751 | what each outcome of processing leaves in the agent, the identity included, and when it is an error |
| AgentObject.Agent.EnsureComm | pkg/agent/agent.go:549-564 | keeps a comm, or dials one with the key in force and takes its directives, or gives the pass up |
| AgentObject.Agent.ReportSnapshot | pkg/agent/agent.go:613-640 | setting the flag, launching and forgetting are transitions of the system, with other goroutines in between, and the one sender launched carries the period, key and report the agent had when called |
| DirectiveHandler.BasicDirectiveHandler.HandleDirective | pkg/agent/directive_handler.go:22-60 | flow control reaches the agent, the commands are run with one result each, the ID is recorded; without a comm exactly the first executable command is run and nothing is reported or recorded |
| DirectiveHandler.BasicDirectiveHandler.HandleSecretSyncCommand | pkg/agent/directive_handler.go:62-106 | a malformed secret command, or one without a factory, does nothing; another is run once and reported |
| DirectiveHandler.BasicDirectiveHandler.HandleRolloutCommand | pkg/agent/directive_handler.go:108-147 | the same for rollout commands |
| DirectiveHandler.BasicDirectiveHandler.ReportCommandResult | pkg/agent/directive_handler.go:149-162 | the result carries the command's ID and its error, if any, and a nil comm is a crash |
| Watch.WatchPass | pkg/agent/agent.go:495-591 | one pass of the loop body, with anything happening in its gaps, is a run of the transition system on the pass's own inputs that ends at the loop head |
| Watch.WatchLoop | pkg/agent/agent.go:487-592 | any number of passes is a run that goes all the way through each of them in turn, but for directives offered before any connection was dialled, so the agent ends in a state satisfying the invariant, and it stops early only when it has returned or crashed |
| Rollouts.RolloutsGetter.PatchRollout | pkg/agent/rollouts.go:57-93 | the patches of each action do to the rollout what the patch-free specification says, for every combination of refused calls |
| Rollouts.RolloutsGetter.ApplyStatusPatch | pkg/agent/rollouts.go:110-130 | works on an existing rollout unless the status patch is refused, or not found and the plain patch refused |
| Rollouts.ActsExactly | pkg/agent/rollouts.go:50-93 | no other rollout changes, and one that works leaves its rollout paused after PAUSE, neither paused nor aborted after RESUME, aborted after ABORT |
| Rollouts.SucceedsExactly | pkg/agent/rollouts.go:42-93 | a command works if and only if its action is known, the rollout exists, and none of the calls it needs is refused |
| Rollouts.FailureLeavesExactly | pkg/agent/rollouts.go:62-66 | a failed command leaves the cluster alone, except that a RESUME whose second patch failed has unpaused a paused rollout |
| Rollouts.PauseThenResume | pkg/agent/rollouts.go:62-70 | PAUSE then RESUME restores the cluster if and only if the rollout was neither paused nor aborted |
| DirectiveOnCluster.RolloutCommandActs | pkg/agent/directive_handler.go:108-147 | a well-formed rollout command pauses (0), resumes (1) or aborts (2) exactly the rollout it names, changes nothing else, and reports once, successfully if and only if that rollout exists and the number is one of these |
| DirectiveOnCluster.MalformedRolloutDoesNothing | pkg/agent/directive_handler.go:47-57 | a malformed rollout command, or one without a factory, changes and reports nothing, even with a secret command beside it |
| DirectiveOnCluster.SecretCommandActs | pkg/agent/directive_handler.go:62-106 | a well-formed secret command sets (0) or deletes (1) in exactly the secret it names, and reports once, successfully if and only if the secret is missing, the command sets, or it deletes keys that are there |
| DirectiveOnCluster.MalformedSecretDoesNothing | pkg/agent/directive_handler.go:62-92 | a malformed secret command, one without a factory, or a command that is neither, changes and reports nothing |
| DirectiveOnCluster.RunInTurn | pkg/agent/directive_handler.go:47-57 | a list of commands does what its first part and then its second part do, each in the world the earlier commands left |
| DirectiveOnCluster.OtherRolloutsUntouched | pkg/agent/directive_handler.go:47-147 | a directive, with any commands and any faults, leaves alone every rollout its executable rollout commands do not name |
| DirectiveOnCluster.OtherSecretsUntouched | pkg/agent/directive_handler.go:47-106 | a directive, with any commands and any faults, leaves alone every secret its executable secret commands do not name |
| DirectiveOnCluster.SetThenDeleteInOneDirective | pkg/agent/directive_handler.go:47-106 | SET then DELETE of the same keys in one directive reports two successes, and restores the cluster if and only if the secret was absent or had data and none of the keys |
| ArgoWatch.HasResource | pkg/agent/agent.go:335-348 | true if and only if some list of the group version names the resource |
| ArgoWatch.Supervisor.Round | pkg/agent/agent.go:376-410 | after a round each resource has one running watcher if it is listed and none if not, a running one is kept, and the long wait is used if and only if both are listed |
| ArgoWatch.Supervisor.ArgoWatch | pkg/agent/agent.go:350-418 | for any sequence of discoveries a watcher was started each time its resource appeared, the waits are right, and no watcher is left running at the end |
| Callbacks.NeverSendsOnClosed | pkg/agent/k8s.go:87-106 | in every run a handler that sends, or waits to, has an open channel, which no next transition closes |
| Callbacks.ClosedAtMostOnce | pkg/agent/k8s.go:99-106 | no channel is closed twice, and none before its context ends |
| Callbacks.DeliveredIsPrefix | pkg/agent/k8s.go:87-138 | what a watch delivered is a prefix of what its informer emitted, complete but for the one in hand until some watch closes |
| Callbacks.DeliversExactlyBeforeAnyClose | pkg/agent/k8s.go:87-94 | a handler goes on to deliver if and only if no watch of the client has begun to close |
| Callbacks.OneCloseSilencesAll | pkg/agent/k8s.go:87-106 | the flag never goes back, and from then on no watch, old or new, delivers anything |
| Callbacks.RunningWatchSilenced | pkg/agent/k8s.go:87-106 | a run in which a watch that was never cancelled loses a callback because another was closed |
| Callbacks.DynamicClient.HandleEvent | pkg/agent/k8s.go:87-136 | with other goroutines between any two of its steps, a handler's work is a run of the transition system that delivers its callback if and only if no watch had begun to close when it checked; it is kept waiting only by a lock that is taken, and undisturbed it delivers if and only if the client is not done |
| Callbacks.DynamicClient.EndWatch | pkg/agent/k8s.go:100-106 | with other goroutines between any two of its steps, ending a watch is a run that closes its channel once, after cancellation and after marking the client; it is put off only while there is no cancellation or the lock is taken |
| ArgoDelivery.EveryWatchDelivers | pkg/agent/agent.go:350-418 | while no discovery misses a resource the one before it listed, no watch of the client loses a callback |
| ArgoDelivery.StarvedExactly | pkg/agent/agent.go:350-418 | for any history of discoveries, a watch that should be running can lose callbacks if and only if some round missed a resource the round before it listed and the last round lists one |
| ArgoDelivery.StaleForGood | pkg/agent/agent.go:350-418 | such a history has a run after which the running watch has lost everything emitted, and delivers nothing in any continuation |
| ArgoStores.ArgoStore.FromCallback | pkg/agent/argo.go:105-123 | seeds once from an understood listing, then follows each event and records its delta; a rejected callback changes nothing |
| ArgoStores.ToUnstructuredMap | pkg/agent/argo.go:125-135 | the listing by UID, later entries winning, or an error if an entry is not an unstructured object |
| ArgoStores.ArgoStore.StateOfWorld | pkg/agent/argo.go:96-102 | every object of the store, once |
| ArgoStores.WatchCallbacks | pkg/agent/agent.go:420-466 | the goroutine's store is what its callbacks amount to; the agent's field keeps an earlier watch's store until the first callback, and then points at the new one if and only if that has been seeded |
| ArgoStores.WatchedIsReplay | pkg/agent/argo.go:105-135 | the store replays every event from the first callback with a good listing on top of that listing, and its deltas are those events in order |
| ArgoStores.DeltasAreEvents | pkg/agent/argo.go:137-164 | from the first good listing on each delta says of its event's object whether it was added, updated or deleted, with the object's version, kind, name, namespace and time |
| ArgoStores.FinalContents | pkg/agent/argo.go:105-123 | the store ends with an object under a UID if and only if the last event about it was no deletion, and then with that event's object |
| ArgoStores.Convergence | pkg/agent/argo.go:105-135 | with each listing taken at or after its event, the store ends with exactly the informer's final cache, if some listing was good, and with nothing otherwise |
| ApiDocs.DocsDiffCalculator.NewRound | pkg/agent/api_docs.go:464-476 | lists exactly the previous UIDs missing from the current round, once each, and moves the generations on |
| ApiDocs.DocsDiffCalculator.DeleteOld | pkg/agent/api_docs.go:487-492 | deletes exactly those from the store |
| ApiDocs.InMemoryStore.DeleteRefUID | pkg/agent/api_docs.go:520-529 | removes the entry of the UID and no other |
| ApiDocs.InMemoryStore.GetAll | pkg/agent/api_docs.go:531-540 | every entry, once |
| ApiDocs.APIDocsStore.Scrape | pkg/agent/api_docs.go:119-178 | a scrape keeps what is still listed and overwrites what was fetched, whatever the generations held |
| ApiDocs.APIDocsStore.ProcessSnapshot | pkg/agent/api_docs.go:56-85 | asks for a scrape if and only if there is something to do and a minute has passed; at once if the store is empty, in the background otherwise |
| ApiDocs.APIDocsStore.ProcessSnapshots | pkg/agent/api_docs.go:56-178 | over any sequence of snapshots the store object holds what the history of its scraped rounds amounts to, scrapes are asked for at least a minute apart, and a snapshot is skipped only within that minute or with nothing stored and nothing to fetch |
| ApiDocs.GenerationsAreRestriction | pkg/agent/api_docs.go:119-178 | deleting by two generations of UIDs is the same as keeping only the UIDs of the round, and keeps the store's keys within them |
| ApiDocs.HeldExactly | pkg/agent/api_docs.go:119-178 | over any history of rounds the store holds a mapping if and only if some round of its current unbroken streak of presence fetched it |
| ApiDocs.LastSuccessExactly | pkg/agent/api_docs.go:157-176 | what a round stores for a mapping is, byte for byte and under its reference, the fetched document that no later one of the round replaces |
| ApiDocs.HeldIsLatest | pkg/agent/api_docs.go:119-178 | over any history of rounds the document held is, byte for byte and under its reference, the last one fetched in the latest round of that streak that fetched it |
| ApiDocs.SkippingIsHarmless | pkg/agent/api_docs.go:60-65 | a round skipped for an empty store and no mappings would have changed nothing, then or in any later round |
| ServerPath.TrailingSlashesIgnored | pkg/agent/api_docs.go:279-290 | for a non-empty prefix, slashes added to the prefix or to the existing path do not change the published path |
| ServerPath.TrailingSlashesMatterExactly | pkg/agent/api_docs.go:279-293 | slashes added to the existing path leave the published path unchanged if and only if the prefix is non-empty or none was added |
| ServerPath.PublishedOtherwise | pkg/agent/api_docs.go:279-293 | without a prefix the document's own path is published as it is, and without keepExistingPrefix it is not looked at |
| ServerPath.CleanIsResolved | pkg/agent/api_docs.go:287-289 | cleaning keeps the root and leaves plain names, with double dots only at the start of an unrooted path |
| ServerPath.DoubleDotTakesBack | pkg/agent/api_docs.go:287-289 | a double dot takes back the segment before it |
| ServerPath.CleanIdempotent | pkg/agent/api_docs.go:287-289 | cleaning a path twice is cleaning it once |
| ServerPath.PublishedIsClean | pkg/agent/api_docs.go:279-290 | with a prefix the published path is non-empty and clean |
| ServerPath.ExistingPathKeptExactly | pkg/agent/api_docs.go:283-289 | on paths without dots, the published path ends with the segments of the document's own path if and only if that path is not a string suffix of the prefix or is one that begins at a segment |
| ServerPath.FullPathExactly | pkg/agent/api_docs.go:283-289 | for all paths, what is published is the join of all three if and only if the document's own path is not a string suffix of the prefix or leads back to where the prefix leads |
| ServerPath.NamedPathLostExactly | pkg/agent/api_docs.go:283-289 | without double dots and with a name in it, the document's own path is left out if and only if it is a string suffix of the prefix |
| ServerPath.RelativePathLost | pkg/agent/api_docs.go:283-289 | a relative path that is left out by accident |
| JsonPatch.AddAll | pkg/agent/secrets.go:74-81 | additions to an existing object, in any order, always apply and override it |
| JsonPatch.RemoveAll | pkg/agent/secrets.go:67-73 | removals, in any order, apply if and only if every key is there, and then remove exactly those |
| Secrets.GetOps | pkg/agent/secrets.go:56-88 | the root if asked, then one operation per key in some order, or an error for an unsupported action |
| Secrets.SetOverrides | pkg/agent/secrets.go:56-89 | for every order of the keys, SET on an existing secret gives its data overridden by the command's |
| Secrets.DeleteRemovesExactly | pkg/agent/secrets.go:56-89 | for every order of the keys, DELETE removes exactly the named keys if all are present and fails as a whole otherwise |
| Secrets.RootNeededWhenEmpty | pkg/agent/secrets.go:58-65 | without the root, a patch of an empty secret that names a key fails |
| Secrets.RootHarmfulOtherwise | pkg/agent/secrets.go:58-65 | with the root, every other key is lost |
| Secrets.Cluster.SyncSecret | pkg/agent/secrets.go:90-145 | the get, create, patch and delete protocol does to the cluster what the patch-free specification says, for every combination of refused calls: which calls fail, with which error, and what is left behind |
| Secrets.Cluster.Run | pkg/agent/secrets.go:45-54 | the same, or the factory's error |
| Secrets.SucceedsExactly | pkg/agent/secrets.go:45-145 | a command works if and only if it is supported or the secret missing, deletes only keys that are there, and no call it needs is refused |
| Secrets.SetGives | pkg/agent/secrets.go:90-118 | key by key, SET creates a missing secret as an opaque one with its data, and in an existing one changes exactly the named keys |
| Secrets.DeleteLeavesTheRest | pkg/agent/secrets.go:120-144 | DELETE leaves exactly the other keys, unchanged, and removes the secret if and only if there are none |
| Secrets.SetThenDelete | pkg/agent/secrets.go:90-145 | SET then DELETE of the same keys restores the cluster if and only if the secret was absent or had data and none of the keys |
| Secrets.SetIdempotent | pkg/agent/secrets.go:90-145 | SET twice is SET once if and only if the command names a key or the secret has data |
| Comm.ChunksRoundTrip | pkg/agent/comm.go:197-209 | the chunks concatenate to the data, none is empty or too long, and all but the last are full |
| Comm.ChunksCount | pkg/agent/comm.go:185-188 | their number is the logged one |
| Comm.ChunksUnique | pkg/agent/comm.go:197-209 | no other list of well-sized chunks concatenates to the same data |
| Comm.RPCComm.SendChunks | pkg/agent/comm.go:196-209 | the loop sends exactly the chunks, or on an error exactly those before the one that failed |
| Comm.RPCComm.Report | pkg/agent/comm.go:171-216 | wakes the retriever in any case, and returns the error of the step that failed; StreamDiagnostics (lines 240-285) has the same body |
| Retrieval.Conservation | pkg/agent/comm.go:120-155 | in every run consumed, buffered, held and dropped directives are in order what the streams delivered, at most one being dropped, and only on cancellation |
| Retrieval.ConsumedIsPrefix | pkg/agent/comm.go:137-155 | the agent sees a prefix of what was sent, and without cancellation the rest is buffered or in hand |
| Retrieval.WakeIffReported | pkg/agent/comm.go:120-135 | the wake-up channel is full if and only if a report has been made since the last restart |
| Retrieval.RestartExactlyWhenReported | pkg/agent/comm.go:120-135 | a parked retriever can restart if and only if a report has been made since its last restart |
| Retrieval.AttemptsBounded | pkg/agent/comm.go:120-141 | Retrieve is called at most once more than reports are made |
| RetrievalScript.OpensExactly | pkg/agent/comm.go:120-141 | Retrieve is attempted at the start and after each restart, and opens a stream if and only if the call succeeds and no cancellation has come |
| RetrievalScript.ReceivesExactly | pkg/agent/comm.go:143-147 | a directive is received if and only if a stream is open, none is held and the Director sends one, and it is that one; otherwise the stream ends |
| RetrievalScript.ForwardsExactly | pkg/agent/comm.go:149-153 | a held directive waits if and only if the agent has not taken the previous one and there is no cancellation |
| RetrievalScript.RestartsExactly | pkg/agent/comm.go:128-133 | a parked retriever waits if and only if there has been no report since its last restart and no cancellation |
| RetrieverObject.Retriever.RetrieveLoop | pkg/agent/comm.go:120-155 | on any script of what it meets, the goroutine's steps are exactly the ones due, what it receives is what those steps heard, its nested loops are a run of the transition system, and it ends early only by exiting after a cancellation |

## Left out

- Watch.WatchPass: does not model the diagnostics sender at the end of a pass, whose flag, launch, sleep and clearing repeat the snapshot sender's protocol on fields of their own.
- Watch.WatchLoop: does not model the diagnostics sender either, nor the wait for a first API key; the loop may start with any key.
- ReportingTheorems.MayCrashExactly: a diagnostics sender also reads the comm late, so with diagnostics one that has not started would expose the agent as a snapshot sender does.
- ReportingHistory.DialledAnonymouslyExactly: the identity is also set by diagnostics, which are only collected once there is a connection.
- ReportingLoop: endpoint events and the choice between emissary's snapshot and the agent's own only decide what snapshot is processed, so they are ticks here.
- Agent fields are written only by the watch goroutine; the mutex around currentSnapshot serves readers in pkg/agent/service.go that are not part of this model.
- ArgoDelivery: a discovery under way when the context ends may still start watches, with their context already over; the model returns at once.
- Leader election in cmd/main.go: one watch loop at a time is assumed.
- ApiDocs.APIDocsStore.ProcessSnapshots: a background scrape finishes before the next call that could start another; background scrapes that overlap are not modelled.
- Filtering mappings, building document URLs, fetching and parsing documents: their results are inputs.
- ServerPath: a document whose server list is empty but not nil, and the escaping of URLs, are not modelled; path.Clean is given on segment lists.
- ArgoStores.Convergence: each event is about one UID; an object replaced under the same name by one with another UID in a single update is assumed not to happen, and every callback carries an object.
- Readers of the Argo stores take no lock against the goroutine that writes them; the model has no such readers.
- Callbacks: whether a handler blocked on a channel nobody reads ever returns is not stated, because the code does not guarantee it.
- Retrieval: Retrieve on a cancelled context is assumed to fail; directives that stay in the channel of a comm the agent has dropped are those of `DrainedDirectiveCrashes`.
- The cluster-domain lookup, ingress resolution, the resource watchers and metrics streaming: short conversions and filters.
- Rollouts: a rollout's other fields and what the Argo controller makes of a patch; nobody else patches between the two patches of a RESUME.
- Secrets: keys need no escaping in a JSON pointer, as valid Kubernetes keys do not, and nobody else writes the secret between the read and the patch.
- Comm: a message is serialised before Send returns, so reusing the message between chunks is harmless; the model sends the chunk by value.
