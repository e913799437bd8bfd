# Model of an LLM serving cluster, verified in Dafny

The repository serves language models from a cluster. A **head** keeps the cluster's
state and publishes routing tables; a **scheduler** on every worker node launches
replica processes and reports their health; a C++ **HTTP proxy** balances requests
over the replicas and streams their tokens to clients as chunked HTTP. This project
models those three and proves what holds over all their runs.

`dafny verify dfyconfig.toml` checks everything.

## How it is organised

Every stateful part appears twice: as a function or state machine over values, about
which the theorems are stated, and as a class (or a method with a loop) in the form the
source has, whose contract says that it does exactly what that function says.

| part | values and theorems | code |
|---|---|---|
| replica keys | `Keys` | |
| C++ balancer, one handle | `Balancer`, `RoundRobin` | `ReplicaHandles` |
| C++ proxy, table swaps | `ProxySessions` | `ProxySessions.HttpProxy` |
| Python balancer | `PythonBalancer` | `PythonBalancer.PythonHandle` |
| token stream | `TokenText`, `TokenStream`, `ChunkedCoding` | `StreamCode` |
| cluster state | `Sums`, `Cluster`, `Agreement`, `Removal`, `ClusterRuns` | `ClusterManagers` |
| publishing tables | `RoutingFeed` | `HeadControllers` |
| create/register handshake | `Handshake` | `SchedulerCode` |
| everything joined | `WholeSystem`, `Delivery` | |
| retries | | `Retry` |

The state machines take one step per critical section or per stretch of code between
two awaits, and their theorems quantify over every interleaving of those steps.
`WholeSystem` composes the schedulers, the head, the feed and the proxies; the
preconditions that the cluster state needs (fresh keys, registered nodes, removals that
name the right deployment) are not assumed there but proved for every run. `Delivery`
shows that the parts do work together: from every reachable state there is a run that
makes a new replica and ends with a request being served from the list that has it.

Some properties hold only under a condition. The condition is proved exact, and an input
that breaks the property is given beside it:

- adding replicas keeps the four records consistent only for single additions or free
  ones, because usage is charged once per call (`Agreement.AddAgrees`; two replicas in
  one call, `ClusterRuns.BatchBreaks`);
- a removal that names the wrong deployment makes the map forget a listed replica
  (`Removal.RemoveAgrees`; `ClusterRuns.MisnamedBreaks`);
- a health report removes exactly its dead replicas when the first entry for each names
  its deployment (`Removal.ReportRemovesDead`), and then the order of entries can matter
  (`Removal.ReportOrderIrrelevant`; `ClusterRuns.OrderMattersHere`);
- an update published while a subscriber is still sending is not seen until the next
  publication (`RoutingFeed.CaughtUpExactly`; the run in `RoutingFeed.UpdateLost`);
- the text sent is the model's final text only if no output was longer and each output
  agrees with it where it first reached (`TokenText.SentIsFinal`; `TokenText.NotFinal`);
- a terminated body is the whole answer only if every token arrived, because the proxy
  writes the zero chunk after a failed call too (`TokenStream.WholeAnswerExactly`;
  `TokenStream.TruncatedLooksComplete`);
- over any run of the Python balancer the counts are right exactly when every request
  that ended was on a replica with an address and a two-part id; each other one leaves
  its count one too high for good (`PythonBalancer.LeaksExactly`;
  `PythonBalancer.CountLeaks`);
- only the Python balancer looks at a replica's state, so on a fresh table the first
  picks can differ (`PythonBalancer.FirstPicksAgree`; `PythonBalancer.FirstPicksDiffer`);
- the backoff delay is the closed form min(d b^k, m) for every factor b of at least one,
  and for a smaller one only if one shrinking brings the first delay under the cap or the
  cap is nothing (`Retry.ClosedExactly`; `Retry.ShrinkingDiffers`).

The batch and the misnamed removals are inputs that the managers' methods accept; this
head never sends them, which `WholeSystem.SystemAgrees` proves. Nor does it ever publish
a list on which counts leak or the two balancers differ
(`WholeSystem.SamePicksEverywhere`).

## Assumptions

- Locks exclude, gRPC streams are reliable and first-in-first-out until they fail, and
  an asyncio lock that nobody holds is taken without suspending; so reading the table,
  storing the snapshot, setting and clearing the event is one step, and so is launching
  a process together with creating its future.
- The C++ releaser decrements outside the mutex (src/lib/deployment_handle.h:63); the
  decrement is one atomic step here.
- Replica ids within one handle are distinct. `WholeSystem` proves it for every table
  the head publishes.
- The steady clock is an integer number of nanoseconds that does not go back within a
  handle. Time stamps of snapshots are arbitrary, except where `RunTicks` asks for a
  strictly increasing clock.
- Counters are unbounded integers; `Conservation` shows each is the number of sessions
  that hold the replica.
- A process registers only under an id its scheduler launched, with the deployment it
  was launched for, and a scheduler is not restarted under the same worker id. A worker
  may report any replica it ever launched as dead, at any time and any number of times.
- A Dafny `char` is a Unicode scalar value; Python strings with lone surrogates cannot
  be encoded and are outside the model.
- The zero chunk is written from an array literal and so carries a trailing NUL byte;
  decoding is stated for any bytes after it.
- A client's connection takes some number of bytes and then fails for good, or never
  fails; a write takes what still fits, and throws if that was not all.

## Model

| member | source | states |
|---|---|---|
| Keys.KeyRoundTrip | src/lib/deployment_handle.py:51-58 | splitting a rendered key at its first '#' gives back both decimal numerals, for all pairs of naturals, and each numeral stands for its number |
| Keys.KeyInjective | src/lib/deployment_manager.py:45-46 | keys of different worker and replica pairs never collide |
| Balancer.LeastMeaning | src/lib/deployment_handle.cpp:39-49 | the scan finds nothing exactly when none is healthy, else the first healthy replica with the least requests |
| Balancer.ChoiceMeaning | src/lib/deployment_handle.cpp:36-55 | a pick fails exactly when no replica is healthy or past its cooldown; replica i is picked exactly when it is the first least-loaded of those |
| Balancer.AfterFailureAt | src/lib/deployment_handle.cpp:59-70 | with distinct ids exactly the reported replica becomes unhealthy, at that time |
| Balancer.StepInv | src/lib/deployment_handle.cpp:36-70 | every pick, release and failure keeps the counters equal to the requests in flight and the health equal to the failure history, and never reorders or renames replicas |
| Balancer.CooldownSafety | src/lib/deployment_handle.cpp:36-70 | over any run: every failure of a picked replica is more than 15 s ago, and a pick finds nothing exactly when every replica failed within 15 s |
| Balancer.LoadBound | src/lib/deployment_handle.cpp:36-55 | over any run with at most m requests in flight and at least k replicas up at each pick, no counter exceeds m/k rounded up |
| RoundRobin.RoundRobinRun | src/lib/deployment_handle.cpp:39-52 | with nothing released or failing, the n-th pick is list position n mod k, and counters differ by at most one |
| RoundRobin.LoadBoundTight | src/lib/deployment_handle.cpp:39-52 | such a run meets the load bound's hypothesis with its own length and list size, and attains the bound |
| ReplicaHandles.ReplicaInfo.Release | src/lib/deployment_handle.h:61-64 | the releaser takes one off this replica's counter and changes nothing else |
| ReplicaHandles.CountersRestored | src/lib/deployment_handle.cpp:71-111 | a request that has ended, however it ended, leaves every counter as it was |
| ReplicaHandles.RequestEffect | src/lib/deployment_handle.cpp:86-110 | the replica of a request ends unhealthy, as of its failure, exactly when the call did not start, or ended badly after its last token was delivered; else it ends healthy, and no other replica is touched |
| ReplicaHandles.RequestIsRun | src/lib/deployment_handle.cpp:71-111 | what a whole request does to the handle is a run of the balancer: a pick, a failure in exactly those cases, and a release |
| ReplicaHandles.ErrorsLast | src/lib/deployment_handle.cpp:71-111 | exactly which callbacks a request makes: its tokens in order, then at most one error, last, which is UNAVAILABLE without a replica and else the call's own status, made when the call did not start or ended badly; the callback that throws is the last one made |
| ReplicaHandles.CacheLast | src/lib/deployment_handle.cpp:30-31 | the cached channel of an id dials the last address listed under it |
| ReplicaHandles.DeploymentHandle.constructor | src/lib/deployment_handle.cpp:11-18 | a new handle holds the update's replicas, healthy and idle, in order |
| ReplicaHandles.DeploymentHandle.AddReplicas | src/lib/deployment_handle.cpp:20-34 | appends the listed replicas as new objects and keeps the old ones |
| ReplicaHandles.DeploymentHandle.PickNextReplica | src/lib/deployment_handle.cpp:36-55 | takes the balancer's choice, and hands out its object with the channel cached for its id, which with distinct ids dials that replica's own address |
| ReplicaHandles.DeploymentHandle.LeastLoaded | src/lib/deployment_handle.cpp:39-49 | the loop revives what has cooled down and returns the chosen object |
| ReplicaHandles.DeploymentHandle.MarkReplicaUnhealthy | src/lib/deployment_handle.cpp:59-70 | marks the first replica with the id, or none |
| ReplicaHandles.DeploymentHandle.SendRequest | src/lib/deployment_handle.cpp:71-111 | the replica is marked exactly when the start failed or the final status was bad, the callbacks are the script cut off where one throws, and the counter is given back on every path |
| ReplicaHandles.DeploymentHandle.Stream | src/lib/deployment_handle.cpp:100-103 | one callback for each token until one throws |
| ProxySessions.ActValid | src/components/headNode/http_proxy.cpp:124-190 | every action of a session and every table swap keeps each session tied to exactly the replica it holds |
| ProxySessions.Conservation | src/lib/deployment_handle.h:61-64 | for any interleaving of sessions, throws and table swaps, each counter of each current or retired handle is the number of sessions holding that replica through it, and all are zero once the sessions have ended |
| ProxySessions.GenerationIsRun | src/components/headNode/http_proxy.cpp:278-295 | for any interleaving of sessions and swaps, every current or retired handle is where some run of the balancer leads from a fresh start |
| ProxySessions.CooldownPerGeneration | src/lib/deployment_handle.cpp:36-70 | within each handle generation, across swaps, the replica given to a session failed longer than 15 s ago if ever, and a session is turned away exactly when all failed within it |
| ProxySessions.LoadBoundPerGeneration | src/lib/deployment_handle.cpp:36-55 | the load bound holds on every generation of every handle |
| ProxySessions.InstallRange | src/components/headNode/http_proxy.cpp:280-292 | the new table has exactly the update's names, each with the last deployment of that name |
| ProxySessions.OpensByName | src/components/headNode/http_proxy.cpp:124-133 | over any run: a name is found exactly when the last update lists it, and a session that opens it keeps, whatever sessions and swaps come after, a handle with the replicas of the last deployment of that name in the last update before it opened |
| ProxySessions.FreshTableServes | src/components/headNode/http_proxy.cpp:278-295 | right after an update a session that asks for a listed name is given the first replica its deployment lists |
| ProxySessions.SessionIsRequest | src/lib/deployment_handle.cpp:71-111 | a session's actions, with no other in between, do to its handle exactly what the request code does, for every outcome of the call and every callback that throws; they touch nothing else and the session is gone |
| ProxySessions.ThrowEnds | src/lib/deployment_handle.h:61-64 | an exception can end any session at any point, and ends no other |
| ProxySessions.Drains | src/lib/deployment_handle.h:61-64 | from every state the sessions can all end, and then every counter of every current or retired handle is zero |
| ProxySessions.HttpProxy.ApplyRoutingUpdate | src/components/headNode/http_proxy.cpp:268-295 | the new table has exactly the update's names, each with a new handle that holds the replicas of the last deployment of that name; no old handle is touched |
| PythonBalancer.SelectedMeaning | src/lib/deployment_handle.py:61-69 | the pick is a RUNNING replica with the least count, and fails exactly when none is RUNNING |
| PythonBalancer.LeaksExactly | src/lib/deployment_handle.py:61-165 | over every interleaving of picks and ends of requests, on any list: each count is the requests in flight on its id plus those that ended unattempted, so the counts are right exactly when none did; and the clamp at zero never acts |
| PythonBalancer.CountLeaks | src/lib/deployment_handle.py:81-86 | one request on a replica with a one-part id leaves its count at one |
| PythonBalancer.AttemptedExactly | src/lib/deployment_handle.py:51-87 | a replica is attempted exactly when it has an address and an id with a '#' |
| PythonBalancer.PythonHandle.constructor | src/lib/deployment_handle.py:35-49 | the loop over the listing leaves the dictionary described by `InitiallyListed` |
| PythonBalancer.InitiallyListed | src/lib/deployment_handle.py:35-49 | the dictionary starts with exactly the ids listed as RUNNING that no later SHUTDOWN entry removes, each at zero |
| PythonBalancer.PythonHandle.PickNextReplica | src/lib/deployment_handle.py:61-69 | returns the selected replica and adds one to its count, and to no other |
| PythonBalancer.PythonHandle.Decrement | src/lib/deployment_handle.py:132-138 | takes one off a count, down to zero |
| PythonBalancer.DecrementSafe | src/lib/deployment_handle.py:132-138 | a decrement never leaves a count below zero, takes exactly one off a positive one, and touches no other |
| PythonBalancer.PythonHandle.SendRequest | src/lib/deployment_handle.py:142-165 | how a request ends, and which ends give the count back |
| PythonBalancer.SamePicks | src/lib/deployment_handle.py:61-69 | over every run of picks and releases without failures, on distinct RUNNING replicas, both balancers pick the same replica at each step and the clamp at zero never acts |
| PythonBalancer.FirstPicksAgree | src/lib/deployment_handle.py:64-65 | on a fresh table the first picks agree exactly when the list is empty or its first replica is RUNNING |
| PythonBalancer.FirstPicksDiffer | src/lib/deployment_handle.py:64-65 | on a list of one draining replica the C++ balancer picks it and the Python one fails |
| ChunkedCoding.HexRoundTrip | src/components/headNode/http_proxy.cpp:170-171 | the printed chunk size reads back as the length |
| ChunkedCoding.HexShape | src/components/headNode/http_proxy.cpp:170-171 | the chunk size is printed with small letters and no leading zero |
| ChunkedCoding.DecodeExact | src/components/headNode/http_proxy.cpp:168-173 | decoding the terminated body by section 7.1 of RFC 9112 yields the tokens' bytes and leaves all later bytes alone, exactly when no token is empty |
| ChunkedCoding.OpenBody | src/components/headNode/http_proxy.cpp:219-222 | without the zero chunk the body is never taken for complete |
| ChunkedCoding.StopsEarly | src/components/headNode/http_proxy.cpp:170-171 | with an empty token the decoder stops there and leaves the rest unread |
| ChunkedCoding.CutExact | src/components/headNode/http_proxy.cpp:168-222 | of any first n bytes of a terminated body: incomplete until the zero chunk is whole, and from then on exactly the tokens' bytes |
| ChunkedCoding.ReadsStandard | src/components/headNode/http_proxy.cpp:168-222 | the decoder that the encoder is judged by reads every message of section 7.1 of RFC 9112, extensions, trailer fields and leading zeros included, as its data, and leaves what follows |
| ChunkedCoding.OnlyStandard | src/components/headNode/http_proxy.cpp:168-222 | and whatever it reads as a body is such a message with that data |
| TokenText.SpellConcat | src/components/replica_server.cc:120-123 | a character-by-character encoding respects concatenation |
| TokenText.ReadsExactly | src/components/replica_server.cc:120-123 | the bytes sent for a text read back by RFC 3629 as that text, and no other bytes do |
| TokenText.SentText | src/components/add_replica.py:112-131 | for any outputs: the text sent is as long as the longest, and each character comes from the first output that reached it |
| TokenText.SentIsFinal | src/components/add_replica.py:112-131 | the text sent is the final output exactly when none is longer and each agrees with it where it first reached; so it is for cumulative outputs |
| TokenText.NotFinal | src/components/add_replica.py:112-131 | an engine that rewrites its output: "ab" is sent while the final text is "cd" |
| TokenText.TokensSpell | src/components/add_replica.py:117-149 | no token is empty, and together they spell the whole answer |
| TokenStream.EndToEnd | src/components/headNode/http_proxy.cpp:156-222 | for every interleaving of generator, queue, drain loop, gRPC stream and encoder: what arrives is a prefix of what was sent, the socket decodes to exactly it once terminated and is incomplete before, and a call that ended well gives the whole answer |
| TokenStream.CutAnywhere | src/components/headNode/http_proxy.cpp:156-222 | for every interleaving and any part of the socket's bytes a client has: it takes the body for complete exactly when the terminator is among them, and then has every token that arrived |
| TokenStream.WholeAnswerExactly | src/components/headNode/http_proxy.cpp:183-222 | for every interleaving a terminated body is the whole answer exactly when every token arrived, whether or not the call ended well |
| TokenStream.TruncatedLooksComplete | src/components/headNode/http_proxy.cpp:183-222 | a stream that fails before its only token crosses: the client gets a complete empty body |
| TokenStream.FailsAnywhere | src/components/replica_server.cc:135-152 | the gRPC stream can fail at any time, and then exactly what was on its way can still reach the proxy |
| TokenStream.FailedWriteStops | src/components/replica_server.cc:150 | the drain loop takes one token for a write that fails, and none after it |
| TokenStream.FinalTextDelivered | src/components/add_replica.py:112-149 | for cumulative outputs a call that ends well delivers bytes that read as exactly the model's final text, followed by the error message if the engine raised |
| TokenStream.NeverStuck | src/components/replica_server.cc:135-152 | until the terminator is written some component can move without the stream failing |
| TokenStream.EveryRunEnds | src/components/replica_server.cc:135-163 | every run is finite, with a bound; one that cannot go on has written the terminator, and the whole answer if the stream did not fail |
| StreamCode.ThreadSafeQueue.Put | src/components/replica_server.cc:60-64 | appends to the queue |
| StreamCode.ThreadSafeQueue.Get | src/components/replica_server.cc:66-73 | takes the oldest item, or nothing when closed and drained |
| StreamCode.GenerateStream | src/components/add_replica.py:112-149 | puts exactly the job's tokens, in order, and closes the queue on every path |
| StreamCode.Drain | src/components/replica_server.cc:135-152 | writes every token in order until the queue is drained or a write fails |
| StreamCode.HttpSession.OnToken | src/components/headNode/http_proxy.cpp:156-188 | a token appends one chunk, or throws after the part of it that the connection took; an error appends nothing and throws |
| StreamCode.HttpSession.Respond | src/components/headNode/http_proxy.cpp:190-222 | the client gets the chunks of the tokens and the zero chunk, as far as its connection takes them, and the session throws exactly when the call failed or the chunks did not all fit |
| StreamCode.RequestDecodes | src/lib/deployment_handle.cpp:71-111 | however a request and its client's connection go, what reaches the client decodes to exactly the request's tokens if the connection lasts to the end of the zero chunk, and is otherwise seen to be incomplete |
| Agreement.AddAgrees | src/lib/deployment_manager.py:71-86 | an add keeps the four structures in agreement exactly when there is no such deployment, or nothing to add and no node to charge, or the node is known, the keys are fresh and the batch is one replica or free |
| Agreement.AddEachAppends | src/lib/deployment_manager.py:79-84 | the added replicas are appended to the deployment's list in order, and no other list and no node changes |
| Agreement.AddEachFiles | src/lib/deployment_manager.py:79-84 | under each id the last entry with it is filed in both maps, with the amounts; under any other id nothing changes |
| Removal.RemoveIsWithout | src/lib/deployment_manager.py:99-110 | a removal that names the right deployment leaves exactly the cluster without that replica, in all four structures, and reports whether there was one |
| Removal.RemoveAgrees | src/lib/deployment_manager.py:99-110 | a removal keeps the agreement exactly when the replica is unknown or the deployment named lists it |
| Removal.ReportCompletes | src/lib/health_manager.py:18-26 | from structures that agree no health report raises, whatever deployments it names |
| Removal.ReportRemovesDead | src/lib/health_manager.py:18-26 | a report removes exactly the replicas it lists as dead from all four structures, keeps the rest in order and keeps the agreement, exactly when the first DEAD entry of each mapped replica names the deployment that lists it |
| Removal.ReportOrderIrrelevant | src/lib/health_manager.py:18-26 | two reports of the same dead replicas, in any order and with any repetitions, give the same state exactly when they name the same replicas rightly; well-named ones always do |
| Removal.ReportIdempotent | src/lib/health_manager.py:18-26 | any report a second time changes nothing, and so frees nothing twice |
| Removal.ReportExact | src/lib/health_manager.py:18-26 | the state after any report, whatever it names: the map without every dead key, the rest without those whose first DEAD entry names their deployment |
| Removal.OtherStatus | src/lib/health_manager.py:19-24 | an entry with any status but DEAD might as well not be there, wherever it stands in a report |
| ClusterRuns.PerformAgrees | src/lib/deployment_manager.py:48-110 | each single operation keeps the agreement exactly when its caller met its obligation |
| ClusterRuns.ReachableAgrees | src/lib/deployment_manager.py:48-110 | in every state reached by proper calls the lists are duplicate-free and disjoint, their union is the keys of both maps, and node totals are the sums of the records |
| ClusterRuns.BatchBreaks | src/lib/deployment_manager.py:79-85 | two replicas of (2, 1) added in one call: their node is charged (2, 1) while its records sum to (4, 2) |
| ClusterRuns.MisnamedBreaks | src/lib/deployment_manager.py:101-110 | removing a replica of deployment 1 from deployment 2 leaves it listed in 1 and no longer in the map |
| ClusterRuns.OrderMattersHere | src/lib/health_manager.py:19-24 | the same two entries of a report in two orders, of which one keeps the agreement and one does not |
| ClusterRuns.AddThenRemove | src/lib/deployment_manager.py:71-110 | adding a replica, then any other operations, then removing it equals doing only the others |
| ClusterRuns.LastUpdateWins | src/lib/deployment_manager.py:48-59 | after any calls a deployment has the name, version and amounts that the last update gave it |
| ClusterRuns.LastMetricsWin | src/lib/autoscale_manager.py:31-41 | metrics of a replica on record stay until it is measured again, filed anew or removed, and its amounts are never touched; metrics of any other leave no trace |
| ClusterManagers.NodeInfo.AddNode | src/lib/node_info.py:23-34 | a registration zeroes the node's usage and no other |
| ClusterManagers.NodeInfo.UpdateResources | src/lib/node_info.py:36-45 | adds to or takes from one node's totals, and raises without effect for an unknown node |
| ClusterManagers.AutoScaleManager.AddReplica | src/lib/autoscale_manager.py:53-58 | files a new record under the key |
| ClusterManagers.AutoScaleManager.RemoveReplica | src/lib/autoscale_manager.py:44-51 | returns the recorded amounts and drops the record, or raises without effect |
| ClusterManagers.AutoScaleManager.LoadMetrics | src/lib/autoscale_manager.py:31-41 | updates the metrics of a known replica and never its resources |
| ClusterManagers.DeploymentManager.AddOrUpdateDeployment | src/lib/deployment_manager.py:48-59 | the deployment gets this name, version and amounts and keeps its replicas; no other changes |
| ClusterManagers.DeploymentManager.AddReplicaToDeployment | src/lib/deployment_manager.py:71-86 | its effect on all four structures, with the partial effect when charging the node raises |
| ClusterManagers.DeploymentManager.RemoveReplicaFromDeployment | src/lib/deployment_manager.py:99-110 | its effect on all four structures, with the map entry gone even when the removal is refused or raises |
| ClusterManagers.DeploymentManager.GetCurrentRoutingTable | src/lib/deployment_manager.py:114-136 | the table has exactly the deployments' ids, each with its own id, name and replicas in order |
| RoutingFeed.HistoryConsistent | src/components/headNode/head_controller.py:80-130 | for any interleaving and any clock: each subscriber is sent strictly increasing time stamps, and what a proxy applies across reconnects, also from a stream the head has ended, are tables the head really had, at moments that only move forward |
| RoutingFeed.NoLostUpdate | src/components/headNode/head_controller.py:84-128 | with an increasing clock a subscriber that a publication finds parked is sent the head's current table on its next step, whatever was published before it resumed |
| RoutingFeed.CaughtUpExactly | src/components/headNode/head_controller.py:84-128 | a parked subscriber has been sent something as new as the last publication exactly when none came during its last send |
| RoutingFeed.UpdateLost | src/components/headNode/head_controller.py:87-119 | a run in which a subscriber parks with the old table after the new one was published |
| RoutingFeed.SettledIsCurrent | src/components/headNode/head_controller.py:84-130 | with an increasing clock, a proxy that has taken everything sent on a parked subscription that no publication met in a send has applied the head's current table, if that was published |
| RoutingFeed.EndedSendsNothing | src/components/headNode/head_controller.py:132-139 | the head can end any subscription, and sends nothing on it afterwards, whatever happens |
| RoutingFeed.ReconnectShowsCurrent | src/components/headNode/head_controller.py:93-107 | whatever has happened, a proxy that reconnects is sent the head's current table first |
| HeadControllers.HeadController.OnDeploymentChange | src/components/headNode/head_controller.py:80-90 | stores a snapshot of the manager's table, wakes every waiter and no sender, and is the feed's publication |
| HeadControllers.HeadController.Subscribe | src/components/headNode/head_controller.py:93-107 | yields the current table first, and is the feed's subscription |
| HeadControllers.HeadController.AfterYield | src/components/headNode/head_controller.py:108-119 | remembers the time stamp sent and parks |
| HeadControllers.HeadController.AfterWait | src/components/headNode/head_controller.py:119-128 | yields the latest snapshot exactly when it is newer than the last sent, else parks again |
| HeadControllers.HeadController.EndSubscription | src/components/headNode/head_controller.py:132-139 | a cancelled stream's coroutine is nowhere any more, and what it sent stays to be read |
| HeadControllers.HeadController.FileAnswer | src/components/headNode/head_controller.py:217-241 | a positive answer is filed and the resulting table published; a negative or missing one changes nothing; nothing is published when filing raises |
| HeadControllers.HeadController.RecordMetrics | src/components/headNode/head_controller.py:150-157 | the metrics reach the autoscaler's record, and nothing is published |
| HeadControllers.HeadController.RegisterNode | src/components/headNode/head_controller.py:161-173 | the node is registered with nothing in use, and nothing is published |
| HeadControllers.HeadController.SendHealthStatus | src/lib/health_manager.py:11-32 | the report's effect, and a snapshot equal to the resulting table published exactly when some entry was DEAD and nothing raised; with no entry DEAD nothing changes at all |
| Handshake.StepInv | src/components/scheduler.py:232-303 | every step of every handler keeps the bookkeeping of calls, futures and registrations |
| Handshake.HandshakeSafe | src/components/scheduler.py:232-303 | over all interleavings: ids are issued once, pending futures are exactly the ids launched and not registered, no future is created twice, and a positive answer carries its own id and a port registered for it |
| Handshake.AnsweredOnce | src/lib/future_manager.py:23-26 | whatever happens after it, a call keeps the one answer it got |
| Handshake.DuplicateAnswersNothing | src/components/scheduler.py:280-299 | filing a registration again changes no answer and no future |
| Handshake.RegistersExactly | src/components/scheduler.py:280-299 | a registration of an id that is not in the registry gets through and is filed; one of an id that is there changes nothing |
| Handshake.WaitingIsAnswered | src/components/scheduler.py:280-303 | in every state that keeps the bookkeeping, a waiting call is answered, with its own id and the port, by the next registration of its id, whatever else is under way, and no other call changes |
| Handshake.CreationCompletes | src/components/scheduler.py:232-303 | a new call is launched under the next id and answered with that id and the port its process registers |
| Handshake.RegistersAgain | src/components/scheduler.py:100-113 | once a dead replica has been dropped its id can register again, on another port too, and no call and no future changes |
| Handshake.FailedLaunchAnswers | src/components/scheduler.py:240-253 | a failed launch answers its call at once and for good, with its id and port and no replica, and no other call and no future changes |
| Handshake.AbandonedStays | src/components/scheduler.py:256-257 | a waiting call can be given up by its caller, and then no later registration answers it |
| Handshake.PortsDiffer | src/components/scheduler.py:239 | the port of an id is 50100 and the id, in decimal, so different ids have different ports |
| SchedulerCode.FutureManager.CreateFuture | src/lib/future_manager.py:11-18 | files a new pending future, or raises without effect when the key is taken |
| SchedulerCode.FutureManager.SetResult | src/lib/future_manager.py:23-26 | removes the key and completes its future unless it was cancelled, touching no other |
| SchedulerCode.HeadNodeManager.Allocate | src/components/scheduler.py:236-239 | issues the next id, one more than the last, with its port |
| SchedulerCode.HeadNodeManager.LaunchFailed | src/components/scheduler.py:240-253 | a failed launch answers its own call negatively and disturbs no future |
| SchedulerCode.HeadNodeManager.LaunchOk | src/components/scheduler.py:255-257 | a successful launch always gets its future, and its call waits on it |
| SchedulerCode.HeadNodeManager.RegisterCheck | src/components/scheduler.py:270-293 | a duplicate is one whose id is in the registry; it changes nothing, and any other goes on with its id, port and deployment |
| SchedulerCode.HeadNodeManager.RegisterFile | src/components/scheduler.py:294-303 | files the replica and completes exactly the future waiting for it, with its id and port |
| SchedulerCode.HeadNodeManager.Abandon | src/components/scheduler.py:256-257 | a cancelled call leaves its cancelled future filed |
| SchedulerCode.HeadNodeManager.CleanupReplicas | src/components/scheduler.py:100-113 | drops exactly the dead from the registry |
| WholeSystem.StepInv | src/components/headNode/head_controller.py:200-242 | every move of any component, reports that arrive late or again included, keeps the joint invariant, and a table about to be installed never lists a replica twice |
| WholeSystem.RoutingSafety | src/components/headNode/http_proxy.cpp:268-295 | in every reachable state each replica in any table of the head, in any handle of a proxy and held by any session was a positive answer, with its worker's address and a port it registered there |
| WholeSystem.SystemAgrees | src/components/headNode/head_controller.py:217-232 | in every reachable state of the whole system the four structures agree, and the next operation or health report meets its caller's obligations and does not raise |
| WholeSystem.PastView | src/components/headNode/http_proxy.cpp:228-295 | each proxy's table is empty or the by-name view of a table the head has had, those moments only move forward, and with different names it shows every deployment |
| WholeSystem.SettledProxyCurrent | src/components/headNode/http_proxy.cpp:228-295 | with an increasing clock, a proxy that has read everything from a parked subscription no publication met in a send knows exactly the names of the head's deployments, each with the replicas the head lists for it, if the last publication carried the head's current state |
| WholeSystem.CaughtUpProxyCurrent | src/components/headNode/head_controller.py:223-232 | this head publishes all it files and removes, so that once deployments are set up such a proxy knows exactly the head's deployments and their replicas without that condition |
| WholeSystem.OpensListed | src/components/headNode/http_proxy.cpp:124-133 | in every reachable state a session is given the replicas of a deployment with the name it asked for, in the table its proxy applied last |
| WholeSystem.LastDeployWins | src/lib/deployment_manager.py:48-59 | in every reachable state the head knows a deployment as it was last described |
| WholeSystem.DeploysAnytime | src/lib/deployment_manager.py:48-59 | from every reachable state a deployment can be described, anew or for the first time, and then is as described |
| WholeSystem.ReportsAnytime | src/lib/health_manager.py:11-32 | in every reachable state a worker's report of replicas it launched leaves exactly the cluster without those it calls DEAD, however late or often it comes |
| WholeSystem.MetricsFiled | src/components/headNode/head_controller.py:150-157 | in every reachable state metrics are kept for the replica they are of, if the head has it, and touch nothing else |
| WholeSystem.SamePicksEverywhere | src/lib/deployment_manager.py:81-83 | every list of every table the head ever has holds distinct RUNNING replicas with two-part ids and addresses, so both balancers make the same picks on it |
| Delivery.NewReplicaServes | src/components/headNode/head_controller.py:161-241 | from every reachable state a worker can register its node and be asked for one more replica, its process can register, and once a proxy has reconnected a session that asks for the deployment by name is served from the list that now ends with the new replica, at the worker's address and the port that registered |
| Retry.TrySendWithRetries | src/lib/helpers.py:9-39 | returns the first success at once, and the last exception only after all attempts failed; how many attempts and sleeps were made, and each sleep: the delay, capped at every step, plus the draw if there is jitter, which for a factor of at least one is d and then min(d b^k, m) |
| Retry.DelayClosed | src/lib/helpers.py:36 | for any growth that a cap does not disturb, capping at every step equals growing freely and capping once |
| Retry.BackoffBounds | src/lib/helpers.py:25-36 | for a factor b of at least one, each sleep lies between its base delay, d and then min(d b^k, m), and twice it, and n attempts sleep at most 2(d + (n-2)m) in all |
| Retry.ClosedExactly | src/lib/helpers.py:36 | every delay is d and then min(d b^k, m) exactly when b is at least one, or d b is within the cap, or the cap is nothing |
| Retry.ShrinkingDiffers | src/lib/helpers.py:36 | from 100 by halves under a cap of 10 the second delay is 5, while the closed form says 10 |
| Retry.TotalAdds | src/lib/helpers.py:33 | the total is that of the sleeps: it adds up over any split, and of one sleep it is that sleep |

## Left out

- HTTP parsing, the 404 and metrics responses, Prometheus, logging, process launching, signals and timers: plumbing around the modelled code.
- A client that disconnects during a stream, in `TokenStream`: there the proxy's writes go through; what such a client has is a part of those bytes (`TokenStream.CutAnywhere`), and the failing writes are in `StreamCode.HttpSession`.
- The flag `is_error` of a reply: the C++ proxy ignores it, so error text is an ordinary token.
- Failures in `SendRequest` and `generate_stream` before the guarded part is entered (src/components/replica_server.cc:130-133): the queue is then never closed.
- `DeploymentManager.move_replica_state`: nothing calls it; it assigns to a record that a list and the map share, and entries here are values.
- `DeploymentManager.remove_deployment`: nothing calls it, and it reads a field that replicas do not have.
- The scheduler's heartbeat restart (src/components/scheduler.py:308-332): it reads missing fields; dead replicas enter as reports of any launched id instead.
- Aliasing of `ReplicaInfo` between the manager's list and map: entries are values, and nothing modelled changes one after it is filed.
- ReplicaHandles.CountersRestored: one request by itself; that interleaved requests give back what they took is `ProxySessions.Conservation`.
- ReplicaHandles.DeploymentHandle.SendRequest: one request by itself; interleaved requests are the steps of `Balancer` and `ProxySessions`.
- PythonBalancer.PythonHandle.SendRequest: one request by itself, with the tokens it yields left out.
- StreamCode.ThreadSafeQueue.Get: blocking on an open and empty queue is its precondition; the interleavings of waiting are in `TokenStream`.
- StreamCode.Drain: the loop on a queue that gets nothing more; draining while the generator still puts is in `TokenStream`.
- ClusterManagers.NodeInfo.AddNode: a node's address, channel and capacity are not kept, since nothing modelled reads them.
- HeadControllers.HeadController.RegisterNode: the queue that asks the node for a first replica is not kept; asking a registered node is a move of `WholeSystem`.
- ClusterManagers.DeploymentManager.GetCurrentRoutingTable: version and status are left out, since the proxy does not read them; the time stamp is the caller's.
- SchedulerCode.HeadNodeManager.CleanupReplicas: the dead ids are an argument, since nothing shown sets the status they are read from.
- WholeSystem.CaughtUpProxyCurrent: deployments are set up before the first snapshot is taken, as this head does on starting; one added later is not published until the next change.
- Delivery.NewReplicaServes: one way to go on from each state, with nothing else in between; what may come in between is any move, and `WholeSystem` says what all moves keep.
- WholeSystem.RoutingSafety: a port proved to have been registered may since belong to a process that died.
- Retry.BackoffBounds: arithmetic over the reals, without floating-point rounding.
- Whether messages are ever sent or delivered: what needs fairness or real time is not stated.
- `src/lib/cloud_vm`, `src/lib/proxy_manager.py`, `src/lib/headstore_client.py`, `src/lib/model_config.py`, deployment scripts, and the superseded `src/lib/replica.py`, `src/lib/deployment_scheduler.py`, `src/components/add_replica_vllm.py` and `src/components/headNode/http_proxy.py`: configuration, or members that would only be easier.
