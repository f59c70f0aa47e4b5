# minik8s: verified models of its controllers and tables

minik8s is a small Kubernetes. This project models the step-by-step controllers and in-memory tables
in which its difficulty lies, and proves what they keep over every run. etcd, HTTP, RabbitMQ, Docker
and the `iptables` command are reduced to small abstract state: a table, a channel, a write that may
fail. `dafny verify dfyconfig.toml` checks the whole project.

## Components

- **kube-proxy** (`Collections`, `NatTable`, `RoundRobin`, `ServiceChain`, `ServiceLayout`,
  `ServiceTraffic`, `ProxySpec`, `KubeProxy`, `ServiceRouting`). `NatTable` gives the nat table a semantics: chains of
  rules with one counter per `nth` rule. `ServiceChain` has the chain objects that program it, step
  by step and in any map order; `faults` counts commands that fail and `-D`s whose rule is not there
  exactly once. Every method may be called in every state; the ghost `sound` or `intact` says whether
  anything is known of it. `KubeProxy.Proxy.Serve` runs any sequence of service events and packets:
  the commands all succeed if and only if no chain names ever collide (an update that names a pod
  twice being the one collision that can go unnoticed), and until then the table is
  `ServiceLayout.Layout` of the live services, a function of them alone, and every packet reaches the
  pod whose turn it is. `ProxySpec` proves on that specification that deleting a service undoes
  everything done for it, and `ServiceRouting` says where packets go in the terms of the service object.
- **Rolling update** (`Rollout`). The loop of one rollout as a machine over arbitrary failing writes,
  with availability, surge and termination bounds; `DeploymentController` is the code, proved to
  publish write for write what the machine does, so that the bounds hold of the API server's history,
  and to hand the last target on as the next rollout's old count.
- **Pod goroutines** (`PodProtocol`). Prober, worker, listener and deleter as an interleaving of
  their steps, down to the points inside their critical sections.
- **Watch tickets** (`WatchTickets`) and **redo log** (`RedoLog`). Reference-counted store watches,
  and re-subscription after a lost connection.
- **Cluster IPs** (`ClusterIp`, `Decimal`), **endpoint selection** (`ServiceSelection`,
  `ServiceAddresses`), **mesh lottery** (`MeshRouter`), **autoscaler** (`RingQueues`, `Autoscaler`),
  **kubelet dispatch** (`KubeletDispatch`, and with the pods' goroutines `KubeletPods`), **dotted
  addresses** (`Dotted`, `Decimal`).

## What the code does not keep

Each of these is stated as an exact condition, most with a run that fails.

- Chain names are plain concatenations, and a pod's chain is not named after its service. Two services
  with a pod and a target port in common collide (`ProxySpec.SharedPodCollides`), and a command fails
  exactly when an event makes names collide (`KubeProxy.Proxy.WatchRuntimeService`). Names may be
  used again once they are free (`ProxySpec.NamesReused`).
- An update that names a pod twice gives a pod that stays two rules and no command fails
  (`ServiceChain.TwiceUnnoticed`); what the service controller uploads never does
  (`ServiceAddresses.EventsNameOnce`).
- `UpdateRule` keeps a retained pod's old DNAT rule, so it equals a fresh build exactly when retained
  pods keep address and port (`ServiceChain.SameAsFresh`).
- A rollout whose single old replica was never published deletes it in vain for ever
  (`Rollout.StuckExactly`); and with an unpublished old replica set the availability bound holds
  exactly for the sizes of `Rollout.NeedsPublishedOld`. A rollout to the largest 32-bit count is never
  done (`Rollout.NeverDoneAtMax`).
- `DeletePod` before the ADD answer is handled can end in a send on a closed channel; after it, never
  (`PodProtocol.PanicIffEarly`). So the event traces that can panic a kubelet are those that assign a
  pod it holds (`KubeletPods.CrashIffHit`).
- `releaseResource` and a prober whose tick has come wait for each other for good
  (`PodProtocol.ReleaseWaits`, `PodProtocol.DeadlockStays`).
- A withdrawal that overtakes the daemon leaks its ticket, and a store watch runs without a ticket
  awaiting it exactly when that happened (`WatchTickets.Serve`, `WatchTickets.Leak`).
- A stop goroutine that survives the reset of the slots can delete another subscription's redo entry;
  the recovery is safe exactly when there is none (`RedoLog.SafeIffNoGuard`). A re-subscription that
  fails is lost (`RedoLog.RefusedLost`).
- The stored address of a pod that restarted, or came back under its name, goes stale
  (`ServiceAddresses.CurrentIff`, `ServiceAddresses.AgreesIff`). After a first listing that failed, the
  stored service mirrors the selection exactly under the condition in `ServiceSelection.Watch`.
- A pod event handled while the update that brings the pod in still waits is misjudged
  (`KubeletDispatch.QueueMatters`).
- `NewRouter` leaves both maps of the mesh router nil, so the first service or weight panics
  (`MeshRouter.NewRouterPanics`). With maps made, only an inserted weight that survives gives a cluster
  IP anything to draw from (`MeshRouter.DrawableIffSurvives`).

## Assumptions

- Rollouts of one deployment do not overlap, its sizes are not negative and the target is below the
  largest 32-bit value. Replica set keys are fresh.
- In the redo log a subscription's stop channel is its own (`pkg/listerwatcher/ls.go:104-115`).

## Model

| member | source | states |
|---|---|---|
| NatTable.IpTables.Delete | pkg/kubeproxy/chain.go:147-152 | `-D` takes out the first occurrence of the rule and keeps the order of the rest; it counts as a fault unless the rule was there exactly once |
| NatTable.IpTables.DeleteChain | pkg/kubeproxy/chain.go:158-160 | `-X` succeeds exactly on an empty chain that no rule of any chain jumps to |
| RoundRobin.RoundRobinStep | pkg/kubeproxy/chain.go:91-95 | after any number h of packets the cascade of nth counters sends the next to pod h mod k, lets none through, and leaves the counters of h + 1 packets |
| RoundRobin.RoundRobin | pkg/kubeproxy/chain.go:197-208 | a chain just built or updated for k pods sends its i-th packet to pod i mod k, for every i |
| ServiceChain.NewSepChain | pkg/kubeproxy/chain.go:99-130 | with the name free, creates the pod's chain with just its DNAT rule, without a fault, and changes nothing else; with the name taken, faults |
| ServiceChain.DeleteSep | pkg/kubeproxy/chain.go:142-161 | removes exactly one pod's rule, DNAT rule and chain, with every command succeeding, and the remaining rules keep their order and counters |
| ServiceChain.SvcChain.constructor | pkg/kubeproxy/chain.go:179-210 | faults exactly when a chain name is taken or given twice; otherwise adds the planned rules in order, counters at zero, and one chain for each pod |
| ServiceChain.SvcChain.ApplyRule | pkg/kubeproxy/chain.go:216-226 | appends the service's rule to the father chain |
| ServiceChain.SvcChain.UpdateRule | pkg/kubeproxy/chain.go:249-308 | from any counters, in any map order and for any list, faults exactly when a new pod's chain name is taken; a list that fits ends with its plan (old address for a pod that stays) and reset counters |
| ServiceChain.SvcChain.DeleteRule | pkg/kubeproxy/chain.go:227-247 | leaves the rest of the table with exactly the service's own rule gone from the father chain, without a fault |
| ServiceChain.DropVanished | pkg/kubeproxy/chain.go:252-271 | removes precisely the pods the new list does not name, in any map order |
| ServiceChain.ClearRules | pkg/kubeproxy/chain.go:276-282 | empties the service chain and keeps the chains of the pods that stay |
| ServiceChain.AppendUnits | pkg/kubeproxy/chain.go:283-307 | rebuilds the rules in the new order with n counting down to 1, reusing or creating each pod's chain |
| ServiceChain.WhoStays | pkg/kubeproxy/chain.go:284-305 | the chains that survive and those still to be made are just those of the plan |
| ServiceChain.UnitsClash | pkg/kubeproxy/chain.go:284-305 | for pods with different names, the chain names of a new list fit iff no name a new pod needs is taken, by a chain that stays or by another new pod |
| ServiceChain.TwiceUnnoticed | pkg/kubeproxy/chain.go:285-295 | lists of pods that all stay never meet a taken name, and are free of collisions iff they name no pod twice |
| ServiceChain.BuildClash | pkg/kubeproxy/chain.go:195-208 | a new service on one target port fits iff no chain name is taken or needed twice, which covers pods named twice |
| ServiceChain.SameAsFresh | pkg/kubeproxy/chain.go:285-304 | the table after an update equals that of a fresh build of the new list if and only if every retained pod keeps its address and port |
| ServiceLayout.FitsIffJoins | pkg/kubeproxy/chain.go:99-109 | a service's chain names are free in the table of others if and only if it collides with none of them |
| ServiceLayout.LayoutExtend | pkg/kubeproxy/kubeproxy.go:121-123 | one more service port fits if and only if nothing collides, and building it turns the layout of the live services into that of one more |
| ServiceLayout.LayoutEdit | pkg/kubeproxy/kubeproxy.go:137-144 | other pods for a service port fit if and only if nothing collides, and then change that service's chains only |
| ServiceLayout.LayoutDrop | pkg/kubeproxy/kubeproxy.go:90-93 | the table without a service's chains and rule is the layout of the others |
| ServiceTraffic.ForwardFrom | pkg/kubeproxy/chain.go:211-214 | the whole table sends a packet to the pod whose turn it is at the first service that matches and has pods, and moves only that service's counters; an unmatched packet changes nothing |
| ProxySpec.StripStep | pkg/kubeproxy/kubeproxy.go:84-148 | an action for one service is invisible to all others, and any other action does to them what it would do without that service |
| ProxySpec.RunOthers | pkg/kubeproxy/kubeproxy.go:84-148 | over any run without collisions, the other services end up as if the service had never been, in a run that has no collisions either |
| ProxySpec.DeleteRestores | pkg/kubeproxy/kubeproxy.go:84-94 | create, any updates and traffic, then delete: what is left is what the foreign actions alone leave |
| ProxySpec.RestoresExactly | pkg/kubeproxy/kubeproxy.go:84-94 | with no foreign actions in between, the view before the create is restored exactly |
| ProxySpec.NamesReused | pkg/kubeproxy/kubeproxy.go:84-148 | a service may follow a deleted one with the same pods and target ports |
| ProxySpec.SharedPodCollides | pkg/kubeproxy/chain.go:101-101 | two live services that send to one pod on one port collide |
| KubeProxy.Proxy.OnCreate | pkg/kubeproxy/kubeproxy.go:105-125 | adds one live service for each port, in order; faults exactly when names collide |
| KubeProxy.Proxy.UpdatePort | pkg/kubeproxy/kubeproxy.go:128-145 | one port of an update faults exactly when it meets a taken chain name, also for pods named twice |
| KubeProxy.Proxy.OnUpdate | pkg/kubeproxy/kubeproxy.go:126-145 | rewires the ports in order up to the first unknown one; a collision after one of them is a fault unless the event names a pod twice |
| KubeProxy.Proxy.OnDelete | pkg/kubeproxy/kubeproxy.go:85-94 | removes all and only the services of the key, in any map order, without a fault |
| KubeProxy.Proxy.WatchRuntimeService | pkg/kubeproxy/kubeproxy.go:84-148 | from a sound state, an event that makes no names collide refines one step on the live services, keeps the table equal to their layout and issues no failing command; one that does issues a failing command, but for an update naming a pod twice |
| KubeProxy.Proxy.Serve | pkg/kubeproxy/kubeproxy.go:84-148 | any sequence of events and packets: no fault when no names ever collide, and only then unless an update names a pod twice; until a collision the table is exactly the live services, and every packet's destination is the round robin one |
| ServiceRouting.CreateRoutes | pkg/kubeproxy/kubeproxy.go:111-124 | after a PUT that creates a service, and any traffic, the n-th packet to (cluster IP, protocol, port) goes to pod n mod k of the list, at the port's target port |
| ServiceRouting.UpdateRoutes | pkg/kubeproxy/kubeproxy.go:128-145 | after an update the turns start again from the first pod of the new list: a new pod is reached at its address and the target port, one that stays at the address it had |
| ServiceRouting.ServeNew | pkg/kubeproxy/kubeproxy.go:84-148 | the same for the destinations the table itself gives |
| ServiceRouting.StopsAtUnknown | pkg/kubeproxy/kubeproxy.go:138-142 | ports behind one the service does not have are not looked at |
| ServiceRouting.FailedIgnored | pkg/kubeproxy/kubeproxy.go:107-109 | an unknown service is created iff it has not failed |
| ServiceRouting.SvcNameByPort | pkg/kubeproxy/kubeproxy.go:137-137 | the chains of one service have different names iff their ports differ |
| Rollout.NeverTooFew | pkg/controller/deployment/deployment.go:231-284 | once a first write of the new set succeeded, new + old never drops below min(O + min(surge, R) - 1, R), whichever writes fail |
| Rollout.OldUntouched | pkg/controller/deployment/deployment.go:236-251 | before that write all O old replicas are published |
| Rollout.KeepsCapacity | pkg/controller/deployment/deployment.go:220-226 | a rollout that keeps the size, with surge at least 1, never publishes fewer replicas than before |
| Rollout.NeedsPublishedOld | pkg/controller/deployment/deployment.go:184-194 | if the old set was never published, the bound holds for all failures if and only if O = 1 or R <= surge |
| Rollout.NeverTooMany | pkg/controller/deployment/deployment.go:236-275 | new + old never exceeds O + R under any failures |
| Rollout.SurgeRespected | pkg/controller/deployment/deployment.go:236-275 | if no write to the old set fails, new + old never exceeds max(O + min(surge, R), R) |
| Rollout.Ends | pkg/controller/deployment/deployment.go:231-284 | with at most F failing writes the loop is left within F + max(R - min(surge, R) + 1, O) iterations, at new = R and old = 0 |
| Rollout.StuckExactly | pkg/controller/deployment/deployment.go:268-275 | with a single old replica that was never published the loop is never left, whatever is written |
| Rollout.NeverDoneAtMax | pkg/controller/deployment/deployment.go:247-250 | a rollout to the largest 32-bit count is never done, since the next count wraps around |
| Rollout.WrapsAround | pkg/controller/deployment/deployment.go:247-250 | after the largest count comes the smallest |
| Rollout.ApiServer.Del | pkg/apiserver/app/handler.go:91-107 | DELETE of a replica set sets its count to zero, removes it when already zero, and fails when it is not there |
| Rollout.DeploymentController.Create | pkg/controller/deployment/deployment.go:145-174 | the controller records the replica set even where the write was lost |
| Rollout.DeploymentController.RollingLoop | pkg/controller/deployment/deployment.go:231-284 | the loop's turns fail as given, its history is the machine's write for write, its rounds are within F + max(R - min(surge, R) + 1, O), and no other replica set is touched |
| Rollout.ShownBounded | pkg/controller/deployment/deployment.go:231-284 | what is published for both replica sets at any time of a run obeys the availability, total and surge bounds |
| Rollout.DeploymentController.Update | pkg/controller/deployment/deployment.go:176-286 | ends with the new set published at the target, the old one at zero, and the new key current, under any finite pattern of failures; every entry of the history obeys the bounds |
| Rollout.DeploymentController.Rollouts | pkg/controller/deployment/deployment.go:181-286 | over any sequence of rollouts the controller's count is the last target, which is the next rollout's O, and is what is published |
| PodProtocol.Conveys | pkg/kubelet/podWorker/podWorker.go:12-27 | every step keeps first-in first-out order across both channels, the worker and the listener |
| PodProtocol.StepKeepsControl | pkg/kubelet/pod/pod.go:194-403 | every step keeps who holds the lock and where the goroutines can be relative to each other |
| PodProtocol.StepKeepsLedger | pkg/kubelet/pod/pod.go:340-372 | every step keeps the count of commands sent, on their way and answered, and the token's meaning |
| PodProtocol.OneProbe | pkg/kubelet/pod/pod.go:194-372 | in every interleaving at most one probe is on its way and it withholds the token (or its sender still holds the lock); until the deletion the token is there exactly when no probe is on its way; at most two commands are on their way, so no channel fills up |
| PodProtocol.ProbesWhen | pkg/kubelet/pod/pod.go:350-365 | a probe is sent exactly with the token there and the pod running or created |
| PodProtocol.WaitsFor | pkg/kubelet/pod/pod.go:194-403 | what each goroutine waits for at each of its points |
| PodProtocol.AnswersHandled | pkg/kubelet/pod/pod.go:204-255 | which outcomes an answer can have, and that after the deletion a probe's is dropped |
| PodProtocol.StatusReported | pkg/kubelet/pod/pod.go:204-255 | the status is what the handled answer or the deletion last said |
| PodProtocol.ReleaseWaits | pkg/kubelet/pod/pod.go:395-403 | releasing can go on exactly while the prober waits for a tick, and a tick that comes first stops both |
| PodProtocol.DeadlockStays | pkg/kubelet/pod/pod.go:395-403 | whatever follows, they stay stopped |
| PodProtocol.ClosesEmpty | pkg/kubelet/pod/pod.go:395-403 | after a clean deletion DELETE was the last command, and the channels close with nothing on its way |
| PodProtocol.StepKeepsOrder | pkg/kubelet/pod/pod.go:375-393 | after a clean deletion nothing follows DELETE and nothing panics |
| PodProtocol.CleanRun | pkg/kubelet/pod/pod.go:194-261 | a clean deletion stays clean and panic-free over every continuation |
| PodProtocol.PanicIffEarly | pkg/kubelet/pod/pod.go:375-403 | after `DeletePod` takes the lock, some schedule sends on a closed channel if and only if the ADD answer had not been handled |
| WatchTickets.TicketParses | pkg/apiserver/app/httpserver.go:234-237 | a ticket sent back as a decimal form field is the ticket that was sold |
| WatchTickets.TicketForms | pkg/apiserver/app/httpserver.go:234-237 | but for leading zeros, what is accepted is the decimal form of a 64-bit number; empty fields, signs and letters are refused |
| WatchTickets.Server.Sell | pkg/apiserver/app/httpserver.go:225-231 | sells a ticket never sold before and queues its insertion |
| WatchTickets.Server.Insert | pkg/apiserver/app/httpserver.go:299-342 | keeps: key watched iff its entry is non-nil iff its ticket set is non-empty; enters the ticket, and opens a store watch, of the kind asked for, iff the key had no ticket |
| WatchTickets.Server.Withdraw | pkg/apiserver/app/httpserver.go:269-294 | keeps the same; cancels only a watch of its own key; a malformed ticket changes nothing |
| WatchTickets.WatchEnd | pkg/apiserver/app/httpserver.go:240-246 | withdrawing the last ticket cancels the key's one running watch and no other |
| WatchTickets.WatchIffTicket | pkg/apiserver/app/httpserver.go:222-342 | with the lock free, a running watch, a non-nil entry and a non-empty ticket set are the same thing; no key has two running watches and no ticket two keys |
| WatchTickets.LiveExactly | pkg/apiserver/app/httpserver.go:238-247 | the sets hold inserted minus withdrawn, together with exactly the tickets withdrawn before their insertion and not after it |
| WatchTickets.InOrderExact | pkg/apiserver/app/httpserver.go:222-342 | if no withdrawal comes before its insertion the sets are exactly inserted minus withdrawn |
| WatchTickets.StaysUntilWithdrawn | pkg/apiserver/app/httpserver.go:238-247 | a ticket in a set stays there exactly until it is withdrawn |
| WatchTickets.Leak | pkg/apiserver/app/httpserver.go:229-247 | after any trace, a withdrawal just before the insertion leaves the ticket in until it is withdrawn a second time |
| WatchTickets.Serve | pkg/apiserver/app/httpserver.go:222-342 | any requests, interleaved with the daemon in any way, are booked as sent; each watch is cancelled at most once and is of the kind of the insertion that opened it; a key's watch runs exactly when some ticket is inserted and not withdrawn or one was overtaken, the latter never in order |
| RedoLog.NeverOverwrites | pkg/messaging/subscriber.go:135-139 | in every interleaving, with any failures, the next slot is free |
| RedoLog.OneRecoveryPerDial | pkg/messaging/subscriber.go:175-209 | a recovery can begin exactly when there were more dials than recoveries and none is under way, and while one is nothing is unsubscribed |
| RedoLog.GuardWaits | pkg/messaging/subscriber.go:141-155 | a stop goroutine leaves with its connection or when its channel is closed, and not before |
| RedoLog.SubscribesWhen | pkg/messaging/subscriber.go:83-133 | subscribing takes an open connection and nothing else |
| RedoLog.RefusedLost | pkg/messaging/subscriber.go:189-194 | a re-subscription that fails loses its subscription |
| RedoLog.StepKeeps | pkg/messaging/subscriber.go:141-195 | every step keeps: live subscriptions logged or pending, each once; goroutines and slots in agreement |
| RedoLog.RecoversExactly | pkg/messaging/subscriber.go:181-195 | after any proper run, once recovered and with the goroutines of closed channels gone, the log holds exactly the live subscriptions, each in one slot, also those unsubscribed during the outage gone |
| RedoLog.SafeIffNoGuard | pkg/messaging/subscriber.go:181-195 | resetting the slots can never lose a live subscription if and only if no stop goroutine is left at that moment |
| RedoLog.Subscriber.Subscribe | pkg/messaging/subscriber.go:83-173 | an accepted subscription takes a free slot; a refused one changes nothing |
| RedoLog.Subscriber.Recover | pkg/messaging/subscriber.go:181-195 | in any map order, the accepted entries move to slots 0, 1, 2, ... and nothing else is in the log |
| ClusterIp.AtInjective | pkg/etcdstore/serviceConfigStore/serviceConfigStore.go:50-55 | different cursor positions give different address texts |
| ClusterIp.ReadsBack | pkg/etcdstore/serviceConfigStore/serviceConfigStore.go:50-55 | the address of a position reads 10, 10, its quotient and its remainder by 256 |
| ClusterIp.IsExist | pkg/etcdstore/serviceConfigStore/serviceConfigStore.go:40-47 | finds an address exactly when some name holds it |
| ClusterIp.ServiceConfigStore.AllocClusterIp | pkg/etcdstore/serviceConfigStore/serviceConfigStore.go:48-62 | terminates, with the address of the first free position and the cursor just past it |
| ClusterIp.FirstFreeIsFirst | pkg/etcdstore/serviceConfigStore/serviceConfigStore.go:49-61 | the position chosen is free, every skipped one is held, and the potential moves by one |
| ClusterIp.ServiceConfigStore.JudgeAndAllocClusterIp | pkg/etcdstore/serviceConfigStore/serviceConfigStore.go:66-105 | refines the request function in new state and answer |
| ClusterIp.NeverShared | pkg/etcdstore/serviceConfigStore/serviceConfigStore.go:66-105 | over every sequence of requests no two names hold one address |
| ClusterIp.Amortised | pkg/etcdstore/serviceConfigStore/serviceConfigStore.go:48-105 | cursor + held addresses at or past it is at most calls + 1, however requested addresses are interleaved |
| ClusterIp.ChoicesAscend | pkg/etcdstore/serviceConfigStore/serviceConfigStore.go:71-76 | chosen addresses strictly ascend and never repeat, even after their holder moved away |
| ClusterIp.ChoiceBound | pkg/etcdstore/serviceConfigStore/serviceConfigStore.go:48-62 | the m-th call chooses no position past m; up to call 65535 both fields stay within a byte |
| ClusterIp.AnswerBound | pkg/etcdstore/serviceConfigStore/serviceConfigStore.go:48-76 | the address answered by the m-th call reads 10.10.c.d with 1 <= 256 c + d <= m, and c and d are bytes up to call 65535 |
| ClusterIp.FirstAnswer | pkg/etcdstore/serviceConfigStore/serviceConfigStore.go:24-31 | a new store's first choice is 10.10.0.1 |
| ClusterIp.AnswerHeld | pkg/etcdstore/serviceConfigStore/serviceConfigStore.go:66-105 | afterwards the name holds what it was answered, or, refused, nothing changed; nobody else's address moves |
| ClusterIp.KeptUntilMoved | pkg/etcdstore/serviceConfigStore/serviceConfigStore.go:71-79 | a name's address changes only when that name asks for another, and asking with none returns it |
| ClusterIp.GrantedIff | pkg/etcdstore/serviceConfigStore/serviceConfigStore.go:80-104 | a requested address is granted if and only if nobody else holds it |
| ClusterIp.Serve | pkg/etcdstore/serviceConfigStore/serviceConfigStore.go:66-105 | the store object answers every sequence of requests as specified |
| ServiceSelection.FillFacts | pkg/service/runtimerService.go:115-133 | members stay in front, at most five with distinct names, newcomers are candidates, and five are reached unless every candidate is in by name |
| ServiceSelection.Pigeonhole | pkg/service/runtimerService.go:51-68 | for distinct names, equal length and inclusion one way decide equality of the name sets, which is equality up to order |
| ServiceSelection.CompareOldAndNew | pkg/service/runtimerService.go:51-68 | reports a difference exactly when the names, for distinct names the name multisets, differ |
| ServiceSelection.CanChoose | pkg/service/runtimerService.go:84-102 | picks exactly the running pods with all of the selector's labels |
| ServiceSelection.SelectedFacts | pkg/service/runtimerService.go:107-133 | running members kept in order and in front; newcomers match; five pods or every match present |
| ServiceSelection.RecordedMirrors | pkg/service/runtimerService.go:136-168 | the stored names are a permutation of the selection and the phase is Running iff it is non-empty, from then on when it held, and newly when there is something to store or clear |
| ServiceSelection.NamedOnce | pkg/service/runtimerService.go:157-161 | a stored service that mirrors the selection names no pod twice |
| ServiceSelection.UploadsIffMoved | pkg/service/runtimerService.go:136-178 | later on, an upload is made exactly when the set of names changes, and otherwise the stored service is left alone |
| ServiceSelection.RuntimeService.constructor | pkg/service/runtimerService.go:183-202 | the first selection; mirrored from the start if its listing succeeds |
| ServiceSelection.RuntimeService.SelectPods | pkg/service/runtimerService.go:69-179 | new selection, stored service, upload and result, with every error path; nothing uploaded names a pod twice |
| ServiceSelection.RuntimeService.CheckPods | pkg/service/runtimerService.go:218-235 | notes each reported phase and calls for selection iff some pod is gone or not running |
| ServiceSelection.RuntimeService.Poll | pkg/service/runtimerService.go:203-250 | keeps the invariant; at most five pods, each a matching one of the listing or an old one not reported gone or stopped, and all running old ones of the latter kind; five or every match; five unlost pods change nothing; phase, error and upload follow |
| ServiceSelection.StaysIff | pkg/service/runtimerService.go:109-230 | of the selected pods exactly those stay that ran and were not reported gone or stopped |
| ServiceSelection.SelectorMeans | pkg/service/runtimerService.go:84-102 | a pod matches iff it runs and its labels include the selector |
| ServiceSelection.ErrorKept | pkg/service/runtimerService.go:164-166 | an error that is not about missing pods is kept |
| ServiceSelection.FoundSome | pkg/service/runtimerService.go:115-133 | from nothing selected, something is selected iff something matches |
| ServiceSelection.Watch | pkg/service/runtimerService.go:183-250 | any sequence of polls: the stored service mirrors the selection iff the first listing succeeded, a later one found something to store or clear, or it did so from the start; all uploads succeeding, etcd holds it; selection as above |
| ServiceSelection.StillSaysRunning | pkg/service/runtimerService.go:136-150 | after a failed first listing a service stored as running without pods stays so while nothing matches |
| ServiceAddresses.CurrentIff | pkg/service/runtimerService.go:150-168 | after a selection the stored addresses are the selected pods' iff the names moved or no name changed its address |
| ServiceAddresses.SelectedUpToDate | pkg/service/runtimerService.go:107-133 | a selection is up to date with its listing iff the pods it kept were |
| ServiceAddresses.AgreesIff | pkg/service/runtimerService.go:69-168 | what is stored agrees with the listing iff, the names having moved, the kept pods were up to date, or, the names being the same, all that was stored agreed |
| ServiceAddresses.WatchAtHome | pkg/service/runtimerService.go:183-250 | over any polls of a cluster in which no name changes its address the stored addresses are right, also after a failed first listing if they were right at the start |
| ServiceAddresses.EventsNameOnce | pkg/service/runtimerService.go:170-178 | the events kube-proxy sees of what was uploaded name no pod twice |
| ServiceAddresses.StaleAddress | pkg/service/runtimerService.go:51-68 | a pod reselected under its name with another address leaves the old address stored |
| ServiceAddresses.StaleMember | pkg/service/runtimerService.go:107-131 | a pod that restarted with another address and is reported running stays selected with its old one |
| MeshRouter.FairShare | pkg/mesh/route.go:163-176 | of the draws 1 to the weights' sum exactly weight(i) choose endpoint i, so a weightless endpoint is never chosen |
| MeshRouter.OneStop | pkg/mesh/route.go:168-174 | every draw chooses exactly one endpoint |
| MeshRouter.Router.GetEndPoint | pkg/mesh/route.go:154-178 | chooses the endpoint the draw falls to; no endpoints iff none is listed; a panic iff the weights' sum is not positive |
| MeshRouter.CarriesChances | pkg/mesh/route.go:88-105 | an update keeps the number of draws of every address that stays, wherever it moves to, and gives a new address none |
| MeshRouter.Router.WatchRuntimeService | pkg/mesh/route.go:60-106 | a PUT panics iff a map is nil; otherwise one cluster IP's endpoints are replaced, with weights carried by address, and a delete removes just the recorded one |
| MeshRouter.Router.UpsertEndpoints | pkg/mesh/route.go:135-152 | panics iff the map is nil; inserts an address that is not there and changes nothing for one that is |
| MeshRouter.NewRouterPanics | pkg/mesh/route.go:32-35 | a router as made panics on a run iff it holds a service PUT or a weight, and knows no endpoint before |
| MeshRouter.ClusterOfIsLast | pkg/mesh/route.go:64-86 | the recorded cluster IP of a service is that of its last PUT, unless it was deleted since |
| MeshRouter.PutLists | pkg/mesh/route.go:94-105 | after a PUT the cluster IP has the listed pods in order |
| MeshRouter.WeightStep | pkg/mesh/route.go:60-152 | how each event moves one address's weight under one cluster IP |
| MeshRouter.WeightIffSurvives | pkg/mesh/route.go:60-152 | over any run, an address has a positive weight iff an insertion with that weight survives |
| MeshRouter.DrawableIffSurvives | pkg/mesh/route.go:60-178 | over any run, a cluster IP's total is positive iff an insertion with positive weight survives under it |
| MeshRouter.Serve | pkg/mesh/route.go:32-152 | the router object follows every run of events, from nil or from made maps |
| RingQueues.RingQueue.Push | util/queue/ring_queue.go:19-26 | the ring read from its oldest entry is always the last min(n, capacity) values pushed |
| RingQueues.RingQueue.GetElements | util/queue/ring_queue.go:32-34 | returns the last min(n, capacity) values as a multiset |
| Autoscaler.SameMembers | pkg/controller/autoscaler/autoscaler.go:424-431 | a metric's verdict does not depend on the order of its samples |
| Autoscaler.Peak | pkg/controller/autoscaler/autoscaler.go:424-431 | the loop's maximum is above a bound iff the bound is negative or some sample is above it, and below iff the bound is positive and all are below |
| Autoscaler.DecidedMeans | pkg/controller/autoscaler/autoscaler.go:455-466 | up means some enabled metric's last five samples go above its bound, down that all of all enabled ones are below, keep neither |
| Autoscaler.Monitor.Decide | pkg/controller/autoscaler/autoscaler.go:416-466 | increases iff some enabled metric exceeded its bound in its last five samples; decreases iff all enabled ones were below in all of theirs |
| Autoscaler.ScaleUp | pkg/controller/autoscaler/autoscaler.go:455-464 | whatever writes fail, publishes each count up to the maximum once and in order |
| Autoscaler.ScaleDown | pkg/controller/autoscaler/autoscaler.go:465-474 | the same down to the minimum |
| Autoscaler.AscentGentle | pkg/controller/autoscaler/autoscaler.go:455-464 | an increase stays within the limits, moves by one, and ends at the maximum |
| Autoscaler.DescentGentle | pkg/controller/autoscaler/autoscaler.go:465-474 | a decrease stays within the limits, moves by one, and ends at the minimum |
| Autoscaler.Monitor.Scale | pkg/controller/autoscaler/autoscaler.go:392-482 | one round from any count read back publishes every count up to the maximum, down to the minimum, or none, as its windows say |
| Autoscaler.LastRoundMeans | pkg/controller/autoscaler/autoscaler.go:392-482 | the same for each round of a run |
| Autoscaler.OtherIgnored | pkg/controller/autoscaler/autoscaler.go:416-444 | samples of a metric that is not enabled change nothing |
| Autoscaler.PublishedWithin | pkg/controller/autoscaler/autoscaler.go:455-474 | over any rounds, whatever counts they read back, the published counts are within the limits iff each round has nothing to do or starts at most one off them |
| Autoscaler.Monitor.Loop | pkg/controller/autoscaler/autoscaler.go:392-482 | publishes exactly the counts of its rounds, under any failures; within the limits iff every round stays there, and one apart if each round reads back the last published |
| KubeletDispatch.FollowsLast | pkg/kubelet/kubelet.go:134-197 | with a drained channel the table holds a pod, with its last configuration, iff the last event naming a node for it named this node and did not ask for deletion |
| KubeletDispatch.HeldOnce | pkg/kubelet/kubelet.go:134-197 | of differently named nodes that saw the same events at most one holds a pod |
| KubeletDispatch.QueueMatters | pkg/kubelet/kubelet.go:152-195 | an event handled before the waiting updates differs in effect from one handled after them if and only if the pod is only on its way in and the event does more than repeat it |
| KubeletDispatch.Kubelet.WatchPod | pkg/kubelet/kubelet.go:134-197 | sends the update the specification names for the table it finds |
| KubeletDispatch.Kubelet.HandlePodUpdates | pkg/kubelet/kubelet.go:210-229 | deletes all, then adds all |
| KubeletDispatch.Kubelet.SyncLoopIteration | pkg/kubelet/kubelet.go:114-131 | applies the oldest waiting update |
| KubeletDispatch.PodManager.AddPod | pkg/kubelet/podManager/podManager.go:58-68 | refuses a name that is taken and otherwise changes only that name |
| KubeletDispatch.PodManager.DeletePod | pkg/kubelet/podManager/podManager.go:44-57 | refuses an unknown name and otherwise removes only that name |
| KubeletDispatch.Kubelet.Serve | pkg/kubelet/kubelet.go:114-239 | after every trace the table is what the last assignments want |
| KubeletPods.CrashIffDeleted | pkg/kubelet/podManager/podManager.go:44-57 | some schedule of a pod object's goroutines panics iff the object is deleted at all |
| KubeletPods.CrashIffHit | pkg/kubelet/kubelet.go:134-239 | the event traces that can panic the kubelet are those in which some event assigns a pod it holds |
| Decimal.ValueOfRender | pkg/mesh/proxy.go:164-176 | reading a rendered number gives the number back |
| Decimal.RenderOfValue | pkg/mesh/proxy.go:164-176 | rendering a numeral without leading zeros gives the numeral back |
| Dotted.Itod | pkg/mesh/proxy.go:164-176 | for every 64-bit value stays inside its 32-byte buffer and is the inverse of decimal reading |
| Dotted.GetFourField | pkg/netSupport/tools/iptool.go:72-85 | returns iff there are three dots, and then parts that joined by dots are the input, the first three without a dot |
| Dotted.SplitUnique | pkg/netSupport/tools/iptool.go:72-85 | there is only one way to take a string apart like that |
| Dotted.OriginalDst | pkg/mesh/proxy.go:155-159 | the address text of the four bytes and the port of the other two |
| Dotted.SplitOriginalDst | pkg/mesh/proxy.go:155-158 | an address from the socket comes apart into numerals of its four bytes, in order |
| Dotted.AddressInjective | pkg/mesh/proxy.go:155-158 | different bytes give different addresses |

## Left out

- HTTP, JSON, etcd, RabbitMQ, Docker, Prometheus and process execution: replies, listings, random draws, samples and failing writes are parameters.
- kube-proxy start-up (`Boot`, the jumps from OUTPUT and PREROUTING, the first listing) and limits of the kernel, such as the length of a chain name.
- ServiceChain.SvcChain.UpdateRule: an endpoint chain is a value in the map, not a shared pointer; each is in one map only, so nothing is aliased.
- ServiceChain.SvcChain.constructor: says of a table with colliding chain names only that a command failed, not what the table then holds.
- KubeProxy.Proxy.OnUpdate: of an event that names one pod twice it says what each port does from a sound state, not what the table holds once a pod that stays got two rules, nor what later commands then do.
- Rollout.Ends: overlapping rollouts of one deployment are outside it; they would share the old replica set.
- PodProtocol.OneProbe: the goroutines are a machine over their steps, not a class with methods; contents of commands and answers, volumes and the upload of the status are left out.
- PodProtocol.CleanRun: safety only; nothing is said of a shutdown that does end.
- WatchTickets.Server.Sell: does not model 64-bit wrap-around of the ticket counter; the hand-over of an option to the daemon is one step.
- WatchTickets.Server.Insert: the publishing goroutine of a store watch is left out, as is a watcher's identity as a pointer.
- RedoLog.StepKeeps: logging a subscription and starting its goroutine is one step; manual closing and the number of retries are left out.
- ServiceSelection.RuntimeService.Poll: the ticker, `canPollSend` and `DeleteService`, which waits on a channel while holding the lock.
- MeshRouter.Router.WatchRuntimeService: virtual services, which change nothing.
- KubeletPods.CrashIffHit: the channel is drained between events, as in the dispatch model.
- Autoscaler.Monitor.Decide: metrics are reals; rounding and not-a-number are left out, as are the handlers that compute a sample, and the mutex that `lockMap` copies.
- The autoscaler's loop for deployments, the handlers that start and stop loops, the replica set controller, scheduler, DNS, GPU jobs, nginx and flannel: easy on their own or text plumbing.
- Integers are unbounded except where noted: replica counts in a rollout wrap at 32 bits, `itod` takes 64-bit values, ports are 16 bits.
