# kube-actions: models and proofs

kube-actions runs GitHub Actions jobs in Kubernetes. This project models the parts of it whose correctness depends on more
than one function at a time and proves what they promise.

- **The dind forwarder** (`dind/`). `forwarder.dfy` is a machine of two processes, the goroutine that reads docker's events
  and the main loop, joined by unbuffered channels. Each statement that touches the octet table, the cache, a channel, an
  iptables rule or a proxy is a step of its own, so a run interleaves the two anywhere inside a half-finished handler. An
  action that is not enabled changes nothing, so `Exec` of every sequence of actions is a run and every theorem about
  `Exec(acts)` is about every reachable state. `networks.dfy`, `proxies.dfy` and `collisions.dfy` hold the invariants and
  theorems, `delivery.dfy` puts them together end to end, and `draining.dfy` shows that nothing stays undone. `dotted.dfy` has the
  text and NETMAP arithmetic, `octets.dfy` the allocator on its array. `dind.dfy` has the handlers as they are written, loops
  over a cache, a table and an iptables chain, and shows that the steps of the machine, undisturbed, do what each handler does.
- **The GitHub credential caches** (`facades/gh.go`). `tokens.dfy` interleaves any number of callers of the token caches with
  evictions and expiry; the registration and remove caches are the same code and one model serves both. `credentials.dfy`
  interleaves callers of `GitHub.Init` followed by `GetGitHubTenantCredential` through all five mutexes.
- **The runner job protocol**. `listener.dfy` has the flag and lock of `Wire.Listen` and, as a method, its message loop.
  `runnerjob.dfy` has both reconcilers, the listener, the kubelet and foreground garbage collection acting on one object store;
  `lifecycle.dfy` shows that the protocol gets jobs made and ended.
- **The replica set controller** in `replicaset.dfy`.
- **Policies and pods**. `contextdata.dfy` decodes and flattens job contexts, `validator.dfy` evaluates rules against them,
  `affinity.dfy` rewrites node affinities.

Results that a reader of the code might not expect:

- A goroutine of `Listen` that ends before its launcher has assigned the flag leaves a wire that claims to listen, with no
  loop and no way back through `Listen`; only replacing the wire helps (`Listener.StuckReachable`, `StuckIff`, `StuckForever`).
- A container restarted before main has read the PIDs of its stop leaves its old proxy running for good, because a start empties
  the list (`Proxies.RestartCanLose`, `LostRunsForGood`). `Proxies.StartLosesIff` says exactly when; the schedule that avoids it is `Proxies.Prompt`.
- The textual rewrite of a subnet shorter than /16 is not what NETMAP does (`Dotted.ShortPrefixDisagrees`).
- A required node selector with an empty term, which on its own matches no node, matches every node of the operator's platform
  after the rewrite (`NodeAffinities.VoidWidens`).
- The limit of 60 grants per token holds until the 64-bit counter turns over, and no longer (`Tokens.SixtyIff`).
- `Status.Replicas` is one too low after a reconcile that picked a replica already terminating, and is never corrected when the
  status write after a create or delete is refused and the set is then as wanted (`ReplicaSet.CountRightIff`,
  `CountLeftAlone`, `RefusedCountSticks`). Where all writes are answered it is right in the end if there was anything to create or delete, or
  if it was right to begin with (`SettledCountIff`).
- A network created under the identifier of a living one that has subnets leaves the octets and rules of the latter behind
  for good (`Networks.NothingLeaksIff`).

What the environment is taken to do: an IPv4 iptables refuses a destination that is not an IPv4 subnet, appending a rule that
is there is a success, and deleting a rule that is not there is an error; killing a proxy succeeds and PIDs are not reused;
each cache method and each access to the wire's flag is atomic; API calls return. The orderly runs of
`Collisions.ProxiesDoNotCollide` are spelled out in `Collisions.Orderly`: one IPv4 subnet of prefix 16 or longer per network, fresh
network identifiers, addresses not shared by running containers, networks destroyed after their containers stopped, and
the prompt schedule.

`dafny verify dfyconfig.toml` checks the whole project.

## Model

| member | source | states |
|---|---|---|
| Dotted.AddressRoundTrip | dind/docker.go:240-245 | the dotted text of an address reads back as that address |
| Dotted.AddressTextUnique | dind/docker.go:240-245 | a text that reads as an address is exactly that address's text, so text and address determine each other |
| Dotted.CidrRoundTrip | dind/docker.go:192-198 | a subnet in prefix notation (section 3.1 of RFC 4632) reads back from its text |
| Dotted.CidrTextUnique | dind/docker.go:192-198 | a text that reads as a subnet is exactly that subnet's text |
| Dotted.MatchIsInLanguage | dind/docker.go:48 | what the anchored regular expression matches is one to three digits, a dot, one to three digits |
| Dotted.MatchIsLongest | dind/docker.go:48 | every prefix of that shape is found, and none is longer than the match |
| Dotted.RewriteQuad | dind/docker.go:192-198 | on four octets followed by any text the replacement changes exactly the first two, to 127.n |
| Dotted.NetmapIsArithmetic | dind/main.go:171-177 | the octet-wise NETMAP of the model is the arithmetic on 32-bit numbers: network part of the target plus the address modulo 2 to the number of host bits, for every prefix length |
| Dotted.InSubnetIsArithmetic | dind/main.go:171-177 | likewise for membership in a subnet |
| Dotted.RewriteAgreesWithNetmap | dind/main.go:171-177 | for every prefix length, subnet, address in it and octet: the textual rewrite of the address equals NETMAP's (addr & hostmask) or-ed with (to & netmask) for the rewritten subnet if and only if the address already has 127.n's host bits in its first two octets |
| Dotted.RewriteIsNetmap | dind/docker.go:240-245 | hence with a prefix of 16 to 32 they always agree |
| Dotted.ShortPrefixDisagrees | dind/docker.go:192-198 | a subnet of prefix 8 and an address of it for which they do not |
| Dotted.RewriteInjective | dind/docker.go:240-245 | two rewritten addresses coincide exactly when the octets and the last two octets of the addresses do |
| Octets.ExhaustedIff | dind/docker.go:286-302 | the allocator finds nothing exactly when all of 1..255 are taken |
| Octets.OctetTable.MarkFirst | dind/docker.go:286-302 | marks and returns the least free octet of 1..255 and changes no other flag; with none free it changes nothing |
| Octets.OctetTable.Release | dind/docker.go:211-213 | clears that flag and no other |
| Networks.AlwaysInv | dind/docker.go:192-218 | the joint invariant of cache, octet table, messages and rules at every step of both processes |
| Networks.DistinctOctets | dind/docker.go:192-218 | in every interleaving, also inside half-finished rule loops and after an octet was freed but before its rule is deleted, no two installed rules name the same second octet |
| Networks.RulesMatchReceived | dind/main.go:99-114 | between two messages the cache is ahead by at most the message blocked on the channel, and the rules are exactly those of the networks alive after the messages received if and only if no create took the identifier of a living network that has subnets |
| Networks.RulesInsideHandler | dind/main.go:171-191 | inside a handler exactly the rules of the subnets already passed are added or gone, each new when installed, each there (with the arguments it was installed with) when deleted |
| Networks.DeleteFindsRule | dind/main.go:182-191 | the rule a teardown is about to delete is installed, so the loop is never cut short |
| Networks.OctetsConserved | dind/docker.go:192-218 | cached networks own pairwise disjoint octets of 1..255, all marked; under the same condition nothing else is marked but what the handler at work has gained or not yet freed, and between handlers only under it |
| Networks.NothingLeaksIff | dind/cache.go:17-19 | over every history of messages, octets taken and rules left are exactly those of the living networks if and only if none was ever overwritten |
| Networks.AllocationIsLeast | dind/docker.go:286-302 | at every reachable allocation the least unmarked octet goes to the next subnet, and the process dies exactly when all 255 are marked |
| Proxies.AlwaysPids | dind/main.go:193-228 | the ledger of proxies: spawned is live or killed, every live PID is in its container's list, in main's hands, or counted as lost |
| Proxies.AlwaysStream | dind/docker.go:248-258 | the cached containers are those running after the container messages formed so far, and main is at most one message behind |
| Proxies.KilledAtMostOnce | dind/main.go:193-228 | in every run a proxy is killed at most once, only after it was spawned, and a live one whose PID is not lost can still be found |
| Proxies.StopKillsAll | dind/main.go:217-228 | when main finishes a stop every proxy ever spawned for that container has been killed, except lost ones; on the prompt schedule all of them |
| Proxies.StartLosesIff | dind/cache.go:32-35 | a start drops PIDs exactly when its container's list is non-empty and main is not already killing it, which takes a container still running or a stop received but not yet read |
| Proxies.NothingLost | dind/cache.go:32-35 | on the prompt schedule no PID is ever dropped |
| Proxies.RestartCanLose | dind/docker.go:248-250 | without it one can be: a reachable state with a live proxy whose PID no list holds |
| Proxies.LostRunsForGood | dind/cache.go:32-35 | and whatever happens then, that proxy stays live |
| Proxies.SecondStopIgnored | dind/docker.go:253-257 | after a reported stop, whatever happens short of a new start of that container, a second report (`die`, then `stop`) changes nothing |
| Collisions.RunningDoNotClash | dind/docker.go:232-249 | running containers have pairwise disjoint proxy addresses, each without repetition |
| Collisions.HostIpsDiffer | dind/docker.go:240-245 | distinct attachments of supported networks get distinct proxy addresses |
| Collisions.PlacesDistinct | dind/main.go:193-204 | one container's requests differ in protocol, address or port |
| Collisions.ProxiesDoNotCollide | dind/docker.go:232-249 | at every state of every orderly run two live proxies differ in protocol, host address or host port |
| Delivery.AlwaysPresent | dind/main.go:193-228 | at every step of every run the requests main has got through have their proxies |
| Delivery.EveryRequestServed | dind/main.go:193-228 | whenever main is back at its select each request of each container it serves has a live proxy, and on the prompt schedule exactly one and there are no others |
| Delivery.NetmapMeetsProxy | dind/docker.go:240-245 | the address NETMAP maps an attachment to is the text its proxies are started with |
| Delivery.TrafficArrives | dind/docker.go:192-249 | end to end: with nothing pending in an orderly run, for every running container, attachment and port the rule from the network's subnet to its rewritten one is installed, that subnet holds the address, and where the rule maps the address a live proxy of that container listens on that protocol and port |
| Draining.PendingIsReceived | dind/main.go:99-132 | in every reachable state with main at its select, a message of either kind and action that the event goroutine is blocked on is received: the goroutine goes on, the matching count is one higher, and main is at the start of that message's handler |
| Draining.Drains | dind/main.go:83-133 | from every reachable state the two processes come to rest by their own steps or the process ends, and it does not end over a network being destroyed |
| Draining.DestroyedIsGone | dind/docker.go:206-218 | a network reported destroyed on an orderly run: after its own steps have drained it is not cached and none of its rules is installed |
| Draining.RestIsExact | dind/main.go:99-132 | at rest in an orderly run the rules are exactly those of the cached networks and main serves exactly the cached containers |
| Draining.EofEnds | dind/main.go:86-102 | main leaves its loop when the events or dockerd have ended |
| Draining.FailureEnds | dind/main.go:104-125 | a failing install or proxy start ends the process |
| Dind.Cache.AddNetworkInfo | dind/cache.go:17-19 | sets that one entry |
| Dind.Cache.DeleteNetworkInfo | dind/cache.go:26-30 | returns what was cached and removes that one entry |
| Dind.Cache.AddContainerInfo | dind/cache.go:32-35 | sets that entry and empties that container's PID list |
| Dind.Cache.DeleteContainerInfo | dind/cache.go:42-46 | returns what was cached, removes that entry and leaves the PID lists alone |
| Dind.Cache.AddProxyPortPID | dind/cache.go:48-50 | appends to that container's list, which may not exist yet |
| Dind.Cache.DeleteProxyPortPIDs | dind/cache.go:56-58 | leaves an empty list for that container |
| Dind.DescribeNetwork | dind/docker.go:192-201 | the loop over docker's subnets allocates one octet each, in order, marks exactly those, and stops when they run out |
| Dind.CreateNetwork | dind/docker.go:186-204 | the whole handler of a created network leaves octets, cache and message as the model's steps do, and panics when they do |
| Dind.MarkingIsLoop | dind/docker.go:192-203 | run undisturbed, the model's steps for a created network have that loop's outcome |
| Dind.ForgetNetwork | dind/docker.go:206-218 | frees exactly the cached network's octets, uncaches it and makes its message, as the model's steps do; an unknown network changes nothing |
| Dind.FreeingIsLoop | dind/docker.go:206-218 | run undisturbed, the model's steps for a destroyed network have that outcome |
| Dind.SetupNetworkPortForward | dind/main.go:171-180 | succeeds exactly when every subnet is IPv4 and then adds exactly the network's rules |
| Dind.InstallingIsLoop | dind/main.go:171-180 | run undisturbed, the model's install steps do the same and die in the same cases |
| Dind.SetdownNetworkPortForward | dind/main.go:182-191 | removes exactly the network's rules on success, and succeeds exactly when they are all there and no subnet comes twice |
| Dind.DeletedIff | dind/main.go:182-191 | a teardown cut short removes only rules of the network; it gets through exactly when all are there and distinct |
| Dind.RemovingIsLoop | dind/main.go:182-191 | run undisturbed, the model's delete steps remove the same rules and stop at the same one |
| Dind.ContainerIps | dind/docker.go:232-246 | the nested loop lists one proxy address per subnet of each known attachment, in order |
| Dind.StartContainer | dind/docker.go:224-251 | the whole handler leaves both maps, the emptied PID list and the message as the model's acceptance of the event does |
| Dind.StopContainer | dind/docker.go:253-258 | likewise for a stop; for a container that is not cached nothing is sent |
| Dind.SetupContainerPortProxy | dind/main.go:193-215 | succeeds exactly when every request can be started in turn, starts them address by address and port by port, and records exactly the PIDs started, also when one fails |
| Dind.SpawningIsLoop | dind/main.go:193-215 | run undisturbed, the model's steps start the same requests in that order, record the same PIDs, and panic exactly when that fails |
| Dind.SetdownContainerPortProxy | dind/main.go:217-228 | kills every PID on the container's list, no other, and empties that list only |
| Dind.KillingIsLoop | dind/main.go:217-228 | run undisturbed, the model's steps kill the same PIDs, in list order |
| Tokens.LowClosed | operator/internal/controller/actionsrunner/facades/gh.go:388-391 | how often a wrapping 64-bit counter that starts at zero shows less than 60 within n additions |
| Tokens.AtMostSixty | operator/internal/controller/actionsrunner/facades/gh.go:377-432 | for any number of callers and any expiry or eviction one minted token is handed out at most 60 times, and at most 60 more for each full turn of the counter |
| Tokens.GrantsAreCallers | operator/internal/controller/actionsrunner/facades/gh.go:377-432 | the grants of a token are exactly the callers that were given it |
| Tokens.AtMostSixtyCallers | operator/internal/controller/actionsrunner/facades/gh.go:377-432 | so at most 60 callers are ever given one token while its counter has not turned over |
| Tokens.ServedOwnKey | operator/internal/controller/actionsrunner/facades/gh.go:396-432 | in every run, with any expiry and eviction, a finished caller was given a token minted for the key it asked for, or a mint it asked for was refused |
| Tokens.CallersProgress | operator/internal/controller/actionsrunner/facades/gh.go:396-432 | in every reachable state an unfinished caller gets nearer to its end by its next statement, or waits for the mutex of an unfinished caller that does not wait |
| Tokens.SoloCall | operator/internal/controller/actionsrunner/facades/gh.go:396-432 | a call without competitors has exactly the outcome of the sequential code: hit, second look, mint or error, with the uses it costs |
| Tokens.AlwaysLocked | operator/internal/controller/actionsrunner/facades/gh.go:408-409 | the mutex is held by exactly the caller between lock and unlock |
| Tokens.AlwaysSteady | operator/internal/controller/actionsrunner/facades/gh.go:396-432 | without expiry or eviction every container of a key but the cached one is used up, and so is the cached one when its key is being minted again |
| Tokens.SixtyIff | operator/internal/controller/actionsrunner/facades/gh.go:388-391 | without expiry or eviction a token is handed out at most 60 times if and only if its counter has not turned over |
| Tokens.MintsImplyGrants | operator/internal/controller/actionsrunner/facades/gh.go:396-432 | without expiry or eviction k mints for a key imply at least 60(k-1)+1 grants: a token is replaced only after it was handed out all 60 times |
| Tokens.EvictionMintsEarly | operator/internal/controller/actionsrunner/facades/gh.go:396-432 | with an eviction two mints can come with two grants |
| Tokens.TokenStore.TryGet | operator/internal/controller/actionsrunner/facades/gh.go:377-394 | spends one use of exactly that key's counter and grants below 60 if the token lives longer than a minute |
| Tokens.TokenStore.Get | operator/internal/controller/actionsrunner/facades/gh.go:396-432 | one caller alone: a hit spends one use, a miss a second under the mutex also if nothing is then minted, and a mint replaces the entry with a fresh counter |
| Credentials.NextHolds | operator/internal/controller/actionsrunner/facades/gh.go:589-639 | each statement changes what its caller holds by the one lock it takes or frees |
| Credentials.MutualExclusion | operator/internal/controller/actionsrunner/facades/gh.go:290-370 | no two callers ever hold the same mutex |
| Credentials.LocksAreOrdered | operator/internal/controller/actionsrunner/facades/gh.go:589-639 | a caller waits only for a mutex later in the fixed order than all it holds |
| Credentials.NoDeadlock | operator/internal/controller/actionsrunner/facades/gh.go:589-639 | in every reachable state with an unfinished caller some caller can take a statement |
| Credentials.EveryCallFinishes | operator/internal/controller/actionsrunner/facades/gh.go:589-657 | from every reachable state every schedule is at most 18 statements per caller long, and one that cannot be continued has finished every caller |
| Credentials.FinishedForAReason | operator/internal/controller/actionsrunner/facades/gh.go:589-657 | over every run a finished call was refused by the API, or got its client and found or fetched its repository and, unless its event is unknown, found or created a good credential of its own event and repository |
| Credentials.CalmCallsServe | operator/internal/controller/actionsrunner/facades/gh.go:589-657 | without expiry and evictions a finished call of a known event that was not refused leaves a good credential of its event and repository cached |
| Credentials.CreatesWithToken | operator/internal/controller/actionsrunner/facades/gh.go:611-631 | a credential is created only with a token in hand, still good or just minted |
| Credentials.CanFinish | operator/internal/controller/actionsrunner/facades/gh.go:589-657 | from every reachable state all calls can be brought to their end with nothing refused |
| Credentials.CachedIsQuick | operator/internal/controller/actionsrunner/facades/gh.go:335-338 | a call whose repository and good credential are cached takes no mutex after the client's |
| Credentials.CreatedOnce | operator/internal/controller/actionsrunner/facades/gh.go:554-639 | the double-checked caches, over every interleaving and whoever fails: a repository or credential has been obtained from GitHub exactly once for every cached copy that expired or was evicted, and once more for the good copy cached now, if any |
| Listener.AlwaysInv | operator/internal/controller/actionsrunner/wire/wire.go:213-338 | the invariant tying flag, lock, callers and goroutines together |
| Listener.AtMostOneLoop | operator/internal/controller/actionsrunner/wire/wire.go:213-338 | over every interleaving of calls of Listen and ends of goroutines at most one message loop runs |
| Listener.SoloListen | operator/internal/controller/actionsrunner/wire/wire.go:213-338 | a call without competitors launches one loop and sets the flag when it finds the flag clear, and otherwise changes nothing |
| Listener.ListensAgain | operator/internal/controller/actionsrunner/wire/wire.go:213-338 | after a loop has ended past its launch, the next call launches another |
| Listener.CallsProgress | operator/internal/controller/actionsrunner/wire/wire.go:213-219 | in every reachable state an unfinished call gets nearer to its end, or waits for the mutex of an unfinished one that does not wait |
| Listener.StuckIff | operator/internal/controller/actionsrunner/wire/wire.go:228-337 | between calls the flag tells the truth unless the newest goroutine ended before its launcher had set the flag, and then it is wrong |
| Listener.StuckForever | operator/internal/controller/actionsrunner/wire/wire.go:213-219 | once so, no later call of Listen launches a loop on that wire |
| Listener.StuckReachable | operator/internal/controller/actionsrunner/wire/wire.go:228-337 | such a run exists |
| MessageLoop.Run | operator/internal/controller/actionsrunner/wire/wire.go:263-332 | for every script of answers: at each GetMessage everything received has been deleted once and in order, nothing was admitted and the last identifier is named; an admission is of a job request that broke no rule, is never deleted, sends exactly one token and ends the loop; and the loop ends where the first deciding answer says |
| MessageLoop.TurnRunsIff | operator/internal/controller/actionsrunner/wire/wire.go:264-332 | a turn leaves the loop running exactly when the session is open, none of the listed troubles occurs and no job is admitted; a job request that violates a rule is no trouble |
| MessageLoop.ScriptRunsIff | operator/internal/controller/actionsrunner/wire/wire.go:264-332 | and the loop still runs after a script exactly when every turn left it running |
| MessageLoop.Admission | operator/internal/controller/actionsrunner/wire/wire.go:305-310 | what the admitting branch appends to a run in step |
| RunnerJob.Store.JobReconcile | operator/internal/controller/actionsrunnerjob/reconciler.go:79-217 | the reconcile run statement by statement leaves the objects the specification says, whatever writes are refused |
| RunnerJob.Store.RunnerReconcile | operator/internal/controller/actionsrunner/reconciler.go:267-333 | likewise for the token, listen and completion part of the runner's reconcile |
| RunnerJob.AlwaysObjects | operator/internal/controller/actionsrunnerjob/reconciler.go:94-214 | ownership, honest status and evidence for deletions at every step |
| RunnerJob.OwnObjectsOnly | operator/internal/controller/actionsrunnerjob/reconciler.go:94-214 | over every run a pod or claim belongs to the job incarnation that is there, and every incarnation the reconciler deleted had its own pod seen Succeeded, Failed or Unknown or its own claim seen Lost |
| RunnerJob.SightsAreOwn | operator/internal/controller/actionsrunnerjob/reconciler.go:136-148 | every phase copied is the current phase of the pod or claim of the incarnation whose status it goes into |
| RunnerJob.NothingForDeletedJob | operator/internal/controller/actionsrunnerjob/reconciler.go:94-97 | over every continuation of every run: while a job being deleted is still there it stays so and nothing is created for it |
| RunnerJob.StatusCatchesUp | operator/internal/controller/actionsrunnerjob/reconciler.go:187-199 | one answered reconcile of a finished job copies the claim's phase if that is behind, else the pod's |
| RunnerJob.CompletionIsNoticed | operator/internal/controller/actionsrunner/reconciler.go:306-329 | two answered reconciles of the job and one of the runner start the deletion of a job whose pod is finished |
| RunnerJob.JobsComeFromAdmissions | operator/internal/controller/actionsrunner/reconciler.go:268-285 | the jobs created map injectively and in order to earlier job messages whose verdict was that no rule is violated, and every such message is accounted for: a job, a failed create, on its way, or lost with a replaced wire |
| RunnerJob.CreateTakesToken | operator/internal/controller/actionsrunner/reconciler.go:270-285 | a step creates a job exactly when it consumes the token of such a message read before that step |
| RunnerJob.SendNeverBlocks | operator/internal/controller/actionsrunner/wire/wire.go:307 | the one-slot channel is empty whenever the listener is about to send |
| RunnerJob.LoopFollowsScript | operator/internal/controller/actionsrunner/wire/wire.go:264-332 | the message loop and the protocol agree: after the protocol steps a script of answers amounts to, the wire's goroutine stands where the loop ends |
| Lifecycle.PodAppears | operator/internal/controller/actionsrunnerjob/reconciler.go:165-199 | a live job whose status agrees with its claim gets a pod of its own incarnation, unless the create is refused |
| Lifecycle.ClaimAppears | operator/internal/controller/actionsrunnerjob/reconciler.go:114-134 | a live job without a claim gets one of its own incarnation when one is asked for; a refused create leaves everything as it was |
| Lifecycle.ObjectsComeIff | operator/internal/controller/actionsrunnerjob/reconciler.go:114-185 | two answered reconciles bring a live job its claim, and its pod exactly when the claim is neither lost nor going away |
| Lifecycle.StatusFollows | operator/internal/controller/actionsrunnerjob/reconciler.go:136-199 | an answered reconcile copies the claim's phase, and once that agrees the pod's, and changes nothing else of the job |
| Lifecycle.RefusedStatus | operator/internal/controller/actionsrunnerjob/reconciler.go:141-145 | a refused status write leaves the status alone |
| Lifecycle.PodMarkedIff | operator/internal/controller/actionsrunnerjob/reconciler.go:201-214 | exactly when a reconcile marks the pod for deletion: it is Unknown and the status, which agrees with a claim that is fine, says so |
| Lifecycle.ClaimMarkedIff | operator/internal/controller/actionsrunnerjob/reconciler.go:150-163 | exactly when it marks the claim: it is Lost and the status says so |
| Lifecycle.TokenBecomesJob | operator/internal/controller/actionsrunner/reconciler.go:270-285 | without a job a waiting token is consumed and becomes a fresh job, unless the create is refused |
| Lifecycle.ListensWithoutJob | operator/internal/controller/actionsrunner/reconciler.go:287-293 | without a job and a token the wire listens afterwards |
| Lifecycle.JobMarkedIff | operator/internal/controller/actionsrunner/reconciler.go:301-329 | a job is marked for deletion exactly when it is live and its status says its claim is lost or its pod Succeeded, Failed or Unknown |
| Lifecycle.TokenArrives | operator/internal/controller/actionsrunner/reconciler.go:268-285 | from every reachable state without a job and with a token on its way, the send still to come and one answered reconcile make the job |
| Lifecycle.MessageBecomesPod | operator/internal/controller/actionsrunner/wire/wire.go:294-310 | a run from nothing in which a message that broke no rule becomes a job with its pod, and its claim if one is asked for |
| Lifecycle.DeletedJobGoes | operator/internal/controller/actionsrunnerjob/reconciler.go:94-97 | a job being deleted can go, with its pod and claim |
| Lifecycle.NoDeadEnd | operator/internal/controller/actionsrunner/reconciler.go:268-332 | from every reachable state the runner can come back to having no job, pod or claim |
| ReplicaSet.Store.CountLive | operator/internal/controller/actionsrunnerreplicaset/reconciler.go:158-165 | counts the replicas not being deleted |
| ReplicaSet.Store.UpdateStale | operator/internal/controller/actionsrunnerreplicaset/reconciler.go:214-229 | writes every live replica of another spec in order, up to the first refusal |
| ReplicaSet.Store.Reconcile | operator/internal/controller/actionsrunnerreplicaset/reconciler.go:140-231 | the reconcile run statement by statement has the state and writes of the specification |
| ReplicaSet.NeverAway | operator/internal/controller/actionsrunnerreplicaset/reconciler.go:168-212 | no reconcile, whatever is refused and whichever replica is listed first, moves the live count across or away from the desired one or raises the distance from rest; a completed deletion changes no live replica |
| ReplicaSet.QuietIff | operator/internal/controller/actionsrunnerreplicaset/reconciler.go:140-229 | a reconcile attempts no write exactly when selector, live count and all live specs are as wanted, and then changes nothing |
| ReplicaSet.CreateAdds | operator/internal/controller/actionsrunnerreplicaset/reconciler.go:168-190 | a set short of replicas gets one more, live, of the template and under a new name, and nothing else changes |
| ReplicaSet.DeleteMarks | operator/internal/controller/actionsrunnerreplicaset/reconciler.go:192-201 | a set with a surplus has the replica listed first marked and no other touched |
| ReplicaSet.OnlyStaleUpdated | operator/internal/controller/actionsrunnerreplicaset/reconciler.go:214-229 | the update loop changes the spec of live replicas of another spec and nothing else, each one before the first refusal |
| ReplicaSet.NamesKept | operator/internal/controller/actionsrunnerreplicaset/reconciler.go:168-182 | replicas keep names of their own under every step |
| ReplicaSet.ProgressOrPending | operator/internal/controller/actionsrunnerreplicaset/reconciler.go:168-212 | an answered reconcile of any other set strictly lowers (selector wrong, twice the distance of live from desired + terminating, stale specs), or picked a replica already terminating whose completion will |
| ReplicaSet.Converges | operator/internal/controller/actionsrunnerreplicaset/reconciler.go:140-231 | in rounds of one answered reconcile and the completion of all deletions, the set is converged after at most as many rounds as that measure, whichever replicas were listed first |
| ReplicaSet.MovesBounded | operator/internal/controller/actionsrunnerreplicaset/reconciler.go:116-232 | under any schedule of reconciles and single completions, with any refusals, at most as many steps as that measure change the selector or a replica |
| ReplicaSet.RestsIff | operator/internal/controller/actionsrunnerreplicaset/reconciler.go:116-232 | and no step changes a set exactly when it is converged with nothing terminating |
| ReplicaSet.CountRightIff | operator/internal/controller/actionsrunnerreplicaset/reconciler.go:168-212 | an answered create or delete leaves the live count in the status exactly when it created, or the replica it picked was live |
| ReplicaSet.RefusedCountSticks | operator/internal/controller/actionsrunnerreplicaset/reconciler.go:177-187 | a create whose status write is refused: the set is converged, the count is wrong, and no later reconcile changes it |
| ReplicaSet.SettledCountIff | operator/internal/controller/actionsrunnerreplicaset/reconciler.go:140-231 | in answered rounds the settled count is the desired one if and only if the set had replicas to make or remove, or the count was right at the start |
| ContextData.PipelineContextData.UnmarshalJSON | operator/internal/controller/actionsrunner/wire/context.go:43-69 | fails exactly when decoding does and otherwise leaves the decoded value in a fresh receiver |
| ContextData.Flattened | operator/internal/controller/actionsrunner/wire/context.go:71-111 | the recursion with its two loops returns the flattened value or the first error |
| ContextData.DecodesIff | operator/internal/controller/actionsrunner/wire/context.go:43-69 | a JSON value decodes exactly when it has the format's shape at every depth, as stated without the decoder |
| ContextData.RoundTrip | operator/internal/controller/actionsrunner/wire/context.go:43-111 | every encoding of a value, with shorthand and tagged forms mixed freely, either dictionary tag, any order of keys and any well-formed idle fields, decodes and flattens to that value; null to the empty string |
| ContextData.EncodesOneValue | operator/internal/controller/actionsrunner/wire/context.go:43-111 | no JSON value encodes two values |
| ContextData.HasTaggedEncoding | operator/internal/controller/actionsrunner/wire/context.go:71-111 | every value has an encoding that is tagged at every node, for either dictionary tag |
| ContextData.LastPairWins | operator/internal/controller/actionsrunner/wire/context.go:88-98 | of pairs with one key the last decides |
| ContextData.PairsFlatten | operator/internal/controller/actionsrunner/wire/context.go:88-98 | a dictionary flattens exactly when all its values do, to exactly the keys listed |
| ContextData.FailsIff | operator/internal/controller/actionsrunner/wire/context.go:107-109 | flattening fails exactly when an unknown tag is reachable through active children |
| ContextData.ErrorIsFirst | operator/internal/controller/actionsrunner/wire/context.go:107-109 | and the error names the first such tag in document order |
| Validator.PolicyValidator.CompileRule | operator/internal/controller/actionsrunner/wire/validator.go:105-123 | what compiling gives, from the cache or not; only that rule is ever added to the cache |
| Validator.PolicyValidator.ValidateMust | operator/internal/controller/actionsrunner/wire/validator.go:53-77 | the verdict of the must rules, independent of the cache |
| Validator.PolicyValidator.ValidateMustNot | operator/internal/controller/actionsrunner/wire/validator.go:79-101 | the verdict of the mustNot rules, independent of the cache |
| Validator.PolicyValidator.Validate | operator/internal/controller/actionsrunner/wire/validator.go:21-51 | the verdict an empty cache would give, whatever earlier calls left there, and a cache fit for the next call |
| Validator.AcceptedIff | operator/internal/controller/actionsrunner/wire/validator.go:21-101 | accepted exactly when every context flattens, every rule parses and compiles, every must rule's first output is true and no mustNot rule's is |
| Validator.ComplaintIsFirst | operator/internal/controller/actionsrunner/wire/validator.go:21-101 | otherwise the rule named is the first that fails, must before mustNot, as bad if it does not compile and as violated if it does |
| Validator.MoreRulesAcceptLess | operator/internal/controller/actionsrunner/wire/validator.go:21-51 | adding rules anywhere never turns a rejected request into an accepted one |
| NodeAffinities.WithRuntimeAffinity | operator/internal/controller/actionsrunner/util/converters.go:534-575 | rewrites in place the affinity, node affinity and selector that exist, makes those that do not, keeps the preferred terms, and leaves the rewritten required terms |
| NodeAffinities.RewriteAdmits | operator/internal/controller/actionsrunner/util/converters.go:534-575 | for every affinity and node: admitted afterwards exactly when both labels match and the node was admitted before or the selector listed no term or an empty one |
| NodeAffinities.MeaningKept | operator/internal/controller/actionsrunner/util/converters.go:534-575 | without such a void selector: admitted afterwards exactly when admitted before and both labels match |
| NodeAffinities.VoidWidens | operator/internal/controller/actionsrunner/util/converters.go:545-548 | with one, every node with the labels is admitted, even where none was before |
| NodeAffinities.RewriteTwice | operator/internal/controller/actionsrunner/util/converters.go:534-575 | rewriting twice admits the same nodes as once |

## Left out

- Dind.Cache: getters without effects are used as map lookups.
- Dind.StartPorts: the inner loop of `setupContainerPortProxy`, a method of its own so that each loop has its own invariant.
- Dind.IpTables.Delete: an iptables chain is a sequence of NETMAP rules; other rules and other tables are not modelled.
- Dind.PortProxies.AddPortProxy: socat, nsenter and process signals are a sequence of started requests and a set of killed PIDs; which starts fail is a parameter, and that a kill may fail is not modelled.
- Collisions.ProxiesDoNotCollide: networks with several subnets, IPv6 subnets and prefixes shorter than 16 are excluded, because there addresses can agree in their last two octets, and then by `Dotted.RewriteInjective` their rewrites coincide.
- Tokens.MintsImplyGrants: stated without expiry and eviction; `Tokens.EvictionMintsEarly` shows why.
- Credentials.CreatedOnce: a credential found within a minute of its end, or that cannot be read, has expired from then on; each is one event of the environment.
- Credentials.EveryCallFinishes: newly arriving callers are not part of the continuation; each adds at most 18 statements.
- Listener.AtMostOneLoop: concurrent `Close`, `Collection.Deinit` and shutdown signals are left out, as is the memory model's view of the unlocked flag.
- MessageLoop.Run: the two calls that set the session up before the loop, and the notifier channel's own readers, are left out.
- RunnerJob.Store.RunnerReconcile: the ConfigMap, Secret and PodDisruptionBudget steps before it, and the deletion of the ActionsRunner itself, are left out; each reconcile is one atomic step, so the race inside `Listen` is only in the Listener module.
- RunnerJob.OwnObjectsOnly: reads are current, so stale informer caches and conflict errors are left out; a refused write is one of the answers.
- ReplicaSet.ProgressOrPending: speaks of live replicas; what becomes of `Status.Replicas` is in the three lemmas on the count.
- ReplicaSet.Store.UpdateStale: the listed order is the same in the store and in the list; a write that finds its replica gone counts as accepted, as in the code.
- ContextData.PipelineContextData.UnmarshalJSON: starts from a JSON value with unique keys; lexing, keys that differ from a field name in case only, rounding and overflow of numbers, and receivers that already hold a value are left out.
- Validator.PolicyValidator.Validate: gojq is a pair of functions and the first output of a run; which of several contexts that fail to flatten is reported depends on Go's map order and is not distinguished, and cancellation of the context shows only as an output that is not a boolean.
- NodeAffinities.WithRuntimeAffinity: slices are sequences, so two selectors whose slices share a backing array are not modelled.
- The other pod builders of `util/converters.go` (volumes, mounts, capabilities, config objects): they would add easy members.
- Docker's API, the interrupt listener, starting dockerd, JWT, RSA, PKCS7, OAuth2 and HTTP calls: their outcomes are events or parameters.
- Webhooks, metrics, logging, generated code, the runner image and manifests: plumbing.
