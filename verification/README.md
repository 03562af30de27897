# A verified model of the DNS load balancer controllers

Two controllers share a store of `DNSLoadBalancer` and `DNSLoadBalancerEndpoint` objects. The *source
controller* turns annotated services and ingresses into endpoint objects and renews their deadlines. The
*DNS controller* indexes these endpoints, probes them round by round, decides which hosts a DNS name points
to, writes the outcome back as object states, and deletes endpoints whose deadline has passed.

This project states what that code does in Dafny and proves what it guarantees. `dafny verify dfyconfig.toml`
checks all of it.

## Structure

| file | content |
|---|---|
| `Api.dfy`, `Ordering.dfy` | shared object types; the string order behind sorted lists |
| `Selection.dfy` | selection of targets as plain functions: order independence, stickiness |
| `Feedback.dfy`, `FeedbackLaws.dfy` | the once-only feedback object as a class, and what it promises |
| `Round.dfy`, `Watch.dfy`, `Runs.dfy` | one DNS round as a function, the imperative round that computes it, promises over many rounds |
| `StateReconciler.dfy` | the endpoint reconciler that writes the same state field as the rounds |
| `Lease.dfy`, `Renewals.dfy`, `DnsSource.dfy` | deadlines across both controllers; spacing of rewrites; collection of targets and clean-up |
| `SubObjectCache.dfy`, `Index.dfy` | the index class from load balancers to endpoints, and its agreement with the store |
| `Ownership.dfy`, `SourceReconciler.dfy` | source, finalizer and endpoints as single API operations; the imperative reconciler that only takes such steps |
| `Sources.dfy`, `Reference.dfy` | addresses of services and ingresses; the annotation that names a load balancer |

Imperative code is modelled by classes and methods with loops (`DNSDone`, `WatchRequest`, `DNSLBSource`,
`StateReconciler`, `Cache`, `Controller`, `Reconciler`, the source loops). Each is proved equal to a plain
function or to a step of a state machine, and the results over runs are proved about those. A pass of
`Reconciler.Reconcile` is proved to be both a sequence of steps of `Ownership` and a pass of `Lease`.

## Where a plausible guarantee does not hold

Six guarantees that one would expect fail for the code as it is. Each is kept as the code has it, shown to
fail by a concrete history, and replaced by the exact condition under which it holds.

- **The index follows the store** (`Index.IndexAgreesIff`, `Index.RepointedEndpointStays`). `renewSubObject`
  calls `newowners.DiffFrom(oldowners)`, which yields the change from the new owners back to the old ones, so a
  filed endpoint that names another load balancer stays where it was. The index agrees with the store, up to
  queued keys, in all states of a history if and only if the reconciler never meets such an endpoint.
- **A failed update is tried again** (`SourceReconciler.Reconciler.RetryLostUpdate`,
  `SourceReconciler.LostUpdateIff`, `SourceReconciler.LoseAddressChange`). `updateEndpoint` changes the cached
  object in place (pkg/dnslb/endpoint/endpoint.go:54-74), and nothing restores it when the update fails
  (vendor/github.com/gardener/controller-manager-library/pkg/resources/subcache.go:142-150, obj_lifecycle.go:66-72
  beside it). The next pass finds the change already made and succeeds without writing. The store then reaches the
  desired state if and only if a watch event has replaced the cached object in between, or an interval is set and
  at most 120 s of the unwritten deadline remain. The endpoint state reconciler of the DNS controller works on a
  copy made for each pass, so it does try again (`StateReconciler.RetriedUntilWritten`).
- **Leases protect live sources** (`Lease.LeaseSafetyIff`). A renewal gap equal to the validity interval is not
  safe, because deadlines are stored in whole seconds and kept while more than 120 s remain; and no gap is safe
  when a pass finds a deadline up to date that a failed update left unwritten (`Lease.UnwrittenDeadlineTrusted`).
  Live sources are safe if and only if no pass does that and the gap is within `Lease.Protection`: at most
  120 s + 1 ns and at most the shortest interval minus (1 s - 1 ns), if updates never fail; just under a second
  less than the smaller of 120 s + 1 ns and the shortest interval, if they may fail.
- **Deadline rewrites are spaced by the interval minus 120 s** (`Renewals.FullSpacingIff`). Rounding takes the
  fraction of a second of the first deadline once, and that of the interval at every later rewrite
  (`Renewals.EarliestClosedForm`, `Renewals.SpacingAttained`). The full spacing is guaranteed if and only if the
  interval is at most 120 s, or interval and first rewrite fall on whole seconds.
- **No endpoint is orphaned** (`Ownership.NoOrphansIff`). This holds, although the reconciler may be handed
  outdated objects, if and only if a create that reports an error has had no effect, and no object that asks for an
  endpoint still shows a finalizer that is gone. The second hazard needs no restart: `RemoveFinalizer` retries on
  the newest object (vendor/github.com/gardener/controller-manager-library/pkg/resources/obj_internal.go:76-103),
  so a reference put back during a release loses its finalizer, and the next pass may be handed the object as it
  was just before.
- **Status and DNS agree** (`Runs.StatusAgreesWithDnsIff`, `Runs.OutsideFailureDisagrees`). A failure reported from
  outside `Handle` clears the active list although the hosts stay published. They agree if and only if nothing is
  healthy or the first callback is no failure.

The repository's README says that the DNS controller discards outdated endpoints. The code does so only after
its first three minutes, and only for endpoints that offer an address (`DnsSource.CleanupRule`); an endpoint
without a deadline is never discarded (`DnsSource.DeadSourceTargetedIff`).

Two smaller deviations are modelled as they are. `newEndpoint` computes labels but does not hand them to the
object it builds, so endpoints are created without them and updates remove them (`SourceReconciler.DesiredState`).
`Delete` does not recognise a source whose annotation is gone and leaves its finalizer in place
(`SourceReconciler.Reconciler.Delete`).

## Assumptions

- Time is an integer count of nanoseconds read by both controllers from one clock. Health checks are one answer
  per target position, the check of the DNS name is one answer, and the order in which Go ranges over a map is
  an arbitrary choice.
- A DNS round works with copies of the load balancer and the endpoints; the API server refuses a write that is
  based on an old version, and accepts the others. In the results over several rounds (`Runs`) these copies are
  what is stored. Targets come from the index, whose histories give them distinct names
  (`DnsSource.ListedTargetsAreBacked`).
- A cached object is replaced by a watch event only by what is then stored (`Lease.Refresh`,
  `SourceReconciler.Reconciler.RenewSlave`).
- One reconcile at a time runs for a source (the work queue serialises keys). Whatever other actors do between
  its API calls is a step of `Ownership`, not of the methods in `SourceReconciler`, and these methods are handed
  the source object as it is stored; `Ownership` also lets it be outdated.
- A pass of the endpoint state reconciler is handed a copy of what the informer has
  (vendor/github.com/gardener/controller-manager-library/pkg/controllermanager/controller/worker.go:134-136); over
  several passes (`StateReconciler.Passes`, `StateReconciler.Settle`) that is what is stored.

## Model

| member | source | states |
|---|---|---|
| Selection.ChoiceRule | pkg/dnslb/lb/watch/watch.go:171-198 | Exclusive mode picks the last healthy target that DNS already names alone, else the first healthy one, else none, stated by position |
| Selection.PublishedExclusive | pkg/dnslb/lb/watch/watch.go:117-132 | a healthy current host is kept, otherwise the first healthy host is published, at most one, and some host exactly if any is healthy |
| Selection.PublishedBalanced | pkg/dnslb/lb/watch/watch.go:199-216 | Balanced mode publishes exactly the hosts with a healthy target |
| Selection.BalancedIgnoresOrder | pkg/dnslb/lb/watch/watch.go:199-216 | Balanced mode publishes the same set for every permutation of the targets |
| Selection.ExclusiveIgnoresOrderIff | pkg/dnslb/lb/watch/watch.go:171-198 | Exclusive mode is the same for all permutations iff DNS names one host with a healthy target or all healthy targets share a host |
| Selection.Sticky | pkg/dnslb/lb/watch/watch.go:171-198 | over whole runs: once exactly {h} is published it stays published through n rounds iff each of them finds a healthy target for h |
| Feedback.TouchOneMore | pkg/dnslb/lb/watch/feedback.go:113-118 | touching endpoints one by one, in any order, has one joint effect in which each is attempted at most once, only if its copy differs, and lands only if the copy is the stored version |
| Feedback.DNSDone.AddHealthyTarget | pkg/dnslb/lb/watch/feedback.go:75-80 | counts the target and files its endpoint as healthy, nothing else |
| Feedback.DNSDone.AddActiveTarget | pkg/dnslb/lb/watch/feedback.go:82-87 | counts the target and files its endpoint as active, nothing else |
| Feedback.DNSDone.AddUnhealthyTarget | pkg/dnslb/lb/watch/feedback.go:89-93 | files the endpoint as unhealthy without counting it |
| Feedback.DNSDone.UpdateLoadBalancerStatus | pkg/dnslb/lb/watch/feedback.go:122-172 | attempts a write exactly if state, message or active list differ from the copy; it lands exactly if the copy is the stored version |
| Feedback.DNSDone.ActiveKeys | pkg/dnslb/lb/watch/feedback.go:141-145 | collecting the names in any map order and sorting them gives the one strictly sorted list of them |
| Feedback.DNSDone.CollectActive | pkg/dnslb/lb/watch/feedback.go:138-154 | the list has the entry of each active endpoint in that order |
| Feedback.DNSDone.UpdateEndpointStatus | pkg/dnslb/lb/watch/feedback.go:174-191 | sets state, message and health in a copy of one endpoint, attempts a write only if the copy changes, and the write lands only on the version the copy is based on |
| Feedback.DNSDone.UpdateStatus | pkg/dnslb/lb/watch/feedback.go:109-120 | has an effect only on the first call: load balancer, then healthy, then unhealthy endpoints |
| Feedback.DNSDone.Error | pkg/dnslb/lb/watch/feedback.go:195-211 | completes once, reports an error state with the pending announcement in front, touches no endpoint |
| Feedback.DNSDone.Deliver | pkg/dnslb/lb/watch/feedback.go:46-59 | each callback completes the object; only the completing one has an effect, told apart by the stored state in `FeedbackLaws.LbReported`; all but a failure drop the pending announcement |
| Feedback.DNSDone.DeliverAll | pkg/dnslb/lb/watch/feedback.go:46-59 | for any finite sequence of callbacks the effect is that of the first one, or none if the object was already completed |
| FeedbackLaws.ActiveListIgnoresOrder | pkg/dnslb/lb/watch/feedback.go:138-154 | every order of iterating the active map gives the same stored list |
| FeedbackLaws.ActiveListShape | pkg/dnslb/lb/watch/feedback.go:138-154 | strictly sorted by endpoint name, one entry with the address and host name of each active endpoint, no other entry |
| FeedbackLaws.ActiveListDetermines | pkg/dnslb/lb/watch/feedback.go:138-154 | equal lists exactly for equal active maps |
| FeedbackLaws.UpdateDetectedIff | pkg/dnslb/lb/watch/feedback.go:163-171 | the equality check before a write sees a difference exactly if state, message or content of the active map differ |
| FeedbackLaws.WritesAtMostOnce | pkg/dnslb/lb/watch/feedback.go:109-120 | at most one load balancer write, at most one write per endpoint of the round, none for other endpoints, none after a failure |
| FeedbackLaws.RoundWritesAtMostOnce | pkg/dnslb/lb/watch/watch.go:142-228 | a whole round, also one without endpoints or one that fails by itself, writes the load balancer at most once and each probed endpoint at most once, and endpoints only when a callback other than a failure arrives while something is healthy or to be withdrawn |
| FeedbackLaws.EndpointReported | pkg/dnslb/lb/watch/feedback.go:174-191 | afterwards an endpoint of the round whose copy is what is stored has its probed health and is Active iff in the active map, else Inactive; deadlines, other endpoints and endpoints with an outdated copy are untouched |
| FeedbackLaws.LbReported | pkg/dnslb/lb/watch/feedback.go:46-137 | Healthy iff all went well and the DNS name answers, Unreachable iff it does not, Pending, Invalid and Error iff the callback is that one, and the exact message |
| FeedbackLaws.LbVersion | pkg/dnslb/lb/watch/feedback.go:163-171 | a report attempts one load balancer write and makes one new version iff it changes the stored status |
| FeedbackLaws.EndpointVersion | pkg/dnslb/lb/watch/feedback.go:174-191 | the same for every endpoint of the round whose copy is what is stored |
| FeedbackLaws.RoundReported | pkg/dnslb/lb/watch/watch.go:142-228 | the stored state and message after a whole round, from its inputs alone: its own error without targets or with nothing healthy and nothing to withdraw, else the first callback, a failure being preceded by the announcement iff the published hosts change |
| FeedbackLaws.OldCopyReportsNothing | pkg/dnslb/lb/watch/feedback.go:163-171 | a report based on an outdated copy of the load balancer leaves the stored one as it is |
| Round.HealthPartition | pkg/dnslb/lb/watch/watch.go:171-214 | healthy and unhealthy maps partition the targets, active is within healthy (one iff any in Exclusive, all in Balanced), the counter is 2*healthy or healthy+1, so HasHealthy is exact |
| Round.BalancedGathersSame | pkg/dnslb/lb/watch/watch.go:201-213 | in Balanced mode any permutation of the targets gathers the same maps, counter and published set |
| Watch.WatchRequest.Check | pkg/dnslb/lb/watch/watch.go:117-123 | true iff DNS names exactly the host of this target |
| Watch.WatchRequest.Apply | pkg/dnslb/lb/watch/watch.go:125-132 | stores the host set of the targets and reports whether it differs from what DNS says |
| Watch.WatchRequest.SelectOne | pkg/dnslb/lb/watch/watch.go:171-198 | the Exclusive loop computes the specified choice and gathers the specified maps |
| Watch.WatchRequest.SelectAll | pkg/dnslb/lb/watch/watch.go:201-213 | the Balanced loop selects all healthy targets and gathers the specified maps |
| Watch.WatchRequest.Handle | pkg/dnslb/lb/watch/watch.go:142-228 | returned hosts, gathered feedback with the announcement iff the hosts change (`FeedbackLaws.RoundReported`), and which failures are reported before any callback, in all three outcomes |
| Watch.WatchRequest.RunRound | pkg/dnslb/lb/watch/watch.go:142-228 | a whole round with its callbacks, for whatever copies of load balancer and endpoints it works with, leaves exactly the store of the specified round |
| Runs.ActiveHosts | pkg/dnslb/lb/watch/watch.go:35-40 | the hosts of the active endpoints (cname if set, else IP) are exactly the published set |
| Runs.StatusAgreesWithDnsIff | pkg/dnslb/lb/watch/feedback.go:122-162 | after a reporting round the stored active list names exactly the published hosts iff no target is healthy or the first callback is no failure |
| Runs.OutsideFailureDisagrees | pkg/dnslb/lb/watch/feedback.go:195-211 | a round after which the stored list is empty although a host is published |
| Runs.EndpointsTellSelection | pkg/dnslb/lb/watch/feedback.go:109-120 | after any feedback but a failure each endpoint of the round has its target's health and is Active iff its target is selected, in both modes |
| Runs.LosingAllHealth | pkg/dnslb/lb/watch/watch.go:216-225 | without a healthy target the published set is withdrawn, and the round fails by itself iff there was nothing to withdraw |
| Runs.PublishedFixpoint | pkg/dnslb/lb/watch/watch.go:125-132 | feeding the published set back publishes the same set |
| Runs.SettledRoundIdempotent | pkg/dnslb/lb/watch/watch.go:142-228 | when the published set is what DNS says, a round repeated on its own effect (and that of the endpoint reconciler) writes nothing |
| Runs.RoundAndReconcile | pkg/dnslb/lb/watch/watch.go:142-228 | a round of the watch object followed by a sweep of the state reconciler is one step of these runs |
| Runs.Quiescence | pkg/dnslb/lb/watch/feedback.go:109-191 | from any statuses and any published set, with unchanged surroundings, the third and every later round write nothing, in both modes and for every callback |
| Runs.SecondRoundWrites | pkg/dnslb/lb/watch/watch.go:216-225 | two rounds are not enough: losing the last healthy target always leaves a write to the second round |
| StateReconciler.UpdateState | pkg/dnslb/utils/ep.go:75-90 | the tracked writes give the specified status and report a modification iff it differs |
| StateReconciler.StateReconciler.Reconcile | pkg/dnslb/lb/state_reconciler.go:35-56 | an endpoint without a findable load balancer becomes Invalid with the reason, an Invalid one whose load balancer is back becomes Pending; the object of the pass goes to the index as changed, the store changes only if the write is accepted |
| StateReconciler.StateReconciler.ReconcileAll | pkg/dnslb/lb/state_reconciler.go:35-56 | passes over all stored endpoints in any order have one joint effect with exact write counts, and leave the index with what is stored |
| StateReconciler.RetriedUntilWritten | vendor/github.com/gardener/controller-manager-library/pkg/controllermanager/controller/worker.go:134-166 | a state update that fails is attempted by every later pass until one is accepted; then the endpoint has the reconciled status and nothing more is written |
| StateReconciler.ReportsIgnoreUnwritten | pkg/dnslb/lb/state_reconciler.go:38-48 | a change that was never written but is still in the index makes no difference to what a DNS round reports about the endpoint |
| StateReconciler.ReconciledRule | pkg/dnslb/lb/state_reconciler.go:39-48 | Invalid afterwards iff the load balancer is not found, with the reason as message; an Invalid endpoint whose load balancer is back is Pending without a message, any other stays as it was; idempotent; never undoes what a DNS round wrote |
| StateReconciler.AttemptRule | pkg/dnslb/utils/ep.go:75-90 | an update is attempted iff something changes, and lands as the next version iff it is accepted and based on the stored version |
| Lease.NeverDeletesLive | pkg/dnslb/lb/dns_source.go:101-139 | in every interleaving with failing updates, as long as no pass trusts an unwritten deadline, a live source's endpoint is not deleted by a DNS round, even if it had expired before both controllers started |
| Lease.LeaseSafetyIff | pkg/dnslb/endpoint/endpoint.go:76-92 | safety over all interleavings of passes, failing updates, cache refreshes, propagation, rounds and restarts holds iff no pass trusts an unwritten deadline and the gap is within the protection of one pass |
| Lease.PeriodWithDelayIff | pkg/dnslb/endpoint/controller.go:39 | without failing updates, a period of 60 s plus a delay for the pass and its propagation is safe iff the delay is at most 60 s + 1 ns and the shortest interval at least 61 s - 1 ns plus the delay |
| Lease.CleanUpRule | pkg/dnslb/lb/dns_source.go:101-139 | a clean-up step removes exactly the picked endpoints seen expired, none within three minutes of the start, and touches nothing else |
| Lease.RestartProtects | pkg/dnslb/lb/dns_source.go:62-64 | in every run no clean-up within three minutes after a restart of the DNS controller removes anything |
| Lease.NoDeadlineIff | pkg/dnslb/endpoint/endpoint.go:76-92 | an accurate, accepted pass leaves no deadline iff no interval is set or it is zero |
| Lease.LazyRenewalTooLate | pkg/dnslb/endpoint/endpoint.go:80-86 | a history in which a deadline kept because just more than 120 s remain runs out too early |
| Lease.RoundedDeadlineTooEarly | vendor/k8s.io/apimachinery/pkg/apis/meta/v1/time.go:145-152 | a history in which the fraction of a second lost in storing a deadline deletes a live source's endpoint |
| Lease.LateWriteTooEarly | pkg/dnslb/endpoint/endpoint.go:67-72 | a history in which a deadline left by a failed update loses its fraction of a second when a later pass writes it |
| Lease.UnwrittenDeadlineTrusted | vendor/github.com/gardener/controller-manager-library/pkg/resources/subcache.go:142-150 | a history in which a pass succeeds on a deadline that a failed update left unwritten, and the endpoint is deleted at once |
| Lease.DeadSourceDropsOutIff | pkg/dnslb/lb/dns_source.go:119-139 | whatever fails, once the longest interval has passed since the last visible reconcile and the grace is over, the endpoint is past its deadline iff it has one |
| Renewals.RewriteDueIff | pkg/dnslb/endpoint/endpoint.go:67-92 | a deadline written at one time is rewritten at another iff that is no earlier than the rounded deadline less 120 s |
| Renewals.RewritesSpaced | pkg/dnslb/endpoint/endpoint.go:67-92 | in no history of reconciles does the k-th rewrite come before the earliest time computed from the first one |
| Renewals.SpacingAttained | pkg/dnslb/endpoint/endpoint.go:67-92 | for every first rewrite, interval and number of rewrites, one history has all rewrites at their earliest times |
| Renewals.EarliestClosedForm | pkg/dnslb/endpoint/endpoint.go:67-92 | these times in closed form: rounding costs the fraction of the first deadline once and then that of the interval at each rewrite |
| Renewals.FullSpacingIff | pkg/dnslb/endpoint/endpoint.go:67-92 | n rewrites span n-1 times the interval minus 120 s in every history with this first rewrite iff the interval is at most 120 s or interval and first rewrite are in whole seconds |
| Renewals.WholeSecondLoss | pkg/dnslb/endpoint/endpoint.go:67-92 | for an interval in whole seconds above 120 s any number of rewrites loses less than one second of that span |
| DnsSource.DNSLBSource.HandleCleanup | pkg/dnslb/lb/dns_source.go:119-139 | decides to delete iff the deadline is strictly past, or there is neither a deadline nor a watch, whether or not the delete call succeeds |
| DnsSource.DNSLBSource.GetTargets | pkg/dnslb/lb/dns_source.go:101-113 | for three minutes after the start every endpoint with an address is a target and nothing is deleted; afterwards those whose deadline is strictly past are no targets and are deleted, unless the call is refused; targets come in index order |
| DnsSource.CleanupConserves | pkg/dnslb/lb/dns_source.go:101-113 | every indexed endpoint is targeted, deleted or skipped, counted with multiplicity |
| DnsSource.CleanedNamesExactly | pkg/dnslb/lb/dns_source.go:101-113 | the names a clean-up deletes are those of the deleted part of that partition |
| DnsSource.CleanupRule | pkg/dnslb/lb/dns_source.go:106-111 | in the first 180 s nothing is deleted and all endpoints with an address are targets; afterwards exactly those with no deadline or one not past are targeted and exactly the others are deleted |
| DnsSource.KeptInOrder | pkg/dnslb/lb/dns_source.go:101-113 | targets keep the order in which the index lists their endpoints |
| DnsSource.TargetsAreBacked | pkg/dnslb/lb/dns_source.go:104-107 | targets carry the addresses of distinct endpoints, whatever the health checks say |
| DnsSource.ListedTargetsAreBacked | pkg/dnslb/lb/dns_source.go:101-113 | through any history of the index, also with repointed endpoints, what it lists for a load balancer gives targets backed by distinctly named endpoints |
| DnsSource.LiveSourceIsTargeted | pkg/dnslb/lb/dns_source.go:101-113 | across both controllers, as long as no pass trusts an unwritten deadline, a live source's endpoint is targeted by the next round |
| DnsSource.DeadSourceTargetedIff | pkg/dnslb/lb/dns_source.go:101-139 | once the longest interval has passed since a source's last visible reconcile and the grace is over, its endpoint is targeted iff it offers an address and has no deadline, and cleaned up iff it offers an address and has one |
| SubObjectCache.Cache.Add | vendor/github.com/gardener/controller-manager-library/pkg/resources/subcache.go:201-221 | files the object under one more owner, refreshes it, and keeps the bucket counts exact |
| SubObjectCache.Cache.RemoveByKey | vendor/github.com/gardener/controller-manager-library/pkg/resources/subcache.go:230-247 | takes the key out of one bucket and drops empty buckets and entries in no bucket |
| SubObjectCache.Cache.RenewSubObject | vendor/github.com/gardener/controller-manager-library/pkg/resources/subcache.go:152-174 | the two loops over the owner differences and the final assignment, as one change of the index; reports a change iff the owners named differ from those of the filed object |
| SubObjectCache.Cache.DeleteSubObject | vendor/github.com/gardener/controller-manager-library/pkg/resources/subcache.go:111-121 | removes the key from the buckets of the owners its latest object names, and only from those |
| SubObjectCache.Cache.DeleteOwner | vendor/github.com/gardener/controller-manager-library/pkg/resources/subcache.go:123-134 | empties the bucket and forgets the keys that were in no other |
| SubObjectCache.Cache.GetByKey | vendor/github.com/gardener/controller-manager-library/pkg/resources/subcache.go:180-189 | exactly the latest objects filed under the owner, each once |
| SubObjectCache.Cache.Setup | vendor/github.com/gardener/controller-manager-library/pkg/resources/subcache.go:68-76 | every listed object is filed under exactly the owners it names |
| Index.Controller.constructor | pkg/dnslb/lb/state.go:33-50 | setting up lists all endpoints and leaves nothing queued |
| Index.Controller.ProcessKey | pkg/dnslb/lb/state_reconciler.go:35-62 | renews the entry of a stored endpoint and removes that of a vanished one, as one machine step, and takes the key off the queue |
| Index.Controller.LoadBalancerDeleted | pkg/dnslb/lb/dns_source.go:83-91 | queues exactly the former members of the vanished load balancer in addition, empties its bucket and leaves all others alone |
| Index.MembersAreRevisited | pkg/dnslb/lb/dns_source.go:83-91 | in every history, each former member of a vanished load balancer stays queued until the reconciler has come by |
| Index.ProcessRule | pkg/dnslb/lb/state_reconciler.go:35-62 | a pass takes its key off the queue, files an unfiled endpoint under the load balancer it names, drops one that is gone, and touches no other key |
| Index.StepKeepsAgreement | pkg/dnslb/lb/state.go:52-69 | every step but meeting a repointed endpoint keeps each unqueued key in exactly the buckets the store asks for |
| Index.RenewNeverMoves | vendor/github.com/gardener/controller-manager-library/pkg/resources/subcache.go:160-166 | renewing a filed endpoint never changes its buckets, while the opposite difference would file it correctly |
| Index.RepointBreaksAgreement | vendor/github.com/gardener/controller-manager-library/pkg/resources/subcache.go:159-169 | meeting a repointed endpoint always breaks the agreement and leaves it with the old load balancer |
| Index.IndexAgreesIff | pkg/dnslb/lb/state.go:24-69 | through any history the index agrees with the store in all states iff the reconciler never meets a repointed endpoint |
| Index.DrainedBuckets | pkg/dnslb/lb/state.go:63-65 | with the queue worked off and the index in agreement, each bucket holds exactly the stored endpoints of its namespace that name the load balancer |
| Index.HomesStayLocal | pkg/dnslb/lb/state.go:33-69 | through any history, also with repointed endpoints, a key is filed only under load balancers of its own namespace |
| Index.ListedNamesDiffer | pkg/dnslb/lb/state.go:63-65 | the endpoints listed for a load balancer differ in their plain names |
| Index.RepointedEndpointStays | vendor/github.com/gardener/controller-manager-library/pkg/resources/subcache.go:111-121 | a history after which a moved and deleted endpoint is still listed for its first load balancer |
| Ownership.StepKeepsInv | pkg/dnslb/endpoint/endpoint_reconciler.go:66-114 | every API operation, crash, user action, cache event and pass over an outdated object keeps: one endpoint at most, known to the lookup, and only with the finalizer set |
| Ownership.VanishingLeavesNothing | pkg/dnslb/endpoint/endpoint_reconciler.go:169-188 | whenever the source object disappears it owns no endpoint |
| Ownership.LostCreateOrphans | vendor/github.com/gardener/controller-manager-library/pkg/resources/subcache.go:191-199 | a history with an unnoticed create that ends in an orphan |
| Ownership.StaleFinalizerOrphans | vendor/github.com/gardener/controller-manager-library/pkg/resources/obj_finalizer.go:39-66 | a history in which an object that asks for an endpoint still shows a removed finalizer, ending in an endpoint without finalizer |
| Ownership.NoOrphansIff | pkg/dnslb/endpoint/endpoint_reconciler.go:66-188 | no reachable state has two endpoints or one without the finalizer iff creates do not succeed unnoticed and no object that asks for an endpoint still shows a removed finalizer |
| SourceReconciler.Reconciler.UpdateEndpoint | pkg/dnslb/endpoint/endpoint.go:54-74 | the field by field update turns the cached endpoint itself into the desired one and reports a modification iff a field or the deadline changes |
| SourceReconciler.LabelsSettle | vendor/github.com/gardener/controller-manager-library/pkg/resources/mod.go:65-76 | the three labels end up as wanted, all others stay, and nothing changes iff they were so before |
| SourceReconciler.DesiredState | pkg/dnslb/endpoint/endpoint.go:25-74 | a reconciled endpoint offers exactly the source's address under the referenced name, with the renewed deadline, the former owners and the source, the other labels as they were, and a new version if it changed; it is filed under the referenced load balancer iff it did not already live in another namespace |
| SourceReconciler.RepeatModifiesIff | pkg/dnslb/endpoint/endpoint.go:54-92 | repeating a successful reconcile modifies the endpoint iff an interval is set and at most 120 s remain |
| SourceReconciler.LostUpdateIff | pkg/dnslb/endpoint/endpoint.go:54-92 | after a failed update the next pass with the same inputs finds something to write iff an interval is set and at most 120 s of the unwritten deadline remain |
| SourceReconciler.Reconciler.IsValid | pkg/dnslb/endpoint/endpoint_reconciler.go:133-147 | the reference to act on, and whether the object still counts as a source |
| SourceReconciler.ResolveRule | pkg/dnslb/endpoint/endpoint_reconciler.go:116-147 | a bare annotation names a load balancer in the object's own namespace, ns/name that one; other objects have no reference and count as a source iff annotated and finalized |
| SourceReconciler.Reconciler.Validate | pkg/dnslb/endpoint/endpoint_reconciler.go:149-167 | succeeds iff the load balancer is found and accepts the source; refused for now iff the lookup is unavailable or a load balancer service has no address yet, else refused |
| SourceReconciler.Reconciler.ApiSetFinalizer | vendor/github.com/gardener/controller-manager-library/pkg/resources/obj_finalizer.go:39-50 | sets the finalizer unless the snapshot already has it; a step of the ownership machine |
| SourceReconciler.Reconciler.ApiUpdate | pkg/dnslb/endpoint/endpoint_reconciler.go:92-101 | fails for a vanished endpoint, conflicts for an outdated version, else stores the cached endpoint; on failure the changed copy stays in the cache; a step of the ownership machine |
| SourceReconciler.Reconciler.ApiDeleteSlave | pkg/dnslb/endpoint/endpoint.go:94-106 | deletes the endpoint, counting an absent one as deleted; a step of the ownership machine |
| SourceReconciler.Reconciler.ApiRemoveFinalizer | vendor/github.com/gardener/controller-manager-library/pkg/resources/obj_finalizer.go:52-66 | removes the finalizer if the snapshot has it, which ends a marked object; a step of the ownership machine |
| SourceReconciler.Reconciler.Reconcile | pkg/dnslb/endpoint/endpoint_reconciler.go:66-114 | the exact status and effect of every pass: an accepted source gets the finalizer and exactly the desired endpoint, in the store too iff the store agreed with the cache before or there was something to write; a conflict repeats and another failure delays, leaving the store alone and the changed copy in the cache; a refused source loses its endpoint if it can be deleted, an object without reference the finalizer too; the deadlines move as a pass of the lease machine; only ownership steps are taken |
| SourceReconciler.Reconciler.RenewSlave | vendor/github.com/gardener/controller-manager-library/pkg/controllermanager/controller/reconcile/reconcilers/slavecache.go:297-309 | a watch event replaces or drops the cached endpoint; a step of the ownership machine |
| SourceReconciler.Reconciler.RetryLostUpdate | pkg/dnslb/endpoint/endpoint_reconciler.go:90-107 | after a pass that could not write, the second pass succeeds, but the store reaches the desired state iff a watch event came in between or at most 120 s of the unwritten deadline remain; otherwise the update is lost |
| SourceReconciler.LoseAddressChange | pkg/dnslb/endpoint/endpoint_reconciler.go:90-107 | a history in which the address of a service changes, one update fails, the next pass succeeds, and the store keeps the first address |
| SourceReconciler.Reconciler.Delete | pkg/dnslb/endpoint/endpoint_reconciler.go:169-188 | the exact status and effect of every pass: what the server refuses to delete stays, the finalizer goes only when no endpoint is left; a failure-free pass over a finalized object releases it iff the annotation is still present |
| Sources.GetTargets | pkg/dnslb/endpoint/sources/ingress/source.go:41-61 | by position: with any status entry in use the last ip and the last host name, else nothing for a service and the first foreign host rule for an ingress |
| Sources.LastAddress | pkg/dnslb/endpoint/sources/service/source.go:40-51 | ip and host name are each the last non-empty one of the status |
| Sources.FirstFallback | pkg/dnslb/endpoint/sources/ingress/source.go:52-59 | the fallback is the first host rule that is neither empty nor the load balancer's own name |
| Sources.HasLoadBalancer | pkg/dnslb/endpoint/sources/service/source.go:68-79 | true iff the type is LoadBalancer and the status offers an address, an error iff it is another type |
| Sources.Validate | pkg/dnslb/endpoint/sources/ingress/source.go:63-82 | accepted iff the own name is a host rule and some address or foreign rule exists (ingress), or type and address are there (service); refused for now iff a service has no address yet |
| Sources.AcceptedIsUsable | pkg/dnslb/lb/watch/watch.go:56-58 | an accepted source offers an address that makes a valid target, and a fallback is never the load balancer's own name |
| Reference.LBForSource | pkg/dnslb/endpoint/endpoint_reconciler.go:116-131 | the parsed annotation, whatever the iteration order |
| Reference.RoundTripIff | pkg/dnslb/endpoint/endpoint_reconciler.go:119-124 | parsing "ns/name" gives back (ns, name) iff neither contains a slash |
| Reference.ParseRule | pkg/dnslb/endpoint/endpoint_reconciler.go:119-127 | a bare name lies in the source's namespace; unusable iff two or more slashes |

## Left out

- HTTP and TLS probing and the DNS lookup: replaced by answers given from outside.
- Events, logging, metrics and log deduplication.
- `IsSingleton` and the defaulting of the load balancer type: the mode is an input.
- `GetDNSInfo` beyond the call of `GetTargets` (empty DNS name, TTL), and the DNS entries that the surrounding DNS source reconciler maintains.
- Failing status writes of a round for another reason than an old version: they are only logged.
- SourceReconciler.Reconciler.LoadSlave: `AssertSingleSlave` also deletes surplus endpoints; by the invariant there are none here, and in `Ownership` such a deletion is an endpoint vanishing.
- SourceReconciler.Reconciler.Delete: a deleted source without the annotation keeps its finalizer, as in the code; no liveness is claimed for it.
- A watch event that delivers an older version of an endpoint than the cache already holds.
- Renewals.RewritesSpaced: takes every rewrite to succeed and the interval to stay the same.
- Lease.PeriodWithDelayIff: the delay of a pass and of its propagation is a parameter, as is the schedule of passes.
- The usage index that triggers reconciles when a load balancer changes, and the scheduling of retries.
- Garbage collection by Kubernetes owner references, which can only delete further endpoints.
- Finite widths of times and durations, and clock differences between the controllers.
- Owner filters of the index: the DNS controller sets none.
