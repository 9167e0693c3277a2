# Verified model of the kcp multicluster provider

This project models, in Dafny, the parts of the repository that keep state or
answer queries, and proves what they promise.

- **Provider** (`Registry.dfy`, `Provider.dfy`, `ProviderConcurrency.dfy`,
  `ProviderLinearization.dfy`, `ProviderSafety.dfy`, `ProviderProgress.dfy`,
  `ProviderSequential.dfy`, `ProviderConvergence.dfy`). `Registry` is a plain
  map with three operations: register if absent, withdraw one's own
  registration, disengage a name. `Providers.Provider` is the object with its
  two maps and its contexts; each critical section is proved to do one of these
  operations. `ProviderConcurrency` interleaves any number of AddFunc,
  DeleteFunc and Get activations step by step (lock operations, single map
  accesses, cancellations, calls) and proves an invariant that depends on who
  holds the lock; `ProviderLinearization` shows that every interleaving is a
  history of the plain map; `ProviderSafety` states the results about whole
  runs, `ProviderProgress` that no run gets stuck, and `ProviderSequential` that
  an activation which is alone does what the plain closure does.
  `ProviderConvergence` is the provider behind its informer: a store, a queue
  filled in the same step as each store change, one handler.
- **Readers** (`Keys.dfy`, `Objects.dfy`, `Indexer.dfy`, `Queries.dfy`,
  `CacheReader.dfy`, `QueryProperties.dfy`, `QueryErrors.dfy`,
  `ScopedCache.dfy`, `ReadIsolation.dfy`). Get, List and byIndexes over an
  indexer of heap objects, each proved against a specification over store
  contents, which is then shown to be a plain scan, and to refuse exactly the
  requests it should. Answers are sequences of store keys, since an indexer may
  enumerate a bucket in any order.
- **Scoped informers** (`ScopedInformer.dfy`), **wildcard cache**
  (`Wildcard.dfy`) and the **example controller** (`Application.dfy`).

`dafny verify dfyconfig.toml` checks everything.

Findings about the code, each a lemma below:

- A slow AddFunc may call Engage after its name was disengaged, registered again
  and engaged by another activation; its own context is cancelled then.
  `EngageStartsAloneIff` says exactly when; `LateEngageFindsAnotherRunning` is a
  run in which it happens.
- A failed creation or Engage is not retried until the cluster's next Added
  event, so a drained provider can miss a cluster (`FailedAttemptIsNotRetried`);
  `DrainedProviderHasConverged` says exactly which names are registered.
- If the cluster index is not there, DeleteFunc gives up and stale names stay
  (`NoStaleNamesIffIndexed`).
- Two Applications of one cluster with the same name in different namespaces
  share their provider objects (`ApplicationsShareObjectsIff`).
- A field selector on a cluster-aware indexer through an unscoped reader asks
  for cluster "" and finds nothing, even in indexes in the reader's own format.
  `EncodedFieldListIsScan` says that this is the only case in which it misses
  something; `UnscopedFieldListMissesObject` is the instance of one stored
  object.

Assumptions, written as preconditions (`LegalObject`, `LegalStore`,
`KeyedByCluster`, `StandardIndexes`): cluster names are not empty, not `*`, and
contain no `|` or `/`; namespaces contain no `/` and are not `__all_namespaces`;
object names contain no `/`; the informer stores an object under
`cluster|namespace/name`, or `cluster|name` without a namespace; the key helpers
of the external kcp cache package produce the strings of `indexes.go`.
`Providers.Provider` and the concurrent model take as inputs whether a cluster
could be created, whether Engage succeeded and what the index answered.

## Model

| member | source | states |
|---|---|---|
| Providers.Provider.Register | virtualworkspace/provider.go:125-151 | The slow path registers a fresh cluster with a fresh live context if the name is absent and creation succeeds, leaves both maps alone otherwise, and never leaves a live context unregistered |
| Providers.Provider.CleanUp | virtualworkspace/provider.go:154-163 | After a failed Engage the activation's context is cancelled and its registration, and no newer one, is withdrawn from both maps |
| Providers.Provider.AddFunc | virtualworkspace/provider.go:117-164 | Run by itself, AddFunc registers one new pair exactly when the name was absent and nothing failed, and otherwise leaves the maps as they were |
| Providers.Provider.DeleteFunc | virtualworkspace/provider.go:165-199 | Only an empty index answer disengages the name, cancelling exactly the context registered for it |
| Providers.Provider.Get | virtualworkspace/provider.go:216-224 | Get answers with the registered cluster of that name, whose context is not cancelled, or says not found |
| ProviderConcurrency.LockInvStep | virtualworkspace/provider.go:126-224 | Every step keeps mutual exclusion: one writer and no readers, or no writer |
| ProviderConcurrency.InvStep | virtualworkspace/provider.go:117-224 | Every step of every interleaving keeps, at each name, the two maps and the one live context in the relation that the lock holder's position prescribes |
| ProviderConcurrency.ActivationsAreAsStarted | virtualworkspace/provider.go:117-224 | In every run the activations are those that were started, in that order, each in the closure and at the name it was started for |
| ProviderLinearization.LoggedOperationIsAtomic | virtualworkspace/provider.go:125-162 | The one step at which an operation is recorded is the step at which the sequential map would perform it with the same answer; all other steps leave the map alone |
| ProviderSafety.UnlockedProviderIsConsistent | virtualworkspace/provider.go:126-197 | In every reachable state without a writer both maps hold the same names, pairs come from one activation, and the contexts made but not cancelled are exactly the registered ones |
| ProviderSafety.GetAnswersLiveCluster | virtualworkspace/provider.go:216-224 | In every run, what a Get started for a name has found is what is registered there, and live, until it unlocks; it answers with that, having looked up once, and is never anywhere but in Get |
| ProviderSafety.AtMostOneLivePerName | virtualworkspace/provider.go:134-163 | In every reachable state at most one context per cluster name is live |
| ProviderSafety.EngageStartsAloneIff | virtualworkspace/provider.go:141-163 | When an activation is about to call Engage all other engagements of the name are cancelled, if and only if no other engaged and live activation is registered for it; in particular if its own context is live |
| ProviderSafety.LateEngageFindsAnotherRunning | virtualworkspace/provider.go:151-154 | A concrete run in which Engage is called while another engagement of the name is running |
| ProviderSafety.LateFailureSparesOthers | virtualworkspace/provider.go:154-163 | Cleaning up after a failed Engage removes no other registration from either map and cancels no other context |
| ProviderSafety.FailedAddLeavesNothing | virtualworkspace/provider.go:142-163 | In every interleaving, an AddFunc to which creation or Engage answered with an error returns with its context cancelled and with nothing of it in either map |
| ProviderSafety.EveryRunIsLinearizable | virtualworkspace/provider.go:117-224 | Every run is a legal history of the sequential map, which equals `clusters`; a returned activation that was started as AddFunc registered once and engaged exactly what it inserted, and recorded a failed creation or a withdrawal exactly if it was refused; one started as DeleteFunc disengaged exactly if the index was empty; one started as Get is at its answer, which it looked up once |
| ProviderSafety.ActivationsKeepToTheirPart | virtualworkspace/provider.go:117-224 | In every run, a step of a started Get changes no map and no context, one of a DeleteFunc only drops its name, one of an AddFunc touches its own name and context only |
| ProviderSafety.RegisteredNameTakesFastPath | virtualworkspace/provider.go:125-131 | An AddFunc whose name stays registered never waits for or takes the write lock, in any interleaving |
| ProviderSafety.OperationsKeepRealTimeOrder | virtualworkspace/provider.go:117-224 | What has returned keeps its place in the history and what starts later takes effect later |
| ProviderProgress.InsidersCanGoOn | virtualworkspace/provider.go:126-224 | Whoever holds the lock, and everybody while nobody does, can take its next step whatever is answered, also if a waiting writer holds back new readers |
| ProviderProgress.NoDeadlock | virtualworkspace/provider.go:126-224 | In every reachable state some activation can go on, unless all have returned |
| ProviderProgress.EveryActivationReturns | virtualworkspace/provider.go:117-224 | However activations are scheduled and answered, a run without new ones is bounded, and stops only when all have returned and the lock is free |
| ProviderSequential.CanRunAlone | virtualworkspace/provider.go:117-224 | Any closure can be started in an idle state and run to its end alone, whatever the environment answers |
| ProviderSequential.AddAlone | virtualworkspace/provider.go:117-164 | From any reachable idle state, AddFunc alone inserts itself in both maps exactly if the name is absent and nothing is refused |
| ProviderSequential.DeleteAlone | virtualworkspace/provider.go:165-199 | From any reachable idle state, DeleteFunc alone drops its name from both maps exactly if the index is empty |
| ProviderSequential.GetAlone | virtualworkspace/provider.go:216-224 | From any reachable idle state, Get alone answers with what is registered and changes nothing |
| ProviderConvergence.HandleKeepsInv | virtualworkspace/provider.go:117-199 | Handling an event against the newer store keeps: a registered name has an object or a pending Deleted event, a stored object's name is registered, pending or failed |
| ProviderConvergence.RegistrationChangesIff | virtualworkspace/provider.go:116-200 | Handling registers a name exactly on its Added event without failures, and drops one exactly on its Deleted event with an empty index; updates change nothing |
| ProviderConvergence.DrainedProviderHasConverged | virtualworkspace/provider.go:117-198 | In every run with failures anywhere, once the queue is empty a name is registered if and only if it has a stored object and its latest attempt succeeded |
| ProviderConvergence.DrainedProviderMatchesStore | virtualworkspace/provider.go:117-198 | In every run without failures the drained provider has registered exactly the clusters with a stored object |
| ProviderConvergence.FailedAttemptIsNotRetried | virtualworkspace/provider.go:142-163 | A drained provider can lack a cluster that has an object, after one failed creation, also when the object has been updated since |
| ProviderConvergence.NoStaleNamesIffIndexed | virtualworkspace/provider.go:182-188 | Drained providers keep no name without an object if and only if the cluster index exists |
| ProviderConvergence.QuietStoreDrains | virtualworkspace/provider.go:116-200 | Once the store is quiet, as many handler turns as queued events drain the queue |
| ProviderConvergence.Drive | virtualworkspace/provider.go:103-213 | The provider object driven through any run has registered exactly the names of the model, hence none without an object once drained |
| Keys.KeyToClusteredKeyInjective | virtualworkspace/forked_cache_reader.go:277-293 | Clustered field keys are equal exactly if cluster, namespace (none meaning all) and value are, for arbitrary values |
| Keys.ClusteredStoreKeyInjective | virtualworkspace/forked_cache_reader.go:68-77 | Store keys determine the cluster, and on legal names namespace and name |
| Keys.ObjectKeyToStoreKeyInjective | virtualworkspace/forked_cache_reader.go:260-269 | Store keys without cluster determine namespace and name |
| Keys.ClusterAndNamespaceIndexKeyInjective | virtualworkspace/indexes.go:50-53 | Cluster-and-namespace index keys determine both parts |
| Keys.FieldIndexNameInjective | virtualworkspace/forked_cache_reader.go:271-275 | Index names of different fields differ, and none is one of the three other indexes |
| Indexing.Indexer.ByIndex | virtualworkspace/forked_cache_reader.go:226-229 | An index lookup yields each stored object filed under the value exactly once, and an error for an unknown index |
| CacheReading.CacheReader.Get | virtualworkspace/forked_cache_reader.go:64-121 | Get finds what the store has under the scoped key, writes a stamped deep copy (or a shallow one if copying is disabled) to the caller's object, touches nothing on error and never the cache; it demands a cluster exactly on a cluster-aware indexer without one, and otherwise fails with NotFound of the kind and name |
| CacheReading.CacheReader.RequiresExact | virtualworkspace/forked_cache_reader.go:295-308 | Accepts exactly the non-empty selectors without inequality or set operators, that is, of `=` and `==` |
| CacheReading.CacheReader.Filter | virtualworkspace/forked_cache_reader.go:239-251 | Keeps, in order, the objects whose index entries contain the value, or fails with the first failing index function |
| CacheReading.CacheReader.ByIndexes | virtualworkspace/forked_cache_reader.go:206-258 | byIndexes computes the stepwise narrowing of the first bucket, with its errors and early exits |
| CacheReading.CacheReader.CopyMatching | virtualworkspace/forked_cache_reader.go:163-202 | The answer is the first Limit of the label-matching candidates, as fresh stamped copies or as the cached objects themselves |
| CacheReading.CacheReader.List | virtualworkspace/forked_cache_reader.go:124-204 | List ties errors, candidates, labels, limit and copying together and leaves the cache as it was |
| QueryProperties.SelectedIsScan | virtualworkspace/forked_cache_reader.go:147-158 | Whichever index List chooses, its bucket holds exactly the objects of the cluster and namespace asked for |
| QueryProperties.ListIsLimitedScan | virtualworkspace/forked_cache_reader.go:147-203 | List is the plain scan by cluster, namespace and labels, without duplicates, in bucket order, cut off at a positive limit |
| QueryProperties.ScopedListsPartitionUnscoped | virtualworkspace/forked_cache_reader.go:147-203 | Without a limit the unscoped List has, as a multiset, the elements of the scoped Lists of all clusters present |
| QueryProperties.ByIndexesIsScan | virtualworkspace/forked_cache_reader.go:206-258 | With all indexes present byIndexes yields exactly the objects meeting every requirement, without duplicates, in first-bucket order; early exits lose nothing |
| QueryProperties.RequirementOrderIsIrrelevant | virtualworkspace/forked_cache_reader.go:214-257 | Reordered or repeated requirements find the same objects |
| QueryProperties.FieldListMeetsSelector | virtualworkspace/forked_cache_reader.go:138-146 | List accepts a selector exactly if it is not empty and has only `=` and `==`, and then finds the objects meeting it with operators taken into account, which byIndexes ignores |
| QueryProperties.FieldListIsLimitedScan | virtualworkspace/forked_cache_reader.go:138-203 | A List with a field selector is the scan by fields and labels in first-bucket order, without duplicates, cut off at a positive limit |
| QueryProperties.MissingIndexIsReported | virtualworkspace/forked_cache_reader.go:226-237 | A missing index is an error unless the requirements before it already leave nothing |
| QueryProperties.EncodedFieldIsScan | virtualworkspace/forked_cache_reader.go:214-221 | If index functions file values under clustered keys, a requirement finds exactly the objects of that cluster and namespace with that value |
| QueryProperties.EncodedFieldListIsScan | virtualworkspace/forked_cache_reader.go:143-146 | On such indexes a whole selector finds the plain scan of the cluster (all clusters if none is given) and namespace if and only if the reader has a cluster or there is nothing to find; without a cluster it finds nothing |
| QueryProperties.UnscopedFieldListMissesObject | virtualworkspace/forked_cache_reader.go:214-221 | Of any one stored object, the scoped reader finds it by a field and the unscoped reader does not |
| QueryProperties.GetFindsByIdentity | virtualworkspace/forked_cache_reader.go:64-92 | A scoped Get succeeds exactly with the one object of that cluster, namespace (none for root-scoped kinds) and name |
| QueryProperties.GetAgreesWithList | virtualworkspace/forked_cache_reader.go:64-158 | Get succeeds with an object exactly if the scoped List of the namespace contains it; for root-scoped kinds with any namespace |
| QueryProperties.GetSeesOwnClusterOnly | virtualworkspace/forked_cache_reader.go:68-92 | A scoped Get's answer depends on its own cluster's objects only, whatever text it is asked for |
| QueryProperties.ListSeesOwnClusterOnly | virtualworkspace/forked_cache_reader.go:147-203 | A scoped List's possible answers, with or without a field selector, depend on its own cluster's objects only and contain no others; for a field selector, if the index supplying its candidates files objects by cluster |
| QueryProperties.CandidatesSeeOwnClusterOnly | virtualworkspace/forked_cache_reader.go:138-161 | The same for what List starts from, its errors included |
| QueryErrors.GetRefusedIff | virtualworkspace/forked_cache_reader.go:70-92 | Get demands a cluster exactly on a cluster-aware indexer without one; any other failure is NotFound with the kind and the name |
| QueryErrors.GetReportsAbsenceIff | virtualworkspace/forked_cache_reader.go:79-92 | A scoped Get answers NotFound exactly if no stored object has that cluster, namespace and name |
| QueryErrors.PlainGetFindsByIdentity | virtualworkspace/forked_cache_reader.go:64-92 | On an indexer without clusters Get succeeds exactly with the object of that namespace and name |
| QueryErrors.ListRefusedIff | virtualworkspace/forked_cache_reader.go:131-146 | List refuses exactly continue tokens, and selectors that are empty or have another operator than `=` and `==`; on registered indexes that do not fail every other selector is answered |
| QueryErrors.InexactSelectorIsRefused | virtualworkspace/forked_cache_reader.go:295-308 | Such selectors are refused whatever the store holds |
| QueryErrors.ListLacksIndexIff | virtualworkspace/forked_cache_reader.go:147-161 | Without a field selector List fails exactly if the one index it depends on is missing, and names it |
| QueryErrors.PlainSelectedIsScan | virtualworkspace/forked_cache_reader.go:147-158 | On an indexer without clusters List is the scan by namespace over everything |
| QueryErrors.PlainFieldIsScan | virtualworkspace/forked_cache_reader.go:214-221 | On an indexer without clusters a field requirement goes by namespace and value |
| QueryErrors.FieldListFailsIff | virtualworkspace/forked_cache_reader.go:206-258 | On registered indexes byIndexes fails exactly if an index function fails on an object that met all requirements before, and reports that failure; otherwise it is the scan |
| QueryErrors.ClusterBucketIsEmptyIff | virtualworkspace/provider.go:182-188 | The cluster index that DeleteFunc asks is empty for a cluster exactly if the store has no object of it |
| Objects.ClusterComesFromAnnotation | virtualworkspace/indexes.go:28-35 | An object's cluster is its cluster annotation, and depends on nothing else |
| ScopedCaching.ScopedCache.Get | virtualworkspace/cache.go:54-72 | A scoped cache's Get answers as over its own cluster's objects alone, with a copy from that cluster, and fails only with NotFound, exactly if the cluster has no such object |
| ScopedCaching.ScopedCache.List | virtualworkspace/cache.go:75-93 | A scoped cache's List answers, errors included, as over its own cluster's objects alone, with fresh stamped copies of the picked objects (or those objects themselves if the caller asks); with a field selector, if its index files objects by cluster |
| ReadIsolation.RunScript | virtualworkspace/forked_cache_reader.go:94-203 | In any script of Gets, Lists and overwrites of returned objects every answer is one the original store could give, and the store ends unchanged |
| ReadIsolation.RelabelUncopied | virtualworkspace/forked_cache_reader.go:193-196 | With copying disabled, relabelling an answer relabels the cached object |
| ReadIsolation.RelabelUncopiedGet | virtualworkspace/forked_cache_reader.go:99-118 | With copying disabled, what Get wrote keeps its stored kind and relabelling it relabels the cached object |
| ScopedInforming.StepCommutesIff | virtualworkspace/cache.go:125-176 | For any event, filtering commutes with applying it, for every cluster, exactly if the event does not take a known object of another cluster away |
| ScopedInforming.FilteringCommutesIff | virtualworkspace/cache.go:125-176 | After every prefix of any stream every scoped handler has rebuilt the wildcard state restricted to its cluster, exactly if no event takes away an object of another cluster |
| ScopedInforming.SteadyStreamsNeverLeak | virtualworkspace/cache.go:132-147 | No event does so on streams whose updates keep the cluster and whose tombstones carry their object's key |
| ScopedInforming.DeliveredStreamsCommute | virtualworkspace/cache.go:125-176 | On every stream an informer delivers, which pairs the objects of an update by store key, each scoped handler has rebuilt its cluster's part of the wildcard state after every prefix |
| ScopedInforming.ReplayHoldsLatest | virtualworkspace/cache.go:125-176 | A rebuilt state holds under each key what the latest event about it brought, unless that was a deletion |
| ScopedInforming.ScopedStatesPartitionWildcard | virtualworkspace/cache.go:126-147 | On streams that keep clusters the scoped states are pairwise disjoint and together the wildcard state |
| ScopedInforming.DemultiplexingIsLossless | virtualworkspace/cache.go:126-174 | Over all clusters every event reaches exactly one scoped handler, as often as it occurs |
| ScopedInforming.ProjectKeepsOrder | virtualworkspace/cache.go:126-174 | A scoped handler receives its events in stream order |
| WildcardCaching.WithCluster | virtualworkspace/wildcard.go:149-157 | The extractor's loop fills the array with every key under the cluster, then every key under the wildcard |
| WildcardCaching.FiledUnder | virtualworkspace/wildcard.go:148-158 | An object is filed under prefix/key exactly if its extractor yields the key and the prefix is its cluster or the wildcard, for arbitrary keys |
| WildcardCaching.DoubledIndexLookup | virtualworkspace/wildcard.go:148-158 | A cluster's bucket holds exactly that cluster's objects with the key, the wildcard's bucket all of them |
| WildcardCaching.WildcardBucketIsPartitioned | virtualworkspace/wildcard.go:148-158 | The wildcard bucket is the disjoint union of the clusters' buckets |
| WildcardCaching.InformerTracker.NewInformer | virtualworkspace/wildcard.go:85-108 | A free slot of one class receives a new informer that keeps its given indexes and files objects by cluster, and by cluster and namespace, under the right names if those could be added; a taken slot panics, the other classes are untouched |
| WildcardCaching.RunScript | virtualworkspace/wildcard.go:85-144 | In any script without a second creation of a slot, a slot once found yields the same informer forever, and only informers created for that slot are found |
| WildcardCaching.FoundInformersAreClusterAware | virtualworkspace/wildcard.go:92-97 | If adding indexes succeeded, every informer found carries both cluster indexes, and a scoped Get over it, of namespaced and root-scoped kinds, uses the clustered key |
| WildcardCaching.FoundInformersAnswerLists | virtualworkspace/wildcard.go:92-95 | An informer found, created with the namespace index and the added ones, meets what the reader results assume: a List over it is the plain scan, and its cluster index is empty exactly for clusters without objects |
| Applications.DesiredObjectsFitTogether | examples/crd/internal/controller/application_controller.go:117-273 | Deployment and service select the deployment's pods by a label, at least one pod runs, ports match, the secret reference resolves to this application's server, all carry the finalizer, and the status reads Ready with a command for that service |
| Applications.ApplicationsShareObjectsIff | examples/crd/internal/controller/application_controller.go:83-128 | Two Applications contend for provider objects exactly if name and cluster agree, and then want the same ones |
| Applications.UnknownApplicationIsLeftAlone | examples/crd/internal/controller/application_controller.go:67-86 | An attempt for an Application that is gone, or has no cluster, changes nothing, and is in order exactly if it is gone |
| Applications.AttemptAltersNothing | examples/crd/internal/controller/application_controller.go:64-146 | No attempt, whatever it is for and however it fails, alters an existing object, a secret or another Application |
| Applications.AttemptsAlterNothing | examples/crd/internal/controller/application_controller.go:64-146 | The same over any number of attempts |
| Applications.AttemptDoesExactly | examples/crd/internal/controller/application_controller.go:64-146 | Exactly which of the three objects exist after an attempt, whether the status is written and whether it returns without error, given which calls fail and how |
| Applications.AttemptBlamesRightly | examples/crd/internal/controller/application_controller.go:67-86 | An attempt reports a failed call only if that call failed, a missing secret or cluster exactly if it is missing, and asks to be repeated exactly for the secret |
| Applications.AttemptEffect | examples/crd/internal/controller/application_controller.go:64-146 | However an attempt for a known Application fails, it alters no existing object, adds only entitled ones, in order, and writes Ready only once all three exist; returning without error means both are done |
| Applications.AttemptsEffect | examples/crd/internal/controller/application_controller.go:64-146 | The same over any number of attempts |
| Applications.AttemptsCreateInOrder | examples/crd/internal/controller/application_controller.go:88-136 | Over any attempts the service is created only once the deployment exists and the secret only once both do |
| Applications.InterruptedReconciliationConverges | examples/crd/internal/controller/application_controller.go:64-146 | Any failing attempts followed by one that returns without error leave the initial store plus the absent ones of the three, and further attempts change nothing |
| Applications.UndisturbedAttemptSucceedsIff | examples/crd/internal/controller/application_controller.go:72-81 | An attempt without API failures returns without error exactly if the database secret exists |
| Applications.ApplicationReconciler.Reconcile | examples/crd/internal/controller/application_controller.go:64-146 | The sequence of calls ends in the world and the result that the attempt's specification gives for the same failures |

## Left out

- `newScopedCluster`, REST configuration, HTTP clients and REST mappers: plumbing over libraries that are not part of this model; creation is a step that may fail and otherwise gives a new identity.
- `Provider.Run`'s error group, cache start and 30-second sync timeout, and cancellation of the parent context: timing and I/O.
- Go's rule that a waiting writer blocks new readers: the model's lock admits more interleavings than that, so what is proved of its runs holds under it too, and `InsidersCanGoOn` covers progress.
- Convergence while several handlers of one informer run at the same time: DeleteFunc asks the index before it takes the lock, so an AddFunc in between can find the name still registered and then lose it. An informer calls one handler's functions one after the other, which is what `ProviderConvergence` models.
- Stored index buckets: the indexer here computes a bucket from the objects' current contents, so an index that has gone stale because a caller changed an uncopied object is not captured.
- Type assertions, reflection, `Accessor` and `SetList` failures: objects are typed.
- The end-to-end claim that a field registered through `IndexField` is found by a field-selector List: `wildcard.go` registers `cluster/<field>` with `<cluster>/<key>`, the reader asks for `field:<field>` with `<cluster>|<namespace>/<value>`, and the code that would join them is not part of this model. `EncodedFieldIsScan` assumes the reader's format, `DoubledIndexLookup` proves the registered one.
- Informers that are not found: the scoped cache continues with a nil informer; the model hands the reader an indexer.
- The lock that a panicking informer creation never releases: a run ends at the panic.
- JSON encoding of `servers.json`, resource versions and conflicting updates in the example controller.
- Example mains, manifests, generated code, shell scripts and end-to-end tests: they hold no state and no algorithm to prove anything about.
