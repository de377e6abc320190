# A Dafny model of kpack's controllers

kpack turns source code into container images inside Kubernetes. This project models the parts of it that carry state
machines, recursion, ordering arguments or small concurrent protocols, and proves properties of whole runs of them.
`dafny verify dfyconfig.toml` checks everything.

- **The Image reconciler** (`BuildApi`, `BuildChange`, `BuildRequired`, `ImageReconcile`, `ImageRuns`, `ImageReady`,
  `ImageQuiescence`, `ImageHistory`). One reconcile is a function on the stored objects and a `Controller` that performs it
  call by call, with every write acknowledged, refused, or applied with its answer lost. Runs mix reconciles with builds
  that progress, users who edit and trigger, and sources and builders that move.
- **Buildpack resolution and builder assembly** (`SemanticVersion`, `CnbApi`, `DependencyTree`, `BuildpackResolver`,
  `BuildpackFetcher`, `Mixins`, `BuilderBuilder`, `CreateBuilder`, `StoreReader`). From a reference to a buildpack, through
  the mutual recursion of the fetcher, to the layers and the metadata of a builder image.
- **The lease tracker** (`Tracker`), a two-level map pruned while it is walked, against the full log of calls.
- **Small protocols** (`SourceResolving`, `BuildLogs`, `BuildWaiter`): commit retention across polls, the log tailer, and
  containers that hand off to each other through files.
- **Credentials** (`DockerCreds`, `CachedKeychain`): merging, and a cache that must not be noticed.

`Common`, `Text` and `Sorting` hold what the others share. Sorting is specified by what a sort may return, so that a result
that depends on the algorithm or on Go's map order is visible as such.

Code that changes state step by step is a method or a class proved against functions; lemmas then state what the source
promises about those functions. Concurrent code is a transition system over its steps. Registries, git, Kubernetes, clocks
and map iteration order enter as parameters or as free choices.

## Assumptions

- Informer caches are current, creation timestamps of builds are strictly increasing, and a finished build stays finished.
- History limits are at least 1, as `pkg/apis/build/v1alpha2/image_validation.go:197-207` demands. `NewestDeletedIffLimitZero`
  says what a limit of 0 would do.
- A source resolver whose Ready condition is true has a resolved source. `SourceResolving.RunConsistent` proves it.
- The part of the buildpack graph that a builder's spec reaches is acyclic, and an object that the spec names without
  saying which of its buildpacks it wants has closed references. The code does not terminate on a cycle and dereferences
  nil on a missing reference. Nothing is asked of other objects.

## What is not as one would expect

Each item names the lemma that gives the exact condition, and where there is one the lemma with a failing input.

- An image that itself carries the trigger annotation hands it to every build. It rebuilds without end from every state
  in which its newest build was not yet made from the inputs, and so does every new image
  (`ImageQuiescence.QuiescesIff`, `ImageQuiescence.NewAnnotatedImageNeverRests`).
- A run image of a successful build that does not parse turns every later decision into an error
  (`BuildRequired.DecisionMeaning`).
- With two buildpacks of one id, the dependency trees can miss a buildpack (`DependencyTree.RootCoverage`,
  `DependencyTree.ReplacedEntryLosesBuildpack`).
- Two buildpacks that differ only in the homepage and have layers of equal size leave the layer order open
  (`BuilderBuilder.SortDeterminedIff`, `BuilderBuilder.TieMeaning`).
- Two buildpacks of one store image with the same `id@version`, which takes an `@` in an id, leave the order of the store
  open (`StoreReader.ReadConfluentIff`, `StoreReader.PlainIdsNeverTie`).
- A bare mixin that only the run image has is not in the stack's list (`Mixins.RelaxedMeaning`). Under the relaxed contract
  `build:run:x` can be accepted because of the run image and `run:build:x` because of the build image; everything else,
  and everything under the strict contract, is judged rightly (`Mixins.RequirementSoundIff`).
- The keychain cache ignores pull secrets, so references that clash get each other's credentials
  (`CachedKeychain.AnswersRightIff`, `CachedKeychain.SecondAnswer`).
- Commit retention does not ask whether URL and subpath stayed as they are, so an edit can leave a commit that lacks the
  new subpath (`SourceResolving.RetentionExact`, `SourceResolving.MovedDirectoryKeepsOldCommit`).
- Merged credentials answer the same in every map order exactly when the appended set does not hold different credentials
  for one registry that nothing answered before (`DockerCreds.OrderNeverShowsIff`). Which dead keys the merge holds depends
  on the order all the same (`DockerCreds.DeadKeyByOrder`).
- A failed build step may have a started successor: exactly when it failed after it had announced its success, by a write
  that returned an error all the same or by an error elsewhere that ended it before it could leave
  (`BuildWaiter.FailedStepBlocksIff`, `BuildWaiter.FailedWithStartedSuccessor`, `BuildWaiter.AnnouncedThenFailed`). Its
  command has succeeded then.

## Model

| member | source | states |
|---|---|---|
| BuildApi.BuildNameInjective | pkg/apis/build/v1alpha2/image_builds.go:280-282 | builds of one image have equal names exactly when they have equal numbers |
| Text.ParseFormatInt | pkg/reconciler/image/reconcile_build.go:196-203 | the number read back from the label is the number that was written |
| BuildChange.Required | pkg/buildchange/change_processor.go:28-43 | the collected changes are those of the candidates that ask for a build, and there are none exactly when no candidate asks |
| BuildChange.Errors | pkg/buildchange/change_processor.go:28-43 | errors are collected exactly when some candidate could not decide |
| BuildChange.SummaryIsValid | pkg/buildchange/change_summary.go:15-35 | reasons and changes are non-empty exactly when there are changes, so summarising never fails on its own check |
| BuildChange.PriorityMeaning | pkg/buildchange/change_processor.go:95-107 | priority is high exactly when a trigger, commit or config change is among the changes, and none exactly when there are no changes |
| BuildChange.RebaseReasonIsStackAlone | pkg/apis/build/v1alpha2/build.go:179-182 | the reason text is that of a rebase exactly when the stack change is the only change |
| BuildChange.ChangeProcessor.Process | pkg/buildchange/change_processor.go:28-43 | appends the change or its error, and skips nil |
| BuildChange.ChangeProcessor.HighestPriority | pkg/buildchange/change_processor.go:95-107 | the loop finds the highest priority of the collected changes |
| BuildChange.ChangeProcessor.Summarize | pkg/buildchange/change_processor.go:45-63 | an error with all collected errors, or the summary of the collected changes |
| BuildChange.ConfigIsBuildRequired | pkg/buildchange/config_change.go:33-56 | the comparison ignores git revisions only, and both configs are as before exactly when they do not share a git struct with a revision; the reconciler shares none, as it compares with a freshly allocated struct |
| BuildRequired.MissingBuildpacksLoop | pkg/reconciler/image/build_required.go:108-124 | the loop lists the buildpacks of the build that the builder lacks |
| BuildRequired.MissingBuildpacks | pkg/reconciler/image/build_required.go:108-124 | nothing is listed exactly when the builder has every buildpack of the build |
| BuildRequired.ProcessAll | pkg/reconciler/image/build_required.go:43-51 | processing the six changes one by one gives the summary, or the errors, of all of them |
| BuildRequired.Decide | pkg/reconciler/image/build_required.go:33-56 | driving the mutable processor gives the decision on values |
| BuildRequired.SourceUnchanged | pkg/reconciler/image/build_required.go:72-106 | a quiet commit change and equal configs without revisions together mean the same source |
| BuildRequired.QuietMeansCurrent | pkg/reconciler/image/build_required.go:33-144 | all six changes are quiet exactly when the last build exists and has the settings, source, buildpacks, run image and lifecycle asked for and no trigger |
| BuildRequired.DecisionMeaning | pkg/reconciler/image/build_required.go:33-144 | undecided, error and no-build each hold exactly under their condition on source, builder and last build |
| ImageReconcile.SplitByOutcome | pkg/reconciler/image/build_list.go:22-28 | the loop collects successes and failures in order |
| ImageReconcile.NewBuildList | pkg/reconciler/image/build_list.go:17-35 | in whatever order builds are listed, the last build and both histories are those of creation order |
| ImageReconcile.NoScheduledBuild | pkg/reconciler/image/reconcile_build.go:80-112 | the three conditions, without ever needing a build that is not there |
| ImageReconcile.Controller.FetchAllBuilds | pkg/reconciler/image/image.go:264-285 | the list of the stored builds |
| ImageReconcile.Controller.ReconcileSourceResolver | pkg/reconciler/image/image.go:177-198 | creates or updates the source resolver, whatever became of the write |
| ImageReconcile.Controller.CreateBuild | pkg/reconciler/image/reconcile_build.go:41-46 | a create that is refused, applied, or applied with the answer lost |
| ImageReconcile.Controller.ScheduleBuild | pkg/reconciler/image/reconcile_build.go:41-59 | creates the next build, or reports the error and may have created it all the same |
| ImageReconcile.Controller.ReconcileBuilds | pkg/reconciler/image/reconcile_build.go:25-78 | numbering, decision and status of one pass |
| ImageReconcile.Controller.DeleteOldest | pkg/reconciler/image/image.go:243-258 | one history over its limit loses its oldest build |
| ImageReconcile.Controller.TrimHistory | pkg/reconciler/image/image.go:237-262 | deletes the oldest failure and the oldest success of histories over their limit, stopping at the first error |
| ImageReconcile.Controller.ReconcileBuildsAndTrim | pkg/reconciler/image/image.go:158-175 | source resolver, builds and trimming in order, stopping at the first error |
| ImageReconcile.Controller.ReconcileImageOnce | pkg/reconciler/image/image.go:138-175 | the whole pass with its early exits |
| ImageReconcile.Controller.ReconcileOnce | pkg/reconciler/image/image.go:114-136 | one reconcile of the mutable controller leaves the store that the function Reconcile says |
| ImageRuns.NewBuildFacts | pkg/apis/build/v1alpha2/image_builds.go:38-87 | a created build carries the next number in name and label, the resolved source and settings, the reuse record, and a trigger exactly when the image has one |
| ImageRuns.OldestIsNotNewest | pkg/reconciler/image/build_list.go:37-51 | the head of a history longer than one is not the newest build |
| ImageRuns.TrimSafe | pkg/reconciler/image/image.go:237-262 | trimming, complete or not, keeps the order and the newest build |
| ImageRuns.ReconcileShape | pkg/reconciler/image/image.go:138-175 | a reconcile writes at most a status and a source resolver, creates at most one build, for which the decision asked and which follows a finished one, and trims |
| ImageRuns.ReconcileStoreSafe | pkg/reconciler/image/image.go:114-136 | a reconcile keeps the invariant, and the build that was newest before is still there |
| ImageRuns.StepSafe | pkg/reconciler/image/reconcile_build.go:25-59 | every step keeps the invariant and only adds to the issued numbers |
| ImageRuns.NewestIsNotDeleted | pkg/reconciler/image/image.go:237-262 | no step deletes the newest build |
| ImageRuns.RunSafeFromStart | pkg/reconciler/image/reconcile_build.go:25-59 | the same over any run that starts from an image without builds |
| ImageRuns.RunSafe | pkg/reconciler/image/reconcile_build.go:25-59 | over any run with any lost writes, only the newest build may be unfinished, numbers increase with creation and are issued once, and what may be reused comes from the most recent success |
| ImageReady.ReadyIffUpToDate | pkg/reconciler/image/reconcile_build.go:80-112 | Ready=True is written exactly when the newest build succeeded from what spec, source and builder say now; the reason UnknownState never occurs |
| ImageReady.UpToDateCreatesNothing | pkg/reconciler/image/reconcile_build.go:41-74 | an image that is up to date gets no build |
| ImageReady.StoredReady | pkg/reconciler/image/image.go:287-300 | a stored status that turns Ready=True is about the build that is still the newest and names its image |
| ImageQuiescence.MadeFromForever | pkg/reconciler/image/build_required.go:33-144 | once the newest build was made from inputs that stand still, no run creates another |
| ImageQuiescence.AtMostOneMoreBuild | pkg/reconciler/image/build_required.go:33-144 | while inputs stand still a run of any length creates at most one build, however builds end and writes fail |
| ImageQuiescence.AnnotatedImageRebuildsForever | pkg/apis/build/v1alpha2/image_builds.go:52-57 | with the trigger annotation on the image, everything ready and a newest build not made from the inputs there is a quiet run with any number of builds |
| ImageQuiescence.UnsettledRebuildsForever | pkg/apis/build/v1alpha2/image_builds.go:52-57 | the same from every state of an annotated image whose newest build is neither made from the inputs nor stuck, whether or not it runs and source and builder are ready |
| ImageQuiescence.StuckForever | pkg/reconciler/image/build_required.go:126-134 | a successful newest build with a run image that does not parse keeps any quiet run from creating a build |
| ImageQuiescence.QuiescesIff | pkg/apis/build/v1alpha2/image_builds.go:52-57 | from any safe state, rebuilding ends exactly when the image does not carry the annotation, or the newest build was made from the inputs, or is stuck |
| ImageQuiescence.NewAnnotatedImageNeverRests | pkg/apis/build/v1alpha2/image_builds.go:52-57 | a new image with the annotation has quiet runs with any number of builds |
| ImageHistory.TrimCounts | pkg/reconciler/image/image.go:237-262 | a completed trimming takes exactly one build from each history over its limit |
| ImageHistory.TrimDecreasesExcess | pkg/reconciler/image/image.go:237-262 | and so the excess strictly decreases until it is zero |
| ImageHistory.NewestDeletedIffLimitZero | pkg/reconciler/image/image.go:237-262 | trimming deletes the newest build exactly when it is the only one of its kind and the limit is zero |
| ImageHistory.CompletedReconcileDecreasesExcess | pkg/reconciler/image/image.go:138-175 | after limits were lowered every completed reconcile that reaches trimming decreases the excess |
| ImageHistory.StepBounded | pkg/reconciler/image/image.go:237-262 | every step keeps each history within its limit plus one |
| ImageHistory.HistoryBounded | pkg/reconciler/image/image.go:237-262 | over any run with fixed limits: at most limit plus one of each kind, and at most the limit while a build runs |
| SemanticVersion.LessLaws | pkg/cnb/buildpack_resolver.go:260-272 | precedence by section 11 of Semantic Versioning 2.0.0 is a strict total order |
| DependencyTree.UsedIds | pkg/cnb/dependency_tree.go:23-30 | the loops find exactly the ids that some order refers to |
| DependencyTree.LastById | pkg/cnb/dependency_tree.go:15-21 | the lookup keeps the last buildpack of each id |
| DependencyTree.UnusedIds | pkg/cnb/dependency_tree.go:32-37 | the ids that nothing refers to, in order |
| DependencyTree.MakeTree | pkg/cnb/dependency_tree.go:47-61 | on closed acyclic references it terminates without a missing lookup and returns the dependency tree |
| DependencyTree.NewTree | pkg/cnb/dependency_tree.go:15-45 | one dependency tree for each unused id |
| DependencyTree.RootCoverage | pkg/cnb/dependency_tree.go:15-45 | the roots are exactly the unreferenced ids, and every buildpack is in a tree exactly when every use of an id is by a buildpack the lookup kept |
| DependencyTree.DistinctIdsKeepUses | pkg/cnb/dependency_tree.go:15-21 | distinct ids lose no use |
| DependencyTree.SingleTreeReachesAll | pkg/cnb/buildpack_resolver.go:227-236 | when there is one tree, every buildpack is reachable from its root exactly when every use of an id is by a buildpack the lookup kept, as with distinct ids |
| DependencyTree.ReplacedEntryLosesBuildpack | pkg/cnb/dependency_tree.go:15-21 | two buildpacks of one id can leave a third in no tree |
| CachedKeychain.KeysDistinguish | pkg/dockercreds/cached_keychain.go:40-42 | references as the resolver builds them share a key exactly when they are equal |
| CachedKeychain.Transparent | pkg/dockercreds/cached_keychain.go:25-38 | over any calls the answers are those of the underlying factory, errors are not cached, a success reaches the factory once |
| CachedKeychain.AnswersAreFirst | pkg/dockercreds/cached_keychain.go:25-42 | over any calls with arbitrary references each is answered with the first success for its key, if there is one |
| CachedKeychain.AnswersRightIff | pkg/dockercreds/cached_keychain.go:25-42 | over any calls with arbitrary references all answers are right exactly when no two clash: one key, a first success, and a different answer |
| CachedKeychain.SecondAnswer | pkg/dockercreds/cached_keychain.go:25-42 | the case of two references, which share a key when they differ in pull secrets alone |
| CachedKeychain.CachedKeychainFactory.KeychainForSecretRef | pkg/dockercreds/cached_keychain.go:25-38 | one call of the mutable factory is one step of the memory |
| BuildpackResolver.CandidatesAreAllWithId | pkg/cnb/buildpack_resolver.go:73-90 | the candidates of an id are all buildpacks with that id, Buildpacks before ClusterBuildpacks before the ClusterStore |
| BuildpackResolver.ResolvesIff | pkg/cnb/buildpack_resolver.go:98-117 | an id resolves exactly when a candidate exists and the pinned version does, or all candidates parse as versions |
| BuildpackResolver.PinnedTakesFirst | pkg/cnb/buildpack_resolver.go:110-116 | a pinned version takes the first match in search order |
| BuildpackResolver.VersionOrder | pkg/cnb/buildpack_resolver.go:260-272 | comparing candidates by version is a strict weak order |
| BuildpackResolver.HighestIsLastMaximal | pkg/cnb/buildpack_resolver.go:260-272 | stable sort and last element equals a single pass for the latest maximum, for every stable sort |
| BuildpackResolver.UnpinnedTakesHighest | pkg/cnb/buildpack_resolver.go:102-108 | without a version the latest of the highest versions is taken |
| BuildpackResolver.ResolveFromObjectReference | pkg/cnb/buildpack_resolver.go:190-237 | the root of the only tree of the object, or the matching error |
| BuildpackResolver.ResolveFromBuildpack | pkg/cnb/buildpack_resolver.go:119-136 | the loops collect the matching buildpacks of all Buildpacks |
| BuildpackResolver.ResolveFromClusterBuildpack | pkg/cnb/buildpack_resolver.go:138-160 | the loops collect the matching buildpacks of all ClusterBuildpacks |
| BuildpackResolver.ResolveReference | pkg/cnb/buildpack_resolver.go:43-117 | all branches of resolving a reference |
| BuildpackResolver.ResolvedInAll | pkg/cnb/buildpack_resolver.go:43-117 | what a reference resolves to is a buildpack of some object, with that object's credentials |
| Sorting.SortUnique | pkg/cnb/builder_builder.go:375-396 | without ties a multiset has one sorted order |
| Sorting.SortOpenOnTies | pkg/cnb/builder_builder.go:375-396 | with a tie it has several |
| Sorting.StableSortLastIsLastMax | pkg/cnb/buildpack_resolver.go:260-272 | the last element of any stable sort is the latest maximum |
| Mixins.ClassifyMixins | pkg/cnb/remote_stack_reader.go:127-139 | the loop splits mixins by stage |
| Mixins.ReadMixins | pkg/cnb/remote_stack_reader.go:110-125 | the stack's list or the error |
| Mixins.StackMixinsMeaning | pkg/cnb/remote_stack_reader.go:110-149 | when the list is refused, and what exactly is in it |
| Mixins.ValidateRequiredMixins | pkg/cnb/buildpack_validation.go:39-52 | accepted exactly when every requirement is present |
| Mixins.RelaxedMeaning | pkg/cnb/buildpack_validation.go:63-86 | relaxed acceptance spelled out on the two images, in both directions |
| Mixins.StrictImpliesRelaxed | pkg/cnb/buildpack_validation.go:63-82 | what is accepted strictly is accepted under the relaxed contract |
| Mixins.AcceptanceMonotone | pkg/cnb/buildpack_validation.go:39-82 | more provided mixins never turn acceptance into refusal |
| Mixins.AcceptedIsSatisfied | pkg/cnb/buildpack_validation.go:39-86 | an accepted requirement is met by the images themselves, plainly or for the stage; under the strict contract without exception |
| Mixins.RequirementSoundIff | pkg/cnb/buildpack_validation.go:63-86 | a requirement is judged rightly for all images exactly when the contract is strict or the requirement is not one image's mark on the other's |
| Mixins.Supports | pkg/cnb/buildpack_validation.go:12-37 | the verdict on a buildpack, of whose stacks only the first match is looked at |
| BuildpackFetcher.OrderRefResolved | pkg/cnb/remote_buildpack_fetcher.go:92-99 | an order reference resolves to a buildpack with its id and, when pinned, its version |
| BuildpackFetcher.FetchedClosed | pkg/cnb/remote_buildpack_fetcher.go:46-85 | a fetched buildpack brings its own layer and those of everything its order resolves to, transitively |
| BuildpackFetcher.FetchedRefsClosed | pkg/cnb/remote_buildpack_fetcher.go:88-113 | so do the layers fetched for an order |
| BuildpackFetcher.RemoteBuildpackFetcher.KeychainFor | pkg/cnb/remote_buildpack_fetcher.go:46-51 | the cached factory answers as the underlying one would |
| BuildpackFetcher.RemoteBuildpackFetcher.Fetch | pkg/cnb/remote_buildpack_fetcher.go:46-85 | on an acyclic graph it terminates and returns what the recursion defines, cache and all |
| BuildpackFetcher.RemoteBuildpackFetcher.LayersForRefs | pkg/cnb/remote_buildpack_fetcher.go:88-113 | so does the other half of the recursion |
| BuilderBuilder.AddLayersClosed | pkg/cnb/builder_builder.go:89-99 | adding closed layers keeps the layer map closed, although entries may be overwritten |
| BuilderBuilder.DeterministicSortBySize | pkg/cnb/builder_builder.go:375-396 | lists the keys once each, larger layers first, ties by descending id and version |
| BuilderBuilder.SortDeterminedIff | pkg/cnb/builder_builder.go:375-396 | the result is independent of map order and algorithm exactly when no two keys tie |
| BuilderBuilder.TieMeaning | pkg/cnb/builder_builder.go:384-393 | a tie is two entries of equal id, version and size that differ in the homepage |
| BuilderBuilder.DeduplicateLayers | pkg/cnb/builder_builder.go:406-424 | the loop with its set of seen diff ids computes the deduplicated list |
| BuilderBuilder.DedupLosesNothing | pkg/cnb/builder_builder.go:406-424 | every diff id survives |
| BuilderBuilder.DedupRepeatsNothing | pkg/cnb/builder_builder.go:406-424 | no diff id survives twice |
| BuilderBuilder.DedupKeepsFirst | pkg/cnb/builder_builder.go:406-424 | a layer survives exactly when its diff id is new, behind the survivors before it |
| BuilderBuilder.DedupKeepsDistinct | pkg/cnb/builder_builder.go:406-424 | a list without repeats is left as it is |
| BuilderBuilder.MetadataMembers | pkg/cnb/builder_layers.go:5-12 | the metadata has an entry for every key and none without one |
| BuilderBuilder.MetadataClosed | pkg/cnb/builder_layers.go:5-12 | whatever an entry's order refers to has an entry, at the id and, when pinned, the version it names |
| CreateBuilder.BuilderBldr.AddGroup | pkg/cnb/builder_builder.go:89-99 | the layers and the order after adding a group |
| CreateBuilder.ReadMixinContract | pkg/cnb/builder_builder.go:222-229 | the first platform version of at least 0.7 relaxes the contract, and one before it that does not parse is a panic |
| CreateBuilder.BuilderBldr.ValidateBuilder | pkg/cnb/builder_builder.go:194-210 | passes exactly when the platform and every buildpack are supported; a platform version that panics counts only when it is read |
| CreateBuilder.BuilderBldr.CollectLayers | pkg/cnb/builder_builder.go:113-120 | metadata and layers in the order of the sorted keys |
| CreateBuilder.BuilderBldr.WriteableImage | pkg/cnb/builder_builder.go:105-188 | succeeds exactly for a supported builder whose layers and labels could be written, with an image of the collected layers |
| CreateBuilder.AddGroupsClosed | pkg/cnb/builder_builder.go:89-99 | adding fetched buildpacks keeps the map closed and gives each an entry |
| CreateBuilder.ImageReproducible | pkg/cnb/builder_builder.go:105-188 | all images made from the same layers are equal exactly when no two entries tie |
| CreateBuilder.ImageHasEveryLayer | pkg/cnb/builder_builder.go:105-188 | every collected layer's diff id is in the image, and none twice |
| CreateBuilder.ImageClosed | pkg/cnb/builder_builder.go:105-188 | the metadata of the image is closed under order references and has everything the order names |
| CreateBuilder.FetchGroup | pkg/cnb/create_builder.go:75-82 | each reference of the group is resolved and fetched with all its layers, in order |
| CreateBuilder.CreateBuilder | pkg/cnb/create_builder.go:72-91 | the builder that comes out is closed, and its order names group by group what the references of the spec resolve to |
| CreateBuilder.SupportedIsSatisfied | pkg/cnb/buildpack_validation.go:12-37 | a buildpack that passed has the mixins of its first matching stack provided by the stack's images |
| StoreReader.StepConserves | pkg/cnb/remote_store_reader.go:19-106 | every step of goroutines and channel conserves the buildpacks, and no step of a reader comes after the close |
| StoreReader.RunConserves | pkg/cnb/remote_store_reader.go:19-106 | so does every run |
| StoreReader.ClosedReceivedAll | pkg/cnb/remote_store_reader.go:98-106 | when the channel is closed and no fetch failed, exactly the contents of all images have arrived |
| StoreReader.Progress | pkg/cnb/remote_store_reader.go:19-106 | until the channel is closed some step is possible, and every step comes closer to the end |
| StoreReader.ReadConfluent | pkg/cnb/remote_store_reader.go:19-117 | two reads without failures return the same sequence, however they interleave |
| StoreReader.ReadConfluentIff | pkg/cnb/remote_store_reader.go:19-117 | all reads without failures return one sequence exactly when no image lists two buildpacks with one "id@version" |
| StoreReader.SomeRead | pkg/cnb/remote_store_reader.go:19-117 | there is a read without failures |
| StoreReader.PlainIdsNeverTie | pkg/cnb/remote_store_reader.go:47-58 | contents from a map of ids and versions have no such pair when ids are free of "@" |
| Tracker.GroupKindStringInjective | pkg/reconciler/tracker.go:15-17 | plain group kinds have distinct texts |
| Tracker.KeyStringInjective | pkg/reconciler/tracker.go:15-17 | names without separators give distinct objects distinct texts |
| Tracker.StepAgrees | pkg/tracker/tracker.go:64-132 | a call keeps the table in agreement with the log and answers what the log says |
| Tracker.RunAnswersLog | pkg/tracker/tracker.go:97-132 | over any calls in time order every notification calls back exactly the watchers with an unexpired lease in the full log, once each |
| Tracker.LeaseByKey | pkg/tracker/tracker.go:64-76 | in any log of keyed calls, a lease found under the text of an object is the lease on the object itself |
| Tracker.LeaseByKind | pkg/tracker/tracker.go:82-94 | the same for kinds |
| Tracker.LoggedStepAgrees | pkg/tracker/tracker.go:64-132 | a keyed call keeps both tables in agreement with the log, and a notification answers both |
| Tracker.RunAnswersKeys | pkg/tracker/tracker.go:64-132 | over any Track, TrackKind and OnChanged calls in time order, a notification calls back exactly the watchers to which the full log gives an unexpired lease on that object, then those with one on its kind |
| Tracker.Tracker.Track | pkg/tracker/tracker.go:64-76 | one more call in the log, and the tables agree |
| Tracker.Tracker.TrackKind | pkg/tracker/tracker.go:82-94 | the same for kinds |
| Tracker.Tracker.Notify | pkg/tracker/tracker.go:113-132 | walking in any order while deleting is one pruning step, with the callbacks in the order walked |
| Tracker.Tracker.OnChanged | pkg/tracker/tracker.go:97-111 | logs the notification after all earlier calls, and calls back by object and then by kind what the log before it says |
| SourceResolving.RunConsistent | pkg/apis/build/v1alpha2/source_resolver.go:11-42 | over any polls, edits and lost writes a ready resolver has a source, and it is that of the current spec |
| SourceResolving.RetentionExact | pkg/reconciler/sourceresolver/sourceresolver.go:153-165 | the stored tree stays that of the stored revision, whatever repositories hold, exactly when a commit is retained only while URL and path are the same |
| SourceResolving.MovedDirectoryKeepsOldCommit | pkg/reconciler/sourceresolver/sourceresolver.go:153-165 | the run of poll, edit and poll after which a ready resolver has a commit with nothing at its subpath, for any directory that moved |
| SourceResolving.StepHonest | pkg/reconciler/sourceresolver/sourceresolver.go:135-165 | with URL and path fixed, a step keeps the stored tree that of the stored revision |
| SourceResolving.RunHonest | pkg/reconciler/sourceresolver/sourceresolver.go:86-165 | so does every run of polls, lost writes and edits that leave the place alone |
| SourceResolving.TreeDecidesRevision | pkg/reconciler/sourceresolver/sourceresolver.go:153-165 | between two non-empty trees the stored revision stays exactly when the tree stays |
| SourceResolving.UnchangedTreeRun | pkg/reconciler/sourceresolver/sourceresolver.go:86-165 | while every commit seen has the stored tree, tree and revision never change |
| SourceResolving.UnchangedTreeNeverBuilds | pkg/reconciler/image/build_required.go:72-81 | and so no COMMIT build is ever asked for |
| SourceResolving.SourceResolverCopy.ResolvedSource | pkg/apis/build/v1alpha2/source_resolver.go:11-33 | keeps what is known when nothing new was found for this generation, else stores source and conditions |
| SourceResolving.Reconciler.RetainCommitIfTreeUnchanged | pkg/reconciler/sourceresolver/sourceresolver.go:153-165 | changes the revision of the status and nothing else |
| SourceResolving.Reconciler.UpdateStatus | pkg/reconciler/sourceresolver/sourceresolver.go:135-151 | stores the status, with the commit retained under the flag, or leaves the store alone |
| SourceResolving.Reconciler.Reconcile | pkg/reconciler/sourceresolver/sourceresolver.go:86-122 | what is stored afterwards is the next state of a poll step; a pollable source is queued again, and nothing is written when that fails |
| BuildLogs.SentIsLongestReadyPrefix | pkg/logs/build_logs.go:124-144 | what an event sends is the longest prefix of the pod's build steps that is ready |
| BuildLogs.StepInv | pkg/logs/build_logs.go:59-79 | every step of producer and consumer keeps what was streamed of each pod a prefix of known length |
| BuildLogs.LogPrefix | pkg/logs/build_logs.go:104-152 | in every reachable state the streamed containers of each pod are a prefix of its build steps in spec order, without repeats, between events as long as the longest ready prefix delivered |
| BuildLogs.BuildLogsClient.StreamLogsForContainer | pkg/logs/build_logs.go:191-195 | a container is streamed unless it was before |
| BuildLogs.BuildLogsClient.ReadyContainers | pkg/logs/build_logs.go:122-144 | the loops send what the specification says |
| BuildWaiter.StepSound | cmd/build-waiter/main.go:50-87 | every step of every waiter keeps the invariant on phases, files and commands |
| BuildWaiter.RunInOrder | cmd/build-waiter/main.go:50-133 | in every reachable state commands were started once each, after the commands they wait for had succeeded |
| BuildWaiter.HandOff | cmd/build-waiter/main.go:50-133 | everything a started command waits for, directly or through others, was started and has succeeded |
| BuildWaiter.HandOffIffFresh | cmd/build-waiter/main.go:50-87 | the ordering holds in all runs exactly when no step that could start finds its wait file left over |
| BuildWaiter.CircleNeverStarts | cmd/build-waiter/main.go:124-133 | steps that wait for each other in a circle never start |
| BuildWaiter.RunTold | cmd/build-waiter/main.go:80-85 | in every reachable state a done file that was not left over has content exactly when its step wrote it, and a step is failed with it written exactly by one of two kinds of event |
| BuildWaiter.FailedWithStartedSuccessor | cmd/build-waiter/main.go:80-85 | in every run, a failed step with a started successor failed after announcing its success, and its command had succeeded |
| BuildWaiter.FailedStepBlocksIff | cmd/build-waiter/main.go:124-169 | a step that has not started and follows a failed one can start in some continuation exactly when its own checks let it and the failed one had announced its success |
| BuildWaiter.AnnouncedThenFailed | cmd/build-waiter/main.go:80-85 | such a run for any two steps one after the other |
| BuildWaiter.NoDeadlock | cmd/build-waiter/main.go:50-133 | acyclic steps of which none failed have all exited or can go on |
| BuildWaiter.RunIsBounded | cmd/build-waiter/main.go:50-169 | the steps make at most seven moves each |
| BuildWaiter.PodIsWired | pkg/apis/build/v1alpha2/build_pod.go:620-666 | containers with distinct names, none of them "error", are wired in a line |
| BuildWaiter.PodRunsInOrder | pkg/apis/build/v1alpha2/build_pod.go:638-666 | in a pod so wired a command runs only after the commands of all containers before it have succeeded |
| BuildWaiter.BuildPodRunsInOrder | pkg/apis/build/v1alpha2/build_pod.go:638-666 | the same with the directory and the file that build pods use |
| DockerCreds.RegistryMatcher.Match | pkg/dockercreds/match.go:27-34 | the loop over the formats decides whether the key matches |
| DockerCreds.HostOfFormat | pkg/dockercreds/match.go:10-21 | the host can be read back from a key of any format |
| DockerCreds.MatchMeaning | pkg/dockercreds/match.go:27-41 | a well-formed key matches its own host and nothing else, and the default registry only as its auth key |
| DockerCreds.AnswerIsUniqueIff | pkg/dockercreds/docker_creds.go:16-26 | the answer is independent of map order exactly when all matching entries agree |
| DockerCreds.MergeKeepsUnambiguous | pkg/dockercreds/docker_creds.go:46-62 | no registry gets a second entry |
| DockerCreds.MergedAnswers | pkg/dockercreds/docker_creds.go:46-62 | registries the left set answers keep exactly their answers; the others get answers of the right set, and all of them when its entries agree |
| DockerCreds.OrderNeverShowsIff | pkg/dockercreds/docker_creds.go:53-59 | the order in which the right set is walked never shows in the answers for a registry exactly when the left set answers or the right set's entries for it agree |
| DockerCreds.DeadKeyByOrder | pkg/dockercreds/docker_creds.go:53-59 | a key that does not match the host it names goes in exactly when nothing before it matched that host |
| DockerCreds.WellFormedKeysMatchOwnHost | pkg/dockercreds/docker_creds.go:64-82 | well-formed keys satisfy the law the merge depends on |
| DockerCreds.CredentialMerge | pkg/dockercreds/docker_creds.go:46-82 | the merge results for the actual key formats, the default registry included, for any right set |
| DockerCreds.FirstSecretWins | pkg/dockercreds/k8sdockercreds/k8s_keychain.go:70-122 | over any chain of secrets an answer is one of the first secret that has any, and any of them when its entries agree |
| DockerCreds.ChainUnambiguous | pkg/dockercreds/k8sdockercreds/k8s_keychain.go:70-122 | a chain of secrets without double entries has none |
| DockerCreds.DockerCreds.Resolve | pkg/dockercreds/docker_creds.go:16-26 | searching in any order answers with a matching entry, or anonymously when there is none |
| DockerCreds.DockerCreds.Contains | pkg/dockercreds/docker_creds.go:64-82 | whether something matches the host of a key, or the error of parsing it |
| DockerCreds.DockerCreds.Append | pkg/dockercreds/docker_creds.go:46-62 | the receiver becomes the merge in the order walked; on an error it is merged up to the key that failed |

## Left out

- Registry, git, blob, Kubernetes and HTTP clients, signing and attestation: foreign calls, whose results are free here.
- JSON, TOML, tar, gzip and label encodings: structured values stand for the texts.
- Parsing of image references, semantic versions and URLs: the result is carried with the text or comes from a parameter.
- BuildApi.BuildNameInjective: does not model `kmeta.ChildName`, which shortens long names with a hash.
- Text.ParseFormatInt: does not model the 64-bit range of build numbers.
- ImageReconcile.Controller.ReconcileImageOnce: the build cache claim, the tracker call and transition times are not
  modelled; the name of the cache and its error are parameters.
- Stale informer caches, and users who delete the newest build by hand.
- Cyclic buildpack graphs that a spec reaches: `pkg/cnb/remote_buildpack_fetcher.go:87` has a note about them, and the code does not terminate.
- CreateBuilder.BuilderBldr.WriteableImage: does not model what in writing tar layers, appending and labelling can fail; the
  outcome is a parameter.
- CreateBuilder.CreateBuilder: does not model reading the stack and the lifecycle from the registry before the loop, nor
  saving and signing the image after it; what they provide is a parameter.
- SourceResolving.Reconciler.Reconcile: does not model the lookup of the object by key and the delay before the next poll.
- BuildLogs.BuildLogsClient.StreamLogsForContainer: the lines of a log, and the listing without following
  (`pkg/logs/build_logs.go:154-185`), which sends every ready build step of every pod.
- BuildWaiter: a waiter is a set of transitions rather than a loop over a ticker; copying the binary is not modelled.
- Blob sources: `pkg/blob/resolver.go:13-21` drops the components to strip, so a resolved blob does not lead back to its
  configuration.
- The store, stack, lifecycle and buildpack reconcilers, webhooks, field validation and the commands other than the build
  waiter: single branches or plumbing.
