// pkg/reconciler/image: one reconcile of an Image, first as functions on the
// stored objects, then as the controller that performs it call by call.
module ImageReconcile {
  import opened Common
  import opened BuildApi
  import opened BuildRequired
  import Sorting

  /** What became of one write: acknowledged, refused, or applied with the answer lost. */
  datatype Write = Acked | Refused | Unacked

  /** Everything a reconcile depends on besides the stored objects. */
  datatype Env = Env(now: string, cacheName: string, enablePriorityClasses: bool,
                     builderError: bool, listError: bool, cacheError: bool, relistError: bool,
                     source: Write, create: Write, deleteFailed: Write, deleteSuccessful: Write, status: Write)
  {
    predicate Complete() {
      && !builderError && !listError && !cacheError && !relistError
      && source == Acked && create == Acked && deleteFailed == Acked && deleteSuccessful == Acked && status == Acked
    }
  }

  /** The API server's objects for one image; builds are in creation order, clock is the next creation timestamp. */
  datatype Store = Store(image: Image, builds: seq<Build>, source: Option<SourceResolver>, builder: Option<Builder>, clock: nat)
  {
    predicate HasBuild(name: string) {
      exists b :: b in builds && b.name == name
    }
  }

  // Build lists.

  datatype BuildList = BuildList(successful: seq<Build>, failed: seq<Build>, last: Option<Build>)

  function Last(builds: seq<Build>): Option<Build> {
    if builds == [] then None else Some(builds[|builds| - 1])
  }

  function Successful(builds: seq<Build>): (r: seq<Build>)
    ensures forall b :: b in r <==> b in builds && b.IsSuccess()
    decreases |builds|
  {
    if builds == [] then []
    else
      var rest, b := builds[..|builds| - 1], builds[|builds| - 1];
      assert builds == rest + [b];
      Successful(rest) + if b.IsSuccess() then [b] else []
  }

  function Failed(builds: seq<Build>): (r: seq<Build>)
    ensures forall b :: b in r <==> b in builds && b.IsFailure()
    decreases |builds|
  {
    if builds == [] then []
    else
      var rest, b := builds[..|builds| - 1], builds[|builds| - 1];
      assert builds == rest + [b];
      Failed(rest) + if b.IsFailure() then [b] else []
  }

  /** Creation timestamps increase along the list and lie before the clock. */
  ghost predicate Dated(builds: seq<Build>, clock: nat) {
    InCreationOrder(builds) && forall i :: 0 <= i < |builds| ==> builds[i].created < clock
  }

  lemma DatedExtends(builds: seq<Build>, b: Build, clock: nat)
    requires b.created == clock
    ensures Dated(builds, clock) ==> Dated(builds + [b], clock + 1)
  {
  }

  predicate CreatedBefore(a: Build, b: Build) {
    a.created < b.created
  }

  ghost predicate InCreationOrder(builds: seq<Build>) {
    forall i, j :: 0 <= i < j < |builds| ==> builds[i].created < builds[j].created
  }

  /** Creation timestamps are distinct, so a sort by them restores the order of creation. */
  lemma SortedByCreation(listing: seq<Build>, builds: seq<Build>)
    requires IsPermutation(listing, builds) && InCreationOrder(builds)
    ensures Sorting.StableSort(listing, CreatedBefore) == builds
  {
    var sorted := Sorting.StableSort(listing, CreatedBefore);
    Sorting.StableSortCorrect(listing, CreatedBefore);
    assert Sorting.IsSorted(builds, CreatedBefore);
    assert Sorting.TotalOn(builds, CreatedBefore);
    Sorting.SortUnique(builds, sorted, CreatedBefore);
  }

  method SplitByOutcome(builds: seq<Build>) returns (successful: seq<Build>, failed: seq<Build>)
    ensures successful == Successful(builds) && failed == Failed(builds)
  {
    successful, failed := [], [];
    for i := 0 to |builds|
      invariant successful == Successful(builds[..i]) && failed == Failed(builds[..i])
    {
      assert builds[..i + 1][..i] == builds[..i];
      if builds[i].IsSuccess() {
        successful := successful + [builds[i]];
      } else if builds[i].IsFailure() {
        failed := failed + [builds[i]];
      }
    }
    assert builds[..|builds|] == builds;
  }

  /** build_list.go:17-35: whatever order the lister hands the builds out in, the list is that of creation order. */
  method NewBuildList(listing: seq<Build>, ghost builds: seq<Build>) returns (list: BuildList)
    requires IsPermutation(listing, builds) && InCreationOrder(builds)
    ensures list == BuildList(Successful(builds), Failed(builds), Last(builds))
  {
    var sorted := Sorting.StableSort(listing, CreatedBefore);
    SortedByCreation(listing, builds);
    var successful, failed := SplitByOutcome(sorted);
    list := BuildList(successful, failed, if |sorted| > 0 then Some(sorted[|sorted| - 1]) else None);
  }

  // Conditions.

  function MessageOr(c: Option<Condition>, default_: string): string {
    if c.None? then default_ else c.value.message
  }

  function BuilderError(builder: Builder): string {
    var m := "Error: Builder '" + builder.name + "' is not ready in namespace '" + builder.namespace + "'";
    if builder.ConditionReadyMessage() != "" then m + "; Message: " + builder.ConditionReadyMessage() else m
  }

  function BuilderReadyCondition(builder: Builder): Condition {
    if builder.Ready() then Condition(BuilderReady, ConditionTrue, BuilderReadyReason, "")
    else Condition(BuilderReady, ConditionFalse, BuilderNotReadyReason, BuilderError(builder))
  }

  function BuilderUpToDateCondition(builder: Builder): Condition {
    if builder.UpToDate() then Condition(BuilderUpToDate, ConditionTrue, BuilderUpToDateReason, "")
    else Condition(BuilderUpToDate, ConditionFalse, BuilderNotUpToDateReason,
                   "Builder is not up to date. The latest stack and buildpacks may not be in use.")
  }

  function BuilderNotFound(image: Image): seq<Condition> {
    [Condition(ConditionKind.Ready, ConditionFalse, BuilderNotFoundReason, "Error: Unable to find builder.")]
  }

  function BuildRunning(build: Build, builder: Builder): seq<Condition> {
    [Condition(ConditionKind.Ready, ConditionUnknown, BuildRunningReason, MessageOr(build.Succeeded(), "Build '" + build.name + "' is executing")),
     BuilderReadyCondition(builder), BuilderUpToDateCondition(builder)]
  }

  function ScheduledBuild(build: Build, builder: Builder): seq<Condition> {
    [Condition(ConditionKind.Ready, ConditionUnknown, BuildRunningReason, "Build '" + build.name + "' is executing"),
     Condition(BuilderReady, ConditionTrue, BuilderReadyReason, ""), BuilderUpToDateCondition(builder)]
  }

  function ReadyOf(needed: ConditionStatus, builder: Builder, build: Option<Build>, source: SourceResolver): Condition
    requires builder.Ready() && needed != ConditionUnknown ==> build.Some?
  {
    if !builder.Ready() then
      Condition(ConditionKind.Ready, ConditionFalse, BuilderNotReadyReason, BuilderError(builder))
    else if needed == ConditionUnknown && !source.Ready() then
      Condition(ConditionKind.Ready, ConditionUnknown, ResolverNotReadyReason, "Error: SourceResolver is not ready")
    else if needed == ConditionUnknown then
      Condition(ConditionKind.Ready, ConditionUnknown, UnknownStateReason, "Error: Build status unknown")
    else
      var c := build.value.Succeeded();
      if IsTrue(c) then Condition(ConditionKind.Ready, ConditionTrue, UpToDateReason, MessageOr(c, "Last build succeeded"))
      else Condition(ConditionKind.Ready, if c.None? then ConditionUnknown else c.value.status, BuildFailedReason,
                     "Error: Build '" + build.value.name + "' failed: " + MessageOr(c, "unknown error"))
  }

  /** reconcile_build.go:80-112. The last two branches dereference build, so it must not be nil there. */
  method NoScheduledBuild(needed: ConditionStatus, builder: Builder, build: Option<Build>, source: SourceResolver) returns (conditions: seq<Condition>)
    requires builder.Ready() && needed != ConditionUnknown ==> build.Some?
    ensures conditions == [ReadyOf(needed, builder, build, source), BuilderReadyCondition(builder), BuilderUpToDateCondition(builder)]
  {
    var status, reason, message := ConditionUnknown, NoReason, "";
    if !builder.Ready() {
      status := ConditionFalse;
      reason := BuilderNotReadyReason;
      message := BuilderError(builder);
    } else if needed == ConditionUnknown && !source.Ready() {
      reason := ResolverNotReadyReason;
      message := "Error: SourceResolver is not ready";
    } else if needed == ConditionUnknown && source.Ready() {
      reason := UnknownStateReason;
      message := "Error: Build status unknown";
    } else if IsTrue(build.value.Succeeded()) {
      status := ConditionTrue;
      reason := UpToDateReason;
      message := MessageOr(build.value.Succeeded(), "Last build succeeded");
    } else {
      var c := build.value.Succeeded();
      status := if c.None? then ConditionUnknown else c.value.status;
      reason := BuildFailedReason;
      message := "Error: Build '" + build.value.name + "' failed: " + MessageOr(c, "unknown error");
    }
    conditions := [Condition(ConditionKind.Ready, status, reason, message), BuilderReadyCondition(builder), BuilderUpToDateCondition(builder)];
  }

  // The reconcile as functions: the store it leaves, and the status it wants to write (or the error it returns).

  function DesiredSource(image: Image): SourceResolver {
    SourceResolver(image.labels, 1, SourceResolverSpec(image.spec.serviceAccount, image.spec.source), SourceResolverStatus(0, [], None))
  }

  /** image.go:177-198. The API server starts a new generation when the spec changes. */
  function SourceAfter(image: Image, source: Option<SourceResolver>): SourceResolver {
    var desired := DesiredSource(image);
    match source
    case None => desired
    case Some(sr) =>
      sr.(spec := desired.spec, labels := desired.labels, generation := sr.generation + if sr.spec == desired.spec then 0 else 1)
  }

  function ReconcileSource(s: Store, env: Env): (Store, Result<SourceResolver>) {
    var after := SourceAfter(s.image, s.source);
    if s.source == Some(after) then (s, Ok(after))
    else
      (if env.source == Refused then s else s.(source := Some(after)),
       if env.source == Acked then Ok(after) else Err("cannot write source resolver"))
  }

  function StatusOf(image: Image, env: Env, conditions: seq<Condition>, latest: Option<Build>, latestImage: string, counter: int): ImageStatus {
    if latest.None? then ImageStatus(0, conditions, "", 0, latestImage, "", counter, env.cacheName, "")
    else ImageStatus(0, conditions, latest.value.name, latest.value.ImageGeneration(), latestImage, latest.value.Stack(),
                     counter, env.cacheName, latest.value.BuildReason())
  }

  function LatestForImage(image: Image, latest: Option<Build>): string {
    if latest.Some? && latest.value.IsSuccess() then latest.value.BuiltImage() else image.status.latestImage
  }

  function NextBuild(s: Store, source: SourceResolver, builder: Builder, result: BuildRequiredResult, current: int, env: Env): Build
    requires source.status.source.Some?
  {
    NewBuild(s.image, source, builder, Last(s.builds), result.reasonsStr, result.changesStr, current + 1,
             if env.enablePriorityClasses then result.priorityClass else "", s.clock)
  }

  /** Creating a build, and the status that goes with it. A name that is taken makes the server refuse. */
  function Scheduled(s: Store, build: Build, builder: Builder, current: int, env: Env): (Store, Result<ImageStatus>) {
    var created := env.create != Refused && !s.HasBuild(build.name);
    (if created then s.(builds := s.builds + [build], clock := s.clock + 1) else s,
     if created && env.create == Acked
     then Ok(StatusOf(s.image, env, ScheduledBuild(build, builder), Some(build), LatestForImage(s.image, Last(s.builds)), current + 1))
     else Err("error creating build"))
  }

  /** reconcile_build.go:41-59: the branch that creates a build. */
  function Schedule(s: Store, source: SourceResolver, builder: Builder, result: BuildRequiredResult, current: int, env: Env): (Store, Result<ImageStatus>)
    requires source.status.source.Some?
  {
    Scheduled(s, NextBuild(s, source, builder, result, current, env), builder, current, env)
  }

  /** reconcile_build.go:60-74: the branch that only reports. */
  function Report(s: Store, source: SourceResolver, builder: Builder, needed: ConditionStatus, current: int, env: Env): ImageStatus
    requires builder.Ready() && needed != ConditionUnknown ==> s.builds != []
  {
    StatusOf(s.image, env,
             [ReadyOf(needed, builder, Last(s.builds), source), BuilderReadyCondition(builder), BuilderUpToDateCondition(builder)],
             Last(s.builds), LatestForImage(s.image, Last(s.builds)), current)
  }

  /** reconcile_build.go:25-78. */
  function ReconcileBuild(s: Store, source: SourceResolver, builder: Builder, env: Env): (Store, Result<ImageStatus>)
    requires SourcePresent(source)
  {
    var latest := Last(s.builds);
    match BuildCounter(latest)
    case Err(e) => (s, Err("error parsing the image build number: " + e))
    case Ok(current) =>
      DecisionMeaning(s.image, latest, source, builder, env.now);
      match IsBuildRequired(s.image, latest, source, builder, env.now)
      case Err(e) => (s, Err("error determining if an image build is needed: " + e))
      case Ok(result) =>
        if result.status == ConditionTrue then Schedule(s, source, builder, result, current, env)
        else (s, Ok(Report(s, source, builder, result.status, current, env)))
  }

  function Remove(builds: seq<Build>, name: string): (r: seq<Build>)
    ensures forall b :: b in r <==> b in builds && b.name != name
    decreases |builds|
  {
    if builds == [] then []
    else
      var rest, b := builds[..|builds| - 1], builds[|builds| - 1];
      assert builds == rest + [b];
      Remove(rest, name) + if b.name == name then [] else [b]
  }

  /** With a negative limit the trimming would index an empty list. */
  predicate LimitsNonNegative(image: Image) {
    image.spec.failedBuildHistoryLimit >= 0 && image.spec.successBuildHistoryLimit >= 0
  }

  /** The limits that image_validation.go:197-207 admits. */
  predicate LimitsValid(image: Image) {
    image.spec.failedBuildHistoryLimit >= 1 && image.spec.successBuildHistoryLimit >= 1
  }

  function DropOldest(builds: seq<Build>, history: seq<Build>, limit: nat, write: Write): seq<Build> {
    if |history| > limit && write != Refused then Remove(builds, history[0].name) else builds
  }

  /** The builds that trimming leaves. Both histories are those of the list fetched at the start. */
  function Trimmed(builds: seq<Build>, failedLimit: nat, successLimit: nat, env: Env): seq<Build> {
    var b1 := DropOldest(builds, Failed(builds), failedLimit, env.deleteFailed);
    if env.relistError then builds
    else if |Failed(builds)| > failedLimit && env.deleteFailed != Acked then b1
    else DropOldest(b1, Successful(builds), successLimit, env.deleteSuccessful)
  }

  /** image.go:237-262; the flag says whether it returned without an error. */
  function DeleteOldBuilds(s: Store, env: Env): (Store, bool)
    requires LimitsNonNegative(s.image)
  {
    var failedLimit, successLimit := s.image.spec.failedBuildHistoryLimit, s.image.spec.successBuildHistoryLimit;
    (s.(builds := Trimmed(s.builds, failedLimit, successLimit, env)),
     && !env.relistError
     && (|Failed(s.builds)| > failedLimit ==> env.deleteFailed == Acked)
     && (|Successful(s.builds)| > successLimit ==> env.deleteSuccessful == Acked))
  }

  ghost predicate WellFormed(s: Store) {
    LimitsValid(s.image) && (s.source.Some? ==> SourcePresent(s.source.value))
  }

  /** image.go:166-175. */
  function BuildAndTrim(s: Store, source: SourceResolver, builder: Builder, env: Env): (Store, Result<ImageStatus>)
    requires SourcePresent(source) && LimitsNonNegative(s.image)
  {
    var (s', status) := ReconcileBuild(s, source, builder, env);
    if status.Err? then (s', status)
    else
      var (s'', ok) := DeleteOldBuilds(s', env);
      (s'', if ok then status else Err("failed deleting builds"))
  }

  /** image.go:138-175. */
  function ReconcileImage(s: Store, env: Env): (Store, Result<ImageStatus>)
    requires WellFormed(s)
  {
    if env.builderError then (s, Err("cannot get builder"))
    else if s.builder.None? then (s, Ok(s.image.status.(conditions := BuilderNotFound(s.image))))
    else if env.listError then (s, Err("failed fetching builds"))
    else
      var builder, latest := s.builder.value, Last(s.builds);
      if latest.Some? && latest.value.IsRunning() then
        (s, Ok(s.image.status.(conditions := BuildRunning(latest.value, builder))))
      else if env.cacheError then (s, Err("cannot reconcile build cache"))
      else
        var (s1, source) := ReconcileSource(s, env);
        if source.Err? then (s1, Err(source.error)) else BuildAndTrim(s1, source.value, builder, env)
  }

  /** image.go:287-300. */
  function UpdateStatus(s: Store, status: ImageStatus, env: Env): Store {
    var desired := status.(observedGeneration := s.image.generation);
    if env.status == Refused then s else s.(image := s.image.(status := desired))
  }

  /** image.go:114-136. */
  function Reconcile(s: Store, env: Env): Store
    requires WellFormed(s)
  {
    var (s', status) := ReconcileImage(s, env);
    match status
    case Err(_) => s'
    case Ok(st) => UpdateStatus(s', st, env)
  }

  // The same as a controller over stored objects.

  class Controller {
    var image: Image
    var builds: seq<Build>
    var source: Option<SourceResolver>
    var builder: Option<Builder>
    var clock: nat

    constructor (s: Store)
      ensures View() == s
    {
      image, builds, source, builder, clock := s.image, s.builds, s.source, s.builder, s.clock;
    }

    function View(): Store
      reads this
    {
      Store(image, builds, source, builder, clock)
    }

    /** The lister: every build, in any order. */
    method ListBuilds() returns (listing: seq<Build>)
      ensures IsPermutation(listing, builds)
    {
      listing := builds;
      for k := 0 to |builds|
        invariant |listing| == |builds| && IsPermutation(listing, builds)
      {
        var i :| 0 <= i < |builds|;
        listing := listing[k := listing[i]][i := listing[k]];
      }
    }

    method FetchAllBuilds() returns (list: BuildList)
      requires InCreationOrder(builds)
      ensures list == BuildList(Successful(builds), Failed(builds), Last(builds))
    {
      var listing := ListBuilds();
      list := NewBuildList(listing, builds);
    }

    method ReconcileSourceResolver(env: Env) returns (r: Result<SourceResolver>)
      modifies this`source
      ensures (View(), r) == ReconcileSource(old(View()), env)
    {
      var desired := DesiredSource(image);
      if source.None? {
        if env.source != Refused {
          source := Some(desired);
        }
        return if env.source == Acked then Ok(desired) else Err("cannot write source resolver");
      }
      var existing := source.value;
      if desired.spec == existing.spec && desired.labels == existing.labels {
        return Ok(existing);
      }
      var generation := existing.generation + if existing.spec == desired.spec then 0 else 1;
      var updated := existing.(spec := desired.spec, labels := desired.labels, generation := generation);
      if env.source != Refused {
        source := Some(updated);
      }
      r := if env.source == Acked then Ok(updated) else Err("cannot write source resolver");
    }

    /** The client's Create. */
    method CreateBuild(build: Build, env: Env) returns (ok: bool)
      requires build.created == clock
      modifies this`builds, this`clock
      ensures var created := env.create != Refused && !old(View()).HasBuild(build.name);
        && View() == (if created then old(View()).(builds := old(builds) + [build], clock := old(clock) + 1) else old(View()))
        && (ok <==> created && env.create == Acked)
      ensures old(Dated(builds, clock)) ==> Dated(builds, clock)
    {
      DatedExtends(builds, build, clock);
      if env.create == Refused || View().HasBuild(build.name) {
        return false;
      }
      builds := builds + [build];
      clock := clock + 1;
      ok := env.create == Acked;
    }

    method CreateAndReport(build: Build, b: Builder, current: int, env: Env) returns (r: Result<ImageStatus>)
      requires build.created == clock
      modifies this`builds, this`clock
      ensures (View(), r) == Scheduled(old(View()), build, b, current, env)
      ensures old(Dated(builds, clock)) ==> Dated(builds, clock)
    {
      var latestImage := LatestForImage(image, Last(builds));
      var ok := CreateBuild(build, env);
      if !ok {
        return Err("error creating build");
      }
      r := Ok(StatusOf(image, env, ScheduledBuild(build, b), Some(build), latestImage, current + 1));
    }

    method ScheduleBuild(sourceResolver: SourceResolver, b: Builder, result: BuildRequiredResult, current: int, env: Env) returns (r: Result<ImageStatus>)
      requires sourceResolver.status.source.Some?
      modifies this`builds, this`clock
      ensures (View(), r) == Schedule(old(View()), sourceResolver, b, result, current, env)
      ensures old(Dated(builds, clock)) ==> Dated(builds, clock)
    {
      var build := NextBuild(View(), sourceResolver, b, result, current, env);
      r := CreateAndReport(build, b, current, env);
    }

    method ReconcileBuilds(latest: Option<Build>, sourceResolver: SourceResolver, b: Builder, env: Env) returns (r: Result<ImageStatus>)
      requires SourcePresent(sourceResolver) && latest == Last(builds)
      modifies this`builds, this`clock
      ensures (View(), r) == ReconcileBuild(old(View()), sourceResolver, b, env)
      ensures old(Dated(builds, clock)) ==> Dated(builds, clock)
    {
      var counter := BuildCounter(latest);
      if counter.Err? {
        return Err("error parsing the image build number: " + counter.error);
      }
      DecisionMeaning(image, latest, sourceResolver, b, env.now);
      var decision := Decide(image, latest, sourceResolver, b, env.now);
      if decision.Err? {
        return Err("error determining if an image build is needed: " + decision.error);
      }
      if decision.value.status == ConditionTrue {
        r := ScheduleBuild(sourceResolver, b, decision.value, counter.value, env);
      } else {
        var conditions := NoScheduledBuild(decision.value.status, b, latest, sourceResolver);
        r := Ok(StatusOf(image, env, conditions, latest, LatestForImage(image, latest), counter.value));
      }
    }

    method DeleteOldest(history: seq<Build>, limit: nat, write: Write) returns (ok: bool)
      modifies this`builds
      ensures builds == DropOldest(old(builds), history, limit, write)
      ensures ok <==> (|history| > limit ==> write == Acked)
    {
      if |history| <= limit {
        return true;
      }
      if write != Refused {
        builds := Remove(builds, history[0].name);
      }
      ok := write == Acked;
    }

    method TrimHistory(env: Env) returns (ok: bool)
      requires LimitsNonNegative(image) && InCreationOrder(builds)
      modifies this`builds
      ensures (View(), ok) == DeleteOldBuilds(old(View()), env)
    {
      if env.relistError {
        return false;
      }
      var list := FetchAllBuilds();
      ok := DeleteOldest(list.failed, image.spec.failedBuildHistoryLimit, env.deleteFailed);
      if !ok {
        return;
      }
      ok := DeleteOldest(list.successful, image.spec.successBuildHistoryLimit, env.deleteSuccessful);
    }

    method ReconcileBuildsAndTrim(latest: Option<Build>, env: Env) returns (r: Result<ImageStatus>)
      requires WellFormed(View()) && Dated(builds, clock) && !env.builderError && !env.listError && !env.cacheError
      requires builder.Some? && latest == Last(builds) && (latest.Some? ==> !latest.value.IsRunning())
      modifies this`source, this`builds, this`clock
      ensures (View(), r) == ReconcileImage(old(View()), env)
    {
      var sourceResolver := ReconcileSourceResolver(env);
      if sourceResolver.Err? {
        return Err(sourceResolver.error);
      }
      r := ReconcileBuilds(latest, sourceResolver.value, builder.value, env);
      if r.Err? {
        return;
      }
      var ok := TrimHistory(env);
      if !ok {
        r := Err("failed deleting builds");
      }
    }

    method ReconcileImageOnce(env: Env) returns (r: Result<ImageStatus>)
      requires WellFormed(View()) && Dated(builds, clock)
      modifies this`source, this`builds, this`clock
      ensures (View(), r) == ReconcileImage(old(View()), env)
    {
      if env.builderError {
        return Err("cannot get builder");
      }
      if builder.None? {
        return Ok(image.status.(conditions := BuilderNotFound(image)));
      }
      if env.listError {
        return Err("failed fetching builds");
      }
      var list := FetchAllBuilds();
      if list.last.Some? && list.last.value.IsRunning() {
        return Ok(image.status.(conditions := BuildRunning(list.last.value, builder.value)));
      }
      if env.cacheError {
        return Err("cannot reconcile build cache");
      }
      r := ReconcileBuildsAndTrim(list.last, env);
    }

    /** One reconcile of the controller is the function Reconcile on the stored objects. */
    method ReconcileOnce(env: Env)
      requires WellFormed(View()) && Dated(builds, clock)
      modifies this
      ensures View() == Reconcile(old(View()), env)
    {
      var status := ReconcileImageOnce(env);
      if status.Err? {
        return;
      }
      var desired := status.value.(observedGeneration := image.generation);
      if image.status != desired && env.status != Refused {
        image := image.(status := desired);
      }
    }
  }
}
