// Build history: how many finished builds are kept, and when trimming would
// reach the newest build.
module ImageHistory {
  import opened Common
  import opened BuildApi
  import opened BuildRequired
  import opened ImageReconcile
  import opened ImageRuns

  function Over(count: nat, limit: nat): nat {
    if count > limit then count - limit else 0
  }

  /** How far the two histories exceed their limits, taken together. */
  function Excess(builds: seq<Build>, failedLimit: nat, successLimit: nat): nat {
    Over(|Failed(builds)|, failedLimit) + Over(|Successful(builds)|, successLimit)
  }

  ghost predicate DistinctNames(builds: seq<Build>) {
    forall i, j :: 0 <= i < j < |builds| ==> builds[i].name != builds[j].name
  }

  lemma OrderedNamesDistinct(image: string, builds: seq<Build>)
    requires Ordered(image, builds)
    ensures DistinctNames(builds)
  {
    forall i, j | 0 <= i < j < |builds| ensures builds[i].name != builds[j].name {
      assert Before(builds[i], builds[j]) && builds[i] in builds && builds[j] in builds;
      if builds[i].name == builds[j].name {
        NamesDiffer(image, builds[i], builds[j]);
      }
    }
  }

  lemma {:induction false} RemoveAbsent(builds: seq<Build>, name: string)
    requires forall b :: b in builds ==> b.name != name
    ensures Remove(builds, name) == builds
    decreases |builds|
  {
    if builds != [] {
      SplitLast(builds);
      RemoveAbsent(builds[..|builds| - 1], name);
    }
  }

  lemma AppendCounts(builds: seq<Build>, b: Build)
    ensures Failed(builds + [b]) == Failed(builds) + (if b.IsFailure() then [b] else [])
    ensures Successful(builds + [b]) == Successful(builds) + (if b.IsSuccess() then [b] else [])
  {
    assert (builds + [b])[..|builds|] == builds;
  }

  lemma SameNameSame(builds: seq<Build>, a: Build, b: Build)
    requires DistinctNames(builds) && a in builds && b in builds
    ensures a.name == b.name ==> a == b
  {
    var i :| 0 <= i < |builds| && builds[i] == a;
    var j :| 0 <= j < |builds| && builds[j] == b;
  }

  /** Deleting a build takes it, and only it, out of its history. */
  lemma {:induction false} RemoveCounts(builds: seq<Build>, x: Build)
    requires DistinctNames(builds) && x in builds
    ensures var r := Remove(builds, x.name);
      && |Failed(r)| == |Failed(builds)| - (if x.IsFailure() then 1 else 0)
      && |Successful(r)| == |Successful(builds)| - (if x.IsSuccess() then 1 else 0)
    decreases |builds|
  {
    SplitLast(builds);
    var rest, last := builds[..|builds| - 1], builds[|builds| - 1];
    SameNameSame(builds, last, x);
    if last.name == x.name {
      RemoveNewest(rest, last);
    } else {
      RemoveCounts(rest, x);
      RemoveBehind(rest, last, x);
    }
  }

  lemma RemoveNewest(rest: seq<Build>, last: Build)
    requires DistinctNames(rest + [last])
    ensures Remove(rest + [last], last.name) == rest
    ensures Failed(rest + [last]) == Failed(rest) + (if last.IsFailure() then [last] else [])
    ensures Successful(rest + [last]) == Successful(rest) + (if last.IsSuccess() then [last] else [])
  {
    var builds := rest + [last];
    assert builds[..|rest|] == rest;
    forall b | b in rest ensures b.name != last.name {
      var i :| 0 <= i < |rest| && rest[i] == b;
      assert builds[i].name != builds[|rest|].name;
    }
    RemoveAbsent(rest, last.name);
    AppendCounts(rest, last);
  }

  lemma RemoveBehind(rest: seq<Build>, last: Build, x: Build)
    requires last.name != x.name
    ensures var builds, r := rest + [last], Remove(rest, x.name);
      && Remove(builds, x.name) == r + [last]
      && |Failed(Remove(builds, x.name))| - |Failed(builds)| == |Failed(r)| - |Failed(rest)|
      && |Successful(Remove(builds, x.name))| - |Successful(builds)| == |Successful(r)| - |Successful(rest)|
  {
    assert (rest + [last])[..|rest|] == rest;
    AppendCounts(rest, last);
    AppendCounts(Remove(rest, x.name), last);
  }

  /** What a completed trimming does: each history over its limit loses exactly one build. */
  lemma TrimCounts(image: string, builds: seq<Build>, failedLimit: nat, successLimit: nat, env: Env)
    requires Ordered(image, builds) && env.Complete()
    ensures var r := Trimmed(builds, failedLimit, successLimit, env);
      && |Failed(r)| == |Failed(builds)| - (if |Failed(builds)| > failedLimit then 1 else 0)
      && |Successful(r)| == |Successful(builds)| - (if |Successful(builds)| > successLimit then 1 else 0)
  {
    var failed, successful := Failed(builds), Successful(builds);
    var b1 := DropOldest(builds, failed, failedLimit, Acked);
    OrderedNamesDistinct(image, builds);
    if |failed| > failedLimit {
      assert failed[0] in failed;
      RemoveCounts(builds, failed[0]);
      RemoveOrdered(image, builds, failed[0].name);
    }
    if |successful| > successLimit {
      assert successful[0] in successful;
      assert |failed| > failedLimit ==> failed[0] in failed;
      if |failed| > failedLimit {
        SameNameSame(builds, failed[0], successful[0]);
      }
      assert successful[0] in b1;
      OrderedNamesDistinct(image, b1);
      RemoveCounts(b1, successful[0]);
    }
  }

  /** So the excess strictly decreases until it is zero. */
  lemma TrimDecreasesExcess(image: string, builds: seq<Build>, failedLimit: nat, successLimit: nat, env: Env)
    requires Ordered(image, builds) && env.Complete()
    ensures var before, after := Excess(builds, failedLimit, successLimit), Excess(Trimmed(builds, failedLimit, successLimit, env), failedLimit, successLimit);
      (before > 0 ==> after < before) && (before == 0 ==> after == 0)
  {
    TrimCounts(image, builds, failedLimit, successLimit, env);
  }

  lemma DropOldestMembers(builds: seq<Build>, history: seq<Build>, limit: nat, b: Build)
    ensures b in DropOldest(builds, history, limit, Acked) <==> b in builds && !(|history| > limit && history[0].name == b.name)
  {
  }

  /** The head of a history is the newest build exactly when that is the only build of its kind. */
  lemma HeadIsNewest(image: string, builds: seq<Build>)
    requires Ordered(image, builds) && builds != []
    ensures var last, failed := Last(builds).value, Failed(builds);
      failed != [] ==> (failed[0].name == last.name <==> last.IsFailure() && |failed| == 1)
    ensures var last, successful := Last(builds).value, Successful(builds);
      successful != [] ==> (successful[0].name == last.name <==> last.IsSuccess() && |successful| == 1)
  {
    var last, failed, successful := Last(builds).value, Failed(builds), Successful(builds);
    OldestIsNotNewest(image, builds);
    OrderedNamesDistinct(image, builds);
    HeadIsLastOnlyIfSame(builds);
    assert last in builds;
    if failed != [] {
      assert failed[0] in failed && (last.IsFailure() ==> last in failed);
    }
    if successful != [] {
      assert successful[0] in successful && (last.IsSuccess() ==> last in successful);
    }
  }

  /** Trimming deletes the newest build exactly when that is the only build of its kind and its limit is zero. */
  lemma NewestDeletedIffLimitZero(image: string, builds: seq<Build>, failedLimit: nat, successLimit: nat, env: Env)
    requires Ordered(image, builds) && builds != [] && env.Complete()
    ensures var last := Last(builds).value;
      last !in Trimmed(builds, failedLimit, successLimit, env) <==>
        || (last.IsFailure() && |Failed(builds)| == 1 && failedLimit == 0)
        || (last.IsSuccess() && |Successful(builds)| == 1 && successLimit == 0)
  {
    var last := Last(builds).value;
    HeadIsNewest(image, builds);
    DropOldestMembers(builds, Failed(builds), failedLimit, last);
    DropOldestMembers(DropOldest(builds, Failed(builds), failedLimit, Acked), Successful(builds), successLimit, last);
  }

  /** With distinct names only the newest build itself has its name. */
  lemma HeadIsLastOnlyIfSame(builds: seq<Build>)
    requires DistinctNames(builds) && builds != []
    ensures forall b :: b in builds && b.name == Last(builds).value.name ==> b == Last(builds).value
  {
    forall b | b in builds && b.name == Last(builds).value.name ensures b == Last(builds).value {
      var i :| 0 <= i < |builds| && builds[i] == b;
    }
  }

  // Runs with fixed limits.

  ghost predicate LimitsAre(s: Store, failedLimit: nat, successLimit: nat) {
    s.image.spec.failedBuildHistoryLimit == failedLimit && s.image.spec.successBuildHistoryLimit == successLimit
  }

  /** One build over each limit at most, and none while a build is running. */
  ghost predicate Bounded(builds: seq<Build>, failedLimit: nat, successLimit: nat) {
    && |Failed(builds)| <= failedLimit + 1 && |Successful(builds)| <= successLimit + 1
    && (builds != [] && Last(builds).value.IsRunning() ==> |Failed(builds)| <= failedLimit && |Successful(builds)| <= successLimit)
  }

  /** Reconciles run to completion, and edits leave the limits alone. */
  ghost predicate Completes(e: Event, failedLimit: nat, successLimit: nat) {
    match e
    case ReconcileEvent(env) => env.Complete()
    case EditImage(spec, _, _) => spec.failedBuildHistoryLimit == failedLimit && spec.successBuildHistoryLimit == successLimit
    case _ => true
  }

  /** The completed reconciles that get as far as trimming: no build runs, and the decision was not an error. */
  ghost predicate ReachesTrimming(s: Store, env: Env)
    requires WellFormed(s)
  {
    GetsToBuilds(s, env) && ReconcileSource(s, env).1.Ok?
    && (var (s1, source) := ReconcileSource(s, env); SourcePresent(source.value) && ReconcileBuild(s1, source.value, s.builder.value, env).1.Ok?)
  }

  lemma ReachesTrimmingTrims(s: Store, env: Env)
    requires WellFormed(s) && ReachesTrimming(s, env)
    ensures Reconcile(s, env).builds ==
      Trimmed(s.builds + Created(s, env), s.image.spec.failedBuildHistoryLimit, s.image.spec.successBuildHistoryLimit, env)
  {
    var (s1, source) := ReconcileSource(s, env);
    ReconcileSourceShape(s, env);
    ReconcileBuildShape(s1, source.value, s.builder.value, env);
    StatusOnly(s, env);
    assert s.builds + [] == s.builds;
  }

  lemma AcknowledgedScheduleReports(s: Store, source: SourceResolver, builder: Builder, env: Env)
    requires SourcePresent(source) && env.create == Acked
    ensures ReconcileBuild(s, source, builder, env).0.builds != s.builds ==> ReconcileBuild(s, source, builder, env).1.Ok?
  {
  }

  /** A completed reconcile that creates a build also trims. */
  lemma CreatedReachesTrimming(s: Store, env: Env)
    requires WellFormed(s) && env.Complete() && Created(s, env) != []
    ensures ReachesTrimming(s, env)
  {
    var (s1, source) := ReconcileSource(s, env);
    ReconcileSourceShape(s, env);
    AcknowledgedScheduleReports(s1, source.value, s.builder.value, env);
  }

  lemma AppendRunningKeepsCounts(builds: seq<Build>, created: seq<Build>)
    requires created == [] || (|created| == 1 && created[0].IsRunning())
    ensures Failed(builds + created) == Failed(builds) && Successful(builds + created) == Successful(builds)
  {
    if created == [] {
      assert builds + created == builds;
    } else {
      assert (builds + created)[..|builds|] == builds;
    }
  }

  /** After limits were lowered: every completed reconcile that reaches trimming takes the excess down, to zero in the end. */
  lemma CompletedReconcileDecreasesExcess(s: Store, env: Env, failedLimit: nat, successLimit: nat)
    requires StoreSafe(s) && LimitsAre(s, failedLimit, successLimit) && env.Complete() && ReachesTrimming(s, env)
    ensures var before, after := Excess(s.builds, failedLimit, successLimit), Excess(Reconcile(s, env).builds, failedLimit, successLimit);
      (before > 0 ==> after < before) && (before == 0 ==> after == 0)
  {
    var created := Created(s, env);
    ReachesTrimmingTrims(s, env);
    ReconcileShape(s, env);
    if created != [] {
      CreatedMayFollow(s, env);
    }
    Extend(s.image.name, s.builds, created, s.clock);
    AppendRunningKeepsCounts(s.builds, created);
    TrimDecreasesExcess(s.image.name, s.builds + created, failedLimit, successLimit, env);
  }

  lemma ReconcileBounded(s: Store, env: Env, failedLimit: nat, successLimit: nat)
    requires StoreSafe(s) && LimitsAre(s, failedLimit, successLimit) && env.Complete()
    requires Bounded(s.builds, failedLimit, successLimit)
    ensures Bounded(Reconcile(s, env).builds, failedLimit, successLimit)
  {
    var created := Created(s, env);
    ReconcileShape(s, env);
    if created != [] {
      CreatedMayFollow(s, env);
      CreatedReachesTrimming(s, env);
      ReachesTrimmingTrims(s, env);
    }
    BoundedAfter(s.image.name, s.builds, created, Reconcile(s, env).builds, s.clock, failedLimit, successLimit, env);
  }

  /** Builds of which at most one was added, and then trimmed, and which were trimmed if at all. */
  lemma BoundedAfter(image: string, builds: seq<Build>, created: seq<Build>, r: seq<Build>, clock: nat,
                     failedLimit: nat, successLimit: nat, env: Env)
    requires Ordered(image, builds) && DatedBefore(builds, clock) && Bounded(builds, failedLimit, successLimit) && env.Complete()
    requires failedLimit >= 1 && successLimit >= 1
    requires created == [] || (|created| == 1 && MayFollow(image, builds, created[0], clock))
    requires r == builds + created || r == Trimmed(builds + created, failedLimit, successLimit, env)
    requires created != [] ==> r == Trimmed(builds + created, failedLimit, successLimit, env)
    ensures Bounded(r, failedLimit, successLimit)
  {
    var mid := builds + created;
    Extend(image, builds, created, clock);
    AppendRunningKeepsCounts(builds, created);
    TrimCounts(image, mid, failedLimit, successLimit, env);
    TrimSafe(image, mid, failedLimit, successLimit, env);
    assert created == [] ==> mid == builds;
  }

  lemma {:induction false} ConcatFailed(a: seq<Build>, b: seq<Build>)
    ensures Failed(a + b) == Failed(a) + Failed(b)
    decreases |b|
  {
    if b == [] {
      assert a + b == a;
    } else {
      var rest, last := b[..|b| - 1], b[|b| - 1];
      assert (a + b)[..|a + b| - 1] == a + rest && (a + b)[|a + b| - 1] == last;
      ConcatFailed(a, rest);
    }
  }

  lemma {:induction false} ConcatSuccessful(a: seq<Build>, b: seq<Build>)
    ensures Successful(a + b) == Successful(a) + Successful(b)
    decreases |b|
  {
    if b == [] {
      assert a + b == a;
    } else {
      var rest, last := b[..|b| - 1], b[|b| - 1];
      assert (a + b)[..|a + b| - 1] == a + rest && (a + b)[|a + b| - 1] == last;
      ConcatSuccessful(a, rest);
    }
  }

  function One(b: bool): nat {
    if b then 1 else 0
  }

  lemma SplitCounts(before: seq<Build>, b: Build, after: seq<Build>)
    ensures |Failed(before + [b] + after)| == |Failed(before + after)| + One(b.IsFailure())
    ensures |Successful(before + [b] + after)| == |Successful(before + after)| + One(b.IsSuccess())
  {
    AppendCounts(before, b);
    ConcatFailed(before + [b], after);
    ConcatFailed(before, after);
    ConcatSuccessful(before + [b], after);
    ConcatSuccessful(before, after);
  }

  lemma ReplaceCounts(builds: seq<Build>, i: nat, b: Build)
    requires i < |builds|
    ensures |Failed(builds[i := b])| == |Failed(builds)| + One(b.IsFailure()) - One(builds[i].IsFailure())
    ensures |Successful(builds[i := b])| == |Successful(builds)| + One(b.IsSuccess()) - One(builds[i].IsSuccess())
  {
    var before, after := builds[..i], builds[i + 1..];
    assert builds == before + [builds[i]] + after && builds[i := b] == before + [b] + after;
    SplitCounts(before, builds[i], after);
    SplitCounts(before, b, after);
  }

  lemma DeleteCounts(builds: seq<Build>, i: nat)
    requires i < |builds|
    ensures var r := builds[..i] + builds[i + 1..];
      |Failed(r)| <= |Failed(builds)| && |Successful(r)| <= |Successful(builds)|
  {
    assert builds == builds[..i] + [builds[i]] + builds[i + 1..];
    SplitCounts(builds[..i], builds[i], builds[i + 1..]);
  }

  lemma BuildUpdateBounded(image: string, builds: seq<Build>, i: nat, status: BuildStatus, failedLimit: nat, successLimit: nat)
    requires Ordered(image, builds) && i < |builds| && builds[i].IsRunning() && Bounded(builds, failedLimit, successLimit)
    ensures Bounded(builds[i := builds[i].(status := status)], failedLimit, successLimit)
  {
    var b := builds[i].(status := status);
    RunningIsNewest(image, builds, i);
    ReplaceCounts(builds, i, b);
  }

  lemma ReconcileKeepsSpec(s: Store, env: Env)
    requires WellFormed(s)
    ensures Reconcile(s, env).image.spec == s.image.spec
  {
    ReconcileShape(s, env);
  }

  lemma AnnotateBounded(builds: seq<Build>, i: nat, annotations: map<string, string>, failedLimit: nat, successLimit: nat)
    requires i < |builds| && Bounded(builds, failedLimit, successLimit)
    ensures Bounded(builds[i := builds[i].(annotations := annotations)], failedLimit, successLimit)
  {
    ReplaceCounts(builds, i, builds[i].(annotations := annotations));
  }

  lemma StepKeepsLimits(w: World, e: Event, failedLimit: nat, successLimit: nat)
    requires Safe(w) && Enabled(w, e) && LimitsAre(w.store, failedLimit, successLimit) && Completes(e, failedLimit, successLimit)
    ensures LimitsAre(Next(w, e).store, failedLimit, successLimit)
  {
    if e.ReconcileEvent? {
      ReconcileKeepsSpec(w.store, e.env);
    }
  }

  lemma ReconcileEventBounded(w: World, env: Env, failedLimit: nat, successLimit: nat)
    requires Safe(w) && LimitsAre(w.store, failedLimit, successLimit) && env.Complete()
    requires Bounded(w.store.builds, failedLimit, successLimit)
    ensures Bounded(ReconcileNext(w, env).store.builds, failedLimit, successLimit)
  {
    ReconcileBounded(w.store, env, failedLimit, successLimit);
  }

  lemma DeleteBounded(builds: seq<Build>, i: nat, failedLimit: nat, successLimit: nat)
    requires i + 1 < |builds| && Bounded(builds, failedLimit, successLimit)
    ensures Bounded(builds[..i] + builds[i + 1..], failedLimit, successLimit)
  {
    DeleteCounts(builds, i);
    assert Last(builds[..i] + builds[i + 1..]) == Last(builds);
  }

  lemma UpdateEventBounded(image: string, builds: seq<Build>, e: Event, failedLimit: nat, successLimit: nat)
    requires Ordered(image, builds) && e.BuildUpdate? && e.i < |builds| && builds[e.i].IsRunning()
    requires Bounded(builds, failedLimit, successLimit)
    ensures Bounded(AfterEvent(builds, e), failedLimit, successLimit)
  {
    BuildUpdateBounded(image, builds, e.i, e.status, failedLimit, successLimit);
  }

  lemma AnnotateEventBounded(builds: seq<Build>, e: Event, failedLimit: nat, successLimit: nat)
    requires e.AnnotateBuild? && e.i < |builds| && Bounded(builds, failedLimit, successLimit)
    ensures Bounded(AfterEvent(builds, e), failedLimit, successLimit)
  {
    AnnotateBounded(builds, e.i, e.annotations, failedLimit, successLimit);
  }

  lemma DeleteEventBounded(builds: seq<Build>, e: Event, failedLimit: nat, successLimit: nat)
    requires e.DeleteBuild? && e.i + 1 < |builds| && Bounded(builds, failedLimit, successLimit)
    ensures Bounded(AfterEvent(builds, e), failedLimit, successLimit)
  {
    DeleteBounded(builds, e.i, failedLimit, successLimit);
  }

  lemma EventBounded(image: string, builds: seq<Build>, e: Event, failedLimit: nat, successLimit: nat)
    requires Ordered(image, builds) && !e.ReconcileEvent? && InRange(builds, e) && (e.BuildUpdate? ==> builds[e.i].IsRunning())
    requires Bounded(builds, failedLimit, successLimit)
    ensures Bounded(AfterEvent(builds, e), failedLimit, successLimit)
  {
    if e.BuildUpdate? {
      UpdateEventBounded(image, builds, e, failedLimit, successLimit);
    } else if e.AnnotateBuild? {
      AnnotateEventBounded(builds, e, failedLimit, successLimit);
    } else if e.DeleteBuild? {
      DeleteEventBounded(builds, e, failedLimit, successLimit);
    } else {
      assert AfterEvent(builds, e) == builds;
    }
  }

  lemma StepBounded(w: World, e: Event, failedLimit: nat, successLimit: nat)
    requires Safe(w) && Enabled(w, e) && LimitsAre(w.store, failedLimit, successLimit)
    requires Completes(e, failedLimit, successLimit) && Bounded(w.store.builds, failedLimit, successLimit)
    ensures LimitsAre(Next(w, e).store, failedLimit, successLimit)
    ensures Bounded(Next(w, e).store.builds, failedLimit, successLimit)
  {
    StepKeepsLimits(w, e, failedLimit, successLimit);
    if e.ReconcileEvent? {
      ReconcileEventBounded(w, e.env, failedLimit, successLimit);
    } else {
      NextBuilds(w, e);
      EventBounded(w.store.image.name, w.store.builds, e, failedLimit, successLimit);
    }
  }

  /** The history bound: over any run with fixed limits whose reconciles complete, at most limit + 1 builds of each
      kind are kept, and at most the limit while a build is running. */
  lemma {:induction false} HistoryBounded(w: World, es: seq<Event>, failedLimit: nat, successLimit: nat)
    requires Safe(w) && EnabledRun(w, es) && LimitsAre(w.store, failedLimit, successLimit)
    requires forall e :: e in es ==> Completes(e, failedLimit, successLimit)
    requires Bounded(w.store.builds, failedLimit, successLimit)
    ensures Bounded(Run(w, es).store.builds, failedLimit, successLimit)
    decreases |es|
  {
    if es != [] {
      assert es[0] in es;
      StepSafe(w, es[0]);
      StepBounded(w, es[0], failedLimit, successLimit);
      HistoryBounded(Next(w, es[0]), es[1..], failedLimit, successLimit);
    }
  }
}
