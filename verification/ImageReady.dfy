// What Ready=True on an Image means.
module ImageReady {
  import opened Common
  import opened BuildApi
  import opened BuildRequired
  import opened ImageReconcile
  import opened ImageRuns

  predicate SaysReady(status: ImageStatus) {
    IsTrue(GetCondition(status.conditions, ConditionKind.Ready))
  }

  /** The newest build succeeded from what spec, source and builder say now, and nobody asked for another. */
  ghost predicate ImageUpToDate(s: Store) {
    var source := SourceAfter(s.image, s.source);
    && s.builder.Some? && s.builder.value.Ready()
    && SourcePresent(source) && source.Ready() && source.spec.source == s.image.spec.source
    && s.builds != [] && Last(s.builds).value.IsSuccess()
    && Current(s.image, Last(s.builds).value, source.status.source.value, s.builder.value)
  }

  ghost predicate Explained(status: ImageStatus) {
    forall c :: c in status.conditions ==> c.reason != UnknownStateReason
  }

  /** A status built from three conditions, the first of kind Ready. */
  lemma FirstConditionDecides(image: Image, env: Env, a: Condition, b: Condition, c: Condition, latest: Option<Build>, latestImage: string, counter: int)
    requires a.kind == Ready && b.reason != UnknownStateReason && c.reason != UnknownStateReason
    ensures var status := StatusOf(image, env, [a, b, c], latest, latestImage, counter);
      && (SaysReady(status) <==> a.status == ConditionTrue)
      && (Explained(status) <==> a.reason != UnknownStateReason)
      && status.latestImage == latestImage
  {
    var conditions := [a, b, c];
    assert conditions[0] == a && conditions[1] == b && conditions[2] == c;
    assert GetCondition(conditions, ConditionKind.Ready) == Some(a);
    assert a in conditions;
  }

  lemma ReportStatus(s: Store, source: SourceResolver, builder: Builder, needed: ConditionStatus, current: int, env: Env)
    requires builder.Ready() && needed != ConditionUnknown ==> s.builds != []
    requires needed == ConditionUnknown ==> !source.Ready() || !builder.Ready()
    ensures var r := Report(s, source, builder, needed, current, env);
      && Explained(r)
      && (SaysReady(r) <==> builder.Ready() && needed != ConditionUnknown && Last(s.builds).value.IsSuccess())
      && r.latestImage == LatestForImage(s.image, Last(s.builds))
  {
    FirstConditionDecides(s.image, env, ReadyOf(needed, builder, Last(s.builds), source), BuilderReadyCondition(builder),
                          BuilderUpToDateCondition(builder), Last(s.builds), LatestForImage(s.image, Last(s.builds)), current);
  }

  lemma RunningStatus(image: Image, env: Env, build: Build, builder: Builder, latestImage: string, counter: int)
    ensures var status := StatusOf(image, env, ScheduledBuild(build, builder), Some(build), latestImage, counter);
      Explained(status) && !SaysReady(status)
  {
    var c := ScheduledBuild(build, builder);
    assert c == [c[0], c[1], c[2]];
    FirstConditionDecides(image, env, c[0], c[1], c[2], Some(build), latestImage, counter);
  }

  lemma ScheduledStatus(s: Store, source: SourceResolver, builder: Builder, result: BuildRequiredResult, current: int, env: Env)
    requires source.status.source.Some?
    ensures var r := Schedule(s, source, builder, result, current, env).1; r.Ok? ==> Explained(r.value) && !SaysReady(r.value)
  {
    RunningStatus(s.image, env, NextBuild(s, source, builder, result, current, env), builder,
                  LatestForImage(s.image, Last(s.builds)), current + 1);
  }

  lemma ReportReady(s: Store, source: SourceResolver, builder: Builder, env: Env)
    requires SourcePresent(source)
    ensures var r := ReconcileBuild(s, source, builder, env).1;
      r.Ok? ==>
        && Explained(r.value)
        && (SaysReady(r.value) <==>
             builder.Ready() && source.Ready() && s.builds != [] && Last(s.builds).value.IsSuccess()
             && Current(s.image, Last(s.builds).value, source.status.source.value, builder))
        && (SaysReady(r.value) ==> r.value.latestImage == Last(s.builds).value.BuiltImage())
  {
    DecisionMeaning(s.image, Last(s.builds), source, builder, env.now);
    var counter, decision := BuildCounter(Last(s.builds)), IsBuildRequired(s.image, Last(s.builds), source, builder, env.now);
    if counter.Ok? && decision.Ok? {
      if decision.value.status == ConditionTrue {
        ScheduledStatus(s, source, builder, decision.value, counter.value, env);
      } else {
        ReportStatus(s, source, builder, decision.value.status, counter.value, env);
      }
    }
  }

  lemma NotFoundConditions(image: Image)
    ensures forall c :: c in BuilderNotFound(image) ==> c.reason != UnknownStateReason
    ensures !IsTrue(GetCondition(BuilderNotFound(image), ConditionKind.Ready))
  {
  }

  lemma ThreeConditions(a: Condition, b: Condition, c: Condition)
    requires a.kind == Ready
    ensures GetCondition([a, b, c], ConditionKind.Ready) == Some(a)
    ensures forall x :: x in [a, b, c] ==> x == a || x == b || x == c
  {
  }

  lemma RunningConditions(build: Build, builder: Builder)
    ensures forall c :: c in BuildRunning(build, builder) ==> c.reason != UnknownStateReason
    ensures !IsTrue(GetCondition(BuildRunning(build, builder), ConditionKind.Ready))
  {
    var c := BuildRunning(build, builder);
    assert c == [c[0], c[1], c[2]];
    ThreeConditions(c[0], c[1], c[2]);
  }

  lemma ReportBeforeBuilds(s: Store, env: Env)
    requires WellFormed(s) && !GetsToBuilds(s, env)
    ensures var r := ReconcileImage(s, env).1; r.Ok? ==> Explained(r.value) && !SaysReady(r.value) && !ImageUpToDate(s)
  {
    NotFoundConditions(s.image);
    if s.builds != [] && s.builder.Some? {
      RunningConditions(Last(s.builds).value, s.builder.value);
    }
  }

  /** Ready soundness and completeness: the status a reconcile wants to write says Ready=True exactly when the image is
      up to date, then names the image of the newest build, and it never gives "UnknownState" as a reason. */
  lemma ReadyIffUpToDate(s: Store, env: Env)
    requires WellFormed(s)
    ensures var r := ReconcileImage(s, env).1;
      r.Ok? ==>
        && Explained(r.value) && (SaysReady(r.value) <==> ImageUpToDate(s))
        && (SaysReady(r.value) ==> r.value.latestImage == Last(s.builds).value.BuiltImage())
  {
    if GetsToBuilds(s, env) {
      ReconcileSourceShape(s, env);
      var (s1, source) := ReconcileSource(s, env);
      if source.Ok? {
        ReportReady(s1, source.value, s.builder.value, env);
      }
    } else {
      ReportBeforeBuilds(s, env);
    }
  }

  lemma StoredStatus(s: Store, env: Env)
    requires WellFormed(s)
    ensures var status, (s', r) := Reconcile(s, env).image.status, ReconcileImage(s, env);
      status == s'.image.status || (r.Ok? && status == r.value.(observedGeneration := s'.image.generation))
  {
  }

  lemma StatusUntouchedByImage(s: Store, env: Env)
    requires WellFormed(s)
    ensures ReconcileImage(s, env).0.image == s.image
  {
    if GetsToBuilds(s, env) {
      ReconcileSourceShape(s, env);
      var (s1, source) := ReconcileSource(s, env);
      if source.Ok? {
        BuiltShape(s, s1, source.value, env);
      }
    }
  }

  lemma UpToDateCreatesNothing(s: Store, env: Env)
    requires WellFormed(s) && ImageUpToDate(s)
    ensures Created(s, env) == []
  {
    ReconcileShape(s, env);
    DecisionMeaning(s.image, Last(s.builds), SourceAfter(s.image, s.source), s.builder.value, env.now);
  }

  /** The stored form: a reconcile turns the stored status into one that says Ready=True only for an image that is up to
      date, and then the build that was judged is still the newest. */
  lemma StoredReady(s: Store, env: Env)
    requires StoreSafe(s)
    ensures var s' := Reconcile(s, env);
      SaysReady(s'.image.status) && s'.image.status != s.image.status ==>
        ImageUpToDate(s) && Last(s'.builds) == Last(s.builds) && s'.image.status.latestImage == Last(s.builds).value.BuiltImage()
  {
    StoredStatus(s, env);
    StatusUntouchedByImage(s, env);
    ReadyIffUpToDate(s, env);
    if ImageUpToDate(s) {
      UpToDateCreatesNothing(s, env);
      ReconcileStoreSafe(s, env);
    }
  }
}
