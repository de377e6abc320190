// No endless rebuilds: once nothing that a build is made from changes any more,
// at most one more build is created, unless the image itself carries the trigger.
module ImageQuiescence {
  import opened Common
  import opened BuildApi
  import opened BuildRequired
  import opened ImageReconcile
  import opened ImageRuns

  /** What has stopped changing: the build section of the image, the resolved source, the builder's record,
      and whether the image (not a build) carries the trigger annotation. */
  datatype Inputs = Inputs(settings: BuildSettings, source: ResolvedSource, record: BuilderRecord, annotated: bool)

  ghost predicate Frozen(s: Store, inputs: Inputs) {
    && s.image.spec.Settings() == inputs.settings
    && (BUILD_NEEDED_ANNOTATION in s.image.annotations <==> inputs.annotated)
    && (s.source.Some? && s.source.value.status.source.Some? ==> s.source.value.status.source.value == inputs.source)
    && (s.builder.Some? ==> s.builder.value.record == inputs.record)
  }

  /** A build that succeeds reports the builder's run image, lifecycle and buildpacks. */
  ghost predicate Reports(status: BuildStatus, record: BuilderRecord) {
    IsTrue(GetCondition(status.conditions, ConditionKind.Succeeded)) ==>
      && (forall bp :: bp in status.buildMetadata ==> Include(record.buildpacks, bp))
      && status.runImage.identifier == record.runImage.identifier
      && status.lifecycleVersion == record.lifecycleVersion
  }

  /** Everything may still happen, except a change of the inputs or a new trigger on a build.
      Source and builder may lose and regain readiness, and writes may fail. */
  ghost predicate Quiet(inputs: Inputs, e: Event) {
    match e
    case ReconcileEvent(_) => true
    case BuildUpdate(_, status) => Reports(status, inputs.record)
    case AnnotateBuild(_, annotations) => BUILD_NEEDED_ANNOTATION !in annotations
    case EditImage(spec, _, annotations) =>
      spec.Settings() == inputs.settings && (BUILD_NEEDED_ANNOTATION in annotations <==> inputs.annotated)
    case SourceUpdate(status) => status.source.Some? ==> status.source.value == inputs.source
    case BuilderUpdate(builder) => builder.Some? ==> builder.value.record == inputs.record
    case DeleteBuild(_) => true
    case Tick(_) => true
  }

  ghost predicate AllQuiet(inputs: Inputs, es: seq<Event>) {
    forall e :: e in es ==> Quiet(inputs, e)
  }

  /** The newest build was made from the inputs, whether or not it has finished. */
  ghost predicate MadeFrom(last: Option<Build>, inputs: Inputs) {
    && last.Some? && !last.value.Triggered()
    && last.value.spec.source == inputs.source.AsConfig()
    && last.value.spec.settings == inputs.settings
    && Reports(last.value.status, inputs.record)
  }

  lemma QuietKeepsFrozen(w: World, inputs: Inputs, e: Event)
    requires Safe(w) && Frozen(w.store, inputs) && Enabled(w, e) && Quiet(inputs, e)
    ensures Frozen(Next(w, e).store, inputs)
  {
    if e.ReconcileEvent? {
      ReconcileShape(w.store, e.env);
    }
  }

  /** A build of the inputs is current for the decision, or the decision fails on its run image. */
  lemma MadeFromNeedsNoBuild(image: Image, last: Option<Build>, source: SourceResolver, builder: Builder, now: string, inputs: Inputs)
    requires SourcePresent(source) && source.Ready() && builder.Ready()
    requires MadeFrom(last, inputs) && image.spec.Settings() == inputs.settings
    requires source.status.source.value == inputs.source && builder.record == inputs.record
    ensures var r := IsBuildRequired(image, last, source, builder, now); r.Err? || r.value.status != ConditionTrue
  {
    DecisionMeaning(image, last, source, builder, now);
  }

  lemma NothingCreatedWhenMadeFrom(s: Store, env: Env, inputs: Inputs)
    requires WellFormed(s) && Frozen(s, inputs) && MadeFrom(Last(s.builds), inputs)
    ensures Created(s, env) == []
  {
    ReconcileShape(s, env);
    if Created(s, env) != [] {
      var after := SourceAfter(s.image, s.source);
      MadeFromNeedsNoBuild(s.image, Last(s.builds), after, s.builder.value, env.now, inputs);
    }
  }

  lemma CreatedIsMadeFrom(s: Store, env: Env, inputs: Inputs)
    requires WellFormed(s) && Frozen(s, inputs) && !inputs.annotated && Created(s, env) != []
    ensures MadeFrom(Some(Created(s, env)[0]), inputs)
  {
    ReconcileShape(s, env);
    var b, after := Created(s, env)[0], SourceAfter(s.image, s.source);
    var s1 := s.(source := Some(after));
    var current := BuildCounter(Last(s.builds)).value;
    var result :| IsBuildRequired(s1.image, Last(s1.builds), after, s1.builder.value, env.now) == Ok(result)
      && result.status == ConditionTrue
      && b == NextBuild(s1, after, s1.builder.value, result, current, env);
    NewBuildFacts(s1, after, s.builder.value, result, current, env);
  }

  lemma QuietKeepsMadeFrom(w: World, inputs: Inputs, e: Event)
    requires Safe(w) && Frozen(w.store, inputs) && Enabled(w, e) && Quiet(inputs, e)
    requires MadeFrom(Last(w.store.builds), inputs)
    ensures MadeFrom(Last(Next(w, e).store.builds), inputs) && Next(w, e).issued == w.issued
  {
    if e.ReconcileEvent? {
      ReconcileKeepsMadeFrom(w, inputs, e.env);
    } else {
      NextBuilds(w, e);
      EventKeepsMadeFrom(w.store.image.name, w.store.builds, inputs, e);
    }
  }

  lemma EventKeepsMadeFrom(image: string, builds: seq<Build>, inputs: Inputs, e: Event)
    requires Ordered(image, builds) && !e.ReconcileEvent? && InRange(builds, e) && Quiet(inputs, e) && MadeFrom(Last(builds), inputs)
    requires e.BuildUpdate? ==> builds[e.i].IsRunning()
    ensures MadeFrom(Last(AfterEvent(builds, e)), inputs)
  {
    match e
    case BuildUpdate(i, status) =>
      RunningIsNewest(image, builds, i);
      UpdateKeepsMadeFrom(builds, i, status, inputs);
    case AnnotateBuild(i, annotations) => AnnotateKeepsMadeFrom(builds, i, annotations, inputs);
    case DeleteBuild(i) => DeleteKeepsNewest(builds, i);
    case _ =>
  }

  lemma ReconcileKeepsMadeFrom(w: World, inputs: Inputs, env: Env)
    requires Safe(w) && Frozen(w.store, inputs) && MadeFrom(Last(w.store.builds), inputs)
    ensures var w' := ReconcileNext(w, env); MadeFrom(Last(w'.store.builds), inputs) && w'.issued == w.issued
  {
    NothingCreatedWhenMadeFrom(w.store, env, inputs);
    ReconcileStoreSafe(w.store, env);
    assert w.issued + Numbers([]) == w.issued;
  }

  lemma UpdateKeepsMadeFrom(builds: seq<Build>, i: nat, status: BuildStatus, inputs: Inputs)
    requires i + 1 == |builds| && MadeFrom(Last(builds), inputs) && Reports(status, inputs.record)
    ensures MadeFrom(Last(builds[i := builds[i].(status := status)]), inputs)
  {
  }

  lemma DeleteKeepsNewest(builds: seq<Build>, i: nat)
    requires i + 1 < |builds|
    ensures Last(builds[..i] + builds[i + 1..]) == Last(builds)
  {
  }

  lemma AnnotateKeepsMadeFrom(builds: seq<Build>, i: nat, annotations: map<string, string>, inputs: Inputs)
    requires i < |builds| && BUILD_NEEDED_ANNOTATION !in annotations && MadeFrom(Last(builds), inputs)
    ensures MadeFrom(Last(builds[i := builds[i].(annotations := annotations)]), inputs)
  {
  }

  /** A step that creates a build leaves one made from the inputs; any other quiet step issues nothing. */
  lemma QuietStep(w: World, inputs: Inputs, e: Event)
    requires Safe(w) && Frozen(w.store, inputs) && !inputs.annotated && Enabled(w, e) && Quiet(inputs, e)
    ensures Next(w, e).issued == w.issued
      || (|Next(w, e).issued| == |w.issued| + 1 && MadeFrom(Last(Next(w, e).store.builds), inputs))
  {
    if e.ReconcileEvent? {
      var created := Created(w.store, e.env);
      ReconcileShape(w.store, e.env);
      if created == [] {
        assert w.issued + Numbers(created) == w.issued;
      } else {
        CreatedIsMadeFrom(w.store, e.env, inputs);
        ReconcileStoreSafe(w.store, e.env);
      }
    }
  }

  lemma {:induction false} MadeFromForever(w: World, inputs: Inputs, es: seq<Event>)
    requires Safe(w) && Frozen(w.store, inputs) && EnabledRun(w, es) && AllQuiet(inputs, es)
    requires MadeFrom(Last(w.store.builds), inputs)
    ensures Run(w, es).issued == w.issued
    decreases |es|
  {
    if es != [] {
      assert es[0] in es;
      StepSafe(w, es[0]);
      QuietKeepsFrozen(w, inputs, es[0]);
      QuietKeepsMadeFrom(w, inputs, es[0]);
      MadeFromForever(Next(w, es[0]), inputs, es[1..]);
    }
  }

  /** Quiescence: while the inputs stand still a run of any length creates at most one build. */
  lemma {:induction false} AtMostOneMoreBuild(w: World, inputs: Inputs, es: seq<Event>)
    requires Safe(w) && Frozen(w.store, inputs) && !inputs.annotated && EnabledRun(w, es) && AllQuiet(inputs, es)
    ensures |Run(w, es).issued| <= |w.issued| + 1
    decreases |es|
  {
    if es != [] {
      var w' := Next(w, es[0]);
      assert es[0] in es;
      StepSafe(w, es[0]);
      QuietKeepsFrozen(w, inputs, es[0]);
      QuietStep(w, inputs, es[0]);
      if w'.issued == w.issued {
        AtMostOneMoreBuild(w', inputs, es[1..]);
      } else {
        MadeFromForever(w', inputs, es[1..]);
      }
    }
  }

  // The exception.

  const COMPLETE := Env("now", "", false, false, false, false, false, Acked, Acked, Acked, Acked, Acked)
  const BUILD_FAILED := NEW_BUILD_STATUS.(conditions := [Condition(ConditionKind.Succeeded, ConditionFalse, NoReason, "")])

  /** Builder and source are ready for the spec of an annotated image. */
  ghost predicate ReadyToBuild(w: World, inputs: Inputs) {
    var s := w.store;
    && Safe(w) && Frozen(s, inputs) && inputs.annotated
    && s.builder.Some? && s.builder.value.Ready()
    && s.source == Some(SourceAfter(s.image, s.source)) && s.source.value.Ready()
  }

  /** The run image of a successful newest build, or that of the builder, does not parse: every decision is an error. */
  predicate Stuck(last: Option<Build>, inputs: Inputs) {
    && last.Some? && last.value.IsSuccess()
    && (last.value.status.runImage.identifier.None? || inputs.record.runImage.identifier.None?)
  }

  /** Nothing runs, and a newest build, if any, was not made from the inputs. */
  ghost predicate PoisedToRebuild(w: World, inputs: Inputs) {
    var last := Last(w.store.builds);
    && ReadyToBuild(w, inputs) && !Stuck(last, inputs) && !MadeFrom(last, inputs)
    && (last.Some? ==> !last.value.IsRunning())
  }

  /** A current build was made from the inputs. */
  lemma CurrentIsMadeFrom(image: Image, b: Build, source: ResolvedSource, builder: Builder, inputs: Inputs)
    requires Current(image, b, source, builder) && image.spec.Settings() == inputs.settings
    requires source == inputs.source && builder.record == inputs.record
    ensures MadeFrom(Some(b), inputs)
  {
  }

  lemma FreshName(image: string, builds: seq<Build>, name: string, number: int)
    requires Ordered(image, builds) && name == BuildName(image, number)
    requires builds != [] ==> Number(Last(builds).value) < number
    ensures forall b :: b in builds ==> b.name != name
  {
    forall b | b in builds ensures b.name != name {
      var i :| 0 <= i < |builds| && builds[i] == b;
      assert i < |builds| - 1 ==> Before(builds[i], builds[|builds| - 1]);
      BuildNameInjective(image, Number(b), number);
    }
  }

  lemma PoisedDecides(w: World, inputs: Inputs)
    requires PoisedToRebuild(w, inputs)
    ensures var s := w.store; var r := IsBuildRequired(s.image, Last(s.builds), s.source.value, s.builder.value, COMPLETE.now);
      r.Ok? && r.value.status == ConditionTrue
  {
    var s := w.store;
    var last := Last(s.builds);
    DecisionMeaning(s.image, last, s.source.value, s.builder.value, COMPLETE.now);
    if last.Some? && Current(s.image, last.value, s.source.value.status.source.value, s.builder.value) {
      CurrentIsMadeFrom(s.image, last.value, s.source.value.status.source.value, s.builder.value, inputs);
    }
  }

  lemma DecidedSchedules(s: Store, source: SourceResolver, builder: Builder, result: BuildRequiredResult, current: int)
    requires SourcePresent(source) && source.status.source.Some? && BuildCounter(Last(s.builds)) == Ok(current)
    requires IsBuildRequired(s.image, Last(s.builds), source, builder, COMPLETE.now) == Ok(result) && result.status == ConditionTrue
    ensures var b := NextBuild(s, source, builder, result, current, COMPLETE);
      !s.HasBuild(b.name) ==> |ReconcileBuild(s, source, builder, COMPLETE).0.builds| == |s.builds| + 1
  {
  }

  lemma PoisedSchedules(w: World, inputs: Inputs)
    requires PoisedToRebuild(w, inputs)
    ensures var s := w.store; |ReconcileBuild(s, s.source.value, s.builder.value, COMPLETE).0.builds| == |s.builds| + 1
  {
    var s := w.store;
    var builder, source := s.builder.value, s.source.value;
    PoisedDecides(w, inputs);
    var result := IsBuildRequired(s.image, Last(s.builds), source, builder, COMPLETE.now).value;
    assert s.builds != [] ==> BuildOk(s.image.name, Last(s.builds).value);
    var current := BuildCounter(Last(s.builds)).value;
    var b := NextBuild(s, source, builder, result, current, COMPLETE);
    NewBuildFacts(s, source, builder, result, current, COMPLETE);
    FreshName(s.image.name, s.builds, b.name, current + 1);
    DecidedSchedules(s, source, builder, result, current);
  }

  lemma PoisedCreates(w: World, inputs: Inputs)
    requires PoisedToRebuild(w, inputs)
    ensures Created(w.store, COMPLETE) != []
  {
    var s := w.store;
    assert ReconcileSource(s, COMPLETE) == (s, Ok(s.source.value));
    PoisedSchedules(w, inputs);
  }

  lemma CreateStep(w: World, inputs: Inputs)
    requires PoisedToRebuild(w, inputs)
    ensures var w1 := Next(w, ReconcileEvent(COMPLETE)); var last := Last(w1.store.builds);
      && ReadyToBuild(w1, inputs) && |w1.issued| == |w.issued| + 1
      && last.Some? && last.value.IsRunning() && last.value.Triggered()
  {
    PoisedCreates(w, inputs);
    ReconcileShape(w.store, COMPLETE);
    CreatedFacts(w.store, COMPLETE);
    ReconcileStoreSafe(w.store, COMPLETE);
    ReconcileSafe(w, COMPLETE);
    QuietKeepsFrozen(w, inputs, ReconcileEvent(COMPLETE));
  }

  lemma FailStep(w: World, inputs: Inputs, i: nat)
    requires ReadyToBuild(w, inputs) && i + 1 == |w.store.builds|
    requires w.store.builds[i].IsRunning() && w.store.builds[i].Triggered()
    ensures PoisedToRebuild(Next(w, BuildUpdate(i, BUILD_FAILED)), inputs)
    ensures Next(w, BuildUpdate(i, BUILD_FAILED)).issued == w.issued
  {
    BuildUpdateSafe(w, i, BUILD_FAILED);
  }

  /** One reconcile and one failed build later the image is poised again. */
  lemma PoisedAgain(w: World, inputs: Inputs) returns (es: seq<Event>)
    requires PoisedToRebuild(w, inputs)
    ensures EnabledRun(w, es) && AllQuiet(inputs, es)
    ensures PoisedToRebuild(Run(w, es), inputs) && |Run(w, es).issued| == |w.issued| + 1
  {
    var e1 := ReconcileEvent(COMPLETE);
    CreateStep(w, inputs);
    var w1 := Next(w, e1);
    var i := |w1.store.builds| - 1;
    var e2 := BuildUpdate(i, BUILD_FAILED);
    FailStep(w1, inputs, i);
    es := [e1, e2];
    FailIsQuiet(inputs, i);
    RunOfTwo(w, e1, e2);
  }

  lemma FailIsQuiet(inputs: Inputs, i: nat)
    ensures AllQuiet(inputs, [ReconcileEvent(COMPLETE), BuildUpdate(i, BUILD_FAILED)])
  {
  }

  lemma RunOfTwo(w: World, e1: Event, e2: Event)
    requires WellFormed(w.store) && Enabled(w, e1) && WellFormed(Next(w, e1).store) && Enabled(Next(w, e1), e2)
    ensures EnabledRun(w, [e1, e2]) && Run(w, [e1, e2]) == Next(Next(w, e1), e2)
  {
    var w1 := Next(w, e1);
    var w2 := Next(w1, e2);
    assert [e1, e2][1..] == [e2] && [e2][1..] == [];
    assert EnabledRun(w2, []);
    assert EnabledRun(w1, [e2]);
    assert Run(w1, [e2]) == Run(w2, []) == w2;
  }

  lemma {:induction false} RunAppend(w: World, a: seq<Event>, b: seq<Event>)
    requires EnabledRun(w, a) && EnabledRun(Run(w, a), b)
    ensures EnabledRun(w, a + b) && Run(w, a + b) == Run(Run(w, a), b)
    decreases |a|
  {
    if a == [] {
      assert a + b == b;
    } else {
      assert (a + b)[0] == a[0] && (a + b)[1..] == a[1..] + b;
      RunAppend(Next(w, a[0]), a[1..], b);
    }
  }

  lemma JoinRuns(w: World, inputs: Inputs, a: seq<Event>, b: seq<Event>)
    requires EnabledRun(w, a) && AllQuiet(inputs, a) && EnabledRun(Run(w, a), b) && AllQuiet(inputs, b)
    ensures EnabledRun(w, a + b) && AllQuiet(inputs, a + b) && Run(w, a + b) == Run(Run(w, a), b)
  {
    RunAppend(w, a, b);
  }

  /** A quiet run from w issues n more numbers. */
  ghost predicate Issues(w: World, inputs: Inputs, es: seq<Event>, n: nat) {
    EnabledRun(w, es) && AllQuiet(inputs, es) && |Run(w, es).issued| == |w.issued| + n
  }

  lemma IssuesNone(w: World, inputs: Inputs)
    ensures Issues(w, inputs, [], 0)
  {
  }

  lemma IssuesMore(w: World, inputs: Inputs, a: seq<Event>, b: seq<Event>, n: nat)
    requires Issues(w, inputs, a, 1) && Issues(Run(w, a), inputs, b, n)
    ensures Issues(w, inputs, a + b, n + 1)
  {
    JoinRuns(w, inputs, a, b);
  }

  /** With the trigger annotation on the image every build inherits it, so there is a quiet run with any number of builds. */
  lemma {:induction false} AnnotatedImageRebuildsForever(w: World, inputs: Inputs, n: nat) returns (es: seq<Event>)
    requires PoisedToRebuild(w, inputs)
    ensures Issues(w, inputs, es, n)
    decreases n
  {
    if n == 0 {
      es := [];
      IssuesNone(w, inputs);
    } else {
      var first := PoisedAgain(w, inputs);
      assert Issues(w, inputs, first, 1);
      var rest := AnnotatedImageRebuildsForever(Run(w, first), inputs, n - 1);
      IssuesMore(w, inputs, first, rest, n - 1);
      es := first + rest;
    }
  }

  // Annotated images in any state.

  /** A quiet run from w to w' that issues nothing. */
  ghost predicate Leads(w: World, inputs: Inputs, es: seq<Event>, w': World) {
    EnabledRun(w, es) && AllQuiet(inputs, es) && Run(w, es) == w' && w'.issued == w.issued
  }

  lemma LeadsByOne(w: World, inputs: Inputs, e: Event)
    requires WellFormed(w.store) && Enabled(w, e) && Quiet(inputs, e) && Next(w, e).issued == w.issued
    ensures Leads(w, inputs, [e], Next(w, e))
  {
    assert [e][1..] == [];
    assert EnabledRun(Next(w, e), []);
  }

  lemma LeadsOn(w: World, inputs: Inputs, a: seq<Event>, w1: World, b: seq<Event>, w2: World)
    requires Leads(w, inputs, a, w1) && Leads(w1, inputs, b, w2)
    ensures Leads(w, inputs, a + b, w2)
  {
    JoinRuns(w, inputs, a, b);
  }

  /** The newest build, if any, is neither made from the inputs nor stuck. */
  ghost predicate Unsettled(w: World, inputs: Inputs) {
    var last := Last(w.store.builds);
    Safe(w) && Frozen(w.store, inputs) && inputs.annotated && !MadeFrom(last, inputs) && !Stuck(last, inputs)
  }

  predicate NothingRuns(w: World) {
    var last := Last(w.store.builds);
    last.Some? ==> !last.value.IsRunning()
  }

  lemma FailedIsUnsettled(b: Build, inputs: Inputs)
    requires b.IsRunning() && !MadeFrom(Some(b), inputs)
    ensures var failed := b.(status := BUILD_FAILED);
      !failed.IsRunning() && !MadeFrom(Some(failed), inputs) && !Stuck(Some(failed), inputs)
  {
  }

  lemma FailNewest(w: World, inputs: Inputs, i: nat)
    requires Unsettled(w, inputs) && i + 1 == |w.store.builds| && w.store.builds[i].IsRunning()
    ensures var e := BuildUpdate(i, BUILD_FAILED);
      && Enabled(w, e) && Quiet(inputs, e) && Next(w, e).issued == w.issued
      && Unsettled(Next(w, e), inputs) && NothingRuns(Next(w, e))
  {
    BuildUpdateSafe(w, i, BUILD_FAILED);
    FailedIsUnsettled(w.store.builds[i], inputs);
  }

  /** A running build fails. */
  lemma FinishNewest(w: World, inputs: Inputs) returns (es: seq<Event>, w': World)
    requires Unsettled(w, inputs)
    ensures Leads(w, inputs, es, w') && Unsettled(w', inputs) && NothingRuns(w')
  {
    if NothingRuns(w) {
      es, w' := [], w;
    } else {
      var i := |w.store.builds| - 1;
      var e := BuildUpdate(i, BUILD_FAILED);
      w' := Next(w, e);
      FailNewest(w, inputs, i);
      es := [e];
      LeadsByOne(w, inputs, e);
    }
  }

  function ReadyBuilder(inputs: Inputs): Builder {
    Builder("builder", "", "Builder", 1, 1, [Condition(ConditionKind.Ready, ConditionTrue, NoReason, "")], inputs.record)
  }

  lemma ReadyBuilderIsReady(inputs: Inputs)
    ensures ReadyBuilder(inputs).Ready()
  {
  }

  lemma ProvideBuilder(w: World, inputs: Inputs) returns (es: seq<Event>, w': World)
    requires Unsettled(w, inputs) && NothingRuns(w)
    ensures Leads(w, inputs, es, w') && Unsettled(w', inputs) && NothingRuns(w')
    ensures w'.store.builder.Some? && w'.store.builder.value.Ready()
  {
    var e := BuilderUpdate(Some(ReadyBuilder(inputs)));
    w' := Next(w, e);
    SameBuildsSafe(w, w'.store);
    ReadyBuilderIsReady(inputs);
    es := [e];
    LeadsByOne(w, inputs, e);
  }

  /** A reconcile that brings the source resolver up to date and whose build, if it wants one, is refused. */
  const REFUSING := COMPLETE.(create := Refused)

  lemma RefusedBuildsStay(s: Store, source: SourceResolver, builder: Builder)
    requires SourcePresent(source)
    ensures ReconcileBuild(s, source, builder, REFUSING).0 == s
  {
    DecisionMeaning(s.image, Last(s.builds), source, builder, REFUSING.now);
  }

  lemma RefusedReconcile(s: Store)
    requires WellFormed(s) && GetsToBuilds(s, REFUSING)
    ensures Created(s, REFUSING) == []
    ensures var s' := Reconcile(s, REFUSING);
      s'.source == Some(SourceAfter(s.image, s.source)) && s'.builder == s.builder && s'.image == s.image.(status := s'.image.status)
  {
    var after := SourceAfter(s.image, s.source);
    ReconcileSourceShape(s, REFUSING);
    assert ReconcileSource(s, REFUSING) == (s.(source := Some(after)), Ok(after));
    var s1 := s.(source := Some(after));
    RefusedBuildsStay(s1, after, s.builder.value);
    TrimShape(s1, after, s.builder.value, REFUSING);
    BuiltShape(s, s1, after, REFUSING);
    StatusOnly(s, REFUSING);
  }

  /** The source resolver says what the image asks for. */
  predicate InPlace(image: Image, sr: SourceResolver) {
    SourceAfter(image, Some(sr)) == sr
  }

  lemma AfterIsInPlace(image: Image, source: Option<SourceResolver>, status: SourceResolverStatus)
    ensures InPlace(image, SourceAfter(image, source).(status := status))
  {
  }

  lemma BringSource(w: World, inputs: Inputs) returns (es: seq<Event>, w': World)
    requires Unsettled(w, inputs) && NothingRuns(w) && w.store.builder.Some? && w.store.builder.value.Ready()
    ensures Leads(w, inputs, es, w') && Unsettled(w', inputs) && NothingRuns(w')
    ensures w'.store.builder == w.store.builder && w'.store.source.Some?
    ensures forall status :: InPlace(w'.store.image, w'.store.source.value.(status := status))
  {
    var s := w.store;
    assert GetsToBuilds(s, REFUSING);
    RefusedReconcile(s);
    ReconcileSafe(w, REFUSING);
    ReconcileStoreSafe(s, REFUSING);
    var e := ReconcileEvent(REFUSING);
    QuietKeepsFrozen(w, inputs, e);
    w' := Next(w, e);
    assert w.issued + Numbers([]) == w.issued;
    es := [e];
    LeadsByOne(w, inputs, e);
    var sr := w'.store.source.value;
    assert SourceAfter(w'.store.image, s.source) == SourceAfter(s.image, s.source) == sr;
    forall status ensures InPlace(w'.store.image, sr.(status := status)) {
      AfterIsInPlace(w'.store.image, s.source, status);
    }
  }

  function ReadyStatus(generation: nat, inputs: Inputs): SourceResolverStatus {
    SourceResolverStatus(generation, [Condition(ConditionKind.Ready, ConditionTrue, NoReason, "")], Some(inputs.source))
  }

  lemma ReadyStatusIsReady(sr: SourceResolver, inputs: Inputs)
    ensures sr.(status := ReadyStatus(sr.generation, inputs)).Ready()
  {
  }

  /** The source is resolved. */
  lemma ResolveTheSource(w: World, inputs: Inputs) returns (es: seq<Event>, w': World)
    requires Unsettled(w, inputs) && NothingRuns(w) && w.store.builder.Some? && w.store.builder.value.Ready()
    ensures Leads(w, inputs, es, w') && PoisedToRebuild(w', inputs)
  {
    var first, w1 := BringSource(w, inputs);
    var sr := w1.store.source.value;
    var status := ReadyStatus(sr.generation, inputs);
    ReadyStatusIsReady(sr, inputs);
    var e := SourceUpdate(status);
    w' := Next(w1, e);
    SameBuildsSafe(w1, w'.store);
    LeadsByOne(w1, inputs, e);
    es := first + [e];
    LeadsOn(w, inputs, first, w1, [e], w');
    assert InPlace(w'.store.image, sr.(status := status));
  }

  /** From an unsettled state builds can start again and again. */
  lemma UnsettledGetsPoised(w: World, inputs: Inputs) returns (es: seq<Event>, w': World)
    requires Unsettled(w, inputs)
    ensures Leads(w, inputs, es, w') && PoisedToRebuild(w', inputs)
  {
    var a, w1 := FinishNewest(w, inputs);
    var b, w2 := ProvideBuilder(w1, inputs);
    var c, w3 := ResolveTheSource(w2, inputs);
    LeadsOn(w, inputs, a, w1, b, w2);
    LeadsOn(w, inputs, a + b, w2, c, w3);
    es, w' := a + b + c, w3;
  }

  lemma UnsettledRebuildsForever(w: World, inputs: Inputs, n: nat) returns (es: seq<Event>)
    requires Unsettled(w, inputs)
    ensures Issues(w, inputs, es, n)
  {
    var first, w' := UnsettledGetsPoised(w, inputs);
    var rest := AnnotatedImageRebuildsForever(w', inputs, n);
    JoinRuns(w, inputs, first, rest);
    es := first + rest;
  }

  lemma NothingCreatedWhenStuck(s: Store, env: Env, inputs: Inputs)
    requires WellFormed(s) && Frozen(s, inputs) && Stuck(Last(s.builds), inputs)
    ensures Created(s, env) == []
  {
    ReconcileShape(s, env);
    if Created(s, env) != [] {
      DecisionMeaning(s.image, Last(s.builds), SourceAfter(s.image, s.source), s.builder.value, env.now);
    }
  }

  lemma ReconcileKeepsStuck(w: World, inputs: Inputs, env: Env)
    requires Safe(w) && Frozen(w.store, inputs) && Stuck(Last(w.store.builds), inputs)
    ensures var w' := ReconcileNext(w, env); Stuck(Last(w'.store.builds), inputs) && w'.issued == w.issued
  {
    NothingCreatedWhenStuck(w.store, env, inputs);
    ReconcileStoreSafe(w.store, env);
    assert w.issued + Numbers([]) == w.issued;
  }

  lemma NewestSucceededSoNoneRuns(image: string, builds: seq<Build>, i: nat)
    requires Ordered(image, builds) && builds != [] && Last(builds).value.IsSuccess() && i < |builds|
    ensures !builds[i].IsRunning()
  {
    if builds[i].IsRunning() {
      RunningIsNewest(image, builds, i);
    }
  }

  lemma AnnotateKeepsStuck(builds: seq<Build>, i: nat, annotations: map<string, string>, inputs: Inputs)
    requires i < |builds| && Stuck(Last(builds), inputs)
    ensures Stuck(Last(builds[i := builds[i].(annotations := annotations)]), inputs)
  {
  }

  lemma QuietKeepsStuck(w: World, inputs: Inputs, e: Event)
    requires Safe(w) && Frozen(w.store, inputs) && Enabled(w, e) && Quiet(inputs, e)
    requires Stuck(Last(w.store.builds), inputs)
    ensures Stuck(Last(Next(w, e).store.builds), inputs) && Next(w, e).issued == w.issued
  {
    if e.ReconcileEvent? {
      ReconcileKeepsStuck(w, inputs, e.env);
    } else {
      NextBuilds(w, e);
      EventKeepsStuck(w.store.image.name, w.store.builds, inputs, e);
    }
  }

  lemma EventKeepsStuck(image: string, builds: seq<Build>, inputs: Inputs, e: Event)
    requires Ordered(image, builds) && !e.ReconcileEvent? && InRange(builds, e) && Stuck(Last(builds), inputs)
    requires e.BuildUpdate? ==> builds[e.i].IsRunning()
    ensures Stuck(Last(AfterEvent(builds, e)), inputs)
  {
    match e
    case BuildUpdate(i, _) => NewestSucceededSoNoneRuns(image, builds, i);
    case AnnotateBuild(i, annotations) => AnnotateKeepsStuck(builds, i, annotations, inputs);
    case DeleteBuild(i) => DeleteKeepsNewest(builds, i);
    case _ =>
  }

  lemma {:induction false} StuckForever(w: World, inputs: Inputs, es: seq<Event>)
    requires Safe(w) && Frozen(w.store, inputs) && EnabledRun(w, es) && AllQuiet(inputs, es)
    requires Stuck(Last(w.store.builds), inputs)
    ensures Run(w, es).issued == w.issued
    decreases |es|
  {
    if es != [] {
      assert es[0] in es;
      StepSafe(w, es[0]);
      QuietKeepsFrozen(w, inputs, es[0]);
      QuietKeepsStuck(w, inputs, es[0]);
      StuckForever(Next(w, es[0]), inputs, es[1..]);
    }
  }

  /** No quiet run creates more than one build. */
  ghost predicate Quiesces(w: World, inputs: Inputs) {
    forall es :: EnabledRun(w, es) && AllQuiet(inputs, es) ==> |Run(w, es).issued| <= |w.issued| + 1
  }

  /** Rebuilding ends, from any state, exactly when the image does not carry the annotation, or its newest build was
      already made from the inputs without a trigger of its own, or the decision is an error for good. */
  lemma QuiescesIff(w: World, inputs: Inputs)
    requires Safe(w) && Frozen(w.store, inputs)
    ensures var last := Last(w.store.builds);
      Quiesces(w, inputs) <==> !inputs.annotated || MadeFrom(last, inputs) || Stuck(last, inputs)
  {
    if Unsettled(w, inputs) {
      var es := UnsettledRebuildsForever(w, inputs, 2);
    } else {
      forall es | EnabledRun(w, es) && AllQuiet(inputs, es) ensures |Run(w, es).issued| <= |w.issued| + 1 {
        if !inputs.annotated {
          AtMostOneMoreBuild(w, inputs, es);
        } else if Stuck(Last(w.store.builds), inputs) {
          StuckForever(w, inputs, es);
        } else {
          MadeFromForever(w, inputs, es);
        }
      }
    }
  }

  /** A new image with the annotation never comes to rest. */
  lemma NewAnnotatedImageNeverRests(w: World, inputs: Inputs, n: nat) returns (es: seq<Event>)
    requires Initial(w) && Frozen(w.store, inputs) && inputs.annotated
    ensures Issues(w, inputs, es, n) && !Quiesces(w, inputs)
  {
    InitiallySafe(w);
    QuiescesIff(w, inputs);
    es := UnsettledRebuildsForever(w, inputs, n);
  }
}
