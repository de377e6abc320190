// pkg/reconciler/image/build_required.go: does the image need another build?
module BuildRequired {
  import opened Common
  import opened BuildApi
  import opened BuildChange

  datatype BuildRequiredResult = BuildRequiredResult(status: ConditionStatus, reasonsStr: string, changesStr: string, priorityClass: string)

  const UNDECIDED := BuildRequiredResult(ConditionUnknown, "", "", "")

  function PriorityClass(priority: int): string {
    if priority == PRIORITY_LOW then "kpack-build-low-priority"
    else if priority == PRIORITY_HIGH then "kpack-build-high-priority"
    else ""
  }

  function FromSummary(summary: ChangeSummary): BuildRequiredResult {
    BuildRequiredResult(if summary.hasChanges then ConditionTrue else ConditionFalse,
                        summary.reasonsStr, summary.changesStr, PriorityClass(summary.priority))
  }

  function Trigger(last: Option<Build>, now: string): Option<Change> {
    if last.Some? && last.value.Triggered()
    then Some(TriggerChange("A new build was manually triggered on " + now))
    else None
  }

  function CommitOf(last: Option<Build>, source: ResolvedSource): Option<Change> {
    if last.Some? && last.value.spec.source.git.Some? && source.ResolvedGit?
    then Some(CommitChange(last.value.spec.source.git.value.revision, source.revision))
    else None
  }

  function ConfigOf(image: Image, last: Option<Build>, source: ResolvedSource): Option<Change> {
    Some(ConfigChange(
      if last.None? then Config(NO_SETTINGS, NO_SOURCE) else Config(last.value.spec.settings, last.value.spec.source),
      Config(image.spec.Settings(), source.AsConfig())))
  }

  function MissingBuildpacks(used: seq<BuildpackMetadata>, offered: seq<BuildpackMetadata>): (missing: seq<BuildpackInfo>)
    ensures missing == [] <==> forall bp :: bp in used ==> Include(offered, bp)
    decreases |used|
  {
    if used == [] then []
    else
      var last := used[|used| - 1];
      assert used == used[..|used| - 1] + [last];
      MissingBuildpacks(used[..|used| - 1], offered)
      + if Include(offered, last) then [] else [BuildpackInfo(last.id, last.version)]
  }

  function BuildpackOf(last: Option<Build>, builder: Builder): Option<Change> {
    if last.Some? && last.value.IsSuccess()
    then Some(BuildpackChange(MissingBuildpacks(last.value.status.buildMetadata, builder.record.buildpacks)))
    else None
  }

  function StackOf(last: Option<Build>, builder: Builder): Option<Change> {
    if last.Some? && last.value.IsSuccess()
    then Some(NewStackChange(last.value.status.runImage, builder.record.runImage))
    else None
  }

  function LifecycleOf(last: Option<Build>, builder: Builder): Option<Change> {
    if last.Some? && last.value.IsSuccess()
    then Some(LifecycleChange(last.value.status.lifecycleVersion, builder.record.lifecycleVersion))
    else None
  }

  function Candidates(image: Image, last: Option<Build>, source: ResolvedSource, builder: Builder, now: string): seq<Option<Change>> {
    [Trigger(last, now), CommitOf(last, source), ConfigOf(image, last, source),
     BuildpackOf(last, builder), StackOf(last, builder), LifecycleOf(last, builder)]
  }

  /** A source resolver whose Ready condition is true has a resolved source: source_resolver.go:11-33 sets the two together. */
  predicate SourcePresent(source: SourceResolver) {
    IsTrue(GetCondition(source.status.conditions, ConditionKind.Ready)) ==> source.status.source.Some?
  }

  function IsBuildRequired(image: Image, last: Option<Build>, source: SourceResolver, builder: Builder, now: string): Result<BuildRequiredResult>
    requires SourcePresent(source)
  {
    if !source.Ready() || !builder.Ready() then Ok(UNDECIDED)
    else
      var candidates := Candidates(image, last, source.status.source.value, builder, now);
      if Errors(candidates) != [] then Err(Text.Join(Errors(candidates), "\n"))
      else Ok(FromSummary(Summary(Required(candidates))))
  }

  import Text

  method MissingBuildpacksLoop(used: seq<BuildpackMetadata>, offered: seq<BuildpackMetadata>) returns (missing: seq<BuildpackInfo>)
    ensures missing == MissingBuildpacks(used, offered)
  {
    missing := [];
    for i := 0 to |used|
      invariant missing == MissingBuildpacks(used[..i], offered)
    {
      assert used[..i + 1][..i] == used[..i];
      if !Include(offered, used[i]) {
        missing := missing + [BuildpackInfo(used[i].id, used[i].version)];
      }
    }
    assert used[..|used|] == used;
  }

  /** The chain of Process calls and the Summarize at its end. */
  method ProcessAll(candidates: seq<Option<Change>>) returns (r: Result<ChangeSummary>)
    ensures r == if Errors(candidates) != [] then Err(Text.Join(Errors(candidates), "\n")) else Ok(Summary(Required(candidates)))
  {
    var processor := new ChangeProcessor();
    for i := 0 to |candidates|
      invariant fresh(processor)
      invariant processor.changes == Required(candidates[..i]) && processor.errStrs == Errors(candidates[..i])
    {
      processor.Process(candidates[i]);
      RequiredAppend(candidates[..i], [candidates[i]]);
      ErrorsAppend(candidates[..i], [candidates[i]]);
      assert candidates[..i + 1] == candidates[..i] + [candidates[i]];
    }
    assert candidates[..|candidates|] == candidates;
    r := processor.Summarize();
  }

  /** The decision, driven through the mutable processor as the controller drives it. */
  method Decide(image: Image, last: Option<Build>, source: SourceResolver, builder: Builder, now: string) returns (r: Result<BuildRequiredResult>)
    requires SourcePresent(source)
    ensures r == IsBuildRequired(image, last, source, builder, now)
  {
    if !source.Ready() || !builder.Ready() {
      return Ok(UNDECIDED);
    }
    var resolved := source.status.source.value;
    var buildpackChange := None;
    if last.Some? && last.value.IsSuccess() {
      var missing := MissingBuildpacksLoop(last.value.status.buildMetadata, builder.record.buildpacks);
      buildpackChange := Some(BuildpackChange(missing));
    }
    var candidates := [Trigger(last, now), CommitOf(last, resolved), ConfigOf(image, last, resolved),
                       buildpackChange, StackOf(last, builder), LifecycleOf(last, builder)];
    assert candidates == Candidates(image, last, resolved, builder, now);
    var summary := ProcessAll(candidates);
    match summary
    case Err(e) => return Err(e);
    case Ok(s) => return Ok(FromSummary(s));
  }

  /** The run image of a successful build and that of the builder parse to the same identifier. */
  predicate SameRunImage(build: Build, builder: Builder) {
    && build.status.runImage.identifier.Some?
    && build.status.runImage.identifier == builder.record.runImage.identifier
  }

  /** What "this finished build is what the spec, the source and the builder ask for" means. */
  ghost predicate Current(image: Image, build: Build, source: ResolvedSource, builder: Builder) {
    && !build.Triggered()
    && build.spec.source == source.AsConfig()
    && build.spec.settings == image.spec.Settings()
    && (build.IsSuccess() ==>
      && (forall bp :: bp in build.status.buildMetadata ==> Include(builder.record.buildpacks, bp))
      && SameRunImage(build, builder)
      && build.status.lifecycleVersion == builder.record.lifecycleVersion)
  }

  predicate RunImagesParse(last: Option<Build>, builder: Builder) {
    last.Some? && last.value.IsSuccess() ==>
      last.value.status.runImage.identifier.Some? && builder.record.runImage.identifier.Some?
  }

  predicate Quiet(c: Option<Change>) {
    c.Some? ==> c.value.IsBuildRequired() != Ok(true)
  }

  predicate Decided(c: Option<Change>) {
    c.Some? ==> c.value.IsBuildRequired().Ok?
  }

  lemma HeadQuiet(c: Option<Change>, rest: seq<Option<Change>>)
    ensures Required([c] + rest) == [] <==> Quiet(c) && Required(rest) == []
    ensures Errors([c] + rest) == [] <==> Decided(c) && Errors(rest) == []
  {
    assert ([c] + rest)[1..] == rest;
  }

  /** Of the six candidates only the stack change can fail. */
  lemma OnlyStackCanFail(image: Image, last: Option<Build>, source: ResolvedSource, builder: Builder, now: string)
    ensures Decided(StackOf(last, builder)) <==> RunImagesParse(last, builder)
    ensures Decided(Trigger(last, now)) && Decided(CommitOf(last, source)) && Decided(ConfigOf(image, last, source))
    ensures Decided(BuildpackOf(last, builder)) && Decided(LifecycleOf(last, builder))
  {
  }

  ghost predicate SixQuiet(image: Image, last: Option<Build>, source: ResolvedSource, builder: Builder, now: string) {
    && Quiet(Trigger(last, now)) && Quiet(CommitOf(last, source)) && Quiet(ConfigOf(image, last, source))
    && Quiet(BuildpackOf(last, builder)) && Quiet(StackOf(last, builder)) && Quiet(LifecycleOf(last, builder))
  }

  lemma AllQuietOfSix(t: Option<Change>, c: Option<Change>, g: Option<Change>, p: Option<Change>, s: Option<Change>, l: Option<Change>)
    ensures var cs := [t] + ([c] + ([g] + ([p] + ([s] + ([l] + [])))));
      && (Required(cs) == [] <==> Quiet(t) && Quiet(c) && Quiet(g) && Quiet(p) && Quiet(s) && Quiet(l))
      && (Errors(cs) == [] <==> Decided(t) && Decided(c) && Decided(g) && Decided(p) && Decided(s) && Decided(l))
  {
    var r1 := [l] + [];
    var r2 := [s] + r1;
    var r3 := [p] + r2;
    var r4 := [g] + r3;
    HeadQuiet(t, [c] + r4);
    HeadQuiet(c, r4);
    HeadQuiet(g, r3);
    HeadQuiet(p, r2);
    HeadQuiet(s, r1);
    HeadQuiet(l, []);
  }

  lemma SixInARow<T>(t: T, c: T, g: T, p: T, s: T, l: T)
    ensures [t, c, g, p, s, l] == [t] + ([c] + ([g] + ([p] + ([s] + ([l] + [])))))
  {
  }

  lemma CandidatesSpelledOut(image: Image, last: Option<Build>, source: ResolvedSource, builder: Builder, now: string)
    ensures var cs := Candidates(image, last, source, builder, now);
      && (Required(cs) == [] <==> SixQuiet(image, last, source, builder, now))
      && (Errors(cs) == [] <==> RunImagesParse(last, builder))
  {
    OnlyStackCanFail(image, last, source, builder, now);
    var t, c, g := Trigger(last, now), CommitOf(last, source), ConfigOf(image, last, source);
    var p, s, l := BuildpackOf(last, builder), StackOf(last, builder), LifecycleOf(last, builder);
    AllQuietOfSix(t, c, g, p, s, l);
    SixInARow(t, c, g, p, s, l);
  }

  /** All six candidates are quiet exactly when the last build exists and is current. */
  lemma QuietMeansCurrent(image: Image, last: Option<Build>, source: ResolvedSource, builder: Builder, now: string)
    requires RunImagesParse(last, builder)
    ensures SixQuiet(image, last, source, builder, now) <==> last.Some? && Current(image, last.value, source, builder)
  {
    if last.Some? {
      SourceUnchanged(last.value.spec.source, source);
      TriggerMessage(now);
    } else {
      assert NO_SOURCE != WithoutRevision(source.AsConfig());
    }
  }

  lemma TriggerMessage(now: string)
    ensures "A new build was manually triggered on " + now != ""
  {
    assert |"A new build was manually triggered on "| > 0;
  }

  /** The decision in full. Undecided exactly while source or builder is not ready; an error exactly when
      a run image of a successful build does not parse; "no build" exactly when the last build exists and is current. */
  lemma DecisionMeaning(image: Image, last: Option<Build>, source: SourceResolver, builder: Builder, now: string)
    requires SourcePresent(source)
    ensures var r := IsBuildRequired(image, last, source, builder, now);
      && (r.Ok? && r.value.status == ConditionUnknown <==> !source.Ready() || !builder.Ready())
      && (r.Err? <==> source.Ready() && builder.Ready() && !RunImagesParse(last, builder))
      && (r.Ok? && r.value.status == ConditionFalse <==>
           source.Ready() && builder.Ready() && last.Some? && Current(image, last.value, source.status.source.value, builder))
  {
    if source.Ready() && builder.Ready() {
      CandidatesSpelledOut(image, last, source.status.source.value, builder, now);
      if RunImagesParse(last, builder) {
        QuietMeansCurrent(image, last, source.status.source.value, builder, now);
      }
    }
  }

  /** No commit change and no source difference in the config change together mean the same source, revision included. */
  lemma SourceUnchanged(old_: SourceConfig, source: ResolvedSource)
    ensures old_ == source.AsConfig() <==>
      && WithoutRevision(old_) == WithoutRevision(source.AsConfig())
      && (old_.git.Some? && source.ResolvedGit? ==> old_.git.value.revision == source.revision)
  {
    if WithoutRevision(old_) == WithoutRevision(source.AsConfig()) && old_.git.Some? && source.ResolvedGit?
       && old_.git.value.revision == source.revision {
      assert old_.git.value == source.AsConfig().git.value;
      assert old_.(git := source.AsConfig().git) == source.AsConfig();
    }
  }
}
