// Whole runs of one Image: reconciles that may fail half way, builds that
// progress, users, sources and builders that change things in between.
module ImageRuns {
  import opened Common
  import opened BuildApi
  import opened BuildRequired
  import opened ImageReconcile
  import Text

  /** The stored objects, and two histories that no code reads: the build numbers issued so far,
      and what the most recent success, ever, offered for reuse. */
  datatype World = World(store: Store, issued: seq<int>, lastGood: Option<LastBuild>)

  datatype Event =
    | ReconcileEvent(env: Env)
    | BuildUpdate(i: nat, status: BuildStatus)                       // the build controller; finished builds are left alone
    | AnnotateBuild(i: nat, annotations: map<string, string>)        // a user, for instance to trigger a build
    | EditImage(spec: ImageSpec, labels: map<string, string>, annotations: map<string, string>)
    | SourceUpdate(resolved: SourceResolverStatus)
    | BuilderUpdate(builder: Option<Builder>)
    | DeleteBuild(i: nat)                                            // a user deletes a build other than the newest
    | Tick(seconds: nat)

  ghost predicate Enabled(w: World, e: Event) {
    var builds := w.store.builds;
    match e
    case ReconcileEvent(_) => true
    case BuildUpdate(i, _) => i < |builds| && builds[i].IsRunning()
    case AnnotateBuild(i, _) => i < |builds|
    case EditImage(spec, _, _) => LimitsValid(w.store.image.(spec := spec))
    case SourceUpdate(status) => w.store.source.Some? && SourcePresent(w.store.source.value.(status := status))
    case BuilderUpdate(_) => true
    case DeleteBuild(i) => i + 1 < |builds|
    case Tick(_) => true
  }

  /** The builds, at most one, that a reconcile creates. */
  function Created(s: Store, env: Env): seq<Build>
    requires WellFormed(s)
  {
    if env.builderError || s.builder.None? || env.listError || (s.builds != [] && Last(s.builds).value.IsRunning()) || env.cacheError then []
    else
      var (s1, source) := ReconcileSource(s, env);
      if source.Err? then []
      else
        var s2 := ReconcileBuild(s1, source.value, s.builder.value, env).0;
        if |s2.builds| > |s.builds| then [s2.builds[|s2.builds| - 1]] else []
  }

  function Numbers(builds: seq<Build>): seq<int> {
    seq(|builds|, i requires 0 <= i < |builds| => Number(builds[i]))
  }

  function ReconcileNext(w: World, env: Env): World
    requires WellFormed(w.store)
  {
    World(Reconcile(w.store, env), w.issued + Numbers(Created(w.store, env)), w.lastGood)
  }

  function Next(w: World, e: Event): World
    requires WellFormed(w.store) && Enabled(w, e)
  {
    var s := w.store;
    match e
    case ReconcileEvent(env) => ReconcileNext(w, env)
    case BuildUpdate(i, status) =>
      var b := s.builds[i].(status := status);
      World(s.(builds := s.builds[i := b]), w.issued, if b.IsSuccess() then LastBuildOf(Some(b)) else w.lastGood)
    case AnnotateBuild(i, annotations) =>
      w.(store := s.(builds := s.builds[i := s.builds[i].(annotations := annotations)]))
    case EditImage(spec, labels, annotations) =>
      w.(store := s.(image := s.image.(spec := spec, labels := labels, annotations := annotations, generation := s.image.generation + 1)))
    case SourceUpdate(status) => w.(store := s.(source := Some(s.source.value.(status := status))))
    case BuilderUpdate(builder) => w.(store := s.(builder := builder))
    case DeleteBuild(i) => w.(store := s.(builds := s.builds[..i] + s.builds[i + 1..]))
    case Tick(n) => w.(store := s.(clock := s.clock + n))
  }

  // What every reachable state satisfies.

  function Number(b: Build): int {
    match BuildCounter(Some(b))
    case Ok(n) => n
    case Err(_) => 0
  }

  predicate BuildOk(image: string, b: Build) {
    BuildCounter(Some(b)) == Ok(Number(b)) && b.name == BuildName(image, Number(b))
  }

  predicate Before(a: Build, b: Build) {
    a.created < b.created && Number(a) < Number(b) && !a.IsRunning()
  }

  /** Creation order is number order, and nothing but the newest build is unfinished. */
  ghost predicate Ordered(image: string, builds: seq<Build>) {
    && (forall b :: b in builds ==> BuildOk(image, b))
    && (forall i, j :: 0 <= i < j < |builds| ==> Before(builds[i], builds[j]))
  }

  ghost predicate Increasing(s: seq<int>) {
    forall i, j :: 0 <= i < j < |s| ==> s[i] < s[j]
  }

  /** What the next build may reuse is what the most recent success offered, however many failures came since. */
  ghost predicate ReuseIsFromLastSuccess(last: Option<Build>, lastGood: Option<LastBuild>) {
    match last
    case None => lastGood.None?
    case Some(b) => lastGood == if b.IsSuccess() then LastBuildOf(Some(b)) else b.spec.lastBuild
  }

  ghost predicate StoreSafe(s: Store) {
    && WellFormed(s) && Ordered(s.image.name, s.builds)
    && DatedBefore(s.builds, s.clock)
  }

  /** Numbers are issued in increasing order, and the newest build carries the last one. */
  ghost predicate IssuedOk(issued: seq<int>, last: Option<Build>) {
    && Increasing(issued)
    && (last.None? <==> issued == [])
    && (last.Some? ==> issued[|issued| - 1] == Number(last.value))
  }

  ghost predicate Safe(w: World) {
    && StoreSafe(w.store)
    && IssuedOk(w.issued, Last(w.store.builds))
    && ReuseIsFromLastSuccess(Last(w.store.builds), w.lastGood)
  }

  // Removal from an ordered list.

  lemma NamesDiffer(image: string, a: Build, b: Build)
    requires BuildOk(image, a) && BuildOk(image, b) && a.name == b.name
    ensures Number(a) == Number(b)
  {
    BuildNameInjective(image, Number(a), Number(b));
  }

  lemma SplitLast(builds: seq<Build>)
    requires builds != []
    ensures builds == builds[..|builds| - 1] + [builds[|builds| - 1]]
  {
  }

  lemma {:induction false} RemoveOrdered(image: string, builds: seq<Build>, name: string)
    requires Ordered(image, builds)
    ensures Ordered(image, Remove(builds, name))
    decreases |builds|
  {
    if builds != [] {
      SplitLast(builds);
      var rest, last := builds[..|builds| - 1], builds[|builds| - 1];
      RemoveOrdered(image, rest, name);
      forall a | a in rest ensures Before(a, last) {
        var i :| 0 <= i < |rest| && rest[i] == a;
        assert builds[i] == a;
      }
      var r := Remove(rest, name);
      forall i | 0 <= i < |r| ensures Before(r[i], last) {
        assert r[i] in rest;
      }
    }
  }

  /** The head of a history longer than one is not the newest build. */
  lemma OldestIsNotNewest(image: string, builds: seq<Build>)
    requires Ordered(image, builds) && builds != []
    ensures |Failed(builds)| >= 2 ==> Failed(builds)[0].name != builds[|builds| - 1].name
    ensures |Successful(builds)| >= 2 ==> Successful(builds)[0].name != builds[|builds| - 1].name
  {
    var rest, last := builds[..|builds| - 1], builds[|builds| - 1];
    forall b | b in rest ensures b.name != last.name {
      var i :| 0 <= i < |rest| && rest[i] == b;
      assert Before(builds[i], last) && builds[i] in builds && last in builds;
      if b.name == last.name {
        NamesDiffer(image, b, last);
      }
    }
    if |Failed(builds)| >= 2 {
      assert Failed(builds)[0] == Failed(rest)[0];
      assert Failed(rest)[0] in Failed(rest);
    }
    if |Successful(builds)| >= 2 {
      assert Successful(builds)[0] == Successful(rest)[0];
      assert Successful(rest)[0] in Successful(rest);
    }
  }

  lemma DropSafe(image: string, builds: seq<Build>, history: seq<Build>, limit: nat, write: Write)
    requires Ordered(image, builds)
    requires |history| > limit ==> builds != [] && history[0].name != builds[|builds| - 1].name
    ensures var r := DropOldest(builds, history, limit, write);
      Ordered(image, r) && Last(r) == Last(builds) && forall b :: b in r ==> b in builds
  {
    if |history| > limit {
      RemoveOrdered(image, builds, history[0].name);
    }
  }

  /** Trimming keeps the order and, with limits of at least one, the newest build. */
  lemma TrimSafe(image: string, builds: seq<Build>, failedLimit: nat, successLimit: nat, env: Env)
    requires failedLimit >= 1 && successLimit >= 1 && Ordered(image, builds)
    ensures var r := Trimmed(builds, failedLimit, successLimit, env);
      && Ordered(image, r) && Last(r) == Last(builds) && forall b :: b in r ==> b in builds
  {
    if builds != [] {
      OldestIsNotNewest(image, builds);
    }
    var failed, successful := Failed(builds), Successful(builds);
    DropSafe(image, builds, failed, failedLimit, env.deleteFailed);
    DropSafe(image, DropOldest(builds, failed, failedLimit, env.deleteFailed), successful, successLimit, env.deleteSuccessful);
  }

  /** A build outlives trimming unless it heads a history. */
  lemma TrimKeeps(builds: seq<Build>, failedLimit: nat, successLimit: nat, env: Env, b: Build)
    requires b in builds
    requires |Failed(builds)| > failedLimit ==> Failed(builds)[0].name != b.name
    requires |Successful(builds)| > successLimit ==> Successful(builds)[0].name != b.name
    ensures b in Trimmed(builds, failedLimit, successLimit, env)
  {
  }

  /** b is the build that follows the builds of s, for these inputs. */
  ghost predicate IsNextBuild(s: Store, source: SourceResolver, builder: Builder, env: Env, b: Build)
    requires SourcePresent(source)
  {
    && (s.builds != [] ==> !Last(s.builds).value.IsRunning())
    && source.Ready() && builder.Ready() && BuildCounter(Last(s.builds)).Ok?
    && exists result :: IsBuildRequired(s.image, Last(s.builds), source, builder, env.now) == Ok(result)
         && result.status == ConditionTrue
         && b == NextBuild(s, source, builder, result, BuildCounter(Last(s.builds)).value, env)
  }

  lemma ScheduleShape(s: Store, source: SourceResolver, builder: Builder, result: BuildRequiredResult, current: int, env: Env)
    requires source.status.source.Some?
    ensures var s' := Schedule(s, source, builder, result, current, env).0;
      s' == s || s' == s.(builds := s.builds + [NextBuild(s, source, builder, result, current, env)], clock := s.clock + 1)
  {
  }

  lemma DecidesOrStays(s: Store, source: SourceResolver, builder: Builder, env: Env)
    requires SourcePresent(source)
    ensures var counter, decision := BuildCounter(Last(s.builds)), IsBuildRequired(s.image, Last(s.builds), source, builder, env.now);
      if counter.Ok? && decision.Ok? && decision.value.status == ConditionTrue && source.status.source.Some?
      then ReconcileBuild(s, source, builder, env) == Schedule(s, source, builder, decision.value, counter.value, env)
      else ReconcileBuild(s, source, builder, env).0 == s
  {
    DecisionMeaning(s.image, Last(s.builds), source, builder, env.now);
  }

  lemma ReconcileBuildShape(s: Store, source: SourceResolver, builder: Builder, env: Env)
    requires SourcePresent(source) && (s.builds != [] ==> !Last(s.builds).value.IsRunning())
    ensures var s' := ReconcileBuild(s, source, builder, env).0;
      || s' == s
      || (s' == s.(builds := s'.builds, clock := s.clock + 1) && s'.builds != []
          && s'.builds == s.builds + [Last(s'.builds).value]
          && IsNextBuild(s, source, builder, env, Last(s'.builds).value))
  {
    var last := Last(s.builds);
    DecidesOrStays(s, source, builder, env);
    var counter, decision := BuildCounter(last), IsBuildRequired(s.image, last, source, builder, env.now);
    if counter.Ok? && decision.Ok? && decision.value.status == ConditionTrue && source.status.source.Some? {
      ScheduleShape(s, source, builder, decision.value, counter.value, env);
      DecidedIsNext(s, source, builder, env, decision.value, counter.value);
      OneMore(s.builds, NextBuild(s, source, builder, decision.value, counter.value, env));
    }
  }

  lemma OneMore(builds: seq<Build>, b: Build)
    ensures builds + [b] != [] && Last(builds + [b]) == Some(b)
  {
  }

  lemma DecidedIsNext(s: Store, source: SourceResolver, builder: Builder, env: Env, result: BuildRequiredResult, current: int)
    requires SourcePresent(source) && source.status.source.Some? && (s.builds != [] ==> !Last(s.builds).value.IsRunning())
    requires BuildCounter(Last(s.builds)) == Ok(current) && result.status == ConditionTrue
    requires IsBuildRequired(s.image, Last(s.builds), source, builder, env.now) == Ok(result)
    ensures IsNextBuild(s, source, builder, env, NextBuild(s, source, builder, result, current, env))
  {
    DecisionMeaning(s.image, Last(s.builds), source, builder, env.now);
  }

  predicate GetsToBuilds(s: Store, env: Env) {
    && !env.builderError && s.builder.Some? && !env.listError && !env.cacheError
    && (s.builds != [] ==> !Last(s.builds).value.IsRunning())
  }

  /** What a reconcile may do to the store: a status, a source resolver, at most one build, and some trimming. */
  ghost predicate Effect(s: Store, env: Env, s': Store, created: seq<Build>) {
    var after := SourceAfter(s.image, s.source);
    && LimitsNonNegative(s.image) && |created| <= 1 && SourcePresent(after)
    && s'.image == s.image.(status := s'.image.status) && s'.builder == s.builder && s'.clock == s.clock + |created|
    && (s'.source == s.source || s'.source == Some(after))
    && (s'.builds == s.builds + created
        || s'.builds == Trimmed(s.builds + created, s.image.spec.failedBuildHistoryLimit, s.image.spec.successBuildHistoryLimit, env))
    && (created != [] ==> s.builder.Some? && IsNextBuild(s.(source := Some(after)), after, s.builder.value, env, created[0]))
  }

  lemma ReconcileSourceShape(s: Store, env: Env)
    requires WellFormed(s)
    ensures var after := SourceAfter(s.image, s.source);
      && SourcePresent(after)
      && (ReconcileSource(s, env).0 == s || ReconcileSource(s, env).0 == s.(source := Some(after)))
      && (ReconcileSource(s, env).1.Ok? ==>
            ReconcileSource(s, env) == (s.(source := Some(after)), Ok(after)))
  {
  }

  lemma SkippedShape(s: Store, env: Env)
    requires WellFormed(s) && !GetsToBuilds(s, env)
    ensures Created(s, env) == [] && Effect(s, env, Reconcile(s, env), [])
  {
    assert s.builds + [] == s.builds;
  }

  lemma SourceFailedShape(s: Store, env: Env)
    requires WellFormed(s) && GetsToBuilds(s, env) && ReconcileSource(s, env).1.Err?
    ensures Created(s, env) == [] && Effect(s, env, Reconcile(s, env), [])
  {
    ReconcileSourceShape(s, env);
    assert s.builds + [] == s.builds;
  }

  /** The status write changes the status only. */
  lemma StatusOnly(s: Store, env: Env)
    requires WellFormed(s)
    ensures var s', r := ReconcileImage(s, env).0, Reconcile(s, env);
      r == s'.(image := r.image) && r.image == s'.image.(status := r.image.status)
  {
  }

  /** What is left of the builds once the source resolver is in place. */
  lemma TrimShape(s: Store, source: SourceResolver, builder: Builder, env: Env)
    requires SourcePresent(source) && LimitsNonNegative(s.image)
    ensures var s2, s3 := ReconcileBuild(s, source, builder, env).0, BuildAndTrim(s, source, builder, env).0;
      s2.image == s.image && (s3 == s2 || s3 == DeleteOldBuilds(s2, env).0)
  {
  }

  lemma BuiltShape(s: Store, s1: Store, source: SourceResolver, env: Env)
    requires WellFormed(s) && GetsToBuilds(s, env) && ReconcileSource(s, env) == (s1, Ok(source))
    requires s1.image == s.image && SourcePresent(source)
    ensures var s2 := ReconcileBuild(s1, source, s.builder.value, env).0;
      && s2.image == s.image
      && (ReconcileImage(s, env).0 == s2 || ReconcileImage(s, env).0 == DeleteOldBuilds(s2, env).0)
  {
    TrimShape(s1, source, s.builder.value, env);
    assert ReconcileImage(s, env) == BuildAndTrim(s1, source, s.builder.value, env);
  }

  /** A reconcile that gets past the source resolver. */
  lemma BuiltEffect(s: Store, env: Env)
    requires WellFormed(s) && GetsToBuilds(s, env) && ReconcileSource(s, env).1.Ok?
    ensures Effect(s, env, Reconcile(s, env), Created(s, env))
  {
    var (s1, source) := ReconcileSource(s, env);
    ReconcileSourceShape(s, env);
    BuiltShape(s, s1, source.value, env);
    StatusOnly(s, env);
    ReconcileBuildShape(s1, source.value, s.builder.value, env);
    assert s.builds + [] == s.builds;
  }

  lemma ReconcileShape(s: Store, env: Env)
    requires WellFormed(s)
    ensures Effect(s, env, Reconcile(s, env), Created(s, env))
  {
    if !GetsToBuilds(s, env) {
      SkippedShape(s, env);
    } else if ReconcileSource(s, env).1.Err? {
      SourceFailedShape(s, env);
    } else {
      BuiltEffect(s, env);
    }
  }

  /** A created build carries the next number, today's date and the previous build's reuse record; it has not finished. */
  lemma NewBuildFacts(s: Store, source: SourceResolver, builder: Builder, result: BuildRequiredResult, current: int, env: Env)
    requires source.status.source.Some?
    ensures var b := NextBuild(s, source, builder, result, current, env);
      && BuildOk(s.image.name, b) && Number(b) == current + 1 && b.created == s.clock && b.IsRunning()
      && b.spec.lastBuild == LastBuildOf(Last(s.builds))
      && b.spec.source == source.status.source.value.AsConfig() && b.spec.settings == s.image.spec.Settings()
      && (b.Triggered() <==> BUILD_NEEDED_ANNOTATION in s.image.annotations)
  {
    var b := NextBuild(s, source, builder, result, current, env);
    assert Lookup(b.labels, BUILD_NUMBER_LABEL) == Text.FormatInt(current + 1);
    Text.ParseFormatInt(current + 1);
  }

  lemma AppendOrdered(image: string, builds: seq<Build>, b: Build, clock: nat)
    requires Ordered(image, builds) && (forall a :: a in builds ==> a.created < clock)
    requires BuildOk(image, b) && b.created == clock
    requires builds != [] ==> !Last(builds).value.IsRunning() && Number(Last(builds).value) < Number(b)
    ensures Ordered(image, builds + [b])
  {
    forall i | 0 <= i < |builds| ensures Before(builds[i], b) {
      assert builds[i] in builds;
      assert i < |builds| - 1 ==> Before(builds[i], builds[|builds| - 1]);
    }
  }

  /** The facts of ReconcileShape and NewBuildFacts about the created build, if there is one. */
  lemma CreatedFacts(s: Store, env: Env)
    requires WellFormed(s) && Created(s, env) != []
    ensures var created := Created(s, env);
      && |created| == 1 && BuildOk(s.image.name, created[0]) && created[0].created == s.clock && created[0].IsRunning()
      && (s.builds != [] ==> !Last(s.builds).value.IsRunning())
      && BuildCounter(Last(s.builds)) == Ok(Number(created[0]) - 1)
      && created[0].spec.lastBuild == LastBuildOf(Last(s.builds))
      && (created[0].Triggered() <==> BUILD_NEEDED_ANNOTATION in s.image.annotations)
  {
    ReconcileShape(s, env);
    var created, after := Created(s, env), SourceAfter(s.image, s.source);
    var s1 := s.(source := Some(after));
    var current := BuildCounter(Last(s.builds)).value;
    var result :| IsBuildRequired(s1.image, Last(s1.builds), after, s1.builder.value, env.now) == Ok(result)
      && result.status == ConditionTrue
      && created[0] == NextBuild(s1, after, s1.builder.value, result, current, env);
    NewBuildFacts(s1, after, s.builder.value, result, current, env);
  }

  ghost predicate MayFollow(image: string, builds: seq<Build>, b: Build, clock: nat) {
    && BuildOk(image, b) && b.created == clock && b.IsRunning()
    && (builds != [] ==> !Last(builds).value.IsRunning() && Number(Last(builds).value) < Number(b))
  }

  ghost predicate DatedBefore(builds: seq<Build>, clock: nat) {
    forall b :: b in builds ==> b.created < clock
  }

  lemma Extend(image: string, builds: seq<Build>, created: seq<Build>, clock: nat)
    requires Ordered(image, builds) && DatedBefore(builds, clock)
    requires created == [] || (|created| == 1 && MayFollow(image, builds, created[0], clock))
    ensures var mid := builds + created;
      && Ordered(image, mid) && DatedBefore(mid, clock + |created|)
      && Last(mid) == (if created == [] then Last(builds) else Some(created[0]))
  {
    if created == [] {
      assert builds + created == builds;
    } else {
      AppendOrdered(image, builds, created[0], clock);
      assert builds + created == builds + [created[0]];
    }
  }

  /** The builds after a reconcile: at most one more, perhaps trimmed. */
  lemma BuildsAfter(image: string, builds: seq<Build>, created: seq<Build>, r: seq<Build>, clock: nat, failedLimit: nat, successLimit: nat, env: Env)
    requires Ordered(image, builds) && DatedBefore(builds, clock)
    requires created == [] || (|created| == 1 && MayFollow(image, builds, created[0], clock))
    requires failedLimit >= 1 && successLimit >= 1
    requires r == builds + created || r == Trimmed(builds + created, failedLimit, successLimit, env)
    ensures Ordered(image, r) && DatedBefore(r, clock + |created|)
    ensures Last(r) == if created == [] then Last(builds) else Some(created[0])
    ensures builds != [] ==> Last(builds).value in r
  {
    Extend(image, builds, created, clock);
    if r == builds + created {
      assert builds != [] ==> Last(builds).value in builds;
    } else {
      TrimSafe(image, builds + created, failedLimit, successLimit, env);
      if builds != [] {
        NewestSurvives(image, builds, created, failedLimit, successLimit, env);
      }
    }
  }

  lemma CreatedMayFollow(s: Store, env: Env)
    requires StoreSafe(s) && Created(s, env) != []
    ensures |Created(s, env)| == 1 && MayFollow(s.image.name, s.builds, Created(s, env)[0], s.clock)
  {
    CreatedFacts(s, env);
    if s.builds != [] {
      assert BuildOk(s.image.name, Last(s.builds).value);
    }
  }

  lemma ReconcileStoreSafe(s: Store, env: Env)
    requires StoreSafe(s)
    ensures var s', created := Reconcile(s, env), Created(s, env);
      && StoreSafe(s')
      && Last(s'.builds) == (if created == [] then Last(s.builds) else Some(created[0]))
      && (s.builds != [] ==> Last(s.builds).value in s'.builds)
  {
    var s', created := Reconcile(s, env), Created(s, env);
    ReconcileShape(s, env);
    if created != [] {
      CreatedMayFollow(s, env);
    }
    BuildsAfter(s.image.name, s.builds, created, s'.builds, s.clock,
                s.image.spec.failedBuildHistoryLimit, s.image.spec.successBuildHistoryLimit, env);
  }

  /** The histories keep up with a store that gained at most one build. */
  lemma HistoriesAfter(w: World, s': Store, created: seq<Build>)
    requires Safe(w) && StoreSafe(s')
    requires Last(s'.builds) == if created == [] then Last(w.store.builds) else Some(created[0])
    requires created != [] ==>
      && |created| == 1 && created[0].IsRunning() && created[0].spec.lastBuild == LastBuildOf(Last(w.store.builds))
      && (w.store.builds != [] ==> !Last(w.store.builds).value.IsRunning() && Number(Last(w.store.builds).value) < Number(created[0]))
    ensures Safe(World(s', w.issued + Numbers(created), w.lastGood))
  {
    if created == [] {
      assert w.issued + Numbers(created) == w.issued;
    } else {
      assert Numbers(created) == [Number(created[0])];
    }
  }

  lemma ReconcileSafe(w: World, env: Env)
    requires Safe(w)
    ensures Safe(ReconcileNext(w, env))
    ensures w.store.builds != [] ==> Last(w.store.builds).value in Reconcile(w.store, env).builds
  {
    var created := Created(w.store, env);
    ReconcileStoreSafe(w.store, env);
    if created != [] {
      CreatedFacts(w.store, env);
      CreatedMayFollow(w.store, env);
    }
    HistoriesAfter(w, Reconcile(w.store, env), created);
  }

  /** The build that was newest before the reconcile outlives it, also when a newer one was added. */
  lemma NewestSurvives(image: string, builds: seq<Build>, created: seq<Build>, failedLimit: nat, successLimit: nat, env: Env)
    requires failedLimit >= 1 && successLimit >= 1 && Ordered(image, builds) && builds != []
    requires created == [] || (|created| == 1 && created[0].IsRunning())
    ensures Last(builds).value in Trimmed(builds + created, failedLimit, successLimit, env)
  {
    if created == [] {
      assert builds + created == builds;
    } else {
      assert (builds + created)[..|builds|] == builds;
    }
    assert Failed(builds + created) == Failed(builds) && Successful(builds + created) == Successful(builds);
    OldestIsNotNewest(image, builds);
    TrimKeeps(builds + created, failedLimit, successLimit, env, Last(builds).value);
  }

  // The other events, and whole runs.

  lemma ReplaceOrdered(image: string, builds: seq<Build>, i: nat, b: Build, clock: nat)
    requires Ordered(image, builds) && DatedBefore(builds, clock) && i < |builds|
    requires b.created == builds[i].created && b.labels == builds[i].labels && b.name == builds[i].name
    requires b.IsRunning() ==> builds[i].IsRunning()
    ensures Ordered(image, builds[i := b]) && DatedBefore(builds[i := b], clock)
  {
    var r := builds[i := b];
    assert builds[i] in builds;
    forall x | x in r ensures BuildOk(image, x) && x.created < clock {
      assert x == b || x in builds;
    }
    forall j, k | 0 <= j < k < |r| ensures Before(r[j], r[k]) {
      assert Before(builds[j], builds[k]);
    }
  }

  lemma DeleteOrdered(image: string, builds: seq<Build>, i: nat, clock: nat)
    requires Ordered(image, builds) && DatedBefore(builds, clock) && i + 1 < |builds|
    ensures var r := builds[..i] + builds[i + 1..];
      Ordered(image, r) && DatedBefore(r, clock) && Last(r) == Last(builds)
  {
    var r := builds[..i] + builds[i + 1..];
    forall x | x in r ensures x in builds {
    }
    forall j, k | 0 <= j < k < |r| ensures Before(r[j], r[k]) {
      assert Before(builds[if j < i then j else j + 1], builds[if k < i then k else k + 1]);
    }
  }

  /** Only the newest build can be unfinished. */
  lemma RunningIsNewest(image: string, builds: seq<Build>, i: nat)
    requires Ordered(image, builds) && i < |builds| && builds[i].IsRunning()
    ensures i == |builds| - 1
  {
    assert i < |builds| - 1 ==> Before(builds[i], builds[|builds| - 1]);
  }

  lemma BuildUpdateSafe(w: World, i: nat, status: BuildStatus)
    requires Safe(w) && i < |w.store.builds| && w.store.builds[i].IsRunning()
    ensures var b := w.store.builds[i].(status := status);
      && Safe(World(w.store.(builds := w.store.builds[i := b]), w.issued, if b.IsSuccess() then LastBuildOf(Some(b)) else w.lastGood))
      && Last(w.store.builds[i := b]) == Some(b)
  {
    var s := w.store;
    var b := s.builds[i].(status := status);
    RunningIsNewest(s.image.name, s.builds, i);
    ReplaceOrdered(s.image.name, s.builds, i, b, s.clock);
    UpdateKeepsHistories(w.issued, w.lastGood, s.builds[i], status);
    assert Last(s.builds[i := b]) == Some(b);
  }

  lemma UpdateKeepsHistories(issued: seq<int>, lastGood: Option<LastBuild>, old_: Build, status: BuildStatus)
    requires old_.IsRunning() && IssuedOk(issued, Some(old_)) && ReuseIsFromLastSuccess(Some(old_), lastGood)
    ensures var b := old_.(status := status);
      IssuedOk(issued, Some(b)) && ReuseIsFromLastSuccess(Some(b), if b.IsSuccess() then LastBuildOf(Some(b)) else lastGood)
  {
  }

  lemma AnnotateSafe(w: World, i: nat, annotations: map<string, string>)
    requires Safe(w) && i < |w.store.builds|
    ensures var b := w.store.builds[i].(annotations := annotations);
      && Safe(w.(store := w.store.(builds := w.store.builds[i := b])))
      && Last(w.store.builds[i := b]).value.name == Last(w.store.builds).value.name
  {
    var s := w.store;
    ReplaceOrdered(s.image.name, s.builds, i, s.builds[i].(annotations := annotations), s.clock);
    AnnotateKeepsHistories(w.issued, w.lastGood, s.builds, i, annotations);
  }

  lemma AnnotateKeepsHistories(issued: seq<int>, lastGood: Option<LastBuild>, builds: seq<Build>, i: nat, annotations: map<string, string>)
    requires i < |builds| && IssuedOk(issued, Last(builds)) && ReuseIsFromLastSuccess(Last(builds), lastGood)
    ensures var last := Last(builds[i := builds[i].(annotations := annotations)]);
      && IssuedOk(issued, last) && ReuseIsFromLastSuccess(last, lastGood)
      && last.Some? && last.value.name == Last(builds).value.name
  {
    var b := builds[i].(annotations := annotations);
    assert Number(b) == Number(builds[i]);
    assert Last(builds[i := b]) == if i + 1 == |builds| then Some(b) else Last(builds);
  }

  lemma DeleteSafe(w: World, i: nat)
    requires Safe(w) && i + 1 < |w.store.builds|
    ensures var r := w.store.builds[..i] + w.store.builds[i + 1..];
      Safe(w.(store := w.store.(builds := r))) && Last(r) == Last(w.store.builds)
  {
    DeleteOrdered(w.store.image.name, w.store.builds, i, w.store.clock);
  }

  lemma SameBuildsSafe(w: World, s': Store)
    requires Safe(w) && WellFormed(s') && s'.builds == w.store.builds && s'.image.name == w.store.image.name && s'.clock >= w.store.clock
    ensures Safe(w.(store := s'))
  {
  }

  predicate InRange(builds: seq<Build>, e: Event) {
    match e
    case BuildUpdate(i, _) => i < |builds|
    case AnnotateBuild(i, _) => i < |builds|
    case DeleteBuild(i) => i + 1 < |builds|
    case _ => true
  }

  /** The builds after an event that is not a reconcile. */
  function AfterEvent(builds: seq<Build>, e: Event): seq<Build>
    requires !e.ReconcileEvent? && InRange(builds, e)
  {
    match e
    case BuildUpdate(i, status) => builds[i := builds[i].(status := status)]
    case AnnotateBuild(i, annotations) => builds[i := builds[i].(annotations := annotations)]
    case DeleteBuild(i) => builds[..i] + builds[i + 1..]
    case _ => builds
  }

  lemma NextBuilds(w: World, e: Event)
    requires WellFormed(w.store) && Enabled(w, e) && !e.ReconcileEvent?
    ensures InRange(w.store.builds, e) && Next(w, e).store.builds == AfterEvent(w.store.builds, e) && Next(w, e).issued == w.issued
  {
  }

  /** Every step keeps the invariant and the numbers already issued. */
  lemma StepSafe(w: World, e: Event)
    requires Safe(w) && Enabled(w, e)
    ensures Safe(Next(w, e)) && w.issued <= Next(w, e).issued
  {
    match e
    case ReconcileEvent(env) => ReconcileSafe(w, env);
    case BuildUpdate(i, status) => BuildUpdateSafe(w, i, status);
    case AnnotateBuild(i, annotations) => AnnotateSafe(w, i, annotations);
    case DeleteBuild(i) => DeleteSafe(w, i);
    case _ => OutsideSafe(w, e);
  }

  /** Events that leave the builds alone. */
  lemma OutsideSafe(w: World, e: Event)
    requires Safe(w) && Enabled(w, e) && (e.EditImage? || e.SourceUpdate? || e.BuilderUpdate? || e.Tick?)
    ensures Safe(Next(w, e)) && Next(w, e).issued == w.issued
  {
    SameBuildsSafe(w, Next(w, e).store);
  }

  /** No step deletes the newest build, not even the one that makes it the second newest. */
  lemma NewestIsNotDeleted(w: World, e: Event)
    requires Safe(w) && Enabled(w, e) && w.store.builds != []
    ensures Next(w, e).store.HasBuild(Last(w.store.builds).value.name)
  {
    var b := Last(w.store.builds).value;
    if e.ReconcileEvent? {
      ReconcileSafe(w, e.env);
      assert b in Next(w, e).store.builds;
    } else {
      NextBuilds(w, e);
      var kept := NewestStays(w.store.builds, e);
      assert kept in Next(w, e).store.builds;
    }
  }

  lemma NewestStays(builds: seq<Build>, e: Event) returns (b: Build)
    requires builds != [] && !e.ReconcileEvent? && InRange(builds, e)
    ensures b in AfterEvent(builds, e) && b.name == Last(builds).value.name
  {
    var after := AfterEvent(builds, e);
    b := after[|after| - 1];
  }

  ghost predicate EnabledRun(w: World, es: seq<Event>)
    decreases |es|
  {
    es == [] || (WellFormed(w.store) && Enabled(w, es[0]) && EnabledRun(Next(w, es[0]), es[1..]))
  }

  function Run(w: World, es: seq<Event>): World
    requires EnabledRun(w, es)
    decreases |es|
  {
    if es == [] then w else Run(Next(w, es[0]), es[1..])
  }

  /** No builds yet, nothing issued. */
  ghost predicate Initial(w: World) {
    WellFormed(w.store) && w.store.builds == [] && w.issued == [] && w.lastGood == None
  }

  lemma InitiallySafe(w: World)
    requires Initial(w)
    ensures Safe(w)
  {
  }

  /** Run safety: whatever writes fail or get lost, at most the newest build is unfinished, numbers are issued once
      each in increasing order, the newest build always exists and carries the last of them. */
  lemma {:induction false} RunSafe(w: World, es: seq<Event>)
    requires Safe(w) && EnabledRun(w, es)
    ensures Safe(Run(w, es)) && w.issued <= Run(w, es).issued
    decreases |es|
  {
    if es != [] {
      StepSafe(w, es[0]);
      RunSafe(Next(w, es[0]), es[1..]);
    }
  }

  /** The same from the start: an image without builds. */
  lemma RunSafeFromStart(w: World, es: seq<Event>)
    requires Initial(w) && EnabledRun(w, es)
    ensures Safe(Run(w, es))
  {
    InitiallySafe(w);
    RunSafe(w, es);
  }
}
