// The API objects an Image reconcile reads and writes: pkg/apis/core/v1alpha1
// and pkg/apis/build/v1alpha2. Slices are sequences (nil and empty are equal,
// as they are to equality.Semantic), pointers are Option.
module BuildApi {
  import opened Common
  import Text

  datatype ConditionStatus = ConditionTrue | ConditionFalse | ConditionUnknown

  datatype ConditionKind = Ready | Succeeded | UpToDate | BuilderReady | BuilderUpToDate | OtherKind(name: string)

  /** The reasons an Image reconcile gives, and those of other controllers. */
  datatype Reason =
    | NoReason | BuildRunningReason | ResolverNotReadyReason | UnknownStateReason | BuildFailedReason | UpToDateReason
    | BuilderNotFoundReason | BuilderNotReadyReason | BuilderReadyReason | BuilderNotUpToDateReason | BuilderUpToDateReason
    | OtherReason(text: string)

  datatype Condition = Condition(kind: ConditionKind, status: ConditionStatus, reason: Reason, message: string)

  function GetCondition(conditions: seq<Condition>, kind: ConditionKind): Option<Condition> {
    if conditions == [] then None
    else if conditions[0].kind == kind then Some(conditions[0])
    else GetCondition(conditions[1..], kind)
  }

  predicate IsTrue(c: Option<Condition>) {
    c.Some? && c.value.status == ConditionTrue
  }

  predicate IsFalse(c: Option<Condition>) {
    c.Some? && c.value.status == ConditionFalse
  }

  /** A missing condition is unknown. */
  predicate IsUnknown(c: Option<Condition>) {
    c.Some? ==> c.value.status == ConditionUnknown
  }

  // Sources, as configured and as resolved.

  datatype Git = Git(url: string, revision: string, initializeSubmodules: bool)

  datatype Blob = Blob(url: string, auth: string, stripComponents: int)

  datatype Registry = Registry(image: string, imagePullSecrets: seq<string>)

  datatype SourceConfig = SourceConfig(git: Option<Git>, blob: Option<Blob>, registry: Option<Registry>, subPath: string)

  const NO_SOURCE := SourceConfig(None, None, None, "")

  datatype GitSourceKind = Unknown | Branch | Tag | Commit

  datatype ResolvedSource =
    | ResolvedGit(url: string, revision: string, subPath: string, tree: string, kind: GitSourceKind, initializeSubmodules: bool)
    | ResolvedBlob(url: string, auth: string, subPath: string, stripComponents: int)
    | ResolvedRegistry(image: string, subPath: string, imagePullSecrets: seq<string>)
  {
    function AsConfig(): SourceConfig {
      match this
      case ResolvedGit(url, revision, subPath, _, _, submodules) =>
        SourceConfig(Some(Git(url, revision, submodules)), None, None, subPath)
      case ResolvedBlob(url, auth, subPath, strip) =>
        SourceConfig(None, Some(Blob(url, auth, strip)), None, subPath)
      case ResolvedRegistry(image, subPath, secrets) =>
        SourceConfig(None, None, Some(Registry(image, secrets)), subPath)
    }

    predicate IsUnknown() {
      ResolvedGit? && kind == Unknown
    }

    predicate IsPollable() {
      ResolvedGit? && kind != Commit && kind != Unknown
    }
  }

  // Source resolvers.

  datatype SourceResolverSpec = SourceResolverSpec(serviceAccount: string, source: SourceConfig)

  datatype SourceResolverStatus = SourceResolverStatus(observedGeneration: nat, conditions: seq<Condition>, source: Option<ResolvedSource>)

  datatype SourceResolver = SourceResolver(labels: map<string, string>, generation: nat, spec: SourceResolverSpec, status: SourceResolverStatus)
  {
    predicate Ready() {
      IsTrue(GetCondition(status.conditions, ConditionKind.Ready)) && generation == status.observedGeneration
    }
  }

  // Builders.

  datatype BuildpackMetadata = BuildpackMetadata(id: string, version: string, homepage: string)

  predicate Include(list: seq<BuildpackMetadata>, q: BuildpackMetadata) {
    exists bp :: bp in list && bp.id == q.id && bp.version == q.version
  }

  /** An image reference with what name.ParseReference makes of it: None when it does not parse. */
  datatype ImageRef = ImageRef(text: string, identifier: Option<string>)

  datatype BuilderRecord = BuilderRecord(latestImage: string, buildpacks: seq<BuildpackMetadata>, runImage: ImageRef, lifecycleVersion: string)

  datatype Builder = Builder(name: string, namespace: string, kind: string, generation: nat, observedGeneration: nat,
                             conditions: seq<Condition>, record: BuilderRecord)
  {
    predicate Ready() {
      IsTrue(GetCondition(conditions, ConditionKind.Ready)) && generation == observedGeneration
    }

    predicate UpToDate() {
      IsTrue(GetCondition(conditions, ConditionKind.UpToDate)) && generation == observedGeneration
    }

    function ConditionReadyMessage(): string {
      match GetCondition(conditions, ConditionKind.Ready)
      case None => ""
      case Some(c) => c.message
    }
  }

  // Images.

  datatype BuildSettings = BuildSettings(env: seq<(string, string)>, resources: map<string, string>,
                                         services: seq<string>, cnbBindings: seq<string>)

  const NO_SETTINGS := BuildSettings([], map[], [], [])

  datatype ImageSpec = ImageSpec(serviceAccount: string, source: SourceConfig, failedBuildHistoryLimit: int,
                                 successBuildHistoryLimit: int, build: Option<BuildSettings>)
  {
    /** Env(), Resources(), Services() and CNBBindings(): zero values without a build section. */
    function Settings(): BuildSettings {
      match build
      case None => NO_SETTINGS
      case Some(settings) => settings
    }
  }

  datatype ImageStatus = ImageStatus(observedGeneration: nat, conditions: seq<Condition>, latestBuildRef: string,
                                     latestBuildImageGeneration: int, latestImage: string, latestStack: string,
                                     buildCounter: int, buildCacheName: string, latestBuildReason: string)

  datatype Image = Image(name: string, namespace: string, labels: map<string, string>, annotations: map<string, string>,
                         generation: nat, spec: ImageSpec, status: ImageStatus)

  // Builds.

  const BUILD_NUMBER_LABEL := "image.kpack.io/buildNumber"
  const IMAGE_LABEL := "image.kpack.io/image"
  const IMAGE_GENERATION_LABEL := "image.kpack.io/imageGeneration"
  const BUILD_REASON_ANNOTATION := "image.kpack.io/reason"
  const BUILD_CHANGES_ANNOTATION := "image.kpack.io/buildChanges"
  const BUILD_NEEDED_ANNOTATION := "image.kpack.io/additionalBuildNeeded"
  const BUILDER_NAME_ANNOTATION := "image.kpack.io/builderName"
  const BUILDER_KIND_ANNOTATION := "image.kpack.io/builderKind"

  datatype LastBuild = LastBuild(image: string, cacheImage: string, stackId: string)

  datatype BuildSpec = BuildSpec(source: SourceConfig, settings: BuildSettings, builderImage: string, runImage: ImageRef,
                                 lastBuild: Option<LastBuild>, priorityClassName: string)

  datatype BuildStatus = BuildStatus(conditions: seq<Condition>, buildMetadata: seq<BuildpackMetadata>, runImage: ImageRef,
                                     stackId: string, lifecycleVersion: string, latestImage: string, latestCacheImage: string)

  const NEW_BUILD_STATUS := BuildStatus([], [], ImageRef("", None), "", "", "", "")

  datatype Build = Build(name: string, labels: map<string, string>, annotations: map<string, string>, created: nat,
                         spec: BuildSpec, status: BuildStatus)
  {
    function Succeeded(): Option<Condition> {
      GetCondition(status.conditions, ConditionKind.Succeeded)
    }

    predicate IsRunning() {
      IsUnknown(Succeeded())
    }

    predicate IsSuccess() {
      IsTrue(Succeeded())
    }

    predicate IsFailure() {
      IsFalse(Succeeded())
    }

    predicate Triggered() {
      BUILD_NEEDED_ANNOTATION in annotations
    }

    function BuildReason(): string {
      Lookup(annotations, BUILD_REASON_ANNOTATION)
    }

    function ImageGeneration(): int {
      match Text.ParseInt(Lookup(labels, IMAGE_GENERATION_LABEL))
      case Ok(n) => n
      case Err(_) => 0
    }

    function Stack(): string {
      if IsSuccess() then status.stackId else ""
    }

    function BuiltImage(): string {
      if IsSuccess() then status.latestImage else ""
    }

    function CacheImage(): string {
      if IsSuccess() then status.latestCacheImage else ""
    }
  }

  /** Indexing a Go map: the zero value for a missing key. */
  function Lookup(m: map<string, string>, key: string): string {
    if key in m then m[key] else ""
  }

  function BuildName(image: string, number: int): string {
    image + "-build-" + Text.FormatInt(number)
  }

  /** Builds of one image have distinct names exactly when they have distinct numbers. */
  lemma BuildNameInjective(image: string, m: int, n: int)
    ensures BuildName(image, m) == BuildName(image, n) <==> m == n
  {
    var p := image + "-build-";
    assert BuildName(image, m)[|p|..] == Text.FormatInt(m) && BuildName(image, n)[|p|..] == Text.FormatInt(n);
    Text.ParseFormatInt(m);
    Text.ParseFormatInt(n);
  }

  /** image_builds.go:111-125: what the next build may reuse. A failed build hands on what it was given. */
  function LastBuildOf(latest: Option<Build>): Option<LastBuild> {
    match latest
    case None => None
    case Some(b) =>
      if b.IsFailure() then b.spec.lastBuild
      else Some(LastBuild(b.BuiltImage(), b.CacheImage(), b.Stack()))
  }

  /** image_builds.go:38-87. Image annotations are copied to the build; the later map wins. */
  function NewBuild(image: Image, source: SourceResolver, builder: Builder, latest: Option<Build>,
                    reasons: string, changes: string, number: int, priorityClass: string, created: nat): (b: Build)
    requires source.status.source.Some?
  {
    Build(
      BuildName(image.name, number),
      image.labels + map[BUILD_NUMBER_LABEL := Text.FormatInt(number), IMAGE_LABEL := image.name,
                         IMAGE_GENERATION_LABEL := Text.FormatInt(image.generation)],
      image.annotations + map[BUILD_REASON_ANNOTATION := reasons, BUILD_CHANGES_ANNOTATION := changes,
                              BUILDER_NAME_ANNOTATION := builder.name, BUILDER_KIND_ANNOTATION := builder.kind],
      created,
      BuildSpec(source.status.source.value.AsConfig(), image.spec.Settings(), builder.record.latestImage,
                builder.record.runImage, LastBuildOf(latest), priorityClass),
      NEW_BUILD_STATUS)
  }

  /** reconcile_build.go:196-203. */
  function BuildCounter(latest: Option<Build>): Result<int> {
    match latest
    case None => Ok(0)
    case Some(b) => Text.ParseInt(Lookup(b.labels, BUILD_NUMBER_LABEL))
  }
}
