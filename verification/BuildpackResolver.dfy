// pkg/cnb/buildpack_resolver.go: which buildpack a reference means.
module BuildpackResolver {
  import opened Common
  import opened SemanticVersion
  import opened CnbApi
  import opened DependencyTree
  import opened CachedKeychain
  import Sorting

  datatype Kind = NoKind | BuildpackKind | ClusterBuildpackKind | ClusterStoreKind | OtherKind(text: string)

  datatype ObjectReference = ObjectReference(kind: Kind, name: string, namespace: string)

  /** K8sRemoteBuildpack: a buildpack with the credentials and the object it comes from. */
  datatype Remote = Remote(buildpack: BuildpackStatus, secretRef: SecretRef, source: ObjectReference)

  datatype Buildpack = Buildpack(name: string, namespace: string, serviceAccountName: string, buildpacks: seq<BuildpackStatus>)

  datatype ServiceAccountRef = ServiceAccountRef(namespace: string, name: string)

  /** A ClusterBuildpack or a ClusterStore. */
  datatype ClusterSource = ClusterSource(kind: Kind, name: string, serviceAccountRef: Option<ServiceAccountRef>, buildpacks: seq<BuildpackStatus>)

  datatype Resolver = Resolver(clusterStore: Option<ClusterSource>, buildpacks: seq<Buildpack>, clusterBuildpacks: seq<ClusterSource>)

  datatype BuilderBuildpackRef = BuilderBuildpackRef(kind: Kind, name: string, id: string, version: string, image: string)

  function BuildpackSecret(bp: Buildpack): SecretRef {
    SecretRef(bp.serviceAccountName, bp.namespace, [])
  }

  function ClusterSecret(c: ClusterSource): SecretRef {
    match c.serviceAccountRef
    case None => SecretRef("", "", [])
    case Some(ref) => SecretRef(ref.name, ref.namespace, [])
  }

  /** The buildpacks of one object that carry the id. */
  function Matching(statuses: seq<BuildpackStatus>, id: string, secretRef: SecretRef, source: ObjectReference): seq<Remote>
    decreases |statuses|
  {
    if statuses == [] then []
    else
      var last := statuses[|statuses| - 1];
      Matching(statuses[..|statuses| - 1], id, secretRef, source)
      + if last.id == id then [Remote(last, secretRef, source)] else []
  }

  function OfBuildpack(id: string, bp: Buildpack): seq<Remote> {
    Matching(bp.buildpacks, id, BuildpackSecret(bp), ObjectReference(BuildpackKind, bp.name, bp.namespace))
  }

  function OfCluster(id: string, c: ClusterSource): seq<Remote> {
    Matching(c.buildpacks, id, ClusterSecret(c), ObjectReference(c.kind, c.name, ""))
  }

  function FromBuildpacks(id: string, bps: seq<Buildpack>): seq<Remote>
    decreases |bps|
  {
    if bps == [] then [] else FromBuildpacks(id, bps[..|bps| - 1]) + OfBuildpack(id, bps[|bps| - 1])
  }

  function FromClusterBuildpacks(id: string, cs: seq<ClusterSource>): seq<Remote>
    decreases |cs|
  {
    if cs == [] then [] else FromClusterBuildpacks(id, cs[..|cs| - 1]) + OfCluster(id, cs[|cs| - 1])
  }

  function FromClusterStore(id: string, store: Option<ClusterSource>): seq<Remote> {
    if store.None? then [] else OfCluster(id, store.value)
  }

  /** buildpack_resolver.go:73-90: Buildpacks first, then ClusterBuildpacks, then the ClusterStore. */
  function Candidates(r: Resolver, id: string): seq<Remote> {
    FromBuildpacks(id, r.buildpacks) + FromClusterBuildpacks(id, r.clusterBuildpacks) + FromClusterStore(id, r.clusterStore)
  }

  // Choosing among candidates.

  function Precedence(b: Remote): SemVer {
    match b.buildpack.version.parsed
    case Some(v) => v
    case None => SemVer(0, 0, 0, [])
  }

  predicate VersionLess(a: Remote, b: Remote) {
    SemanticVersion.Less(Precedence(a), Precedence(b))
  }

  lemma VersionOrder()
    ensures Sorting.StrictWeakOrder(VersionLess)
  {
    forall x: Remote ensures !VersionLess(x, x) {
      LessLaws(Precedence(x), Precedence(x), Precedence(x));
    }
    forall x: Remote, y: Remote, z: Remote
      ensures VersionLess(x, y) && VersionLess(y, z) ==> VersionLess(x, z)
      ensures VersionLess(x, z) ==> VersionLess(x, y) || VersionLess(y, z)
    {
      var a, b, c := Precedence(x), Precedence(y), Precedence(z);
      LessLaws(a, b, c);
      LessLaws(b, a, c);
    }
  }

  predicate AllParse(candidates: seq<Remote>) {
    forall b :: b in candidates ==> b.buildpack.version.parsed.Some?
  }

  /** buildpack_resolver.go:260-272: sort in place, take the last. */
  function HighestVersion(candidates: seq<Remote>): Result<Remote>
    requires candidates != []
  {
    if !AllParse(candidates) then Err("cannot find buildpack with latest version due to invalid semver")
    else
      VersionOrder();
      Sorting.StableSortCorrect(candidates, VersionLess);
      PermutationMembers(Sorting.StableSort(candidates, VersionLess), candidates);
      var sorted := Sorting.StableSort(candidates, VersionLess);
      Ok(sorted[|sorted| - 1])
  }

  function FirstWithVersion(candidates: seq<Remote>, version: string): Option<Remote> {
    if candidates == [] then None
    else if candidates[0].buildpack.version.text == version then Some(candidates[0])
    else FirstWithVersion(candidates[1..], version)
  }

  /** buildpack_resolver.go:98-116. */
  function Select(candidates: seq<Remote>, version: string): Result<Remote> {
    if candidates == [] then Err("could not find buildpack with id")
    else if version == "" then HighestVersion(candidates)
    else
      match FirstWithVersion(candidates, version)
      case None => Err("could not find buildpack with id and version")
      case Some(b) => Ok(b)
  }

  function ResolveId(r: Resolver, id: string, version: string): Result<Remote> {
    Select(Candidates(r, id), version)
  }

  // Independent descriptions.

  /** Every buildpack there is, in the order of the search. */
  function All(r: Resolver): seq<Remote> {
    Flatten(r.buildpacks) + FlattenCluster(r.clusterBuildpacks) + if r.clusterStore.None? then [] else Whole(r.clusterStore.value)
  }

  function Remotes(statuses: seq<BuildpackStatus>, secretRef: SecretRef, source: ObjectReference): seq<Remote> {
    seq(|statuses|, i requires 0 <= i < |statuses| => Remote(statuses[i], secretRef, source))
  }

  function Whole(c: ClusterSource): seq<Remote> {
    Remotes(c.buildpacks, ClusterSecret(c), ObjectReference(c.kind, c.name, ""))
  }

  function Flatten(bps: seq<Buildpack>): seq<Remote>
    decreases |bps|
  {
    if bps == [] then []
    else
      var bp := bps[|bps| - 1];
      Flatten(bps[..|bps| - 1]) + Remotes(bp.buildpacks, BuildpackSecret(bp), ObjectReference(BuildpackKind, bp.name, bp.namespace))
  }

  function FlattenCluster(cs: seq<ClusterSource>): seq<Remote>
    decreases |cs|
  {
    if cs == [] then [] else FlattenCluster(cs[..|cs| - 1]) + Whole(cs[|cs| - 1])
  }

  function WithId(all: seq<Remote>, id: string): (r: seq<Remote>)
    ensures forall b :: b in r <==> b in all && b.buildpack.id == id
    decreases |all|
  {
    if all == [] then []
    else
      var rest, last := all[..|all| - 1], all[|all| - 1];
      assert all == rest + [last];
      WithId(rest, id) + if last.buildpack.id == id then [last] else []
  }

  lemma {:induction false} WithIdAppend(a: seq<Remote>, b: seq<Remote>, id: string)
    ensures WithId(a + b, id) == WithId(a, id) + WithId(b, id)
    decreases |b|
  {
    if b == [] {
      assert a + b == a;
    } else {
      assert (a + b)[..|a + b| - 1] == a + b[..|b| - 1];
      WithIdAppend(a, b[..|b| - 1], id);
    }
  }

  lemma {:induction false} MatchingIsWithId(statuses: seq<BuildpackStatus>, id: string, secretRef: SecretRef, source: ObjectReference)
    ensures Matching(statuses, id, secretRef, source) == WithId(Remotes(statuses, secretRef, source), id)
    decreases |statuses|
  {
    if statuses != [] {
      var all := Remotes(statuses, secretRef, source);
      MatchingIsWithId(statuses[..|statuses| - 1], id, secretRef, source);
      assert all[..|all| - 1] == Remotes(statuses[..|statuses| - 1], secretRef, source);
    }
  }

  lemma {:induction false} BuildpacksWithId(bps: seq<Buildpack>, id: string)
    ensures FromBuildpacks(id, bps) == WithId(Flatten(bps), id)
    decreases |bps|
  {
    if bps != [] {
      var rest, bp := bps[..|bps| - 1], bps[|bps| - 1];
      var source := ObjectReference(BuildpackKind, bp.name, bp.namespace);
      BuildpacksWithId(rest, id);
      MatchingIsWithId(bp.buildpacks, id, BuildpackSecret(bp), source);
      WithIdAppend(Flatten(rest), Remotes(bp.buildpacks, BuildpackSecret(bp), source), id);
    }
  }

  lemma {:induction false} ClusterBuildpacksWithId(cs: seq<ClusterSource>, id: string)
    ensures FromClusterBuildpacks(id, cs) == WithId(FlattenCluster(cs), id)
    decreases |cs|
  {
    if cs != [] {
      var rest, c := cs[..|cs| - 1], cs[|cs| - 1];
      ClusterBuildpacksWithId(rest, id);
      MatchingIsWithId(c.buildpacks, id, ClusterSecret(c), ObjectReference(c.kind, c.name, ""));
      WithIdAppend(FlattenCluster(rest), Whole(c), id);
    }
  }

  /** The candidates for an id are the buildpacks with that id among all there are, in search order. */
  lemma CandidatesAreAllWithId(r: Resolver, id: string)
    ensures Candidates(r, id) == WithId(All(r), id)
  {
    BuildpacksWithId(r.buildpacks, id);
    ClusterBuildpacksWithId(r.clusterBuildpacks, id);
    var a, b := Flatten(r.buildpacks), FlattenCluster(r.clusterBuildpacks);
    WithIdAppend(a, b, id);
    if r.clusterStore.Some? {
      var c := r.clusterStore.value;
      MatchingIsWithId(c.buildpacks, id, ClusterSecret(c), ObjectReference(c.kind, c.name, ""));
      WithIdAppend(a + b, Whole(c), id);
    } else {
      assert a + b + [] == a + b;
    }
  }

  lemma {:induction false} FirstWithVersionMeaning(candidates: seq<Remote>, version: string)
    ensures FirstWithVersion(candidates, version).Some? <==> exists b :: b in candidates && b.buildpack.version.text == version
    ensures FirstWithVersion(candidates, version).Some? ==>
      exists k: nat :: k < |candidates| && FirstWithVersion(candidates, version) == Some(candidates[k])
        && candidates[k].buildpack.version.text == version
        && forall j :: 0 <= j < k ==> candidates[j].buildpack.version.text != version
  {
    if candidates != [] {
      assert candidates[0] in candidates;
      if candidates[0].buildpack.version.text != version {
        var rest := candidates[1..];
        FirstWithVersionMeaning(rest, version);
        assert forall b :: b in candidates ==> b == candidates[0] || b in rest;
        if FirstWithVersion(rest, version).Some? {
          var k: nat :| k < |rest| && FirstWithVersion(rest, version) == Some(rest[k])
            && rest[k].buildpack.version.text == version
            && forall j :: 0 <= j < k ==> rest[j].buildpack.version.text != version;
          assert candidates[k + 1] == rest[k];
          assert forall j :: 0 <= j < k + 1 ==> j == 0 || candidates[j] == rest[j - 1];
        }
      }
    }
  }

  /** Resolution by id. It succeeds exactly when a buildpack with the id exists and, with a version given, one has that
      version, or, with none given, all their versions parse. */
  lemma ResolvesIff(r: Resolver, id: string, version: string)
    ensures ResolveId(r, id, version).Ok? <==>
      && (exists b :: b in All(r) && b.buildpack.id == id)
      && (if version == "" then AllParse(WithId(All(r), id))
          else exists b :: b in All(r) && b.buildpack.id == id && b.buildpack.version.text == version)
    ensures ResolveId(r, id, version).Ok? ==>
      var b := ResolveId(r, id, version).value;
      b in All(r) && b.buildpack.id == id && (version != "" ==> b.buildpack.version.text == version)
  {
    var candidates := WithId(All(r), id);
    CandidatesAreAllWithId(r, id);
    FirstWithVersionMeaning(candidates, version);
    if candidates == [] {
      assert forall b :: b in All(r) ==> b.buildpack.id != id;
    } else {
      assert candidates[0] in candidates;
      if version == "" && AllParse(candidates) {
        HighestIsLastMaximal(candidates);
      }
    }
  }

  /** A pinned version takes the first match in the order Buildpack, ClusterBuildpack, ClusterStore. */
  lemma PinnedTakesFirst(r: Resolver, id: string, version: string) returns (k: nat)
    requires version != "" && ResolveId(r, id, version).Ok?
    ensures var candidates := WithId(All(r), id);
      && k < |candidates| && ResolveId(r, id, version) == Ok(candidates[k]) && candidates[k].buildpack.version.text == version
      && forall j :: 0 <= j < k ==> candidates[j].buildpack.version.text != version
  {
    CandidatesAreAllWithId(r, id);
    var candidates := WithId(All(r), id);
    FirstWithVersionMeaning(candidates, version);
    k :| k < |candidates| && FirstWithVersion(candidates, version) == Some(candidates[k])
      && candidates[k].buildpack.version.text == version
      && forall j :: 0 <= j < k ==> candidates[j].buildpack.version.text != version;
  }

  /** Sorting and taking the last is a single pass for the latest maximum, for every stable sort there is. */
  lemma HighestIsLastMaximal(candidates: seq<Remote>)
    requires candidates != [] && AllParse(candidates)
    ensures HighestVersion(candidates) == Ok(Sorting.LastMax(candidates, VersionLess))
    ensures Sorting.LastMax(candidates, VersionLess) in candidates
    ensures forall sorted :: Sorting.IsStableSortOf(sorted, candidates, VersionLess) ==>
      sorted != [] && HighestVersion(candidates) == Ok(sorted[|sorted| - 1])
  {
    VersionOrder();
    var sorted := Sorting.StableSort(candidates, VersionLess);
    Sorting.StableSortCorrect(candidates, VersionLess);
    Sorting.StableSortLastIsLastMax(sorted, candidates, VersionLess);
    var k := Sorting.LastMaxIsLastMaximal(candidates, VersionLess);
    forall other | Sorting.IsStableSortOf(other, candidates, VersionLess)
      ensures other != [] && HighestVersion(candidates) == Ok(other[|other| - 1])
    {
      Sorting.StableSortLastIsLastMax(other, candidates, VersionLess);
    }
  }

  /** Without a version the latest of the highest versions wins: nothing has precedence over it, and everything behind
      it in search order is strictly lower. */
  lemma UnpinnedTakesHighest(r: Resolver, id: string) returns (k: nat)
    requires ResolveId(r, id, "").Ok?
    ensures var candidates := WithId(All(r), id);
      && k < |candidates| && ResolveId(r, id, "") == Ok(candidates[k])
      && (forall j :: 0 <= j < |candidates| ==> !VersionLess(candidates[k], candidates[j]))
      && (forall j :: k < j < |candidates| ==> VersionLess(candidates[j], candidates[k]))
  {
    var candidates := WithId(All(r), id);
    CandidatesAreAllWithId(r, id);
    HighestIsLastMaximal(candidates);
    VersionOrder();
    k := Sorting.LastMaxIsLastMaximal(candidates, VersionLess);
  }

  // References of every kind.

  function FindBuildpack(name: string, bps: seq<Buildpack>): Option<Buildpack> {
    if bps == [] then None else if bps[0].name == name then Some(bps[0]) else FindBuildpack(name, bps[1..])
  }

  function FindClusterBuildpack(name: string, cs: seq<ClusterSource>): Option<ClusterSource> {
    if cs == [] then None else if cs[0].name == name then Some(cs[0]) else FindClusterBuildpack(name, cs[1..])
  }

  /** The buildpacks of the object that a kind and a name point at, with what to attach to them. */
  function FindObject(r: Resolver, kind: Kind, name: string): Result<(seq<BuildpackStatus>, SecretRef, ObjectReference)> {
    if kind == BuildpackKind then
      match FindBuildpack(name, r.buildpacks)
      case None => Err("no buildpack with name " + name)
      case Some(bp) => Ok((bp.buildpacks, BuildpackSecret(bp), ObjectReference(BuildpackKind, bp.name, bp.namespace)))
    else if kind == ClusterBuildpackKind then
      match FindClusterBuildpack(name, r.clusterBuildpacks)
      case None => Err("no cluster buildpack with name " + name)
      case Some(c) => Ok((c.buildpacks, ClusterSecret(c), ObjectReference(c.kind, c.name, "")))
    else Err("kind must be either Buildpack or ClusterBuildpack")
  }

  /** buildpack_resolver.go:190-237: the root of the only dependency tree. */
  function FromObject(r: Resolver, kind: Kind, name: string): Result<Remote> {
    match FindObject(r, kind, name)
    case Err(e) => Err(e)
    case Ok((bps, secretRef, source)) =>
      var roots := Unused(bps, bps);
      if |roots| != 1 then Err("unexpected number of root buildpacks")
      else
        assert roots[0] in roots;
        Ok(Remote(Lookup(bps)[roots[0]], secretRef, source))
  }

  /** buildpack_resolver.go:43-117. */
  function Resolve(r: Resolver, ref: BuilderBuildpackRef): Result<Remote> {
    if ref.kind == BuildpackKind && ref.id != "" then
      match FindBuildpack(ref.name, r.buildpacks)
      case None => Err("buildpack not found: " + ref.name)
      case Some(bp) => Select(OfBuildpack(ref.id, bp), ref.version)
    else if ref.kind == ClusterBuildpackKind && ref.id != "" then
      match FindClusterBuildpack(ref.name, r.clusterBuildpacks)
      case None => Err("cluster buildpack not found: " + ref.name)
      case Some(c) => Select(OfCluster(ref.id, c), ref.version)
    else if ref.kind != NoKind then
      match FromObject(r, ref.kind, ref.name)
      case Err(e) => Err(e)
      case Ok(b) => Select([b], ref.version)
    else if ref.id != "" then ResolveId(r, ref.id, ref.version)
    else if ref.image != "" then Err("using images in builders not currently supported")
    else Err("invalid buildpack reference")
  }

  /** The dependency trees of an object, if there is one, can be built: its references are closed and acyclic. */
  ghost predicate TreesExist(r: Resolver, kind: Kind, name: string, rank: string -> nat) {
    FindObject(r, kind, name).Ok? ==>
      var lookup := Lookup(FindObject(r, kind, name).value.0);
      Closed(lookup) && Ranked(lookup, rank)
  }

  /** Trees are built only for an object that a reference names without saying which of its buildpacks it wants. */
  ghost predicate Buildable(r: Resolver, ref: BuilderBuildpackRef, rank: string -> nat) {
    ref.kind != NoKind && ref.id == "" ==> TreesExist(r, ref.kind, ref.name, rank)
  }

  lemma {:induction false} FoundBuildpack(name: string, bps: seq<Buildpack>)
    ensures FindBuildpack(name, bps).Some? ==> FindBuildpack(name, bps).value in bps
  {
    if bps != [] && bps[0].name != name {
      FoundBuildpack(name, bps[1..]);
    }
  }

  lemma {:induction false} FoundClusterBuildpack(name: string, cs: seq<ClusterSource>)
    ensures FindClusterBuildpack(name, cs).Some? ==> FindClusterBuildpack(name, cs).value in cs
  {
    if cs != [] && cs[0].name != name {
      FoundClusterBuildpack(name, cs[1..]);
    }
  }

  // Everything that resolves is one of the buildpacks there are.

  lemma {:induction false} RemotesOfBuildpack(bps: seq<Buildpack>, bp: Buildpack, b: Remote)
    requires bp in bps
    requires b in Remotes(bp.buildpacks, BuildpackSecret(bp), ObjectReference(BuildpackKind, bp.name, bp.namespace))
    ensures b in Flatten(bps)
    decreases |bps|
  {
    var rest, last := bps[..|bps| - 1], bps[|bps| - 1];
    if bp != last {
      assert bp in rest;
      RemotesOfBuildpack(rest, bp, b);
    }
  }

  lemma {:induction false} RemotesOfClusterBuildpack(cs: seq<ClusterSource>, c: ClusterSource, b: Remote)
    requires c in cs && b in Whole(c)
    ensures b in FlattenCluster(cs)
    decreases |cs|
  {
    var rest, last := cs[..|cs| - 1], cs[|cs| - 1];
    if c != last {
      assert c in rest;
      RemotesOfClusterBuildpack(rest, c, b);
    }
  }

  lemma SelectedIsCandidate(candidates: seq<Remote>, version: string)
    ensures Select(candidates, version).Ok? ==> Select(candidates, version).value in candidates
  {
    FirstWithVersionMeaning(candidates, version);
    if candidates != [] && version == "" && AllParse(candidates) {
      HighestIsLastMaximal(candidates);
    }
  }

  lemma ObjectInAll(r: Resolver, kind: Kind, name: string, b: BuildpackStatus)
    requires FindObject(r, kind, name).Ok? && b in FindObject(r, kind, name).value.0
    ensures var (_, secretRef, source) := FindObject(r, kind, name).value; Remote(b, secretRef, source) in All(r)
  {
    var (bps, secretRef, source) := FindObject(r, kind, name).value;
    var i :| 0 <= i < |bps| && bps[i] == b;
    var remote := Remote(b, secretRef, source);
    assert Remotes(bps, secretRef, source)[i] == remote;
    if kind == BuildpackKind {
      FoundBuildpack(name, r.buildpacks);
      RemotesOfBuildpack(r.buildpacks, FindBuildpack(name, r.buildpacks).value, remote);
    } else {
      FoundClusterBuildpack(name, r.clusterBuildpacks);
      RemotesOfClusterBuildpack(r.clusterBuildpacks, FindClusterBuildpack(name, r.clusterBuildpacks).value, remote);
    }
  }

  lemma MatchingInAll(r: Resolver, kind: Kind, name: string, id: string, b: Remote)
    requires FindObject(r, kind, name).Ok?
    requires var (bps, secretRef, source) := FindObject(r, kind, name).value; b in Matching(bps, id, secretRef, source)
    ensures b in All(r)
  {
    var (bps, secretRef, source) := FindObject(r, kind, name).value;
    MatchingIsWithId(bps, id, secretRef, source);
    assert b in Remotes(bps, secretRef, source);
    var i :| 0 <= i < |bps| && Remotes(bps, secretRef, source)[i] == b;
    assert bps[i] in bps;
    ObjectInAll(r, kind, name, bps[i]);
  }

  lemma ResolvedInAll(r: Resolver, ref: BuilderBuildpackRef)
    ensures Resolve(r, ref).Ok? ==> Resolve(r, ref).value in All(r)
  {
    if Resolve(r, ref).Ok? {
      var b := Resolve(r, ref).value;
      if (ref.kind == BuildpackKind || ref.kind == ClusterBuildpackKind) && ref.id != "" {
        var (bps, secretRef, source) := FindObject(r, ref.kind, ref.name).value;
        SelectedIsCandidate(Matching(bps, ref.id, secretRef, source), ref.version);
        MatchingInAll(r, ref.kind, ref.name, ref.id, b);
      } else if ref.kind != NoKind {
        var root, bps := FromObject(r, ref.kind, ref.name).value, FindObject(r, ref.kind, ref.name).value.0;
        assert Unused(bps, bps)[0] in Unused(bps, bps);
        SelectedIsCandidate([root], ref.version);
        ObjectInAll(r, ref.kind, ref.name, root.buildpack);
      } else {
        ResolvesIff(r, ref.id, ref.version);
      }
    }
  }

  // The loops.

  method MatchingLoop(statuses: seq<BuildpackStatus>, id: string, secretRef: SecretRef, source: ObjectReference) returns (matching: seq<Remote>)
    ensures matching == Matching(statuses, id, secretRef, source)
  {
    matching := [];
    for i := 0 to |statuses|
      invariant matching == Matching(statuses[..i], id, secretRef, source)
    {
      assert statuses[..i + 1][..i] == statuses[..i];
      if statuses[i].id == id {
        matching := matching + [Remote(statuses[i], secretRef, source)];
      }
    }
    assert statuses[..|statuses|] == statuses;
  }

  method ResolveFromBuildpack(id: string, bps: seq<Buildpack>) returns (matching: seq<Remote>)
    ensures matching == FromBuildpacks(id, bps)
  {
    matching := [];
    for i := 0 to |bps|
      invariant matching == FromBuildpacks(id, bps[..i])
    {
      assert bps[..i + 1][..i] == bps[..i];
      var source := ObjectReference(BuildpackKind, bps[i].name, bps[i].namespace);
      var some := MatchingLoop(bps[i].buildpacks, id, BuildpackSecret(bps[i]), source);
      matching := matching + some;
    }
    assert bps[..|bps|] == bps;
  }

  method ResolveFromClusterBuildpack(id: string, cs: seq<ClusterSource>) returns (matching: seq<Remote>)
    ensures matching == FromClusterBuildpacks(id, cs)
  {
    matching := [];
    for i := 0 to |cs|
      invariant matching == FromClusterBuildpacks(id, cs[..i])
    {
      assert cs[..i + 1][..i] == cs[..i];
      var some := MatchingLoop(cs[i].buildpacks, id, ClusterSecret(cs[i]), ObjectReference(cs[i].kind, cs[i].name, ""));
      matching := matching + some;
    }
    assert cs[..|cs|] == cs;
  }

  method ResolveFromObjectReference(r: Resolver, kind: Kind, name: string, ghost rank: string -> nat) returns (b: Result<Remote>)
    requires TreesExist(r, kind, name, rank)
    ensures b == FromObject(r, kind, name)
  {
    var found := FindObject(r, kind, name);
    if found.Err? {
      return Err(found.error);
    }
    var (bps, secretRef, source) := found.value;
    var trees := NewTree(bps, rank);
    if |trees| != 1 {
      return Err("unexpected number of root buildpacks");
    }
    assert IsTree(Lookup(bps), Unused(bps, bps)[0], trees[0]);
    b := Ok(Remote(trees[0].buildpack, secretRef, source));
  }

  method ResolveFromAll(r: Resolver, id: string) returns (matching: seq<Remote>)
    ensures matching == Candidates(r, id)
  {
    matching := ResolveFromBuildpack(id, r.buildpacks);
    var fromCluster := ResolveFromClusterBuildpack(id, r.clusterBuildpacks);
    matching := matching + fromCluster;
    if r.clusterStore.Some? {
      var c := r.clusterStore.value;
      var fromStore := MatchingLoop(c.buildpacks, id, ClusterSecret(c), ObjectReference(c.kind, c.name, ""));
      matching := matching + fromStore;
    }
  }

  method ResolveFromNamed(r: Resolver, ref: BuilderBuildpackRef) returns (matching: Result<seq<Remote>>)
    requires ref.kind == BuildpackKind || ref.kind == ClusterBuildpackKind
    ensures matching.Ok? ==> ref.id != "" ==> Resolve(r, ref) == Select(matching.value, ref.version)
    ensures matching.Err? ==> ref.id != "" ==> Resolve(r, ref) == Err(matching.error)
  {
    if ref.kind == BuildpackKind {
      var bp := FindBuildpack(ref.name, r.buildpacks);
      if bp.None? {
        return Err("buildpack not found: " + ref.name);
      }
      var found := MatchingLoop(bp.value.buildpacks, ref.id, BuildpackSecret(bp.value),
                                ObjectReference(BuildpackKind, bp.value.name, bp.value.namespace));
      return Ok(found);
    }
    var c := FindClusterBuildpack(ref.name, r.clusterBuildpacks);
    if c.None? {
      return Err("cluster buildpack not found: " + ref.name);
    }
    var found := MatchingLoop(c.value.buildpacks, ref.id, ClusterSecret(c.value), ObjectReference(c.value.kind, c.value.name, ""));
    matching := Ok(found);
  }

  method ResolveReference(r: Resolver, ref: BuilderBuildpackRef, ghost rank: string -> nat) returns (b: Result<Remote>)
    requires Buildable(r, ref, rank)
    ensures b == Resolve(r, ref)
  {
    var matching: Result<seq<Remote>>;
    if (ref.kind == BuildpackKind || ref.kind == ClusterBuildpackKind) && ref.id != "" {
      matching := ResolveFromNamed(r, ref);
    } else if ref.kind != NoKind {
      var root := ResolveFromObjectReference(r, ref.kind, ref.name, rank);
      matching := if root.Err? then Err(root.error) else Ok([root.value]);
    } else if ref.id != "" {
      var all := ResolveFromAll(r, ref.id);
      matching := Ok(all);
    } else {
      matching := Err(if ref.image != "" then "using images in builders not currently supported" else "invalid buildpack reference");
    }
    b := if matching.Err? then Err(matching.error) else Select(matching.value, ref.version);
  }
}
