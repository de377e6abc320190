// pkg/cnb/create_builder.go: from the order in a builder's spec to its image.
module CreateBuilder {
  import opened Common
  import opened CnbApi
  import opened SemanticVersion
  import opened BuildpackResolver
  import opened BuildpackFetcher
  import opened BuilderBuilder
  import opened Mixins
  import opened CachedKeychain

  datatype RemoteRef = RemoteRef(info: DescriptiveInfo, optional: bool, layers: seq<Layer>)

  /** The layers that frame those of the buildpacks. */
  datatype Frame = Frame(defaultDirs: V1Layer, lifecycle: V1Layer, stackToml: V1Layer, orderToml: seq<OrderEntry> -> V1Layer)

  /** What the builder takes from its stack and its lifecycle. */
  datatype Platform = Platform(stackId: string, mixins: seq<string>, platformApis: seq<Version>, buildpackApis: seq<string>)

  datatype BuilderImage = BuilderImage(layers: seq<V1Layer>, metadata: Metadata, order: seq<OrderEntry>, buildpacks: seq<DescriptiveInfo>)

  const SUPPORTED_PLATFORM_APIS := ["0.3", "0.4", "0.5", "0.6", "0.7", "0.8"]

  predicate PlatformSupported(p: Platform) {
    exists api :: api in SUPPORTED_PLATFORM_APIS && exists v :: v in p.platformApis && v.text == api
  }

  /** builder_builder.go:222-229. None is the panic of semver.MustParse, at a version that does not parse and that no
      version of at least 0.7 precedes. */
  function RelaxedMixinContract(apis: seq<Version>): Option<bool> {
    if apis == [] then Some(false)
    else if apis[0].parsed.None? then None
    else if !SemanticVersion.Less(apis[0].parsed.value, SemVer(0, 7, 0, [])) then Some(true)
    else RelaxedMixinContract(apis[1..])
  }

  /** The contract is read off the lifecycle only when there is a buildpack to validate. */
  predicate BuilderSupported(p: Platform, m: Layers) {
    var relaxed := RelaxedMixinContract(p.platformApis);
    && PlatformSupported(p)
    && (m != map[] ==> relaxed.Some?)
    && forall k :: k in m ==> Supported(m[k].layerInfo, p.buildpackApis, p.stackId, p.mixins, relaxed.value)
  }

  method ReadMixinContract(apis: seq<Version>) returns (relaxed: Option<bool>)
    ensures relaxed == RelaxedMixinContract(apis)
  {
    for i := 0 to |apis|
      invariant RelaxedMixinContract(apis) == RelaxedMixinContract(apis[i..])
    {
      assert apis[i..][1..] == apis[i + 1..];
      if apis[i].parsed.None? {
        return None;
      }
      if !SemanticVersion.Less(apis[i].parsed.value, SemVer(0, 7, 0, [])) {
        return Some(true);
      }
    }
    return Some(false);
  }

  function BuildpackLayers(m: Layers, keys: seq<DescriptiveInfo>): seq<V1Layer>
    requires forall k :: k in keys ==> k in m
  {
    seq(|keys|, i requires 0 <= i < |keys| => m[keys[i]].v1Layer)
  }

  function ImageOf(frame: Frame, m: Layers, keys: seq<DescriptiveInfo>, order: seq<OrderEntry>): BuilderImage
    requires forall k :: k in keys ==> k in m
  {
    BuilderImage(
      Dedup([frame.defaultDirs, frame.lifecycle] + BuildpackLayers(m, keys) + [frame.stackToml, frame.orderToml(order)]),
      MetadataOf(m, keys), order, keys)
  }

  /** The image that some walk over the layer map leads to. */
  ghost predicate IsImageOf(image: BuilderImage, frame: Frame, m: Layers, order: seq<OrderEntry>) {
    exists keys :: SortedKeys(m, keys) && (forall k :: k in keys ==> k in m) && image == ImageOf(frame, m, keys, order)
  }

  lemma SortedIsImage(frame: Frame, m: Layers, keys: seq<DescriptiveInfo>, order: seq<OrderEntry>)
    requires SortedKeys(m, keys)
    ensures forall k :: k in keys ==> k in m
    ensures IsImageOf(ImageOf(frame, m, keys, order), frame, m, order) && ImageOf(frame, m, keys, order).buildpacks == keys
  {
    KeyMembers(m, keys);
  }

  /** Reproducible builders: all images made from the same layers are equal exactly when no two entries tie. */
  lemma ImageReproducible(frame: Frame, m: Layers, order: seq<OrderEntry>)
    ensures (forall a, b :: IsImageOf(a, frame, m, order) && IsImageOf(b, frame, m, order) ==> a == b) <==> NoTies(m)
  {
    SortDeterminedIff(m);
    if !NoTies(m) {
      var k1, k2 :| SortedKeys(m, k1) && SortedKeys(m, k2) && k1 != k2;
      SortedIsImage(frame, m, k1, order);
      SortedIsImage(frame, m, k2, order);
    }
  }

  lemma FramedDedup(before: seq<V1Layer>, middle: seq<V1Layer>, after: seq<V1Layer>, l: V1Layer)
    requires l in middle
    ensures exists k :: k in Dedup(before + middle + after) && k.diffId == l.diffId
    ensures NoRepeats(Dedup(before + middle + after))
  {
    assert l in before + middle + after;
    DedupLosesNothing(before + middle + after, l);
    DedupRepeatsNothing(before + middle + after);
  }

  /** No layer is lost on the way, and none is written twice. */
  lemma ImageHasEveryLayer(image: BuilderImage, frame: Frame, m: Layers, order: seq<OrderEntry>, k: DescriptiveInfo)
    requires IsImageOf(image, frame, m, order) && k in m
    ensures exists l :: l in image.layers && l.diffId == m[k].v1Layer.diffId
    ensures NoRepeats(image.layers)
  {
    var keys :| SortedKeys(m, keys) && (forall k :: k in keys ==> k in m) && image == ImageOf(frame, m, keys, order);
    KeyMembers(m, keys);
    var i :| 0 <= i < |keys| && keys[i] == k;
    var middle := BuildpackLayers(m, keys);
    assert middle[i] == m[k].v1Layer;
    FramedDedup([frame.defaultDirs, frame.lifecycle], middle, [frame.stackToml, frame.orderToml(order)], m[k].v1Layer);
  }

  class BuilderBldr {
    const frame: Frame
    const platform: Platform
    var order: seq<OrderEntry>
    var buildpackLayers: Layers

    constructor (f: Frame, p: Platform)
      ensures frame == f && platform == p && order == [] && buildpackLayers == map[]
    {
      frame, platform := f, p;
      order, buildpackLayers := [], map[];
    }

    /** builder_builder.go:89-99. */
    method AddGroup(buildpacks: seq<RemoteRef>)
      modifies this
      ensures buildpackLayers == AddGroups(old(buildpackLayers), buildpacks)
      ensures order == old(order) + [OrderEntry(GroupOf(buildpacks))]
    {
      var group: seq<BuildpackRef> := [];
      for i := 0 to |buildpacks|
        invariant group == GroupOf(buildpacks[..i]) && order == old(order)
        invariant buildpackLayers == AddGroups(old(buildpackLayers), buildpacks[..i])
      {
        var b := buildpacks[i];
        assert buildpacks[..i + 1][..i] == buildpacks[..i];
        group := group + [BuildpackRef(b.info.id, b.info.version, b.optional)];
        ghost var before := buildpackLayers;
        for j := 0 to |b.layers|
          invariant buildpackLayers == AddLayers(before, b.layers[..j]) && order == old(order)
        {
          assert b.layers[..j + 1][..j] == b.layers[..j];
          buildpackLayers := buildpackLayers[b.layers[j].info := b.layers[j]];
        }
        assert b.layers[..|b.layers|] == b.layers;
      }
      assert buildpacks[..|buildpacks|] == buildpacks;
      order := order + [OrderEntry(group)];
    }

    /** builder_builder.go:194-210. A panic, like an error, leaves no builder. */
    method ValidateBuilder(keys: seq<DescriptiveInfo>) returns (r: Result<()>)
      requires forall k :: k in keys <==> k in buildpackLayers
      ensures r.Ok? <==> BuilderSupported(platform, buildpackLayers)
    {
      if !PlatformSupported(platform) {
        return Err("unsupported platform apis in kpack lifecycle");
      }
      ghost var expected := RelaxedMixinContract(platform.platformApis);
      for i := 0 to |keys|
        invariant i > 0 ==> expected.Some?
        invariant forall j :: 0 <= j < i ==>
          Supported(buildpackLayers[keys[j]].layerInfo, platform.buildpackApis, platform.stackId, platform.mixins, expected.value)
      {
        assert keys[i] in buildpackLayers;
        var relaxed := ReadMixinContract(platform.platformApis);
        if relaxed.None? {
          return Err("panic: invalid semantic version");
        }
        var supported := Supports(buildpackLayers[keys[i]].layerInfo, platform.buildpackApis, platform.stackId, platform.mixins, relaxed.value);
        if supported.Err? {
          return Err("validating buildpack: " + supported.error);
        }
      }
      r := Ok(());
    }

    method CollectLayers(keys: seq<DescriptiveInfo>) returns (metadata: Metadata, layers: seq<V1Layer>)
      requires forall k :: k in keys ==> k in buildpackLayers
      ensures metadata == MetadataOf(buildpackLayers, keys) && layers == BuildpackLayers(buildpackLayers, keys)
    {
      metadata, layers := map[], [];
      for i := 0 to |keys|
        invariant metadata == MetadataOf(buildpackLayers, keys[..i])
        invariant layers == BuildpackLayers(buildpackLayers, keys[..i])
      {
        assert keys[..i + 1][..i] == keys[..i];
        metadata := Add(metadata, buildpackLayers[keys[i]]);
        layers := layers + [buildpackLayers[keys[i]].v1Layer];
      }
      assert keys[..|keys|] == keys;
    }

    /** builder_builder.go:105-188. writing is what became of writing the tar layers, appending and labelling. */
    method WriteableImage(writing: Result<()>) returns (r: Result<BuilderImage>)
      ensures r.Ok? <==> BuilderSupported(platform, buildpackLayers) && writing.Ok?
      ensures BuilderSupported(platform, buildpackLayers) && writing.Err? ==> r == Err(writing.error)
      ensures r.Ok? ==> IsImageOf(r.value, frame, buildpackLayers, order)
    {
      var keys := DeterministicSortBySize(buildpackLayers);
      KeyMembers(buildpackLayers, keys);
      var valid := ValidateBuilder(keys);
      if valid.Err? {
        return Err(valid.error);
      }
      var metadata, layers := CollectLayers(keys);
      if writing.Err? {
        return Err(writing.error);
      }
      var all := DeduplicateLayers([frame.defaultDirs, frame.lifecycle] + layers + [frame.stackToml, frame.orderToml(order)]);
      r := Ok(BuilderImage(all, metadata, order, keys));
      assert r.value == ImageOf(frame, buildpackLayers, keys, order);
    }
  }

  function GroupOf(buildpacks: seq<RemoteRef>): seq<BuildpackRef> {
    seq(|buildpacks|, i requires 0 <= i < |buildpacks| =>
      BuildpackRef(buildpacks[i].info.id, buildpacks[i].info.version, buildpacks[i].optional))
  }

  function AddGroups(m: Layers, buildpacks: seq<RemoteRef>): Layers
    decreases |buildpacks|
  {
    if buildpacks == [] then m
    else AddLayers(AddGroups(m, buildpacks[..|buildpacks| - 1]), buildpacks[|buildpacks| - 1].layers)
  }

  // Closure of what is assembled.

  /** A fetched buildpack: its layers are closed and include its own. */
  ghost predicate Complete(r: Resolver, b: RemoteRef) {
    ClosedLayers(r, b.layers) && HasInfo(b.layers, b.info.id, b.info.version)
  }

  lemma {:induction false} AddGroupsClosed(r: Resolver, m: Layers, buildpacks: seq<RemoteRef>)
    requires ClosedMap(r, m) && forall b :: b in buildpacks ==> Complete(r, b)
    ensures var m' := AddGroups(m, buildpacks);
      && ClosedMap(r, m') && (forall k :: k in m ==> k in m')
      && forall b :: b in buildpacks ==> HasKey(m', b.info.id, b.info.version)
    decreases |buildpacks|
  {
    if buildpacks != [] {
      var rest, last := buildpacks[..|buildpacks| - 1], buildpacks[|buildpacks| - 1];
      assert buildpacks == rest + [last] && last in buildpacks;
      AddGroupsClosed(r, m, rest);
      var before := AddGroups(m, rest);
      AddLayersClosed(r, before, last.layers);
      var m' := AddLayers(before, last.layers);
      forall b | b in buildpacks ensures HasKey(m', b.info.id, b.info.version) {
        if b in rest {
          var k :| k in before && k.id == b.info.id && k.version == b.info.version;
          assert k in m';
        }
      }
    }
  }

  /** Every buildpack the order names is collected. */
  ghost predicate OrderCollected(order: seq<OrderEntry>, m: Layers) {
    forall i, ref :: 0 <= i < |order| && ref in order[i].group ==> HasKey(m, ref.id, ref.version)
  }

  lemma OrderExtended(order: seq<OrderEntry>, m: Layers, m': Layers, buildpacks: seq<RemoteRef>)
    requires OrderCollected(order, m) && forall k :: k in m ==> k in m'
    requires forall b :: b in buildpacks ==> HasKey(m', b.info.id, b.info.version)
    ensures OrderCollected(order + [OrderEntry(GroupOf(buildpacks))], m')
  {
    var order' := order + [OrderEntry(GroupOf(buildpacks))];
    forall i, ref | 0 <= i < |order'| && ref in order'[i].group ensures HasKey(m', ref.id, ref.version) {
      if i < |order| {
        assert order'[i] == order[i];
        assert HasKey(m, ref.id, ref.version);
      } else {
        var j :| 0 <= j < |buildpacks| && GroupOf(buildpacks)[j] == ref;
        assert buildpacks[j] in buildpacks;
      }
    }
  }

  /** The metadata of a builder is closed under order references and has everything that the builder's order names. */
  ghost predicate BuilderClosed(r: Resolver, image: BuilderImage) {
    && (forall id, version, ref :: InMetadata(image.metadata, id, version) && ref in Refs(image.metadata[id][version].order) ==>
          MetadataAnswers(r, image.metadata, ref))
    && (forall i, ref :: 0 <= i < |image.order| && ref in image.order[i].group ==> InMetadata(image.metadata, ref.id, ref.version))
  }

  lemma ImageClosed(r: Resolver, image: BuilderImage, frame: Frame, m: Layers, order: seq<OrderEntry>)
    requires ClosedMap(r, m) && OrderCollected(order, m) && IsImageOf(image, frame, m, order)
    ensures BuilderClosed(r, image)
  {
    var keys :| SortedKeys(m, keys) && (forall k :: k in keys ==> k in m) && image == ImageOf(frame, m, keys, order);
    KeyMembers(m, keys);
    MetadataClosed(r, m, keys);
    MetadataMembers(m, keys);
    forall i, ref | 0 <= i < |order| && ref in order[i].group ensures InMetadata(image.metadata, ref.id, ref.version) {
      assert HasKey(m, ref.id, ref.version);
      var k :| k in m && k.id == ref.id && k.version == ref.version;
      assert k in keys;
    }
  }

  datatype SpecRef = SpecRef(ref: BuilderBuildpackRef, optional: bool)

  /** b is the buildpack that a reference of the spec resolves to, with all its layers. */
  ghost predicate FetchedAs(r: Resolver, spec: SpecRef, b: RemoteRef) {
    && Resolve(r, spec.ref).Ok? && b.info == InfoOf(Resolve(r, spec.ref).value.buildpack)
    && b.optional == spec.optional && Complete(r, b)
  }

  /** What the spec asks for does not lead into a cycle. */
  ghost predicate Resolvable(r: Resolver, spec: SpecRef, treeRank: string -> nat, rank: BuildpackStatus -> int) {
    Buildable(r, spec.ref, treeRank) && (Resolve(r, spec.ref).Ok? ==> rank(Resolve(r, spec.ref).value.buildpack) >= 0)
  }

  method FetchOne(fetcher: RemoteBuildpackFetcher, spec: SpecRef, ghost treeRank: string -> nat, ghost rank: BuildpackStatus -> int)
    returns (r: Result<RemoteRef>)
    requires fetcher.Valid() && SecretsFromResolver(fetcher.resolver) && Acyclic(fetcher.resolver, rank)
    requires Resolvable(fetcher.resolver, spec, treeRank, rank)
    modifies fetcher.keychains
    ensures fetcher.Valid() && (r.Ok? ==> FetchedAs(fetcher.resolver, spec, r.value))
  {
    var remote := ResolveReference(fetcher.resolver, spec.ref, treeRank);
    if remote.Err? {
      return Err(remote.error);
    }
    ResolvedInAll(fetcher.resolver, spec.ref);
    var info := fetcher.Fetch(remote.value, rank);
    if info.Err? {
      return Err(info.error);
    }
    FetchedClosed(fetcher.resolver, fetcher.Reg(), remote.value, rank);
    r := Ok(RemoteRef(info.value.info, spec.optional, info.value.layers));
  }

  /** create_builder.go:75-82: one group of the spec, fetched. */
  method FetchGroup(fetcher: RemoteBuildpackFetcher, group: seq<SpecRef>, ghost treeRank: string -> nat, ghost rank: BuildpackStatus -> int)
    returns (r: Result<seq<RemoteRef>>)
    requires fetcher.Valid() && SecretsFromResolver(fetcher.resolver) && Acyclic(fetcher.resolver, rank)
    requires forall s :: s in group ==> Resolvable(fetcher.resolver, s, treeRank, rank)
    modifies fetcher.keychains
    ensures fetcher.Valid()
    ensures r.Ok? ==> |r.value| == |group| && forall i :: 0 <= i < |group| ==> FetchedAs(fetcher.resolver, group[i], r.value[i])
  {
    var buildpacks: seq<RemoteRef> := [];
    for i := 0 to |group|
      invariant fetcher.Valid() && |buildpacks| == i
      invariant forall j :: 0 <= j < i ==> FetchedAs(fetcher.resolver, group[j], buildpacks[j])
    {
      var b := FetchOne(fetcher, group[i], treeRank, rank);
      if b.Err? {
        return Err(b.error);
      }
      buildpacks := buildpacks + [b.value];
    }
    r := Ok(buildpacks);
  }

  /** A group of the builder's order names, position by position, what the references of the spec resolve to. */
  ghost predicate GroupResolves(r: Resolver, spec: seq<SpecRef>, group: seq<BuildpackRef>) {
    && |group| == |spec|
    && forall j :: 0 <= j < |spec| ==>
         && Resolve(r, spec[j].ref).Ok?
         && var b := Resolve(r, spec[j].ref).value.buildpack;
            group[j] == BuildpackRef(b.id, b.version.text, spec[j].optional)
  }

  lemma FetchedGroupResolves(r: Resolver, spec: seq<SpecRef>, buildpacks: seq<RemoteRef>)
    requires |buildpacks| == |spec| && forall i :: 0 <= i < |spec| ==> FetchedAs(r, spec[i], buildpacks[i])
    ensures GroupResolves(r, spec, GroupOf(buildpacks)) && forall b :: b in buildpacks ==> Complete(r, b)
  {
  }

  /** The groups of the spec have been resolved, fetched and collected. */
  ghost predicate Assembled(r: Resolver, spec: seq<seq<SpecRef>>, order: seq<OrderEntry>, m: Layers) {
    && |order| == |spec| && ClosedMap(r, m) && OrderCollected(order, m)
    && forall i :: 0 <= i < |spec| ==> GroupResolves(r, spec[i], order[i].group)
  }

  lemma GroupAssembled(r: Resolver, spec: seq<seq<SpecRef>>, order: seq<OrderEntry>, m: Layers, group: seq<SpecRef>, buildpacks: seq<RemoteRef>)
    requires Assembled(r, spec, order, m)
    requires |buildpacks| == |group| && forall i :: 0 <= i < |group| ==> FetchedAs(r, group[i], buildpacks[i])
    ensures Assembled(r, spec + [group], order + [OrderEntry(GroupOf(buildpacks))], AddGroups(m, buildpacks))
  {
    FetchedGroupResolves(r, group, buildpacks);
    AddGroupsClosed(r, m, buildpacks);
    OrderExtended(order, m, AddGroups(m, buildpacks), buildpacks);
  }

  /** create_builder.go:72-91. The builder that comes out is closed: every reference of every buildpack in it, and every
      entry of its order, is in its metadata, whatever entries overwrote each other on the way. */
  method CreateBuilder(fetcher: RemoteBuildpackFetcher, spec: seq<seq<SpecRef>>, frame: Frame, platform: Platform, writing: Result<()>,
                       ghost treeRank: string -> nat, ghost rank: BuildpackStatus -> int) returns (r: Result<BuilderImage>)
    requires fetcher.Valid() && SecretsFromResolver(fetcher.resolver) && Acyclic(fetcher.resolver, rank)
    requires forall group, s :: group in spec && s in group ==> Resolvable(fetcher.resolver, s, treeRank, rank)
    modifies fetcher.keychains
    ensures r.Ok? ==> BuilderClosed(fetcher.resolver, r.value) && NoRepeats(r.value.layers)
    ensures r.Ok? ==> |r.value.order| == |spec|
    ensures r.Ok? ==> forall i :: 0 <= i < |spec| ==> GroupResolves(fetcher.resolver, spec[i], r.value.order[i].group)
  {
    var bldr := new BuilderBldr(frame, platform);
    for i := 0 to |spec|
      invariant fresh(bldr) && fetcher.Valid() && Assembled(fetcher.resolver, spec[..i], bldr.order, bldr.buildpackLayers)
    {
      var group := FetchGroup(fetcher, spec[i], treeRank, rank);
      if group.Err? {
        return Err(group.error);
      }
      GroupAssembled(fetcher.resolver, spec[..i], bldr.order, bldr.buildpackLayers, spec[i], group.value);
      assert spec[..i + 1] == spec[..i] + [spec[i]];
      bldr.AddGroup(group.value);
    }
    assert spec[..|spec|] == spec;
    r := bldr.WriteableImage(writing);
    if r.Ok? {
      ImageClosed(fetcher.resolver, r.value, bldr.frame, bldr.buildpackLayers, bldr.order);
      ImageRepeatsNothing(r.value, bldr.frame, bldr.buildpackLayers, bldr.order);
      assert r.value.order == bldr.order;
    }
  }

  lemma ImageRepeatsNothing(image: BuilderImage, frame: Frame, m: Layers, order: seq<OrderEntry>)
    requires IsImageOf(image, frame, m, order)
    ensures NoRepeats(image.layers)
  {
    var keys :| SortedKeys(m, keys) && (forall k :: k in keys ==> k in m) && image == ImageOf(frame, m, keys, order);
    DedupRepeatsNothing([frame.defaultDirs, frame.lifecycle] + BuildpackLayers(m, keys) + [frame.stackToml, frame.orderToml(order)]);
  }

  predicate FirstMatch(stacks: seq<BuildpackStack>, id: string, api: SemVer, i: int)
    requires 0 <= i < |stacks|
  {
    StackMatches(stacks[i], id, api) && forall j :: 0 <= j < i ==> !StackMatches(stacks[j], id, api)
  }

  /** A component buildpack that passed validation, on a stack whose mixins were read from its images, has its
      requirements met by those images. */
  lemma SupportedIsSatisfied(bl: LayerInfo, apis: seq<string>, id: string, build: seq<string>, run: seq<string>, relaxed: bool)
    requires StackMixins(build, run).Ok? && Supported(bl, apis, id, StackMixins(build, run).value, relaxed)
    requires bl.order == [] && bl.stacks != []
    requires relaxed ==> forall s, m :: s in bl.stacks && m in s.mixins ==> !Misleading(m)
    ensures bl.api.parsed.Some?
    ensures exists i :: (0 <= i < |bl.stacks| && FirstMatch(bl.stacks, id, bl.api.parsed.value, i)
                         && forall m :: m in bl.stacks[i].mixins ==> Satisfied(build, run, m))
  {
    var i :| 0 <= i < |bl.stacks| && StackMatches(bl.stacks[i], id, bl.api.parsed.value)
      && Accepts(StackMixins(build, run).value, bl.stacks[i].mixins, relaxed)
      && forall j :: 0 <= j < i ==> !StackMatches(bl.stacks[j], id, bl.api.parsed.value);
    assert bl.stacks[i] in bl.stacks && FirstMatch(bl.stacks, id, bl.api.parsed.value, i);
    AcceptedIsSatisfied(build, run, bl.stacks[i].mixins, relaxed);
  }
}
