// pkg/cnb/remote_buildpack_fetcher.go: a buildpack with the layers of everything it refers to.
module BuildpackFetcher {
  import opened Common
  import opened CnbApi
  import opened BuildpackResolver
  import opened CachedKeychain
  import opened Mixins

  /** A registry layer; asking for its diff id or its size can fail. */
  datatype V1Layer = V1Layer(content: string, diffId: Option<string>, size: Option<int>)

  datatype DescriptiveInfo = DescriptiveInfo(id: string, version: string, homepage: string)

  datatype Layer = Layer(v1Layer: V1Layer, info: DescriptiveInfo, layerInfo: LayerInfo)

  datatype RemoteInfo = RemoteInfo(info: DescriptiveInfo, layers: seq<Layer>)

  /** Where credentials and layers come from. */
  datatype Registry = Registry(keychains: Factory, mount: (Keychain, BuildpackStatus) -> Result<V1Layer>)

  function InfoOf(b: BuildpackStatus): DescriptiveInfo {
    DescriptiveInfo(b.id, b.version.text, b.homepage)
  }

  function LayerOf(v1Layer: V1Layer, b: BuildpackStatus): Layer {
    Layer(v1Layer, InfoOf(b), LayerInfo(b.api, b.diffId, b.order, b.stacks, b.homepage))
  }

  /** remote_buildpack_fetcher.go:92-99: an order reference resolves by id and version alone. */
  function ResolveOrderRef(r: Resolver, ref: BuildpackRef): Result<Remote> {
    Resolve(r, BuilderBuildpackRef(NoKind, "", ref.id, ref.version, ""))
  }

  /** The part of the reference graph that has a rank, which is not negative: what the order of a buildpack in it
      resolves to is in it and ranks below. The rest of the graph may have cycles. */
  ghost predicate Acyclic(r: Resolver, rank: BuildpackStatus -> int) {
    forall b, ref :: b in All(r) && rank(b.buildpack) >= 0 && ref in Refs(b.buildpack.order) && ResolveOrderRef(r, ref).Ok? ==>
      0 <= rank(ResolveOrderRef(r, ref).value.buildpack) < rank(b.buildpack)
  }

  ghost predicate Below(r: Resolver, refs: seq<BuildpackRef>, rank: BuildpackStatus -> int, bound: int) {
    forall ref :: ref in refs && ResolveOrderRef(r, ref).Ok? ==> 0 <= rank(ResolveOrderRef(r, ref).value.buildpack) < bound
  }

  lemma OrderRefResolved(r: Resolver, ref: BuildpackRef)
    ensures ResolveOrderRef(r, ref).Ok? ==>
      var b := ResolveOrderRef(r, ref).value;
      b in All(r) && b.buildpack.id == ref.id && (ref.version != "" ==> b.buildpack.version.text == ref.version)
  {
    ResolvesIff(r, ref.id, ref.version);
  }

  /** remote_buildpack_fetcher.go:46-85. */
  ghost function Fetched(r: Resolver, reg: Registry, b: Remote, rank: BuildpackStatus -> int): Result<RemoteInfo>
    requires Acyclic(r, rank) && b in All(r) && rank(b.buildpack) >= 0
    decreases rank(b.buildpack), 1, 0
  {
    match reg.keychains(b.secretRef)
    case Err(e) => Err(e)
    case Ok(keychain) =>
      match reg.mount(keychain, b.buildpack)
      case Err(e) => Err(e)
      case Ok(layer) =>
        match FetchedRefs(r, reg, Refs(b.buildpack.order), rank, rank(b.buildpack))
        case Err(e) => Err(e)
        case Ok(layers) => Ok(RemoteInfo(InfoOf(b.buildpack), layers + [LayerOf(layer, b.buildpack)]))
  }

  /** remote_buildpack_fetcher.go:88-113. */
  ghost function FetchedRefs(r: Resolver, reg: Registry, refs: seq<BuildpackRef>, rank: BuildpackStatus -> int, bound: int): Result<seq<Layer>>
    requires Acyclic(r, rank) && Below(r, refs, rank, bound)
    decreases bound, 0, |refs|
  {
    if refs == [] then Ok([])
    else
      var rest, last := refs[..|refs| - 1], refs[|refs| - 1];
      match FetchedRefs(r, reg, rest, rank, bound)
      case Err(e) => Err(e)
      case Ok(layers) =>
        OrderRefResolved(r, last);
        match ResolveOrderRef(r, last)
        case Err(e) => Err(e)
        case Ok(b) =>
          match Fetched(r, reg, b, rank)
          case Err(e) => Err(e)
          case Ok(info) => Ok(layers + info.layers)
  }

  // Closure.

  predicate HasInfo(layers: seq<Layer>, id: string, version: string) {
    exists l :: l in layers && l.info.id == id && l.info.version == version
  }

  ghost predicate Answers(r: Resolver, layers: seq<Layer>, ref: BuildpackRef) {
    ResolveOrderRef(r, ref).Ok? &&
    var b := ResolveOrderRef(r, ref).value.buildpack;
    HasInfo(layers, b.id, b.version.text)
  }

  /** Whatever a layer refers to is among the layers. */
  ghost predicate ClosedLayers(r: Resolver, layers: seq<Layer>) {
    forall l, ref :: l in layers && ref in Refs(l.layerInfo.order) ==> Answers(r, layers, ref)
  }

  lemma AnswersMore(r: Resolver, layers: seq<Layer>, more: seq<Layer>, ref: BuildpackRef)
    requires Answers(r, layers, ref) && forall l :: l in layers ==> l in more
    ensures Answers(r, more, ref)
  {
  }

  lemma ClosedAppend(r: Resolver, a: seq<Layer>, b: seq<Layer>)
    requires ClosedLayers(r, a) && ClosedLayers(r, b)
    ensures ClosedLayers(r, a + b)
  {
    forall l, ref | l in a + b && ref in Refs(l.layerInfo.order) ensures Answers(r, a + b, ref) {
      AnswersMore(r, if l in a then a else b, a + b, ref);
    }
  }

  /** A fetched buildpack brings its own layer and, transitively, that of everything its order resolves to. */
  lemma {:induction false} FetchedClosed(r: Resolver, reg: Registry, b: Remote, rank: BuildpackStatus -> int)
    requires Acyclic(r, rank) && b in All(r) && rank(b.buildpack) >= 0 && Fetched(r, reg, b, rank).Ok?
    ensures var info := Fetched(r, reg, b, rank).value;
      && info.info == InfoOf(b.buildpack) && HasInfo(info.layers, b.buildpack.id, b.buildpack.version.text)
      && ClosedLayers(r, info.layers)
    decreases rank(b.buildpack), 1, 0
  {
    var refs, info := Refs(b.buildpack.order), Fetched(r, reg, b, rank).value;
    FetchedRefsClosed(r, reg, refs, rank, rank(b.buildpack));
    var layers, own := info.layers[..|info.layers| - 1], info.layers[|info.layers| - 1];
    assert info.layers == layers + [own] && own in info.layers;
    forall l, ref | l in info.layers && ref in Refs(l.layerInfo.order) ensures Answers(r, info.layers, ref) {
      assert l in layers || l == own;
      AnswersMore(r, layers, info.layers, ref);
    }
  }

  lemma {:induction false} FetchedRefsClosed(r: Resolver, reg: Registry, refs: seq<BuildpackRef>, rank: BuildpackStatus -> int, bound: int)
    requires Acyclic(r, rank) && Below(r, refs, rank, bound) && FetchedRefs(r, reg, refs, rank, bound).Ok?
    ensures var layers := FetchedRefs(r, reg, refs, rank, bound).value;
      ClosedLayers(r, layers) && forall ref :: ref in refs ==> Answers(r, layers, ref)
    decreases bound, 0, |refs|
  {
    if refs != [] {
      var rest, last := refs[..|refs| - 1], refs[|refs| - 1];
      var layers := FetchedRefs(r, reg, refs, rank, bound).value;
      OrderRefResolved(r, last);
      var before, b := FetchedRefs(r, reg, rest, rank, bound).value, ResolveOrderRef(r, last).value;
      var info := Fetched(r, reg, b, rank).value;
      FetchedRefsClosed(r, reg, rest, rank, bound);
      FetchedClosed(r, reg, b, rank);
      ClosedAppend(r, before, info.layers);
      forall ref | ref in refs ensures Answers(r, layers, ref) {
        if ref in rest {
          AnswersMore(r, before, layers, ref);
        } else {
          assert ref == last;
          AnswersMore(r, info.layers, layers, ref);
        }
      }
    }
  }

  // The fetcher with its keychain cache.

  ghost predicate SecretsFromResolver(r: Resolver) {
    forall b :: b in All(r) ==> FromResolver(b.secretRef)
  }

  class RemoteBuildpackFetcher {
    const resolver: Resolver
    const mount: (Keychain, BuildpackStatus) -> Result<V1Layer>
    const keychains: CachedKeychainFactory

    constructor (r: Resolver, factory: Factory, m: (Keychain, BuildpackStatus) -> Result<V1Layer>)
      ensures resolver == r && mount == m && keychains.keychainFactory == factory && fresh(keychains) && Valid()
    {
      resolver, mount := r, m;
      keychains := new CachedKeychainFactory(factory);
    }

    ghost function Reg(): Registry {
      Registry(keychains.keychainFactory, mount)
    }

    /** What is cached is what the underlying factory says. */
    ghost predicate Valid()
      reads keychains
    {
      forall ref :: FromResolver(ref) && MakeKey(ref) in keychains.cache ==>
        keychains.keychainFactory(ref) == Ok(keychains.cache[MakeKey(ref)])
    }

    method KeychainFor(secretRef: SecretRef) returns (r: Result<Keychain>)
      requires Valid() && FromResolver(secretRef)
      modifies keychains
      ensures Valid() && r == keychains.keychainFactory(secretRef)
    {
      r := keychains.KeychainForSecretRef(secretRef);
      forall ref | FromResolver(ref) && MakeKey(ref) in keychains.cache
        ensures keychains.keychainFactory(ref) == Ok(keychains.cache[MakeKey(ref)])
      {
        KeysDistinguish(ref, secretRef);
      }
    }

    method Fetch(b: Remote, ghost rank: BuildpackStatus -> int) returns (r: Result<RemoteInfo>)
      requires Valid() && SecretsFromResolver(resolver) && Acyclic(resolver, rank) && b in All(resolver) && rank(b.buildpack) >= 0
      modifies keychains
      ensures Valid() && r == Fetched(resolver, Reg(), b, rank)
      decreases rank(b.buildpack), 1
    {
      var keychain := KeychainFor(b.secretRef);
      if keychain.Err? {
        return Err(keychain.error);
      }
      var layer := mount(keychain.value, b.buildpack);
      if layer.Err? {
        return Err(layer.error);
      }
      var layers := LayersForRefs(Refs(b.buildpack.order), rank, rank(b.buildpack));
      if layers.Err? {
        return Err(layers.error);
      }
      r := Ok(RemoteInfo(InfoOf(b.buildpack), layers.value + [LayerOf(layer.value, b.buildpack)]));
    }

    /** layersForOrder, over the references of the order group by group. */
    method LayersForRefs(refs: seq<BuildpackRef>, ghost rank: BuildpackStatus -> int, ghost bound: int) returns (r: Result<seq<Layer>>)
      requires Valid() && SecretsFromResolver(resolver) && Acyclic(resolver, rank) && Below(resolver, refs, rank, bound)
      modifies keychains
      ensures Valid() && r == FetchedRefs(resolver, Reg(), refs, rank, bound)
      decreases bound, 0
    {
      var layers: seq<Layer> := [];
      for i := 0 to |refs|
        invariant Valid() && FetchedRefs(resolver, Reg(), refs[..i], rank, bound) == Ok(layers)
      {
        assert refs[..i + 1][..i] == refs[..i] && refs[i] in refs;
        OrderRefResolved(resolver, refs[i]);
        var b := ResolveOrderRef(resolver, refs[i]);
        if b.Err? {
          FailurePersists(resolver, Reg(), refs, i + 1, rank, bound);
          return Err(b.error);
        }
        var info := Fetch(b.value, rank);
        if info.Err? {
          FailurePersists(resolver, Reg(), refs, i + 1, rank, bound);
          return Err(info.error);
        }
        layers := layers + info.value.layers;
      }
      assert refs[..|refs|] == refs;
      r := Ok(layers);
    }
  }

  /** The first failure decides. */
  lemma {:induction false} FailurePersists(r: Resolver, reg: Registry, refs: seq<BuildpackRef>, i: nat, rank: BuildpackStatus -> int, bound: int)
    requires Acyclic(r, rank) && Below(r, refs, rank, bound) && i <= |refs|
    requires FetchedRefs(r, reg, refs[..i], rank, bound).Err?
    ensures FetchedRefs(r, reg, refs, rank, bound) == FetchedRefs(r, reg, refs[..i], rank, bound)
    decreases |refs|
  {
    if i == |refs| {
      assert refs[..i] == refs;
    } else {
      var rest := refs[..|refs| - 1];
      assert rest[..i] == refs[..i];
      FailurePersists(r, reg, rest, i, rank, bound);
    }
  }
}
