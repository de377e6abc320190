// pkg/cnb/builder_builder.go and builder_layers.go: groups of buildpacks become
// the layers and the metadata of a builder image.
module BuilderBuilder {
  import opened Common
  import opened CnbApi
  import opened BuildpackResolver
  import opened BuildpackFetcher
  import opened Mixins
  import SemanticVersion
  import Sorting
  import Text

  type Layers = map<DescriptiveInfo, Layer>

  /** builder_builder.go:94-96: one entry per buildpack info, the later layer wins. */
  function AddLayers(m: Layers, layers: seq<Layer>): Layers
    decreases |layers|
  {
    if layers == [] then m
    else
      var last := layers[|layers| - 1];
      AddLayers(m, layers[..|layers| - 1])[last.info := last]
  }

  lemma {:induction false} AddLayersMeaning(m: Layers, layers: seq<Layer>)
    ensures var r := AddLayers(m, layers);
      && (forall k :: k in r <==> k in m || exists l :: l in layers && l.info == k)
      && (forall k :: k in r ==> (k in m && r[k] == m[k]) || (r[k] in layers && r[k].info == k))
    decreases |layers|
  {
    if layers != [] {
      var rest, last := layers[..|layers| - 1], layers[|layers| - 1];
      assert layers == rest + [last];
      AddLayersMeaning(m, rest);
    }
  }

  // Closure of the collected layers.

  predicate HasKey(m: Layers, id: string, version: string) {
    exists k :: k in m && k.id == id && k.version == version
  }

  ghost predicate KeyAnswers(r: Resolver, m: Layers, ref: BuildpackRef) {
    ResolveOrderRef(r, ref).Ok? &&
    var b := ResolveOrderRef(r, ref).value.buildpack;
    HasKey(m, b.id, b.version.text)
  }

  ghost predicate ClosedMap(r: Resolver, m: Layers) {
    && (forall k :: k in m ==> m[k].info == k)
    && (forall k, ref :: k in m && ref in Refs(m[k].layerInfo.order) ==> KeyAnswers(r, m, ref))
  }

  /** Closed layers keep the map closed, whatever they overwrite: keys never go away. */
  lemma AddLayersClosed(r: Resolver, m: Layers, layers: seq<Layer>)
    requires ClosedMap(r, m) && ClosedLayers(r, layers)
    ensures var m' := AddLayers(m, layers);
      && ClosedMap(r, m') && (forall k :: k in m ==> k in m')
      && (forall id, version :: HasInfo(layers, id, version) ==> HasKey(m', id, version))
  {
    var m' := AddLayers(m, layers);
    AddLayersMeaning(m, layers);
    forall id, version | HasInfo(layers, id, version) ensures HasKey(m', id, version) {
      var l :| l in layers && l.info.id == id && l.info.version == version;
      assert l.info in m';
    }
    forall k, ref | k in m' && ref in Refs(m'[k].layerInfo.order) ensures KeyAnswers(r, m', ref) {
      if k in m && m'[k] == m[k] {
        assert KeyAnswers(r, m, ref);
      } else {
        assert Answers(r, layers, ref);
      }
    }
  }

  // The order in which layers are written.

  function SizeOf(l: Layer): int {
    match l.v1Layer.size
    case None => 0
    case Some(n) => n
  }

  function KeyString(k: DescriptiveInfo): string {
    InfoString(k.id, k.version)
  }

  function Bytes(m: Layers, k: DescriptiveInfo): int {
    if k in m then SizeOf(m[k]) else 0
  }

  /** builder_builder.go:384-393: bigger layers first, ties broken by the later "id@version". */
  function WrittenBefore(m: Layers): (DescriptiveInfo, DescriptiveInfo) -> bool {
    (a: DescriptiveInfo, b: DescriptiveInfo) =>
      if Bytes(m, a) == Bytes(m, b) then Text.Less(KeyString(b), KeyString(a)) else Bytes(m, a) > Bytes(m, b)
  }

  /** keys lists the keys of m once each, in the order of the sort. */
  ghost predicate SortedKeys(m: Layers, keys: seq<DescriptiveInfo>) {
    multiset(keys) == multiset(m.Keys) && Sorting.IsSorted(keys, WrittenBefore(m))
  }

  lemma KeyMembers(m: Layers, keys: seq<DescriptiveInfo>)
    requires multiset(keys) == multiset(m.Keys)
    ensures forall k :: k in keys <==> k in m
    ensures forall i, j :: 0 <= i < j < |keys| ==> keys[i] != keys[j]
  {
    forall k ensures k in keys <==> k in m {
      assert k in keys <==> k in multiset(keys);
      assert k in multiset(m.Keys) <==> k in m.Keys;
    }
    forall i, j | 0 <= i < j < |keys| ensures keys[i] != keys[j] {
      if keys[i] == keys[j] {
        RepeatedTwice(keys, i, j);
      }
    }
  }

  lemma RepeatedTwice<T>(s: seq<T>, i: nat, j: nat)
    requires i < j < |s| && s[i] == s[j]
    ensures multiset(s)[s[i]] >= 2
  {
    var rest := s[..i] + s[i + 1..];
    assert s == s[..i] + [s[i]] + s[i + 1..];
    assert multiset(s) == multiset(rest) + multiset{s[i]};
    assert rest[j - 1] == s[j] && rest[j - 1] in rest;
  }

  lemma WrittenBeforeOrder(m: Layers)
    ensures Sorting.StrictWeakOrder(WrittenBefore(m))
  {
    var less := WrittenBefore(m);
    forall x: DescriptiveInfo ensures !less(x, x) {
      Text.LessIrreflexive(KeyString(x));
    }
    forall x: DescriptiveInfo, y: DescriptiveInfo, z: DescriptiveInfo
      ensures less(x, y) && less(y, z) ==> less(x, z)
      ensures less(x, z) ==> less(x, y) || less(y, z)
    {
      var a, b, c := KeyString(x), KeyString(y), KeyString(z);
      Text.LessTrichotomy(a, b);
      Text.LessTrichotomy(b, c);
      Text.LessTrichotomy(a, c);
      if Text.Less(c, b) && Text.Less(b, a) {
        Text.LessTransitive(c, b, a);
      }
      if Text.Less(c, a) && Text.Less(a, b) {
        Text.LessTransitive(c, a, b);
      }
    }
  }

  /** builder_builder.go:375-396: keys in whatever order the map yields them, then sorted. */
  method DeterministicSortBySize(m: Layers) returns (keys: seq<DescriptiveInfo>)
    ensures SortedKeys(m, keys)
  {
    var todo := m.Keys;
    keys := [];
    while todo != {}
      invariant todo <= m.Keys && multiset(keys) == multiset(m.Keys - todo)
      decreases todo
    {
      var k :| k in todo;
      assert m.Keys - (todo - {k}) == (m.Keys - todo) + {k};
      keys := keys + [k];
      todo := todo - {k};
    }
    assert m.Keys - {} == m.Keys;
    WrittenBeforeOrder(m);
    Sorting.StableSortCorrect(keys, WrittenBefore(m));
    keys := Sorting.StableSort(keys, WrittenBefore(m));
  }

  /** Distinct keys of equal size and equal "id@version". */
  predicate Tie(m: Layers, a: DescriptiveInfo, b: DescriptiveInfo) {
    a != b && Bytes(m, a) == Bytes(m, b) && KeyString(a) == KeyString(b)
  }

  ghost predicate NoTies(m: Layers) {
    forall a, b :: a in m && b in m ==> !Tie(m, a, b)
  }

  /** The sort has one result, whatever the order the map was walked in and whatever the algorithm, exactly when no two
      keys tie. */
  lemma SortDeterminedIff(m: Layers)
    ensures (forall k1, k2 :: SortedKeys(m, k1) && SortedKeys(m, k2) ==> k1 == k2) <==> NoTies(m)
  {
    var less := WrittenBefore(m);
    if NoTies(m) {
      forall k1, k2 | SortedKeys(m, k1) && SortedKeys(m, k2) ensures k1 == k2 {
        KeyMembers(m, k1);
        forall x, y | x in k1 && y in k1 && x != y ensures less(x, y) || less(y, x) {
          assert !Tie(m, x, y);
          Text.LessTotal(KeyString(x), KeyString(y));
        }
        Sorting.SortUnique(k1, k2, less);
      }
    } else {
      var a, b :| a in m && b in m && Tie(m, a, b);
      TieGivesTwoSorts(m, a, b);
    }
  }

  lemma TieGivesTwoSorts(m: Layers, a: DescriptiveInfo, b: DescriptiveInfo)
    requires a in m && b in m && Tie(m, a, b)
    ensures exists k1, k2 :: SortedKeys(m, k1) && SortedKeys(m, k2) && k1 != k2
  {
    var less := WrittenBefore(m);
    var k := SomeSort(m);
    KeyMembers(m, k);
    var i :| 0 <= i < |k| && k[i] == a;
    var j :| 0 <= j < |k| && k[j] == b;
    var lo, hi := if i < j then i else j, if i < j then j else i;
    Sorting.SortOpenOnTies(k, less, lo, hi);
    var k' :| Sorting.IsSortOf(k', k, less) && k' != k;
    assert SortedKeys(m, k') && SortedKeys(m, k);
  }

  lemma SomeSort(m: Layers) returns (keys: seq<DescriptiveInfo>)
    ensures SortedKeys(m, keys)
  {
    keys := SomeListing(m.Keys);
    WrittenBeforeOrder(m);
    Sorting.StableSortCorrect(keys, WrittenBefore(m));
    keys := Sorting.StableSort(keys, WrittenBefore(m));
  }

  lemma {:induction false} SomeListing(s: set<DescriptiveInfo>) returns (keys: seq<DescriptiveInfo>)
    ensures multiset(keys) == multiset(s)
  {
    keys := [];
    if s != {} {
      var x :| x in s;
      keys := SomeListing(s - {x});
      keys := keys + [x];
      assert s == (s - {x}) + {x};
    }
  }

  /** With no "@" in ids, a tie is two entries of the same id, version and size that differ in the homepage. */
  lemma TieMeaning(m: Layers, a: DescriptiveInfo, b: DescriptiveInfo)
    requires '@' !in a.id && '@' !in b.id
    ensures Tie(m, a, b) <==> a.id == b.id && a.version == b.version && a.homepage != b.homepage && Bytes(m, a) == Bytes(m, b)
  {
    if KeyString(a) == KeyString(b) {
      assert KeyString(a) == a.id + ['@'] + a.version && KeyString(b) == b.id + ['@'] + b.version;
      Text.JoinInjective(a.id, a.version, b.id, b.version, '@');
    }
  }

  // Deduplication.

  predicate SeenBefore(layers: seq<V1Layer>, i: nat)
    requires i < |layers|
  {
    layers[i].diffId.Some? && exists j :: 0 <= j < i && layers[j].diffId == layers[i].diffId
  }

  /** The layers whose diff id did not occur before; a layer whose diff id cannot be read always stays. */
  function Dedup(layers: seq<V1Layer>): seq<V1Layer>
    decreases |layers|
  {
    if layers == [] then []
    else
      var n := |layers| - 1;
      Dedup(layers[..n]) + if SeenBefore(layers, n) then [] else [layers[n]]
  }

  /** builder_builder.go:406-424. */
  method DeduplicateLayers(layers: seq<V1Layer>) returns (res: seq<V1Layer>)
    ensures res == Dedup(layers)
  {
    var seen: set<string> := {};
    res := [];
    for i := 0 to |layers|
      invariant res == Dedup(layers[..i])
      invariant forall d :: d in seen <==> exists j :: 0 <= j < i && layers[j].diffId == Some(d)
    {
      assert layers[..i + 1][..i] == layers[..i];
      assert SeenBefore(layers[..i + 1], i) <==> layers[i].diffId.Some? && layers[i].diffId.value in seen;
      if layers[i].diffId.None? {
        res := res + [layers[i]];
      } else if layers[i].diffId.value !in seen {
        res := res + [layers[i]];
        seen := seen + {layers[i].diffId.value};
      }
    }
    assert layers[..|layers|] == layers;
  }

  ghost predicate NoRepeats(layers: seq<V1Layer>) {
    forall i, j :: 0 <= i < j < |layers| && layers[i].diffId.Some? ==> layers[i].diffId != layers[j].diffId
  }

  lemma {:induction false} DedupMembers(layers: seq<V1Layer>)
    ensures forall l :: l in Dedup(layers) ==> l in layers
    decreases |layers|
  {
    if layers != [] {
      DedupMembers(layers[..|layers| - 1]);
    }
  }

  lemma DedupKeepsMore(layers: seq<V1Layer>, k: V1Layer)
    requires layers != []
    ensures k in Dedup(layers[..|layers| - 1]) ==> k in Dedup(layers)
    ensures !SeenBefore(layers, |layers| - 1) ==> layers[|layers| - 1] in Dedup(layers)
  {
    var n := |layers| - 1;
    assert !SeenBefore(layers, n) ==> Dedup(layers)[|Dedup(layers[..n])|] == layers[n];
  }

  /** Deduplication loses no diff id. */
  lemma {:induction false} DedupLosesNothing(layers: seq<V1Layer>, l: V1Layer)
    requires l in layers
    ensures exists k :: k in Dedup(layers) && k.diffId == l.diffId
    decreases |layers|
  {
    var rest, last := layers[..|layers| - 1], layers[|layers| - 1];
    assert layers == rest + [last];
    if l !in rest && !SeenBefore(layers, |layers| - 1) {
      DedupKeepsMore(layers, l);
    } else {
      var earlier := l;
      if l !in rest {
        var j :| 0 <= j < |rest| && layers[j].diffId == last.diffId;
        earlier := rest[j];
      }
      DedupLosesNothing(rest, earlier);
      var k :| k in Dedup(rest) && k.diffId == l.diffId;
      DedupKeepsMore(layers, k);
    }
  }

  /** Deduplication repeats no diff id. */
  lemma {:induction false} DedupRepeatsNothing(layers: seq<V1Layer>)
    ensures NoRepeats(Dedup(layers))
    decreases |layers|
  {
    if layers != [] {
      var n := |layers| - 1;
      var rest := layers[..n];
      DedupRepeatsNothing(rest);
      DedupMembers(rest);
      var kept := Dedup(rest);
      forall i | 0 <= i < |kept| && !SeenBefore(layers, n) && kept[i].diffId.Some?
        ensures kept[i].diffId != layers[n].diffId
      {
        assert kept[i] in rest;
        var j :| 0 <= j < |rest| && rest[j] == kept[i];
        assert layers[j] == kept[i];
      }
    }
  }

  lemma LastIsNew(layers: seq<V1Layer>)
    requires NoRepeats(layers) && layers != []
    ensures NoRepeats(layers[..|layers| - 1]) && !SeenBefore(layers, |layers| - 1)
  {
    var n := |layers| - 1;
    forall i, j | 0 <= i < j < n && layers[..n][i].diffId.Some? ensures layers[..n][i].diffId != layers[..n][j].diffId {
      assert layers[i].diffId != layers[j].diffId;
    }
  }

  lemma AddNew(layers: seq<V1Layer>, rest: seq<V1Layer>, last: V1Layer)
    requires layers != [] && rest == layers[..|layers| - 1] && last == layers[|layers| - 1]
    requires !SeenBefore(layers, |layers| - 1) && Dedup(rest) == rest
    ensures Dedup(layers) == layers
  {
    assert Dedup(layers) == Dedup(rest) + [last];
    assert rest + [last] == layers;
  }

  /** The survivors are the first occurrences, in order: a list without repeats is left as it is. */
  lemma {:induction false} DedupKeepsDistinct(layers: seq<V1Layer>)
    requires NoRepeats(layers)
    ensures Dedup(layers) == layers
    decreases |layers|
  {
    if layers != [] {
      var rest, last := layers[..|layers| - 1], layers[|layers| - 1];
      LastIsNew(layers);
      DedupKeepsDistinct(rest);
      AddNew(layers, rest, last);
    }
  }

  /** Where each layer ends up: layer i survives exactly when its diff id is new, and then behind the survivors before it. */
  lemma {:induction false} DedupKeepsFirst(layers: seq<V1Layer>, i: nat)
    requires i < |layers|
    ensures Dedup(layers[..i]) <= Dedup(layers)
    ensures !SeenBefore(layers, i) ==>
      |Dedup(layers)| > |Dedup(layers[..i])| && Dedup(layers)[|Dedup(layers[..i])|] == layers[i]
    decreases |layers|
  {
    var n := |layers| - 1;
    if i < n {
      assert layers[..n][..i] == layers[..i];
      assert SeenBefore(layers[..n], i) <==> SeenBefore(layers, i);
      DedupKeepsFirst(layers[..n], i);
    }
  }

  // Metadata.

  type Metadata = map<string, map<string, LayerInfo>>

  predicate InMetadata(md: Metadata, id: string, version: string) {
    id in md && version in md[id]
  }

  /** builder_layers.go:5-12. */
  function Add(md: Metadata, layer: Layer): Metadata {
    var inner := if layer.info.id in md then md[layer.info.id] else map[];
    md[layer.info.id := inner[layer.info.version := layer.layerInfo]]
  }

  function MetadataOf(m: Layers, keys: seq<DescriptiveInfo>): Metadata
    requires forall k :: k in keys ==> k in m
    decreases |keys|
  {
    if keys == [] then map[]
    else
      var last := keys[|keys| - 1];
      assert last in keys;
      Add(MetadataOf(m, keys[..|keys| - 1]), m[last])
  }

  /** The metadata entry for an id and version comes from a key with that id and version. */
  ghost predicate FromKey(m: Layers, keys: seq<DescriptiveInfo>, md: Metadata, id: string, version: string) {
    exists k :: k in keys && k in m && k.id == id && k.version == version && InMetadata(md, id, version) && md[id][version] == m[k].layerInfo
  }

  lemma {:induction false} MetadataMembers(m: Layers, keys: seq<DescriptiveInfo>)
    requires (forall k :: k in keys ==> k in m) && (forall k :: k in m ==> m[k].info == k)
    ensures var md := MetadataOf(m, keys);
      && (forall k :: k in keys ==> InMetadata(md, k.id, k.version))
      && (forall id, version :: InMetadata(md, id, version) ==> FromKey(m, keys, md, id, version))
    decreases |keys|
  {
    if keys != [] {
      var rest, last := keys[..|keys| - 1], keys[|keys| - 1];
      assert keys == rest + [last] && last in keys && m[last].info == last;
      MetadataMembers(m, rest);
      var before, md := MetadataOf(m, rest), MetadataOf(m, keys);
      assert md == Add(before, m[last]);
      forall id, version | InMetadata(md, id, version) ensures FromKey(m, keys, md, id, version) {
        if id == last.id && version == last.version {
          assert md[id][version] == m[last].layerInfo;
        } else {
          assert InMetadata(before, id, version) && md[id][version] == before[id][version];
          assert FromKey(m, rest, before, id, version);
        }
      }
      forall k | k in keys ensures InMetadata(md, k.id, k.version) {
        assert k == last || InMetadata(before, k.id, k.version);
      }
    }
  }

  ghost predicate MetadataAnswers(r: Resolver, md: Metadata, ref: BuildpackRef) {
    ResolveOrderRef(r, ref).Ok? &&
    var b := ResolveOrderRef(r, ref).value.buildpack;
    InMetadata(md, b.id, b.version.text) && b.id == ref.id && (ref.version != "" ==> b.version.text == ref.version)
  }

  /** Closure: whatever a buildpack in the metadata refers to is in the metadata, at exactly the id and, when pinned, the
      version that the reference names. */
  lemma MetadataClosed(r: Resolver, m: Layers, keys: seq<DescriptiveInfo>)
    requires ClosedMap(r, m) && (forall k :: k in keys <==> k in m)
    ensures var md := MetadataOf(m, keys);
      forall id, version, ref :: InMetadata(md, id, version) && ref in Refs(md[id][version].order) ==> MetadataAnswers(r, md, ref)
  {
    var md := MetadataOf(m, keys);
    MetadataMembers(m, keys);
    forall id, version, ref | InMetadata(md, id, version) && ref in Refs(md[id][version].order)
      ensures MetadataAnswers(r, md, ref)
    {
      assert FromKey(m, keys, md, id, version);
      var k :| k in keys && k in m && k.id == id && k.version == version && md[id][version] == m[k].layerInfo;
      assert KeyAnswers(r, m, ref);
      OrderRefResolved(r, ref);
    }
  }
}
