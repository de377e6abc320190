// Buildpacks as stores report them and builders list them: pkg/apis/core/v1alpha1/buildpack_types.go
// and pkg/cnb/buildpack_metadata.go.
module CnbApi {
  import opened Common
  import opened SemanticVersion

  /** A version text with what semver.NewVersion makes of it: None when it does not parse. */
  datatype Version = Version(text: string, parsed: Option<SemVer>)

  datatype BuildpackRef = BuildpackRef(id: string, version: string, optional: bool)

  datatype OrderEntry = OrderEntry(group: seq<BuildpackRef>)

  datatype BuildpackStack = BuildpackStack(id: string, mixins: seq<string>)

  datatype BuildpackStatus = BuildpackStatus(id: string, version: Version, storeImage: string, diffId: string, digest: string,
                                             size: int, api: Version, homepage: string, order: seq<OrderEntry>, stacks: seq<BuildpackStack>)

  /** The references of an order, group by group. */
  function Refs(order: seq<OrderEntry>): seq<BuildpackRef> {
    if order == [] then [] else order[0].group + Refs(order[1..])
  }

  lemma {:induction false} RefsAppend(a: seq<OrderEntry>, b: seq<OrderEntry>)
    ensures Refs(a + b) == Refs(a) + Refs(b)
  {
    if a == [] {
      assert a + b == b;
    } else {
      assert (a + b)[1..] == a[1..] + b;
      RefsAppend(a[1..], b);
    }
  }

  /** BuildpackInfo.String(): "id@version". */
  function InfoString(id: string, version: string): string {
    id + "@" + version
  }
}
