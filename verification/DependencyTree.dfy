// pkg/cnb/dependency_tree.go: the order references of a set of buildpacks as trees.
module DependencyTree {
  import opened Common
  import opened CnbApi

  datatype Node = Node(buildpack: BuildpackStatus, children: seq<Node>)

  /** The last buildpack of each id. */
  function Lookup(bps: seq<BuildpackStatus>): (m: map<string, BuildpackStatus>)
    ensures forall id :: id in m ==> m[id] in bps && m[id].id == id
    ensures forall bp :: bp in bps ==> bp.id in m
    decreases |bps|
  {
    if bps == [] then map[]
    else
      var rest, last := bps[..|bps| - 1], bps[|bps| - 1];
      assert bps == rest + [last];
      Lookup(rest)[last.id := last]
  }

  predicate RefersTo(bp: BuildpackStatus, id: string) {
    exists r :: r in Refs(bp.order) && r.id == id
  }

  predicate Used(bps: seq<BuildpackStatus>, id: string) {
    exists bp :: bp in bps && RefersTo(bp, id)
  }

  /** The ids of the buildpacks that nothing refers to, in order. */
  function Unused(bps: seq<BuildpackStatus>, all: seq<BuildpackStatus>): (ids: seq<string>)
    ensures forall id :: id in ids <==> !Used(all, id) && exists bp :: bp in bps && bp.id == id
    decreases |bps|
  {
    if bps == [] then []
    else
      var rest, last := bps[..|bps| - 1], bps[|bps| - 1];
      assert bps == rest + [last];
      Unused(rest, all) + if Used(all, last.id) then [] else [last.id]
  }

  /** Every reference has its buildpack. */
  ghost predicate Closed(lookup: map<string, BuildpackStatus>) {
    forall id, r :: id in lookup && r in Refs(lookup[id].order) ==> r.id in lookup
  }

  /** The references are acyclic: each leads to a smaller rank. */
  ghost predicate Ranked(lookup: map<string, BuildpackStatus>, rank: string -> nat) {
    forall id, r :: id in lookup && r in Refs(lookup[id].order) ==> rank(r.id) < rank(id)
  }

  /** node is the dependency tree of id. */
  ghost predicate IsTree(lookup: map<string, BuildpackStatus>, id: string, node: Node)
    decreases node
  {
    && id in lookup && node.buildpack == lookup[id]
    && var refs := Refs(node.buildpack.order);
       |node.children| == |refs| && forall i :: 0 <= i < |refs| ==> IsTree(lookup, refs[i].id, node.children[i])
  }

  /** dependency_tree.go:47-61. Terminates, and never meets a missing id, when the references are closed and acyclic. */
  method MakeTree(lookup: map<string, BuildpackStatus>, id: string, ghost rank: string -> nat) returns (node: Node)
    requires Closed(lookup) && Ranked(lookup, rank) && id in lookup
    ensures IsTree(lookup, id, node)
    decreases rank(id)
  {
    var bp := lookup[id];
    var children: seq<Node> := [];
    for i := 0 to |bp.order|
      invariant |children| == |Refs(bp.order[..i])|
      invariant forall k :: 0 <= k < |children| ==> IsTree(lookup, Refs(bp.order[..i])[k].id, children[k])
    {
      var group: seq<BuildpackRef> := bp.order[i].group;
      ghost var before: seq<BuildpackRef> := Refs(bp.order[..i]);
      GroupRefs(bp.order, i);
      for j := 0 to |group|
        invariant |children| == |before| + j
        invariant forall k :: 0 <= k < |children| ==> IsTree(lookup, (before + group)[k].id, children[k])
      {
        assert (before + group)[|before| + j] == group[j];
        assert group[j] in Refs(bp.order);
        var child := MakeTree(lookup, group[j].id, rank);
        children := children + [child];
      }
    }
    assert bp.order[..|bp.order|] == bp.order;
    node := Node(bp, children);
  }

  lemma GroupRefs(order: seq<OrderEntry>, i: nat)
    requires i < |order|
    ensures Refs(order[..i + 1]) == Refs(order[..i]) + order[i].group
    ensures forall r :: r in order[i].group ==> r in Refs(order)
  {
    assert order[..i + 1] == order[..i] + [order[i]];
    RefsAppend(order[..i], [order[i]]);
    assert [order[i]][1..] == [];
    assert order == order[..i + 1] + order[i + 1..];
    RefsAppend(order[..i + 1], order[i + 1..]);
  }

  /** dependency_tree.go:23-30. */
  method UsedIds(bps: seq<BuildpackStatus>) returns (used: set<string>)
    ensures forall id :: id in used <==> Used(bps, id)
  {
    used := {};
    for i := 0 to |bps|
      invariant forall id :: id in used <==> Used(bps[..i], id)
    {
      ghost var before := used;
      var refs := Refs(bps[i].order);
      for j := 0 to |refs|
        invariant forall id :: id in used <==> id in before || exists r :: r in refs[..j] && r.id == id
      {
        assert refs[..j + 1] == refs[..j] + [refs[j]];
        used := used + {refs[j].id};
      }
      assert refs[..|refs|] == refs;
      UsedAppend(bps[..i], bps[i]);
      assert bps[..i + 1] == bps[..i] + [bps[i]];
    }
    assert bps[..|bps|] == bps;
  }

  lemma UsedAppend(bps: seq<BuildpackStatus>, bp: BuildpackStatus)
    ensures forall id :: Used(bps + [bp], id) <==> Used(bps, id) || RefersTo(bp, id)
  {
    forall id ensures Used(bps + [bp], id) <==> Used(bps, id) || RefersTo(bp, id) {
      if RefersTo(bp, id) {
        assert bp in bps + [bp];
      }
    }
  }

  method LastById(bps: seq<BuildpackStatus>) returns (lookup: map<string, BuildpackStatus>)
    ensures lookup == Lookup(bps)
  {
    lookup := map[];
    for i := 0 to |bps|
      invariant lookup == Lookup(bps[..i])
    {
      assert bps[..i + 1][..i] == bps[..i];
      lookup := lookup[bps[i].id := bps[i]];
    }
    assert bps[..|bps|] == bps;
  }

  method UnusedIds(bps: seq<BuildpackStatus>) returns (unused: seq<string>)
    ensures unused == Unused(bps, bps)
  {
    var used := UsedIds(bps);
    unused := [];
    for i := 0 to |bps|
      invariant unused == Unused(bps[..i], bps)
    {
      assert bps[..i + 1][..i] == bps[..i];
      if bps[i].id !in used {
        unused := unused + [bps[i].id];
      }
    }
    assert bps[..|bps|] == bps;
  }

  method MakeTrees(lookup: map<string, BuildpackStatus>, ids: seq<string>, ghost rank: string -> nat) returns (trees: seq<Node>)
    requires Closed(lookup) && Ranked(lookup, rank) && forall i :: 0 <= i < |ids| ==> ids[i] in lookup
    ensures |trees| == |ids| && forall i :: 0 <= i < |ids| ==> IsTree(lookup, ids[i], trees[i])
  {
    trees := [];
    for i := 0 to |ids|
      invariant |trees| == i && forall k :: 0 <= k < i ==> IsTree(lookup, ids[k], trees[k])
    {
      var tree := MakeTree(lookup, ids[i], rank);
      trees := trees + [tree];
    }
  }

  /** dependency_tree.go:15-45. */
  method NewTree(bps: seq<BuildpackStatus>, ghost rank: string -> nat) returns (trees: seq<Node>)
    requires Closed(Lookup(bps)) && Ranked(Lookup(bps), rank)
    ensures AreTrees(bps, trees)
  {
    var lookup := LastById(bps);
    var unused := UnusedIds(bps);
    forall i | 0 <= i < |unused| ensures unused[i] in lookup {
      assert unused[i] in unused;
    }
    trees := MakeTrees(lookup, unused, rank);
  }

  ghost predicate AreTrees(bps: seq<BuildpackStatus>, trees: seq<Node>) {
    var unused := Unused(bps, bps);
    |trees| == |unused| && forall i :: 0 <= i < |unused| ==> IsTree(Lookup(bps), unused[i], trees[i])
  }

  predicate Occurs(node: Node, id: string)
    decreases node
  {
    node.buildpack.id == id || exists c :: c in node.children && Occurs(c, id)
  }

  ghost predicate Covered(trees: seq<Node>, id: string) {
    exists t :: t in trees && Occurs(t, id)
  }

  /** With p in a tree, everything p refers to is in it too. */
  lemma {:induction false} OccursChild(lookup: map<string, BuildpackStatus>, root: string, t: Node, p: string, id: string)
    requires forall k :: k in lookup ==> lookup[k].id == k
    requires IsTree(lookup, root, t) && Occurs(t, p) && p in lookup && RefersTo(lookup[p], id)
    ensures Occurs(t, id)
    decreases t
  {
    var refs := Refs(t.buildpack.order);
    if t.buildpack.id == p {
      var r :| r in refs && r.id == id;
      var i :| 0 <= i < |refs| && refs[i] == r;
      assert IsTree(lookup, id, t.children[i]) && t.children[i] in t.children;
      assert Occurs(t.children[i], id);
    } else {
      var c :| c in t.children && Occurs(c, p);
      var i :| 0 <= i < |t.children| && t.children[i] == c;
      OccursChild(lookup, refs[i].id, c, p, id);
    }
  }

  /** What occurs in a tree is its root or is referred to by a looked-up buildpack. */
  lemma {:induction false} OccursReferred(lookup: map<string, BuildpackStatus>, root: string, t: Node, id: string)
    requires forall k :: k in lookup ==> lookup[k].id == k
    requires IsTree(lookup, root, t) && Occurs(t, id)
    ensures id == root || exists p :: p in lookup && RefersTo(lookup[p], id)
    decreases t
  {
    if t.buildpack.id != id {
      var c :| c in t.children && Occurs(c, id);
      var i :| 0 <= i < |t.children| && t.children[i] == c;
      var refs := Refs(t.buildpack.order);
      OccursReferred(lookup, refs[i].id, c, id);
      assert refs[i] in refs;
      assert refs[i].id == id ==> RefersTo(lookup[root], id);
    }
  }

  /** A bound on the ranks of finitely many ids. */
  lemma {:induction false} RankBound(ids: set<string>, rank: string -> nat) returns (bound: nat)
    ensures forall id :: id in ids ==> rank(id) < bound
  {
    bound := 0;
    if ids != {} {
      var x :| x in ids;
      bound := RankBound(ids - {x}, rank);
      bound := if rank(x) < bound then bound else rank(x) + 1;
      assert forall id :: id in ids ==> id == x || id in ids - {x};
    }
  }

  /** Every used id is used by a buildpack that the lookup kept. */
  ghost predicate UsesKept(bps: seq<BuildpackStatus>) {
    var lookup := Lookup(bps);
    forall bp :: bp in bps && Used(bps, bp.id) ==> exists p :: p in lookup && RefersTo(lookup[p], bp.id)
  }

  lemma {:induction false} CoveredFromAbove(bps: seq<BuildpackStatus>, trees: seq<Node>, rank: string -> nat, bound: nat, id: string)
    requires AreTrees(bps, trees) && UsesKept(bps) && id in Lookup(bps)
    requires Ranked(Lookup(bps), rank) && forall k :: k in Lookup(bps) ==> rank(k) < bound
    ensures Covered(trees, id)
    decreases bound - rank(id)
  {
    var lookup, unused := Lookup(bps), Unused(bps, bps);
    if Used(bps, id) {
      assert lookup[id] in bps;
      var p :| p in lookup && RefersTo(lookup[p], id);
      CoveredFromAbove(bps, trees, rank, bound, p);
      var t :| t in trees && Occurs(t, p);
      var i :| 0 <= i < |trees| && trees[i] == t;
      OccursChild(lookup, unused[i], t, p, id);
    } else {
      assert lookup[id] in bps && id in unused;
      var i :| 0 <= i < |unused| && unused[i] == id;
      assert trees[i] in trees && Occurs(trees[i], id);
    }
  }

  lemma RootsAreUnused(bps: seq<BuildpackStatus>, trees: seq<Node>)
    requires AreTrees(bps, trees)
    ensures |trees| == |Unused(bps, bps)| && forall i :: 0 <= i < |trees| ==> trees[i].buildpack.id == Unused(bps, bps)[i]
    ensures forall id :: (exists t :: t in trees && t.buildpack.id == id) <==> id in Unused(bps, bps)
  {
    var lookup, unused := Lookup(bps), Unused(bps, bps);
    assert forall i :: 0 <= i < |trees| ==> trees[i].buildpack == lookup[unused[i]];
    forall id ensures (exists t :: t in trees && t.buildpack.id == id) <==> id in unused {
      if id in unused {
        var i :| 0 <= i < |unused| && unused[i] == id;
        assert trees[i] in trees;
      }
    }
  }

  lemma KeptUsesCover(bps: seq<BuildpackStatus>, trees: seq<Node>, rank: string -> nat)
    requires AreTrees(bps, trees) && Ranked(Lookup(bps), rank) && UsesKept(bps)
    ensures forall bp :: bp in bps ==> Covered(trees, bp.id)
  {
    var bound := RankBound(Lookup(bps).Keys, rank);
    forall bp | bp in bps ensures Covered(trees, bp.id) {
      CoveredFromAbove(bps, trees, rank, bound, bp.id);
    }
  }

  lemma CoverKeepsUses(bps: seq<BuildpackStatus>, trees: seq<Node>)
    requires AreTrees(bps, trees) && forall bp :: bp in bps ==> Covered(trees, bp.id)
    ensures UsesKept(bps)
  {
    var lookup, unused := Lookup(bps), Unused(bps, bps);
    forall bp | bp in bps && Used(bps, bp.id) ensures exists p :: p in lookup && RefersTo(lookup[p], bp.id) {
      var t :| t in trees && Occurs(t, bp.id);
      var i :| 0 <= i < |trees| && trees[i] == t;
      OccursReferred(lookup, unused[i], t, bp.id);
      assert unused[i] in unused;
    }
  }

  /** Root coverage. The roots are the unreferenced ids, in order; and every buildpack occurs in some tree exactly when
      no reference was lost with an entry that a later one of the same id replaced. */
  lemma RootCoverage(bps: seq<BuildpackStatus>, trees: seq<Node>, rank: string -> nat)
    requires AreTrees(bps, trees) && Ranked(Lookup(bps), rank)
    ensures |trees| == |Unused(bps, bps)| && forall i :: 0 <= i < |trees| ==> trees[i].buildpack.id == Unused(bps, bps)[i]
    ensures forall id :: (exists t :: t in trees && t.buildpack.id == id) <==> !Used(bps, id) && exists bp :: bp in bps && bp.id == id
    ensures (forall bp :: bp in bps ==> Covered(trees, bp.id)) <==> UsesKept(bps)
  {
    RootsAreUnused(bps, trees);
    if UsesKept(bps) {
      KeptUsesCover(bps, trees, rank);
    }
    if forall bp :: bp in bps ==> Covered(trees, bp.id) {
      CoverKeepsUses(bps, trees);
    }
  }

  ghost predicate DistinctIds(bps: seq<BuildpackStatus>) {
    forall i, j :: 0 <= i < j < |bps| ==> bps[i].id != bps[j].id
  }

  lemma {:induction false} LookupKeepsAll(bps: seq<BuildpackStatus>, bp: BuildpackStatus)
    requires DistinctIds(bps) && bp in bps
    ensures Lookup(bps)[bp.id] == bp
    decreases |bps|
  {
    var rest, last := bps[..|bps| - 1], bps[|bps| - 1];
    if bp in rest {
      var i :| 0 <= i < |rest| && rest[i] == bp;
      assert bps[i].id != bps[|bps| - 1].id;
      LookupKeepsAll(rest, bp);
    }
  }

  /** With one buildpack per id nothing is lost. */
  lemma DistinctIdsKeepUses(bps: seq<BuildpackStatus>)
    requires DistinctIds(bps)
    ensures UsesKept(bps)
  {
    var lookup := Lookup(bps);
    forall bp | bp in bps && Used(bps, bp.id) ensures exists p :: p in lookup && RefersTo(lookup[p], bp.id) {
      var user :| user in bps && RefersTo(user, bp.id);
      LookupKeepsAll(bps, user);
      assert user.id in lookup && RefersTo(lookup[user.id], bp.id);
    }
  }

  lemma CoveredByOnly(trees: seq<Node>, id: string)
    requires |trees| == 1
    ensures Covered(trees, id) <==> Occurs(trees[0], id)
  {
    assert trees[0] in trees;
  }

  /** When there is a single tree, as an object reference demands, every buildpack is reachable from its root exactly when
      no use of an id was lost with a replaced entry; with distinct ids none is. */
  lemma SingleTreeReachesAll(bps: seq<BuildpackStatus>, trees: seq<Node>, rank: string -> nat)
    requires AreTrees(bps, trees) && Ranked(Lookup(bps), rank) && |trees| == 1
    ensures (forall bp :: bp in bps ==> Occurs(trees[0], bp.id)) <==> UsesKept(bps)
    ensures DistinctIds(bps) ==> UsesKept(bps)
  {
    RootCoverage(bps, trees, rank);
    forall bp | bp in bps ensures Covered(trees, bp.id) <==> Occurs(trees[0], bp.id) {
      CoveredByOnly(trees, bp.id);
    }
    if DistinctIds(bps) {
      DistinctIdsKeepUses(bps);
    }
  }

  /** Two buildpacks of one id: the first refers to b, the second replaces it, and b is in no tree. */
  lemma ReplacedEntryLosesBuildpack(a: BuildpackStatus, b: BuildpackStatus, trees: seq<Node>)
    requires a.id != b.id && Refs(a.order) == [BuildpackRef(b.id, "", false)] && b.order == []
    requires AreTrees([a, a.(order := []), b], trees)
    ensures |trees| == 2 && !Covered(trees, b.id)
  {
    var a' := a.(order := []);
    var bps := [a, a', b];
    ReplacedLookup(a, b);
    ReplacedUnused(a, b);
    if Covered(trees, b.id) {
      var t :| t in trees && Occurs(t, b.id);
      var i :| 0 <= i < |trees| && trees[i] == t;
      OccursReferred(Lookup(bps), Unused(bps, bps)[i], t, b.id);
    }
  }

  lemma ReplacedLookup(a: BuildpackStatus, b: BuildpackStatus)
    requires a.id != b.id
    ensures Lookup([a, a.(order := []), b]) == map[a.id := a.(order := []), b.id := b]
  {
    var a' := a.(order := []);
    assert [a, a', b][..2] == [a, a'] && [a, a'][..1] == [a] && [a][..0] == [];
    assert Lookup([a]) == map[a.id := a];
    assert Lookup([a, a']) == map[a.id := a'];
  }

  lemma ReplacedUnused(a: BuildpackStatus, b: BuildpackStatus)
    requires a.id != b.id && Refs(a.order) == [BuildpackRef(b.id, "", false)] && b.order == []
    ensures var bps := [a, a.(order := []), b]; Unused(bps, bps) == [a.id, a.id]
  {
    var a' := a.(order := []);
    var bps := [a, a', b];
    assert bps[..2] == [a, a'] && [a, a'][..1] == [a] && [a][..0] == [];
    assert BuildpackRef(b.id, "", false) in Refs(a.order) && a in bps;
    assert RefersTo(a, b.id) && !Used(bps, a.id);
    assert Unused([a], bps) == [a.id];
    assert Unused([a, a'], bps) == [a.id, a.id];
  }
}
