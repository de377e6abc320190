// pkg/reconciler/sourceresolver: resolving a source again and again, and keeping
// the old commit while the subpath's tree stays the same.
module SourceResolving {
  import opened Common
  import opened BuildApi
  import BuildChange
  import BuildRequired

  const ACTIVE_POLLING := OtherKind("ActivePolling")

  /** What is in the repositories: the hash of the entry at a URL, commit and path, or "" when there is none. */
  type Trees = (string, string, string) -> string

  /** What listing the remote finds for the configured revision. */
  datatype Listing = ListingFailed | Listed(found: Option<(string, GitSourceKind)>)

  /** What fetching the configured revision gives. A commit that only looks like one may not be present. */
  datatype Fetch = FetchFailed(error: string) | Fetched(hash: string, kind: GitSourceKind, present: bool)

  /** Everything a resolution learns from outside. */
  datatype Outcome = Outcome(keychain: Result<()>, listing: Listing, fetch: Fetch)

  function TrimLeft(s: string): string {
    if s != "" && s[0] == '/' then TrimLeft(s[1..]) else s
  }

  function TrimRight(s: string): string {
    if s != "" && s[|s| - 1] == '/' then TrimRight(s[..|s| - 1]) else s
  }

  /** strings.Trim(subPath, "/"). */
  function Trim(s: string): string {
    TrimRight(TrimLeft(s))
  }

  /** remote_git_resolver_clone.go:84-114. */
  function HashOfSubpath(trees: Trees, url: string, subPath: string, hash: string, present: bool): string {
    var path := Trim(subPath);
    if path == "" || !present then "" else trees(url, hash, path)
  }

  /** remote_git_resolver.go:20-72 and remote_git_resolver_clone.go:23-82. */
  function ResolveGit(trees: Trees, shallow: bool, git: Git, subPath: string, outcome: Outcome): Result<ResolvedSource> {
    if outcome.keychain.Err? then Err(outcome.keychain.error)
    else if shallow && subPath != "" then
      match outcome.fetch
      case FetchFailed(error) => Err(error)
      case Fetched(hash, kind, present) =>
        Ok(ResolvedGit(git.url, hash, subPath, HashOfSubpath(trees, git.url, subPath, hash, present), kind, git.initializeSubmodules))
    else
      match outcome.listing
      case ListingFailed => Ok(ResolvedGit(git.url, git.revision, subPath, "", Unknown, git.initializeSubmodules))
      case Listed(None) => Ok(ResolvedGit(git.url, git.revision, subPath, "", Commit, git.initializeSubmodules))
      case Listed(Some(ref)) => Ok(ResolvedGit(git.url, ref.0, subPath, "", ref.1, git.initializeSubmodules))
  }

  /** sourceresolver.go:124-133. A resolved blob does not carry the components to strip (pkg/blob/resolver.go:13-21). */
  function Resolve(trees: Trees, shallow: bool, source: SourceConfig, outcome: Outcome): Result<ResolvedSource> {
    if source.git.Some? then ResolveGit(trees, shallow, source.git.value, source.subPath, outcome)
    else if source.blob.Some? then Ok(ResolvedBlob(source.blob.value.url, source.blob.value.auth, source.subPath, 0))
    else if source.registry.Some?
    then Ok(ResolvedRegistry(source.registry.value.image, source.subPath, source.registry.value.imagePullSecrets))
    else Err("invalid source type")
  }

  /** source_resolver.go:11-33: a resolution that found nothing new keeps what is known for this generation. */
  function WithSource(sr: SourceResolver, resolved: ResolvedSource): SourceResolver {
    if resolved.IsUnknown() && sr.status.observedGeneration == sr.generation then sr
    else
      var polling := if resolved.IsPollable() then ConditionTrue else ConditionFalse;
      sr.(status := sr.status.(source := Some(resolved),
                               conditions := [Condition(ConditionKind.Ready, ConditionTrue, NoReason, ""),
                                              Condition(ACTIVE_POLLING, polling, NoReason, "")]))
  }

  function Tree(source: Option<ResolvedSource>): string {
    if source.Some? && source.value.ResolvedGit? then source.value.tree else ""
  }

  /** sourceresolver.go:154-162. */
  predicate Retains(original: Option<ResolvedSource>, desired: Option<ResolvedSource>) {
    && Tree(original) != "" && Tree(desired) != ""
    && original.value.revision != desired.value.revision && Tree(original) == Tree(desired)
  }

  function RetainCommit(original: Option<ResolvedSource>, desired: Option<ResolvedSource>): Option<ResolvedSource> {
    if Retains(original, desired) then Some(desired.value.(revision := original.value.revision)) else desired
  }

  /** The object with the status that a reconcile wants to write. */
  function Desired(trees: Trees, shallow: bool, sr: SourceResolver, outcome: Outcome): Result<SourceResolver> {
    match Resolve(trees, shallow, sr.spec.source, outcome)
    case Err(e) => Err(e)
    case Ok(resolved) =>
      var fresh_ := WithSource(sr, resolved).status;
      var source := if shallow then RetainCommit(sr.status.source, fresh_.source) else fresh_.source;
      Ok(sr.(status := fresh_.(observedGeneration := sr.generation, source := source)))
  }

  // Runs.

  /** A poll may fail to queue the resolver or to write what it found; the flag may differ between polls. */
  datatype Step =
    | Poll(shallow: bool, outcome: Outcome, written: bool)
    | Edit(spec: SourceResolverSpec)

  function Next(trees: Trees, sr: SourceResolver, step: Step): SourceResolver {
    match step
    case Edit(spec) => if spec == sr.spec then sr else sr.(spec := spec, generation := sr.generation + 1)
    case Poll(shallow, outcome, written) =>
      var desired := Desired(trees, shallow, sr, outcome);
      if desired.Ok? && written then desired.value else sr
  }

  /** The resolved source is that of the configured one, whatever its revision. */
  predicate FromSpec(config: SourceConfig, source: ResolvedSource) {
    && source.AsConfig().subPath == config.subPath
    && match source
       case ResolvedGit(url, _, _, _, _, submodules) =>
         config.git.Some? && config.git.value.url == url && config.git.value.initializeSubmodules == submodules
       case ResolvedBlob(url, auth, _, strip) =>
         config.git.None? && config.blob.Some? && config.blob.value.url == url && config.blob.value.auth == auth && strip == 0
       case ResolvedRegistry(image, _, secrets) =>
         config.git.None? && config.blob.None? && config.registry == Some(Registry(image, secrets))
  }

  ghost predicate Consistent(sr: SourceResolver) {
    && sr.status.observedGeneration <= sr.generation
    && BuildRequired.SourcePresent(sr)
    && (sr.status.observedGeneration == sr.generation ==>
         sr.status.source.Some? && FromSpec(sr.spec.source, sr.status.source.value))
  }

  lemma ResolvedFromSpec(trees: Trees, shallow: bool, source: SourceConfig, outcome: Outcome)
    ensures var r := Resolve(trees, shallow, source, outcome); r.Ok? ==> FromSpec(source, r.value)
  {
  }

  lemma StepConsistent(trees: Trees, sr: SourceResolver, step: Step)
    requires Consistent(sr)
    ensures Consistent(Next(trees, sr, step))
  {
    if step.Poll? {
      ResolvedFromSpec(trees, step.shallow, sr.spec.source, step.outcome);
    }
  }

  /** The stored tree is the tree of the stored revision at the stored place. */
  predicate Honest(trees: Trees, source: Option<ResolvedSource>) {
    Tree(source) != "" ==>
      && Trim(source.value.subPath) != ""
      && source.value.tree == trees(source.value.url, source.value.revision, Trim(source.value.subPath))
  }

  /** A retained commit is right when it is retained at the place where it was found. */
  lemma RetainedAtSamePlace(trees: Trees, original: Option<ResolvedSource>, desired: Option<ResolvedSource>)
    requires Honest(trees, original) && Honest(trees, desired) && (Retains(original, desired) ==> SamePlace(original, desired))
    ensures Honest(trees, RetainCommit(original, desired))
  {
  }

  predicate SamePlace(a: Option<ResolvedSource>, b: Option<ResolvedSource>)
    requires Tree(a) != "" && Tree(b) != ""
  {
    a.value.url == b.value.url && Trim(a.value.subPath) == Trim(b.value.subPath)
  }

  /** Trees are looked up only below a subpath. */
  predicate HasPath(source: Option<ResolvedSource>) {
    Tree(source) != "" ==> Trim(source.value.subPath) != ""
  }

  /** Repositories that hold what two resolutions found, and nothing else. */
  function Holding(a: ResolvedSource, b: ResolvedSource): Trees
    requires a.ResolvedGit? && b.ResolvedGit?
  {
    (url, commit, path) =>
      if (url, commit, path) == (a.url, a.revision, Trim(a.subPath)) then a.tree
      else if (url, commit, path) == (b.url, b.revision, Trim(b.subPath)) then b.tree
      else ""
  }

  /** Commit retention is right whatever the repositories hold exactly when a commit is retained only while URL and
      path stay as they are, which the code does not ask. */
  lemma RetentionExact(original: Option<ResolvedSource>, desired: Option<ResolvedSource>)
    requires HasPath(original) && HasPath(desired)
    ensures (forall trees: Trees :: Honest(trees, original) && Honest(trees, desired) ==> Honest(trees, RetainCommit(original, desired)))
      <==> (Retains(original, desired) ==> SamePlace(original, desired))
  {
    if Retains(original, desired) ==> SamePlace(original, desired) {
      forall trees: Trees | Honest(trees, original) && Honest(trees, desired) ensures Honest(trees, RetainCommit(original, desired)) {
        RetainedAtSamePlace(trees, original, desired);
      }
    } else {
      var trees := Holding(original.value, desired.value);
      assert Honest(trees, original) && Honest(trees, desired) && !Honest(trees, RetainCommit(original, desired));
    }
  }

  /** The configured and the stored git source are at this URL and path. */
  predicate At(sr: SourceResolver, url: string, path: string) {
    && sr.spec.source.git.Some? && sr.spec.source.git.value.url == url && Trim(sr.spec.source.subPath) == path
    && (Tree(sr.status.source) != "" ==> sr.status.source.value.url == url && Trim(sr.status.source.value.subPath) == path)
  }

  predicate Stays(step: Step, url: string, path: string) {
    step.Edit? ==> step.spec.source.git.Some? && step.spec.source.git.value.url == url && Trim(step.spec.source.subPath) == path
  }

  lemma ResolvedAt(trees: Trees, shallow: bool, sr: SourceResolver, outcome: Outcome, url: string, path: string)
    requires At(sr, url, path)
    ensures var r := Resolve(trees, shallow, sr.spec.source, outcome);
      r.Ok? ==> r.value.ResolvedGit? && r.value.url == url && Trim(r.value.subPath) == path && Honest(trees, Some(r.value))
  {
  }

  lemma StepHonest(trees: Trees, sr: SourceResolver, step: Step, url: string, path: string)
    requires At(sr, url, path) && Honest(trees, sr.status.source) && Stays(step, url, path)
    ensures var sr' := Next(trees, sr, step); At(sr', url, path) && Honest(trees, sr'.status.source)
  {
    if step.Poll? {
      ResolvedAt(trees, step.shallow, sr, step.outcome, url, path);
      var r := Resolve(trees, step.shallow, sr.spec.source, step.outcome);
      if r.Ok? {
        RetainedAtSamePlace(trees, sr.status.source, WithSource(sr, r.value).status.source);
      }
    }
  }

  ghost predicate IsRun(trees: Trees, srs: seq<SourceResolver>, steps: seq<Step>) {
    && |srs| == |steps| + 1
    && forall i :: 0 <= i < |steps| ==> srs[i + 1] == Next(trees, srs[i], steps[i])
  }

  /** A new resolver: nothing observed, nothing resolved. */
  predicate IsNew(sr: SourceResolver) {
    sr.generation > 0 && sr.status == SourceResolverStatus(0, [], None)
  }

  /** Repositories in which the directory was at one path in the first commit and is at another in the second. */
  function Moved(first: string, oldPath: string, second: string, newPath: string, tree: string): Trees {
    (url, commit, path) => if (commit, path) == (first, oldPath) || (commit, path) == (second, newPath) then tree else ""
  }

  function Found(hash: string): Outcome {
    Outcome(Ok(()), ListingFailed, Fetched(hash, Branch, true))
  }

  /** The status after a poll that found a branch at this source. */
  function BranchStatus(generation: nat, source: ResolvedSource): SourceResolverStatus {
    SourceResolverStatus(generation,
                         [Condition(ConditionKind.Ready, ConditionTrue, NoReason, ""),
                          Condition(ACTIVE_POLLING, ConditionTrue, NoReason, "")],
                         Some(source))
  }

  lemma BranchIsReady(sr: SourceResolver, source: ResolvedSource)
    ensures sr.(status := BranchStatus(sr.generation, source)).Ready()
  {
  }

  function GitSpec(git: Git, account: string, subPath: string): SourceResolverSpec {
    SourceResolverSpec(account, SourceConfig(Some(git), None, None, subPath))
  }

  lemma PollFinds(trees: Trees, sr: SourceResolver, git: Git, account: string, subPath: string, hash: string)
    requires sr.spec == GitSpec(git, account, subPath) && Trim(subPath) != "" && subPath != ""
    ensures var found := ResolvedGit(git.url, hash, subPath, trees(git.url, hash, Trim(subPath)), Branch, git.initializeSubmodules);
      Next(trees, sr, Poll(true, Found(hash), true))
      == sr.(status := BranchStatus(sr.generation, RetainCommit(sr.status.source, Some(found)).value))
  {
  }

  /** Retention does not look at the place. The resolver polls, the directory moves, the subpath follows it, the resolver
      polls again: it is ready, and its revision is a commit that has nothing at its subpath. */
  lemma MovedDirectoryKeepsOldCommit(sr: SourceResolver, git: Git, account: string, first: string, oldPath: string,
                                     second: string, newPath: string, tree: string) returns (srs: seq<SourceResolver>, steps: seq<Step>)
    requires IsNew(sr) && sr.spec == GitSpec(git, account, oldPath)
    requires first != second && tree != "" && Trim(oldPath) != "" && Trim(newPath) != "" && Trim(oldPath) != Trim(newPath)
    ensures var trees := Moved(first, Trim(oldPath), second, Trim(newPath), tree);
      && IsRun(trees, srs, steps) && srs[0] == sr
      && steps == [Poll(true, Found(first), true), Edit(GitSpec(git, account, newPath)), Poll(true, Found(second), true)]
      && srs[3].Ready() && !Honest(trees, srs[3].status.source)
      && srs[3].status.source == Some(ResolvedGit(git.url, first, newPath, tree, Branch, git.initializeSubmodules))
      && trees(git.url, first, Trim(newPath)) == ""
  {
    var trees := Moved(first, Trim(oldPath), second, Trim(newPath), tree);
    assert oldPath != "" && newPath != "";
    steps := [Poll(true, Found(first), true), Edit(GitSpec(git, account, newPath)), Poll(true, Found(second), true)];
    var sr1 := Next(trees, sr, steps[0]);
    PollFinds(trees, sr, git, account, oldPath, first);
    var sr2 := Next(trees, sr1, steps[1]);
    var sr3 := Next(trees, sr2, steps[2]);
    PollFinds(trees, sr2, git, account, newPath, second);
    srs := [sr, sr1, sr2, sr3];
    BranchIsReady(sr2, sr3.status.source.value);
  }

  /** Over any polls, edits and lost writes, a ready resolver has a source, and it is that of the current spec. */
  lemma {:induction false} RunConsistent(trees: Trees, srs: seq<SourceResolver>, steps: seq<Step>, i: nat)
    requires IsRun(trees, srs, steps) && IsNew(srs[0]) && i < |srs|
    ensures Consistent(srs[i])
    ensures srs[i].Ready() ==> srs[i].status.source.Some? && FromSpec(srs[i].spec.source, srs[i].status.source.value)
  {
    if i > 0 {
      RunConsistent(trees, srs, steps, i - 1);
      StepConsistent(trees, srs[i - 1], steps[i - 1]);
    }
  }

  /** Commit retention, first half: with URL and path fixed, the stored tree is always that of the stored revision. */
  lemma {:induction false} RunHonest(trees: Trees, srs: seq<SourceResolver>, steps: seq<Step>, i: nat, url: string, path: string)
    requires IsRun(trees, srs, steps) && i < |srs|
    requires At(srs[0], url, path) && Honest(trees, srs[0].status.source)
    requires forall step :: step in steps ==> Stays(step, url, path)
    ensures At(srs[i], url, path) && Honest(trees, srs[i].status.source)
  {
    if i > 0 {
      RunHonest(trees, srs, steps, i - 1, url, path);
      StepHonest(trees, srs[i - 1], steps[i - 1], url, path);
    }
  }

  /** Second half, one step: a stored tree that stays keeps the revision, and a new tree comes with a new revision. */
  lemma TreeDecidesRevision(trees: Trees, sr: SourceResolver, outcome: Outcome, url: string, path: string)
    requires At(sr, url, path) && Honest(trees, sr.status.source) && Tree(sr.status.source) != ""
    ensures var d := Desired(trees, true, sr, outcome);
      d.Ok? && Tree(d.value.status.source) != "" ==>
        (d.value.status.source.value.revision == sr.status.source.value.revision
         <==> Tree(d.value.status.source) == Tree(sr.status.source))
  {
    StepHonest(trees, sr, Poll(true, outcome, true), url, path);
  }

  /** Every commit the step can see has this tree. */
  predicate Sees(trees: Trees, step: Step, url: string, path: string, tree: string) {
    && (step.Poll? ==> step.shallow)
    && (step.Poll? && step.outcome.fetch.Fetched? ==>
         step.outcome.fetch.present && trees(url, step.outcome.fetch.hash, path) == tree)
  }

  lemma UnchangedTreeStep(trees: Trees, sr: SourceResolver, step: Step, url: string, path: string, tree: string)
    requires At(sr, url, path) && path != "" && Stays(step, url, path) && Sees(trees, step, url, path, tree)
    requires tree != "" && Tree(sr.status.source) == tree
    ensures var sr' := Next(trees, sr, step);
      && At(sr', url, path) && Tree(sr'.status.source) == tree
      && sr'.status.source.value.revision == sr.status.source.value.revision
  {
    if step.Poll? {
      assert sr.spec.source.subPath != "";
      ResolvedAt(trees, step.shallow, sr, step.outcome, url, path);
    }
  }

  lemma {:induction false} UnchangedTreeRun(trees: Trees, srs: seq<SourceResolver>, steps: seq<Step>, i: nat, url: string, path: string)
    requires IsRun(trees, srs, steps) && i < |srs| && path != ""
    requires At(srs[0], url, path) && Tree(srs[0].status.source) != ""
    requires forall step :: step in steps ==> Stays(step, url, path) && Sees(trees, step, url, path, Tree(srs[0].status.source))
    ensures At(srs[i], url, path) && Tree(srs[i].status.source) == Tree(srs[0].status.source)
    ensures srs[i].status.source.value.revision == srs[0].status.source.value.revision
  {
    if i > 0 {
      UnchangedTreeRun(trees, srs, steps, i - 1, url, path);
      UnchangedTreeStep(trees, srs[i - 1], steps[i - 1], url, path, Tree(srs[0].status.source));
    }
  }

  /** However many commits are polled, and even if the configured revision is edited, a tree that stays the same
      never asks for a COMMIT build. */
  lemma UnchangedTreeNeverBuilds(trees: Trees, srs: seq<SourceResolver>, steps: seq<Step>, i: nat, url: string, path: string, build: Build)
    requires IsRun(trees, srs, steps) && i < |srs| && path != ""
    requires At(srs[0], url, path) && Tree(srs[0].status.source) != ""
    requires forall step :: step in steps ==> Stays(step, url, path) && Sees(trees, step, url, path, Tree(srs[0].status.source))
    requires build.spec.source == srs[0].status.source.value.AsConfig()
    ensures srs[i].status.source.Some? && BuildRequired.Quiet(BuildRequired.CommitOf(Some(build), srs[i].status.source.value))
  {
    UnchangedTreeRun(trees, srs, steps, i, url, path);
  }

  predicate Polls(sr: SourceResolver) {
    IsTrue(GetCondition(sr.status.conditions, ACTIVE_POLLING))
  }

  // The controller.

  /** The deep copy that a reconcile works on. */
  class SourceResolverCopy {
    var object_: SourceResolver

    constructor (sr: SourceResolver)
      ensures object_ == sr
    {
      object_ := sr;
    }

    method ResolvedSource(config: ResolvedSource)
      modifies this
      ensures object_ == WithSource(old(object_), config)
    {
      if config.IsUnknown() && object_.status.observedGeneration == object_.generation {
        return;
      }
      var conditions := [Condition(ConditionKind.Ready, ConditionTrue, NoReason, "")];
      var pollingStatus := ConditionFalse;
      if config.IsPollable() {
        pollingStatus := ConditionTrue;
      }
      conditions := conditions + [Condition(ACTIVE_POLLING, pollingStatus, NoReason, "")];
      object_ := object_.(status := object_.status.(source := Some(config), conditions := conditions));
    }

    predicate PollingReady()
      reads this
    {
      Polls(object_)
    }
  }

  class Reconciler {
    const useShallowClone: bool
    /** What the API server holds. */
    var stored: SourceResolver
    /** How often the resolver was queued to be polled again. */
    var enqueued: nat

    constructor (useShallowClone: bool, stored: SourceResolver)
      ensures this.useShallowClone == useShallowClone && this.stored == stored && enqueued == 0
    {
      this.useShallowClone, this.stored, enqueued := useShallowClone, stored, 0;
    }

    method RetainCommitIfTreeUnchanged(original: SourceResolverStatus, desired: SourceResolverCopy)
      modifies desired
      ensures desired.object_ ==
        old(desired.object_).(status := old(desired.object_.status).(source := RetainCommit(original.source, old(desired.object_.status.source))))
    {
      var source := desired.object_.status.source;
      if original.source.None? || source.None? || !original.source.value.ResolvedGit? || !source.value.ResolvedGit? {
        return;
      }
      if original.source.value.tree == "" || source.value.tree == "" {
        return;
      }
      if original.source.value.revision != source.value.revision && original.source.value.tree == source.value.tree {
        var kept := source.value.(revision := original.source.value.revision);
        desired.object_ := desired.object_.(status := desired.object_.status.(source := Some(kept)));
      }
    }

    method UpdateStatus(desired: SourceResolverCopy, writeFails: bool) returns (ok: bool)
      modifies this`stored, desired
      requires desired.object_.(status := stored.status) == stored
      ensures ok ==> stored == old(desired.object_).(status := old(desired.object_.status).(
        source := if useShallowClone then RetainCommit(old(stored).status.source, old(desired.object_.status.source))
                  else old(desired.object_.status.source)))
      ensures !ok ==> writeFails && stored == old(stored)
    {
      if useShallowClone {
        RetainCommitIfTreeUnchanged(stored.status, desired);
      }
      if stored.status == desired.object_.status {
        return true;
      }
      if writeFails {
        return false;
      }
      stored := desired.object_;
      return true;
    }

    /** sourceresolver.go:86-122. What is stored afterwards is the next state of a poll step. A pollable source is queued
        again, also when its status cannot be written; when it cannot be queued, nothing is written. */
    method Reconcile(trees: Trees, outcome: Outcome, enqueueFails: bool, writeFails: bool) returns (ok: bool)
      modifies this
      ensures ok ==> Desired(trees, useShallowClone, old(stored), outcome).Ok?
      ensures stored == Next(trees, old(stored), Poll(useShallowClone, outcome, ok))
      ensures !ok ==> writeFails || enqueueFails || Resolve(trees, useShallowClone, old(stored).spec.source, outcome).Err?
      ensures enqueued == old(enqueued) + (match Desired(trees, useShallowClone, old(stored), outcome)
        case Err(_) => 0
        case Ok(d) => if Polls(d) && !enqueueFails then 1 else 0)
      ensures ok && enqueueFails ==> !Polls(Desired(trees, useShallowClone, old(stored), outcome).value)
    {
      var copy := new SourceResolverCopy(stored);
      match Resolve(trees, useShallowClone, stored.spec.source, outcome) {
        case Err(_) =>
          return false;
        case Ok(resolved) =>
          copy.ResolvedSource(resolved);
          if copy.PollingReady() {
            if enqueueFails {
              return false;
            }
            enqueued := enqueued + 1;
          }
          copy.object_ := copy.object_.(status := copy.object_.status.(observedGeneration := copy.object_.generation));
          ok := UpdateStatus(copy, writeFails);
      }
    }
  }
}
