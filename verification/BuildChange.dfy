// pkg/buildchange: the six kinds of change, the processor that collects them,
// and the config comparison that works through shared pointers.
module BuildChange {
  import opened Common
  import opened BuildApi
  import Text

  datatype Config = Config(settings: BuildSettings, source: SourceConfig)

  datatype BuildpackInfo = BuildpackInfo(id: string, version: string)

  const PRIORITY_NONE := 0
  const PRIORITY_LOW := 1
  const PRIORITY_HIGH := 1000

  /** Git revisions are the business of the commit change, so a config comparison blanks them. */
  function WithoutRevision(source: SourceConfig): SourceConfig {
    match source.git
    case None => source
    case Some(git) => source.(git := Some(git.(revision := "")))
  }

  datatype Change =
    | TriggerChange(message: string)
    | CommitChange(oldRevision: string, newRevision: string)
    | ConfigChange(oldConfig: Config, newConfig: Config)
    | BuildpackChange(missing: seq<BuildpackInfo>)
    | StackChange(oldDigest: string, newDigest: string, err: Option<string>)
    | LifecycleChange(oldLifecycle: string, newLifecycle: string)
  {
    function Reason(): string {
      match this
      case TriggerChange(_) => "TRIGGER"
      case CommitChange(_, _) => "COMMIT"
      case ConfigChange(_, _) => "CONFIG"
      case BuildpackChange(_) => "BUILDPACK"
      case StackChange(_, _, _) => "STACK"
      case LifecycleChange(_, _) => "LIFECYCLE"
    }

    function Priority(): int {
      if TriggerChange? || CommitChange? || ConfigChange? then PRIORITY_HIGH else PRIORITY_LOW
    }

    function IsBuildRequired(): Result<bool> {
      match this
      case TriggerChange(message) => Ok(message != "")
      case CommitChange(o, n) => Ok(o != n)
      case ConfigChange(o, n) =>
        Ok(o.settings != n.settings || WithoutRevision(o.source) != WithoutRevision(n.source))
      case BuildpackChange(missing) => Ok(missing != [])
      case StackChange(o, n, err) => if err.Some? then Err(err.value) else Ok(o != n)
      case LifecycleChange(o, n) => Ok(o != n)
    }
  }

  /** stack_change.go:12-34: the identifiers of both references, or the errors of parsing them. */
  function NewStackChange(oldRef: ImageRef, newRef: ImageRef): Change {
    var errs := (if oldRef.identifier.None? then ["could not parse reference: " + oldRef.text] else [])
              + (if newRef.identifier.None? then ["could not parse reference: " + newRef.text] else []);
    StackChange(
      if oldRef.identifier.Some? then oldRef.identifier.value else "",
      if newRef.identifier.Some? then newRef.identifier.value else "",
      if errs == [] then None else Some(Text.Join(errs, "; ")))
  }

  datatype ChangeSummary = ChangeSummary(hasChanges: bool, reasonsStr: string, changesStr: string, priority: int)

  /** The changes among a list of candidates (nil candidates are skipped) that ask for a build. */
  function Required(candidates: seq<Option<Change>>): (required: seq<Change>)
    ensures forall c :: c in required ==> c.IsBuildRequired() == Ok(true) && Some(c) in candidates
    ensures required == [] <==> forall c :: Some(c) in candidates ==> c.IsBuildRequired() != Ok(true)
  {
    if candidates == [] then []
    else
      var rest := Required(candidates[1..]);
      var head := candidates[0];
      assert candidates == [head] + candidates[1..];
      if head.Some? && head.value.IsBuildRequired() == Ok(true) then [head.value] + rest else rest
  }

  lemma {:induction false} RequiredAppend(a: seq<Option<Change>>, b: seq<Option<Change>>)
    ensures Required(a + b) == Required(a) + Required(b)
  {
    if a == [] {
      assert a + b == b;
    } else {
      assert (a + b)[1..] == a[1..] + b && (a + b)[0] == a[0];
      RequiredAppend(a[1..], b);
    }
  }

  function Errors(candidates: seq<Option<Change>>): (errs: seq<string>)
    ensures errs == [] <==> forall c :: Some(c) in candidates ==> c.IsBuildRequired().Ok?
  {
    if candidates == [] then []
    else
      var rest := Errors(candidates[1..]);
      var head := candidates[0];
      assert candidates == [head] + candidates[1..];
      if head.Some? && head.value.IsBuildRequired().Err? then
        ["error determining if build is required for reason '" + head.value.Reason() + "': "
         + head.value.IsBuildRequired().error] + rest
      else rest
  }

  lemma {:induction false} ErrorsAppend(a: seq<Option<Change>>, b: seq<Option<Change>>)
    ensures Errors(a + b) == Errors(a) + Errors(b)
  {
    if a == [] {
      assert a + b == b;
    } else {
      assert (a + b)[1..] == a[1..] + b && (a + b)[0] == a[0];
      ErrorsAppend(a[1..], b);
    }
  }

  function Reasons(changes: seq<Change>): (reasons: seq<string>)
    ensures |reasons| == |changes|
    ensures forall i :: 0 <= i < |changes| ==> reasons[i] == changes[i].Reason()
  {
    seq(|changes|, i requires 0 <= i < |changes| => changes[i].Reason())
  }

  /** Stands for the JSON text of the changes: empty exactly when there are none. */
  function ChangesText(changes: seq<Change>): string {
    if changes == [] then "" else "[" + Text.Join(Reasons(changes), "] [") + "]"
  }

  function MaxPriority(changes: seq<Change>): int
    decreases |changes|
  {
    if changes == [] then PRIORITY_NONE
    else Max(MaxPriority(changes[..|changes| - 1]), changes[|changes| - 1].Priority())
  }

  function Summary(changes: seq<Change>): ChangeSummary {
    ChangeSummary(changes != [], Text.Join(Reasons(changes), ","), ChangesText(changes), MaxPriority(changes))
  }

  predicate IsValid(s: ChangeSummary) {
    s.hasChanges == (s.reasonsStr != "") && s.hasChanges == (s.changesStr != "")
  }

  /** Summaries of collected changes are always valid, so "error summarizing changes" cannot occur. */
  lemma SummaryIsValid(changes: seq<Change>)
    ensures IsValid(Summary(changes))
  {
    var reasons := Reasons(changes);
    if |changes| > 1 {
      assert reasons[0] != "";
    }
  }

  predicate Asked(c: Change) {
    c.TriggerChange? || c.CommitChange? || c.ConfigChange?
  }

  lemma MemberSplit(rest: seq<Change>, last: Change)
    ensures (exists c :: c in rest + [last] && Asked(c)) <==> Asked(last) || exists c :: c in rest && Asked(c)
  {
    assert last in rest + [last];
  }

  /** High priority means the user asked: a trigger, a commit or a config change is among the changes. */
  lemma {:induction false} PriorityMeaning(changes: seq<Change>)
    ensures MaxPriority(changes) == PRIORITY_HIGH <==>
      exists c :: c in changes && Asked(c)
    ensures MaxPriority(changes) == PRIORITY_NONE <==> changes == []
    ensures MaxPriority(changes) in {PRIORITY_NONE, PRIORITY_LOW, PRIORITY_HIGH}
    decreases |changes|
  {
    if changes != [] {
      var rest, last := changes[..|changes| - 1], changes[|changes| - 1];
      PriorityMeaning(rest);
      MemberSplit(rest, last);
      assert changes == rest + [last];
    }
  }

  /** The reason text that lets a build be a rebase (build.go:179-182) names the stack change alone. */
  lemma RebaseReasonIsStackAlone(changes: seq<Change>)
    ensures Text.Join(Reasons(changes), ",") == "STACK" <==> |changes| == 1 && changes[0].StackChange?
  {
    var reasons := Reasons(changes);
    if |changes| > 1 {
      var s := Text.Join(reasons, ",");
      assert s[|reasons[0]|] == ',';
      assert "STACK" != s by {
        assert ',' in s;
        assert ',' !in "STACK";
      }
    }
  }

  class ChangeProcessor {
    var changes: seq<Change>
    var errStrs: seq<string>

    constructor ()
      ensures changes == [] && errStrs == []
    {
      changes, errStrs := [], [];
    }

    method Process(change: Option<Change>)
      modifies this
      ensures changes == old(changes) + Required([change])
      ensures errStrs == old(errStrs) + Errors([change])
    {
      if change.None? {
        return;
      }
      match change.value.IsBuildRequired()
      case Err(e) =>
        errStrs := errStrs + ["error determining if build is required for reason '" + change.value.Reason() + "': " + e];
      case Ok(required) =>
        if required {
          changes := changes + [change.value];
        }
    }

    method HighestPriority() returns (priority: int)
      ensures priority == MaxPriority(changes)
    {
      priority := PRIORITY_NONE;
      for i := 0 to |changes|
        invariant priority == MaxPriority(changes[..i])
      {
        assert changes[..i + 1][..i] == changes[..i];
        if changes[i].Priority() > priority {
          priority := changes[i].Priority();
        }
      }
      assert changes[..|changes|] == changes;
    }

    method Summarize() returns (r: Result<ChangeSummary>)
      modifies this
      ensures changes == old(changes) && errStrs == old(errStrs)
      ensures errStrs != [] ==> r == Err(Text.Join(errStrs, "\n"))
      ensures errStrs == [] ==> r == Ok(Summary(changes))
    {
      var priority := HighestPriority();
      var reasons := Text.Join(Reasons(changes), ",");
      var summary := ChangeSummary(changes != [], reasons, ChangesText(changes), priority);
      SummaryIsValid(changes);
      assert IsValid(summary);
      if errStrs != [] {
        return Err(Text.Join(errStrs, "\n"));
      }
      return Ok(summary);
    }
  }

  /** The Git struct that build specs and resolved sources share by pointer. */
  class GitPtr {
    var url: string
    var revision: string
    var initializeSubmodules: bool

    constructor (git: Git)
      ensures View() == git
    {
      url, revision, initializeSubmodules := git.url, git.revision, git.initializeSubmodules;
    }

    function View(): Git
      reads this
    {
      Git(url, revision, initializeSubmodules)
    }
  }

  /** A Config whose git source is held by pointer; base holds everything else. */
  datatype ConfigPtr = ConfigPtr(base: Config, git: GitPtr?)
  {
    function View(): Config
      reads if git == null then {} else {git}
    {
      base.(source := base.source.(git := if git == null then None else Some(git.View())))
    }

    ghost function Cells(): set<object> {
      if git == null then {} else {git}
    }
  }

  /** config_change.go:33-56. The comparison is that of the change on values; the revisions it blanks
      come back, unless both configs hold the same struct and its revision was not already blank. */
  method ConfigIsBuildRequired(o: ConfigPtr, n: ConfigPtr) returns (valid: bool)
    modifies o.Cells(), n.Cells()
    ensures Ok(valid) == old(ConfigChange(o.View(), n.View()).IsBuildRequired())
    ensures o.View() == old(o.View()) && n.View() == old(n.View()) <==>
      !(o.git == n.git && o.git != null && old(o.View().source.git.value.revision) != "")
  {
    var oldRevision, newRevision := "", "";
    if o.git != null {
      oldRevision := o.git.revision;
      o.git.revision := "";
    }
    if n.git != null {
      newRevision := n.git.revision;
      n.git.revision := "";
    }
    valid := o.View() != n.View();
    if o.git != null {
      o.git.revision := oldRevision;
    }
    if n.git != null {
      n.git.revision := newRevision;
    }
  }
}
