// Stack mixins: what a stack provides (pkg/cnb/remote_stack_reader.go:110-149)
// and what a buildpack requires (pkg/cnb/buildpack_validation.go).
module Mixins {
  import opened Common
  import opened SemanticVersion
  import opened CnbApi
  import Text

  const BUILD := "build:"
  const RUN := "run:"

  predicate Bare(m: string) {
    !HasPrefix(m, BUILD) && !HasPrefix(m, RUN)
  }

  function WithPrefix(mixins: seq<string>, prefix: string): (r: seq<string>)
    ensures forall m :: m in r <==> m in mixins && HasPrefix(m, prefix)
    decreases |mixins|
  {
    if mixins == [] then []
    else
      var rest, last := mixins[..|mixins| - 1], mixins[|mixins| - 1];
      assert mixins == rest + [last];
      WithPrefix(rest, prefix) + if HasPrefix(last, prefix) then [last] else []
  }

  function OnlyBare(mixins: seq<string>): (r: seq<string>)
    ensures forall m :: m in r <==> m in mixins && Bare(m)
    decreases |mixins|
  {
    if mixins == [] then []
    else
      var rest, last := mixins[..|mixins| - 1], mixins[|mixins| - 1];
      assert mixins == rest + [last];
      OnlyBare(rest) + if Bare(last) then [last] else []
  }

  lemma PrefixesExclude(m: string)
    ensures !(HasPrefix(m, BUILD) && HasPrefix(m, RUN))
  {
    if HasPrefix(m, BUILD) {
      assert m[0] == BUILD[0] != RUN[0];
    }
  }

  /** remote_stack_reader.go:127-139. */
  method ClassifyMixins(mixins: seq<string>, validPrefix: string, invalidPrefix: string) returns (valid: seq<string>, invalid: seq<string>, common: seq<string>)
    requires (validPrefix == BUILD && invalidPrefix == RUN) || (validPrefix == RUN && invalidPrefix == BUILD)
    ensures valid == WithPrefix(mixins, validPrefix) && invalid == WithPrefix(mixins, invalidPrefix) && common == OnlyBare(mixins)
  {
    valid, invalid, common := [], [], [];
    for i := 0 to |mixins|
      invariant valid == WithPrefix(mixins[..i], validPrefix) && invalid == WithPrefix(mixins[..i], invalidPrefix)
      invariant common == OnlyBare(mixins[..i])
    {
      assert mixins[..i + 1][..i] == mixins[..i];
      PrefixesExclude(mixins[i]);
      if HasPrefix(mixins[i], validPrefix) {
        valid := valid + [mixins[i]];
      } else if HasPrefix(mixins[i], invalidPrefix) {
        invalid := invalid + [mixins[i]];
      } else {
        common := common + [mixins[i]];
      }
    }
    assert mixins[..|mixins|] == mixins;
  }

  method MissingCommonRunMixins(build: seq<string>, run: seq<string>) returns (missing: seq<string>)
    ensures missing == [] <==> forall m :: m in build ==> m in run
  {
    missing := [];
    for i := 0 to |build|
      invariant missing == [] <==> forall m :: m in build[..i] ==> m in run
    {
      assert build[..i + 1] == build[..i] + [build[i]];
      if !Present(run, build[i]) {
        missing := missing + [build[i]];
      }
    }
    assert build[..|build|] == build;
  }

  /** remote_stack_reader.go:110-125. */
  function StackMixins(build: seq<string>, run: seq<string>): Result<seq<string>> {
    if WithPrefix(build, RUN) != [] then Err("build image contains run-only mixin(s)")
    else if WithPrefix(run, BUILD) != [] then Err("run image contains build-only mixin(s)")
    else if exists m :: m in OnlyBare(build) && m !in OnlyBare(run) then Err("runImage missing required mixin(s)")
    else Ok(OnlyBare(build) + (WithPrefix(build, BUILD) + WithPrefix(run, RUN)))
  }

  method ReadMixins(build: seq<string>, run: seq<string>) returns (r: Result<seq<string>>)
    ensures r == StackMixins(build, run)
  {
    var buildStage, buildInvalid, buildCommon := ClassifyMixins(build, BUILD, RUN);
    if |buildInvalid| > 0 {
      return Err("build image contains run-only mixin(s)");
    }
    var runStage, runInvalid, runCommon := ClassifyMixins(run, RUN, BUILD);
    if |runInvalid| > 0 {
      return Err("run image contains build-only mixin(s)");
    }
    var missing := MissingCommonRunMixins(buildCommon, runCommon);
    if |missing| != 0 {
      return Err("runImage missing required mixin(s)");
    }
    r := Ok(buildCommon + (buildStage + runStage));
  }

  /** What ends up in the stack's list: everything of the build image, and of the run image what is marked "run:". */
  lemma StackMixinsMeaning(build: seq<string>, run: seq<string>)
    ensures StackMixins(build, run).Ok? <==>
      && (forall m :: m in build ==> !HasPrefix(m, RUN)) && (forall m :: m in run ==> !HasPrefix(m, BUILD))
      && (forall m :: m in build && Bare(m) ==> m in run)
    ensures StackMixins(build, run).Ok? ==>
      forall m :: m in StackMixins(build, run).value <==> m in build || (m in run && HasPrefix(m, RUN))
  {
    if WithPrefix(build, RUN) != [] {
      assert WithPrefix(build, RUN)[0] in WithPrefix(build, RUN);
    }
    if WithPrefix(run, BUILD) != [] {
      assert WithPrefix(run, BUILD)[0] in WithPrefix(run, BUILD);
    }
    if StackMixins(build, run).Ok? {
      forall m | m in build && Bare(m) ensures m in run {
        assert m in OnlyBare(build);
      }
    }
  }

  // Requirements.

  /** strings.SplitN(s, ":", 2)[1], which panics without a colon. */
  function StageRemoved(s: string): string
    requires ':' in s
  {
    if s[0] == ':' then s[1..] else StageRemoved(s[1..])
  }

  lemma StageRemovedPrefix(m: string)
    ensures ':' in BUILD + m && StageRemoved(BUILD + m) == m
    ensures ':' in RUN + m && StageRemoved(RUN + m) == m
  {
    assert BUILD + m == ['b'] + (['u'] + (['i'] + (['l'] + (['d'] + ([':'] + m)))));
    assert RUN + m == ['r'] + (['u'] + (['n'] + ([':'] + m)));
    RemoveLetter('d', [':'] + m);
    RemoveLetter('l', ['d'] + ([':'] + m));
    RemoveLetter('i', ['l'] + (['d'] + ([':'] + m)));
    RemoveLetter('u', ['i'] + (['l'] + (['d'] + ([':'] + m))));
    RemoveLetter('b', ['u'] + (['i'] + (['l'] + (['d'] + ([':'] + m)))));
    RemoveLetter('n', [':'] + m);
    RemoveLetter('u', ['n'] + ([':'] + m));
    RemoveLetter('r', ['u'] + (['n'] + ([':'] + m)));
    assert ([':'] + m)[1..] == m;
  }

  lemma RemoveLetter(c: char, s: string)
    requires c != ':' && ':' in s
    ensures ':' in [c] + s && StageRemoved([c] + s) == StageRemoved(s)
  {
    assert ([c] + s)[1..] == s;
    var i :| 0 <= i < |s| && s[i] == ':';
    assert ([c] + s)[i + 1] == ':';
  }

  /** buildpack_validation.go:63-82. */
  predicate MixinPresent(mixins: seq<string>, mixin: string, relaxed: bool) {
    if !relaxed then Present(mixins, mixin)
    else if HasPrefix(mixin, BUILD) || HasPrefix(mixin, RUN) then
      var stage := if HasPrefix(mixin, BUILD) then BUILD else RUN;
      assert mixin == stage + mixin[|stage|..];
      StageRemovedPrefix(mixin[|stage|..]);
      Present(mixins, mixin) || Present(mixins, StageRemoved(mixin))
    else Present(mixins, mixin) || (Present(mixins, BUILD + mixin) && Present(mixins, RUN + mixin))
  }

  predicate Accepts(provided: seq<string>, required: seq<string>, relaxed: bool) {
    forall m :: m in required ==> MixinPresent(provided, m, relaxed)
  }

  /** buildpack_validation.go:39-52. */
  method ValidateRequiredMixins(provided: seq<string>, required: seq<string>, relaxed: bool) returns (r: Result<()>)
    ensures r.Ok? <==> Accepts(provided, required, relaxed)
  {
    var missing := [];
    for i := 0 to |required|
      invariant missing == [] <==> Accepts(provided, required[..i], relaxed)
    {
      assert required[..i + 1] == required[..i] + [required[i]];
      if !MixinPresent(provided, required[i], relaxed) {
        missing := missing + [required[i]];
      }
    }
    assert required[..|required|] == required;
    r := if |missing| == 0 then Ok(()) else Err("stack missing mixin(s): " + Text.Join(missing, ", "));
  }

  /** The image for a stage provides m, plainly or marked for the stage. */
  predicate Provides(image: seq<string>, stage: string, m: string) {
    m in image || stage + m in image
  }

  /** What a requirement asks of the two images. */
  predicate Satisfied(build: seq<string>, run: seq<string>, required: string) {
    if HasPrefix(required, BUILD) then Provides(build, BUILD, required[|BUILD|..])
    else if HasPrefix(required, RUN) then Provides(run, RUN, required[|RUN|..])
    else Provides(build, BUILD, required) && Provides(run, RUN, required)
  }

  /** A name marked for one image whose base is marked for the other. */
  predicate Misleading(required: string) {
    || (HasPrefix(required, BUILD) && HasPrefix(required[|BUILD|..], RUN))
    || (HasPrefix(required, RUN) && HasPrefix(required[|RUN|..], BUILD))
  }

  /** Relaxed acceptance against a stack's list, spelled out on the two images. A bare mixin that only the run image has
      is not in the list, so it does not meet a "run:" requirement. */
  lemma RelaxedMeaning(build: seq<string>, run: seq<string>, m: string)
    requires StackMixins(build, run).Ok?
    ensures var list := StackMixins(build, run).value;
      && (MixinPresent(list, BUILD + m, true) <==> Provides(build, BUILD, m) || (m in run && HasPrefix(m, RUN)))
      && (MixinPresent(list, RUN + m, true) <==> RUN + m in run || m in build || (m in run && HasPrefix(m, RUN)))
      && (Bare(m) ==> (MixinPresent(list, m, true) <==> m in build || (BUILD + m in build && RUN + m in run)))
  {
    StackMixinsMeaning(build, run);
    StageRemovedPrefix(m);
    PrefixesExclude(BUILD + m);
    PrefixesExclude(RUN + m);
    assert HasPrefix(BUILD + m, BUILD) && HasPrefix(RUN + m, RUN);
  }

  lemma StrictImpliesRelaxed(provided: seq<string>, required: seq<string>)
    requires Accepts(provided, required, false)
    ensures Accepts(provided, required, true)
  {
    forall m | m in required ensures MixinPresent(provided, m, true) {
      assert MixinPresent(provided, m, false);
    }
  }

  lemma AcceptanceMonotone(provided: seq<string>, more: seq<string>, required: seq<string>, relaxed: bool)
    requires forall m :: m in provided ==> m in more
    requires Accepts(provided, required, relaxed)
    ensures Accepts(more, required, relaxed)
  {
    forall m | m in required ensures MixinPresent(more, m, relaxed) {
      assert MixinPresent(provided, m, relaxed);
    }
  }

  lemma StrictIsSatisfied(build: seq<string>, run: seq<string>, r: string)
    requires StackMixins(build, run).Ok? && r in StackMixins(build, run).value
    ensures Satisfied(build, run, r)
  {
    StackMixinsMeaning(build, run);
    PrefixesExclude(r);
    if HasPrefix(r, BUILD) {
      assert r in build && r == BUILD + r[|BUILD|..];
    } else if HasPrefix(r, RUN) {
      assert r in run && r == RUN + r[|RUN|..];
    } else {
      assert r in build && r in run;
    }
  }

  lemma RelaxedIsSatisfied(build: seq<string>, run: seq<string>, r: string)
    requires StackMixins(build, run).Ok? && MixinPresent(StackMixins(build, run).value, r, true) && !Misleading(r)
    ensures Satisfied(build, run, r)
  {
    StackMixinsMeaning(build, run);
    PrefixesExclude(r);
    if HasPrefix(r, BUILD) {
      assert r == BUILD + r[|BUILD|..];
      RelaxedMeaning(build, run, r[|BUILD|..]);
    } else if HasPrefix(r, RUN) {
      var m := r[|RUN|..];
      assert r == RUN + m;
      RelaxedMeaning(build, run, m);
    } else {
      RelaxedMeaning(build, run, r);
    }
  }

  lemma PresentIsSatisfied(build: seq<string>, run: seq<string>, r: string, relaxed: bool)
    requires StackMixins(build, run).Ok? && MixinPresent(StackMixins(build, run).value, r, relaxed)
    requires relaxed ==> !Misleading(r)
    ensures Satisfied(build, run, r)
  {
    if relaxed {
      RelaxedIsSatisfied(build, run, r);
    } else {
      StrictIsSatisfied(build, run, r);
    }
  }

  /** End to end: requirements that are accepted against the stack's list are met by the images themselves. */
  lemma AcceptedIsSatisfied(build: seq<string>, run: seq<string>, required: seq<string>, relaxed: bool)
    requires StackMixins(build, run).Ok? && Accepts(StackMixins(build, run).value, required, relaxed)
    requires relaxed ==> forall r :: r in required ==> !Misleading(r)
    ensures forall r :: r in required ==> Satisfied(build, run, r)
  {
    forall r | r in required ensures Satisfied(build, run, r) {
      PresentIsSatisfied(build, run, r, relaxed);
    }
  }

  lemma BuildOnlyMisleads(x: string)
    ensures StackMixins([BUILD + x], []).Ok? && MixinPresent(StackMixins([BUILD + x], []).value, RUN + (BUILD + x), true)
    ensures HasPrefix(RUN + (BUILD + x), RUN) && !Satisfied([BUILD + x], [], RUN + (BUILD + x))
  {
    var m := BUILD + x;
    PrefixesExclude(m);
    PrefixesExclude(RUN + m);
    assert HasPrefix(m, BUILD) && HasPrefix(RUN + m, RUN) && (RUN + m)[|RUN|..] == m;
    StackMixinsMeaning([m], []);
    RelaxedMeaning([m], [], m);
  }

  lemma RunOnlyMisleads(x: string)
    ensures StackMixins([], [RUN + x]).Ok? && MixinPresent(StackMixins([], [RUN + x]).value, BUILD + (RUN + x), true)
    ensures HasPrefix(BUILD + (RUN + x), BUILD) && !Satisfied([], [RUN + x], BUILD + (RUN + x))
  {
    var m := RUN + x;
    PrefixesExclude(m);
    PrefixesExclude(BUILD + m);
    assert HasPrefix(m, RUN) && HasPrefix(BUILD + m, BUILD) && (BUILD + m)[|BUILD|..] == m;
    StackMixinsMeaning([], [m]);
    RelaxedMeaning([], [m], m);
  }

  /** Acceptance of a requirement is right for all images exactly when it is strict, or the requirement is neither
      "build:run:x", which a "run:x" of the run image meets in the eyes of the check, nor "run:build:x". */
  lemma RequirementSoundIff(r: string, relaxed: bool)
    ensures (forall build, run :: StackMixins(build, run).Ok? && MixinPresent(StackMixins(build, run).value, r, relaxed)
               ==> Satisfied(build, run, r))
      <==> !(relaxed && Misleading(r))
  {
    if !(relaxed && Misleading(r)) {
      forall build, run | StackMixins(build, run).Ok? && MixinPresent(StackMixins(build, run).value, r, relaxed)
        ensures Satisfied(build, run, r)
      {
        PresentIsSatisfied(build, run, r, relaxed);
      }
    } else if HasPrefix(r, BUILD) && HasPrefix(r[|BUILD|..], RUN) {
      var x := r[|BUILD|..][|RUN|..];
      assert r == BUILD + (RUN + x);
      RunOnlyMisleads(x);
    } else {
      var x := r[|RUN|..][|BUILD|..];
      assert r == RUN + (BUILD + x);
      BuildOnlyMisleads(x);
    }
  }

  // Whole buildpacks.

  datatype LayerInfo = LayerInfo(api: Version, layerDiffID: string, order: seq<OrderEntry>, stacks: seq<BuildpackStack>, homepage: string)

  predicate IsAnystack(stackId: string, api: SemVer) {
    stackId == "*" && !SemanticVersion.Less(api, SemVer(0, 5, 0, []))
  }

  predicate StackMatches(s: BuildpackStack, id: string, api: SemVer) {
    s.id == id || IsAnystack(s.id, api)
  }

  /** buildpack_validation.go:12-37. Only the first matching stack is looked at. */
  method Supports(bl: LayerInfo, buildpackApis: seq<string>, id: string, mixins: seq<string>, relaxed: bool) returns (r: Result<()>)
    ensures r.Ok? <==> Supported(bl, buildpackApis, id, mixins, relaxed)
  {
    if |bl.order| != 0 {
      return Ok(());
    }
    if !Present(buildpackApis, bl.api.text) {
      return Err("unsupported buildpack api");
    }
    if |bl.stacks| == 0 {
      return Ok(());
    }
    for i := 0 to |bl.stacks|
      invariant i > 0 ==> bl.api.parsed.Some?
      invariant i > 0 ==> forall j :: 0 <= j < i ==> !StackMatches(bl.stacks[j], id, bl.api.parsed.value)
    {
      if bl.api.parsed.None? {
        return Err("invalid semantic version");
      }
      if StackMatches(bl.stacks[i], id, bl.api.parsed.value) {
        r := ValidateRequiredMixins(mixins, bl.stacks[i].mixins, relaxed);
        return;
      }
    }
    r := Err("stack is not supported");
  }

  predicate Supported(bl: LayerInfo, buildpackApis: seq<string>, id: string, mixins: seq<string>, relaxed: bool) {
    || bl.order != []
    || (&& bl.api.text in buildpackApis
        && (|| bl.stacks == []
            || (bl.api.parsed.Some? &&
                exists i :: 0 <= i < |bl.stacks| && StackMatches(bl.stacks[i], id, bl.api.parsed.value)
                  && Accepts(mixins, bl.stacks[i].mixins, relaxed)
                  && forall j :: 0 <= j < i ==> !StackMatches(bl.stacks[j], id, bl.api.parsed.value))))
  }
}
