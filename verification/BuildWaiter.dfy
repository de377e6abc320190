// cmd/build-waiter: containers of a pod that run one after the other by waiting
// for files, while each watches for an error file.
module BuildWaiter {
  /** The flags of one waiter; "" is a flag that was not given. */
  datatype Step = Step(waitFile: string, doneFile: string, execute: string, errFile: string)

  type Wiring = seq<Step>

  /** The files that exist, and whether they hold anything. */
  type Files = map<string, bool>

  /** Leaving is the time between the return of wait and the end of the process. */
  datatype Phase = Checking | Waiting | Running | Creating | Writing | Leaving | Erring | WritingError | Exited(ok: bool)

  /** started lists the commands in the order they were started; succeeded are those that ended without an error. */
  datatype State = State(phases: seq<Phase>, files: Files, started: seq<nat>, succeeded: set<nat>)

  /** What may happen. Writing a file creates it empty first, and an error may come after something was written. */
  datatype Event =
    | Check(step: nat, statFails: bool)
    | Poll(step: nat)
    | Finish(step: nat, ok: bool)
    | CreateDone(step: nat, ok: bool)
    | WriteDone(step: nat, written: bool, ok: bool)
    | Leave(step: nat)
    | CreateError(step: nat, ok: bool)
    | WriteError(step: nat, written: bool)
    | Kill(step: nat)
    | Outside(file: string, content: bool)

  /** os.Stat finds no file without a name. */
  predicate Exists(files: Files, f: string) {
    f != "" && f in files
  }

  predicate HasContent(files: Files, f: string) {
    Exists(files, f) && files[f]
  }

  predicate Enabled(w: Wiring, s: State, e: Event)
    requires |s.phases| == |w|
  {
    if e.Outside? then
      forall i :: 0 <= i < |w| ==> w[i].doneFile != e.file && w[i].errFile != e.file
    else
      && e.step < |w|
      && match e
         case Check(i, _) => s.phases[i].Checking?
         case Poll(i) => s.phases[i].Waiting? && HasContent(s.files, w[i].waitFile)
         case Finish(i, _) => s.phases[i].Running?
         case CreateDone(i, _) => s.phases[i].Creating?
         case WriteDone(i, written, ok) => s.phases[i].Writing? && (ok ==> written)
         case Leave(i) => s.phases[i].Leaving?
         case CreateError(i, _) => s.phases[i].Erring?
         case WriteError(i, _) => s.phases[i].WritingError?
         case Kill(i) => !s.phases[i].Exited? && Exists(s.files, w[i].errFile)
  }

  function To(s: State, i: nat, phase: Phase): State
    requires i < |s.phases|
  {
    s.(phases := s.phases[i := phase])
  }

  function Start(s: State, i: nat): State
    requires i < |s.phases|
  {
    To(s, i, Running).(started := s.started + [i])
  }

  /** main.go:50-87, 124-133 and 147-169, one file operation or process event at a time. */
  function Apply(w: Wiring, s: State, e: Event): State
    requires |s.phases| == |w| && Enabled(w, s, e)
  {
    match e
    case Check(i, statFails) =>
      if w[i].execute == "" || statFails || Exists(s.files, w[i].doneFile) then To(s, i, Erring)
      else if w[i].waitFile != "" then To(s, i, Waiting)
      else Start(s, i)
    case Poll(i) => Start(s, i)
    case Finish(i, ok) =>
      if !ok then To(s, i, Erring)
      else To(s, i, if w[i].doneFile != "" then Creating else Leaving).(succeeded := s.succeeded + {i})
    case CreateDone(i, ok) =>
      if ok then To(s, i, Writing).(files := s.files[w[i].doneFile := false]) else To(s, i, Erring)
    case WriteDone(i, written, ok) =>
      To(s, i, if ok then Leaving else Erring).(files := if written then s.files[w[i].doneFile := true] else s.files)
    case Leave(i) => To(s, i, Exited(true))
    case CreateError(i, ok) =>
      if ok && w[i].errFile != "" then To(s, i, WritingError).(files := s.files[w[i].errFile := false])
      else To(s, i, Exited(false))
    case WriteError(i, written) =>
      To(s, i, Exited(false)).(files := if written then s.files[w[i].errFile := true] else s.files)
    case Kill(i) => To(s, i, Exited(false))
    case Outside(f, content) => s.(files := s.files[f := content])
  }

  function Initial(w: Wiring, files: Files): State {
    State(seq(|w|, _ => Checking), files, [], {})
  }

  ghost predicate IsRun(w: Wiring, files: Files, states: seq<State>, events: seq<Event>) {
    && |states| == |events| + 1 && states[0] == Initial(w, files)
    && forall n :: 0 <= n < |events| ==>
         |states[n].phases| == |w| && Enabled(w, states[n], events[n]) && states[n + 1] == Apply(w, states[n], events[n])
  }

  ghost predicate Reaches(w: Wiring, files: Files, s: State) {
    exists states, events: seq<Event> :: IsRun(w, files, states, events) && states[|events|] == s
  }

  /** Step i waits for the file that step j writes when it is done. */
  predicate Follows(w: Wiring, i: int, j: int) {
    0 <= i < |w| && 0 <= j < |w| && w[i].waitFile != "" && w[i].waitFile == w[j].doneFile
  }

  /** Done files are not shared, and none is an error file. */
  predicate Wired(w: Wiring) {
    && (forall i, j :: 0 <= i < |w| && 0 <= j < |w| && i != j && w[i].doneFile != "" ==> w[i].doneFile != w[j].doneFile)
    && (forall i, j :: 0 <= i < |w| && 0 <= j < |w| && w[i].doneFile != "" ==> w[i].doneFile != w[j].errFile)
  }

  /** No step that could start finds what it waits for left over from before. */
  ghost predicate Fresh(w: Wiring, files: Files) {
    forall i, j :: Follows(w, i, j) && HasContent(files, w[j].doneFile) ==>
      w[i].execute == "" || Exists(files, w[i].doneFile)
  }

  /** A started command has the commands it follows behind it. */
  ghost predicate HandedOff(w: Wiring, s: State) {
    forall i, j :: i in s.started && Follows(w, i, j) ==> j in s.succeeded
  }

  // The invariant, one step's part and the order of starts.

  predicate Sound(step: Step, phase: Phase, old_: Files, files: Files, started: bool, succeeded: bool) {
    && (succeeded ==> started)
    && (phase.Checking? || phase.Waiting? ==> !started)
    && (phase.Running? ==> started)
    && (phase.Creating? || phase.Writing? || phase.Leaving? || phase == Exited(true) ==> succeeded)
    && (phase.Creating? || phase.Writing? ==> step.doneFile != "")
    && (phase.WritingError? ==> step.errFile != "")
    && (phase.Waiting? || started ==> step.execute != "" && !Exists(old_, step.doneFile))
    && (phase.Waiting? ==> step.waitFile != "")
    && (Exists(old_, step.doneFile) ==> Exists(files, step.doneFile))
    && (HasContent(files, step.doneFile) ==> succeeded || HasContent(old_, step.doneFile))
    && ((phase.Leaving? || phase == Exited(true)) && step.doneFile != "" ==> HasContent(files, step.doneFile))
  }

  ghost predicate AllSound(w: Wiring, old_: Files, s: State) {
    && |s.phases| == |w|
    && (forall i :: i in s.started || i in s.succeeded ==> i < |w|)
    && forall i: nat :: i < |w| ==> Sound(w[i], s.phases[i], old_, s.files, i in s.started, i in s.succeeded)
  }

  /** Every command was started once, after all those it follows. */
  ghost predicate InOrder(w: Wiring, s: State) {
    && (forall p, q :: 0 <= p < q < |s.started| ==> s.started[p] != s.started[q])
    && (forall p, j :: 0 <= p < |s.started| && Follows(w, s.started[p], j) ==> j in s.started[..p] && j in s.succeeded)
  }

  lemma StepSound(w: Wiring, old_: Files, s: State, e: Event)
    requires Wired(w) && AllSound(w, old_, s) && Enabled(w, s, e)
    ensures AllSound(w, old_, Apply(w, s, e))
  {
    var s' := Apply(w, s, e);
    assert |s'.started| > |s.started| ==> s'.started == s.started + [e.step];
    forall i: nat | i < |w|
      ensures Sound(w[i], s'.phases[i], old_, s'.files, i in s'.started, i in s'.succeeded)
    {
      assert Sound(w[i], s.phases[i], old_, s.files, i in s.started, i in s.succeeded);
    }
  }

  lemma StepInOrder(w: Wiring, old_: Files, s: State, e: Event)
    requires Wired(w) && Fresh(w, old_) && AllSound(w, old_, s) && InOrder(w, s) && Enabled(w, s, e)
    ensures InOrder(w, Apply(w, s, e))
  {
    var s' := Apply(w, s, e);
    if s'.started != s.started {
      var i := e.step;
      assert s'.started == s.started + [i] && i !in s.started;
      assert Sound(w[i], s.phases[i], old_, s.files, false, i in s.succeeded);
      forall p, j | 0 <= p < |s'.started| && Follows(w, s'.started[p], j) ensures j in s'.started[..p] && j in s'.succeeded {
        assert s'.started[..p] == s.started[..p];
        assert Sound(w[j], s.phases[j], old_, s.files, j in s.started, j in s.succeeded);
        assert s.started[..|s.started|] == s.started;
      }
    } else {
      assert s.succeeded <= s'.succeeded;
    }
  }

  lemma {:induction false} RunInOrder(w: Wiring, files: Files, states: seq<State>, events: seq<Event>, n: nat)
    requires Wired(w) && Fresh(w, files) && IsRun(w, files, states, events) && n < |states|
    ensures AllSound(w, files, states[n]) && InOrder(w, states[n])
  {
    if n > 0 {
      RunInOrder(w, files, states, events, n - 1);
      StepSound(w, files, states[n - 1], events[n - 1]);
      StepInOrder(w, files, states[n - 1], events[n - 1]);
    }
  }

  /** path leads from a step back over the steps it follows. */
  predicate IsChain(w: Wiring, path: seq<nat>) {
    |path| > 0 && forall k :: 0 <= k < |path| - 1 ==> Follows(w, path[k], path[k + 1])
  }

  lemma {:induction false} ChainInOrder(w: Wiring, s: State, path: seq<nat>, p: nat)
    requires InOrder(w, s) && IsChain(w, path) && p < |s.started| && s.started[p] == path[0]
    ensures forall k :: 0 < k < |path| ==> path[k] in s.started[..p] && path[k] in s.succeeded
    decreases |path|
  {
    if |path| > 1 {
      assert Follows(w, path[0], path[0 + 1]);
      assert Follows(w, s.started[p], path[1]);
      var j: int := path[1];
      assert Follows(w, s.started[p], j);
      assert j in s.succeeded && j in s.started[..p];
      var q: nat :| q < p && s.started[..p][q] == path[1];
      assert forall k :: 0 <= k < |path| - 2 ==> Follows(w, path[1..][k], path[1..][k + 1]) by {
        forall k | 0 <= k < |path| - 2 ensures Follows(w, path[1..][k], path[1..][k + 1]) {
          assert Follows(w, path[k + 1], path[k + 1 + 1]);
        }
      }
      ChainInOrder(w, s, path[1..], q);
      forall k | 0 < k < |path| ensures path[k] in s.started[..p] && path[k] in s.succeeded {
        if k > 1 {
          assert path[k] == path[1..][k - 1];
          assert s.started[..q] <= s.started[..p];
        }
      }
    }
  }

  /** Hand-off ordering: in every reachable state, everything a started command follows, directly or through others,
      was started before it and has succeeded. */
  lemma HandOff(w: Wiring, files: Files, states: seq<State>, events: seq<Event>, n: nat, path: seq<nat>)
    requires Wired(w) && Fresh(w, files) && IsRun(w, files, states, events) && n < |states|
    requires IsChain(w, path) && path[0] in states[n].started
    ensures forall k :: 0 < k < |path| ==> path[k] in states[n].started && path[k] in states[n].succeeded
  {
    RunInOrder(w, files, states, events, n);
    var p: nat :| p < |states[n].started| && states[n].started[p] == path[0];
    ChainInOrder(w, states[n], path, p);
  }

  lemma NotBefore(started: seq<nat>, p: nat)
    requires p < |started| && forall q, r :: 0 <= q < r < |started| ==> started[q] != started[r]
    ensures started[p] !in started[..p]
  {
  }

  /** Steps that wait for each other in a circle never start. */
  lemma CircleNeverStarts(w: Wiring, files: Files, states: seq<State>, events: seq<Event>, n: nat, path: seq<nat>)
    requires Wired(w) && Fresh(w, files) && IsRun(w, files, states, events) && n < |states|
    requires IsChain(w, path) && |path| > 1 && path[0] == path[|path| - 1]
    ensures path[0] !in states[n].started
  {
    RunInOrder(w, files, states, events, n);
    if path[0] in states[n].started {
      var p: nat :| p < |states[n].started| && states[n].started[p] == path[0];
      ChainInOrder(w, states[n], path, p);
      NotBefore(states[n].started, p);
    }
  }

  /** The ordering holds in all runs exactly when no step that could start finds its wait file left over. */
  lemma HandOffIffFresh(w: Wiring, files: Files)
    requires Wired(w)
    ensures Fresh(w, files) <==>
      forall states: seq<State>, events: seq<Event> :: IsRun(w, files, states, events) ==> HandedOff(w, states[|events|])
  {
    if Fresh(w, files) {
      forall states: seq<State>, events: seq<Event> | IsRun(w, files, states, events) ensures HandedOff(w, states[|events|]) {
        RunInOrder(w, files, states, events, |events|);
        var s := states[|events|];
        forall i, j | i in s.started && Follows(w, i, j) ensures j in s.succeeded {
          var p: nat :| p < |s.started| && s.started[p] == i;
        }
      }
    } else {
      var i, j :| Follows(w, i, j) && HasContent(files, w[j].doneFile)
        && w[i].execute != "" && !Exists(files, w[i].doneFile);
      var s0 := Initial(w, files);
      var s1 := Apply(w, s0, Check(i, false));
      var s2 := Apply(w, s1, Poll(i));
      var states, events := [s0, s1, s2], [Check(i, false), Poll(i)];
      assert IsRun(w, files, states, events);
      assert i in s2.started && s2.succeeded == {};
      assert !HandedOff(w, states[|events|]);
    }
  }

  lemma Extend(w: Wiring, files: Files, states: seq<State>, events: seq<Event>, e: Event, next: State)
    requires IsRun(w, files, states, events)
    requires var last := states[|events|]; |last.phases| == |w| && Enabled(w, last, e) && next == Apply(w, last, e)
    ensures IsRun(w, files, states + [next], events + [e])
  {
  }

  lemma ReachesOn(w: Wiring, files: Files, s: State, e: Event, next: State)
    requires Reaches(w, files, s) && |s.phases| == |w| && Enabled(w, s, e) && next == Apply(w, s, e)
    ensures Reaches(w, files, next)
  {
    var states: seq<State>, events: seq<Event> :| IsRun(w, files, states, events) && states[|events|] == s;
    Extend(w, files, states, events, e, next);
    assert (states + [next])[|events + [e]|] == next;
  }

  lemma StartIsReached(w: Wiring, files: Files)
    ensures Reaches(w, files, Initial(w, files))
  {
    var events: seq<Event> := [];
    assert IsRun(w, files, [Initial(w, files)], events);
  }

  /** Two steps of which the second waits for the first. */
  predicate OneAfterOther(w: Wiring, f: string) {
    && |w| == 2 && w[0].waitFile == "" && w[0].doneFile == f != "" && w[0].execute != "" && w[0].errFile == ""
    && w[1].waitFile == f && w[1].doneFile != f && w[1].execute != ""
  }

  lemma FirstSucceeds(w: Wiring, f: string)
    requires OneAfterOther(w, f)
    ensures Reaches(w, map[], State([Creating, Checking], map[], [0], {0}))
  {
    var s0 := State([Checking, Checking], map[], [], {});
    assert s0 == Initial(w, map[]);
    StartIsReached(w, map[]);
    var s1 := State([Running, Checking], map[], [0], {});
    ReachesOn(w, map[], s0, Check(0, false), s1);
    ReachesOn(w, map[], s1, Finish(0, true), State([Creating, Checking], map[], [0], {0}));
  }

  lemma FirstAnnounces(w: Wiring, f: string)
    requires OneAfterOther(w, f)
    ensures Reaches(w, map[], State([Erring, Checking], map[f := true], [0], {0}))
  {
    FirstSucceeds(w, f);
    var s2 := State([Creating, Checking], map[], [0], {0});
    var s3 := State([Writing, Checking], map[f := false], [0], {0});
    ReachesOn(w, map[], s2, CreateDone(0, true), s3);
    ReachesOn(w, map[], s3, WriteDone(0, true, false), State([Erring, Checking], map[f := true], [0], {0}));
  }

  lemma FirstFails(w: Wiring, f: string)
    requires OneAfterOther(w, f)
    ensures Reaches(w, map[], State([Exited(false), Checking], map[f := true], [0], {0}))
  {
    FirstAnnounces(w, f);
    var s4 := State([Erring, Checking], map[f := true], [0], {0});
    ReachesOn(w, map[], s4, CreateError(0, true), State([Exited(false), Checking], map[f := true], [0], {0}));
  }

  /** A step may have failed and still have a started successor, when its command succeeded and the write that announced
      it reported an error after writing. */
  lemma AnnouncedThenFailed(w: Wiring, f: string)
    requires OneAfterOther(w, f)
    ensures Reaches(w, map[], State([Exited(false), Running], map[f := true], [0, 1], {0}))
  {
    FirstFails(w, f);
    var s5 := State([Exited(false), Checking], map[f := true], [0], {0});
    var s6 := State([Exited(false), Waiting], map[f := true], [0], {0});
    ReachesOn(w, map[], s5, Check(1, false), s6);
    ReachesOn(w, map[], s6, Poll(1), State([Exited(false), Running], map[f := true], [0, 1], {0}));
  }

  // Failed steps.

  predicate Failed(phase: Phase) {
    phase.Erring? || phase.WritingError? || phase == Exited(false)
  }

  predicate Announces(e: Event, j: nat) {
    e.WriteDone? && e.step == j && e.written
  }

  /** Step j has written its done file. */
  ghost predicate Announced(events: seq<Event>, j: nat) {
    exists m :: 0 <= m < |events| && Announces(events[m], j)
  }

  /** Step j has written its done file, and the write still returned an error, or an error elsewhere ended the process
      before it could leave. */
  ghost predicate FailedAfterAnnouncing(events: seq<Event>, j: nat) {
    || WriteDone(j, true, false) in events
    || exists k :: 0 <= k < |events| && events[k] == Kill(j) && WriteDone(j, true, true) in events[..k]
  }

  lemma AnnouncedAppend(events: seq<Event>, e: Event, j: nat)
    ensures Announced(events + [e], j) <==> Announced(events, j) || Announces(e, j)
  {
    var more := events + [e];
    if Announced(events, j) {
      var m :| 0 <= m < |events| && Announces(events[m], j);
      assert Announces(more[m], j);
    }
    if Announces(e, j) {
      assert Announces(more[|events|], j);
    }
  }

  lemma FailedAfterAppend(events: seq<Event>, e: Event, j: nat)
    ensures FailedAfterAnnouncing(events + [e], j) <==>
      FailedAfterAnnouncing(events, j) || e == WriteDone(j, true, false) || (e == Kill(j) && WriteDone(j, true, true) in events)
  {
    var more := events + [e];
    assert more[..|events|] == events && more[|events|] == e;
    if k :| 0 <= k < |events| && events[k] == Kill(j) && WriteDone(j, true, true) in events[..k] {
      assert more[k] == Kill(j) && more[..k] == events[..k];
    }
    if k :| 0 <= k < |more| && more[k] == Kill(j) && WriteDone(j, true, true) in more[..k] {
      if k < |events| {
        assert events[k] == Kill(j) && events[..k] == more[..k];
      }
    }
  }

  /** What the events so far say about the done file of step j and about its phase. */
  ghost predicate Told(w: Wiring, files: Files, s: State, events: seq<Event>, j: nat)
    requires j < |w| && |s.phases| == |w|
  {
    var phase := s.phases[j];
    && (!HasContent(files, w[j].doneFile) && w[j].doneFile != "" ==>
         (HasContent(s.files, w[j].doneFile) <==> Announced(events, j)))
    && (Announced(events, j) ==> phase.Leaving? || phase.Exited? || Failed(phase))
    && (Announced(events, j) && !Failed(phase) ==> WriteDone(j, true, true) in events)
    && (FailedAfterAnnouncing(events, j) <==> Announced(events, j) && Failed(phase))
  }

  lemma StepTold(w: Wiring, files: Files, s: State, events: seq<Event>, e: Event, j: nat)
    requires Wired(w) && AllSound(w, files, s) && Enabled(w, s, e) && j < |w| && Told(w, files, s, events, j)
    ensures |Apply(w, s, e).phases| == |w| && Told(w, files, Apply(w, s, e), events + [e], j)
  {
    AnnouncedAppend(events, e, j);
    FailedAfterAppend(events, e, j);
    assert Sound(w[j], s.phases[j], files, s.files, j in s.started, j in s.succeeded);
    var s' := Apply(w, s, e);
    if e.Outside? || e.step != j {
      assert s'.phases[j] == s.phases[j];
      OthersKeepDone(w, s, e, j);
    }
  }

  /** Only step j writes its done file. */
  lemma OthersKeepDone(w: Wiring, s: State, e: Event, j: nat)
    requires Wired(w) && |s.phases| == |w| && Enabled(w, s, e) && j < |w| && (e.Outside? || e.step != j)
    ensures HasContent(Apply(w, s, e).files, w[j].doneFile) <==> HasContent(s.files, w[j].doneFile)
  {
  }

  lemma {:induction false} RunSound(w: Wiring, files: Files, states: seq<State>, events: seq<Event>, n: nat)
    requires Wired(w) && IsRun(w, files, states, events) && n < |states|
    ensures AllSound(w, files, states[n])
  {
    if n > 0 {
      RunSound(w, files, states, events, n - 1);
      StepSound(w, files, states[n - 1], events[n - 1]);
    }
  }

  lemma StartTold(w: Wiring, files: Files, j: nat)
    requires j < |w|
    ensures Told(w, files, Initial(w, files), [], j)
  {
  }

  lemma {:induction false} RunTold(w: Wiring, files: Files, states: seq<State>, events: seq<Event>, n: nat, j: nat)
    requires Wired(w) && IsRun(w, files, states, events) && n < |states| && j < |w|
    ensures AllSound(w, files, states[n]) && Told(w, files, states[n], events[..n], j)
  {
    RunSound(w, files, states, events, n);
    if n == 0 {
      StartTold(w, files, j);
      assert events[..0] == [];
    } else {
      var before := events[..n - 1];
      assert events[..n] == before + [events[n - 1]];
      RunTold(w, files, states, events, n - 1, j);
      StepTold(w, files, states[n - 1], before, events[n - 1], j);
    }
  }

  /** A command starts only after those it follows have announced themselves. */
  lemma {:induction false} StartedIsAnnounced(w: Wiring, files: Files, states: seq<State>, events: seq<Event>, n: nat, i: nat, j: nat)
    requires Wired(w) && Fresh(w, files) && IsRun(w, files, states, events) && n < |states|
    requires Follows(w, i, j) && i in states[n].started
    ensures Announced(events[..n], j)
  {
    assert n > 0;
    var s, e := states[n - 1], events[n - 1];
    assert events[..n] == events[..n - 1] + [e];
    AnnouncedAppend(events[..n - 1], e, j);
    if i in s.started {
      StartedIsAnnounced(w, files, states, events, n - 1, i, j);
    } else {
      RunTold(w, files, states, events, n - 1, j);
      StartNeedsAnnouncement(w, files, s, events[..n - 1], e, i, j);
    }
  }

  lemma StartNeedsAnnouncement(w: Wiring, files: Files, s: State, events: seq<Event>, e: Event, i: nat, j: nat)
    requires Fresh(w, files) && AllSound(w, files, s) && Enabled(w, s, e) && Follows(w, i, j) && Told(w, files, s, events, j)
    requires i !in s.started && i in Apply(w, s, e).started
    ensures Announced(events, j)
  {
    assert Sound(w[i], s.phases[i], files, s.files, i in s.started, i in s.succeeded);
    assert e == Poll(i);
  }

  /** A failed step with a started successor failed after it had announced its success, which its command had had. */
  lemma FailedWithStartedSuccessor(w: Wiring, files: Files, states: seq<State>, events: seq<Event>, n: nat, i: nat, j: nat)
    requires Wired(w) && Fresh(w, files) && IsRun(w, files, states, events) && n < |states|
    requires Follows(w, i, j) && i in states[n].started && |states[n].phases| == |w| && Failed(states[n].phases[j])
    ensures FailedAfterAnnouncing(events[..n], j) && j in states[n].succeeded
  {
    StartedIsAnnounced(w, files, states, events, n, i, j);
    RunTold(w, files, states, events, n, j);
    HandOff(w, files, states, events, n, [i, j]);
    assert [i, j][1] in states[n].succeeded;
  }

  lemma FailedStep(w: Wiring, s: State, events: seq<Event>, e: Event, j: nat)
    requires |s.phases| == |w| && Enabled(w, s, e) && j < |w| && Failed(s.phases[j])
    ensures var s' := Apply(w, s, e); |s'.phases| == |w| && Failed(s'.phases[j])
    ensures Announced(events + [e], j) <==> Announced(events, j)
  {
    AnnouncedAppend(events, e, j);
  }

  /** A failed step stays failed and announces nothing any more. */
  lemma {:induction false} FailedForGood(w: Wiring, files: Files, states: seq<State>, events: seq<Event>, n: nat, later: nat, j: nat)
    requires Wired(w) && IsRun(w, files, states, events) && n <= later < |states| && j < |w|
    requires |states[n].phases| == |w| && Failed(states[n].phases[j])
    ensures |states[later].phases| == |w| && Failed(states[later].phases[j])
    ensures Announced(events[..later], j) <==> Announced(events[..n], j)
  {
    if n < later {
      var before := events[..later - 1];
      assert events[..later] == before + [events[later - 1]];
      FailedForGood(w, files, states, events, n, later - 1, j);
      FailedStep(w, states[later - 1], before, events[later - 1], j);
    }
  }

  lemma {:induction false} SameEventsSameStates(w: Wiring, files: Files, states: seq<State>, events: seq<Event>,
                                                states': seq<State>, events': seq<Event>, n: nat)
    requires IsRun(w, files, states, events) && IsRun(w, files, states', events')
    requires n <= |events| && n <= |events'| && events[..n] == events'[..n]
    ensures states[n] == states'[n]
  {
    if n > 0 {
      assert events[..n - 1] == events[..n][..n - 1] && events'[..n - 1] == events'[..n][..n - 1];
      SameEventsSameStates(w, files, states, events, states', events', n - 1);
      assert events[n - 1] == events[..n][n - 1] && events'[n - 1] == events'[..n][n - 1];
    }
  }

  /** Some continuation of these events starts the command of step i. */
  ghost predicate MayStart(w: Wiring, files: Files, events: seq<Event>, i: nat) {
    exists states': seq<State>, events': seq<Event> :: (IsRun(w, files, states', events') && events <= events' && i in states'[|events'|].started)
  }

  /** Step i has not started and may still get past its first checks, or has got past them. */
  predicate CanStillStart(w: Wiring, s: State, i: nat)
    requires i < |w| && |s.phases| == |w|
  {
    || s.phases[i].Waiting?
    || (s.phases[i].Checking? && w[i].execute != "" && !Exists(s.files, w[i].doneFile))
  }

  lemma BarredStep(w: Wiring, s: State, e: Event, i: nat)
    requires |s.phases| == |w| && Enabled(w, s, e) && i < |w| && i !in s.started && !CanStillStart(w, s, i)
    ensures var s' := Apply(w, s, e); |s'.phases| == |w| && i !in s'.started && !CanStillStart(w, s', i)
  {
  }

  lemma {:induction false} BarredForGood(w: Wiring, files: Files, states: seq<State>, events: seq<Event>, n: nat, later: nat, i: nat)
    requires IsRun(w, files, states, events) && n <= later < |states| && i < |w|
    requires |states[n].phases| == |w| && i !in states[n].started && !CanStillStart(w, states[n], i)
    ensures |states[later].phases| == |w| && i !in states[later].started && !CanStillStart(w, states[later], i)
  {
    if n < later {
      BarredForGood(w, files, states, events, n, later - 1, i);
      BarredStep(w, states[later - 1], events[later - 1], i);
    }
  }

  lemma MayStartNext(w: Wiring, files: Files, states: seq<State>, events: seq<Event>, i: nat)
    requires IsRun(w, files, states, events) && i < |w|
    requires var s := states[|events|]; |s.phases| == |w| && Enabled(w, s, Poll(i))
    ensures MayStart(w, files, events, i)
  {
    var s' := Apply(w, states[|events|], Poll(i));
    Extend(w, files, states, events, Poll(i), s');
    assert events <= events + [Poll(i)] && i in (states + [s'])[|events + [Poll(i)]|].started;
  }

  /** What a step waits for is there, so it may start. */
  lemma NothingHoldsBack(w: Wiring, files: Files, states: seq<State>, events: seq<Event>, i: nat)
    requires IsRun(w, files, states, events) && i < |w| && w[i].waitFile != ""
    requires var s := states[|events|]; |s.phases| == |w| && CanStillStart(w, s, i) && HasContent(s.files, w[i].waitFile)
    ensures MayStart(w, files, events, i)
  {
    var s := states[|events|];
    if s.phases[i].Waiting? {
      MayStartNext(w, files, states, events, i);
    } else {
      var s' := Apply(w, s, Check(i, false));
      Extend(w, files, states, events, Check(i, false), s');
      var events' := events + [Check(i, false)];
      assert (states + [s'])[|events'|] == s';
      MayStartNext(w, files, states + [s'], events', i);
      var states'': seq<State>, events'': seq<Event> :| IsRun(w, files, states'', events'') && events' <= events''
        && i in states''[|events''|].started;
      assert events <= events'';
    }
  }

  /** What announced itself has written its file, unless the file was left over and stopped it. */
  lemma AnnouncedHasContent(w: Wiring, files: Files, s: State, events: seq<Event>, i: nat, j: nat)
    requires Fresh(w, files) && AllSound(w, files, s) && Follows(w, i, j) && Told(w, files, s, events, j)
    requires i !in s.started && CanStillStart(w, s, i)
    ensures Announced(events, j) <==> HasContent(s.files, w[i].waitFile)
  {
    assert Sound(w[i], s.phases[i], files, s.files, i in s.started, i in s.succeeded);
  }

  /** A step that has not started and follows a failed one may start in some continuation exactly when it can still get
      past its own checks and the failed one had announced its success. */
  lemma FailedStepBlocksIff(w: Wiring, files: Files, states: seq<State>, events: seq<Event>, i: nat, j: nat)
    requires Wired(w) && Fresh(w, files) && IsRun(w, files, states, events) && Follows(w, i, j)
    requires var s := states[|events|]; |s.phases| == |w| && Failed(s.phases[j]) && i !in s.started
    ensures MayStart(w, files, events, i) <==> CanStillStart(w, states[|events|], i) && FailedAfterAnnouncing(events, j)
  {
    var n, s := |events|, states[|events|];
    assert events[..n] == events;
    RunTold(w, files, states, events, n, j);
    if CanStillStart(w, s, i) && FailedAfterAnnouncing(events, j) {
      AnnouncedHasContent(w, files, s, events, i, j);
      NothingHoldsBack(w, files, states, events, i);
    }
    if MayStart(w, files, events, i) {
      StartsOnlyIf(w, files, states, events, i, j);
    }
  }

  lemma StartsOnlyIf(w: Wiring, files: Files, states: seq<State>, events: seq<Event>, i: nat, j: nat)
    requires Wired(w) && Fresh(w, files) && IsRun(w, files, states, events) && Follows(w, i, j) && MayStart(w, files, events, i)
    requires var s := states[|events|]; |s.phases| == |w| && Failed(s.phases[j]) && i !in s.started
    ensures CanStillStart(w, states[|events|], i) && Announced(events, j)
  {
    var n := |events|;
    var states': seq<State>, events': seq<Event> :| IsRun(w, files, states', events') && events <= events' && i in states'[|events'|].started;
    assert events'[..n] == events == events[..n] && events'[..|events'|] == events';
    SameEventsSameStates(w, files, states, events, states', events', n);
    StartedIsAnnounced(w, files, states', events', |events'|, i, j);
    FailedForGood(w, files, states', events', n, |events'|, j);
    if !CanStillStart(w, states[n], i) {
      BarredForGood(w, files, states', events', n, |events'|, i);
    }
  }

  // Progress.

  predicate NoneFailed(s: State) {
    forall k :: 0 <= k < |s.phases| ==> !Failed(s.phases[k])
  }

  /** Later steps have higher ranks than those they follow. */
  ghost predicate Ranked(w: Wiring, rank: nat -> nat) {
    forall i, j :: Follows(w, i, j) ==> rank(j) < rank(i)
  }

  /** Files that no step writes are there. */
  predicate OutsideReady(w: Wiring, files: Files) {
    forall i: nat :: i < |w| && w[i].waitFile != "" && (forall j: nat :: j < |w| ==> !Follows(w, i, j)) ==> HasContent(files, w[i].waitFile)
  }

  lemma {:induction false} SomeoneMoves(w: Wiring, old_: Files, s: State, rank: nat -> nat, i: nat) returns (e: Event)
    requires AllSound(w, old_, s) && Ranked(w, rank) && OutsideReady(w, s.files)
    requires NoneFailed(s)
    requires i < |w| && !s.phases[i].Exited?
    ensures !e.Outside? && !e.Kill? && Enabled(w, s, e)
    decreases rank(i)
  {
    assert !Failed(s.phases[i]);
    match s.phases[i]
    case Checking => e := Check(i, false);
    case Running => e := Finish(i, true);
    case Creating => e := CreateDone(i, true);
    case Writing => e := WriteDone(i, true, true);
    case Leaving => e := Leave(i);
    case Waiting =>
      if j: nat :| j < |w| && Follows(w, i, j) {
        if !s.phases[j].Exited? {
          e := SomeoneMoves(w, old_, s, rank, j);
        } else {
          assert !Failed(s.phases[j]);
          assert Sound(w[j], s.phases[j], old_, s.files, j in s.started, j in s.succeeded);
          e := Poll(i);
        }
      } else {
        assert Sound(w[i], s.phases[i], old_, s.files, i in s.started, i in s.succeeded);
        e := Poll(i);
      }
    case _ =>
      assert false;
  }

  /** Acyclic steps do not block each other: as long as none has failed and what they wait for outside is there, either
      all have exited or one can go on. */
  lemma NoDeadlock(w: Wiring, files: Files, states: seq<State>, events: seq<Event>, n: nat, rank: nat -> nat)
    requires Wired(w) && Fresh(w, files) && IsRun(w, files, states, events) && n < |states| && Ranked(w, rank)
    requires OutsideReady(w, states[n].files) && NoneFailed(states[n])
    ensures |states[n].phases| == |w|
    ensures states[n].phases == seq(|w|, _ => Exited(true))
      || exists e: Event :: !e.Outside? && !e.Kill? && Enabled(w, states[n], e)
  {
    RunInOrder(w, files, states, events, n);
    if i: nat :| i < |w| && !states[n].phases[i].Exited? {
      var e := SomeoneMoves(w, files, states[n], rank, i);
    } else {
      forall k | 0 <= k < |w| ensures states[n].phases[k] == Exited(true) {
        assert !Failed(states[n].phases[k]);
      }
    }
  }

  function Left(phase: Phase): nat {
    match phase
    case Checking => 7 case Waiting => 6 case Running => 5 case Creating => 4
    case Writing => 3 case Leaving => 1 case Erring => 2 case WritingError => 1 case Exited(_) => 0
  }

  function Work(phases: seq<Phase>): nat {
    if phases == [] then 0 else Left(phases[0]) + Work(phases[1..])
  }

  lemma {:induction false} WorkUpdate(phases: seq<Phase>, i: nat, phase: Phase)
    requires i < |phases|
    ensures Work(phases[i := phase]) == Work(phases) - Left(phases[i]) + Left(phase)
  {
    if i > 0 {
      assert phases[i := phase][1..] == phases[1..][i - 1 := phase];
      WorkUpdate(phases[1..], i - 1, phase);
    }
  }

  lemma {:induction false} WorkInitial(n: nat)
    ensures Work(seq(n, _ => Checking)) == 7 * n
  {
    if n > 0 {
      assert seq(n, _ => Checking)[1..] == seq(n - 1, _ => Checking);
      WorkInitial(n - 1);
    }
  }

  lemma MoveLessens(w: Wiring, s: State, e: Event)
    requires |s.phases| == |w| && Enabled(w, s, e)
    ensures var s' := Apply(w, s, e); |s'.phases| == |w|
    ensures Work(Apply(w, s, e).phases) <= Work(s.phases) - if e.Outside? then 0 else 1
  {
    if !e.Outside? {
      var phase := Apply(w, s, e).phases[e.step];
      WorkUpdate(s.phases, e.step, phase);
      assert Apply(w, s, e).phases == s.phases[e.step := phase];
    }
  }

  function Moves(events: seq<Event>): nat
    decreases |events|
  {
    if events == [] then 0 else Moves(events[..|events| - 1]) + if events[|events| - 1].Outside? then 0 else 1
  }

  /** No run goes on for ever: the steps make at most seven moves each. */
  lemma {:induction false} RunIsBounded(w: Wiring, files: Files, states: seq<State>, events: seq<Event>, n: nat)
    requires IsRun(w, files, states, events) && n < |states|
    ensures |states[n].phases| == |w| && Moves(events[..n]) + Work(states[n].phases) <= 7 * |w|
  {
    if n == 0 {
      WorkInitial(|w|);
    } else {
      RunIsBounded(w, files, states, events, n - 1);
      var s, e := states[n - 1], events[n - 1];
      assert events[..n][..n - 1] == events[..n - 1] && events[..n][n - 1] == e;
      MoveLessens(w, s, e);
    }
  }

  // The wiring of a build pod.

  const ERROR := "error"

  function Path(mount: string, name: string): string {
    mount + "/" + name
  }

  function WaitPath(mount: string, outside: string, names: seq<string>, i: nat): string
    requires i < |names|
  {
    if i == 0 then outside else Path(mount, names[i - 1])
  }

  /** build_pod.go:620-666: every container waits for the one before it, the first for a file of the downward API. */
  function PodWiring(mount: string, outside: string, names: seq<string>, commands: seq<string>): Wiring
    requires |names| == |commands|
  {
    seq(|names|, i requires 0 <= i < |names| =>
      Step(WaitPath(mount, outside, names, i), Path(mount, names[i]), commands[i], Path(mount, ERROR)))
  }

  /** Distinct containers, none called like the error file; the file outside is not under the mount. */
  ghost predicate GoodNames(mount: string, outside: string, names: seq<string>, commands: seq<string>) {
    && |names| == |commands| && ERROR !in names
    && (forall i, j :: 0 <= i < j < |names| ==> names[i] != names[j])
    && forall name :: outside != Path(mount, name)
  }

  /** The files that build pods use. */
  lemma DownwardIsOutside(name: string)
    ensures "/downward/sidecars-ready" != Path("/buildWait", name)
  {
    assert Path("/buildWait", name)[1] == 'b' && "/downward/sidecars-ready"[1] == 'd';
  }

  lemma PathInjective(mount: string, a: string, b: string)
    ensures Path(mount, a) == Path(mount, b) <==> a == b
    ensures Path(mount, a) != ""
  {
    var n := |mount + "/"|;
    assert Path(mount, a)[n..] == a && Path(mount, b)[n..] == b;
  }

  lemma PodPair(mount: string, outside: string, names: seq<string>, commands: seq<string>, i: nat, j: nat)
    requires GoodNames(mount, outside, names, commands) && i < |names| && j < |names|
    ensures Path(mount, names[i]) == Path(mount, names[j]) <==> i == j
    ensures Path(mount, names[i]) != "" && Path(mount, names[i]) != Path(mount, ERROR)
    ensures WaitPath(mount, outside, names, i) == Path(mount, names[j]) <==> i == j + 1
  {
    PathInjective(mount, names[i], names[j]);
    assert names[i] in names;
    PathInjective(mount, names[i], ERROR);
    if i > 0 {
      PathInjective(mount, names[i - 1], names[j]);
    }
  }

  lemma WiredInALine(w: Wiring)
    requires forall i, j :: 0 <= i < |w| && 0 <= j < |w| ==>
      && (w[i].doneFile == w[j].doneFile <==> i == j) && w[i].doneFile != "" && w[i].doneFile != w[j].errFile
      && (w[i].waitFile == w[j].doneFile <==> i == j + 1)
    ensures Wired(w) && Fresh(w, map[]) && forall i, j :: Follows(w, i, j) <==> 0 <= j && i < |w| && i == j + 1
  {
    forall i, j ensures Follows(w, i, j) <==> 0 <= j && i < |w| && i == j + 1 {
      if 0 <= i < |w| && 0 <= j < |w| {
        assert w[i].doneFile != "" && w[j].doneFile != "";
      }
    }
  }

  lemma PodIsWired(mount: string, outside: string, names: seq<string>, commands: seq<string>)
    requires GoodNames(mount, outside, names, commands)
    ensures var w := PodWiring(mount, outside, names, commands);
      && Wired(w) && Fresh(w, map[])
      && forall i, j :: Follows(w, i, j) <==> 0 <= j && i < |w| && i == j + 1
  {
    var w := PodWiring(mount, outside, names, commands);
    forall i, j | 0 <= i < |w| && 0 <= j < |w|
      ensures w[i].doneFile == w[j].doneFile <==> i == j
      ensures w[i].doneFile != "" && w[i].doneFile != w[j].errFile
      ensures w[i].waitFile == w[j].doneFile <==> i == j + 1
    {
      PodPair(mount, outside, names, commands, i, j);
    }
    WiredInALine(w);
  }

  function Countdown(i: nat): seq<nat> {
    if i == 0 then [0] else [i] + Countdown(i - 1)
  }

  lemma {:induction false} CountdownAt(i: nat)
    ensures |Countdown(i)| == i + 1 && forall k :: 0 <= k <= i ==> Countdown(i)[k] == i - k
  {
    if i > 0 {
      CountdownAt(i - 1);
    }
  }

  /** In a build pod a container's command runs only after the commands of all containers before it have succeeded. */
  lemma PodRunsInOrder(mount: string, outside: string, names: seq<string>, commands: seq<string>,
                       states: seq<State>, events: seq<Event>, n: nat, i: nat, j: nat)
    requires GoodNames(mount, outside, names, commands)
    requires IsRun(PodWiring(mount, outside, names, commands), map[], states, events) && n < |states|
    requires i in states[n].started && j < i
    ensures j in states[n].succeeded
  {
    var w := PodWiring(mount, outside, names, commands);
    PodIsWired(mount, outside, names, commands);
    RunInOrder(w, map[], states, events, n);
    CountdownAt(i);
    var path := Countdown(i);
    forall k | 0 <= k < |path| - 1 ensures Follows(w, path[k], path[k + 1]) {
    }
    HandOff(w, map[], states, events, n, path);
    assert path[i - j] == j;
  }

  /** The same with the directory and the file that build pods use. */
  lemma BuildPodRunsInOrder(names: seq<string>, commands: seq<string>, states: seq<State>, events: seq<Event>, n: nat, i: nat, j: nat)
    requires |names| == |commands| && ERROR !in names && forall k, l :: 0 <= k < l < |names| ==> names[k] != names[l]
    requires IsRun(PodWiring("/buildWait", "/downward/sidecars-ready", names, commands), map[], states, events) && n < |states|
    requires i in states[n].started && j < i
    ensures j in states[n].succeeded
  {
    forall name ensures "/downward/sidecars-ready" != Path("/buildWait", name) {
      DownwardIsOutside(name);
    }
    PodRunsInOrder("/buildWait", "/downward/sidecars-ready", names, commands, states, events, n, i, j);
  }
}
