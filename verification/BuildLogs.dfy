// pkg/logs/build_logs.go: a producer that sends the ready build steps of pods over
// an unbuffered channel, and a consumer that streams each container once.
module BuildLogs {
  import opened Common

  /** pkg/apis/build/v1alpha2/build.go:159-177. */
  const BUILD_STEPS: set<string> := {"prepare", "analyze", "detect", "restore", "build", "export", "completion", "rebase"}

  predicate IsBuildStep(name: string) {
    name in BUILD_STEPS
  }

  datatype ContainerStatus = ContainerStatus(name: string, waiting: bool)

  datatype PodKey = PodKey(namespace: string, name: string)

  /** A pod as an event shows it: init containers first, in the spec and in the status. */
  datatype Pod = Pod(key: PodKey, containers: seq<string>, statuses: seq<ContainerStatus>, finished: bool)

  datatype Event = Added(pod: Pod) | Modified(pod: Pod) | Deleted(pod: Pod) | Bookmark

  datatype ReadyContainer = ReadyContainer(pod: PodKey, containerName: string)

  predicate IsReady(pod: Pod, name: string) {
    exists i :: 0 <= i < |pod.statuses| && pod.statuses[i].name == name && !pod.statuses[i].waiting
  }

  /** The build steps among these containers, in their order. */
  function StepsOf(pod: PodKey, containers: seq<string>): seq<ReadyContainer> {
    if containers == [] then []
    else (if IsBuildStep(containers[0]) then [ReadyContainer(pod, containers[0])] else []) + StepsOf(pod, containers[1..])
  }

  /** What is sent for a pod: other containers are passed over, and the first build step that is not ready ends it. */
  function Sent(pod: Pod, containers: seq<string>): seq<ReadyContainer> {
    if containers == [] then []
    else if !IsBuildStep(containers[0]) then Sent(pod, containers[1..])
    else if IsReady(pod, containers[0]) then [ReadyContainer(pod.key, containers[0])] + Sent(pod, containers[1..])
    else []
  }

  /** It is the longest prefix of the build steps that is ready. */
  lemma {:induction false} SentIsLongestReadyPrefix(pod: Pod, containers: seq<string>)
    ensures var sent, steps := Sent(pod, containers), StepsOf(pod.key, containers);
      && sent <= steps
      && (forall c :: c in sent ==> IsReady(pod, c.containerName))
      && (|sent| < |steps| ==> !IsReady(pod, steps[|sent|].containerName))
  {
    if containers != [] {
      SentIsLongestReadyPrefix(pod, containers[1..]);
      var sent, steps := Sent(pod, containers[1..]), StepsOf(pod.key, containers[1..]);
      if IsBuildStep(containers[0]) && IsReady(pod, containers[0]) {
        var head := ReadyContainer(pod.key, containers[0]);
        assert [head] + sent <= [head] + steps;
      }
    }
  }

  lemma {:induction false} StepsAreOfPod(pod: PodKey, containers: seq<string>)
    ensures forall c :: c in StepsOf(pod, containers) ==> c.pod == pod && c.containerName in containers
  {
    if containers != [] {
      StepsAreOfPod(pod, containers[1..]);
    }
  }

  predicate Distinct<T(==)>(s: seq<T>) {
    forall i, j :: 0 <= i < j < |s| ==> s[i] != s[j]
  }

  lemma {:induction false} StepsAreDistinct(pod: PodKey, containers: seq<string>)
    requires Distinct(containers)
    ensures Distinct(StepsOf(pod, containers))
  {
    if containers != [] {
      assert Distinct(containers[1..]);
      StepsAreDistinct(pod, containers[1..]);
      StepsAreOfPod(pod, containers[1..]);
      assert containers[0] !in containers[1..];
    }
  }

  // The consumer.

  /** What has been streamed, after one more container was received. */
  function Stream(log: seq<ReadyContainer>, c: ReadyContainer): seq<ReadyContainer> {
    if c in log then log else log + [c]
  }

  function ForPod(log: seq<ReadyContainer>, pod: PodKey): seq<ReadyContainer>
    decreases |log|
  {
    if log == [] then []
    else ForPod(log[..|log| - 1], pod) + if log[|log| - 1].pod == pod then [log[|log| - 1]] else []
  }

  lemma {:induction false} ForPodMembers(log: seq<ReadyContainer>, pod: PodKey)
    ensures forall c :: c in ForPod(log, pod) <==> c in log && c.pod == pod
    decreases |log|
  {
    if log != [] {
      assert log == log[..|log| - 1] + [log[|log| - 1]];
      ForPodMembers(log[..|log| - 1], pod);
    }
  }

  lemma StreamForPod(log: seq<ReadyContainer>, c: ReadyContainer, pod: PodKey)
    ensures ForPod(Stream(log, c), pod) ==
      if c.pod == pod && c !in ForPod(log, pod) then ForPod(log, pod) + [c] else ForPod(log, pod)
  {
    ForPodMembers(log, pod);
    assert (log + [c])[..|log|] == log;
  }

  // Runs of producer and consumer.

  /** read events have been read; queue is what the producer has still to send for the last of them. */
  datatype State = State(read: nat, queue: seq<ReadyContainer>, streaming: bool, log: seq<ReadyContainer>, stopped: bool)

  const START := State(0, [], false, [], false)

  datatype Action = Read | Receive | EndOfStream | Stop

  predicate IsUpdate(e: Event) {
    e.Added? || e.Modified?
  }

  function SentFor(e: Event): seq<ReadyContainer> {
    if IsUpdate(e) then Sent(e.pod, e.pod.containers) else []
  }

  /** build_logs.go:146-148: the producer returns after a finished pod. */
  predicate Ends(e: Event, exitPodComplete: bool) {
    IsUpdate(e) && e.pod.finished && exitPodComplete
  }

  predicate Enabled(events: seq<Event>, exit: bool, s: State, a: Action) {
    && !s.stopped
    && match a
       case Read => s.queue == [] && s.read < |events| && (s.read > 0 ==> !Ends(events[s.read - 1], exit))
       case Receive => s.queue != [] && !s.streaming
       case EndOfStream => s.streaming
       case Stop => true
  }

  /** A stop stands for a cancelled context, and for a log that could not be opened or written. */
  function Apply(events: seq<Event>, exit: bool, s: State, a: Action): State
    requires Enabled(events, exit, s, a)
  {
    match a
    case Read => s.(read := s.read + 1, queue := SentFor(events[s.read]))
    case Receive => s.(queue := s.queue[1..], log := Stream(s.log, s.queue[0]), streaming := s.queue[0] !in s.log)
    case EndOfStream => s.(streaming := false)
    case Stop => s.(stopped := true)
  }

  ghost predicate IsRun(events: seq<Event>, exit: bool, states: seq<State>, actions: seq<Action>) {
    && |states| == |actions| + 1 && states[0] == START
    && forall i :: 0 <= i < |actions| ==>
         Enabled(events, exit, states[i], actions[i]) && states[i + 1] == Apply(events, exit, states[i], actions[i])
  }

  /** Containers have distinct names, and a pod's do not change. */
  ghost predicate FixedSpecs(events: seq<Event>, containers: PodKey -> seq<string>) {
    forall e :: e in events && IsUpdate(e) ==> e.pod.containers == containers(e.pod.key) && Distinct(e.pod.containers)
  }

  /** The length of the longest ready prefix that the events delivered for a pod. */
  function Longest(events: seq<Event>, pod: PodKey): nat
    decreases |events|
  {
    if events == [] then 0
    else
      var rest, e := Longest(events[..|events| - 1], pod), events[|events| - 1];
      if IsUpdate(e) && e.pod.key == pod then Max(rest, |SentFor(e)|) else rest
  }

  /** The same, counting of the last event only what has been received. */
  function Level(events: seq<Event>, s: State, pod: PodKey): int
    requires s.read <= |events|
  {
    if s.read == 0 then 0
    else
      var before, e := Longest(events[..s.read - 1], pod), events[s.read - 1];
      if IsUpdate(e) && e.pod.key == pod then Max(before, |SentFor(e)| - |s.queue|) else before
  }

  /** The part of a sequence that comes before its last n elements has been received. */
  predicate IsRest(queue: seq<ReadyContainer>, sent: seq<ReadyContainer>) {
    |queue| <= |sent| && queue == sent[|sent| - |queue|..]
  }

  ghost predicate IsPrefixOfLength(log: seq<ReadyContainer>, pod: PodKey, steps: seq<ReadyContainer>, level: int) {
    0 <= level <= |steps| && ForPod(log, pod) == steps[..level]
  }

  ghost predicate QueueInv(events: seq<Event>, s: State) {
    && s.read <= |events| && Distinct(s.log)
    && (if s.read == 0 then s.queue == [] else IsRest(s.queue, SentFor(events[s.read - 1])))
  }

  ghost predicate Inv(events: seq<Event>, containers: PodKey -> seq<string>, s: State) {
    && QueueInv(events, s)
    && forall pod :: IsPrefixOfLength(s.log, pod, StepsOf(pod, containers(pod)), Level(events, s, pod))
  }

  lemma LongestFits(events: seq<Event>, containers: PodKey -> seq<string>, read: nat, pod: PodKey)
    requires FixedSpecs(events, containers) && read < |events|
    ensures var e := events[read]; IsUpdate(e) ==>
      && SentFor(e) <= StepsOf(e.pod.key, containers(e.pod.key)) && Distinct(StepsOf(e.pod.key, containers(e.pod.key)))
    ensures Longest(events[..read + 1], pod) ==
      if IsUpdate(events[read]) && events[read].pod.key == pod then Max(Longest(events[..read], pod), |SentFor(events[read])|)
      else Longest(events[..read], pod)
  {
    var e := events[read];
    assert e in events;
    assert events[..read + 1][..read] == events[..read];
    if IsUpdate(e) {
      SentIsLongestReadyPrefix(e.pod, e.pod.containers);
      StepsAreDistinct(e.pod.key, e.pod.containers);
    }
  }

  /** Receiving the next step of a prefix extends what was streamed, or was streamed already. */
  lemma ReceiveNext(log: seq<ReadyContainer>, pod: PodKey, steps: seq<ReadyContainer>, before: int, k: nat)
    requires Distinct(steps) && (forall c :: c in steps ==> c.pod == pod) && k < |steps|
    requires IsPrefixOfLength(log, pod, steps, Max(before, k))
    ensures before <= |steps| && IsPrefixOfLength(Stream(log, steps[k]), pod, steps, Max(before, k + 1))
  {
    StreamForPod(log, steps[k], pod);
    var m := Max(before, k);
    assert k < m ==> steps[..m][k] == steps[k];
    assert k == m ==> steps[..m] + [steps[k]] == steps[..m + 1];
  }

  lemma ReceiveOther(log: seq<ReadyContainer>, c: ReadyContainer, pod: PodKey, steps: seq<ReadyContainer>, level: int)
    requires c.pod != pod && IsPrefixOfLength(log, pod, steps, level)
    ensures IsPrefixOfLength(Stream(log, c), pod, steps, level)
  {
    StreamForPod(log, c, pod);
  }

  /** The level before and after receiving the next container. */
  lemma ReceiveLevel(events: seq<Event>, s: State, s': State, pod: PodKey)
    requires 0 < s.read <= |events| && s'.read == s.read && s.queue != [] && |s'.queue| == |s.queue| - 1
    ensures var e := events[s.read - 1]; var before, k := Longest(events[..s.read - 1], pod), |SentFor(e)| - |s.queue|;
      if IsUpdate(e) && e.pod.key == pod then Level(events, s, pod) == Max(before, k) && Level(events, s', pod) == Max(before, k + 1)
      else Level(events, s', pod) == Level(events, s, pod)
  {
  }

  lemma ReceiveKeeps(events: seq<Event>, containers: PodKey -> seq<string>, exit: bool, s: State, pod: PodKey)
    requires FixedSpecs(events, containers) && Inv(events, containers, s) && Enabled(events, exit, s, Receive)
    ensures var s' := Apply(events, exit, s, Receive);
      s'.read <= |events| && IsPrefixOfLength(s'.log, pod, StepsOf(pod, containers(pod)), Level(events, s', pod))
  {
    var e, c := events[s.read - 1], s.queue[0];
    LongestFits(events, containers, s.read - 1, pod);
    var sent, key := SentFor(e), e.pod.key;
    var k := |sent| - |s.queue|;
    var steps := StepsOf(key, containers(key));
    assert c == sent[k] == steps[k];
    StepsAreOfPod(key, containers(key));
    ReceiveLevel(events, s, Apply(events, exit, s, Receive), pod);
    assert IsPrefixOfLength(s.log, pod, StepsOf(pod, containers(pod)), Level(events, s, pod));
    if pod == key {
      ReceiveNext(s.log, pod, steps, Longest(events[..s.read - 1], pod), k);
    } else {
      ReceiveOther(s.log, c, pod, StepsOf(pod, containers(pod)), Level(events, s, pod));
    }
  }

  lemma ReadKeepsLevel(events: seq<Event>, containers: PodKey -> seq<string>, exit: bool, s: State, pod: PodKey)
    requires FixedSpecs(events, containers) && QueueInv(events, s) && Enabled(events, exit, s, Read)
    ensures Level(events, s, pod) >= 0 ==> Level(events, Apply(events, exit, s, Read), pod) == Level(events, s, pod)
  {
    if s.read > 0 {
      LongestFits(events, containers, s.read - 1, pod);
    }
  }

  lemma StepQueue(events: seq<Event>, exit: bool, s: State, a: Action)
    requires QueueInv(events, s) && Enabled(events, exit, s, a)
    ensures QueueInv(events, Apply(events, exit, s, a))
  {
  }

  lemma StepInv(events: seq<Event>, containers: PodKey -> seq<string>, exit: bool, s: State, a: Action)
    requires FixedSpecs(events, containers) && Inv(events, containers, s) && Enabled(events, exit, s, a)
    ensures Inv(events, containers, Apply(events, exit, s, a))
  {
    StepQueue(events, exit, s, a);
    var s' := Apply(events, exit, s, a);
    forall pod ensures IsPrefixOfLength(s'.log, pod, StepsOf(pod, containers(pod)), Level(events, s', pod)) {
      assert IsPrefixOfLength(s.log, pod, StepsOf(pod, containers(pod)), Level(events, s, pod));
      if a.Read? {
        ReadKeepsLevel(events, containers, exit, s, pod);
      } else if a.Receive? {
        ReceiveKeeps(events, containers, exit, s, pod);
      } else {
        assert Level(events, s', pod) == Level(events, s, pod);
      }
    }
  }

  lemma {:induction false} RunInv(events: seq<Event>, containers: PodKey -> seq<string>, exit: bool,
                                  states: seq<State>, actions: seq<Action>, i: nat)
    requires FixedSpecs(events, containers) && IsRun(events, exit, states, actions) && i < |states|
    ensures Inv(events, containers, states[i])
  {
    if i > 0 {
      RunInv(events, containers, exit, states, actions, i - 1);
      StepInv(events, containers, exit, states[i - 1], actions[i - 1]);
    }
  }

  /** Log prefix: in every reachable state, what was streamed of a pod is a prefix of its build steps in spec order,
      nothing was streamed twice, and between events the prefix is as long as the longest ready one delivered so far. */
  lemma LogPrefix(events: seq<Event>, containers: PodKey -> seq<string>, exit: bool,
                  states: seq<State>, actions: seq<Action>, i: nat, pod: PodKey)
    requires FixedSpecs(events, containers) && IsRun(events, exit, states, actions) && i < |states|
    ensures Distinct(states[i].log) && ForPod(states[i].log, pod) <= StepsOf(pod, containers(pod))
    ensures states[i].read <= |events|
    ensures states[i].queue == [] ==> |ForPod(states[i].log, pod)| == Longest(events[..states[i].read], pod)
  {
    RunInv(events, containers, exit, states, actions, i);
    var s := states[i];
    assert IsPrefixOfLength(s.log, pod, StepsOf(pod, containers(pod)), Level(events, s, pod));
    if s.read > 0 {
      LongestFits(events, containers, s.read - 1, pod);
    }
  }

  // The client.

  class BuildLogsClient {
    var processed: set<ReadyContainer>
    /** The containers whose logs were opened, in order. */
    var streamed: seq<ReadyContainer>

    constructor ()
      ensures Valid() && streamed == []
    {
      processed, streamed := {}, [];
    }

    predicate Valid()
      reads this
    {
      processed == set c | c in streamed
    }

    /** build_logs.go:191-195. */
    method StreamLogsForContainer(c: ReadyContainer)
      requires Valid()
      modifies this
      ensures Valid() && streamed == Stream(old(streamed), c)
    {
      if c in processed {
        return;
      }
      processed := processed + {c};
      streamed := streamed + [c];
    }

    /** build_logs.go:122-144: what the producer puts on the channel for one event. */
    method ReadyContainers(pod: Pod) returns (sent: seq<ReadyContainer>)
      ensures sent == Sent(pod, pod.containers)
    {
      var ready: map<string, ReadyContainer> := map[];
      for i := 0 to |pod.statuses|
        invariant forall n :: n in ready <==> exists j :: 0 <= j < i && pod.statuses[j].name == n && !pod.statuses[j].waiting
        invariant forall n :: n in ready ==> ready[n] == ReadyContainer(pod.key, n)
      {
        var status := pod.statuses[i];
        if !status.waiting {
          ready := ready[status.name := ReadyContainer(pod.key, status.name)];
        }
      }
      sent := [];
      for i := 0 to |pod.containers|
        invariant sent + Sent(pod, pod.containers[i..]) == Sent(pod, pod.containers)
      {
        var name := pod.containers[i];
        assert pod.containers[i..][1..] == pod.containers[i + 1..];
        if !IsBuildStep(name) {
          continue;
        }
        if name in ready {
          sent := sent + [ready[name]];
        } else {
          assert Sent(pod, pod.containers[i..]) == [];
          break;
        }
      }
    }
  }
}
