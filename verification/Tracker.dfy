// pkg/tracker/tracker.go: leases on objects and kinds in two-level maps that are
// pruned while they are walked, against the full log of calls.
module Tracker {
  import opened Common
  import Text

  datatype GroupKind = GroupKind(group: string, kind: string)

  datatype NamespacedName = NamespacedName(namespace: string, name: string)

  datatype Key = Key(groupKind: GroupKind, namespacedName: NamespacedName)

  /** schema.GroupKind.String(). */
  function GroupKindString(gk: GroupKind): string {
    if gk.group == "" then gk.kind else gk.kind + "." + gk.group
  }

  /** pkg/reconciler/tracker.go:15-17: "kind.group/namespace/name". */
  function KeyString(k: Key): string {
    GroupKindString(k.groupKind) + "/" + (k.namespacedName.namespace + "/" + k.namespacedName.name)
  }

  predicate PlainGroupKind(gk: GroupKind) {
    '.' !in gk.kind && '/' !in gk.kind && '/' !in gk.group
  }

  predicate PlainKey(k: Key) {
    PlainGroupKind(k.groupKind) && '/' !in k.namespacedName.namespace
  }

  lemma DotMeansGroup(gk: GroupKind)
    requires PlainGroupKind(gk)
    ensures '.' in GroupKindString(gk) <==> gk.group != ""
  {
    if gk.group != "" {
      assert GroupKindString(gk)[|gk.kind|] == '.';
    }
  }

  lemma GroupKindStringInjective(a: GroupKind, b: GroupKind)
    requires PlainGroupKind(a) && PlainGroupKind(b)
    ensures GroupKindString(a) == GroupKindString(b) <==> a == b
    ensures '/' !in GroupKindString(a)
  {
    DotMeansGroup(a);
    DotMeansGroup(b);
    if GroupKindString(a) == GroupKindString(b) && a.group != "" {
      assert a.kind + ['.'] + a.group == GroupKindString(a) && b.kind + ['.'] + b.group == GroupKindString(b);
      Text.JoinInjective(a.kind, a.group, b.kind, b.group, '.');
    }
  }

  /** Names without separators give distinct objects distinct strings. */
  lemma KeyStringInjective(a: Key, b: Key)
    requires PlainKey(a) && PlainKey(b)
    ensures KeyString(a) == KeyString(b) <==> a == b
  {
    if KeyString(a) == KeyString(b) {
      var ga, gb, na, nb := GroupKindString(a.groupKind), GroupKindString(b.groupKind), a.namespacedName, b.namespacedName;
      GroupKindStringInjective(a.groupKind, b.groupKind);
      GroupKindStringInjective(b.groupKind, a.groupKind);
      assert KeyString(a) == ga + ['/'] + (na.namespace + ['/'] + na.name);
      assert KeyString(b) == gb + ['/'] + (nb.namespace + ['/'] + nb.name);
      Text.JoinInjective(ga, na.namespace + ['/'] + na.name, gb, nb.namespace + ['/'] + nb.name, '/');
      Text.JoinInjective(na.namespace, na.name, nb.namespace, nb.name, '/');
    }
  }

  // One table and the calls on it.

  type Table = map<string, map<NamespacedName, int>>

  /** A call on a table, with the times it read: Changed looks at the clock once per entry, between start and end. */
  datatype Call =
    | Track(s: string, w: NamespacedName, at: int)
    | Changed(s: string, start: int, end: int, called: seq<NamespacedName>)
  {
    function Start(): int {
      if Track? then at else start
    }

    function End(): int {
      if Track? then at else end
    }
  }

  function Entries(m: Table, s: string): map<NamespacedName, int> {
    if s in m then m[s] else map[]
  }

  /** The expiry of the latest lease on s that the log gives w. */
  function Lease(calls: seq<Call>, lease: int, s: string, w: NamespacedName): Option<int>
    decreases |calls|
  {
    if calls == [] then None
    else
      var last := calls[|calls| - 1];
      if last.Track? && last.s == s && last.w == w then Some(last.at + lease)
      else Lease(calls[..|calls| - 1], lease, s, w)
  }

  ghost predicate NoRepeats(called: seq<NamespacedName>) {
    forall i, j :: 0 <= i < j < |called| ==> called[i] != called[j]
  }

  /** What is left of the watchers of s: those called back, and no entry at all when there are none. */
  function Pruned(m: Table, s: string, called: seq<NamespacedName>): Table {
    if s !in m then m
    else if called == [] then m - {s}
    else m[s := map w | w in m[s] && w in called :: m[s][w]]
  }

  /** What a call may do to the table. A watcher is called back if its lease had not expired when it was looked at. */
  ghost predicate Step(m: Table, c: Call, m': Table, lease: int) {
    match c
    case Track(s, w, at) => m' == m[s := Entries(m, s)[w := at + lease]]
    case Changed(s, start, end, called) =>
      && start <= end && NoRepeats(called) && m' == Pruned(m, s, called)
      && (forall w :: w in called ==> w in Entries(m, s) && Entries(m, s)[w] >= start)
      && (forall w :: w in Entries(m, s) && w !in called ==> Entries(m, s)[w] < end)
  }

  /** The table holds nothing but latest leases, and all of them that have not expired. */
  ghost predicate Agrees(m: Table, calls: seq<Call>, lease: int, now: int) {
    && (forall s, w :: w in Entries(m, s) ==> Lease(calls, lease, s, w) == Some(Entries(m, s)[w]))
    && (forall s, w :: Lease(calls, lease, s, w).Some? && Lease(calls, lease, s, w).value >= now ==> w in Entries(m, s))
  }

  /** The watchers called back are those with an unexpired lease in the log, once each; when the clock stands still
      during the call, exactly those. */
  ghost predicate AnswersLog(c: Call, calls: seq<Call>, lease: int) {
    c.Changed? ==>
      && NoRepeats(c.called)
      && (forall w :: w in c.called ==> Lease(calls, lease, c.s, w).Some? && Lease(calls, lease, c.s, w).value >= c.start)
      && (forall w :: Lease(calls, lease, c.s, w).Some? && Lease(calls, lease, c.s, w).value >= c.end ==> w in c.called)
  }

  lemma PrunedEntries(m: Table, s: string, called: seq<NamespacedName>)
    ensures forall w :: w in Entries(Pruned(m, s, called), s) <==> w in Entries(m, s) && w in called
    ensures forall w :: w in Entries(m, s) && w in called ==> Entries(Pruned(m, s, called), s)[w] == Entries(m, s)[w]
  {
  }

  /** Pruning never changes a later answer: the table goes on agreeing with the log. */
  lemma StepAgrees(m: Table, c: Call, m': Table, calls: seq<Call>, lease: int, now: int)
    requires Agrees(m, calls, lease, now) && Step(m, c, m', lease) && now <= c.Start()
    ensures Agrees(m', calls + [c], lease, c.End()) && AnswersLog(c, calls, lease)
  {
    var calls' := calls + [c];
    assert calls'[..|calls|] == calls;
    forall s, w
      ensures w in Entries(m', s) ==> Lease(calls', lease, s, w) == Some(Entries(m', s)[w])
      ensures Lease(calls', lease, s, w).Some? && Lease(calls', lease, s, w).value >= c.End() ==> w in Entries(m', s)
    {
      if c.Changed? {
        assert Lease(calls', lease, s, w) == Lease(calls, lease, s, w);
        PrunedEntries(m, c.s, c.called);
        assert s != c.s ==> Entries(m', s) == Entries(m, s);
      } else if s == c.s && w == c.w {
        assert Lease(calls', lease, s, w) == Some(c.at + lease);
      } else {
        assert Lease(calls', lease, s, w) == Lease(calls, lease, s, w);
      }
    }
  }

  ghost predicate InOrder(calls: seq<Call>) {
    forall i, j :: 0 <= i < j < |calls| ==> calls[i].End() <= calls[j].Start()
  }

  /** tables[i] is the table before calls[i]. */
  ghost predicate IsRun(tables: seq<Table>, calls: seq<Call>, lease: int) {
    && |tables| == |calls| + 1 && tables[0] == map[]
    && forall i :: 0 <= i < |calls| ==> Step(tables[i], calls[i], tables[i + 1], lease)
  }

  lemma {:induction false} RunAgrees(tables: seq<Table>, calls: seq<Call>, lease: int, i: nat, now: int)
    requires IsRun(tables, calls, lease) && InOrder(calls) && i <= |calls|
    requires i > 0 ==> calls[i - 1].End() <= now
    ensures Agrees(tables[i], calls[..i], lease, now)
  {
    if i > 0 {
      var start := calls[i - 1].Start();
      RunAgrees(tables, calls, lease, i - 1, start);
      assert calls[..i] == calls[..i - 1] + [calls[i - 1]];
      StepAgrees(tables[i - 1], calls[i - 1], tables[i], calls[..i - 1], lease, start);
    }
  }

  /** Tracker refinement: over any sequence of calls in time order, every notification answers what the full log says,
      however much was pruned before. */
  lemma RunAnswersLog(tables: seq<Table>, calls: seq<Call>, lease: int, i: nat)
    requires IsRun(tables, calls, lease) && InOrder(calls) && i < |calls|
    ensures AnswersLog(calls[i], calls[..i], lease)
  {
    RunAgrees(tables, calls, lease, i, calls[i].Start());
    StepAgrees(tables[i], calls[i], tables[i + 1], calls[..i], lease, calls[i].Start());
  }

  // Both tables and the log by keys instead of texts.

  /** A call on the tracker. A notification walks the watchers of the object until mid and then those of its kind. */
  datatype Logged =
    | OnObject(key: Key, watcher: NamespacedName, at: int)
    | OnKind(kind: GroupKind, watcher: NamespacedName, at: int)
    | Notified(key: Key, start: int, mid: int, end: int, forObject: seq<NamespacedName>, forKind: seq<NamespacedName>)
  {
    function Start(): int {
      if Notified? then start else at
    }

    function End(): int {
      if Notified? then end else at
    }

    /** What the call does to the table of objects. */
    function ObjectCalls(): seq<Call> {
      match this
      case OnObject(key, w, at) => [Track(KeyString(key), w, at)]
      case OnKind(_, _, _) => []
      case Notified(key, start, mid, _, called, _) => [Changed(KeyString(key), start, mid, called)]
    }

    function KindCalls(): seq<Call> {
      match this
      case OnObject(_, _, _) => []
      case OnKind(kind, w, at) => [Track(GroupKindString(kind), w, at)]
      case Notified(key, _, mid, end, _, called) => [Changed(GroupKindString(key.groupKind), mid, end, called)]
    }

    predicate Plain() {
      if OnKind? then PlainGroupKind(kind) else PlainKey(key)
    }
  }

  function ObjectCalls(log: seq<Logged>): seq<Call>
    decreases |log|
  {
    if log == [] then [] else ObjectCalls(log[..|log| - 1]) + log[|log| - 1].ObjectCalls()
  }

  function KindCalls(log: seq<Logged>): seq<Call>
    decreases |log|
  {
    if log == [] then [] else KindCalls(log[..|log| - 1]) + log[|log| - 1].KindCalls()
  }

  datatype Tables = Tables(objects: Table, kinds: Table)

  ghost predicate LoggedStep(t: Tables, c: Logged, t': Tables, lease: int) {
    match c
    case OnObject(key, w, at) => Step(t.objects, Track(KeyString(key), w, at), t'.objects, lease) && t'.kinds == t.kinds
    case OnKind(kind, w, at) => t'.objects == t.objects && Step(t.kinds, Track(GroupKindString(kind), w, at), t'.kinds, lease)
    case Notified(key, start, mid, end, forObject, forKind) =>
      && Step(t.objects, Changed(KeyString(key), start, mid, forObject), t'.objects, lease)
      && Step(t.kinds, Changed(GroupKindString(key.groupKind), mid, end, forKind), t'.kinds, lease)
  }

  ghost predicate TablesAgree(t: Tables, log: seq<Logged>, lease: int, now: int) {
    Agrees(t.objects, ObjectCalls(log), lease, now) && Agrees(t.kinds, KindCalls(log), lease, now)
  }

  lemma AgreesLater(m: Table, calls: seq<Call>, lease: int, now: int, later: int)
    requires Agrees(m, calls, lease, now) && now <= later
    ensures Agrees(m, calls, lease, later)
  {
  }

  /** A notification answers the logs of both tables. */
  ghost predicate AnswersBoth(c: Logged, log: seq<Logged>, lease: int) {
    c.Notified? ==>
      && AnswersLog(Changed(KeyString(c.key), c.start, c.mid, c.forObject), ObjectCalls(log), lease)
      && AnswersLog(Changed(GroupKindString(c.key.groupKind), c.mid, c.end, c.forKind), KindCalls(log), lease)
  }

  lemma LoggedStepAgrees(t: Tables, c: Logged, t': Tables, log: seq<Logged>, lease: int, now: int)
    requires TablesAgree(t, log, lease, now) && LoggedStep(t, c, t', lease) && now <= c.Start()
    ensures TablesAgree(t', log + [c], lease, c.End()) && AnswersBoth(c, log, lease)
  {
    assert (log + [c])[..|log|] == log;
    assert c.OnObject? ==> KindCalls(log + [c]) == KindCalls(log);
    assert c.OnKind? ==> ObjectCalls(log + [c]) == ObjectCalls(log);
    AgreesLater(t.objects, ObjectCalls(log), lease, now, c.Start());
    AgreesLater(t.kinds, KindCalls(log), lease, now, c.Start());
    match c
    case OnObject(key, w, at) =>
      StepAgrees(t.objects, Track(KeyString(key), w, at), t'.objects, ObjectCalls(log), lease, at);
    case OnKind(kind, w, at) =>
      StepAgrees(t.kinds, Track(GroupKindString(kind), w, at), t'.kinds, KindCalls(log), lease, at);
    case Notified(key, start, mid, end, forObject, forKind) =>
      StepAgrees(t.objects, Changed(KeyString(key), start, mid, forObject), t'.objects, ObjectCalls(log), lease, start);
      AgreesLater(t'.objects, ObjectCalls(log + [c]), lease, mid, end);
      StepAgrees(t.kinds, Changed(GroupKindString(key.groupKind), mid, end, forKind), t'.kinds, KindCalls(log), lease, mid);
  }

  /** The expiry of the latest lease on an object that the log gives w. */
  function ObjectLease(log: seq<Logged>, lease: int, key: Key, w: NamespacedName): Option<int>
    decreases |log|
  {
    if log == [] then None
    else
      var last := log[|log| - 1];
      if last.OnObject? && last.key == key && last.watcher == w then Some(last.at + lease)
      else ObjectLease(log[..|log| - 1], lease, key, w)
  }

  function KindLease(log: seq<Logged>, lease: int, kind: GroupKind, w: NamespacedName): Option<int>
    decreases |log|
  {
    if log == [] then None
    else
      var last := log[|log| - 1];
      if last.OnKind? && last.kind == kind && last.watcher == w then Some(last.at + lease)
      else KindLease(log[..|log| - 1], lease, kind, w)
  }

  lemma LeaseOfAppend(calls: seq<Call>, c: Call, lease: int, s: string, w: NamespacedName)
    ensures Lease(calls + [c], lease, s, w) ==
      if c.Track? && c.s == s && c.w == w then Some(c.at + lease) else Lease(calls, lease, s, w)
  {
    assert (calls + [c])[..|calls|] == calls;
  }

  /** With plain names a lease found under the text is the lease on the object itself. */
  lemma {:induction false} LeaseByKey(log: seq<Logged>, lease: int, key: Key, w: NamespacedName)
    requires PlainKey(key) && forall c :: c in log ==> c.Plain()
    ensures Lease(ObjectCalls(log), lease, KeyString(key), w) == ObjectLease(log, lease, key, w)
    decreases |log|
  {
    if log != [] {
      var rest, last := log[..|log| - 1], log[|log| - 1];
      assert last in log;
      LeaseByKey(rest, lease, key, w);
      if last.OnObject? {
        KeyStringInjective(last.key, key);
      }
      if last.OnKind? {
        assert ObjectCalls(log) == ObjectCalls(rest);
      } else {
        LeaseOfAppend(ObjectCalls(rest), last.ObjectCalls()[0], lease, KeyString(key), w);
      }
    }
  }

  lemma {:induction false} LeaseByKind(log: seq<Logged>, lease: int, kind: GroupKind, w: NamespacedName)
    requires PlainGroupKind(kind) && forall c :: c in log ==> c.Plain()
    ensures Lease(KindCalls(log), lease, GroupKindString(kind), w) == KindLease(log, lease, kind, w)
    decreases |log|
  {
    if log != [] {
      var rest, last := log[..|log| - 1], log[|log| - 1];
      assert last in log;
      LeaseByKind(rest, lease, kind, w);
      if last.OnKind? {
        GroupKindStringInjective(last.kind, kind);
      }
      if last.OnObject? {
        assert KindCalls(log) == KindCalls(rest);
      } else {
        LeaseOfAppend(KindCalls(rest), last.KindCalls()[0], lease, GroupKindString(kind), w);
      }
    }
  }

  ghost predicate LogInOrder(log: seq<Logged>) {
    && (forall c :: c in log ==> c.Plain())
    && (forall i, j :: 0 <= i < j < |log| ==> log[i].End() <= log[j].Start())
  }

  /** tables[i] are the tables before log[i]. */
  ghost predicate IsLoggedRun(tables: seq<Tables>, log: seq<Logged>, lease: int) {
    && |tables| == |log| + 1 && tables[0] == Tables(map[], map[])
    && forall i :: 0 <= i < |log| ==> LoggedStep(tables[i], log[i], tables[i + 1], lease)
  }

  lemma {:induction false} LoggedRunAgrees(tables: seq<Tables>, log: seq<Logged>, lease: int, i: nat, now: int)
    requires IsLoggedRun(tables, log, lease) && LogInOrder(log) && i <= |log|
    requires i > 0 ==> log[i - 1].End() <= now
    ensures TablesAgree(tables[i], log[..i], lease, now)
  {
    if i > 0 {
      var c := log[i - 1];
      LoggedRunAgrees(tables, log, lease, i - 1, c.Start());
      assert log[..i] == log[..i - 1] + [c];
      LoggedStepAgrees(tables[i - 1], c, tables[i], log[..i - 1], lease, c.Start());
      AgreesLater(tables[i].objects, ObjectCalls(log[..i]), lease, c.End(), now);
      AgreesLater(tables[i].kinds, KindCalls(log[..i]), lease, c.End(), now);
    }
  }

  /** Tracker refinement by keys: over any sequence of Track, TrackKind and OnChanged calls in time order, a notification
      calls back exactly the watchers to which the full log gives an unexpired lease on that object, and then those with
      one on its kind, once each. A lease that runs out while the watchers are walked may fall either way. */
  lemma RunAnswersKeys(tables: seq<Tables>, log: seq<Logged>, lease: int, i: nat)
    requires IsLoggedRun(tables, log, lease) && LogInOrder(log) && i < |log| && log[i].Notified?
    ensures var c := log[i];
      && NoRepeats(c.forObject) && NoRepeats(c.forKind)
      && (forall w :: var l := ObjectLease(log[..i], lease, c.key, w);
            && (w in c.forObject ==> l.Some? && l.value >= c.start)
            && (l.Some? && l.value >= c.mid ==> w in c.forObject))
      && (forall w :: var l := KindLease(log[..i], lease, c.key.groupKind, w);
            && (w in c.forKind ==> l.Some? && l.value >= c.mid)
            && (l.Some? && l.value >= c.end ==> w in c.forKind))
  {
    var c := log[i];
    assert c in log;
    LoggedRunAgrees(tables, log, lease, i, c.Start());
    LoggedStepAgrees(tables[i], c, tables[i + 1], log[..i], lease, c.Start());
    forall w
      ensures Lease(ObjectCalls(log[..i]), lease, KeyString(c.key), w) == ObjectLease(log[..i], lease, c.key, w)
      ensures Lease(KindCalls(log[..i]), lease, GroupKindString(c.key.groupKind), w) == KindLease(log[..i], lease, c.key.groupKind, w)
    {
      LeaseByKey(log[..i], lease, c.key, w);
      LeaseByKind(log[..i], lease, c.key.groupKind, w);
    }
  }

  lemma FirstIsMember(called: seq<NamespacedName>)
    ensures called != [] ==> exists w :: w in called
  {
    if called != [] {
      assert called[0] in called;
    }
  }

  // The tracker.

  class Tracker {
    const leaseDuration: nat
    var objects: Table
    var kinds: Table
    var clock: int
    /** What the callback was invoked with. */
    var callbacks: seq<NamespacedName>
    /** Every call so far. */
    ghost var log: seq<Logged>

    constructor (lease: nat, now: int)
      ensures Valid() && log == [] && callbacks == [] && leaseDuration == lease && clock == now
    {
      leaseDuration := lease;
      objects, kinds, clock, callbacks := map[], map[], now, [];
      log := [];
    }

    /** Both tables agree with the calls so far. */
    ghost predicate Valid()
      reads this
    {
      TablesAgree(Tables(objects, kinds), log, leaseDuration, clock)
    }

    /** time.Now() never goes back. */
    method Now() returns (now: int)
      modifies this`clock
      ensures now == clock && clock >= old(clock)
    {
      var elapsed: int :| elapsed >= 0;
      clock := clock + elapsed;
      now := clock;
    }

    /** tracker.go:64-76. */
    method Track(ref: Key, obj: NamespacedName)
      requires Valid()
      modifies this
      ensures Valid() && callbacks == old(callbacks) && clock >= old(clock)
      ensures log == old(log) + [OnObject(ref, obj, clock)]
    {
      ghost var before := Tables(objects, kinds);
      var now := Now();
      var l := Entries(objects, KeyString(ref));
      l := l[obj := now + leaseDuration];
      objects := objects[KeyString(ref) := l];
      LoggedStepAgrees(before, OnObject(ref, obj, now), Tables(objects, kinds), log, leaseDuration, old(clock));
      log := log + [OnObject(ref, obj, now)];
    }

    /** tracker.go:82-94. */
    method TrackKind(kind: GroupKind, obj: NamespacedName)
      requires Valid()
      modifies this
      ensures Valid() && callbacks == old(callbacks) && clock >= old(clock)
      ensures log == old(log) + [OnKind(kind, obj, clock)]
    {
      ghost var before := Tables(objects, kinds);
      var now := Now();
      var l := Entries(kinds, GroupKindString(kind));
      l := l[obj := now + leaseDuration];
      kinds := kinds[GroupKindString(kind) := l];
      LoggedStepAgrees(before, OnKind(kind, obj, now), Tables(objects, kinds), log, leaseDuration, old(clock));
      log := log + [OnKind(kind, obj, now)];
    }

    /** tracker.go:113-132. Expired entries go while the set is walked, in whatever order; an empty set goes altogether. */
    method Notify(mapping: Table, key: string) returns (mapping': Table, called: seq<NamespacedName>)
      modifies this`clock, this`callbacks
      ensures Step(mapping, Changed(key, old(clock), clock, called), mapping', leaseDuration)
      ensures callbacks == old(callbacks) + called
    {
      mapping', called := mapping, [];
      if key !in mapping {
        return;
      }
      var s := mapping[key];
      var todo := s.Keys;
      while todo != {}
        invariant clock >= old(clock) && callbacks == old(callbacks) + called && NoRepeats(called)
        invariant todo <= s.Keys <= mapping[key].Keys
        invariant forall w :: w in s ==> s[w] == mapping[key][w]
        invariant forall w :: w in s.Keys <==> w in mapping[key].Keys && (w in todo || w in called)
        invariant forall w :: w in called ==> w in s && w !in todo && s[w] >= old(clock)
        invariant forall w :: w in mapping[key].Keys && w !in todo && w !in called ==> mapping[key][w] < clock
        decreases todo
      {
        var w :| w in todo;
        todo := todo - {w};
        var now := Now();
        if now > s[w] {
          s := s - {w};
        } else {
          callbacks := callbacks + [w];
          called := called + [w];
        }
      }
      if |s| == 0 {
        mapping' := mapping - {key};
        FirstIsMember(called);
      } else {
        mapping' := mapping[key := s];
        var some :| some in s.Keys;
        assert some in called;
        assert s == map w | w in mapping[key] && w in called :: mapping[key][w];
      }
    }

    /** tracker.go:97-111. */
    method OnChanged(key: Key) returns (ghost call: Logged)
      requires Valid()
      modifies this
      ensures Valid() && log == old(log) + [call] && clock >= old(clock)
      ensures call.Notified? && call.key == key && call.start == old(clock) <= call.mid <= call.end == clock
      ensures callbacks == old(callbacks) + call.forObject + call.forKind
      ensures AnswersBoth(call, old(log), leaseDuration)
    {
      var objects', forObject := Notify(objects, KeyString(key));
      ghost var mid := clock;
      var kinds', forKind := Notify(kinds, GroupKindString(key.groupKind));
      call := Notified(key, old(clock), mid, clock, forObject, forKind);
      LoggedStepAgrees(Tables(objects, kinds), call, Tables(objects', kinds'), log, leaseDuration, old(clock));
      objects, kinds := objects', kinds';
      log := log + [call];
    }
  }
}
