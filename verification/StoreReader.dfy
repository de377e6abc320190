// pkg/cnb/remote_store_reader.go: one goroutine per store image sends buildpacks
// over a channel; the reader collects, waits for the close, and sorts.
module StoreReader {
  import opened Common
  import opened CnbApi
  import Sorting
  import Text

  /** The buildpacks an image lists; a map in the source, so there is no order to it. */
  type Contents = string -> set<BuildpackStatus>

  datatype Phase = Running | Done | Failed

  datatype Worker = Worker(image: string, todo: set<BuildpackStatus>, phase: Phase)

  datatype State = State(workers: seq<Worker>, received: seq<BuildpackStatus>, closed: bool)

  /** Every step that the goroutines and the scheduler can take. A send meets its receive, the channel has no buffer. */
  datatype Event =
    | Send(i: nat, b: BuildpackStatus)
    | Finish(i: nat)
    | Fail(i: nat)
    | Close

  ghost predicate Enabled(s: State, e: Event) {
    match e
    case Send(i, b) => i < |s.workers| && s.workers[i].phase == Running && b in s.workers[i].todo
    case Finish(i) => i < |s.workers| && s.workers[i].phase == Running && s.workers[i].todo == {}
    case Fail(i) => i < |s.workers| && s.workers[i].phase == Running
    case Close => !s.closed && forall w :: w in s.workers ==> w.phase != Running
  }

  function Next(s: State, e: Event): State
    requires Enabled(s, e)
  {
    match e
    case Send(i, b) =>
      s.(workers := s.workers[i := s.workers[i].(todo := s.workers[i].todo - {b})], received := s.received + [b])
    case Finish(i) => s.(workers := s.workers[i := s.workers[i].(phase := Done)])
    case Fail(i) => s.(workers := s.workers[i := s.workers[i].(phase := Failed)])
    case Close => s.(closed := true)
  }

  function Start(images: seq<string>, contents: Contents): State {
    State(seq(|images|, i requires 0 <= i < |images| => Worker(images[i], contents(images[i]), Running)), [], false)
  }

  ghost predicate EnabledRun(s: State, es: seq<Event>)
    decreases |es|
  {
    es == [] || (Enabled(s, es[0]) && EnabledRun(Next(s, es[0]), es[1..]))
  }

  function Run(s: State, es: seq<Event>): State
    requires EnabledRun(s, es)
    decreases |es|
  {
    if es == [] then s else Run(Next(s, es[0]), es[1..])
  }

  // Conservation.

  function Remaining(workers: seq<Worker>): multiset<BuildpackStatus>
    decreases |workers|
  {
    if workers == [] then multiset{}
    else Remaining(workers[..|workers| - 1]) + multiset(workers[|workers| - 1].todo)
  }

  function Total(images: seq<string>, contents: Contents): multiset<BuildpackStatus>
    decreases |images|
  {
    if images == [] then multiset{}
    else Total(images[..|images| - 1], contents) + multiset(contents(images[|images| - 1]))
  }

  /** Nothing is lost or duplicated; a finished worker has sent everything; after the close nobody can send. */
  ghost predicate Conserves(s: State, images: seq<string>, contents: Contents) {
    && |s.workers| == |images| && (forall i :: 0 <= i < |images| ==> s.workers[i].image == images[i])
    && multiset(s.received) + Remaining(s.workers) == Total(images, contents)
    && (forall w :: w in s.workers && w.phase == Done ==> w.todo == {})
    && (s.closed ==> forall w :: w in s.workers ==> w.phase != Running)
  }

  lemma {:induction false} StartRemaining(images: seq<string>, contents: Contents)
    ensures Remaining(Start(images, contents).workers) == Total(images, contents)
    decreases |images|
  {
    if images != [] {
      var rest := images[..|images| - 1];
      StartRemaining(rest, contents);
      assert Start(images, contents).workers[..|images| - 1] == Start(rest, contents).workers;
    }
  }

  lemma StartConserves(images: seq<string>, contents: Contents)
    ensures Conserves(Start(images, contents), images, contents)
  {
    StartRemaining(images, contents);
  }

  lemma {:induction false} RemainingReplace(workers: seq<Worker>, i: nat, w: Worker)
    requires i < |workers|
    ensures Remaining(workers[i := w]) + multiset(workers[i].todo) == Remaining(workers) + multiset(w.todo)
    decreases |workers|
  {
    var n, r := |workers| - 1, workers[i := w];
    if i < n {
      assert r[..n] == workers[..n][i := w] && r[n] == workers[n];
      RemainingReplace(workers[..n], i, w);
      var a, b, c := Remaining(r[..n]), Remaining(workers[..n]), multiset(workers[n].todo);
      assert a + c + multiset(workers[i].todo) == (a + multiset(workers[i].todo)) + c;
      assert b + c + multiset(w.todo) == (b + multiset(w.todo)) + c;
    } else {
      assert r[..n] == workers[..n];
    }
  }

  lemma SameTodoSameRemaining(workers: seq<Worker>, i: nat, w: Worker)
    requires i < |workers| && w.todo == workers[i].todo
    ensures Remaining(workers[i := w]) == Remaining(workers)
  {
    RemainingReplace(workers, i, w);
    var a, b, c := Remaining(workers[i := w]), Remaining(workers), multiset(w.todo);
    forall x ensures a[x] == b[x] {
      assert (a + c)[x] == (b + c)[x];
    }
  }

  lemma SendKeepsTotal(workers: seq<Worker>, received: seq<BuildpackStatus>, i: nat, b: BuildpackStatus)
    requires i < |workers| && b in workers[i].todo
    ensures var w := workers[i].(todo := workers[i].todo - {b});
      multiset(received + [b]) + Remaining(workers[i := w]) == multiset(received) + Remaining(workers)
  {
    var w := workers[i].(todo := workers[i].todo - {b});
    RemainingReplace(workers, i, w);
    assert multiset(workers[i].todo) == multiset(w.todo) + multiset{b};
    var before, after, c := Remaining(workers), Remaining(workers[i := w]), multiset(w.todo);
    forall x ensures before[x] == (after + multiset{b})[x] {
      assert (after + (c + multiset{b}))[x] == (before + c)[x];
    }
    assert multiset(received + [b]) == multiset(received) + multiset{b};
  }

  /** One worker changes; what it has left to do does not matter unless it claims to be done. */
  lemma WorkerConserves(s: State, s': State, images: seq<string>, contents: Contents, i: nat, w: Worker)
    requires Conserves(s, images, contents) && i < |s.workers| && s.workers[i].phase == Running
    requires s'.workers == s.workers[i := w] && s'.closed == s.closed && w.image == s.workers[i].image
    requires w.phase == Done ==> w.todo == {}
    requires multiset(s'.received) + Remaining(s'.workers) == multiset(s.received) + Remaining(s.workers)
    ensures Conserves(s', images, contents) && !s.closed
  {
    assert s.workers[i] in s.workers;
    ReplaceMembers(s.workers, i, w);
  }

  /** Every step conserves, and a step of a worker finds the channel open: the close comes after the last send. */
  lemma StepConserves(s: State, e: Event, images: seq<string>, contents: Contents)
    requires Conserves(s, images, contents) && Enabled(s, e)
    ensures Conserves(Next(s, e), images, contents)
    ensures !e.Close? ==> !s.closed
  {
    if !e.Close? {
      var w := Next(s, e).workers[e.i];
      if e.Send? {
        SendKeepsTotal(s.workers, s.received, e.i, e.b);
      } else {
        SameTodoSameRemaining(s.workers, e.i, w);
      }
      WorkerConserves(s, Next(s, e), images, contents, e.i, w);
    }
  }

  lemma ReplaceMembers(workers: seq<Worker>, i: nat, w: Worker)
    requires i < |workers|
    ensures forall x :: x in workers[i := w] ==> x == w || x in workers
  {
  }

  lemma {:induction false} RunConserves(s: State, es: seq<Event>, images: seq<string>, contents: Contents)
    requires Conserves(s, images, contents) && EnabledRun(s, es)
    ensures Conserves(Run(s, es), images, contents)
    decreases |es|
  {
    if es != [] {
      StepConserves(s, es[0], images, contents);
      RunConserves(Next(s, es[0]), es[1..], images, contents);
    }
  }

  /** errgroup's Wait: an error exactly when a goroutine returned one. */
  predicate SomeFailed(s: State) {
    exists w :: w in s.workers && w.phase == Failed
  }

  lemma {:induction false} NothingRemains(workers: seq<Worker>)
    requires forall w :: w in workers ==> w.todo == {}
    ensures Remaining(workers) == multiset{}
    decreases |workers|
  {
    if workers != [] {
      var n := |workers| - 1;
      assert workers[n] in workers;
      NothingRemains(workers[..n]);
    }
  }

  /** When the channel is closed and no fetch failed, exactly the contents of all images have arrived. */
  lemma ClosedReceivedAll(images: seq<string>, contents: Contents, es: seq<Event>)
    requires EnabledRun(Start(images, contents), es)
    ensures var s := Run(Start(images, contents), es);
      s.closed && !SomeFailed(s) ==> multiset(s.received) == Total(images, contents)
  {
    StartConserves(images, contents);
    RunConserves(Start(images, contents), es, images, contents);
    var s := Run(Start(images, contents), es);
    if s.closed && !SomeFailed(s) {
      NothingRemains(s.workers);
    }
  }

  // No run gets stuck or goes on for ever.

  function Work(workers: seq<Worker>): nat
    decreases |workers|
  {
    if workers == [] then 0
    else
      var w := workers[|workers| - 1];
      Work(workers[..|workers| - 1]) + |w.todo| + if w.phase == Running then 1 else 0
  }

  function StepsLeft(s: State): nat {
    Work(s.workers) + if s.closed then 0 else 1
  }

  lemma {:induction false} WorkReplace(workers: seq<Worker>, i: nat, w: Worker)
    requires i < |workers|
    ensures var cost := (x: Worker) => |x.todo| + if x.phase == Running then 1 else 0;
      Work(workers[i := w]) + cost(workers[i]) == Work(workers) + cost(w)
    decreases |workers|
  {
    var n := |workers| - 1;
    if i < n {
      assert workers[i := w][..n] == workers[..n][i := w];
      WorkReplace(workers[..n], i, w);
    } else {
      assert workers[i := w][..n] == workers[..n];
    }
  }

  /** Until the channel is closed some step is possible, and every step comes closer to the end. */
  lemma Progress(s: State)
    ensures !s.closed ==> exists e :: Enabled(s, e)
    ensures forall e :: Enabled(s, e) ==> StepsLeft(Next(s, e)) < StepsLeft(s)
  {
    if !s.closed {
      if i :| 0 <= i < |s.workers| && s.workers[i].phase == Running {
        if s.workers[i].todo == {} {
          assert Enabled(s, Finish(i));
        } else {
          var b :| b in s.workers[i].todo;
          assert Enabled(s, Send(i, b));
        }
      } else {
        assert Enabled(s, Close);
      }
    }
    forall e | Enabled(s, e) ensures StepsLeft(Next(s, e)) < StepsLeft(s) {
      if !e.Close? {
        WorkReplace(s.workers, e.i, Next(s, e).workers[e.i]);
      }
    }
  }

  // The sorted result.

  function StatusString(b: BuildpackStatus): string {
    InfoString(b.id, b.version.text)
  }

  /** remote_store_reader.go:108-114. */
  predicate ListedBefore(a: BuildpackStatus, b: BuildpackStatus) {
    if StatusString(a) == StatusString(b) then Text.Less(a.storeImage, b.storeImage)
    else Text.Less(StatusString(a), StatusString(b))
  }

  lemma ListedOrder()
    ensures Sorting.StrictWeakOrder(ListedBefore)
  {
    forall x: BuildpackStatus ensures !ListedBefore(x, x) {
      Text.LessIrreflexive(x.storeImage);
    }
    forall x: BuildpackStatus, y: BuildpackStatus, z: BuildpackStatus
      ensures ListedBefore(x, y) && ListedBefore(y, z) ==> ListedBefore(x, z)
      ensures ListedBefore(x, z) ==> ListedBefore(x, y) || ListedBefore(y, z)
    {
      PairOrder(StatusString(x), StatusString(y), StatusString(z), x.storeImage, y.storeImage, z.storeImage);
    }
  }

  predicate PairLess(a: string, i: string, b: string, j: string) {
    if a == b then Text.Less(i, j) else Text.Less(a, b)
  }

  lemma LessOrder(a: string, b: string, c: string)
    ensures Text.Less(a, b) && Text.Less(b, c) ==> Text.Less(a, c)
    ensures Text.Less(a, c) ==> Text.Less(a, b) || Text.Less(b, c)
    ensures !(Text.Less(a, b) && Text.Less(b, a))
  {
    Text.LessTrichotomy(a, b);
    Text.LessTrichotomy(b, c);
    if Text.Less(a, b) && Text.Less(b, c) {
      Text.LessTransitive(a, b, c);
    }
    if Text.Less(a, c) && Text.Less(b, a) {
      Text.LessTransitive(b, a, c);
    }
  }

  lemma PairOrder(a: string, b: string, c: string, i: string, j: string, k: string)
    ensures PairLess(a, i, b, j) && PairLess(b, j, c, k) ==> PairLess(a, i, c, k)
    ensures PairLess(a, i, c, k) ==> PairLess(a, i, b, j) || PairLess(b, j, c, k)
  {
    LessOrder(a, b, c);
    LessOrder(i, j, k);
    Text.LessTotal(a, b);
  }

  // When the result is determined.

  /** Two buildpacks of one image that have the same "id@version". */
  predicate Tie(a: BuildpackStatus, b: BuildpackStatus) {
    a != b && StatusString(a) == StatusString(b) && a.storeImage == b.storeImage
  }

  ghost predicate NoTies(images: seq<string>, contents: Contents) {
    forall a, b :: a in Total(images, contents) && b in Total(images, contents) ==> !Tie(a, b)
  }

  /** r is what a read in which no fetch fails may return. */
  ghost predicate IsRead(images: seq<string>, contents: Contents, r: seq<BuildpackStatus>) {
    exists es :: EnabledRun(Start(images, contents), es) && Reads(Run(Start(images, contents), es), r)
  }

  ghost predicate Reads(s: State, r: seq<BuildpackStatus>) {
    s.closed && !SomeFailed(s) && Sorting.IsSortOf(r, s.received, ListedBefore)
  }

  lemma ReadHasAll(images: seq<string>, contents: Contents, r: seq<BuildpackStatus>)
    requires IsRead(images, contents, r)
    ensures multiset(r) == Total(images, contents) && Sorting.IsSorted(r, ListedBefore)
  {
    var es :| EnabledRun(Start(images, contents), es) && Reads(Run(Start(images, contents), es), r);
    ClosedReceivedAll(images, contents, es);
  }

  lemma UntiedCompare(a: BuildpackStatus, b: BuildpackStatus)
    ensures a != b ==> (Tie(a, b) <==> !ListedBefore(a, b) && !ListedBefore(b, a))
  {
    Text.LessTrichotomy(StatusString(a), StatusString(b));
    Text.LessTrichotomy(a.storeImage, b.storeImage);
  }

  /** Confluence: however the goroutines interleave and whatever order each walks its map in, two reads in which no fetch
      fails return the same sequence. */
  lemma ReadConfluent(images: seq<string>, contents: Contents, r1: seq<BuildpackStatus>, r2: seq<BuildpackStatus>)
    requires NoTies(images, contents) && IsRead(images, contents, r1) && IsRead(images, contents, r2)
    ensures r1 == r2 && multiset(r1) == Total(images, contents)
  {
    ReadHasAll(images, contents, r1);
    ReadHasAll(images, contents, r2);
    forall a, b | a in r1 && b in r1 && a != b ensures ListedBefore(a, b) || ListedBefore(b, a) {
      assert a in multiset(r1) && b in multiset(r1);
      UntiedCompare(a, b);
    }
    Sorting.SortUnique(r1, r2, ListedBefore);
  }

  // A read that succeeds, and one that differs from it.

  lemma NextKeepsGood(s: State, e: Event)
    requires Enabled(s, e) && !e.Fail? && !SomeFailed(s)
    ensures !SomeFailed(Next(s, e))
  {
    if !e.Close? {
      ReplaceMembers(s.workers, e.i, Next(s, e).workers[e.i]);
    }
  }

  /** A step that is no failure. */
  lemma GoodStep(s: State) returns (e: Event)
    requires !s.closed
    ensures Enabled(s, e) && !e.Fail?
  {
    if i :| 0 <= i < |s.workers| && s.workers[i].phase == Running {
      if s.workers[i].todo == {} {
        e := Finish(i);
      } else {
        var b :| b in s.workers[i].todo;
        e := Send(i, b);
      }
    } else {
      e := Close;
    }
  }

  lemma {:induction false} GoodRun(s: State) returns (es: seq<Event>)
    requires !SomeFailed(s)
    ensures EnabledRun(s, es) && Run(s, es).closed && !SomeFailed(Run(s, es))
    decreases StepsLeft(s)
  {
    if s.closed {
      es := [];
    } else {
      var e := GoodStep(s);
      Progress(s);
      NextKeepsGood(s, e);
      var rest := GoodRun(Next(s, e));
      es := [e] + rest;
      assert es[0] == e && es[1..] == rest;
    }
  }

  lemma StartIsGood(images: seq<string>, contents: Contents)
    ensures !SomeFailed(Start(images, contents))
  {
  }

  lemma SomeRead(images: seq<string>, contents: Contents) returns (es: seq<Event>, r: seq<BuildpackStatus>)
    ensures EnabledRun(Start(images, contents), es) && Reads(Run(Start(images, contents), es), r)
  {
    StartIsGood(images, contents);
    es := GoodRun(Start(images, contents));
    ListedOrder();
    var received := Run(Start(images, contents), es).received;
    Sorting.StableSortCorrect(received, ListedBefore);
    r := Sorting.StableSort(received, ListedBefore);
  }

  lemma TiedCompareAlike(a: BuildpackStatus, b: BuildpackStatus, z: BuildpackStatus)
    requires Tie(a, b)
    ensures (ListedBefore(a, z) <==> ListedBefore(b, z)) && (ListedBefore(z, a) <==> ListedBefore(z, b))
  {
  }

  lemma TieGivesTwoSorts(r: seq<BuildpackStatus>, a: BuildpackStatus, b: BuildpackStatus)
    requires Sorting.IsSorted(r, ListedBefore) && a in r && b in r && Tie(a, b)
    ensures exists r' :: Sorting.IsSortOf(r', r, ListedBefore) && r' != r
  {
    var i :| 0 <= i < |r| && r[i] == a;
    var j :| 0 <= j < |r| && r[j] == b;
    var lo, hi := if i < j then i else j, if i < j then j else i;
    forall z | z in r
      ensures (ListedBefore(r[lo], z) <==> ListedBefore(r[hi], z)) && (ListedBefore(z, r[lo]) <==> ListedBefore(z, r[hi]))
    {
      TiedCompareAlike(a, b, z);
    }
    Sorting.SortOpenOnTies(r, ListedBefore, lo, hi);
  }

  lemma TieGivesTwoReads(images: seq<string>, contents: Contents, a: BuildpackStatus, b: BuildpackStatus)
    requires a in Total(images, contents) && b in Total(images, contents) && Tie(a, b)
    ensures exists r1, r2 :: IsRead(images, contents, r1) && IsRead(images, contents, r2) && r1 != r2
  {
    var es, r := SomeRead(images, contents);
    assert IsRead(images, contents, r);
    ReadHasAll(images, contents, r);
    assert a in multiset(r) && b in multiset(r);
    TieGivesTwoSorts(r, a, b);
    var r' :| Sorting.IsSortOf(r', r, ListedBefore) && r' != r;
    assert Reads(Run(Start(images, contents), es), r');
    assert IsRead(images, contents, r');
  }

  /** The result is the same for all interleavings exactly when no image lists two buildpacks with one "id@version". */
  lemma ReadConfluentIff(images: seq<string>, contents: Contents)
    ensures (forall r1, r2 :: IsRead(images, contents, r1) && IsRead(images, contents, r2) ==> r1 == r2) <==> NoTies(images, contents)
  {
    if NoTies(images, contents) {
      forall r1, r2 | IsRead(images, contents, r1) && IsRead(images, contents, r2) ensures r1 == r2 {
        ReadConfluent(images, contents, r1, r2);
      }
    } else {
      var a, b :| a in Total(images, contents) && b in Total(images, contents) && Tie(a, b);
      TieGivesTwoReads(images, contents, a, b);
    }
  }

  /** An image lists an id and version once, since it lists them in a map of maps, and every entry names its image. */
  ghost predicate FromMaps(images: seq<string>, contents: Contents) {
    && (forall image, b :: image in images && b in contents(image) ==> b.storeImage == image)
    && (forall image, a, b ::
          image in images && a in contents(image) && b in contents(image) && a.id == b.id && a.version.text == b.version.text ==> a == b)
  }

  lemma {:induction false} TotalMember(images: seq<string>, contents: Contents, b: BuildpackStatus)
    requires b in Total(images, contents)
    ensures exists image :: image in images && b in contents(image)
    decreases |images|
  {
    var n := |images| - 1;
    if b in Total(images[..n], contents) {
      TotalMember(images[..n], contents, b);
    } else {
      assert images[n] in images && b in contents(images[n]);
    }
  }

  /** Ids without "@" cannot tie. */
  lemma PlainIdsNeverTie(images: seq<string>, contents: Contents)
    requires FromMaps(images, contents) && forall b :: b in Total(images, contents) ==> '@' !in b.id
    ensures NoTies(images, contents)
  {
    forall a, b | a in Total(images, contents) && b in Total(images, contents) ensures !Tie(a, b) {
      TotalMember(images, contents, a);
      TotalMember(images, contents, b);
      if StatusString(a) == StatusString(b) {
        assert StatusString(a) == a.id + ['@'] + a.version.text && StatusString(b) == b.id + ['@'] + b.version.text;
        Text.JoinInjective(a.id, a.version.text, b.id, b.version.text, '@');
      }
    }
  }
}
