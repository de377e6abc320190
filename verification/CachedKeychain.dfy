// pkg/dockercreds/cached_keychain.go: a keychain factory with a memory.
module CachedKeychain {
  import opened Common
  import Text

  datatype SecretRef = SecretRef(serviceAccount: string, namespace: string, imagePullSecrets: seq<string>)

  /** Credentials, opaque here. */
  datatype Keychain = Keychain(credentials: string)

  type Factory = SecretRef -> Result<Keychain>

  /** cached_keychain.go:40-42. */
  function MakeKey(ref: SecretRef): string {
    ref.namespace + "/" + ref.serviceAccount
  }

  /** What the buildpack resolver produces: no pull secrets, and Kubernetes namespaces have no slash. */
  predicate FromResolver(ref: SecretRef) {
    ref.imagePullSecrets == [] && '/' !in ref.namespace
  }

  lemma KeysDistinguish(a: SecretRef, b: SecretRef)
    requires FromResolver(a) && FromResolver(b)
    ensures MakeKey(a) == MakeKey(b) <==> a == b
  {
    if MakeKey(a) == MakeKey(b) {
      assert MakeKey(a) == a.namespace + ['/'] + a.serviceAccount;
      assert MakeKey(b) == b.namespace + ['/'] + b.serviceAccount;
      Text.JoinInjective(a.namespace, a.serviceAccount, b.namespace, b.serviceAccount, '/');
    }
  }

  /** The cached keychains, and the calls that reached the underlying factory. */
  datatype Memory = Memory(cache: map<string, Keychain>, calls: seq<SecretRef>)

  const EMPTY := Memory(map[], [])

  function Call(u: Factory, m: Memory, ref: SecretRef): (Memory, Result<Keychain>) {
    var key := MakeKey(ref);
    if key in m.cache then (m, Ok(m.cache[key]))
    else
      match u(ref)
      case Err(e) => (Memory(m.cache, m.calls + [ref]), Err(e))
      case Ok(keychain) => (Memory(m.cache[key := keychain], m.calls + [ref]), Ok(keychain))
  }

  function CallAll(u: Factory, m: Memory, refs: seq<SecretRef>): (Memory, seq<Result<Keychain>>)
    decreases |refs|
  {
    if refs == [] then (m, [])
    else
      var (m', answers) := CallAll(u, m, refs[..|refs| - 1]);
      var (m'', answer) := Call(u, m', refs[|refs| - 1]);
      (m'', answers + [answer])
  }

  /** After the calls refs: cached is exactly what succeeded, a success went through once, a failure every time. */
  ghost predicate Remembers(u: Factory, m: Memory, refs: seq<SecretRef>) {
    && (forall ref :: FromResolver(ref) ==> (MakeKey(ref) in m.cache <==> ref in refs && u(ref).Ok?))
    && (forall ref :: FromResolver(ref) && ref in refs && u(ref).Ok? ==> Ok(m.cache[MakeKey(ref)]) == u(ref))
    && (forall ref :: multiset(m.calls)[ref] == if u(ref).Ok? && ref in refs then 1 else multiset(refs)[ref])
  }

  /** Cache transparency: over any sequence of calls the answers are those of the underlying factory, errors are never
      cached, and each successful reference reaches the underlying factory once. */
  lemma {:induction false} Transparent(u: Factory, refs: seq<SecretRef>)
    requires forall ref :: ref in refs ==> FromResolver(ref)
    ensures var (m, answers) := CallAll(u, EMPTY, refs);
      && |answers| == |refs| && (forall i :: 0 <= i < |refs| ==> answers[i] == u(refs[i]))
      && Remembers(u, m, refs)
    decreases |refs|
  {
    if refs != [] {
      var rest, ref := refs[..|refs| - 1], refs[|refs| - 1];
      assert refs == rest + [ref];
      Transparent(u, rest);
      RemembersStep(u, CallAll(u, EMPTY, rest).0, rest, ref);
    }
  }

  lemma RemembersStep(u: Factory, m: Memory, rest: seq<SecretRef>, ref: SecretRef)
    requires FromResolver(ref) && Remembers(u, m, rest)
    ensures var (m', answer) := Call(u, m, ref); answer == u(ref) && Remembers(u, m', rest + [ref])
  {
    var refs, m' := rest + [ref], Call(u, m, ref).0;
    forall r | FromResolver(r)
      ensures MakeKey(r) in m'.cache <==> r in refs && u(r).Ok?
      ensures r in refs && u(r).Ok? ==> Ok(m'.cache[MakeKey(r)]) == u(r)
    {
      KeysDistinguish(r, ref);
    }
    assert multiset(refs) == multiset(rest) + multiset{ref};
    forall r ensures multiset(m'.calls)[r] == if u(r).Ok? && r in refs then 1 else multiset(refs)[r] {
      assert r !in rest ==> multiset(rest)[r] == 0;
      assert multiset(m.calls + [ref]) == multiset(m.calls) + multiset{ref};
    }
  }

  // References of any kind: pull secrets are not part of the key, and a slash may be anywhere.

  /** The first success for a key. */
  function FirstSuccess(u: Factory, refs: seq<SecretRef>, key: string): Option<Keychain>
    decreases |refs|
  {
    if refs == [] then None
    else
      var before, ref := FirstSuccess(u, refs[..|refs| - 1], key), refs[|refs| - 1];
      if before.Some? then before
      else if MakeKey(ref) == key && u(ref).Ok? then Some(u(ref).value)
      else None
  }

  function AnswerAfter(u: Factory, refs: seq<SecretRef>, ref: SecretRef): Result<Keychain> {
    match FirstSuccess(u, refs, MakeKey(ref))
    case None => u(ref)
    case Some(keychain) => Ok(keychain)
  }

  ghost predicate HoldsFirst(u: Factory, cache: map<string, Keychain>, refs: seq<SecretRef>) {
    forall key :: if key in cache then FirstSuccess(u, refs, key) == Some(cache[key]) else FirstSuccess(u, refs, key).None?
  }

  /** The cache holds first successes, and a call is answered with the first success for its key, if there is one. */
  lemma {:induction false} AnswersAreFirst(u: Factory, refs: seq<SecretRef>)
    ensures var (m, answers) := CallAll(u, EMPTY, refs);
      && HoldsFirst(u, m.cache, refs)
      && |answers| == |refs| && forall k :: 0 <= k < |refs| ==> answers[k] == AnswerAfter(u, refs[..k], refs[k])
    decreases |refs|
  {
    if refs != [] {
      var rest, ref := refs[..|refs| - 1], refs[|refs| - 1];
      AnswersAreFirst(u, rest);
      assert forall k :: 0 <= k < |rest| ==> refs[..k] == rest[..k];
    }
  }

  lemma {:induction false} FirstSuccessMeaning(u: Factory, refs: seq<SecretRef>, key: string)
    ensures var first := FirstSuccess(u, refs, key);
      match first
      case None => forall i :: 0 <= i < |refs| && MakeKey(refs[i]) == key ==> u(refs[i]).Err?
      case Some(keychain) =>
        exists i :: 0 <= i < |refs| && MakeKey(refs[i]) == key && u(refs[i]) == Ok(keychain) && FirstSuccess(u, refs[..i], key).None?
    decreases |refs|
  {
    if refs != [] {
      var rest, n := refs[..|refs| - 1], |refs| - 1;
      FirstSuccessMeaning(u, rest, key);
      if FirstSuccess(u, rest, key).Some? {
        var i :| 0 <= i < |rest| && MakeKey(rest[i]) == key && u(rest[i]) == Ok(FirstSuccess(u, rest, key).value)
          && FirstSuccess(u, rest[..i], key).None?;
        assert refs[..i] == rest[..i] && refs[i] == rest[i];
      } else {
        assert refs[..n] == rest;
      }
    }
  }

  /** Two calls for one key of which the first succeeds, and not as the second would. */
  ghost predicate Clash(u: Factory, refs: seq<SecretRef>, i: int, k: int) {
    && 0 <= i < k < |refs|
    && MakeKey(refs[i]) == MakeKey(refs[k]) && u(refs[i]).Ok? && u(refs[i]) != u(refs[k])
  }

  /** Over any sequence of calls all answers are right exactly when no two of them clash. */
  lemma AnswersRightIff(u: Factory, refs: seq<SecretRef>)
    ensures |CallAll(u, EMPTY, refs).1| == |refs|
    ensures (forall k :: 0 <= k < |refs| ==> CallAll(u, EMPTY, refs).1[k] == u(refs[k])) <==> !exists i, k :: Clash(u, refs, i, k)
  {
    AnswersAreFirst(u, refs);
    var answers := CallAll(u, EMPTY, refs).1;
    forall k | 0 <= k < |refs| ensures !(exists i :: Clash(u, refs, i, k)) ==> answers[k] == u(refs[k]) {
      FirstSuccessMeaning(u, refs[..k], MakeKey(refs[k]));
      if FirstSuccess(u, refs[..k], MakeKey(refs[k])).Some? {
        var i :| 0 <= i < k && MakeKey(refs[..k][i]) == MakeKey(refs[k]) && u(refs[..k][i]) == answers[k];
        assert answers[k] == u(refs[k]) || Clash(u, refs, i, k);
      }
    }
    if i, k :| Clash(u, refs, i, k) {
      ClashShows(u, refs, i, k);
    }
  }

  /** One of the two calls that clash gets the other's answer, or an earlier one's. */
  lemma ClashShows(u: Factory, refs: seq<SecretRef>, i: int, k: int)
    requires Clash(u, refs, i, k)
    ensures AnswerAfter(u, refs[..i], refs[i]) != u(refs[i]) || AnswerAfter(u, refs[..k], refs[k]) != u(refs[k])
  {
    var key := MakeKey(refs[k]);
    FirstSuccessPersists(u, refs[..k], i, key);
    FirstSuccessPersists(u, refs[..k], i + 1, key);
    assert refs[..k][..i] == refs[..i] && refs[..k][..i + 1] == refs[..i + 1];
    assert refs[..i + 1][..i] == refs[..i];
  }

  lemma {:induction false} FirstSuccessPersists(u: Factory, refs: seq<SecretRef>, i: nat, key: string)
    requires i <= |refs|
    ensures FirstSuccess(u, refs[..i], key).Some? ==> FirstSuccess(u, refs, key) == FirstSuccess(u, refs[..i], key)
    decreases |refs|
  {
    if i == |refs| {
      assert refs[..i] == refs;
    } else {
      assert refs[..|refs| - 1][..i] == refs[..i];
      FirstSuccessPersists(u, refs[..|refs| - 1], i, key);
    }
  }

  /** Two references that differ in their pull secrets alone get one answer. */
  lemma SecondAnswer(u: Factory, a: SecretRef, b: SecretRef)
    ensures CallAll(u, EMPTY, [a, b]).1 == [u(a), u(b)] <==> !(u(a).Ok? && MakeKey(a) == MakeKey(b) && u(a) != u(b))
    ensures a == b.(imagePullSecrets := a.imagePullSecrets) ==> MakeKey(a) == MakeKey(b)
  {
    AnswersRightIff(u, [a, b]);
    var answers := CallAll(u, EMPTY, [a, b]).1;
    assert answers == [u(a), u(b)] <==> forall k :: 0 <= k < |[a, b]| ==> answers[k] == u([a, b][k]);
    assert Clash(u, [a, b], 0, 1) <==> u(a).Ok? && MakeKey(a) == MakeKey(b) && u(a) != u(b);
    forall i, k ensures Clash(u, [a, b], i, k) ==> i == 0 && k == 1 {
    }
  }

  class CachedKeychainFactory {
    const keychainFactory: Factory
    var cache: map<string, Keychain>
    ghost var calls: seq<SecretRef>

    constructor (factory: Factory)
      ensures keychainFactory == factory && View() == EMPTY
    {
      keychainFactory := factory;
      cache, calls := map[], [];
    }

    ghost function View(): Memory
      reads this
    {
      Memory(cache, calls)
    }

    /** cached_keychain.go:25-38. */
    method KeychainForSecretRef(secretRef: SecretRef) returns (r: Result<Keychain>)
      modifies this`cache, this`calls
      ensures (View(), r) == Call(keychainFactory, old(View()), secretRef)
    {
      var key := MakeKey(secretRef);
      if key in cache {
        return Ok(cache[key]);
      }
      r := keychainFactory(secretRef);
      calls := calls + [secretRef];
      if r.Ok? {
        cache := cache[key := r.value];
      }
    }
  }
}
