// pkg/dockercreds: which credentials answer for a registry, and merging two sets of them.
module DockerCreds {
  import opened Common
  import Text

  /** Credentials, opaque here. */
  datatype AuthConfig = AuthConfig(credentials: string)

  type Entries = map<string, AuthConfig>

  const DEFAULT_REGISTRY := "index.docker.io"
  const DEFAULT_AUTH_KEY := "https://index.docker.io/v1/"

  /** match.go:10-21: what may stand before and after a registry in a key. */
  const FORMATS: seq<(string, string)> := [
    ("", ""), ("https://", ""), ("http://", ""),
    ("https://", "/v1/"), ("http://", "/v1/"), ("https://", "/v2/"), ("http://", "/v2/")
  ]

  function Sprintf(i: nat, reg: string): string
    requires i < |FORMATS|
  {
    FORMATS[i].0 + reg + FORMATS[i].1
  }

  function RegistryString(reg: string): string {
    if reg == DEFAULT_REGISTRY then DEFAULT_AUTH_KEY else reg
  }

  predicate Matches(key: string, reg: string) {
    exists i :: 0 <= i < |FORMATS| && Sprintf(i, RegistryString(reg)) == key
  }

  datatype RegistryMatcher = RegistryMatcher(registry: string)
  {
    method Match(reg: string) returns (found: bool)
      ensures found == Matches(registry, reg)
    {
      for i := 0 to |FORMATS|
        invariant forall j :: 0 <= j < i ==> Sprintf(j, RegistryString(reg)) != registry
      {
        if Sprintf(i, RegistryString(reg)) == registry {
          return true;
        }
      }
      return false;
    }
  }

  predicate IsNameChar(c: char) {
    'a' <= c <= 'z' || 'A' <= c <= 'Z' || '0' <= c <= '9' || c == '.' || c == '-' || c == '_'
  }

  /** A host name and perhaps a port. */
  predicate IsHost(h: string) {
    exists n :: 0 < n <= |h| && (forall i :: 0 <= i < n ==> IsNameChar(h[i]))
      && (n < |h| ==> h[n] == ':' && forall i :: n < i < |h| ==> Text.IsDigit(h[i]))
  }

  function UpToSlash(s: string): string {
    if s == "" || s[0] == '/' then "" else [s[0]] + UpToSlash(s[1..])
  }

  function AfterSlash(s: string): string {
    if s == "" then "" else if s[0] == '/' then s[1..] else AfterSlash(s[1..])
  }

  /** The host in a key: all of it, or what stands between the second slash and the next. */
  function HostOf(key: string): string {
    if '/' !in key then key else UpToSlash(AfterSlash(AfterSlash(key)))
  }

  lemma {:induction false} UpToSlashPlain(h: string, suffix: string)
    requires '/' !in h && (suffix == "" || suffix[0] == '/')
    ensures UpToSlash(h + suffix) == h
  {
    if h == "" {
      assert h + suffix == suffix;
    } else {
      assert (h + suffix)[1..] == h[1..] + suffix;
      UpToSlashPlain(h[1..], suffix);
    }
  }

  lemma {:induction false} AfterSlashOf(p: string, rest: string)
    requires '/' !in p
    ensures AfterSlash(p + ['/'] + rest) == rest
  {
    if p == "" {
      assert p + ['/'] + rest == ['/'] + rest;
    } else {
      assert (p + ['/'] + rest)[1..] == p[1..] + ['/'] + rest;
      AfterSlashOf(p[1..], rest);
    }
  }

  lemma HostsHaveNoSlash(h: string)
    requires IsHost(h)
    ensures '/' !in h && h != ""
  {
    var n :| 0 < n <= |h| && (forall i :: 0 <= i < n ==> IsNameChar(h[i]))
      && (n < |h| ==> h[n] == ':' && forall i :: n < i < |h| ==> Text.IsDigit(h[i]));
    forall i | 0 <= i < |h| ensures h[i] != '/' {
      assert i < n ==> IsNameChar(h[i]);
      assert i > n ==> Text.IsDigit(h[i]);
    }
  }

  /** Every format but the first has a scheme and two slashes before the registry. */
  lemma AfterScheme(i: nat, reg: string)
    requires 0 < i < |FORMATS|
    ensures '/' in Sprintf(i, reg) && AfterSlash(AfterSlash(Sprintf(i, reg))) == reg + FORMATS[i].1
  {
    var scheme := FORMATS[i].0[..|FORMATS[i].0| - 2];
    assert scheme == "https:" || scheme == "http:";
    assert Sprintf(i, reg) == scheme + ['/'] + (['/'] + (reg + FORMATS[i].1));
    AfterSlashOf(scheme, ['/'] + (reg + FORMATS[i].1));
    assert [] + ['/'] + (reg + FORMATS[i].1) == ['/'] + (reg + FORMATS[i].1);
    AfterSlashOf([], reg + FORMATS[i].1);
  }

  /** The host can be read back from every key format. */
  lemma HostOfFormat(i: nat, h: string)
    requires i < |FORMATS| && '/' !in h
    ensures HostOf(Sprintf(i, h)) == h
  {
    if i == 0 {
      assert Sprintf(i, h) == h;
    } else {
      AfterScheme(i, h);
      UpToSlashPlain(h, FORMATS[i].1);
    }
  }

  predicate WellFormed(key: string) {
    exists i :: 0 <= i < |FORMATS| && Sprintf(i, HostOf(key)) == key && IsHost(HostOf(key))
  }

  /** Keys of the default registry that are not spelled as its auth key answer for nothing. */
  predicate Live(key: string) {
    HostOf(key) == DEFAULT_REGISTRY ==> key == DEFAULT_AUTH_KEY
  }

  lemma Suffixes(i: nat)
    requires i < |FORMATS|
    ensures |FORMATS[i].1| <= 4 && (FORMATS[i].1 == "" || FORMATS[i].1[0] == '/')
  {
  }

  /** A key made of a key is no well-formed key. */
  lemma NoNesting(i: nat, host: string, j: nat, scheme: string, tail: string)
    requires i < |FORMATS| && 0 < j < |FORMATS| && '/' !in host && '/' !in scheme && |tail| > 4 && tail[0] == '/'
    ensures Sprintf(i, host) != Sprintf(j, scheme + tail)
  {
    AfterScheme(j, scheme + tail);
    if i == 0 {
      assert Sprintf(i, host) == host;
    } else if Sprintf(i, host) == Sprintf(j, scheme + tail) {
      AfterScheme(i, host);
      Suffixes(i);
      UpToSlashPlain(host, FORMATS[i].1);
      assert scheme + tail + FORMATS[j].1 == scheme + (tail + FORMATS[j].1);
      UpToSlashPlain(scheme, tail + FORMATS[j].1);
    }
  }

  lemma AuthKeyShape()
    ensures DEFAULT_AUTH_KEY == "https:" + "//index.docker.io/v1/"
  {
  }

  lemma AuthKeyHost()
    ensures HostOf(DEFAULT_AUTH_KEY) == DEFAULT_REGISTRY
  {
    assert Sprintf(3, DEFAULT_REGISTRY) == DEFAULT_AUTH_KEY;
    HostOfFormat(3, DEFAULT_REGISTRY);
  }

  lemma AuthKeyNotNested(i: nat, host: string, j: nat)
    requires i < |FORMATS| && 0 < j < |FORMATS| && '/' !in host
    ensures Sprintf(i, host) != Sprintf(j, DEFAULT_AUTH_KEY)
  {
    AuthKeyShape();
    NoNesting(i, host, j, "https:", "//index.docker.io/v1/");
  }

  lemma NakedFormat(reg: string)
    ensures Sprintf(0, reg) == reg
  {
  }

  lemma MatchAuthKey(key: string, auth: string)
    requires WellFormed(key) && auth == DEFAULT_AUTH_KEY
    ensures (exists j :: 0 <= j < |FORMATS| && Sprintf(j, auth) == key) <==> key == auth
  {
    var i: nat :| i < |FORMATS| && Sprintf(i, HostOf(key)) == key && IsHost(HostOf(key));
    HostsHaveNoSlash(HostOf(key));
    NakedFormat(auth);
    forall j: nat | 0 < j < |FORMATS| ensures Sprintf(j, auth) != key {
      AuthKeyNotNested(i, HostOf(key), j);
    }
  }

  lemma MatchDefault(key: string)
    requires WellFormed(key)
    ensures Matches(key, DEFAULT_REGISTRY) <==> key == DEFAULT_AUTH_KEY
  {
    MatchAuthKey(key, RegistryString(DEFAULT_REGISTRY));
  }

  lemma MatchOther(key: string, reg: string)
    requires WellFormed(key) && '/' !in reg && reg != DEFAULT_REGISTRY
    ensures Matches(key, reg) <==> HostOf(key) == reg
  {
    forall j | 0 <= j < |FORMATS| && Sprintf(j, reg) == key ensures HostOf(key) == reg {
      HostOfFormat(j, reg);
    }
    var i: nat :| i < |FORMATS| && Sprintf(i, HostOf(key)) == key;
    assert HostOf(key) == reg ==> Sprintf(i, RegistryString(reg)) == key;
  }

  /** A well-formed key answers for its own host and nothing else, and a dead key not even for that. */
  lemma MatchMeaning(key: string, reg: string)
    requires WellFormed(key) && '/' !in reg
    ensures Matches(key, reg) <==> HostOf(key) == reg && Live(key)
  {
    if reg == DEFAULT_REGISTRY {
      MatchDefault(key);
      AuthKeyHost();
    } else {
      MatchOther(key, reg);
    }
  }

  // Looking up. What follows depends on no more of the key formats than which registries a key matches and which
  // host its text names.

  type Matcher = (string, string) -> bool

  /** The host a key names, or the error of parsing it. */
  type Hosts = string -> Result<string>

  ghost predicate HasMatch(matches: Matcher, m: Entries, reg: string) {
    exists k :: k in m && matches(k, reg)
  }

  /** What Resolve may answer, whatever order the entries are tried in; None is anonymous. */
  ghost predicate ResolvesTo(matches: Matcher, m: Entries, reg: string, r: Option<AuthConfig>) {
    match r
    case None => !HasMatch(matches, m, reg)
    case Some(auth) => exists k :: k in m && matches(k, reg) && m[k] == auth
  }

  /** No registry is matched by two entries. */
  ghost predicate Unambiguous(matches: Matcher, m: Entries) {
    forall j, k, reg :: j in m && k in m && '/' !in reg && matches(j, reg) && matches(k, reg) ==> j == k
  }

  /** The answer does not depend on the order exactly when all matching entries agree. */
  lemma AnswerIsUniqueIff(matches: Matcher, m: Entries, reg: string)
    ensures (forall r, s :: ResolvesTo(matches, m, reg, r) && ResolvesTo(matches, m, reg, s) ==> r == s)
      <==> (forall j, k :: j in m && k in m && matches(j, reg) && matches(k, reg) ==> m[j] == m[k])
  {
    if forall r, s :: ResolvesTo(matches, m, reg, r) && ResolvesTo(matches, m, reg, s) ==> r == s {
      forall j, k | j in m && k in m && matches(j, reg) && matches(k, reg) ensures m[j] == m[k] {
        assert ResolvesTo(matches, m, reg, Some(m[j])) && ResolvesTo(matches, m, reg, Some(m[k]));
      }
    }
  }

  // Merging.

  /** The keys parse, and none matches a registry other than the host it names. */
  ghost predicate OwnHostOnly(matches: Matcher, host: Hosts, a: Entries) {
    forall k :: k in a ==>
      && host(k).Ok? && '/' !in host(k).value
      && forall reg :: '/' !in reg && matches(k, reg) ==> reg == host(k).value
  }

  ghost predicate Walks(host: Hosts, a: Entries, order: seq<string>) {
    forall k :: k in order ==> k in a && host(k).Ok?
  }

  /** Appending the entries of a in this order: an entry goes in unless something already matches its host. */
  ghost function Merge(matches: Matcher, host: Hosts, c: Entries, a: Entries, order: seq<string>): Entries
    requires Walks(host, a, order)
    decreases |order|
  {
    if order == [] then c
    else
      var rest, k := order[..|order| - 1], order[|order| - 1];
      assert k in order && forall j :: j in rest ==> j in order;
      var m := Merge(matches, host, c, a, rest);
      if HasMatch(matches, m, host(k).value) then m else m[k := a[k]]
  }

  ghost predicate Enumerates(order: seq<string>, a: Entries) {
    forall k :: k in order <==> k in a
  }

  lemma HasMatchGrows(matches: Matcher, m: Entries, m': Entries, reg: string)
    requires m.Keys <= m'.Keys && HasMatch(matches, m, reg)
    ensures HasMatch(matches, m', reg)
  {
    var j :| j in m && matches(j, reg);
    assert j in m';
  }

  /** What a merge leaves in place, and what it brings in. An entry that matches its own host is never replaced. */
  ghost predicate Merged(matches: Matcher, host: Hosts, c: Entries, a: Entries, done: seq<string>, m: Entries)
    requires Walks(host, a, done)
  {
    && (forall k :: k in c ==> k in m && (m[k] == c[k] || (k in done && !matches(k, host(k).value))))
    && (forall k :: k in m && k !in c ==> k in done && m[k] == a[k])
    && (forall k :: k in m && k !in c && matches(k, host(k).value) ==> !HasMatch(matches, c, host(k).value))
    && (forall k :: k in done && matches(k, host(k).value) ==> HasMatch(matches, m, host(k).value))
  }

  lemma InsertMerged(matches: Matcher, host: Hosts, c: Entries, a: Entries, done: seq<string>, m: Entries, k: string)
    requires OwnHostOnly(matches, host, a) && Walks(host, a, done) && k in a && Merged(matches, host, c, a, done, m)
    requires Walks(host, a, done + [k])
    ensures Merged(matches, host, c, a, done + [k], if HasMatch(matches, m, host(k).value) then m else m[k := a[k]])
  {
    var h := host(k).value;
    if HasMatch(matches, c, h) {
      HasMatchGrows(matches, c, m, h);
    }
    if !HasMatch(matches, m, h) {
      var m' := m[k := a[k]];
      forall j | j in done + [k] && matches(j, host(j).value) ensures HasMatch(matches, m', host(j).value) {
        if j in done {
          HasMatchGrows(matches, m, m', host(j).value);
        } else {
          assert k in m' && matches(k, h);
        }
      }
      assert k in c ==> !matches(k, h);
    }
  }

  lemma {:induction false} MergeContents(matches: Matcher, host: Hosts, c: Entries, a: Entries, order: seq<string>)
    requires OwnHostOnly(matches, host, a) && Walks(host, a, order)
    ensures Merged(matches, host, c, a, order, Merge(matches, host, c, a, order))
    decreases |order|
  {
    if order != [] {
      var rest, k := order[..|order| - 1], order[|order| - 1];
      assert order == rest + [k];
      MergeContents(matches, host, c, a, rest);
      InsertMerged(matches, host, c, a, rest, Merge(matches, host, c, a, rest), k);
    }
  }

  /** Credential merge: no registry gets a second entry, even when the appended set has two for it. */
  lemma {:induction false} MergeKeepsUnambiguous(matches: Matcher, host: Hosts, c: Entries, a: Entries, order: seq<string>)
    requires OwnHostOnly(matches, host, a) && Unambiguous(matches, c) && Walks(host, a, order)
    ensures Unambiguous(matches, Merge(matches, host, c, a, order))
    decreases |order|
  {
    if order != [] {
      var rest, last := order[..|order| - 1], order[|order| - 1];
      assert order == rest + [last];
      MergeKeepsUnambiguous(matches, host, c, a, rest);
    }
  }

  /** All entries that match a registry hold the same credentials. */
  ghost predicate Agree(matches: Matcher, m: Entries, reg: string) {
    forall j, k :: j in m && k in m && matches(j, reg) && matches(k, reg) ==> m[j] == m[k]
  }

  /** The entries of a merge that match a registry: those of the left set if it has any, else some of the right set. */
  lemma MergedMatches(matches: Matcher, host: Hosts, c: Entries, a: Entries, order: seq<string>, reg: string)
    requires OwnHostOnly(matches, host, a) && Enumerates(order, a) && Walks(host, a, order) && '/' !in reg
    ensures var m := Merge(matches, host, c, a, order);
      && (HasMatch(matches, m, reg) <==> HasMatch(matches, c, reg) || HasMatch(matches, a, reg))
      && (forall k :: matches(k, reg) && k in c ==> k in m && m[k] == c[k])
      && (forall k :: matches(k, reg) && k in m && HasMatch(matches, c, reg) ==> k in c)
      && (forall k :: matches(k, reg) && k in m && !HasMatch(matches, c, reg) ==> k in a && m[k] == a[k])
  {
    var m := Merge(matches, host, c, a, order);
    MergeContents(matches, host, c, a, order);
    assert forall k :: k in a && matches(k, reg) ==> host(k).value == reg;
    AnsweredAfter(matches, host, c, a, order, reg);
  }

  /** Every registry the left set answered gets the same answers. The others get answers of the right set, and all of
      them when the right set has but one. */
  lemma MergedAnswers(matches: Matcher, host: Hosts, c: Entries, a: Entries, order: seq<string>, reg: string, r: Option<AuthConfig>)
    requires OwnHostOnly(matches, host, a) && Enumerates(order, a) && Walks(host, a, order) && '/' !in reg
    ensures var m, first := Merge(matches, host, c, a, order), if HasMatch(matches, c, reg) then c else a;
      && (ResolvesTo(matches, m, reg, r) ==> ResolvesTo(matches, first, reg, r))
      && (HasMatch(matches, c, reg) || Agree(matches, a, reg) ==>
           (ResolvesTo(matches, m, reg, r) <==> ResolvesTo(matches, first, reg, r)))
  {
    MergedMatches(matches, host, c, a, order, reg);
  }

  /** Only first matches the registry. */
  ghost predicate OnlyMatch(matches: Matcher, a: Entries, m: Entries, first: string, reg: string) {
    first in a && first in m && m[first] == a[first] && matches(first, reg) && forall k :: k in m && matches(k, reg) ==> k == first
  }

  lemma InsertAfterFirst(matches: Matcher, host: Hosts, a: Entries, m: Entries, first: string, last: string, reg: string)
    requires OwnHostOnly(matches, host, a) && '/' !in reg && last in a && OnlyMatch(matches, a, m, first, reg)
    ensures OnlyMatch(matches, a, if HasMatch(matches, m, host(last).value) then m else m[last := a[last]], first, reg)
  {
    if matches(last, reg) {
      assert host(last).value == reg;
    }
  }

  /** The entry walked first keeps all others for its host out. */
  lemma {:induction false} FirstWalkedWins(matches: Matcher, host: Hosts, c: Entries, a: Entries, order: seq<string>, reg: string)
    requires OwnHostOnly(matches, host, a) && Walks(host, a, order) && '/' !in reg && !HasMatch(matches, c, reg)
    requires order != [] && order[0] in a && matches(order[0], reg)
    ensures OnlyMatch(matches, a, Merge(matches, host, c, a, order), order[0], reg)
    decreases |order|
  {
    if |order| == 1 {
      assert order[..0] == [];
    } else {
      var rest, last := order[..|order| - 1], order[|order| - 1];
      assert order == rest + [last];
      FirstWalkedWins(matches, host, c, a, rest, reg);
      InsertAfterFirst(matches, host, a, Merge(matches, host, c, a, rest), order[0], last, reg);
    }
  }

  lemma {:induction false} SomeListing(keys: set<string>) returns (order: seq<string>)
    ensures forall k :: k in order <==> k in keys
    decreases |keys|
  {
    if keys == {} {
      order := [];
    } else {
      var k :| k in keys;
      var rest := SomeListing(keys - {k});
      order := rest + [k];
    }
  }

  /** The answers do not depend on how the right set is walked. */
  ghost predicate OrderNeverShows(matches: Matcher, host: Hosts, c: Entries, a: Entries, reg: string) {
    forall order, order' :: Enumerates(order, a) && Enumerates(order', a) && Walks(host, a, order) && Walks(host, a, order') ==>
      SameAnswers(matches, Merge(matches, host, c, a, order), Merge(matches, host, c, a, order'), reg)
  }

  ghost predicate SameAnswers(matches: Matcher, m: Entries, m': Entries, reg: string) {
    forall r :: ResolvesTo(matches, m, reg, r) <==> ResolvesTo(matches, m', reg, r)
  }

  lemma WalkedFirst(matches: Matcher, host: Hosts, c: Entries, a: Entries, reg: string, k: string) returns (order: seq<string>)
    requires OwnHostOnly(matches, host, a) && '/' !in reg && !HasMatch(matches, c, reg) && k in a && matches(k, reg)
    ensures Enumerates(order, a) && Walks(host, a, order)
    ensures forall r :: ResolvesTo(matches, Merge(matches, host, c, a, order), reg, r) <==> r == Some(a[k])
  {
    var listing := SomeListing(a.Keys);
    order := [k] + listing;
    assert order[0] == k;
    FirstWalkedWins(matches, host, c, a, order, reg);
  }

  /** The order in which the right set is walked never shows in the answers for a registry exactly when the left set
      answers, or all matching entries of the right set hold the same credentials. */
  lemma OrderNeverShowsIff(matches: Matcher, host: Hosts, c: Entries, a: Entries, reg: string)
    requires OwnHostOnly(matches, host, a) && '/' !in reg
    ensures OrderNeverShows(matches, host, c, a, reg) <==> HasMatch(matches, c, reg) || Agree(matches, a, reg)
  {
    if HasMatch(matches, c, reg) || Agree(matches, a, reg) {
      forall order, order' | Enumerates(order, a) && Enumerates(order', a) && Walks(host, a, order) && Walks(host, a, order')
        ensures SameAnswers(matches, Merge(matches, host, c, a, order), Merge(matches, host, c, a, order'), reg)
      {
        var m, m' := Merge(matches, host, c, a, order), Merge(matches, host, c, a, order');
        forall r ensures ResolvesTo(matches, m, reg, r) <==> ResolvesTo(matches, m', reg, r) {
          MergedAnswers(matches, host, c, a, order, reg, r);
          MergedAnswers(matches, host, c, a, order', reg, r);
        }
      }
    } else {
      var j, k :| j in a && k in a && matches(j, reg) && matches(k, reg) && a[j] != a[k];
      var first := WalkedFirst(matches, host, c, a, reg, j);
      var second := WalkedFirst(matches, host, c, a, reg, k);
      assert ResolvesTo(matches, Merge(matches, host, c, a, first), reg, Some(a[j]));
    }
  }

  function Get(m: Entries, k: string): Option<AuthConfig> {
    if k in m then Some(m[k]) else None
  }

  lemma AnsweredAfter(matches: Matcher, host: Hosts, c: Entries, a: Entries, order: seq<string>, reg: string)
    requires OwnHostOnly(matches, host, a) && Walks(host, a, order) && '/' !in reg
    ensures HasMatch(matches, Merge(matches, host, c, a, order), reg)
      <==> HasMatch(matches, c, reg) || exists k :: k in order && matches(k, reg)
  {
    var m := Merge(matches, host, c, a, order);
    MergeContents(matches, host, c, a, order);
    if HasMatch(matches, c, reg) {
      HasMatchGrows(matches, c, m, reg);
    } else if k :| k in order && matches(k, reg) {
      assert host(k).value == reg;
    }
  }

  lemma {:induction false} Untouched(matches: Matcher, host: Hosts, c: Entries, a: Entries, order: seq<string>, k: string)
    requires k !in order && Walks(host, a, order)
    ensures Get(Merge(matches, host, c, a, order), k) == Get(c, k)
    decreases |order|
  {
    if order != [] {
      Untouched(matches, host, c, a, order[..|order| - 1], k);
    }
  }

  /** The order does show in the entries themselves: a key that does not match the host it names goes in exactly when
      nothing before it matched that host. */
  lemma {:induction false} DeadKeyByOrder(matches: Matcher, host: Hosts, c: Entries, a: Entries, order: seq<string>, i: nat)
    requires OwnHostOnly(matches, host, a) && Walks(host, a, order)
    requires i < |order| && forall j :: 0 <= j < |order| && j != i ==> order[j] != order[i]
    requires order[i] in order && !matches(order[i], host(order[i]).value)
    ensures var k, h := order[i], host(order[i]).value;
      Get(Merge(matches, host, c, a, order), k)
      == if HasMatch(matches, c, h) || exists j :: j in order[..i] && matches(j, h) then Get(c, k) else Some(a[k])
    decreases |order|
  {
    var rest, last := order[..|order| - 1], order[|order| - 1];
    assert order == rest + [last];
    assert order[i] in a;
    if i < |rest| {
      assert rest[..i] == order[..i] && rest[i] in rest;
      DeadKeyByOrder(matches, host, c, a, rest, i);
    } else {
      Untouched(matches, host, c, a, rest, order[i]);
      AnsweredAfter(matches, host, c, a, rest, host(order[i]).value);
    }
  }

  // A chain of merges, as for the secrets of a service account.

  /** One set of credentials to append, nil or not, and the order its entries are walked in. */
  datatype Appended = Appended(entries: Option<Entries>, order: seq<string>)
  {
    function Contents(): Entries {
      if entries.None? then map[] else entries.value
    }

    ghost predicate Suits(matches: Matcher, host: Hosts) {
      && OwnHostOnly(matches, host, Contents())
      && Enumerates(order, Contents()) && Walks(host, Contents(), order)
    }
  }

  ghost predicate AllSuit(matches: Matcher, host: Hosts, secrets: seq<Appended>) {
    forall i :: 0 <= i < |secrets| ==> secrets[i].Suits(matches, host)
  }

  /** docker_creds.go:46-62, folded as in k8s_keychain.go:71-122. */
  ghost function AppendAll(matches: Matcher, host: Hosts, secrets: seq<Appended>): Option<Entries>
    requires AllSuit(matches, host, secrets)
    decreases |secrets|
  {
    if secrets == [] then None
    else
      var c, s := AppendAll(matches, host, secrets[..|secrets| - 1]), secrets[|secrets| - 1];
      if c.None? then s.entries
      else if s.entries.None? then c
      else Some(Merge(matches, host, c.value, s.entries.value, s.order))
  }

  function Contents(m: Option<Entries>): Entries {
    if m.None? then map[] else m.value
  }

  /** The first secret that has an answer. */
  ghost predicate IsFirst(matches: Matcher, secrets: seq<Appended>, reg: string, i: int) {
    && 0 <= i < |secrets| && HasMatch(matches, secrets[i].Contents(), reg)
    && forall j :: 0 <= j < i ==> !HasMatch(matches, secrets[j].Contents(), reg)
  }

  /** m answers as the credentials of the first secret that has an answer, and with all of its answers if it has one. */
  ghost predicate AnswersAsFirst(matches: Matcher, m: Entries, secrets: seq<Appended>, reg: string, r: Option<AuthConfig>) {
    && (HasMatch(matches, m, reg) <==> exists i :: IsFirst(matches, secrets, reg, i))
    && forall i :: IsFirst(matches, secrets, reg, i) ==>
         var first := secrets[i].Contents();
         && (ResolvesTo(matches, m, reg, r) ==> ResolvesTo(matches, first, reg, r))
         && (Agree(matches, first, reg) ==> (ResolvesTo(matches, m, reg, r) <==> ResolvesTo(matches, first, reg, r)))
  }

  lemma FirstOfMore(matches: Matcher, rest: seq<Appended>, last: Appended, reg: string)
    ensures forall i :: IsFirst(matches, rest + [last], reg, i) <==>
      || IsFirst(matches, rest, reg, i)
      || (i == |rest| && HasMatch(matches, last.Contents(), reg) && forall j :: 0 <= j < |rest| ==> !HasMatch(matches, rest[j].Contents(), reg))
    ensures (exists j :: 0 <= j < |rest| && HasMatch(matches, rest[j].Contents(), reg)) <==> exists i :: IsFirst(matches, rest, reg, i)
  {
    FirstExists(matches, rest, reg, |rest|);
    var more := rest + [last];
    assert forall j :: 0 <= j < |rest| ==> more[j] == rest[j];
  }

  lemma {:induction false} FirstExists(matches: Matcher, secrets: seq<Appended>, reg: string, n: nat)
    requires n <= |secrets|
    ensures (exists j :: 0 <= j < n && HasMatch(matches, secrets[j].Contents(), reg)) ==> exists i :: IsFirst(matches, secrets, reg, i)
  {
    if n > 0 && HasMatch(matches, secrets[n - 1].Contents(), reg) {
      FirstExists(matches, secrets, reg, n - 1);
      if forall j :: 0 <= j < n - 1 ==> !HasMatch(matches, secrets[j].Contents(), reg) {
        assert IsFirst(matches, secrets, reg, n - 1);
      }
    } else if n > 0 {
      FirstExists(matches, secrets, reg, n - 1);
    }
  }

  /** One more secret is asked only where those before it have no answer. */
  lemma AnswersWithOneMore(matches: Matcher, c: Entries, m: Entries, rest: seq<Appended>, last: Appended, reg: string, r: Option<AuthConfig>)
    requires AnswersAsFirst(matches, c, rest, reg, r)
    requires HasMatch(matches, m, reg) <==> HasMatch(matches, c, reg) || HasMatch(matches, last.Contents(), reg)
    requires HasMatch(matches, c, reg) ==> (ResolvesTo(matches, m, reg, r) <==> ResolvesTo(matches, c, reg, r))
    requires !HasMatch(matches, c, reg) ==>
      && (ResolvesTo(matches, m, reg, r) ==> ResolvesTo(matches, last.Contents(), reg, r))
      && (Agree(matches, last.Contents(), reg) ==> (ResolvesTo(matches, m, reg, r) <==> ResolvesTo(matches, last.Contents(), reg, r)))
    ensures AnswersAsFirst(matches, m, rest + [last], reg, r)
  {
    FirstOfMore(matches, rest, last, reg);
    var more := rest + [last];
    if HasMatch(matches, c, reg) {
      var i :| IsFirst(matches, rest, reg, i);
      assert IsFirst(matches, more, reg, i);
    } else if HasMatch(matches, last.Contents(), reg) {
      assert IsFirst(matches, more, reg, |rest|);
    }
    forall i | IsFirst(matches, more, reg, i)
      ensures ResolvesTo(matches, m, reg, r) ==> ResolvesTo(matches, more[i].Contents(), reg, r)
      ensures Agree(matches, more[i].Contents(), reg) ==>
        (ResolvesTo(matches, m, reg, r) <==> ResolvesTo(matches, more[i].Contents(), reg, r))
    {
      if i < |rest| {
        assert IsFirst(matches, rest, reg, i) && more[i] == rest[i];
      }
    }
  }

  /** However many secrets there are, the first with an answer gives it; without one the answer is anonymous. */
  lemma {:induction false} FirstSecretWins(matches: Matcher, host: Hosts, secrets: seq<Appended>, reg: string, r: Option<AuthConfig>)
    requires AllSuit(matches, host, secrets) && '/' !in reg
    ensures AnswersAsFirst(matches, Contents(AppendAll(matches, host, secrets)), secrets, reg, r)
    decreases |secrets|
  {
    if secrets != [] {
      var n := |secrets| - 1;
      var rest, last := secrets[..n], secrets[n];
      assert secrets == rest + [last] && last.Suits(matches, host);
      FirstSecretWins(matches, host, rest, reg, r);
      var c := AppendAll(matches, host, rest);
      if c.Some? && last.entries.Some? {
        MergedMatches(matches, host, c.value, last.entries.value, last.order, reg);
        MergedAnswers(matches, host, c.value, last.entries.value, last.order, reg, r);
      }
      AnswersWithOneMore(matches, Contents(c), Contents(AppendAll(matches, host, secrets)), rest, last, reg, r);
    }
  }

  /** Without a registry that two entries of one secret match, there is none in the merge. */
  lemma {:induction false} ChainUnambiguous(matches: Matcher, host: Hosts, secrets: seq<Appended>)
    requires AllSuit(matches, host, secrets)
    requires forall i :: 0 <= i < |secrets| ==> Unambiguous(matches, secrets[i].Contents())
    ensures Unambiguous(matches, Contents(AppendAll(matches, host, secrets)))
    decreases |secrets|
  {
    if secrets != [] {
      var rest, last := secrets[..|secrets| - 1], secrets[|secrets| - 1];
      ChainUnambiguous(matches, host, rest);
      assert last.Suits(matches, host) && Unambiguous(matches, last.Contents());
      var c := AppendAll(matches, host, rest);
      if c.Some? && last.entries.Some? {
        MergeKeepsUnambiguous(matches, host, c.value, last.entries.value, last.order);
      }
    }
  }

  // The law holds of the key formats.

  /** The host of net/url's parse of a text. */
  type UrlParser = string -> Result<string>

  /** docker_creds.go:65-67. */
  function Url(key: string): string {
    if !HasPrefix(key, "http://") && !HasPrefix(key, "https://") then "//" + key else key
  }

  function HostsBy(parse: UrlParser): Hosts {
    key => parse(Url(key))
  }

  /** The parser finds the host of every well-formed key. */
  ghost predicate Faithful(parse: UrlParser) {
    forall key :: WellFormed(key) ==> parse(Url(key)) == Ok(HostOf(key))
  }

  /** Well-formed keys match no registry but their own host; the default registry's host only as its auth key. */
  lemma WellFormedKeysMatchOwnHost(parse: UrlParser, a: Entries)
    requires Faithful(parse) && forall k :: k in a ==> WellFormed(k)
    ensures OwnHostOnly(Matches, HostsBy(parse), a)
    ensures forall k :: k in a ==> (Matches(k, HostOf(k)) <==> Live(k))
  {
    forall k | k in a
      ensures HostsBy(parse)(k) == Ok(HostOf(k)) && '/' !in HostOf(k)
      ensures Matches(k, HostOf(k)) <==> Live(k)
      ensures forall reg :: '/' !in reg && Matches(k, reg) ==> reg == HostOf(k)
    {
      OneKey(k);
    }
  }

  lemma OneKey(k: string)
    requires WellFormed(k)
    ensures '/' !in HostOf(k) && (Matches(k, HostOf(k)) <==> Live(k))
    ensures forall reg :: '/' !in reg && Matches(k, reg) ==> reg == HostOf(k)
  {
    HostsHaveNoSlash(HostOf(k));
    forall reg | '/' !in reg ensures Matches(k, reg) <==> HostOf(k) == reg && Live(k) {
      MatchMeaning(k, reg);
    }
  }

  /** Credential merge for kpack's own key formats, the default registry included: no registry gets a second entry, and
      the order in which the right set is walked shows exactly where its live keys for a host disagree. */
  lemma CredentialMerge(parse: UrlParser, c: Entries, a: Entries, order: seq<string>, reg: string, r: Option<AuthConfig>)
    requires Faithful(parse) && (forall k :: k in a ==> WellFormed(k)) && Enumerates(order, a) && '/' !in reg
    ensures Walks(HostsBy(parse), a, order)
    ensures var m, first := Merge(Matches, HostsBy(parse), c, a, order), if HasMatch(Matches, c, reg) then c else a;
      && (Unambiguous(Matches, c) ==> Unambiguous(Matches, m))
      && (ResolvesTo(Matches, m, reg, r) ==> ResolvesTo(Matches, first, reg, r))
      && (HasMatch(Matches, c, reg) || Agree(Matches, a, reg) ==>
           (ResolvesTo(Matches, m, reg, r) <==> ResolvesTo(Matches, first, reg, r)))
    ensures OrderNeverShows(Matches, HostsBy(parse), c, a, reg) <==> HasMatch(Matches, c, reg) || Agree(Matches, a, reg)
    ensures forall k :: k in a ==> (Matches(k, reg) <==> HostOf(k) == reg && Live(k))
  {
    WellFormedKeysMatchOwnHost(parse, a);
    if Unambiguous(Matches, c) {
      MergeKeepsUnambiguous(Matches, HostsBy(parse), c, a, order);
    }
    MergedAnswers(Matches, HostsBy(parse), c, a, order, reg, r);
    OrderNeverShowsIff(Matches, HostsBy(parse), c, a, reg);
    forall k | k in a ensures Matches(k, reg) <==> HostOf(k) == reg && Live(k) {
      MatchMeaning(k, reg);
    }
  }

  // The map itself.

  class DockerCreds {
    var entries: Entries

    constructor (entries: Entries)
      ensures this.entries == entries
    {
      this.entries := entries;
    }

    /** docker_creds.go:16-26. */
    method Resolve(reg: string) returns (r: Option<AuthConfig>)
      ensures ResolvesTo(Matches, entries, reg, r)
    {
      var todo := entries.Keys;
      while todo != {}
        invariant todo <= entries.Keys
        invariant forall k :: k in entries && k !in todo ==> !Matches(k, reg)
        decreases todo
      {
        var registry :| registry in todo;
        todo := todo - {registry};
        var found := RegistryMatcher(registry).Match(reg);
        if found {
          return Some(entries[registry]);
        }
      }
      return None;
    }

    /** docker_creds.go:64-82. */
    method Contains(parse: UrlParser, reg: string) returns (r: Result<bool>)
      ensures r.Err? <==> HostsBy(parse)(reg).Err?
      ensures r.Ok? ==> r.value == HasMatch(Matches, entries, HostsBy(parse)(reg).value)
    {
      var u := parse(Url(reg));
      if u.Err? {
        return Err(u.error);
      }
      var todo := entries.Keys;
      while todo != {}
        invariant todo <= entries.Keys
        invariant forall k :: k in entries && k !in todo ==> !Matches(k, u.value)
        decreases todo
      {
        var existing :| existing in todo;
        todo := todo - {existing};
        var found := RegistryMatcher(existing).Match(u.value);
        if found {
          return Ok(true);
        }
      }
      return Ok(false);
    }

    /** docker_creds.go:46-62: the receiver is changed in place, and partly so when a key does not parse. */
    static method Append(parse: UrlParser, c: DockerCreds?, a: DockerCreds?)
        returns (r: DockerCreds?, ok: bool, ghost order: seq<string>)
      modifies if c == null then {} else {c}
      ensures c == null ==> ok && r == a
      ensures c != null && a == null ==> ok && r == c && c.entries == old(c.entries)
      ensures c != null && a != null ==>
        && Walks(HostsBy(parse), old(a.entries), order)
        && c.entries == Merge(Matches, HostsBy(parse), old(c.entries), old(a.entries), order)
        && (ok ==> r == c && Enumerates(order, old(a.entries)))
        && (!ok ==> r == null && exists k :: k in old(a.entries) && k !in order && HostsBy(parse)(k).Err?)
    {
      order := [];
      if c == null {
        return a, true, [];
      } else if a == null {
        return c, true, [];
      }
      var source := a.entries;
      var todo := source.Keys;
      while todo != {}
        invariant todo <= source.Keys
        invariant forall k :: k in order <==> k in source && k !in todo
        invariant Walks(HostsBy(parse), source, order)
        invariant c.entries == Merge(Matches, HostsBy(parse), old(c.entries), source, order)
        decreases todo
      {
        var k :| k in todo;
        todo := todo - {k};
        var contained := c.Contains(parse, k);
        if contained.Err? {
          assert k in source && k !in order;
          return null, false, order;
        }
        assert (order + [k])[..|order|] == order;
        if !contained.value {
          c.entries := c.entries[k := source[k]];
        }
        order := order + [k];
      }
      return c, true, order;
    }
  }
}
