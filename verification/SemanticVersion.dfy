// Precedence of versions: section 11 of Semantic Versioning 2.0.0.
module SemanticVersion {
  import Text

  datatype Identifier = Numeric(n: nat) | Alphanumeric(s: string)

  /** Build metadata takes no part in precedence and is not kept. */
  datatype SemVer = SemVer(major: nat, minor: nat, patch: nat, pre: seq<Identifier>)

  /** Numbers compare as numbers, words as text, and a number is below a word. */
  predicate IdLess(a: Identifier, b: Identifier) {
    match (a, b)
    case (Numeric(m), Numeric(n)) => m < n
    case (Numeric(_), Alphanumeric(_)) => true
    case (Alphanumeric(_), Numeric(_)) => false
    case (Alphanumeric(s), Alphanumeric(t)) => Text.Less(s, t)
  }

  /** The first differing identifier decides; otherwise the shorter list is below. */
  predicate PreLess(a: seq<Identifier>, b: seq<Identifier>)
    decreases |b|
  {
    b != [] && (a == [] || IdLess(a[0], b[0]) || (a[0] == b[0] && PreLess(a[1..], b[1..])))
  }

  predicate Less(a: SemVer, b: SemVer) {
    a.major < b.major || (a.major == b.major &&
      (a.minor < b.minor || (a.minor == b.minor &&
        (a.patch < b.patch || (a.patch == b.patch &&
          // a pre-release is below the release it precedes
          a.pre != [] && (b.pre == [] || PreLess(a.pre, b.pre)))))))
  }

  lemma IdLaws(a: Identifier, b: Identifier, c: Identifier)
    ensures !IdLess(a, a)
    ensures a == b || IdLess(a, b) || IdLess(b, a)
    ensures IdLess(a, b) && IdLess(b, c) ==> IdLess(a, c)
  {
    if a.Alphanumeric? {
      Text.LessIrreflexive(a.s);
      if b.Alphanumeric? {
        Text.LessTotal(a.s, b.s);
        if c.Alphanumeric? && Text.Less(a.s, b.s) && Text.Less(b.s, c.s) {
          Text.LessTransitive(a.s, b.s, c.s);
        }
      }
    }
  }

  lemma {:induction false} PreLaws(a: seq<Identifier>, b: seq<Identifier>, c: seq<Identifier>)
    ensures !PreLess(a, a)
    ensures a == b || PreLess(a, b) || PreLess(b, a)
    ensures PreLess(a, b) && PreLess(b, c) ==> PreLess(a, c)
    decreases |a| + |b| + |c|
  {
    if a != [] {
      IdLaws(a[0], a[0], a[0]);
      PreLaws(a[1..], if b == [] then [] else b[1..], if c == [] then [] else c[1..]);
      assert a == [a[0]] + a[1..];
      if b != [] {
        assert b == [b[0]] + b[1..];
        IdLaws(a[0], b[0], a[0]);
        IdLaws(b[0], a[0], b[0]);
        if c != [] {
          IdLaws(a[0], b[0], c[0]);
        }
      }
    }
  }

  /** Precedence is a strict total order on versions without build metadata. */
  lemma LessLaws(a: SemVer, b: SemVer, c: SemVer)
    ensures !Less(a, a)
    ensures a == b || Less(a, b) || Less(b, a)
    ensures Less(a, b) && Less(b, c) ==> Less(a, c)
  {
    PreLaws(a.pre, b.pre, c.pre);
  }
}
