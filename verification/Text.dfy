// Strings: Go's "<" on strings, decimal numbers, and the separator argument on
// which every composite string key of kpack rests.
module Text {
  import opened Common

  /** Go's "<" on strings: the first differing character decides. */
  predicate Less(a: string, b: string)
    decreases |b|
  {
    b != [] && (a == [] || a[0] < b[0] || (a[0] == b[0] && Less(a[1..], b[1..])))
  }

  lemma {:induction false} LessTransitive(a: string, b: string, c: string)
    requires Less(a, b) && Less(b, c)
    ensures Less(a, c)
    decreases |c|
  {
    if a != [] && a[0] == b[0] == c[0] {
      LessTransitive(a[1..], b[1..], c[1..]);
    }
  }

  lemma {:induction false} LessIrreflexive(a: string)
    ensures !Less(a, a)
    decreases |a|
  {
    if a != [] {
      LessIrreflexive(a[1..]);
    }
  }

  lemma {:induction false} LessTotal(a: string, b: string)
    ensures a == b || Less(a, b) || Less(b, a)
    decreases |a|
  {
    if a != [] && b != [] && a[0] == b[0] {
      LessTotal(a[1..], b[1..]);
      assert a == [a[0]] + a[1..] && b == [b[0]] + b[1..];
    }
  }

  /** Less is a strict total order: any two strings compare in exactly one way. */
  lemma LessTrichotomy(a: string, b: string)
    ensures Less(a, b) ==> !Less(b, a)
    ensures a != b <==> Less(a, b) || Less(b, a)
  {
    LessIrreflexive(a);
    LessIrreflexive(b);
    LessTotal(a, b);
    if Less(a, b) && Less(b, a) {
      LessTransitive(a, b, a);
    }
  }

  /** A joined pair can be taken apart again when its first half is free of the separator. */
  lemma {:induction false} JoinInjective(a: string, b: string, c: string, d: string, sep: char)
    requires sep !in a && sep !in c
    requires a + [sep] + b == c + [sep] + d
    ensures a == c && b == d
  {
    var s := a + [sep] + b;
    assert s == c + [sep] + d;
    assert s[|a|] == sep && s[|c|] == sep;
    assert forall i :: 0 <= i < |a| ==> s[i] == a[i] && a[i] in a;
    assert forall i :: 0 <= i < |c| ==> s[i] == c[i] && c[i] in c;
    assert a == s[..|a|] && c == s[..|c|];
    assert b == s[|a| + 1..] && d == s[|c| + 1..];
  }

  predicate IsDigit(c: char) {
    '0' <= c <= '9'
  }

  /** strconv.Itoa on a natural number. */
  function Itoa(n: nat): (s: string)
    ensures s != [] && forall c :: c in s ==> IsDigit(c)
  {
    var d := ['0' + (n % 10) as char];
    if n < 10 then d else Itoa(n / 10) + d
  }

  function ParseDigits(s: string): Option<nat>
    decreases |s|
  {
    if s == [] || !IsDigit(s[|s| - 1]) then None
    else
      var d := (s[|s| - 1] - '0') as nat;
      if |s| == 1 then Some(d)
      else
        match ParseDigits(s[..|s| - 1])
        case None => None
        case Some(rest) => Some(10 * rest + d)
  }

  /** strconv.ParseInt(s, 10, 64), without the 64-bit range check. */
  function ParseInt(s: string): Result<int> {
    if s == [] then Err("invalid syntax")
    else
      var digits := if s[0] == '-' || s[0] == '+' then s[1..] else s;
      match ParseDigits(digits)
      case None => Err("invalid syntax")
      case Some(n) => Ok(if s[0] == '-' then 0 - n else n)
  }

  lemma {:induction false} ParseDigitsItoa(n: nat)
    ensures ParseDigits(Itoa(n)) == Some(n)
  {
    var s := Itoa(n);
    if n >= 10 {
      ParseDigitsItoa(n / 10);
      assert s[..|s| - 1] == Itoa(n / 10);
    }
  }

  /** strconv.Itoa. */
  function FormatInt(n: int): string {
    if n < 0 then "-" + Itoa(-n) else Itoa(n)
  }

  /** Reading back a number that was written gives the number. */
  lemma ParseFormatInt(n: int)
    ensures ParseInt(FormatInt(n)) == Ok(n)
  {
    ParseDigitsItoa(if n < 0 then -n else n);
    if n < 0 {
      assert FormatInt(n)[1..] == Itoa(-n);
    } else {
      assert IsDigit(Itoa(n)[0]);
    }
  }

  /** strings.Join. */
  function Join(parts: seq<string>, sep: string): string {
    if parts == [] then ""
    else if |parts| == 1 then parts[0]
    else parts[0] + sep + Join(parts[1..], sep)
  }
}
