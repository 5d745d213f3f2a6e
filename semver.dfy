/**
  Versions as the control-plane contract reads them: a (major, minor, patch)
  triple of unsigned 64-bit numbers, written "MAJOR.MINOR.PATCH" with
  canonical decimal parts, and ordered by the precedence of section 11 of
  Semantic Versioning 2.0.0 for versions without pre-release identifiers.
*/
module Semver {
  import opened Optional
  import Decimal

  newtype uint64 = x: int | 0 <= x < 0x1_0000_0000_0000_0000

  datatype Version = Version(major: uint64, minor: uint64, patch: uint64)

  /** a has lower precedence than b: the first differing part decides. */
  predicate Less(a: Version, b: Version) {
    a.major < b.major
    || (a.major == b.major && a.minor < b.minor)
    || (a.major == b.major && a.minor == b.minor && a.patch < b.patch)
  }

  /** The pieces of s between '.' separators, in order; there is always at least one. */
  function Split(s: string): (parts: seq<string>)
    ensures |parts| >= 1
    decreases |s|
  {
    if s == [] then [""]
    else
      var rest := Split(s[1..]);
      if s[0] == '.' then [""] + rest else [[s[0]] + rest[0]] + rest[1..]
  }

  function Join(parts: seq<string>): string
    requires |parts| >= 1
    decreases |parts|
  {
    if |parts| == 1 then parts[0] else parts[0] + "." + Join(parts[1..])
  }

  function Render(v: Version): string {
    Join([Decimal.Render(v.major as nat), Decimal.Render(v.minor as nat), Decimal.Render(v.patch as nat)])
  }

  function Part(s: string): (r: Option<uint64>)
    ensures r.Some? ==> Decimal.Render(r.value as nat) == s
  {
    match Decimal.Parse(s)
    case Some(n) => if n < 0x1_0000_0000_0000_0000 then Some(n as uint64) else None
    case None => None
  }

  /**
    Parses "MAJOR.MINOR.PATCH". The empty string, a missing or extra part, a
    leading zero, a part too large for 64 bits and any pre-release or build
    suffix are rejected. A parsed version renders back to the same text.
  */
  function Parse(s: string): (r: Option<Version>)
    ensures s == "" ==> r.None?
    ensures r.Some? ==> Render(r.value) == s
  {
    var parts := Split(s);
    if |parts| != 3 then None
    else match (Part(parts[0]), Part(parts[1]), Part(parts[2])) {
      case (Some(a), Some(b), Some(c)) =>
        JoinSplit(s);
        assert [Decimal.Render(a as nat), Decimal.Render(b as nat), Decimal.Render(c as nat)] == parts;
        Some(Version(a, b, c))
      case _ => None
    }
  }

  lemma {:induction false} JoinSplit(s: string)
    ensures Join(Split(s)) == s
    decreases |s|
  {
    if s != [] {
      JoinSplit(s[1..]);
      var rest := Split(s[1..]);
      if s[0] != '.' && |rest| > 1 {
        assert Join(rest) == rest[0] + "." + Join(rest[1..]);
        assert Split(s)[1..] == rest[1..];
      }
    }
  }

  lemma Join3(parts: seq<string>)
    requires |parts| == 3
    ensures Join(parts) == parts[0] + "." + parts[1] + "." + parts[2]
  {
    var tail := parts[1..];
    assert tail[1..] == [parts[2]];
    assert Join(tail) == parts[1] + "." + parts[2];
  }

  lemma {:induction false} SplitPlain(a: string)
    requires '.' !in a
    ensures Split(a) == [a]
    decreases |a|
  {
    if a != [] {
      assert '.' !in a[1..] by {
        forall i | 0 <= i < |a[1..]| ensures a[1..][i] != '.' {
          assert a[1..][i] == a[i + 1];
        }
      }
      SplitPlain(a[1..]);
      assert [a[0]] + a[1..] == a;
    }
  }

  lemma {:induction false} SplitAt(a: string, rest: string)
    requires '.' !in a
    ensures Split(a + "." + rest) == [a] + Split(rest)
    decreases |a|
  {
    if a == [] {
      assert (a + "." + rest)[1..] == rest;
    } else {
      assert (a + "." + rest)[1..] == a[1..] + "." + rest;
      assert '.' !in a[1..] by {
        forall i | 0 <= i < |a[1..]| ensures a[1..][i] != '.' {
          assert a[1..][i] == a[i + 1];
        }
      }
      SplitAt(a[1..], rest);
      assert [a[0]] + a[1..] == a;
    }
  }

  lemma DigitsHaveNoDot(n: nat)
    ensures '.' !in Decimal.Render(n)
  {
    var s := Decimal.Render(n);
    assert forall i :: 0 <= i < |s| ==> s[i] != '.' by {
      assert Decimal.AllDigits(s);
    }
  }

  /** Every version survives rendering and parsing. */
  lemma ParseRender(v: Version)
    ensures Parse(Render(v)) == Some(v)
  {
    var a, b, c := Decimal.Render(v.major as nat), Decimal.Render(v.minor as nat), Decimal.Render(v.patch as nat);
    DigitsHaveNoDot(v.major as nat);
    DigitsHaveNoDot(v.minor as nat);
    DigitsHaveNoDot(v.patch as nat);
    Join3([a, b, c]);
    assert Render(v) == a + "." + (b + "." + c);
    SplitAt(a, b + "." + c);
    SplitAt(b, c);
    SplitPlain(c);
    assert Split(Render(v)) == [a, b, c];
    Decimal.ParseRender(v.major as nat);
    Decimal.ParseRender(v.minor as nat);
    Decimal.ParseRender(v.patch as nat);
  }

  lemma LessIrreflexive(a: Version)
    ensures !Less(a, a)
  {
  }

  lemma LessTransitive(a: Version, b: Version, c: Version)
    requires Less(a, b) && Less(b, c)
    ensures Less(a, c)
  {
  }

  /** Exactly one of a < b, a == b, b < a holds. */
  lemma LessTrichotomy(a: Version, b: Version)
    ensures Less(a, b) || a == b || Less(b, a)
    ensures !(Less(a, b) && Less(b, a))
  {
  }
}
